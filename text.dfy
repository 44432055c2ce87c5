/** The string operations of the script: `trim`, whitespace classes, `split`,
    `join`, `indexOf`, `includes` and the case mappings. */
module Text {
  import opened Wrappers

  /** The characters JavaScript treats as white space in `String.prototype.trim`
      and in the regular-expression class `\s`: WhiteSpace (TAB, VT, FF, ZWNBSP
      and every space separator) and LineTerminator (LF, CR, LS, PS). */
  predicate IsSpace(c: char) {
    if c <= ' ' then c == ' ' || '\t' <= c <= '\r'
    else '\U{00A0}' <= c && IsWideSpace(c)
  }

  /** The white space of JavaScript above U+00A0, itself included. */
  predicate IsWideSpace(c: char) {
    || c == '\U{00A0}' || c == '\U{1680}'
    || ('\U{2000}' <= c <= '\U{200A}')
    || c == '\U{2028}' || c == '\U{2029}' || c == '\U{202F}' || c == '\U{205F}'
    || c == '\U{3000}' || c == '\U{FEFF}'
  }

  predicate AllSpace(s: string) {
    forall k :: 0 <= k < |s| ==> IsSpace(s[k])
  }

  // ---------- trim ----------

  /** No white space at either end. */
  predicate IsTrimmed(s: string) {
    s != [] ==> !IsSpace(s[0]) && !IsSpace(s[|s| - 1])
  }

  /** The first position at or after `i` that does not hold white space. */
  function SkipSpaces(s: string, i: nat): (j: nat)
    requires i <= |s|
    ensures i <= j <= |s|
    ensures forall k :: i <= k < j ==> IsSpace(s[k])
    ensures j < |s| ==> !IsSpace(s[j])
    decreases |s| - i
  {
    if i < |s| && IsSpace(s[i]) then SkipSpaces(s, i + 1) else i
  }

  /** Moving back from `j` towards `lo`, the end of the last non-space. */
  function SkipSpacesBack(s: string, lo: nat, j: nat): (e: nat)
    requires lo <= j <= |s|
    ensures lo <= e <= j
    ensures forall k :: e <= k < j ==> IsSpace(s[k])
    ensures e > lo ==> !IsSpace(s[e - 1])
  {
    if j > lo && IsSpace(s[j - 1]) then SkipSpacesBack(s, lo, j - 1) else j
  }

  /** `String.prototype.trim`: no white space is left at either end. */
  function Trim(s: string): (r: string)
    ensures IsTrimmed(r)
  {
    var i := SkipSpaces(s, 0);
    s[i..SkipSpacesBack(s, i, |s|)]
  }

  /** A string with no white space at either end is its own trim. */
  lemma TrimOfTrimmed(s: string)
    requires IsTrimmed(s)
    ensures Trim(s) == s
  {
    if s != [] {
      assert SkipSpaces(s, 0) == 0;
      assert SkipSpacesBack(s, 0, |s|) == |s|;
    }
  }

  /** Trimming twice is trimming once. */
  lemma TrimIdempotent(s: string)
    ensures Trim(Trim(s)) == Trim(s)
  {
    TrimOfTrimmed(Trim(s));
  }

  /** Trim only ever removes white space at the two ends: `s` is some
      white space, then `Trim(s)`, then some white space. */
  lemma TrimSplits(s: string) returns (i: nat)
    ensures i + |Trim(s)| <= |s|
    ensures s == s[..i] + Trim(s) + s[i + |Trim(s)|..]
    ensures AllSpace(s[..i]) && AllSpace(s[i + |Trim(s)|..])
  {
    i := SkipSpaces(s, 0);
    var e := SkipSpacesBack(s, i, |s|);
    assert Trim(s) == s[i..e];
    SliceThree(s, i, e);
    SpacesBetween(s, 0, i);
    SpacesBetween(s, e, |s|);
  }

  /** A text is its three consecutive slices. */
  lemma SliceThree(s: string, i: nat, e: nat)
    requires i <= e <= |s|
    ensures s == s[..i] + s[i..e] + s[e..]
  {
    assert s[..i] + s[i..e] == s[..e];
  }

  /** A stretch of white space read as a slice. */
  lemma SpacesBetween(s: string, lo: nat, hi: nat)
    requires lo <= hi <= |s|
    requires forall k :: lo <= k < hi ==> IsSpace(s[k])
    ensures AllSpace(s[lo..hi])
  {
    forall k | 0 <= k < hi - lo ensures IsSpace(s[lo..hi][k]) {
      assert s[lo..hi][k] == s[lo + k];
    }
  }

  /** The trim is empty exactly when the text is all white space. */
  lemma TrimEmptyIff(s: string)
    ensures Trim(s) == [] <==> AllSpace(s)
  {
    var i := TrimSplits(s);
    var r := Trim(s);
    if r == [] {
      assert s == s[..i] + s[i..];
      forall k | 0 <= k < |s| ensures IsSpace(s[k]) {
        if k < i { assert s[k] == s[..i][k]; } else { assert s[k] == s[i..][k - i]; }
      }
    } else {
      assert s[i] == r[0];
    }
  }

  /** Every character of the trim is a character of the text. */
  lemma TrimLacks(s: string, c: char)
    requires c !in s
    ensures c !in Trim(s)
  {
    var i := TrimSplits(s);
  }

  // ---------- removing characters ----------

  /** `s.replace(/\s+/g, '')`: every white-space character removed. */
  function RemoveSpaces(s: string): (r: string)
    ensures forall k :: 0 <= k < |r| ==> !IsSpace(r[k])
  {
    if s == [] then []
    else (if IsSpace(s[0]) then [] else [s[0]]) + RemoveSpaces(s[1..])
  }

  lemma {:induction false} RemoveSpacesAppend(a: string, b: string)
    ensures RemoveSpaces(a + b) == RemoveSpaces(a) + RemoveSpaces(b)
  {
    if a != [] {
      var head := if IsSpace(a[0]) then [] else [a[0]];
      assert (a + b)[0] == a[0];
      assert (a + b)[1..] == a[1..] + b;
      assert RemoveSpaces(a + b) == head + RemoveSpaces(a[1..] + b);
      RemoveSpacesAppend(a[1..], b);
    } else {
      assert a + b == b;
    }
  }

  lemma {:induction false} RemoveSpacesOfSpaces(s: string)
    requires AllSpace(s)
    ensures RemoveSpaces(s) == []
  {
    if s != [] {
      RemoveSpacesOfSpaces(s[1..]);
    }
  }

  /** Trimming before removing all white space changes nothing. */
  lemma RemoveSpacesTrim(s: string)
    ensures RemoveSpaces(Trim(s)) == RemoveSpaces(s)
  {
    var i := TrimSplits(s);
    var r := Trim(s);
    var head, tail := s[..i], s[i + |r|..];
    RemoveSpacesAppend(head + r, tail);
    RemoveSpacesAppend(head, r);
    RemoveSpacesOfSpaces(head);
    RemoveSpacesOfSpaces(tail);
    assert RemoveSpaces(s) == RemoveSpaces(head) + RemoveSpaces(r) + RemoveSpaces(tail);
  }

  // ---------- split / join ----------

  /** `s.split(sep)` for a one-character separator: one part more than there
      are separators, and no part contains the separator. */
  function Split(s: string, sep: char): (parts: seq<string>)
    ensures |parts| >= 1
    ensures forall k :: 0 <= k < |parts| ==> sep !in parts[k]
  {
    if s == [] then [[]]
    else
      var rest := Split(s[1..], sep);
      if s[0] == sep then [[]] + rest
      else [[s[0]] + rest[0]] + rest[1..]
  }

  /** `parts.join(sep)`. */
  function Join(parts: seq<string>, sep: char): string {
    if |parts| == 0 then []
    else if |parts| == 1 then parts[0]
    else parts[0] + [sep] + Join(parts[1..], sep)
  }

  /** A string without the separator is split into itself alone. */
  lemma {:induction false} SplitNoSep(s: string, sep: char)
    requires sep !in s
    ensures Split(s, sep) == [s]
  {
    if s != [] {
      assert s[0] != sep && sep !in s[1..];
      SplitNoSep(s[1..], sep);
      assert s == [s[0]] + s[1..];
    }
  }

  /** Splitting distributes over a separator: the parts of `a + sep + b` are
      the parts of `a` followed by the parts of `b`. */
  lemma {:induction false} SplitAppend(a: string, b: string, sep: char)
    ensures Split(a + [sep] + b, sep) == Split(a, sep) + Split(b, sep)
  {
    if a == [] {
      assert a + [sep] + b == [sep] + b;
      assert ([sep] + b)[1..] == b;
    } else {
      var s := a + [sep] + b;
      assert s[0] == a[0];
      assert s[1..] == a[1..] + [sep] + b;
      SplitAppend(a[1..], b, sep);
    }
  }

  /** Joining the parts of a split gives back the string. */
  lemma {:induction false} JoinSplit(s: string, sep: char)
    ensures Join(Split(s, sep), sep) == s
  {
    if s != [] {
      var rest := Split(s[1..], sep);
      JoinSplit(s[1..], sep);
      if s[0] == sep {
        assert Split(s, sep) == [[]] + rest;
        assert ([[]] + rest)[1..] == rest;
      } else {
        var parts := Split(s, sep);
        assert parts == [[s[0]] + rest[0]] + rest[1..];
        if |rest| == 1 {
          assert s == [s[0]] + s[1..];
        } else {
          assert parts[1..] == rest[1..];
          assert Join(rest, sep) == rest[0] + [sep] + Join(rest[1..], sep);
          assert s == [s[0]] + s[1..];
        }
      }
    }
  }

  /** Joining one more part adds a separator and the part. */
  lemma {:induction false} JoinSnoc(parts: seq<string>, x: string, sep: char)
    requires |parts| >= 1
    ensures Join(parts + [x], sep) == Join(parts, sep) + [sep] + x
  {
    var all := parts + [x];
    assert all[0] == parts[0];
    if |parts| > 1 {
      assert all[1..] == parts[1..] + [x];
      JoinSnoc(parts[1..], x, sep);
    } else {
      assert all[1..] == [x];
    }
  }

  /** Splitting a join gives back the parts, when no part holds the separator. */
  lemma {:induction false} SplitJoin(parts: seq<string>, sep: char)
    requires |parts| >= 1
    requires forall k :: 0 <= k < |parts| ==> sep !in parts[k]
    ensures Split(Join(parts, sep), sep) == parts
  {
    SplitNoSep(parts[0], sep);
    if |parts| > 1 {
      var tail := parts[1..];
      assert forall k :: 0 <= k < |tail| ==> tail[k] == parts[k + 1];
      SplitJoin(tail, sep);
      var rest := Join(tail, sep);
      assert Join(parts, sep) == parts[0] + [sep] + rest;
      SplitAppend(parts[0], rest, sep);
      assert [parts[0]] + tail == parts;
    }
  }

  /** `s.split(sep).map(t => t.trim()).filter(t => t !== '')`, applied to the
      parts: the trimmed non-empty parts, in order. */
  function NonEmptyTrimmed(parts: seq<string>): (r: seq<string>)
    ensures |r| <= |parts|
    ensures forall k :: 0 <= k < |r| ==> r[k] != [] && IsTrimmed(r[k])
  {
    if parts == [] then []
    else
      var t := Trim(parts[0]);
      (if t == [] then [] else [t]) + NonEmptyTrimmed(parts[1..])
  }

  lemma {:induction false} NonEmptyTrimmedAppend(a: seq<string>, b: seq<string>)
    ensures NonEmptyTrimmed(a + b) == NonEmptyTrimmed(a) + NonEmptyTrimmed(b)
  {
    if a != [] {
      var t := Trim(a[0]);
      var head := if t == [] then [] else [t];
      assert (a + b)[0] == a[0];
      assert (a + b)[1..] == a[1..] + b;
      assert NonEmptyTrimmed(a + b) == head + NonEmptyTrimmed(a[1..] + b);
      NonEmptyTrimmedAppend(a[1..], b);
      assert NonEmptyTrimmed(a) == head + NonEmptyTrimmed(a[1..]);
    } else {
      assert a + b == b;
    }
  }

  /** Every kept element is the trim of some part, so it has no character the
      parts all lack. */
  lemma {:induction false} NonEmptyTrimmedLacks(parts: seq<string>, c: char)
    requires forall k :: 0 <= k < |parts| ==> c !in parts[k]
    ensures forall k :: 0 <= k < |NonEmptyTrimmed(parts)| ==> c !in NonEmptyTrimmed(parts)[k]
  {
    if parts != [] {
      TrimLacks(parts[0], c);
      NonEmptyTrimmedLacks(parts[1..], c);
    }
  }

  /** Parts that are already trimmed and non-empty are all kept, as they are. */
  lemma {:induction false} NonEmptyTrimmedKeeps(parts: seq<string>)
    requires forall k :: 0 <= k < |parts| ==> parts[k] != [] && IsTrimmed(parts[k])
    ensures NonEmptyTrimmed(parts) == parts
  {
    if parts != [] {
      TrimOfTrimmed(parts[0]);
      NonEmptyTrimmedKeeps(parts[1..]);
      assert parts == [parts[0]] + parts[1..];
    }
  }

  /** The parts of a blank text are blank. */
  lemma {:induction false} SplitBlank(s: string, sep: char)
    requires AllSpace(s)
    ensures forall k :: 0 <= k < |Split(s, sep)| ==> AllSpace(Split(s, sep)[k])
  {
    if s != [] {
      SplitBlank(s[1..], sep);
    }
  }

  lemma {:induction false} NonEmptyTrimmedBlank(parts: seq<string>)
    requires forall k :: 0 <= k < |parts| ==> AllSpace(parts[k])
    ensures NonEmptyTrimmed(parts) == []
  {
    if parts != [] {
      TrimEmptyIff(parts[0]);
      NonEmptyTrimmedBlank(parts[1..]);
    }
  }

  /** The comma list of the script: `s.split(',').map(trim).filter(nonEmpty)`. */
  function CommaList(s: string): (r: seq<string>)
    ensures forall k :: 0 <= k < |r| ==> r[k] != [] && IsTrimmed(r[k]) && ',' !in r[k]
  {
    NonEmptyTrimmedLacks(Split(s, ','), ',');
    NonEmptyTrimmed(Split(s, ','))
  }

  /** The comma list of `a,b` is the comma list of `a` followed by that of
      `b`: the list keeps the order of the text. */
  lemma CommaListAppend(a: string, b: string)
    ensures CommaList(a + "," + b) == CommaList(a) + CommaList(b)
  {
    SplitAppend(a, b, ',');
    NonEmptyTrimmedAppend(Split(a, ','), Split(b, ','));
  }

  /** A blank text has an empty comma list. */
  lemma CommaListBlank(s: string)
    requires AllSpace(s)
    ensures CommaList(s) == []
  {
    SplitBlank(s, ',');
    NonEmptyTrimmedBlank(Split(s, ','));
  }

  /** Text without a comma gives its own trim, or nothing when it is blank. */
  lemma CommaListSingle(s: string)
    requires ',' !in s
    ensures CommaList(s) == if Trim(s) == [] then [] else [Trim(s)]
  {
    SplitNoSep(s, ',');
    assert Split(s, ',')[1..] == [];
  }

  // ---------- indexOf ----------

  /** `s.indexOf(c)`: the position of the FIRST `c`, or None (the script's -1). */
  function IndexOf(s: string, c: char): (r: Option<nat>)
    ensures r.None? <==> c !in s
    ensures r.Some? ==> r.value < |s| && s[r.value] == c && c !in s[..r.value]
  {
    if s == [] then None
    else if s[0] == c then Some(0)
    else
      match IndexOf(s[1..], c)
      case None => None
      case Some(i) =>
        assert s[..i + 1] == [s[0]] + s[1..][..i];
        Some(i + 1)
  }

  // ---------- includes ----------

  predicate StartsWith(s: string, p: string) {
    |p| <= |s| && s[..|p|] == p
  }

  /** `q` occurs in `s` starting at position `i`. */
  predicate OccursAt(s: string, q: string, i: nat) {
    i + |q| <= |s| && s[i..i + |q|] == q
  }

  /** `s.includes(q)`, scanning from the left. */
  predicate Contains(s: string, q: string)
    decreases |s|
  {
    StartsWith(s, q) || (|s| > 0 && Contains(s[1..], q))
  }

  /** An occurrence in the tail is an occurrence one position further on. */
  lemma OccursShift(s: string, q: string, i: nat)
    requires |s| > 0
    ensures OccursAt(s[1..], q, i) <==> OccursAt(s, q, i + 1)
  {
    if i + 1 + |q| <= |s| {
      assert s[1..][i..i + |q|] == s[i + 1..i + 1 + |q|];
    }
  }

  /** The scan finds `q` exactly when `q` occurs at some position of `s`. */
  lemma {:induction false} ContainsIff(s: string, q: string)
    ensures Contains(s, q) <==> exists i: nat :: OccursAt(s, q, i)
    decreases |s|
  {
    if StartsWith(s, q) {
      assert OccursAt(s, q, 0);
    } else if |s| > 0 {
      ContainsIff(s[1..], q);
      if Contains(s[1..], q) {
        var i: nat :| OccursAt(s[1..], q, i);
        OccursShift(s, q, i);
      } else {
        forall i: nat | OccursAt(s, q, i) ensures false {
          if i > 0 {
            OccursShift(s, q, i - 1);
          }
        }
      }
    }
  }

  // ---------- case mapping ----------

  /** `toLowerCase` on one character: exact on ASCII and Latin-1 (where every
      upper-case letter is 32 code points below its lower-case form; U+00D7,
      the multiplication sign, is not a letter). Other characters unchanged. */
  function LowerChar(c: char): char {
    if 'A' <= c <= 'Z' || ('\U{00C0}' <= c <= '\U{00DE}' && c != '\U{00D7}')
    then (c as int + 32) as char
    else c
  }

  /** `toUpperCase` on one character, which may give two: exact on ASCII and
      Latin-1 (ß becomes SS, ÿ becomes U+0178, µ becomes U+039C). */
  function UpperChar(c: char): seq<char> {
    if 'a' <= c <= 'z' || ('\U{00E0}' <= c <= '\U{00FE}' && c != '\U{00F7}')
    then [(c as int - 32) as char]
    else if c == '\U{00DF}' then "SS"
    else if c == '\U{00FF}' then ['\U{0178}']
    else if c == '\U{00B5}' then ['\U{039C}']
    else [c]
  }

  /** `toLowerCase`: the characters mapped one by one, so the length is kept. */
  function ToLower(s: string): (r: string)
    ensures |r| == |s|
    ensures forall k :: 0 <= k < |s| ==> r[k] == LowerChar(s[k])
  {
    if s == [] then [] else [LowerChar(s[0])] + ToLower(s[1..])
  }

  /** `toUpperCase`: the characters mapped one by one, some into two. */
  function ToUpper(s: string): string {
    if s == [] then [] else UpperChar(s[0]) + ToUpper(s[1..])
  }

  /** Characters below `A` (digits, punctuation, line breaks) are in the
      upper-cased text exactly when they are in the text, and no ASCII
      lower-case letter is left. */
  lemma {:induction false} ToUpperKeeps(s: string, c: char)
    requires c < 'A'
    ensures c in ToUpper(s) <==> c in s
    ensures forall k :: 0 <= k < |ToUpper(s)| ==> !('a' <= ToUpper(s)[k] <= 'z')
  {
    if s != [] {
      ToUpperKeeps(s[1..], c);
      var u, rest := UpperChar(s[0]), ToUpper(s[1..]);
      assert ToUpper(s) == u + rest;
      assert c in u <==> c == s[0];
      assert s == [s[0]] + s[1..];
      forall k | 0 <= k < |u + rest| ensures !('a' <= (u + rest)[k] <= 'z') {
        if k >= |u| {
          assert (u + rest)[k] == rest[k - |u|];
        }
      }
    }
  }

  lemma LowerCharIdempotent(c: char)
    ensures LowerChar(LowerChar(c)) == LowerChar(c)
  {
  }

  /** Lower-casing twice is lower-casing once. */
  lemma ToLowerIdempotent(s: string)
    ensures ToLower(ToLower(s)) == ToLower(s)
  {
    forall k | 0 <= k < |s| ensures ToLower(ToLower(s))[k] == ToLower(s)[k] {
      LowerCharIdempotent(s[k]);
    }
  }
}
