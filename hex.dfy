/** `normalizeHex` (app.js:32-43): the accent colour of a record. */
module Hex {
  import opened Wrappers
  import opened Text

  predicate IsHexDigit(c: char) {
    '0' <= c <= '9' || 'a' <= c <= 'f' || 'A' <= c <= 'F'
  }

  predicate AllHex(s: string) {
    forall k :: 0 <= k < |s| ==> IsHexDigit(s[k])
  }

  /** The canonical colour: `#` and six lower-case hex digits. */
  predicate IsCanonical(h: string) {
    |h| == 7 && h[0] == '#' && forall k :: 1 <= k < 7 ==> '0' <= h[k] <= '9' || 'a' <= h[k] <= 'f'
  }

  /** What the cell offers as digits: all white space removed, then one leading
      `#` dropped. */
  function Digits(input: string): string {
    var cleaned := RemoveSpaces(input);
    if |cleaned| > 0 && cleaned[0] == '#' then cleaned[1..] else cleaned
  }

  /** Lower-casing hex digits gives lower-case hex digits. */
  predicate AllLowerHex(s: string) {
    forall k :: 0 <= k < |s| ==> '0' <= s[k] <= '9' || 'a' <= s[k] <= 'f'
  }

  lemma LowerHex(s: string)
    requires AllHex(s)
    ensures AllLowerHex(ToLower(s))
  {
  }

  /** The cell with white space removed and a `#` in front if it had none. */
  function WithHash(input: string): (w: string)
    ensures |w| >= 1 && w[0] == '#' && w[1..] == Digits(input)
  {
    RemoveSpacesTrim(input);
    var cleaned := RemoveSpaces(Trim(input));
    if |cleaned| > 0 && cleaned[0] == '#' then cleaned else "#" + cleaned
  }

  /** The colour cell, normalised: None (the script's `null`) for an empty cell
      or anything that is not 3 or 6 hex digits after an optional `#`;
      otherwise `#` and six lower-case digits. */
  function NormalizeHex(input: string): (r: Option<string>)
    ensures r.Some? ==> IsCanonical(r.value)
  {
    if input == "" then None
    else
      var withHash := WithHash(input);
      if |withHash| == 7 && AllHex(withHash[1..]) then
        CanonicalOfLower(withHash);
        Some(ToLower(withHash))
      else if |withHash| == 4 && AllHex(withHash[1..]) then
        var r, g, b := withHash[1], withHash[2], withHash[3];
        CanonicalOfLower(['#', r, r, g, g, b, b]);
        Some(ToLower(['#', r, r, g, g, b, b]))
      else None
  }

  /** `#` and six hex digits, lower-cased, are a canonical colour. */
  lemma CanonicalOfLower(w: string)
    requires |w| == 7 && w[0] == '#'
    requires forall k :: 1 <= k < 7 ==> IsHexDigit(w[k])
    ensures IsCanonical(ToLower(w))
  {
  }

  /** What `NormalizeHex` accepts, in terms of the digits the cell offers:
      exactly 3 or 6 hex digits. */
  lemma NormalizeHexAccepts(input: string)
    ensures NormalizeHex(input).Some? <==> (|Digits(input)| == 6 || |Digits(input)| == 3) && AllHex(Digits(input))
  {
    var w := WithHash(input);
    if input == "" {
      assert Trim(input) == "";
    }
  }

  /** Six digits are lower-cased. */
  lemma NormalizeHexSix(input: string)
    requires |Digits(input)| == 6 && AllHex(Digits(input))
    ensures NormalizeHex(input) == Some("#" + ToLower(Digits(input)))
  {
    var w := WithHash(input);
    assert ToLower(w) == "#" + ToLower(Digits(input));
  }

  /** Three digits `rgb` are read as `rrggbb`, lower-cased. */
  lemma NormalizeHexThree(input: string)
    requires |Digits(input)| == 3 && AllHex(Digits(input))
    ensures var d := ToLower(Digits(input));
      NormalizeHex(input) == Some(['#', d[0], d[0], d[1], d[1], d[2], d[2]])
  {
    var w := WithHash(input);
    var l := ToLower(Digits(input));
    assert ToLower(['#', w[1], w[1], w[2], w[2], w[3], w[3]]) == ['#', l[0], l[0], l[1], l[1], l[2], l[2]];
  }

  /** Lower-case hex digits are left as they are by `ToLower`. */
  lemma {:induction false} ToLowerOfLowerHex(s: string)
    requires AllLowerHex(s)
    ensures ToLower(s) == s
  {
    if s != [] {
      ToLowerOfLowerHex(s[1..]);
      assert s == [s[0]] + s[1..];
    }
  }

  /** A string without white space loses nothing to `RemoveSpaces`. */
  lemma {:induction false} RemoveSpacesNone(s: string)
    requires forall k :: 0 <= k < |s| ==> !IsSpace(s[k])
    ensures RemoveSpaces(s) == s
  {
    if s != [] {
      RemoveSpacesNone(s[1..]);
      assert s == [s[0]] + s[1..];
    }
  }

  /** A canonical colour normalises to itself. */
  lemma NormalizeCanonical(h: string)
    requires IsCanonical(h)
    ensures NormalizeHex(h) == Some(h)
  {
    RemoveSpacesNone(h);
    var d := h[1..];
    assert Digits(h) == d;
    ToLowerOfLowerHex(d);
    NormalizeHexSix(h);
    assert "#" + d == h;
  }

  /** Normalising is idempotent on every colour it produces. */
  lemma NormalizeIdempotent(input: string)
    requires NormalizeHex(input).Some?
    ensures NormalizeHex(NormalizeHex(input).value) == NormalizeHex(input)
  {
    NormalizeCanonical(NormalizeHex(input).value);
  }

  /** The documented spellings of one colour, each checked by way of the
      digits it offers. */
  lemma NormalizeExampleUpper()
    ensures NormalizeHex("ABC") == Some("#aabbcc")
  {
    DigitsOfHex("ABC");
    NormalizeHexThree("ABC");
    LowerOfUpper("ABC");
  }

  lemma LowerOfUpper(t: string)
    requires t == "ABC"
    ensures ToLower(t) == "abc"
  {
  }

  lemma NormalizeExampleHash()
    ensures NormalizeHex("#abc") == Some("#aabbcc")
  {
    RemoveSpacesNone("#abc");
    assert Digits("#abc") == "abc";
    NormalizeHexThree("#abc");
    ToLowerOfLowerHex("abc");
  }

  /** The leading `#` is optional. */
  lemma NormalizeHashOptional(d: string)
    requires forall k :: 0 <= k < |d| ==> !IsSpace(d[k])
    requires d == [] || d[0] != '#'
    ensures NormalizeHex("#" + d) == NormalizeHex(d)
  {
    RemoveSpacesNone(d);
    RemoveSpacesNone("#" + d);
    assert Digits("#" + d) == d;
    NormalizeHexAccepts(d);
    NormalizeHexAccepts("#" + d);
    if |d| == 6 && AllHex(d) {
      NormalizeHexSix(d);
      NormalizeHexSix("#" + d);
    } else if |d| == 3 && AllHex(d) {
      NormalizeHexThree(d);
      NormalizeHexThree("#" + d);
    }
  }

  /** Upper- and lower-case digits give the same colour. */
  lemma NormalizeCaseInsensitive(d: string)
    requires AllHex(d)
    ensures NormalizeHex(ToLower(d)) == NormalizeHex(d)
  {
    var l := ToLower(d);
    LowerHex(d);
    assert AllHex(l);
    RemoveSpacesNone(d);
    RemoveSpacesNone(l);
    assert Digits(d) == d;
    assert Digits(l) == l;
    ToLowerIdempotent(d);
    NormalizeHexAccepts(d);
    NormalizeHexAccepts(l);
    if |d| == 6 {
      NormalizeHexSix(d);
      NormalizeHexSix(l);
    } else if |d| == 3 {
      NormalizeHexThree(d);
      NormalizeHexThree(l);
    }
  }

  /** The short form `rgb` is the long form `rrggbb`. */
  lemma NormalizeShortIsLong(d: string)
    requires |d| == 3 && AllHex(d)
    ensures NormalizeHex(d) == NormalizeHex([d[0], d[0], d[1], d[1], d[2], d[2]])
  {
    var long := [d[0], d[0], d[1], d[1], d[2], d[2]];
    DoubledHex(d, long);
    DigitsOfHex(d);
    DigitsOfHex(long);
    NormalizeHexThree(d);
    NormalizeHexSix(long);
  }

  /** The long form `rrggbb` of three hex digits `rgb` is hex, and
      lower-cases to the long form of the lower-cased digits. */
  lemma DoubledHex(d: string, long: string)
    requires |d| == 3 && AllHex(d)
    requires |long| == 6 && forall k :: 0 <= k < 6 ==> long[k] == d[k / 2]
    ensures AllHex(long)
    ensures var l := ToLower(d);
      "#" + ToLower(long) == ['#', l[0], l[0], l[1], l[1], l[2], l[2]]
  {
    forall k | 0 <= k < 6 ensures IsHexDigit(long[k]) {
      assert long[k] == d[k / 2];
    }
    var l := ToLower(d);
    assert long[0] == d[0] && long[1] == d[0] && long[2] == d[1];
    assert long[3] == d[1] && long[4] == d[2] && long[5] == d[2];
    assert ToLower(long) == [l[0], l[0], l[1], l[1], l[2], l[2]];
  }

  /** Hex digits alone are offered as they are. */
  lemma DigitsOfHex(s: string)
    requires AllHex(s)
    ensures Digits(s) == s
  {
    RemoveSpacesNone(s);
  }

  /** Inputs that are not colours: the empty cell and seven characters. */
  lemma NormalizeExamplesRejected()
    ensures NormalizeHex("") == None
    ensures NormalizeHex("zz00zz1") == None
  {
    NormalizeSevenRejected("zz00zz1");
  }

  /** Seven characters without white space or `#` are never a colour. */
  lemma NormalizeSevenRejected(s: string)
    requires |s| == 7 && forall k :: 0 <= k < |s| ==> !IsSpace(s[k]) && s[k] != '#'
    ensures NormalizeHex(s) == None
  {
    RemoveSpacesNone(s);
    assert Digits(s) == s;
    NormalizeHexAccepts(s);
  }

  /** A second `#` is kept as a digit, which is not a hex digit. */
  lemma NormalizeDoubleHashRejected(d: string)
    requires forall k :: 0 <= k < |d| ==> !IsSpace(d[k])
    requires |d| > 0 && d[0] == '#'
    ensures NormalizeHex("#" + d) == None
  {
    RemoveSpacesNone("#" + d);
    assert Digits("#" + d) == d;
    NormalizeHexAccepts("#" + d);
    assert !IsHexDigit(d[0]);
  }
}
