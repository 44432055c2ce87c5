/** `escapeHtml` (app.js:668-673): three global replacements, `&` first, then
    `<`, then `>`. Quotes are left as they are. */
module Escape {
  import opened Text

  /** `s.replace(/c/g, rep)` for a single character `c`. */
  function ReplaceChar(s: string, c: char, rep: string): string {
    if s == [] then []
    else (if s[0] == c then rep else [s[0]]) + ReplaceChar(s[1..], c, rep)
  }

  lemma {:induction false} ReplaceCharAppend(a: string, b: string, c: char, rep: string)
    ensures ReplaceChar(a + b, c, rep) == ReplaceChar(a, c, rep) + ReplaceChar(b, c, rep)
  {
    if a == [] {
      assert a + b == b;
    } else {
      assert (a + b)[0] == a[0];
      assert (a + b)[1..] == a[1..] + b;
      ReplaceCharAppend(a[1..], b, c, rep);
    }
  }

  /** The script's `escapeHtml`, as the three passes it makes. */
  function EscapeHtml(s: string): string {
    ReplaceChar(ReplaceChar(ReplaceChar(s, '&', "&amp;"), '<', "&lt;"), '>', "&gt;")
  }

  /** The entity of one character, the reference the passes are checked against. */
  function EscapeChar(c: char): string {
    if c == '&' then "&amp;"
    else if c == '<' then "&lt;"
    else if c == '>' then "&gt;"
    else [c]
  }

  /** Escaping character by character. */
  function EscapeEach(s: string): (r: string)
    ensures |r| >= |s|
  {
    if s == [] then [] else EscapeChar(s[0]) + EscapeEach(s[1..])
  }

  /** A text without `c` is left as it is. */
  lemma {:induction false} ReplaceCharAbsent(s: string, c: char, rep: string)
    requires c !in s
    ensures ReplaceChar(s, c, rep) == s
  {
    if s != [] {
      ReplaceCharAbsent(s[1..], c, rep);
      assert s == [s[0]] + s[1..];
    }
  }

  lemma ReplaceCharOne(x: char, c: char, rep: string)
    ensures ReplaceChar([x], c, rep) == if x == c then rep else [x]
  {
    assert [x][1..] == [];
  }

  /** The three passes of one character give its entity: `&` is replaced before
      the entities that contain it are introduced. */
  lemma PassesOfChar(c: char)
    ensures EscapeHtml([c]) == EscapeChar(c)
  {
    ReplaceCharOne(c, '&', "&amp;");
    if c == '&' {
      PassesOfAmp();
    } else {
      ReplaceCharOne(c, '<', "&lt;");
      if c == '<' {
        PassesOfLt();
      } else {
        ReplaceCharOne(c, '>', "&gt;");
      }
    }
  }

  /** The later passes leave `&amp;` alone. */
  lemma PassesOfAmp()
    ensures ReplaceChar(ReplaceChar("&amp;", '<', "&lt;"), '>', "&gt;") == "&amp;"
  {
    ReplaceCharAbsent("&amp;", '<', "&lt;");
    ReplaceCharAbsent("&amp;", '>', "&gt;");
  }

  /** The last pass leaves `&lt;` alone. */
  lemma PassesOfLt()
    ensures ReplaceChar("&lt;", '>', "&gt;") == "&lt;"
  {
    ReplaceCharAbsent("&lt;", '>', "&gt;");
  }

  /** The three passes are the per-character escape: escaping never produces
      an entity from the `&` of another entity. */
  lemma {:induction false} EscapeHtmlIsEach(s: string)
    ensures EscapeHtml(s) == EscapeEach(s)
  {
    if s != [] {
      var head, rest := [s[0]], s[1..];
      assert s == head + rest;
      var p1 := ReplaceChar(head, '&', "&amp;");
      var q1 := ReplaceChar(rest, '&', "&amp;");
      ReplaceCharAppend(head, rest, '&', "&amp;");
      var p2 := ReplaceChar(p1, '<', "&lt;");
      var q2 := ReplaceChar(q1, '<', "&lt;");
      ReplaceCharAppend(p1, q1, '<', "&lt;");
      ReplaceCharAppend(p2, q2, '>', "&gt;");
      PassesOfChar(s[0]);
      EscapeHtmlIsEach(rest);
    }
  }

  /** An escaped text holds no `<` and no `>`: it cannot open or close a tag. */
  lemma {:induction false} EscapeEachNoTags(s: string)
    ensures '<' !in EscapeEach(s) && '>' !in EscapeEach(s)
  {
    if s != [] {
      EscapeEachNoTags(s[1..]);
    }
  }

  lemma EscapeHtmlNoTags(s: string)
    ensures '<' !in EscapeHtml(s) && '>' !in EscapeHtml(s)
  {
    EscapeHtmlIsEach(s);
    EscapeEachNoTags(s);
  }

  /** Text with no `&`, `<` or `>` is shown as it is. */
  lemma {:induction false} EscapeEachPlain(s: string)
    requires '&' !in s && '<' !in s && '>' !in s
    ensures EscapeEach(s) == s
  {
    if s != [] {
      EscapeEachPlain(s[1..]);
      assert s == [s[0]] + s[1..];
    }
  }

  /** Escaping empties only the empty text. */
  lemma EscapeHtmlEmpty(s: string)
    ensures EscapeHtml(s) == "" <==> s == ""
  {
    EscapeHtmlIsEach(s);
  }

  /** What a browser shows for escaped text: the three entities read back. */
  function Unescape(s: string): string
    decreases |s|
  {
    if s == [] then []
    else if StartsWith(s, "&amp;") then "&" + Unescape(s[5..])
    else if StartsWith(s, "&lt;") then "<" + Unescape(s[4..])
    else if StartsWith(s, "&gt;") then ">" + Unescape(s[4..])
    else [s[0]] + Unescape(s[1..])
  }

  /** Reading back an escaped text gives the text: escaping loses nothing. */
  lemma {:induction false} UnescapeEscape(s: string)
    ensures Unescape(EscapeHtml(s)) == s
  {
    EscapeHtmlIsEach(s);
    UnescapeEach(s);
  }

  /** Reading back one entity, or one plain character, and what follows it. */
  lemma UnescapeStep(c: char, rest: string)
    ensures Unescape(EscapeChar(c) + rest) == [c] + Unescape(rest)
  {
    if c == '&' {
      UnescapeAmp(rest);
    } else if c == '<' {
      UnescapeLt(rest);
    } else if c == '>' {
      UnescapeGt(rest);
    } else {
      UnescapePlain(c, rest);
    }
  }

  lemma UnescapeAmp(rest: string)
    ensures Unescape("&amp;" + rest) == "&" + Unescape(rest)
  {
    var t := "&amp;" + rest;
    assert t[..5] == "&amp;";
    assert t[5..] == rest;
  }

  lemma UnescapeLt(rest: string)
    ensures Unescape("&lt;" + rest) == "<" + Unescape(rest)
  {
    var t := "&lt;" + rest;
    assert t[..4] == "&lt;";
    assert !StartsWith(t, "&amp;") by {
      assert t[1] == 'l';
      if |t| >= 5 { assert t[..5][1] == 'l'; }
    }
    assert t[4..] == rest;
  }

  lemma UnescapeGt(rest: string)
    ensures Unescape("&gt;" + rest) == ">" + Unescape(rest)
  {
    var t := "&gt;" + rest;
    assert t[..4] == "&gt;";
    assert !StartsWith(t, "&amp;") by {
      assert t[1] == 'g';
      if |t| >= 5 { assert t[..5][1] == 'g'; }
    }
    assert !StartsWith(t, "&lt;") by {
      assert t[..4][1] == 'g';
    }
    assert t[4..] == rest;
  }

  lemma UnescapePlain(c: char, rest: string)
    requires c != '&'
    ensures Unescape([c] + rest) == [c] + Unescape(rest)
  {
    var t := [c] + rest;
    assert t[0] == c;
    assert t[1..] == rest;
  }

  lemma {:induction false} UnescapeEach(s: string)
    ensures Unescape(EscapeEach(s)) == s
  {
    if s != [] {
      UnescapeStep(s[0], EscapeEach(s[1..]));
      UnescapeEach(s[1..]);
      assert s == [s[0]] + s[1..];
    }
  }

  /** Two texts that escape alike are the same text. */
  lemma EscapeHtmlInjective(s: string, t: string)
    requires EscapeHtml(s) == EscapeHtml(t)
    ensures s == t
  {
    UnescapeEscape(s);
    UnescapeEscape(t);
  }
}
