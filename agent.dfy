/** The executive's identity number (cédula) and the agent sheet
    (app.js:133-160): numbers are compared without separators and without
    case, and the first row of the sheet whose column A matches gives the
    name in column B. */
module Agents {
  import opened Wrappers
  import opened Text
  import opened Records

  /** The characters `normalizeCedulaForMatch` removes: `\s`, `.` and `-`. */
  predicate IsSeparator(c: char) {
    IsSpace(c) || c == '.' || c == '-'
  }

  /** `replace(/[\s\.\-]/g, '')`. */
  function StripSeparators(s: string): (r: string)
    ensures |r| <= |s|
    ensures forall k :: 0 <= k < |r| ==> !IsSeparator(r[k])
  {
    if s == [] then []
    else (if IsSeparator(s[0]) then [] else [s[0]]) + StripSeparators(s[1..])
  }

  /** `normalizeCedulaForMatch`: separators removed, then lower-cased. */
  function NormalizeCedula(s: string): string {
    ToLower(StripSeparators(s))
  }

  lemma {:induction false} StripSeparatorsAppend(a: string, b: string)
    ensures StripSeparators(a + b) == StripSeparators(a) + StripSeparators(b)
  {
    if a == [] {
      assert a + b == b;
    } else {
      assert (a + b)[0] == a[0];
      assert (a + b)[1..] == a[1..] + b;
      StripSeparatorsAppend(a[1..], b);
    }
  }

  /** A text without separators is kept as it is. */
  lemma {:induction false} StripSeparatorsClean(s: string)
    requires forall k :: 0 <= k < |s| ==> !IsSeparator(s[k])
    ensures StripSeparators(s) == s
  {
    if s != [] {
      StripSeparatorsClean(s[1..]);
      assert s == [s[0]] + s[1..];
    }
  }

  /** Lower-casing neither makes nor unmakes a separator. */
  lemma LowerCharSeparator(c: char)
    ensures IsSeparator(LowerChar(c)) <==> IsSeparator(c)
  {
  }

  /** The normal form has no separators. */
  lemma NormalizeCedulaClean(s: string)
    ensures var n := NormalizeCedula(s);
      forall k :: 0 <= k < |n| ==> !IsSeparator(n[k])
  {
    var t := StripSeparators(s);
    forall k | 0 <= k < |t| ensures !IsSeparator(ToLower(t)[k]) {
      LowerCharSeparator(t[k]);
    }
  }

  /** Normalising twice is normalising once. */
  lemma NormalizeCedulaIdempotent(s: string)
    ensures NormalizeCedula(NormalizeCedula(s)) == NormalizeCedula(s)
  {
    NormalizeCedulaClean(s);
    StripSeparatorsClean(NormalizeCedula(s));
    ToLowerIdempotent(StripSeparators(s));
  }

  /** A separator anywhere in the number does not change its normal form:
      `12.345.678-9` and `123456789` match the same row. */
  lemma NormalizeCedulaSeparator(a: string, c: char, b: string)
    requires IsSeparator(c)
    ensures NormalizeCedula(a + [c] + b) == NormalizeCedula(a + b)
  {
    StripSeparatorDropped(a, c, b);
  }

  lemma StripSeparatorDropped(a: string, c: char, b: string)
    requires IsSeparator(c)
    ensures StripSeparators(a + [c] + b) == StripSeparators(a + b)
  {
    StripSeparatorsAppend(a + [c], b);
    StripSeparatorsAppend(a, [c]);
    StripSeparatorsAppend(a, b);
    assert StripSeparators([c]) == [] by {
      assert [c][1..] == [];
    }
  }

  /** Separators commute with lower-casing. */
  lemma {:induction false} StripOfLower(s: string)
    ensures StripSeparators(ToLower(s)) == ToLower(StripSeparators(s))
  {
    if s != [] {
      var l := ToLower(s);
      assert l[0] == LowerChar(s[0]);
      assert l[1..] == ToLower(s[1..]);
      LowerCharSeparator(s[0]);
      StripOfLower(s[1..]);
      var t := StripSeparators(s[1..]);
      if !IsSeparator(s[0]) {
        assert ToLower([s[0]] + t) == [LowerChar(s[0])] + ToLower(t);
      }
    }
  }

  /** Case does not matter: `K` and `k` as check digits match alike. */
  lemma NormalizeCedulaCase(s: string)
    ensures NormalizeCedula(ToLower(s)) == NormalizeCedula(s)
  {
    StripOfLower(s);
    ToLowerIdempotent(StripSeparators(s));
  }

  // ---------- the lookup ----------

  /** A sheet row names the agent with the normalised number `key`. */
  predicate RowMatches(row: Row, key: string) {
    NormalizeCedula(Cell(row, 0)) == key
  }

  /** The reference lookup: column B of the first matching row. */
  function AgentLookup(rows: seq<Row>, key: string): Option<string> {
    if rows == [] then None
    else if RowMatches(rows[0], key) then Some(Cell(rows[0], 1))
    else AgentLookup(rows[1..], key)
  }

  /** `findAgentNameByCedula`, once the sheet is read: the scan over the rows. */
  method FindAgentName(rows: seq<Row>, key: string) returns (name: Option<string>)
    ensures name == AgentLookup(rows, key)
  {
    var r := 0;
    while r < |rows|
      invariant r <= |rows|
      invariant AgentLookup(rows[r..], key) == AgentLookup(rows, key)
    {
      assert rows[r..][1..] == rows[r + 1..];
      if NormalizeCedula(Cell(rows[r], 0)) == key {
        return Some(Cell(rows[r], 1));
      }
      r := r + 1;
    }
    return None;
  }

  /** The lookup gives column B of a matching row that no earlier row
      precedes. */
  lemma {:induction false} AgentLookupFirst(rows: seq<Row>, key: string, i: nat)
    requires i < |rows| && RowMatches(rows[i], key)
    requires forall j :: 0 <= j < i ==> !RowMatches(rows[j], key)
    ensures AgentLookup(rows, key) == Some(Cell(rows[i], 1))
  {
    if i > 0 {
      AgentLookupFirst(rows[1..], key, i - 1);
    }
  }

  /** The lookup finds nothing exactly when no row matches. */
  lemma {:induction false} AgentLookupNone(rows: seq<Row>, key: string)
    ensures AgentLookup(rows, key) == None <==> forall j :: 0 <= j < |rows| ==> !RowMatches(rows[j], key)
  {
    if rows != [] {
      AgentLookupNone(rows[1..], key);
      if !RowMatches(rows[0], key) {
        assert forall j :: 1 <= j < |rows| ==> rows[j] == rows[1..][j - 1];
      }
    }
  }

  /** The name `saveEjecutivo` stores for a trimmed, non-empty number: the
      agent's name when the sheet could be read (`Some`) and its first
      matching row has a non-empty column B, the number itself otherwise. */
  function AgentName(cedTrim: string, sheet: Option<seq<Row>>): string {
    match sheet
    case None => cedTrim
    case Some(rows) =>
      match AgentLookup(rows, NormalizeCedula(cedTrim))
      case Some(n) => if n != "" then n else cedTrim
      case None => cedTrim
  }

  /** The stored name is never empty, and it is the number unless the
      sheet names the agent. */
  lemma AgentNameSpec(cedTrim: string, sheet: Option<seq<Row>>)
    requires cedTrim != ""
    ensures AgentName(cedTrim, sheet) != ""
    ensures AgentName(cedTrim, sheet) != cedTrim ==>
      sheet.Some? && AgentLookup(sheet.value, NormalizeCedula(cedTrim)) == Some(AgentName(cedTrim, sheet))
  {
  }

  /** The same number written with other separators or case finds the same
      agent. */
  lemma AgentLookupSpelling(rows: seq<Row>, a: string, c: char, b: string)
    requires IsSeparator(c)
    ensures AgentLookup(rows, NormalizeCedula(a + [c] + b)) == AgentLookup(rows, NormalizeCedula(a + b))
    ensures AgentLookup(rows, NormalizeCedula(ToLower(a))) == AgentLookup(rows, NormalizeCedula(a))
  {
    NormalizeCedulaSeparator(a, c, b);
    NormalizeCedulaCase(a);
  }
}
