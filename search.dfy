/** The search box (`performSearch`, app.js:600-609): the records whose
    title contains the query, ignoring case; a blank query shows them all. */
module Search {
  import opened Text
  import opened Records

  /** The query as compared: trimmed and lower-cased. */
  function Needle(query: string): string {
    ToLower(Trim(query))
  }

  /** A record matches when its lower-cased title contains the needle. */
  predicate Matches(r: Script, needle: string) {
    Contains(ToLower(r.a), needle)
  }

  /** `records.filter(...)`: the matching records, in order. */
  function Filter(records: seq<Script>, needle: string): (out: seq<Script>)
    ensures |out| <= |records|
  {
    if records == [] then []
    else (if Matches(records[0], needle) then [records[0]] else []) + Filter(records[1..], needle)
  }

  /** The reference meaning of a match: the needle occurs at some position
      of the text. */
  ghost predicate Occurs(text: string, needle: string) {
    exists i: nat :: OccursAt(text, needle, i)
  }

  /** The cards shown for a query. */
  function Search(records: seq<Script>, query: string): seq<Script> {
    var q := Needle(query);
    if q == "" then records else Filter(records, q)
  }

  /** A record is kept exactly when it matches. */
  lemma {:induction false} FilterMember(records: seq<Script>, needle: string, r: Script)
    ensures r in Filter(records, needle) <==> r in records && Matches(r, needle)
  {
    if records != [] {
      FilterMember(records[1..], needle, r);
      assert records == [records[0]] + records[1..];
    }
  }

  /** Filtering keeps the order of the records. */
  lemma {:induction false} FilterAppend(x: seq<Script>, y: seq<Script>, needle: string)
    ensures Filter(x + y, needle) == Filter(x, needle) + Filter(y, needle)
  {
    if x == [] {
      assert x + y == y;
    } else {
      var xs := x + y;
      assert xs[0] == x[0];
      assert xs[1..] == x[1..] + y;
      FilterAppend(x[1..], y, needle);
      var kept := if Matches(x[0], needle) then [x[0]] else [];
      assert Filter(xs, needle) == kept + (Filter(x[1..], needle) + Filter(y, needle));
      assert Filter(x, needle) == kept + Filter(x[1..], needle);
    }
  }

  /** A card is shown exactly when the query is blank or the record's title
      has the query at some position, ignoring case. */
  lemma SearchMember(records: seq<Script>, query: string, r: Script)
    ensures r in Search(records, query) <==>
      r in records && (Needle(query) == "" || Occurs(ToLower(r.a), Needle(query)))
  {
    var q := Needle(query);
    ContainsIff(ToLower(r.a), q);
    if q != "" {
      FilterMember(records, q, r);
    }
  }

  /** Searching a sheet in two parts is searching each part: the cards stay
      in sheet order. */
  lemma SearchAppend(x: seq<Script>, y: seq<Script>, query: string)
    ensures Search(x + y, query) == Search(x, query) + Search(y, query)
  {
    if Needle(query) != "" {
      FilterAppend(x, y, Needle(query));
    }
  }

  /** White space around the query and the case of its letters do not
      matter. */
  lemma SearchNormalised(records: seq<Script>, query: string)
    ensures Search(records, Trim(query)) == Search(records, query)
    ensures Search(records, ToLower(Trim(query))) == Search(records, query)
  {
    TrimIdempotent(query);
    var t := Trim(query);
    TrimOfLower(t);
    ToLowerIdempotent(t);
  }

  /** Lower-casing a trimmed text leaves it trimmed. */
  lemma TrimOfLower(t: string)
    requires IsTrimmed(t)
    ensures Trim(ToLower(t)) == ToLower(t)
  {
    var l := ToLower(t);
    if t != [] {
      assert l[0] == LowerChar(t[0]) && l[|l| - 1] == LowerChar(t[|t| - 1]);
    }
    TrimOfTrimmed(l);
  }

  /** Every title contains the empty text, so the blank query hides nothing. */
  lemma SearchBlank(records: seq<Script>, query: string)
    requires AllSpace(query)
    ensures Search(records, query) == records
  {
    TrimEmptyIff(query);
  }
}
