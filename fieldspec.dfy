/** The field specification of column B (app.js:452-479): a comma-separated
    list of `label` or `label:placeholder` segments, each becoming one text
    input of the detail form. */
module FieldSpecs {
  import opened Wrappers
  import opened Text

  /** One dynamic input: its label and the hint shown while it is empty. */
  datatype Field = Field(labelText: string, placeholder: string)

  /** The default hint of an input, `Ingresa <label>`. */
  function Prompt(name: string): (p: string)
    ensures |p| > |name| && p[|p| - |name|..] == name
  {
    "Ingresa " + name
  }

  /** One segment: before the first `:` is the label, after it the placeholder
      (both trimmed); a segment without `:` is all label; a missing or blank
      placeholder falls back to the default hint. */
  function ParseSegment(seg: string): (f: Field)
    ensures ':' !in f.labelText && f.placeholder != ""
  {
    match IndexOf(seg, ':')
    case None => Field(seg, Prompt(seg))
    case Some(ci) =>
      var name := Trim(seg[..ci]);
      var after := Trim(seg[ci + 1..]);
      TrimLacks(seg[..ci], ':');
      Field(name, if after != "" then after else Prompt(name))
  }

  lemma PromptLacksComma(name: string)
    requires ',' !in name
    ensures ',' !in Prompt(name)
  {
    assert ',' !in "Ingresa ";
  }

  /** A segment without a comma gives a field without one. */
  lemma ParseSegmentLacksComma(seg: string)
    requires ',' !in seg
    ensures ',' !in ParseSegment(seg).labelText && ',' !in ParseSegment(seg).placeholder
  {
    var f := ParseSegment(seg);
    match IndexOf(seg, ':')
    case None =>
      PromptLacksComma(seg);
    case Some(ci) =>
      var head, tail := seg[..ci], seg[ci + 1..];
      assert ',' !in head && ',' !in tail;
      TrimLacks(head, ',');
      TrimLacks(tail, ',');
      PromptLacksComma(Trim(head));
      assert f.labelText == Trim(head);
  }

  /** The filter of the script: a field is kept when its label is not blank. */
  predicate Labelled(f: Field) {
    f.labelText != "" && Trim(f.labelText) != ""
  }

  /** The field of one segment, or nothing when its label is blank. */
  function Kept(seg: string): (r: seq<Field>)
    ensures |r| <= 1
    ensures |r| == 1 <==> Labelled(ParseSegment(seg))
    ensures |r| == 1 ==> r[0] == ParseSegment(seg)
  {
    var f := ParseSegment(seg);
    if Labelled(f) then [f] else []
  }

  /** The segments mapped to fields, unlabelled ones dropped, in order. */
  function Fields(segs: seq<string>): (fields: seq<Field>)
    ensures |fields| <= |segs|
  {
    if segs == [] then [] else Kept(segs[0]) + Fields(segs[1..])
  }

  /** The fields declared by column B; none when the column is blank. */
  function ParseFieldSpec(b: string): seq<Field> {
    if b == "" || Trim(b) == "" then [] else Fields(CommaList(b))
  }

  /** What every parsed field looks like: a non-empty trimmed label without
      `,` or `:`, and a non-empty trimmed placeholder without `,`. */
  predicate WellFormed(f: Field) {
    && f.labelText != "" && IsTrimmed(f.labelText) && ',' !in f.labelText && ':' !in f.labelText
    && f.placeholder != "" && IsTrimmed(f.placeholder) && ',' !in f.placeholder
  }

  /** A segment of a comma list with a non-blank label gives a well-formed field. */
  lemma ParseSegmentWellFormed(seg: string)
    requires seg != [] && IsTrimmed(seg) && ',' !in seg
    requires Labelled(ParseSegment(seg))
    ensures WellFormed(ParseSegment(seg))
  {
    var f := ParseSegment(seg);
    ParseSegmentLacksComma(seg);
    match IndexOf(seg, ':')
    case None =>
      assert f.placeholder[|f.placeholder| - 1] == seg[|seg| - 1];
    case Some(ci) =>
      var name := Trim(seg[..ci]);
      if Trim(seg[ci + 1..]) == "" {
        assert f.placeholder[|f.placeholder| - 1] == name[|name| - 1];
      }
  }

  lemma {:induction false} FieldsWellFormed(segs: seq<string>)
    requires forall k :: 0 <= k < |segs| ==> segs[k] != [] && IsTrimmed(segs[k]) && ',' !in segs[k]
    ensures forall k :: 0 <= k < |Fields(segs)| ==> WellFormed(Fields(segs)[k])
  {
    if segs != [] {
      if Labelled(ParseSegment(segs[0])) {
        ParseSegmentWellFormed(segs[0]);
      }
      FieldsWellFormed(segs[1..]);
    }
  }

  /** Every field the form gets from column B is well formed. */
  lemma ParseFieldSpecWellFormed(b: string)
    ensures forall k :: 0 <= k < |ParseFieldSpec(b)| ==> WellFormed(ParseFieldSpec(b)[k])
  {
    if !(b == "" || Trim(b) == "") {
      FieldsWellFormed(CommaList(b));
    }
  }

  /** The blank-column guard of the script changes nothing: a blank column
      has no segments anyway. */
  lemma ParseFieldSpecUnguarded(b: string)
    ensures ParseFieldSpec(b) == Fields(CommaList(b))
  {
    if b == "" || Trim(b) == "" {
      TrimEmptyIff(b);
      CommaListBlank(b);
    }
  }

  lemma {:induction false} FieldsAppend(x: seq<string>, y: seq<string>)
    ensures Fields(x + y) == Fields(x) + Fields(y)
  {
    if x == [] {
      assert x + y == y;
    } else {
      assert (x + y)[0] == x[0];
      assert (x + y)[1..] == x[1..] + y;
      FieldsAppend(x[1..], y);
    }
  }

  /** The fields keep the order of the column: the fields of `a,b` are those
      of `a` followed by those of `b`. */
  lemma ParseFieldSpecAppend(a: string, b: string)
    ensures ParseFieldSpec(a + "," + b) == ParseFieldSpec(a) + ParseFieldSpec(b)
  {
    ParseFieldSpecUnguarded(a + "," + b);
    ParseFieldSpecUnguarded(a);
    ParseFieldSpecUnguarded(b);
    CommaListAppend(a, b);
    FieldsAppend(CommaList(a), CommaList(b));
  }

  // ---------- the inverse: writing a column B ----------

  /** The segment that declares `f`. */
  function Segment(f: Field): string {
    f.labelText + ":" + f.placeholder
  }

  function Segments(fields: seq<Field>): (segs: seq<string>)
    ensures |segs| == |fields|
    ensures forall k :: 0 <= k < |fields| ==> segs[k] == Segment(fields[k])
  {
    if fields == [] then [] else [Segment(fields[0])] + Segments(fields[1..])
  }

  /** The column B text declaring `fields`, segments joined by commas. */
  function Render(fields: seq<Field>): string {
    Join(Segments(fields), ',')
  }

  /** The first `:` of a segment is the one after its label. */
  lemma ParseSegmentOfSegment(f: Field)
    requires WellFormed(f)
    ensures ParseSegment(Segment(f)) == f
  {
    var seg := Segment(f);
    var n := |f.labelText|;
    assert seg[n] == ':';
    assert seg[..n] == f.labelText;
    assert seg[n + 1..] == f.placeholder;
    match IndexOf(seg, ':')
    case Some(ci) =>
      TrimOfTrimmed(f.labelText);
      TrimOfTrimmed(f.placeholder);
  }

  lemma {:induction false} FieldsOfSegments(fields: seq<Field>)
    requires forall k :: 0 <= k < |fields| ==> WellFormed(fields[k])
    ensures Fields(Segments(fields)) == fields
  {
    if fields != [] {
      var segs := Segments(fields);
      KeptOfSegment(fields[0]);
      assert segs[0] == Segment(fields[0]);
      assert segs[1..] == Segments(fields[1..]);
      FieldsOfSegments(fields[1..]);
      assert Fields(segs) == [fields[0]] + fields[1..];
    }
  }

  /** The segment of a well-formed field keeps that field. */
  lemma KeptOfSegment(f: Field)
    requires WellFormed(f)
    ensures Kept(Segment(f)) == [f]
  {
    ParseSegmentOfSegment(f);
    TrimOfTrimmed(f.labelText);
  }

  /** Every list of well-formed fields is declared by some column B: parsing
      the rendered column gives the fields back. */
  lemma ParseRender(fields: seq<Field>)
    requires forall k :: 0 <= k < |fields| ==> WellFormed(fields[k])
    ensures ParseFieldSpec(Render(fields)) == fields
  {
    var segs := Segments(fields);
    forall k | 0 <= k < |segs| ensures segs[k] != [] && IsTrimmed(segs[k]) && ',' !in segs[k] {
      var f := fields[k];
      assert segs[k][0] == f.labelText[0];
      assert segs[k][|segs[k]| - 1] == f.placeholder[|f.placeholder| - 1];
    }
    ParseFieldSpecUnguarded(Render(fields));
    if fields == [] {
      CommaListBlank([]);
    } else {
      SplitJoin(segs, ',');
      NonEmptyTrimmedKeeps(segs);
      FieldsOfSegments(fields);
    }
  }

  /** A segment whose label is blank declares no field. */
  lemma ParseFieldSpecBlankLabel(b: string)
    requires ',' !in b && Trim(b) != "" && Trim(b)[0] == ':'
    ensures ParseFieldSpec(b) == []
  {
    var seg := Trim(b);
    CommaListSingle(b);
    ParseFieldSpecUnguarded(b);
    assert IndexOf(seg, ':') == Some(0);
    assert seg[..0] == [];
  }

  /** One space before a trimmed text is trimmed away. */
  lemma TrimLeadingSpace(t: string)
    requires t != [] && IsTrimmed(t)
    ensures Trim([' '] + t) == t
  {
    var s := [' '] + t;
    assert SkipSpaces(s, 1) == 1;
    assert SkipSpacesBack(s, 1, |s|) == |s|;
    assert s[1..] == t;
  }

  /** A segment without `:` is a label with the default hint. */
  lemma PlainSegment(name: string)
    requires name != [] && IsTrimmed(name) && ':' !in name && ',' !in name
    ensures ParseFieldSpec(name) == [Field(name, Prompt(name))]
  {
    TrimOfTrimmed(name);
    CommaListSingle(name);
    ParseFieldSpecUnguarded(name);
  }

  /** `label: hint`, the spelling with a space after the colon. */
  lemma HintedSegment(name: string, hint: string)
    requires WellFormed(Field(name, hint))
    ensures ParseSegment(name + ": " + hint) == Field(name, hint)
  {
    var seg := name + ": " + hint;
    var n := |name|;
    assert seg[n] == ':';
    assert seg[..n] == name;
    assert seg[n + 1..] == [' '] + hint;
    TrimOfTrimmed(name);
    TrimLeadingSpace(hint);
  }

  /** `label:` with nothing after the colon falls back to the default hint. */
  lemma BlankHint(name: string)
    requires name != [] && IsTrimmed(name) && ':' !in name && ',' !in name
    ensures ParseSegment(name + ":") == Field(name, Prompt(name))
  {
    assert (name + ":")[|name|] == ':';
    assert (name + ":")[..|name|] == name;
    assert (name + ":")[|name| + 1..] == [];
    TrimOfTrimmed(name);
  }

  /** A hinted segment after a comma and a space declares its field. */
  lemma HintedField(name: string, hint: string)
    requires WellFormed(Field(name, hint))
    ensures ParseFieldSpec([' '] + name + ": " + hint) == [Field(name, hint)]
  {
    var seg := name + ": " + hint;
    assert [' '] + name + ": " + hint == [' '] + seg;
    assert seg[0] == name[0] && seg[|seg| - 1] == hint[|hint| - 1];
    TrimLeadingSpace(seg);
    CommaListSingle([' '] + seg);
    ParseFieldSpecUnguarded([' '] + seg);
    HintedSegment(name, hint);
    TrimOfTrimmed(name);
  }
}
