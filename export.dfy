/** The text `copyNamesAndContents` puts on the clipboard (app.js:611-649):
    one line per labelled control, the label upper-cased, the observations
    as a block under their label. */
module Export {
  import opened Wrappers
  import opened Text
  import opened DetailForm

  const FallbackLabel := "Campo"
  const NoteWord := "observaciones"
  const NoteWordSingular := "observaci\U{00F3}n"

  /** A control's label, or `Campo` when it has none. */
  function ExportLabel(raw: string): (l: string)
    ensures l != ""
    ensures raw != "" ==> l == raw
  {
    if raw == "" then FallbackLabel else raw
  }

  /** The labels whose value is written as a block: `observaciones` or
      `observación`, in any case and with any surrounding white space. */
  predicate IsNote(raw: string) {
    var normalized := ToLower(Trim(raw));
    normalized == NoteWord || normalized == NoteWordSingular
  }

  /** One line: `LABEL: value`, or `LABEL:` and the value on the next lines
      for the observations. Both the note test and the written label read
      the label after the `Campo` fallback. */
  function ExportLine(c: Control): string {
    var rawLabel := ExportLabel(c.labelText);
    var labelUpper := ToUpper(rawLabel);
    if IsNote(rawLabel) then labelUpper + ":\n" + c.value
    else labelUpper + ": " + c.value
  }

  function ExportLines(cs: seq<Control>): (lines: seq<string>)
    ensures |lines| == |cs|
    ensures forall k :: 0 <= k < |cs| ==> lines[k] == ExportLine(cs[k])
  {
    if cs == [] then [] else [ExportLine(cs[0])] + ExportLines(cs[1..])
  }

  lemma {:induction false} ExportLinesAppend(x: seq<Control>, y: seq<Control>)
    ensures ExportLines(x + y) == ExportLines(x) + ExportLines(y)
  {
    if x == [] {
      assert x + y == y;
    } else {
      assert (x + y)[0] == x[0];
      assert (x + y)[1..] == x[1..] + y;
      ExportLinesAppend(x[1..], y);
    }
  }

  /** One more control gives one more line. */
  lemma ExportLinesSnoc(cs: seq<Control>, n: nat)
    requires n < |cs|
    ensures ExportLines(cs[..n + 1]) == ExportLines(cs[..n]) + [ExportLine(cs[n])]
  {
    var front, c := cs[..n], cs[n];
    assert cs[..n + 1] == front + [c];
    ExportLinesAppend(front, [c]);
    ExportLinesOne(c);
  }

  lemma ExportLinesOne(c: Control)
    ensures ExportLines([c]) == [ExportLine(c)]
  {
  }

  /** The lines joined by line breaks. */
  function ExportText(cs: seq<Control>): string {
    Join(ExportLines(cs), '\n')
  }

  /** The loop of `copyNamesAndContents` over the labelled controls: one
      line per control, in document order, joined by line breaks. */
  method CopyLines(controls: seq<Control>) returns (text: string)
    ensures text == ExportText(controls)
  {
    var lines := [];
    var i := 0;
    while i < |controls|
      invariant i <= |controls|
      invariant lines == ExportLines(controls[..i])
    {
      ExportLinesSnoc(controls, i);
      lines := lines + [ExportLine(controls[i])];
      i := i + 1;
    }
    assert controls[..i] == controls;
    text := Join(lines, '\n');
  }

  // ---------- reading the text back ----------

  /** What a reader takes as the value of a line: what follows the first `:`
      and the space after it. */
  function LineValue(line: string): Option<string> {
    match IndexOf(line, ':')
    case None => None
    case Some(i) => if i + 2 <= |line| then Some(line[i + 2..]) else None
  }

  /** A control that fits on one line of the text: no line break in its
      label or value, no `:` in its label, and not an observations block. */
  predicate OneLine(c: Control) {
    '\n' !in c.labelText && '\n' !in c.value && ':' !in c.labelText && !IsNote(ExportLabel(c.labelText))
  }

  /** The line of a one-line control holds its value after its label. */
  lemma LineValueOfLine(c: Control)
    requires OneLine(c)
    ensures '\n' !in ExportLine(c)
    ensures LineValue(ExportLine(c)) == Some(c.value)
  {
    var u := ToUpper(ExportLabel(c.labelText));
    ExportLinePlain(c);
    UpperLabelClean(c.labelText);
    LineValueOf(u, c.value);
  }

  /** The line of a control that is not an observations block. */
  lemma ExportLinePlain(c: Control)
    requires !IsNote(ExportLabel(c.labelText))
    ensures ExportLine(c) == ToUpper(ExportLabel(c.labelText)) + ": " + c.value
  {
  }

  /** The written label keeps a label free of `:` and line breaks free of
      them. */
  lemma UpperLabelClean(raw: string)
    requires ':' !in raw && '\n' !in raw
    ensures ':' !in ToUpper(ExportLabel(raw)) && '\n' !in ToUpper(ExportLabel(raw))
  {
    assert ':' !in FallbackLabel && '\n' !in FallbackLabel;
    ToUpperKeeps(ExportLabel(raw), ':');
    ToUpperKeeps(ExportLabel(raw), '\n');
  }

  /** The value read back from `label: value`. */
  lemma LineValueOf(u: string, v: string)
    requires ':' !in u && '\n' !in u && '\n' !in v
    ensures '\n' !in u + ": " + v
    ensures LineValue(u + ": " + v) == Some(v)
  {
    var line := u + ": " + v;
    var n := |u|;
    assert line[n] == ':';
    assert line[..n] == u;
    assert line[n + 2..] == v;
  }

  /** The copied text of one-line controls splits back into one line per
      control, each holding that control's value: the copy loses nothing. */
  lemma ExportRoundTrip(cs: seq<Control>)
    requires |cs| >= 1
    requires forall k :: 0 <= k < |cs| ==> OneLine(cs[k])
    ensures var lines := Split(ExportText(cs), '\n');
      |lines| == |cs| && forall k :: 0 <= k < |cs| ==> LineValue(lines[k]) == Some(cs[k].value)
  {
    var lines := ExportLines(cs);
    forall k | 0 <= k < |cs| ensures '\n' !in lines[k] && LineValue(lines[k]) == Some(cs[k].value) {
      LineValueOfLine(cs[k]);
    }
    SplitJoin(lines, '\n');
  }

  /** An observations control at the end writes its value, line breaks and
      all, as the tail of the text, after its label and `:` on a line of its
      own. */
  lemma ExportNoteLast(cs: seq<Control>)
    requires |cs| >= 2 && IsNote(ExportLabel(cs[|cs| - 1].labelText))
    ensures var last := cs[|cs| - 1];
      ExportText(cs) ==
        ExportText(cs[..|cs| - 1]) + "\n" + (ToUpper(ExportLabel(last.labelText)) + ":\n" + last.value)
  {
    ExportTextSnoc(cs);
    ExportLineNote(cs[|cs| - 1]);
  }

  /** The text of one more control: a line break and its line. */
  lemma ExportTextSnoc(cs: seq<Control>)
    requires |cs| >= 2
    ensures ExportText(cs) == ExportText(cs[..|cs| - 1]) + "\n" + ExportLine(cs[|cs| - 1])
  {
    var n := |cs| - 1;
    ExportLinesSnoc(cs, n);
    assert cs[..n + 1] == cs;
    JoinSnoc(ExportLines(cs[..n]), ExportLine(cs[n]), '\n');
  }

  /** The line of an observations control. */
  lemma ExportLineNote(c: Control)
    requires IsNote(ExportLabel(c.labelText))
    ensures ExportLine(c) == ToUpper(ExportLabel(c.labelText)) + ":\n" + c.value
  {
  }

  /** The observations label of the form is a note label. */
  lemma NotesLabelIsNote(t: string)
    requires t == "Observaciones"
    ensures IsNote(t)
  {
    TrimOfTrimmed(t);
    NotesLabelLower(t);
  }

  lemma NotesLabelLower(t: string)
    requires t == "Observaciones"
    ensures ToLower(t) == "observaciones"
  {
  }

  /** The copy of a shown form: the fallback label is never used, and the
      text ends with the observations block. */
  lemma ExportOfForm(it: Records.Script, now: string)
    ensures var cs := Shown(it, now);
      && (forall k :: 0 <= k < |cs| ==> ExportLabel(cs[k].labelText) == cs[k].labelText)
      && ExportText(cs) == ExportText(cs[..|cs| - 1]) + "\n" + (ToUpper(NotesLabel) + ":\n" + cs[|cs| - 1].value)
  {
    var cs := Shown(it, now);
    ShownLabelled(it, now);
    ShownPrefilled(it, now);
    NotesLabelIsNote(NotesLabel);
    ExportNoteLast(cs);
  }
}
