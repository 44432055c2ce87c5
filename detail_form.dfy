/** The detail form of a selected record (`renderDetailFields`,
    app.js:362-500), as the list of elements it puts in the inputs container. */
module DetailForm {
  import opened Wrappers
  import opened Records
  import opened FieldSpecs

  /** One labelled control: a one-line input or a text area. Its position in
      the form is its `field_<n>` id; its label is its `data-label`. */
  datatype Control = Control(
    labelText: string, value: string, readOnly: bool, multiline: bool, placeholder: string)

  /** What the container holds: controls, the dividers between groups, the
      notice shown when no record is selected, and the block of text shown
      when the clipboard refuses a copy. */
  datatype Element = Input(control: Control) | Divider | Notice(text: string) | Preformatted(text: string)

  const NoSelection := "Selecciona una tarjeta para mostrar los campos."

  /** `createTextInput`: an empty placeholder falls back to `Ingresa <label>`. */
  function TextInput(labelText: string, value: string, readOnly: bool, placeholder: string): (c: Control)
    ensures c.placeholder != "" && !c.multiline
  {
    Control(labelText, value, readOnly, false, if placeholder != "" then placeholder else Prompt(labelText))
  }

  /** `createTextarea`: never read-only, same placeholder fallback. */
  function TextArea(labelText: string, value: string, placeholder: string): (c: Control)
    ensures c.placeholder != "" && c.multiline && !c.readOnly
  {
    Control(labelText, value, false, true, if placeholder != "" then placeholder else Prompt(labelText))
  }

  const ClockLabel := "Fecha y hora"
  const IdLabel := "ID"
  const RutLabel := "RUT"
  const RutHint := "Ingresa el RUT"
  const PhoneLabel := "Tel\U{00E9}fonos"
  const PhoneHint := "Ingresa n\U{00FA}meros de contacto"
  const ReasonLabel := "Motivo Contacto"
  const ProbeLabel := "Sondeo"
  const ProcessLabel := "Proceso"
  const NotesLabel := "Observaciones"

  /** The seven fixed controls that open the form: the clock, three empty
      inputs, and the three text areas pre-filled from columns C, D and E. */
  function Head(item: Script, now: string): (cs: seq<Control>)
    ensures |cs| == 7
  {
    [ TextInput(ClockLabel, now, true, ""),
      TextInput(IdLabel, "", false, ""),
      TextInput(RutLabel, "", false, RutHint),
      TextInput(PhoneLabel, "", false, PhoneHint),
      TextArea(ReasonLabel, item.c, ""),
      TextArea(ProbeLabel, item.d, ""),
      TextArea(ProcessLabel, item.e, "") ]
  }

  /** The fixed controls: only the clock is read-only, the last three are
      text areas, and each has a label and a placeholder. */
  lemma HeadShape(item: Script, now: string)
    ensures var cs := Head(item, now);
      forall k :: 0 <= k < 7 ==>
        && (cs[k].readOnly <==> k == 0)
        && (cs[k].multiline <==> 4 <= k)
        && cs[k].labelText != "" && cs[k].placeholder != ""
  {
  }

  /** One empty input per declared field, in order. */
  function FieldInputs(fields: seq<Field>): (cs: seq<Control>)
    ensures |cs| == |fields|
    ensures forall k :: 0 <= k < |fields| ==>
      cs[k] == TextInput(fields[k].labelText, "", false, fields[k].placeholder)
  {
    if fields == [] then []
    else [TextInput(fields[0].labelText, "", false, fields[0].placeholder)] + FieldInputs(fields[1..])
  }

  /** The closing text area. */
  function Observaciones(): Control {
    TextArea(NotesLabel, "", "")
  }

  function Inputs(cs: seq<Control>): (es: seq<Element>)
    ensures |es| == |cs|
    ensures forall k :: 0 <= k < |cs| ==> es[k] == Input(cs[k])
  {
    if cs == [] then [] else [Input(cs[0])] + Inputs(cs[1..])
  }

  /** The dynamic block: a divider and the field inputs, or nothing. */
  function FieldBlock(fields: seq<Field>): seq<Element> {
    if |fields| > 0 then [Divider] + Inputs(FieldInputs(fields)) else []
  }

  /** The whole container for a selection made at time `now` (the clock's
      text, locale-formatted by the browser). */
  function Form(item: Option<Script>, now: string): seq<Element> {
    match item
    case None => [Notice(NoSelection)]
    case Some(it) =>
      Inputs(Head(it, now)) + FieldBlock(ParseFieldSpec(it.b)) + [Divider, Input(Observaciones())]
  }

  /** The labelled controls of the container, in document order: what
      `querySelectorAll('[data-label]')` finds. */
  function Controls(es: seq<Element>): (cs: seq<Control>)
    ensures |cs| <= |es|
  {
    if es == [] then []
    else (if es[0].Input? then [es[0].control] else []) + Controls(es[1..])
  }

  lemma {:induction false} ControlsAppend(x: seq<Element>, y: seq<Element>)
    ensures Controls(x + y) == Controls(x) + Controls(y)
  {
    if x == [] {
      assert x + y == y;
    } else {
      assert (x + y)[0] == x[0];
      assert (x + y)[1..] == x[1..] + y;
      ControlsAppend(x[1..], y);
    }
  }

  lemma {:induction false} ControlsOfInputs(cs: seq<Control>)
    ensures Controls(Inputs(cs)) == cs
  {
    if cs != [] {
      ControlsOfInputs(cs[1..]);
      assert Inputs(cs)[1..] == Inputs(cs[1..]);
      assert cs == [cs[0]] + cs[1..];
    }
  }

  lemma ControlsOfFieldBlock(fields: seq<Field>)
    ensures Controls(FieldBlock(fields)) == FieldInputs(fields)
  {
    if |fields| > 0 {
      ControlsAppend([Divider], Inputs(FieldInputs(fields)));
      ControlsOfInputs(FieldInputs(fields));
    }
  }

  /** The container opens with a read-only control: in a shown form, the
      clock. */
  predicate ClockFirst(es: seq<Element>) {
    |es| > 0 && es[0].Input? && es[0].control.readOnly
  }

  /** A shown form opens with the clock. */
  lemma FormClockFirst(it: Script, now: string)
    ensures ClockFirst(Form(Some(it), now))
  {
    assert Form(Some(it), now)[0] == Inputs(Head(it, now))[0];
  }

  /** Appending to the container, or changing the value of its first control,
      keeps the clock first. */
  lemma ClockFirstKept(es: seq<Element>, tail: seq<Element>, v: string)
    requires ClockFirst(es)
    ensures ClockFirst(es + tail)
    ensures ClockFirst(es[0 := Input(es[0].control.(value := v))])
  {
    assert (es + tail)[0] == es[0];
  }

  /** Changing the first control changes only the first labelled control. */
  lemma ControlsSetFirst(es: seq<Element>, c: Control)
    requires |es| > 0 && es[0].Input?
    ensures Controls(es[0 := Input(c)]) == [c] + Controls(es)[1..]
  {
    assert es[0 := Input(c)][1..] == es[1..];
  }

  lemma ControlsOfClosing(c: Control)
    ensures Controls([Divider, Input(c)]) == [c]
  {
    assert [Divider, Input(c)][1..] == [Input(c)];
    assert [Input(c)][1..] == [];
  }

  /** The controls of the form shown for `it`. */
  function Shown(it: Script, now: string): (cs: seq<Control>)
    ensures |cs| == 8 + |ParseFieldSpec(it.b)|
  {
    Head(it, now) + FieldInputs(ParseFieldSpec(it.b)) + [Observaciones()]
  }

  /** The controls of a shown form: the fixed head, one input per declared
      field, and the observations area last; dividers carry no label. */
  lemma FormControls(it: Script, now: string)
    ensures Controls(Form(Some(it), now)) == Shown(it, now)
  {
    var fields := ParseFieldSpec(it.b);
    var head := Head(it, now);
    var block := FieldBlock(fields);
    var tail: seq<Element> := [Divider, Input(Observaciones())];
    assert Form(Some(it), now) == Inputs(head) + block + tail;
    ControlsAppend(Inputs(head) + block, tail);
    ControlsAppend(Inputs(head), block);
    ControlsOfInputs(head);
    ControlsOfFieldBlock(fields);
    ControlsOfClosing(Observaciones());
  }

  /** Without a selection there is nothing to fill in. */
  lemma FormUnselected(now: string)
    ensures Controls(Form(None, now)) == []
  {
  }

  /** Where each control of a shown form comes from. */
  lemma ShownAt(it: Script, now: string, k: nat)
    requires k < |Shown(it, now)|
    ensures var n := |ParseFieldSpec(it.b)|;
      && (k < 7 ==> Shown(it, now)[k] == Head(it, now)[k])
      && (7 <= k < 7 + n ==> Shown(it, now)[k] == FieldInputs(ParseFieldSpec(it.b))[k - 7])
      && (k == 7 + n ==> Shown(it, now)[k] == Observaciones())
  {
  }

  /** Only the clock, at position 0, is read-only; it shows `now`. */
  lemma ShownReadOnly(it: Script, now: string)
    ensures var cs := Shown(it, now);
      && cs[0] == TextInput(ClockLabel, now, true, "")
      && forall k :: 0 <= k < |cs| ==> (cs[k].readOnly <==> k == 0)
  {
    HeadShape(it, now);
    var cs := Shown(it, now);
    forall k | 0 <= k < |cs| ensures cs[k].readOnly <==> k == 0 {
      ShownAt(it, now, k);
    }
  }

  /** Text areas are at positions 4 to 6 and last; everything else is one
      line. */
  lemma ShownMultiline(it: Script, now: string)
    ensures var cs := Shown(it, now);
      forall k :: 0 <= k < |cs| ==> (cs[k].multiline <==> 4 <= k < 7 || k == |cs| - 1)
  {
    HeadShape(it, now);
    var cs := Shown(it, now);
    forall k | 0 <= k < |cs| ensures cs[k].multiline <==> 4 <= k < 7 || k == |cs| - 1 {
      ShownAt(it, now, k);
    }
  }

  /** The text areas at positions 4 to 6 hold columns C, D and E; the
      observations area, last, starts empty. */
  lemma ShownPrefilled(it: Script, now: string)
    ensures var cs := Shown(it, now);
      && cs[4] == TextArea(ReasonLabel, it.c, "")
      && cs[5] == TextArea(ProbeLabel, it.d, "")
      && cs[6] == TextArea(ProcessLabel, it.e, "")
      && cs[|cs| - 1] == TextArea(NotesLabel, "", "")
  {
    var cs := Shown(it, now);
    var head := Head(it, now);
    ShownAt(it, now, 4);
    ShownAt(it, now, 5);
    ShownAt(it, now, 6);
    ShownAt(it, now, |cs| - 1);
    assert cs[4] == head[4] && cs[5] == head[5] && cs[6] == head[6];
  }

  /** Positions `7 .. 7 + n` are the declared fields, in order, empty. */
  lemma ShownFields(it: Script, now: string)
    ensures var cs := Shown(it, now);
      var fields := ParseFieldSpec(it.b);
      forall j :: 0 <= j < |fields| ==>
        cs[7 + j] == Control(fields[j].labelText, "", false, false, fields[j].placeholder)
  {
    var fields := ParseFieldSpec(it.b);
    ParseFieldSpecWellFormed(it.b);
    forall j | 0 <= j < |fields|
      ensures Shown(it, now)[7 + j] == Control(fields[j].labelText, "", false, false, fields[j].placeholder)
    {
      ShownAt(it, now, 7 + j);
    }
  }

  /** Every control of a shown form has a label and a placeholder. */
  lemma ShownLabelled(it: Script, now: string)
    ensures var cs := Shown(it, now);
      forall k :: 0 <= k < |cs| ==> cs[k].labelText != "" && cs[k].placeholder != ""
  {
    HeadShape(it, now);
    ParseFieldSpecWellFormed(it.b);
    var cs := Shown(it, now);
    forall k | 0 <= k < |cs| ensures cs[k].labelText != "" && cs[k].placeholder != "" {
      ShownAt(it, now, k);
    }
  }
}
