/** The "important information" panel of a selected record
    (`renderImportantInfo`, app.js:502-589), as the list of sections it
    shows. */
module ImportantInfo {
  import opened Wrappers
  import opened Text
  import opened Escape
  import opened Records
  import Hex

  /** The colours of a highlighted badge. */
  datatype Highlight = Highlight(background: string, foreground: string)

  /** One tag of a metadata row. */
  datatype Badge = Badge(text: string, highlight: Option<Highlight>)

  /** The blocks of the panel, in the order they are written. */
  datatype Section =
    | Title(text: string)
    | Subtitle(text: string)
    | Heading(text: string)
    | TagRow(source: char, badges: seq<Badge>)
    | Paragraph(text: string)
    | Bullets(items: seq<string>)

  /** The panel is hidden, or shown with a left border colour and sections. */
  datatype InfoView = Hidden | Shown(border: string, sections: seq<Section>)

  /** The fourth tag of row H is white on red, that of row I black on yellow. */
  const HStyle := Highlight("#FF5050", "#fff")
  const IStyle := Highlight("#FFE699", "#000")

  /** The border of a record without a colour. */
  const NoColor := "transparent"

  const Classification := "Tipificaci\U{00F3}n"
  const Reason := "Motivo"
  const Checks := "Verificaciones"
  const Suggestions := "Sugerencias"

  /** A column read as a comma list after trimming; a blank column has none. */
  function TagList(col: string): (tags: seq<string>)
    ensures forall k :: 0 <= k < |tags| ==> tags[k] != [] && IsTrimmed(tags[k]) && ',' !in tags[k]
  {
    var t := Trim(col);
    if t == "" then [] else CommaList(t)
  }

  /** Each tag escaped; only the one at index 3 is highlighted. */
  function Badges(tags: seq<string>, style: Highlight): (bs: seq<Badge>)
    ensures |bs| == |tags|
  {
    seq(|tags|, k requires 0 <= k < |tags| => Badge(EscapeHtml(tags[k]), if k == 3 then Some(style) else None))
  }

  function EscapeAll(items: seq<string>): (es: seq<string>)
    ensures |es| == |items|
    ensures forall k :: 0 <= k < |items| ==> es[k] == EscapeHtml(items[k])
  {
    if items == [] then [] else [EscapeHtml(items[0])] + EscapeAll(items[1..])
  }

  /** The title, and the subtitle when column J is not empty. */
  function Header(a: string, j: string): seq<Section> {
    var subtitle := EscapeHtml(j);
    [Title(EscapeHtml(a))] + (if subtitle != "" then [Subtitle(subtitle)] else [])
  }

  /** The classification heading and the rows of tags of columns H and I. */
  function Tags(hItems: seq<string>, iItems: seq<string>): seq<Section> {
    (if |hItems| > 0 || |iItems| > 0 then [Heading(Classification)] else [])
    + (if |hItems| > 0 then [TagRow('H', Badges(hItems, HStyle))] else [])
    + (if |iItems| > 0 then [TagRow('I', Badges(iItems, IStyle))] else [])
  }

  /** The reason (column C), the checks (column F, one bullet per item) and
      the suggestions (column G), each under its heading when not blank. */
  function Notes(colC: string, fItems: seq<string>, colG: string): seq<Section> {
    (if colC != "" then [Heading(Reason), Paragraph(EscapeHtml(colC))] else [])
    + (if |fItems| > 0 then [Heading(Checks), Bullets(EscapeAll(fItems))] else [])
    + (if colG != "" then [Heading(Suggestions), Paragraph(EscapeHtml(colG))] else [])
  }

  function Sections(it: Script): seq<Section> {
    Header(it.a, it.j) + Tags(TagList(it.h), TagList(it.i)) + Notes(Trim(it.c), TagList(it.f), Trim(it.g))
  }

  /** The panel for the selection: hidden without one; otherwise bordered
      with the record's colour, or transparent when it has none. */
  function Render(item: Option<Script>): InfoView {
    match item
    case None => Hidden
    case Some(it) => Shown(it.color.GetOr(NoColor), Sections(it))
  }

  // ---------- what the panel shows ----------

  /** The panel is hidden exactly when nothing is selected; a shown panel
      opens with the escaped title and is bordered with the record's colour,
      or `transparent`. */
  lemma RenderShape(item: Option<Script>)
    ensures Render(item).Hidden? <==> item.None?
    ensures item.Some? ==> Render(item).border == (if item.value.color.Some? then item.value.color.value else NoColor)
    ensures item.Some? ==> Render(item).sections[0] == Title(EscapeHtml(item.value.a))
  {
    if item.Some? {
      var it := item.value;
      assert Sections(it)[0] == Header(it.a, it.j)[0];
    }
  }

  /** The border of a record parsed from a sheet is a canonical colour or
      `transparent`. */
  lemma RenderBorderOfParsed(row: Row, number: nat)
    ensures var border := Render(Some(RecordOf(row, number))).border;
      border == NoColor || Hex.IsCanonical(border)
  {
  }

  /** There is a subtitle exactly when column J is not empty: the escaped
      column, right after the title. */
  lemma SubtitleIff(it: Script)
    ensures forall k :: 0 <= k < |Sections(it)| ==> (Sections(it)[k].Subtitle? <==> k == 1 && it.j != "")
    ensures it.j != "" ==> |Sections(it)| > 1 && Sections(it)[1] == Subtitle(EscapeHtml(it.j))
  {
    var tags, notes := Tags(TagList(it.h), TagList(it.i)), Notes(Trim(it.c), TagList(it.f), Trim(it.g));
    NoSubtitleInTags(TagList(it.h), TagList(it.i));
    NoSubtitleInNotes(Trim(it.c), TagList(it.f), Trim(it.g));
    NoSubtitleAppend(tags, notes);
    SubtitleAfterHeader(it.a, it.j, tags + notes);
    assert Sections(it) == Header(it.a, it.j) + (tags + notes);
  }

  /** The header followed by sections without a subtitle. */
  lemma SubtitleAfterHeader(a: string, j: string, rest: seq<Section>)
    requires NoSubtitle(rest)
    ensures var s := Header(a, j) + rest;
      forall k :: 0 <= k < |s| ==> (s[k].Subtitle? <==> k == 1 && j != "")
    ensures j != "" ==> |Header(a, j) + rest| > 1 && (Header(a, j) + rest)[1] == Subtitle(EscapeHtml(j))
  {
    var head := Header(a, j);
    HeaderSubtitle(a, j);
    var s := head + rest;
    forall k | 0 <= k < |s| ensures s[k].Subtitle? <==> k == 1 && j != "" {
      if k >= |head| {
        assert s[k] == rest[k - |head|];
      } else {
        assert s[k] == head[k];
      }
    }
  }

  lemma HeaderSubtitle(a: string, j: string)
    ensures |Header(a, j)| == if j != "" then 2 else 1
    ensures forall k :: 0 <= k < |Header(a, j)| ==> (Header(a, j)[k].Subtitle? <==> k == 1)
    ensures j != "" ==> Header(a, j)[1] == Subtitle(EscapeHtml(j))
  {
    EscapeHtmlEmpty(j);
  }

  predicate NoSubtitle(ss: seq<Section>) {
    forall k :: 0 <= k < |ss| ==> !ss[k].Subtitle?
  }

  lemma NoSubtitleAppend(x: seq<Section>, y: seq<Section>)
    requires NoSubtitle(x) && NoSubtitle(y)
    ensures NoSubtitle(x + y)
  {
    forall k | 0 <= k < |x + y| ensures !(x + y)[k].Subtitle? {
      if k >= |x| {
        assert (x + y)[k] == y[k - |x|];
      }
    }
  }

  lemma NoSubtitleInTags(hItems: seq<string>, iItems: seq<string>)
    ensures NoSubtitle(Tags(hItems, iItems))
  {
  }

  lemma NoSubtitleInNotes(colC: string, fItems: seq<string>, colG: string)
    ensures NoSubtitle(Notes(colC, fItems, colG))
  {
  }

  /** The headings of each group. */
  lemma HeadingsOfHeader(a: string, j: string, h: string)
    ensures Heading(h) !in Header(a, j)
  {
  }

  lemma HeadingsOfTags(hItems: seq<string>, iItems: seq<string>, h: string)
    ensures Heading(h) in Tags(hItems, iItems) <==> h == Classification && (hItems != [] || iItems != [])
  {
  }

  lemma HeadingsOfNotes(colC: string, fItems: seq<string>, colG: string, h: string)
    ensures Heading(h) in Notes(colC, fItems, colG) <==>
      || (h == Reason && colC != "")
      || (h == Checks && fItems != [])
      || (h == Suggestions && colG != "")
  {
    var x := if colC != "" then [Heading(Reason), Paragraph(EscapeHtml(colC))] else [];
    var y := if |fItems| > 0 then [Heading(Checks), Bullets(EscapeAll(fItems))] else [];
    var z := if colG != "" then [Heading(Suggestions), Paragraph(EscapeHtml(colG))] else [];
    assert Notes(colC, fItems, colG) == x + y + z;
  }

  /** Where a heading of the panel comes from. */
  lemma HeadingsOfSections(it: Script, h: string)
    ensures Heading(h) in Sections(it) <==>
      || (h == Classification && (TagList(it.h) != [] || TagList(it.i) != []))
      || (h == Reason && Trim(it.c) != "")
      || (h == Checks && TagList(it.f) != [])
      || (h == Suggestions && Trim(it.g) != "")
  {
    HeadingsOfHeader(it.a, it.j, h);
    HeadingsOfTags(TagList(it.h), TagList(it.i), h);
    HeadingsOfNotes(Trim(it.c), TagList(it.f), Trim(it.g), h);
  }

  /** Each heading is shown exactly when its column has something to show:
      the classification for a tag in H or I, the reason for a non-blank C,
      the checks for an item in F, the suggestions for a non-blank G. */
  lemma HeadingsIff(it: Script)
    ensures Heading(Classification) in Sections(it) <==> TagList(it.h) != [] || TagList(it.i) != []
    ensures Heading(Reason) in Sections(it) <==> Trim(it.c) != ""
    ensures Heading(Checks) in Sections(it) <==> TagList(it.f) != []
    ensures Heading(Suggestions) in Sections(it) <==> Trim(it.g) != ""
  {
    assert Classification != Reason && Classification != Checks && Classification != Suggestions;
    assert Reason != Checks && Reason != Suggestions && Checks != Suggestions;
    HeadingsOfSections(it, Classification);
    HeadingsOfSections(it, Reason);
    HeadingsOfSections(it, Checks);
    HeadingsOfSections(it, Suggestions);
  }

  /** A tag row shows its column's tags, each read back exactly, and
      highlights the fourth tag and no other. */
  lemma BadgesFaithful(tags: seq<string>, style: Highlight)
    ensures var bs := Badges(tags, style);
      && (forall k :: 0 <= k < |tags| ==> Unescape(bs[k].text) == tags[k])
      && (forall k :: 0 <= k < |tags| ==> (bs[k].highlight.Some? <==> k == 3))
      && (forall k :: 0 <= k < |tags| ==> bs[k].highlight.Some? ==> bs[k].highlight.value == style)
  {
    var bs := Badges(tags, style);
    forall k | 0 <= k < |tags| ensures Unescape(bs[k].text) == tags[k] {
      UnescapeEscape(tags[k]);
    }
  }

  /** No text a section shows from the record contains `<` or `>`. */
  predicate Safe(s: Section) {
    match s
    case Title(t) => '<' !in t && '>' !in t
    case Subtitle(t) => '<' !in t && '>' !in t
    case Heading(_) => true
    case TagRow(_, bs) => forall k :: 0 <= k < |bs| ==> '<' !in bs[k].text && '>' !in bs[k].text
    case Paragraph(t) => '<' !in t && '>' !in t
    case Bullets(xs) => forall k :: 0 <= k < |xs| ==> '<' !in xs[k] && '>' !in xs[k]
  }

  lemma BadgesSafe(tags: seq<string>, style: Highlight)
    ensures Safe(TagRow('H', Badges(tags, style))) && Safe(TagRow('I', Badges(tags, style)))
  {
    forall k | 0 <= k < |tags| {
      EscapeHtmlNoTags(tags[k]);
    }
  }

  lemma EscapeAllSafe(items: seq<string>)
    ensures Safe(Bullets(EscapeAll(items)))
  {
    forall k | 0 <= k < |items| {
      EscapeHtmlNoTags(items[k]);
    }
  }

  predicate AllSafe(ss: seq<Section>) {
    forall k :: 0 <= k < |ss| ==> Safe(ss[k])
  }

  lemma AllSafeAppend(x: seq<Section>, y: seq<Section>)
    requires AllSafe(x) && AllSafe(y)
    ensures AllSafe(x + y)
  {
    forall k | 0 <= k < |x + y| ensures Safe((x + y)[k]) {
      if k >= |x| {
        assert (x + y)[k] == y[k - |x|];
      } else {
        assert (x + y)[k] == x[k];
      }
    }
  }

  lemma HeaderSafe(a: string, j: string)
    ensures AllSafe(Header(a, j))
  {
    EscapeHtmlNoTags(a);
    EscapeHtmlNoTags(j);
  }

  lemma TagsSafe(hItems: seq<string>, iItems: seq<string>)
    ensures AllSafe(Tags(hItems, iItems))
  {
    BadgesSafe(hItems, HStyle);
    BadgesSafe(iItems, IStyle);
  }

  lemma NotesSafe(colC: string, fItems: seq<string>, colG: string)
    ensures AllSafe(Notes(colC, fItems, colG))
  {
    EscapeHtmlNoTags(colC);
    EscapeHtmlNoTags(colG);
    EscapeAllSafe(fItems);
    var x := if colC != "" then [Heading(Reason), Paragraph(EscapeHtml(colC))] else [];
    var y := if |fItems| > 0 then [Heading(Checks), Bullets(EscapeAll(fItems))] else [];
    var z := if colG != "" then [Heading(Suggestions), Paragraph(EscapeHtml(colG))] else [];
    AllSafeAppend(x, y);
    AllSafeAppend(x + y, z);
  }

  /** Nothing the record holds can open or close a tag in the panel. */
  lemma SectionsSafe(it: Script)
    ensures forall k :: 0 <= k < |Sections(it)| ==> Safe(Sections(it)[k])
  {
    var head, tags, notes := Header(it.a, it.j), Tags(TagList(it.h), TagList(it.i)), Notes(Trim(it.c), TagList(it.f), Trim(it.g));
    HeaderSafe(it.a, it.j);
    TagsSafe(TagList(it.h), TagList(it.i));
    NotesSafe(Trim(it.c), TagList(it.f), Trim(it.g));
    AllSafeAppend(head, tags);
    AllSafeAppend(head + tags, notes);
  }
}
