# Script lookup page, modelled in Dafny

`app.js` is the script of a browser page that a call-centre executive uses to
look up call-handling scripts. It reads the first sheet of `data.xlsx`
into records, one per row with a non-blank title, and shows them as cards
that can be filtered from a search box. When a card is selected, it builds:

- a **detail form** of labelled inputs, opened by a live, read-only clock
  and extended by a small field language in column B;
- an **important information** panel built from the other columns.

A copy button turns the form into text for the clipboard. The page also
keeps two preferences in a key/value store, with `localStorage` as the
fallback for the theme:

- the **executive** (a cédula resolved to a name through `agent.xlsx`);
- the colour **theme**.

This project models that core in Dafny. It has one module per concern.

- `Wrappers` holds `Option` and `Result`, standing for `null` and for a
  thrown error.
- `Text` holds the JavaScript string operations the script relies on:
  `trim`, `replace(/\s+/g, '')`, `split`, `join`, `indexOf`, `includes`,
  `toLowerCase` and `toUpperCase`. JavaScript white space is modelled
  exactly.
- `Hex` is `normalizeHex`.
- `Records` is `parseWorkbook` on a row matrix.
- `FieldSpecs` is the column B mini-language, with a renderer as its
  inverse.
- `DetailForm` is the form, as the list of elements the inputs container
  holds.
- `ImportantInfo` is the panel, as a list of sections instead of HTML.
- `Escape` is `escapeHtml`, with a reader as its inverse.
- `Export` is the copied text, with a reader of its lines.
- `Search` is `performSearch`.
- `Agents` is `normalizeCedulaForMatch` and the row scan of
  `findAgentNameByCedula`.
- `Store` is the `kv` object store's values and keys.
- `Theme` holds the theme functions.
- `App` holds the class `App`, the page's state:
  - the records and the cards shown;
  - the selection;
  - the inputs container;
  - the clock's interval handle, with the set of running intervals;
  - the store and `localStorage`, each with a flag saying whether it works;
  - the theme attribute.

  Its methods are the script's handlers. The class invariant says that
  the clock's interval is the only one running, and that it runs only
  while the container opens with the clock.

Behaviour of the code worth noting, which the model keeps:

- Labels and prompts are Spanish:
  - the form's labels run from `Fecha y hora` to `Observaciones`;
  - the default placeholder is `Ingresa <label>`;
  - the note labels are `observaciones` and `observación`.
- Cell index 9 (column J) is the subtitle `j`. The colour comes from
  cell index 10 (app.js:327-329).
- The subtitle is shown when the escaped column J is non-empty. It is
  not trimmed first (app.js:511, 525).
- `saveEjecutivo` rejects when `kvDelete` or `kvSet` fails
  (app.js:105, 118). Only `deleteEjecutivo` swallows the failure
  (app.js:122-126).
- With no selection, the form is a notice with no labelled control and
  the action buttons are hidden (app.js:372-376). The copy handler stops
  at its own selection test with the select-first message, before it
  counts any controls (app.js:613-616).

## Model

| member | source | states |
|---|---|---|
| Text.Trim | app.js:34 | `trim` leaves no white space at either end |
| Text.TrimOfTrimmed | app.js:34 | a text with no white space at its ends is its own trim |
| Text.TrimIdempotent | app.js:34 | trimming twice is trimming once |
| Text.TrimSplits | app.js:34 | the trim is a middle slice of the text; what it drops at each end is white space |
| Text.TrimEmptyIff | app.js:330 | the trim is empty exactly when the text is all white space |
| Text.TrimLacks | app.js:462-463 | the trim has no character the text lacks |
| Text.RemoveSpaces | app.js:35 | `replace(/\s+/g, '')` leaves no white space |
| Text.RemoveSpacesAppend | app.js:35 | removing white space distributes over concatenation |
| Text.RemoveSpacesTrim | app.js:34-35 | trimming before removing all white space changes nothing |
| Text.Split | app.js:455 | `split(sep)` gives at least one part and no part holds the separator |
| Text.SplitNoSep | app.js:455 | a text without the separator splits into itself alone |
| Text.SplitAppend | app.js:455 | the parts of `a + sep + b` are those of `a` followed by those of `b` |
| Text.JoinSplit | app.js:455 | joining the parts of a split gives the text back |
| Text.SplitJoin | app.js:634 | splitting a join gives the parts back when no part holds the separator |
| Text.JoinSnoc | app.js:634 | joining one more part adds a separator and the part |
| Text.Join | app.js:634 | `join(sep)`: the parts with one separator between neighbours, pinned by `JoinSplit`, `SplitJoin` and `JoinSnoc` |
| Text.NonEmptyTrimmed | app.js:455 | `.map(trim).filter(nonEmpty)` keeps only non-empty trimmed parts, no more than there were |
| Text.NonEmptyTrimmedAppend | app.js:455 | trimming and filtering keeps the order of the parts |
| Text.NonEmptyTrimmedKeeps | app.js:455 | parts already trimmed and non-empty are kept as they are |
| Text.CommaList | app.js:455 | every item of a comma list is non-empty, trimmed and free of commas |
| Text.CommaListAppend | app.js:455 | the comma list of `a,b` is that of `a` followed by that of `b` |
| Text.CommaListBlank | app.js:454-455 | a blank text has no items |
| Text.CommaListSingle | app.js:455 | a text without a comma gives its trim, or nothing when blank |
| Text.IndexOf | app.js:457 | `indexOf` finds the FIRST occurrence, or None exactly when the character is absent |
| Text.ContainsIff | app.js:607 | `includes` holds exactly when the needle occurs at some position |
| Text.Contains | app.js:607 | `includes`: whether the needle occurs in the text; `ContainsIff` gives its meaning |
| Text.ToLower | app.js:601 | `toLowerCase` keeps the length and maps each character |
| Text.ToLowerIdempotent | app.js:601 | lower-casing twice is lower-casing once |
| Text.ToUpperKeeps | app.js:625 | a character below `A` (digits, `!` to `@`, line breaks) occurs in the upper-cased text exactly when it occurs in the text; no ASCII lower-case letter remains |
| Text.ToUpper | app.js:625 | `toUpperCase`, character by character; `ToUpperKeeps` states what it keeps |
| Hex.WithHash | app.js:34-36 | the cleaned cell gets a `#` in front, after which come the digits it offers |
| Hex.NormalizeHex | app.js:32-43 | every colour produced is `#` and six lower-case hex digits |
| Hex.NormalizeHexAccepts | app.js:33-42 | a colour is produced exactly when the cell offers 3 or 6 hex digits |
| Hex.NormalizeHexSix | app.js:37 | six digits are lower-cased behind `#` |
| Hex.NormalizeHexThree | app.js:38-41 | three digits `rgb` become `#rrggbb`, lower-cased |
| Hex.NormalizeCanonical | app.js:32-43 | a canonical colour normalises to itself |
| Hex.NormalizeIdempotent | app.js:32-43 | normalising is idempotent on every colour produced |
| Hex.NormalizeHashOptional | app.js:36 | the leading `#` is optional |
| Hex.NormalizeCaseInsensitive | app.js:37-41 | upper- and lower-case digits give the same colour |
| Hex.NormalizeShortIsLong | app.js:38-41 | the short form `rgb` is the long form `rrggbb` |
| Hex.NormalizeExampleUpper | app.js:38-41 | `ABC` gives `#aabbcc` |
| Hex.NormalizeExampleHash | app.js:36-41 | `#abc` gives `#aabbcc` |
| Hex.NormalizeExamplesRejected | app.js:33-42 | the empty cell and `zz00zz1` give no colour |
| Hex.NormalizeSevenRejected | app.js:37-42 | seven characters without white space or `#` never give a colour |
| Hex.NormalizeDoubleHashRejected | app.js:36-42 | a second leading `#` is kept as a digit and rejects the cell |
| Records.Pushed | app.js:330-331 | a row pushes one record exactly when its first cell is not blank, numbered with its position |
| Records.ParseRows | app.js:315-334 | no more records than rows, each numbered with a row of the sheet |
| Records.ParseRowsSnoc | app.js:316-333 | one more row pushes its record when it is kept |
| Records.ParseRowsSound | app.js:316-333 | every record is the record of the kept row whose number it carries |
| Records.ParseRowsComplete | app.js:330-331 | a row is kept exactly when some record carries its number |
| Records.ParseRowsIncreasing | app.js:331 | row numbers strictly increase along the records |
| Records.ParseRowsUnique | app.js:331 | no two records share a row number |
| Records.ParseRowsExample | app.js:330-331 | a skipped row still uses up its number |
| Records.Keep | app.js:330 | a row is kept when its first cell is not blank after trimming |
| Records.RecordOf | app.js:318-331 | the record of a row: cells 0 to 9 as `a` to `j`, the normalised colour of cell 10, and the 1-based row number |
| Records.Cell | app.js:318-328 | the cell at position `n`, or `''` when the row has no cell there |
| App.App.ParseWorkbook | app.js:310-334 | the loop leaves `workbookData` equal to the records of the rows |
| App.App.AttemptFetchExcel | app.js:295-308 | a read sheet shows all its records; a failed fetch shows none and sets the status message |
| FieldSpecs.Prompt | app.js:460 | the default hint ends with the label |
| FieldSpecs.ParseSegment | app.js:456-465 | a segment's label has no `:` and its placeholder is never empty |
| FieldSpecs.ParseSegmentLacksComma | app.js:456-465 | a segment without a comma gives a field without one |
| FieldSpecs.Kept | app.js:466 | a field is kept exactly when its label is not blank |
| FieldSpecs.Fields | app.js:456-466 | no more fields than segments |
| FieldSpecs.ParseSegmentWellFormed | app.js:456-466 | a kept segment gives a trimmed non-empty label without `,` or `:` and a trimmed non-empty placeholder |
| FieldSpecs.ParseFieldSpecWellFormed | app.js:453-466 | every field parsed from column B is well formed |
| FieldSpecs.ParseFieldSpecUnguarded | app.js:453-455 | the blank-column guard changes nothing |
| FieldSpecs.FieldsAppend | app.js:456-466 | fields keep the order of the segments |
| FieldSpecs.ParseFieldSpecAppend | app.js:455-466 | the fields of `a,b` are those of `a` followed by those of `b` |
| FieldSpecs.Segments | app.js:456-466 | the rendered segments, one per field |
| FieldSpecs.ParseSegmentOfSegment | app.js:457-464 | a segment is split at its FIRST `:` |
| FieldSpecs.KeptOfSegment | app.js:456-466 | the segment of a well-formed field keeps that field |
| FieldSpecs.FieldsOfSegments | app.js:456-466 | parsing the segments of well-formed fields gives the fields back |
| FieldSpecs.ParseRender | app.js:453-466 | every list of well-formed fields is declared by some column B, and parsing it gives them back |
| FieldSpecs.ParseFieldSpecBlankLabel | app.js:462-466 | a segment with a blank label declares no field |
| FieldSpecs.PlainSegment | app.js:458-460 | a segment without `:` is a label with the default hint |
| FieldSpecs.HintedSegment | app.js:461-464 | `label: hint` gives that label and hint |
| FieldSpecs.HintedField | app.js:453-466 | a hinted segment after a space declares its field |
| FieldSpecs.BlankHint | app.js:462-464 | `label:` with a blank hint gets the default hint `Ingresa <label>` |
| FieldSpecs.ParseFieldSpec | app.js:453-466 | the fields declared by column B, pinned by `ParseFieldSpecWellFormed`, `ParseFieldSpecAppend` and `ParseRender` |
| DetailForm.TextInput | app.js:379-400 | an input is one line and always has a placeholder |
| DetailForm.TextArea | app.js:402-423 | a text area is multiline, never read-only, and has a placeholder |
| DetailForm.Head | app.js:425-450 | seven fixed controls open the form |
| DetailForm.HeadShape | app.js:425-450 | only the clock is read-only, the last three are text areas, each is labelled |
| DetailForm.FieldInputs | app.js:476-478 | one empty input per declared field, in order |
| DetailForm.Inputs | app.js:397 | each control becomes one element of the container |
| DetailForm.Controls | app.js:617 | the labelled controls are no more than the elements |
| DetailForm.ControlsAppend | app.js:617 | the controls of two stretches are those of each |
| DetailForm.ControlsOfInputs | app.js:617 | the controls of the inputs are the controls put in |
| DetailForm.ControlsOfFieldBlock | app.js:468-478 | the dynamic block contributes its field inputs and no more |
| DetailForm.FormClockFirst | app.js:427 | a shown form opens with the read-only clock |
| DetailForm.ClockFirstKept | app.js:429-431 | a tick of the clock and a block appended under the form keep it first |
| DetailForm.ControlsSetFirst | app.js:430 | changing the clock changes only the first control |
| DetailForm.Shown | app.js:425-487 | a shown form has 8 controls plus one per declared field |
| DetailForm.FormControls | app.js:425-487 | the controls of a shown form are the head, the field inputs and `Observaciones` |
| DetailForm.FormUnselected | app.js:372-376 | without a selection there is no control |
| DetailForm.ShownAt | app.js:425-487 | where each control of a shown form comes from |
| DetailForm.ShownReadOnly | app.js:427 | the clock is first and is the only read-only control |
| DetailForm.ShownMultiline | app.js:444-487 | the text areas are at positions 4 to 6 and last |
| DetailForm.ShownPrefilled | app.js:444-450 | positions 4 to 6 hold columns C, D and E; the observations start empty |
| DetailForm.ShownFields | app.js:476-478 | positions `7..7+n` are the declared fields, empty and editable |
| DetailForm.ShownLabelled | app.js:379-423 | every control has a label and a placeholder |
| DetailForm.FieldBlock | app.js:468-478 | a divider and one input per declared field, or nothing without fields; `ControlsOfFieldBlock` gives its controls |
| DetailForm.Form | app.js:362-487 | the container: the notice without a selection, otherwise the head, the field block, a divider and `Observaciones`; `FormControls` and `FormUnselected` give its controls |
| App.App.constructor | app.js:14-20 | the page starts with no records, cards, selection, form or clock, over the given stores |
| App.App.ClearDateTimer | app.js:364-368 | the clock's interval, if any, is cleared and the handle nulled |
| App.App.StartDateTimer | app.js:429-431 | a new interval is the only one running |
| App.App.RenderDetailFields | app.js:362-499 | the old interval is always cleared; the container is the form; the actions show exactly with a record; exactly one new interval runs with a record |
| App.App.OnCardClick | app.js:355-360 | the record is selected and its form is rendered |
| App.App.Tick | app.js:429-431 | a running interval puts the time in the clock and changes no other control; a cleared one changes nothing |
| App.App.Edit | app.js:388-394 | typing changes an editable control and nothing else |
| App.App.BeforeUnload | app.js:676-681 | leaving the page clears the interval |
| ImportantInfo.TagList | app.js:512-529 | every tag is non-empty, trimmed and comma-free |
| ImportantInfo.Badges | app.js:539-546 | one badge per tag |
| ImportantInfo.EscapeAll | app.js:575-577 | one escaped bullet per item |
| ImportantInfo.RenderShape | app.js:502-524 | hidden exactly without a record; the border is the colour or `transparent`; the title is first |
| ImportantInfo.RenderBorderOfParsed | app.js:517 | the border of a parsed record is a canonical colour or `transparent` |
| ImportantInfo.SubtitleIff | app.js:511-525 | there is a subtitle exactly when column J is not empty, right after the title |
| ImportantInfo.SubtitleAfterHeader | app.js:524-525 | after the header no section is a subtitle |
| ImportantInfo.HeaderSubtitle | app.js:524-525 | the header is the title and, for a non-empty J, the subtitle |
| ImportantInfo.NoSubtitleAppend | app.js:532-585 | sections without subtitles stay so when joined |
| ImportantInfo.HeadingsOfHeader | app.js:524-525 | the header has no heading |
| ImportantInfo.HeadingsOfTags | app.js:532-534 | `Tipificación` is shown exactly when H or I has a tag |
| ImportantInfo.HeadingsOfNotes | app.js:565-585 | `Motivo`, `Verificaciones` and `Sugerencias` each appear exactly when their column has content |
| ImportantInfo.HeadingsOfSections | app.js:524-585 | where a heading of the panel comes from |
| ImportantInfo.HeadingsIff | app.js:532-585 | each heading is shown exactly when its column has something to show |
| ImportantInfo.BadgesFaithful | app.js:539-560 | each badge reads back as its tag; exactly the badge at index 3 is highlighted, in the row's style |
| ImportantInfo.BadgesSafe | app.js:542-558 | no badge contains `<` or `>` |
| ImportantInfo.EscapeAllSafe | app.js:576 | no bullet contains `<` or `>` |
| ImportantInfo.AllSafeAppend | app.js:524-585 | safe sections stay safe when joined |
| ImportantInfo.HeaderSafe | app.js:510-525 | title and subtitle are escaped |
| ImportantInfo.TagsSafe | app.js:532-562 | the tag rows are escaped |
| ImportantInfo.NotesSafe | app.js:565-585 | reason, checks and suggestions are escaped |
| ImportantInfo.SectionsSafe | app.js:502-589 | nothing from the record can open or close a tag in the panel |
| ImportantInfo.Header | app.js:510-525 | the escaped title, then the escaped subtitle when it is not empty; `HeaderSubtitle` states it |
| ImportantInfo.Tags | app.js:528-562 | `Tipificación` and the badge rows of H and I, each only when it has tags; `HeadingsOfTags` states when |
| ImportantInfo.Notes | app.js:565-585 | reason, checks and suggestions, each under its heading when not blank; `HeadingsOfNotes` states when |
| ImportantInfo.Sections | app.js:510-585 | header, tags and notes in that order; `SubtitleIff`, `HeadingsIff` and `SectionsSafe` pin it |
| ImportantInfo.Render | app.js:502-589 | `renderImportantInfo`: hidden without a record, otherwise bordered sections; `RenderShape` states it |
| Escape.ReplaceChar | app.js:670-672 | one global `replace` of a single character; `ReplaceCharAppend`, `ReplaceCharAbsent` and `ReplaceCharOne` pin it |
| Escape.ReplaceCharAppend | app.js:670-672 | one replacement pass distributes over concatenation |
| Escape.EscapeEach | app.js:668-673 | escaping never shortens a text |
| Escape.ReplaceCharAbsent | app.js:670-672 | a pass leaves a text without its character alone |
| Escape.ReplaceCharOne | app.js:670-672 | a pass on one character |
| Escape.PassesOfChar | app.js:668-673 | the three passes on one character give its entity |
| Escape.PassesOfAmp | app.js:671-672 | the later passes leave `&amp;` alone |
| Escape.PassesOfLt | app.js:672 | the last pass leaves `&lt;` alone |
| Escape.EscapeHtmlIsEach | app.js:668-673 | the three passes are the character-by-character escape |
| Escape.EscapeEachNoTags | app.js:668-673 | an escaped text has no `<` or `>` |
| Escape.EscapeHtmlNoTags | app.js:668-673 | `escapeHtml` output has no `<` or `>` |
| Escape.EscapeEachPlain | app.js:668-673 | text without `&`, `<`, `>` is unchanged |
| Escape.EscapeHtmlEmpty | app.js:668-673 | escaping empties only the empty text |
| Escape.UnescapeEscape | app.js:668-673 | reading back an escaped text gives the text |
| Escape.UnescapeStep | app.js:668-673 | one entity or plain character reads back as itself |
| Escape.UnescapeAmp | app.js:670 | `&amp;` reads back as `&` |
| Escape.UnescapeLt | app.js:671 | `&lt;` reads back as `<` |
| Escape.UnescapeGt | app.js:672 | `&gt;` reads back as `>` |
| Escape.UnescapePlain | app.js:668-673 | a plain character reads back as itself |
| Escape.UnescapeEach | app.js:668-673 | the per-character escape reads back exactly |
| Escape.EscapeHtmlInjective | app.js:668-673 | two texts that escape alike are equal |
| Escape.EscapeHtml | app.js:668-673 | `escapeHtml`: the `&`, `<` and `>` passes in order; `EscapeHtmlIsEach` and `UnescapeEscape` pin it |
| Export.ExportLabel | app.js:624 | the label is never empty and is the control's own when it has one |
| Export.ExportLines | app.js:622-633 | one line per control, in order |
| Export.ExportLinesAppend | app.js:622-633 | the lines of two stretches of controls are those of each |
| Export.ExportLinesSnoc | app.js:623-633 | one more control gives one more line |
| Export.CopyLines | app.js:622-634 | the loop builds the text of the controls |
| Export.LineValueOfLine | app.js:631 | the line of a one-line control holds its value after its label |
| Export.UpperLabelClean | app.js:624-625 | the written label adds no `:` or line break |
| Export.LineValueOf | app.js:631 | the value reads back from `LABEL: value` |
| Export.ExportRoundTrip | app.js:622-634 | the copied text of one-line controls splits into one line per control holding its value |
| Export.ExportTextSnoc | app.js:634 | one more control adds a line break and its line |
| Export.ExportNoteLast | app.js:627-634 | an observations control at the end writes its value, line breaks and all, as the tail under `LABEL:` |
| Export.NotesLabelIsNote | app.js:627-628 | `Observaciones` is a note label |
| Export.ExportOfForm | app.js:617-634 | the copy of a shown form never uses `Campo` and ends with the observations block |
| Export.IsNote | app.js:627-628 | a label is a note when, trimmed and lower-cased, it is `observaciones` or `observación`; `NotesLabelIsNote` is the form's case |
| Export.ExportLine | app.js:624-631 | `LABEL: value`, or `LABEL:` and the value on the next line for a note; `LineValueOfLine` and `ExportNoteLast` read it back |
| Export.ExportText | app.js:622-634 | the lines of the controls joined by line breaks; `ExportRoundTrip` reads it back |
| App.App.CopyNamesAndContents | app.js:611-649 | no selection or no control: a status and no text; otherwise the text of the controls, copied or shown under the form, with the controls unchanged |
| App.App.ShowText | app.js:640-647 | a refused copy shows the text in a block that adds no control |
| Search.Filter | app.js:607 | filtering keeps no more records |
| Search.FilterMember | app.js:607 | a record is kept exactly when it matches |
| Search.FilterAppend | app.js:607 | filtering keeps the order of the records |
| Search.SearchMember | app.js:600-609 | a card is shown exactly when the query is blank or the title holds it at some position, ignoring case |
| Search.SearchAppend | app.js:600-609 | cards stay in sheet order |
| Search.SearchNormalised | app.js:601 | surrounding white space and letter case of the query do not matter |
| Search.TrimOfLower | app.js:601 | lower-casing a trimmed query keeps it trimmed |
| Search.SearchBlank | app.js:602-605 | a blank query shows every record |
| Search.Needle | app.js:601 | the query trimmed and lower-cased; `SearchNormalised` states what it ignores |
| Search.Matches | app.js:607 | the lower-cased title contains the needle; `ContainsIff` gives its meaning |
| Search.Search | app.js:600-609 | `performSearch`'s cards; `SearchMember` and `SearchAppend` pin them |
| App.App.PerformSearch | app.js:600-609 | the cards are the records whose title holds the query |
| Agents.StripSeparators | app.js:135 | no separator is left and the text does not grow |
| Agents.StripSeparatorsAppend | app.js:135 | removing separators distributes over concatenation |
| Agents.StripSeparatorsClean | app.js:135 | a number without separators is kept |
| Agents.LowerCharSeparator | app.js:135 | lower-casing neither makes nor unmakes a separator |
| Agents.NormalizeCedulaClean | app.js:133-136 | the normal form has no separator |
| Agents.NormalizeCedulaIdempotent | app.js:133-136 | normalising twice is normalising once |
| Agents.NormalizeCedulaSeparator | app.js:133-136 | a separator anywhere does not change the normal form |
| Agents.StripSeparatorDropped | app.js:135 | a separator is dropped |
| Agents.StripOfLower | app.js:135 | separators commute with lower-casing |
| Agents.NormalizeCedulaCase | app.js:133-136 | case does not change the normal form |
| Agents.FindAgentName | app.js:147-155 | the scan returns column B of the first row whose normalised column A matches |
| Agents.AgentLookupFirst | app.js:147-155 | the lookup gives column B of a matching row that no earlier row matches |
| Agents.AgentLookupNone | app.js:147-156 | nothing is found exactly when no row matches |
| Agents.AgentNameSpec | app.js:104-113 | the stored name is never empty and is the number unless the sheet names the agent |
| Agents.AgentLookupSpelling | app.js:108-112 | the same number with other separators or case finds the same agent |
| Agents.NormalizeCedula | app.js:133-136 | `normalizeCedulaForMatch`; `NormalizeCedulaClean`, `NormalizeCedulaIdempotent`, `NormalizeCedulaSeparator` and `NormalizeCedulaCase` pin it |
| Agents.AgentLookup | app.js:147-155 | column B of the first matching row; `AgentLookupFirst` and `AgentLookupNone` pin it |
| Agents.RowMatches | app.js:151 | a row matches when its normalised column A equals the normalised number |
| Agents.AgentName | app.js:108-117 | the name `saveEjecutivo` stores; `AgentNameSpec` states it |
| App.App.KvGet | app.js:59-68 | the value under the key, or the error of a database that does not open |
| App.App.KvSet | app.js:69-78 | the key is set, or the store is unchanged and the call rejects |
| App.App.KvDelete | app.js:79-88 | the key is removed, or the store is unchanged and the call rejects |
| App.App.GetEjecutivo | app.js:91-99 | the stored name, `''` when unset or when the read fails |
| App.App.SaveEjecutivo | app.js:100-120 | a blank number deletes the record and returns `''`; otherwise the trimmed number is stored with the looked-up name or itself, and `getEjecutivo` then returns that name; a failing store rejects |
| App.App.DeleteEjecutivo | app.js:121-127 | the record is removed when the store works; either way no name is read back |
| App.EjecutivoName | app.js:91-99 | the name `getEjecutivo` reads, `''` when unset or when the store fails |
| App.CopyText | app.js:612-634 | the text `copyNamesAndContents` builds, none without a selection or controls |
| Theme.Attribute | app.js:689-697 | the attribute is `dark` exactly for `dark`, `light` otherwise |
| Theme.InitialThemeSpec | app.js:715-736 | the start-up theme is `dark` or `light`, and `dark` exactly when `dark` was stored |
| Theme.ToggleFlips | app.js:739-742 | toggling flips the theme, and twice restores it |
| Theme.PersistThenInit | app.js:739-753 | a toggled theme that could be written is the theme of the next start, with the same stores working at the next start |
| Theme.NothingPersisted | app.js:715-736 | with neither store working the next start is light |
| Theme.FallbackUnread | app.js:717-727 | while the store answers, `localStorage` is not read |
| Theme.StoredTheme | app.js:717-726 | the preference read from the store, else from `localStorage` when the store fails |
| Theme.InitialTheme | app.js:729-735 | a stored `dark` or `light`, else `light`; `InitialThemeSpec` states it |
| Theme.Next | app.js:741-742 | the theme after the current attribute; `ToggleFlips` states it |
| Theme.Persist | app.js:744-749 | the toggle writes to the store, else to `localStorage`; `PersistThenInit` states it |
| App.App.ApplyTheme | app.js:688-713 | the attribute is set from the theme, and the toggle is pressed exactly for `dark` |
| App.App.InitThemeFromPreference | app.js:715-736 | the stored preference, or the fallback one when the store fails, else light, is applied |
| App.App.ToggleTheme | app.js:739-753 | the other theme is applied and written to the store or the fallback; the next start shows it when either works, with the same stores working at the next start |

## Left out

- The DOM is not modelled. The container and the panel are lists of
  elements and sections, not HTML nodes. Focus, scrolling,
  `autosizeTextarea`, `goToSearch` and the card markup of `renderResults`
  are left out. In that card markup, column J is written without escaping.
- `fetch`, `XLSX.read` and `sheet_to_json` are not modelled. A sheet is given
  as a row matrix of text cells, and `None` stands for a failed fetch. Cells
  that are not text are not modelled, so `String(cell)` does not appear.
- IndexedDB (`openKVDB`, its transactions and its promises) is not
  modelled. The store is a map, and one flag says whether the database
  opens. `localStorage` is a second map with its own flag.
- `setInterval` ticking is an explicit `Tick(id, now)` call. `new
  Date().toLocaleString()` is an opaque `now` string. `debounce` is not
  modelled.
- `navigator.clipboard.writeText` is the `clipboardOk` flag of
  `CopyNamesAndContents`.
- `toLowerCase` and `toUpperCase` are exact only for ASCII and Latin-1.
  Other characters are left unchanged. The regular expressions are
  written out as character predicates.
- `initEjecutivoUI` (the modal), `window.Ejecutivo`, `initThemeUI` and the
  page's event wiring are not modelled. `updateThemeButtonState` is kept
  only as the toggle's pressed state, without its text or title.
- App.App.OnCardClick: the information panel is not kept as state. It is
  `ImportantInfo.Render(selected)`, which the ImportantInfo lemmas describe.
- DetailForm.ClockFirst: the invariant says only that the first control is
  read-only, not that its label is `Fecha y hora`. `ShownReadOnly` states
  the label for a freshly built form.
