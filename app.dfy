/** The page: the sheet's records and the cards shown, the selected card,
    the detail form with its live clock, the information panel, the copy
    button, the executive's record and the theme. */
module App {
  import opened Wrappers
  import opened Text
  import opened Records
  import opened DetailForm
  import Search
  import opened Export
  import opened Agents
  import opened Store
  import opened Theme

  const SelectFirst := "Selecciona primero una tarjeta."
  const NothingToCopy := "No hay campos para copiar."
  const Copied := "Copiado al portapapeles."
  const CopyFailed := "No se pudo copiar autom\U{00E1}ticamente. Aqu\U{00ED} est\U{00E1} el texto:"
  const LoadFailed := "No se pudo cargar /data.xlsx. Coloca data.xlsx en la ra\U{00ED}z y sirve la carpeta con un servidor est\U{00E1}tico (por ejemplo: python -m http.server)."

  /** The name `getEjecutivo` reads from the store: the stored name, or `''`
      when the store fails or holds no executive. */
  function EjecutivoName(store: map<string, Value>, primaryUp: bool): string {
    if primaryUp && EjecutivoKey in store && store[EjecutivoKey].Ejecutivo? then store[EjecutivoKey].name else ""
  }

  /** The text `copyNamesAndContents` produces for a container, when it
      produces one. */
  function CopyText(selected: Option<Script>, container: seq<Element>): Option<string> {
    if selected.Some? && Controls(container) != [] then Some(ExportText(Controls(container))) else None
  }

  class App {
    /** `workbookData`. */
    var records: seq<Script>
    /** The records rendered as cards. */
    var cards: seq<Script>
    /** `selectedRow`. */
    var selected: Option<Script>
    /** The inputs container. */
    var container: seq<Element>
    /** Whether the copy actions are shown. */
    var actionsVisible: bool
    var copyStatus: string
    var fileStatus: string
    /** `dateIntervalId`: the clock's interval, when one is set. */
    var dateTimer: Option<nat>
    /** The intervals the browser is running, and the next id it hands out. */
    var running: set<nat>
    var nextTimer: nat
    /** The `kv` object store, and `localStorage`. */
    var store: map<string, Value>
    var local: map<string, string>
    /** Whether the database opens, and whether `localStorage` can be used. */
    const primaryUp: bool
    const fallbackUp: bool
    /** The document's `data-theme` attribute and the toggle's `aria-pressed`. */
    var themeAttr: Option<string>
    var togglePressed: bool

    /** The clock's interval is the only interval running, and while it runs
        the first control of the container is the read-only clock it updates. */
    predicate Valid()
      reads this
    {
      && running == (if dateTimer.Some? then {dateTimer.value} else {})
      && (forall id :: id in running ==> id < nextTimer)
      && (dateTimer.Some? ==> ClockFirst(container))
    }

    /** The page as it loads: nothing read, nothing selected, no interval. */
    constructor(primaryUp: bool, fallbackUp: bool, store: map<string, Value>, local: map<string, string>)
      ensures Valid()
      ensures this.primaryUp == primaryUp && this.fallbackUp == fallbackUp
      ensures this.store == store && this.local == local
      ensures records == [] && cards == [] && selected == None && container == []
      ensures dateTimer == None && themeAttr == None
    {
      this.primaryUp := primaryUp;
      this.fallbackUp := fallbackUp;
      this.store := store;
      this.local := local;
      records := [];
      cards := [];
      selected := None;
      container := [];
      actionsVisible := false;
      copyStatus := "";
      fileStatus := "";
      dateTimer := None;
      running := {};
      nextTimer := 0;
      themeAttr := None;
      togglePressed := false;
    }

    // ---------- the sheet ----------

    /** `parseWorkbook`, once the sheet is read into rows: one record per row
        whose first cell is not blank, in sheet order. */
    method ParseWorkbook(rows: seq<Row>)
      modifies this`records
      ensures records == ParseRows(rows)
    {
      records := [];
      var i := 0;
      while i < |rows|
        invariant i <= |rows|
        invariant records == ParseRows(rows[..i])
      {
        ParseRowsSnoc(rows, i);
        var row := rows[i];
        if Trim(Cell(row, 0)) != "" {
          records := records + [RecordOf(row, i + 1)];
        }
        i := i + 1;
      }
      assert rows[..i] == rows;
    }

    /** `attemptFetchExcel`: `sheet` is the first sheet of `data.xlsx`, or
        `None` when it could not be fetched; then no card is shown and the
        status says why. */
    method AttemptFetchExcel(sheet: Option<seq<Row>>)
      modifies this`records, this`cards, this`fileStatus
      ensures sheet.Some? ==> records == ParseRows(sheet.value) && cards == records
      ensures sheet.Some? ==> fileStatus == old(fileStatus)
      ensures sheet.None? ==> records == old(records) && cards == [] && fileStatus == LoadFailed
    {
      match sheet
      case Some(rows) =>
        ParseWorkbook(rows);
        cards := records;
      case None =>
        fileStatus := LoadFailed;
        cards := [];
    }

    /** `performSearch`: the cards are the records whose title holds the
        query. */
    method PerformSearch(query: string)
      modifies this`cards
      ensures cards == Search.Search(records, query)
      ensures forall r :: r in cards <==>
        r in records && (Search.Needle(query) == "" || Search.Occurs(ToLower(r.a), Search.Needle(query)))
    {
      cards := Search.Search(records, query);
      forall r ensures r in cards <==>
        r in records && (Search.Needle(query) == "" || Search.Occurs(ToLower(r.a), Search.Needle(query))) {
        Search.SearchMember(records, query, r);
      }
    }

    // ---------- the selection ----------

    /** The first step of `renderDetailFields`: the clock's interval, if
        any, is cleared. */
    method ClearDateTimer()
      requires Valid()
      modifies this`dateTimer, this`running
      ensures Valid() && dateTimer == None && running == {}
    {
      if dateTimer.Some? {
        running := running - {dateTimer.value};
        dateTimer := None;
      }
    }

    /** The last step of `renderDetailFields` for a record: an interval with
        a new id is set for the clock. */
    method StartDateTimer()
      requires dateTimer == None && running == {} && ClockFirst(container)
      requires forall id :: id in running ==> id < nextTimer
      modifies this`dateTimer, this`running, this`nextTimer
      ensures Valid()
      ensures dateTimer == Some(old(nextTimer)) && running == {old(nextTimer)}
    {
      var id := nextTimer;
      nextTimer := nextTimer + 1;
      running := {id};
      dateTimer := Some(id);
    }

    /** `renderDetailFields`: the previous clock interval is always cleared;
        with a record, the form is built at time `now` and a new interval
        keeps its clock current. */
    method RenderDetailFields(item: Option<Script>, now: string)
      requires Valid()
      modifies this`dateTimer, this`running, this`nextTimer, this`container, this`copyStatus, this`actionsVisible
      ensures Valid()
      ensures container == Form(item, now)
      ensures copyStatus == ""
      ensures actionsVisible <==> item.Some?
      ensures running == (if item.Some? then {old(nextTimer)} else {})
    {
      ClearDateTimer();
      copyStatus := "";
      container := Form(item, now);
      actionsVisible := item.Some?;
      if item.Some? {
        FormClockFirst(item.value, now);
        StartDateTimer();
      }
    }

    /** `onCardClick`: the record is selected and the form is rendered for
        it; the information panel, rendered from the same record, is
        `ImportantInfo.Render(selected)`. */
    method OnCardClick(item: Script, now: string)
      requires Valid()
      modifies this`selected, this`dateTimer, this`running, this`nextTimer, this`container,
        this`copyStatus, this`actionsVisible
      ensures Valid()
      ensures selected == Some(item)
      ensures container == Form(selected, now)
      ensures running == {old(nextTimer)}
      ensures actionsVisible && copyStatus == ""
    {
      selected := Some(item);
      RenderDetailFields(selected, now);
    }

    /** One tick of interval `id` at time `now`: the clock shows `now` while
        its interval runs; a cleared interval changes nothing. */
    method Tick(id: nat, now: string)
      requires Valid()
      modifies this`container
      ensures Valid()
      ensures id !in running ==> container == old(container)
      ensures id in running ==>
        && |container| == |old(container)|
        && Controls(container) ==
             [Controls(old(container))[0].(value := now)] + Controls(old(container))[1..]
      ensures id in running ==> forall k :: 1 <= k < |container| ==> container[k] == old(container)[k]
    {
      if id in running {
        var c := container[0].control.(value := now);
        ControlsSetFirst(container, c);
        ClockFirstKept(container, [], now);
        container := container[0 := Input(c)];
      }
    }

    /** The user types `v` into the element at position `k`; only a control
        that is not read-only takes it. */
    method Edit(k: nat, v: string)
      requires Valid()
      modifies this`container
      ensures Valid()
      ensures k < |old(container)| && old(container)[k].Input? && !old(container)[k].control.readOnly ==>
        container == old(container)[k := Input(old(container)[k].control.(value := v))]
      ensures !(k < |old(container)| && old(container)[k].Input? && !old(container)[k].control.readOnly) ==>
        container == old(container)
    {
      if k < |container| && container[k].Input? && !container[k].control.readOnly {
        container := container[k := Input(container[k].control.(value := v))];
      }
    }

    /** The `beforeunload` handler: the clock's interval is cleared. */
    method BeforeUnload()
      requires Valid()
      modifies this`dateTimer, this`running
      ensures Valid()
      ensures dateTimer == None && running == {}
    {
      ClearDateTimer();
    }

    /** `copyNamesAndContents`: the text of the labelled controls, one line
        each, built by the loop over them; `clipboardOk` says whether the
        clipboard takes it. When it does not, the text is shown under the
        form instead. */
    method CopyNamesAndContents(clipboardOk: bool) returns (text: Option<string>)
      requires Valid()
      modifies this`copyStatus, this`container
      ensures Valid()
      ensures text == CopyText(selected, old(container))
      ensures selected.None? ==> copyStatus == SelectFirst
      ensures selected.Some? && Controls(old(container)) == [] ==> copyStatus == NothingToCopy
      ensures text.Some? && clipboardOk ==> copyStatus == Copied && container == old(container)
      ensures text.Some? && !clipboardOk ==>
        copyStatus == CopyFailed && container == old(container) + [Preformatted(text.value)]
      ensures text.None? ==> container == old(container)
      ensures Controls(container) == Controls(old(container))
    {
      copyStatus := "";
      if selected.None? {
        copyStatus := SelectFirst;
        return None;
      }
      var controls := Controls(container);
      if |controls| == 0 {
        copyStatus := NothingToCopy;
        return None;
      }
      var joined := CopyLines(controls);
      if clipboardOk {
        copyStatus := Copied;
      } else {
        copyStatus := CopyFailed;
        ShowText(joined);
      }
      return Some(joined);
    }

    /** The fallback of a refused copy: the text is shown in a block under
        the form, which holds no labelled control. */
    method ShowText(text: string)
      requires Valid()
      modifies this`container
      ensures Valid()
      ensures container == old(container) + [Preformatted(text)]
      ensures Controls(container) == Controls(old(container))
    {
      ControlsAppend(container, [Preformatted(text)]);
      if dateTimer.Some? {
        ClockFirstKept(container, [Preformatted(text)], "");
      }
      container := container + [Preformatted(text)];
    }

    // ---------- the store ----------

    /** `kvGet`: the value under `key`, or the error of a database that does
        not open. */
    method KvGet(key: string) returns (r: Result<Option<Value>, StoreError>)
      ensures primaryUp ==> r == Ok(if key in store then Some(store[key]) else None)
      ensures !primaryUp ==> r == Err(Unavailable)
    {
      if !primaryUp {
        return Err(Unavailable);
      }
      if key in store {
        return Ok(Some(store[key]));
      }
      return Ok(None);
    }

    /** `kvSet`. */
    method KvSet(key: string, v: Value) returns (r: Result<(), StoreError>)
      modifies this`store
      ensures primaryUp ==> r.Ok? && store == old(store)[key := v]
      ensures !primaryUp ==> r == Err(Unavailable) && store == old(store)
    {
      if !primaryUp {
        return Err(Unavailable);
      }
      store := store[key := v];
      return Ok(());
    }

    /** `kvDelete`. */
    method KvDelete(key: string) returns (r: Result<(), StoreError>)
      modifies this`store
      ensures primaryUp ==> r.Ok? && store == old(store) - {key}
      ensures !primaryUp ==> r == Err(Unavailable) && store == old(store)
    {
      if !primaryUp {
        return Err(Unavailable);
      }
      store := store - {key};
      return Ok(());
    }

    /** `getEjecutivo`: the stored name, `''` on any failure. */
    method GetEjecutivo() returns (name: string)
      ensures name == EjecutivoName(store, primaryUp)
      ensures !primaryUp ==> name == ""
    {
      var r := KvGet(EjecutivoKey);
      if r.Ok? && r.value.Some? && r.value.value.Ejecutivo? {
        return r.value.value.name;
      }
      return "";
    }

    /** `saveEjecutivo`: a blank number deletes the record; otherwise the
        trimmed number is stored with the agent's name from `agentSheet`
        (the sheet of `agent.xlsx`, `None` when it cannot be read), or with
        the number itself as the name. A failing store rejects. */
    method SaveEjecutivo(input: string, agentSheet: Option<seq<Row>>) returns (r: Result<string, StoreError>)
      modifies this`store
      ensures var cedTrim := Trim(input);
        && (!primaryUp ==> r == Err(Unavailable) && store == old(store))
        && (primaryUp && cedTrim == "" ==> r == Ok("") && store == old(store) - {EjecutivoKey})
        && (primaryUp && cedTrim != "" ==>
              && r == Ok(AgentName(cedTrim, agentSheet))
              && store == old(store)[EjecutivoKey := Ejecutivo(cedTrim, AgentName(cedTrim, agentSheet))])
      ensures r.Ok? ==> EjecutivoName(store, primaryUp) == r.value
    {
      var cedTrim := Trim(input);
      if cedTrim == "" {
        var d := KvDelete(EjecutivoKey);
        if d.Err? {
          return Err(d.error);
        }
        return Ok("");
      }
      var normalized := NormalizeCedula(cedTrim);
      var finalName := cedTrim;
      if agentSheet.Some? {
        var found := FindAgentName(agentSheet.value, normalized);
        if found.Some? && found.value != "" {
          finalName := found.value;
        }
      }
      var s := KvSet(EjecutivoKey, Ejecutivo(cedTrim, finalName));
      if s.Err? {
        return Err(s.error);
      }
      return Ok(finalName);
    }

    /** `deleteEjecutivo`: a failure is swallowed. */
    method DeleteEjecutivo()
      modifies this`store
      ensures store == if primaryUp then old(store) - {EjecutivoKey} else old(store)
      ensures EjecutivoName(store, primaryUp) == ""
    {
      var r := KvDelete(EjecutivoKey);
    }

    // ---------- the theme ----------

    /** `applyTheme`. */
    method ApplyTheme(theme: string)
      modifies this`themeAttr, this`togglePressed
      ensures themeAttr == Some(Attribute(theme))
      ensures togglePressed <==> theme == Dark
    {
      themeAttr := Some(if theme == Dark then Dark else Light);
      togglePressed := theme == Dark;
    }

    /** `initThemeFromPreference`: the store's preference, or the
        `localStorage` one when the store fails, else light. */
    method InitThemeFromPreference()
      modifies this`themeAttr, this`togglePressed
      ensures themeAttr == Some(InitialTheme(StoredTheme(store, local, primaryUp, fallbackUp)))
      ensures togglePressed <==> themeAttr == Some(Dark)
    {
      var stored: Option<string> := None;
      var r := KvGet(ThemeKey);
      match r {
        case Ok(v) =>
          if v.Some? && v.value.Str? {
            stored := Some(v.value.text);
          }
        case Err(_) =>
          if fallbackUp && ThemeKey in local && local[ThemeKey] != "" {
            stored := Some(local[ThemeKey]);
          }
      }
      if stored == Some(Dark) || stored == Some(Light) {
        ApplyTheme(stored.value);
      } else {
        ApplyTheme(Light);
      }
    }

    /** `toggleTheme`: the other theme is applied and kept in the store, or in
        `localStorage` when the store fails. */
    method ToggleTheme()
      modifies this`themeAttr, this`togglePressed, this`store, this`local
      ensures themeAttr == Some(Attribute(Next(old(themeAttr))))
      ensures togglePressed <==> themeAttr == Some(Dark)
      ensures (store, local) == Persist(old(store), old(local), primaryUp, fallbackUp, Next(old(themeAttr)))
      ensures InitialTheme(StoredTheme(store, local, primaryUp, fallbackUp)) ==
        (if primaryUp || fallbackUp then Next(old(themeAttr)) else InitialTheme(StoredTheme(old(store), old(local), false, false)))
    {
      var current := if themeAttr == Some(Dark) then Dark else Light;
      var next := if current == Dark then Light else Dark;
      ApplyTheme(next);
      var r := KvSet(ThemeKey, Str(next));
      if r.Err? && fallbackUp {
        local := local[ThemeKey := next];
      }
      if primaryUp || fallbackUp {
        PersistThenInit(old(store), old(local), primaryUp, fallbackUp, old(themeAttr));
      }
    }
  }
}
