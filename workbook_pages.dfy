// The two workbook pages: a module's page, which reads its module from the
// route, renders each activity with its stored answer and links to its
// neighbours, and the dashboard, which greets the participant and shows
// the overall and per-module progress.

module WorkbookModulePage {

  import opened Strings
  import opened Format
  import opened WorkbookData
  import WorkbookResponses
  import WorkbookProgress
  import ActivitySlider
  import ActivityTable

  // ---------------------------------------------------------------------
  // Route and navigation

  /** `parseInt(moduleId || '1', 10)`; `None` is NaN. */
  function CurrentModuleId(param: Option<string>): (r: Option<int>)
    ensures !Truthy(param) ==> r == Some(1)
    ensures Truthy(param) ==> r == ParseInt(param.value)
  {
    ParseDigits("1", "");
    assert "1" + "" == "1";
    if Truthy(param) then ParseInt(param.value) else ParseInt("1")
  }

  /** The module the page shows: the one whose id equals the parsed id; NaN
    * equals no id. */
  function PageModule(param: Option<string>): (r: Option<ModuleData>)
    ensures r.Some? <==> exists id :: CurrentModuleId(param) == Some(id) && 1 <= id <= 4
    ensures r.Some? ==> CurrentModuleId(param) == Some(r.value.id) && r.value == Modules[r.value.id - 1]
  {
    var id := CurrentModuleId(param);
    if id.Some? then FindModule(id.value) else None
  }

  /** The paths the page's two effects navigate to, in order: the entry page
    * once auth has loaded with no participant, the dashboard when no module
    * matches. */
  function Redirects(authLoading: bool, hasUser: bool, moduleFound: bool): (r: seq<string>)
    ensures "/caderno" in r <==> !authLoading && !hasUser
    ensures "/caderno/dashboard" in r <==> !moduleFound
    ensures |r| <= 2
  {
    (if !authLoading && !hasUser then ["/caderno"] else []) +
    (if !moduleFound then ["/caderno/dashboard"] else [])
  }

  /** The previous and next module ids, when there are such modules. */
  function Neighbours(id: int): (r: (Option<int>, Option<int>))
    ensures r.0.Some? <==> id > 1
    ensures r.0.Some? ==> r.0.value == id - 1
    ensures r.1.Some? <==> id < 4
    ensures r.1.Some? ==> r.1.value == id + 1
  {
    (if id > 1 then Some(id - 1) else None, if id < 4 then Some(id + 1) else None)
  }

  const ModulePath := "/caderno/modulo/"
  const DashboardPath := "/caderno/dashboard"

  /** Where the "previous" and "next" buttons lead: the neighbour's page, or
    * the dashboard where there is none. */
  function NavTarget(neighbour: Option<int>): string {
    if neighbour.Some? then ModulePath + IntToString(neighbour.value) else DashboardPath
  }

  /** From a module's page the neighbours are modules the page finds again:
    * each button leads to a page showing the adjacent module, and only the
    * first and last module's outer buttons lead to the dashboard. */
  lemma NavigationLeadsToModules(id: int, forward: bool)
    requires 1 <= id <= 4
    ensures var n := if forward then Neighbours(id).1 else Neighbours(id).0;
            var target := NavTarget(n);
            (target == DashboardPath <==> (if forward then id == 4 else id == 1)) &&
            (n.Some? ==> StartsWith(target, ModulePath) &&
                         PageModule(Some(target[|ModulePath|..])) == Some(Modules[n.value - 1]) &&
                         Modules[n.value - 1].id == n.value)
  {
    var n := if forward then Neighbours(id).1 else Neighbours(id).0;
    if n.Some? {
      var target := NavTarget(n);
      var digits := IntToString(n.value);
      assert target[|ModulePath|..] == digits + "";
      ParseIntToString(n.value, "");
      assert Truthy(Some(digits));
      assert target != DashboardPath by {
        assert target[..|ModulePath|] == ModulePath;
      }
    }
  }

  /** Going forward and then back returns to the same module. */
  lemma NextThenPrevious(id: int)
    requires 1 <= id < 4
    ensures Neighbours(Neighbours(id).1.value).0 == Some(id)
  {
  }

  /** A route parameter written from a module id reads back as that id. */
  lemma RouteRoundTrip(id: int)
    ensures CurrentModuleId(Some(IntToString(id))) == Some(id)
  {
    ParseIntToString(id, "");
    assert IntToString(id) + "" == IntToString(id);
  }

  // ---------------------------------------------------------------------
  // Rendering the activities

  /** The widget the page renders for an activity, with the props that come
    * from the stored answers. */
  datatype Widget =
    | TextareaWidget(id: string, text: string)
    | SliderWidget(id: string, title: string, min: Option<int>, max: Option<int>, position: int)
    | TableWidget(id: string, columns: seq<string>, rows: seq<map<string, string>>)
    | CheckboxWidget(id: string, options: seq<string>, selected: seq<string>)

  /** The slider's value when nothing numeric is stored. */
  const DefaultPosition := 5

  /** `renderActivity`: a widget of the activity's kind, fed the stored
    * answer when it has the widget's shape and the default otherwise; the
    * "text" kind renders nothing. */
  function Render(a: Activity, responses: map<string, WorkbookResponses.Response>): (r: Option<Widget>)
    ensures r.None? <==> a.kind == Text
    ensures r.Some? ==> r.value.id == a.id
    ensures a.kind == Textarea ==> (r.Some? && r.value.TextareaWidget? &&
               r.value.text == (if a.id in responses && responses[a.id].Text? then responses[a.id].text else ""))
    ensures a.kind == Slider ==> (r.Some? && r.value.SliderWidget? &&
               r.value.title == OrEmpty(a.title) && r.value.min == a.min && r.value.max == a.max &&
               r.value.position == (if a.id in responses && responses[a.id].Number? then responses[a.id].number else DefaultPosition))
    ensures a.kind == Table ==> (r.Some? && r.value.TableWidget? &&
               r.value.columns == (if a.columns.Some? then a.columns.value else []) &&
               r.value.rows == (if a.id in responses && responses[a.id].TableRows? then responses[a.id].rows else []))
    ensures a.kind == Checkbox ==> (r.Some? && r.value.CheckboxWidget? &&
               r.value.options == (if a.options.Some? then a.options.value else []) &&
               r.value.selected == (if a.id in responses && responses[a.id].Choices? then responses[a.id].items else []))
  {
    var value := if a.id in responses then Some(responses[a.id]) else None;
    match a.kind
    case Textarea =>
      Some(TextareaWidget(a.id, if value.Some? && value.value.Text? then value.value.text else ""))
    case Slider =>
      Some(SliderWidget(a.id, OrEmpty(a.title), a.min, a.max,
                        if value.Some? && value.value.Number? then value.value.number else DefaultPosition))
    case Table =>
      Some(TableWidget(a.id, if a.columns.Some? then a.columns.value else [],
                       if value.Some? && value.value.TableRows? then value.value.rows else []))
    case Checkbox =>
      Some(CheckboxWidget(a.id, if a.options.Some? then a.options.value else [],
                          if value.Some? && value.value.Choices? then value.value.items else []))
    case Text => None
  }

  /** What a widget's `onSave` stores: its value, under its own id. */
  function Saved(w: Widget): (r: WorkbookResponses.Response) {
    match w
    case TextareaWidget(_, text) => WorkbookResponses.Text(text)
    case SliderWidget(_, _, _, _, position) => WorkbookResponses.Number(position)
    case TableWidget(_, _, rows) => WorkbookResponses.TableRows(rows)
    case CheckboxWidget(_, _, selected) => WorkbookResponses.Choices(selected)
  }

  /** The same widget showing another value: everything but the value
    * agrees. */
  predicate SameWidget(w: Widget, v: Widget) {
    match w
    case TextareaWidget(id, _) => v.TextareaWidget? && v.id == id
    case SliderWidget(id, title, min, max, _) => v.SliderWidget? && v.id == id && v.title == title && v.min == min && v.max == max
    case TableWidget(id, columns, _) => v.TableWidget? && v.id == id && v.columns == columns
    case CheckboxWidget(id, options, _) => v.CheckboxWidget? && v.id == id && v.options == options
  }

  /** Whatever value a widget saves, the page renders it back: the hook puts
    * the saved answer under the widget's id, and the next render reads it
    * from there. */
  lemma SaveThenRender(a: Activity, responses: map<string, WorkbookResponses.Response>, w: Widget, v: Widget)
    requires Render(a, responses) == Some(w) && SameWidget(w, v)
    ensures Render(a, responses[w.id := Saved(v)]) == Some(v)
  {
  }

  /** Every answer the page saves is stored under an activity of the module
    * it shows, so the stored rows stay within the module's activities. */
  lemma PageSavesAreStored(rows: seq<WorkbookProgress.Answer>, m: int, a: Activity)
    requires WorkbookProgress.Stored(rows) && 1 <= m <= 4 && a in Activities(Modules[m - 1])
    ensures WorkbookProgress.Stored(rows + [WorkbookProgress.Answer(m, a.id)])
  {
    var acts := Activities(Modules[m - 1]);
    var k :| 0 <= k < |acts| && acts[k] == a;
    assert ActivityIds(Modules[m - 1])[k] == a.id;
    var ext := rows + [WorkbookProgress.Answer(m, a.id)];
    forall k | 0 <= k < |ext| && 1 <= ext[k].moduleId <= 4
      ensures ext[k].activityId in ActivityIds(Modules[ext[k].moduleId - 1])
    {
      if k < |rows| {
        assert ext[k] == rows[k];
      }
    }
  }

  /** A slider of the workbook, fed its default position, starts inside
    * its range: every slider has the range 1..10. */
  lemma SliderDefaultInRange(i: nat, a: Activity)
    requires i < 4 && a in Activities(Modules[i]) && a.kind == Slider
    ensures ActivitySlider.Bounds(a.min, a.max) == (1, 10)
    ensures 1 <= DefaultPosition <= 10
  {
    ActivitySettings(i, a);
  }

  /** A table of the workbook with nothing stored starts with one empty row
    * over its columns. */
  lemma EmptyTableStartsWithOneRow(i: nat, a: Activity, responses: map<string, WorkbookResponses.Response>)
    requires i < 4 && a in Activities(Modules[i]) && a.kind == Table && a.id !in responses
    ensures Render(a, responses).Some? && Render(a, responses).value.TableWidget?
    ensures var w := Render(a, responses).value;
            |w.columns| >= 2 && ActivityTable.InitialRows(w.rows, w.columns) == [ActivityTable.EmptyRow(w.columns)]
  {
    ActivitySettings(i, a);
  }

  /** Every activity of the workbook renders a widget. */
  lemma EveryActivityRenders(i: nat, a: Activity, responses: map<string, WorkbookResponses.Response>)
    requires i < 4 && a in Activities(Modules[i])
    ensures Render(a, responses).Some?
  {
    ActivitySettings(i, a);
  }

  // ---------------------------------------------------------------------
  // Progress header

  /** The page's progress bar after the progress fetch: the module's own
    * percentage when the fetch returned rows, 0 otherwise. */
  lemma PageProgress(fetched: WorkbookProgress.Fetched, totals: map<int, nat>,
                     progress: map<int, nat>, total: nat, m: int)
    requires WorkbookProgress.Covers(totals) && 1 <= m <= 4
    requires fetched.Data? ==> progress == WorkbookProgress.ProgressMap(WorkbookProgress.RowsOf(fetched.rows), totals)
    requires !fetched.Data? ==> progress == map[]
    ensures fetched.Data? ==>
              WorkbookProgress.ShownProgress(progress, m) ==
              WorkbookProgress.ModuleProgress(WorkbookProgress.RowsOf(fetched.rows), totals, m)
    ensures !fetched.Data? ==> WorkbookProgress.ShownProgress(progress, m) == 0
  {
    if fetched.Data? {
      WorkbookProgress.ProgressAt(WorkbookProgress.RowsOf(fetched.rows), totals, m);
    }
  }
}

module WorkbookDashboard {

  import opened Strings
  import opened WorkbookData
  import WorkbookProgress
  import ModuleCard

  /** `navigate('/caderno/login')` once auth has loaded with nobody signed
    * in. */
  function Redirect(authLoading: bool, hasUser: bool): (r: Option<string>)
    ensures r.Some? <==> !authLoading && !hasUser
    ensures r.Some? ==> r.value == "/caderno/login"
  {
    if !authLoading && !hasUser then Some("/caderno/login") else None
  }

  const Fallback := "Participante"

  /** The greeting's name: the stored name's first word, or "Participante"
    * when there is no name or its first word is empty. */
  function UserName(name: Option<string>): (r: string)
    ensures r != [] && ' ' !in r
    ensures name.Some? && FirstWord(name.value) != "" ==> r == FirstWord(name.value)
    ensures name.None? || FirstWord(name.value) == "" ==> r == Fallback
  {
    if name.Some? && FirstWord(name.value) != "" then FirstWord(name.value) else Fallback
  }

  /** A full name greets by its first name. */
  lemma GreetsFirstName(first: string, rest: string)
    requires first != "" && ' ' !in first
    ensures UserName(Some(first + " " + rest)) == first
  {
    var name := first + " " + rest;
    assert name[|first|] == ' ';
    assert name[..|first|] == first;
  }

  /** A name that starts with a space has an empty first word, so the
    * fallback is shown. */
  lemma LeadingSpaceFallsBack(rest: string)
    ensures UserName(Some(" " + rest)) == Fallback
  {
    assert (" " + rest)[0] == ' ';
  }

  const Starting := "Você está começando sua jornada. Continue!"
  const Good := "Ótimo progresso! Continue explorando."
  const Halfway := "Você está na metade do caminho! 🎉"
  const Almost := "Quase lá! Você está arrasando!"
  const Done := "Parabéns! Você completou o caderno! 🏆"

  /** The messages under the overall bar: five conditions, each adding its
    * message when it holds. */
  function Messages(total: int): seq<string> {
    (if total < 25 then [Starting] else []) +
    (if 25 <= total < 50 then [Good] else []) +
    (if 50 <= total < 75 then [Halfway] else []) +
    (if 75 <= total < 100 then [Almost] else []) +
    (if total >= 100 then [Done] else [])
  }

  /** The five ranges split every value: exactly one message shows, and it
    * is the one whose range holds the value. */
  lemma ExactlyOneMessage(total: int)
    ensures |Messages(total)| == 1
    ensures Messages(total)[0] == Done <==> total >= 100
    ensures Messages(total)[0] == Starting <==> total < 25
    ensures Messages(total)[0] == Good <==> 25 <= total < 50
    ensures Messages(total)[0] == Halfway <==> 50 <= total < 75
    ensures Messages(total)[0] == Almost <==> 75 <= total < 100
  {
    assert Starting != Good && Starting != Halfway && Starting != Almost && Starting != Done;
    assert Good != Halfway && Good != Almost && Good != Done;
    assert Halfway != Almost && Halfway != Done && Almost != Done;
  }

  /** With the corrected totals the congratulation shows exactly when the
    * whole workbook is answered. */
  lemma CongratulatesWhenComplete(rows: seq<WorkbookProgress.Answer>)
    requires WorkbookProgress.Stored(rows)
    ensures WorkbookProgress.Covers(WorkbookProgress.ContentTotals)
    ensures Messages(WorkbookProgress.TotalProgress(rows, WorkbookProgress.ContentTotals))[0] == Done
            <==> forall m :: 1 <= m <= 4 ==> WorkbookProgress.Answered(rows, m) == WorkbookProgress.ModuleIds(m)
  {
    WorkbookProgress.ContentTotalProgress(rows);
    ExactlyOneMessage(WorkbookProgress.TotalProgress(rows, WorkbookProgress.ContentTotals));
  }

  /** One card per module, in the modules' order, each with the module's
    * shown progress. */
  function Cards(progress: map<int, nat>): (r: seq<ModuleCard.Card>)
    ensures |r| == |Modules|
  {
    seq(|Modules|, i requires 0 <= i < |Modules| =>
      ModuleCard.Render(Modules[i].id, WorkbookProgress.ShownProgress(progress, Modules[i].id)))
  }

  /** The i-th card is module i+1's, and a module without a percentage
    * shows 0 and "Começar". */
  lemma CardsInOrder(progress: map<int, nat>, i: nat)
    requires i < 4
    ensures Cards(progress)[i] == ModuleCard.Render(i + 1, WorkbookProgress.ShownProgress(progress, i + 1))
    ensures i + 1 !in progress ==> Cards(progress)[i].status == ModuleCard.Start
  {
    ModuleShape(i);
  }
}
