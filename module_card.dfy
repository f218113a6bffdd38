// A module's card on the workbook dashboard: a link to the module, the
// progress as text and as an unclamped bar, and a status line.

module ModuleCard {

  import opened Strings
  import opened Format
  import WorkbookProgress

  datatype Status = Complete | Continue | Start

  /** The status line's text. */
  function StatusText(s: Status): string {
    match s
    case Complete => "Completo"
    case Continue => "Continuar"
    case Start => "Começar"
  }

  datatype Card = Card(link: string, percentText: string, width: string, status: Status)

  const LinkPrefix := "/modulo/"

  /** The card for a module at a progress: complete from 100 on, otherwise
    * "continue" above 0 and "start" at 0 or below. */
  function Render(moduleId: int, progress: int): (r: Card)
    ensures r.status == Complete <==> progress >= 100
    ensures r.status == Continue <==> 0 < progress < 100
    ensures r.status == Start <==> progress <= 0
    ensures StartsWith(r.link, LinkPrefix) && ParseInt(r.link[|LinkPrefix|..]) == Some(moduleId)
    ensures ParseInt(r.percentText) == Some(progress) && ParseInt(r.width) == Some(progress)
  {
    ParseIntToString(progress, "%");
    ParseIntToString(moduleId, "");
    var link := LinkPrefix + IntToString(moduleId);
    assert link[|LinkPrefix|..] == IntToString(moduleId) + "";
    Card(link,
         IntToString(progress) + "%",
         IntToString(progress) + "%",
         if progress >= 100 then Complete else if progress > 0 then Continue else Start)
  }

  /** The three statuses read differently. */
  lemma StatusTextsDiffer(a: Status, b: Status)
    requires a != b
    ensures StatusText(a) != StatusText(b)
  {
  }

  /** With the totals as written, a card for the fourth module never says
    * "Completo", however many of its activities are answered. */
  lemma WrittenModuleFourNeverComplete(rows: seq<WorkbookProgress.Answer>)
    requires WorkbookProgress.Stored(rows)
    ensures WorkbookProgress.Covers(WorkbookProgress.WrittenTotals)
    ensures Render(4, WorkbookProgress.ProgressMap(rows, WorkbookProgress.WrittenTotals)[4]).status != Complete
  {
    WorkbookProgress.WrittenModuleFourStops(rows);
  }

  /** With the totals as written, a card for the first module with every
    * activity answered draws its bar at 111 percent. */
  lemma WrittenModuleOneWidth()
    ensures WorkbookProgress.Covers(WorkbookProgress.WrittenTotals)
    ensures var p := WorkbookProgress.ProgressMap(WorkbookProgress.AllAnswers(1), WorkbookProgress.WrittenTotals)[1];
            ParseInt(Render(1, p).width) == Some(111)
  {
    WorkbookProgress.WrittenModuleOneOverflows();
  }

  /** With the corrected totals, a card says "Completo" exactly when every
    * activity of its module is answered. */
  lemma ContentCardComplete(rows: seq<WorkbookProgress.Answer>, m: int)
    requires WorkbookProgress.Stored(rows) && 1 <= m <= 4
    ensures WorkbookProgress.Covers(WorkbookProgress.ContentTotals)
    ensures Render(m, WorkbookProgress.ProgressMap(rows, WorkbookProgress.ContentTotals)[m]).status == Complete
            <==> WorkbookProgress.Answered(rows, m) == WorkbookProgress.ModuleIds(m)
  {
    WorkbookProgress.ContentModuleProgress(rows, m);
  }
}
