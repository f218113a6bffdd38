// The dashboard charts' formatting: month labels on the monthly axis, the
// colour and label of each revenue source, and the placeholder shown for an
// empty series.

module FinanceCharts {

  import opened Strings
  import opened FinanceTypes
  import opened Grouping
  import opened Finance

  const MonthNames: seq<string> := ["Jan", "Fev", "Mar", "Abr", "Mai", "Jun", "Jul", "Ago", "Set", "Out", "Nov", "Dez"]

  /** `months[parseInt(m) - 1]` as the template shows it: a month number
    * outside 1..12, or none at all, shows as "undefined". */
  function MonthName(m: Option<string>): string {
    if m.Some? && ParseInt(m.value).Some? && 1 <= ParseInt(m.value).value <= 12
    then MonthNames[ParseInt(m.value).value - 1]
    else "undefined"
  }

  /** `formatMonth`: the month's abbreviation, "/", and the year without its
    * first two characters. */
  function FormatMonth(month: string): string {
    var parts := Split(month, '-');
    var m := if |parts| > 1 then Some(parts[1]) else None;
    MonthName(m) + "/" + (if |parts[0]| >= 2 then parts[0][2..] else "")
  }

  lemma JoinTwo(a: string, b: string, d: char)
    ensures Join([a, b], d) == a + [d] + b
  {
    assert [a, b][1..] == [b];
  }

  /** Two pieces without a dash, joined by one, split back into them. */
  lemma SplitAtDash(a: string, b: string)
    requires '-' !in a && '-' !in b
    ensures Split(a + "-" + b, '-') == [a, b]
  {
    JoinTwo(a, b, '-');
    SplitJoin([a, b], '-');
  }

  lemma NoDashInDigits(s: string)
    requires AllDigits(s)
    ensures '-' !in s
  {
    forall i | 0 <= i < |s|
      ensures s[i] != '-'
    {
      assert IsDigit(s[i]);
    }
  }

  /** A two-digit month number from 1 to 12 names its month. */
  lemma MonthNameOfPad2(m: nat)
    requires 1 <= m <= 12
    ensures MonthName(Some(Pad2(m))) == MonthNames[m - 1]
  {
    ParsePad2(m);
  }

  /** A "YYYY-MM" key shows as the month's abbreviation and the two-digit
    * year. */
  lemma FormatIsoMonth(year: string, m: nat)
    requires |year| == 4 && AllDigits(year) && 1 <= m <= 12
    ensures FormatMonth(year + "-" + Pad2(m)) == MonthNames[m - 1] + "/" + year[2..]
  {
    var mm := Pad2(m);
    NoDashInDigits(year);
    NoDashInDigits(mm);
    SplitAtDash(year, mm);
    MonthNameOfPad2(m);
  }

  /** The month key of an ISO date "YYYY-MM-DD" is "YYYY-MM", so the
    * monthly axis labels each bucket with its date's month. */
  lemma MonthOfIsoDate(year: string, m: nat, day: string)
    requires |year| == 4 && AllDigits(year) && 1 <= m <= 12
    ensures MonthOf(year + "-" + Pad2(m) + "-" + day) == year + "-" + Pad2(m)
    ensures FormatMonth(MonthOf(year + "-" + Pad2(m) + "-" + day)) == MonthNames[m - 1] + "/" + year[2..]
  {
    var key := year + "-" + Pad2(m);
    assert (key + "-" + day)[..7] == key;
    FormatIsoMonth(year, m);
  }

  /** A key without a month part shows the "undefined" month. */
  lemma FormatWithoutMonth(month: string)
    requires '-' !in month
    ensures StartsWith(FormatMonth(month), "undefined/")
  {
    NoSeparatorOnePiece(month, '-');
    var rest := if |month| >= 2 then month[2..] else "";
    assert FormatMonth(month) == "undefined/" + rest;
  }

  lemma {:induction false} NoSeparatorOnePiece(s: string, d: char)
    requires d !in s
    ensures Split(s, d) == [s]
  {
    SplitJoin([s], d);
  }

  // ---------------------------------------------------------------------
  // Sources

  const FallbackColor := "#A67C52"

  function KnownSourceColor(s: Source): string {
    match s
    case Organico => "#22C55E"
    case Indicacao => "#3B82F6"
    case CriadoraSamira => "#EC4899"
    case CriadoraSimone => "#8B5CF6"
    case CriadoraSueli => "#F97316"
    case TrafegoPago => "#14B8A6"
  }

  /** A bar's colour: its source's colour, or the fallback for any other
    * key. */
  function SourceColor(key: string): (c: string)
    ensures ParseSource(key).None? <==> c == FallbackColor
  {
    var s := ParseSource(key);
    if s.Some? then KnownSourceColor(s.value) else FallbackColor
  }

  /** An axis or tooltip label: the source's label, or the key itself. */
  function SourceAxisLabel(key: string): (r: string)
    ensures ParseSource(key).None? ==> r == key
    ensures forall s :: key == SourceKey(s) ==> r == SourceLabel(s)
  {
    var s := ParseSource(key);
    if s.Some? then SourceLabel(s.value) else key
  }

  /** Every bar of the revenue series has its own source colour and label;
    * the fallbacks are never needed for the series the dashboard builds. */
  lemma RevenueBarsKnown(ts: seq<Transaction>, k: string)
    requires k in KeysOf(Grouped(SourceItems(ts)))
    ensures SourceColor(k) != FallbackColor
    ensures SourceAxisLabel(k) == SourceLabel(ParseSource(k).value)
  {
    RevenueAgreesWithStats(ts);
  }

  // ---------------------------------------------------------------------
  // Empty series

  datatype Panel = Placeholder | Plot(points: seq<Group>)

  /** An empty series gets the "Nenhum dado disponível" placeholder. */
  function PanelFor(series: seq<Group>): (p: Panel)
    ensures p.Placeholder? <==> series == []
  {
    if series == [] then Placeholder else Plot(series)
  }

  /** Every row opens a month, so the monthly chart shows the placeholder
    * exactly when there are no rows. */
  lemma MonthlyPanelEmpty(ts: seq<Transaction>)
    ensures PanelFor(Monthly(ts)).Placeholder? <==> ts == []
  {
    MonthlyAgreesWithStats(ts);
  }
}
