// The four cards above the finance dashboard: revenue, expenses, profit and
// margin, with the expected amounts under the first two and a colour scheme
// that depends on the sign of the last two.

module FinanceStatsCards {

  import opened Strings
  import opened Finance

  datatype Card = Card(title: string, value: real, previsto: Option<real>, isPercentage: bool,
                       color: string, bgColor: string, borderColor: string)

  /** `stats?.field && stats.field >= 0`: a present, non-zero, non-negative
    * figure. Zero is falsy, so it does not count as positive. */
  predicate Positive(x: Option<real>) {
    x.Some? && x.value != 0.0 && x.value >= 0.0
  }

  function ProfitOf(stats: Option<Stats>): Option<real> {
    if stats.Some? then Some(stats.value.lucroLiquido) else None
  }

  function MarginOf(stats: Option<Stats>): Option<real> {
    if stats.Some? then Some(stats.value.margem) else None
  }

  /** The cards; a missing figure shows 0. */
  function Cards(stats: Option<Stats>): seq<Card> {
    var s := if stats.Some? then stats.value else Stats(0.0, 0.0, 0.0, 0.0, 0.0, 0.0);
    var profitUp := Positive(ProfitOf(stats));
    var marginUp := Positive(MarginOf(stats));
    [ Card("Receita Total", s.totalReceita, Some(s.receitaPrevista), false,
           "text-emerald-600", "bg-emerald-50", "border-emerald-200"),
      Card("Despesa Total", s.totalDespesa, Some(s.despesaPrevista), false,
           "text-rose-600", "bg-rose-50", "border-rose-200"),
      Card("Lucro Líquido", s.lucroLiquido, None, false,
           if profitUp then "text-primary" else "text-rose-600",
           if profitUp then "bg-amber-50" else "bg-rose-50",
           if profitUp then "border-amber-200" else "border-rose-200"),
      Card("Margem", s.margem, None, true,
           if marginUp then "text-blue-600" else "text-rose-600",
           if marginUp then "bg-blue-50" else "bg-rose-50",
           if marginUp then "border-blue-200" else "border-rose-200") ]
  }

  /** Whether the "previsto" line is shown under a card. */
  predicate ShowsPrevisto(c: Card) {
    c.previsto.Some? && c.previsto.value > 0.0
  }

  /** Without figures every card shows 0 and no "previsto" line. */
  lemma NoStatsShowsZero()
    ensures var cs := Cards(None);
            |cs| == 4 && (forall i :: 0 <= i < 4 ==> cs[i].value == 0.0 && !ShowsPrevisto(cs[i]))
  {
  }

  /** Only the revenue and expense cards can show an expected amount, and
    * each shows it exactly when it is positive. */
  lemma PrevistoLine(stats: Option<Stats>, i: nat)
    requires i < 4
    ensures ShowsPrevisto(Cards(stats)[i]) ==> i < 2
    ensures stats.Some? && i == 0 ==> (ShowsPrevisto(Cards(stats)[i]) <==> stats.value.receitaPrevista > 0.0)
    ensures stats.Some? && i == 1 ==> (ShowsPrevisto(Cards(stats)[i]) <==> stats.value.despesaPrevista > 0.0)
  {
  }

  /** The profit and margin cards are green-toned only for a strictly
    * positive figure: a profit or margin of exactly 0 gets the negative
    * colours. */
  lemma SignStyle(stats: Option<Stats>)
    ensures Cards(stats)[2].color == "text-primary" <==> stats.Some? && stats.value.lucroLiquido > 0.0
    ensures Cards(stats)[3].color == "text-blue-600" <==> stats.Some? && stats.value.margem > 0.0
    ensures stats.Some? && stats.value.lucroLiquido == 0.0 ==> Cards(stats)[2].color == "text-rose-600"
  {
  }
}
