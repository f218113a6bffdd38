// The event's income statement: revenue and expenses per category name,
// counting the expected amounts with the realised ones, the platform fees set
// apart from the other costs, the operating result and its margin.

module Dre {

  import opened Strings
  import opened FinanceTypes
  import opened Grouping
  import opened Finance

  const PlatformFees := "Plataforma"

  /** Revenue received or expected, by category name. */
  function RevenueItems(ts: seq<Transaction>): seq<Item>
    decreases |ts|
  {
    if ts == [] then []
    else
      var t := ts[|ts| - 1];
      if t.ttype == Receita && (t.status == Recebido || t.status == Previsto)
      then RevenueItems(ts[..|ts| - 1]) + [Item(CategoryName(t), "", t.amount, 0.0)]
      else RevenueItems(ts[..|ts| - 1])
  }

  /** Expenses paid or expected, by category name. */
  function CostItems(ts: seq<Transaction>): seq<Item>
    decreases |ts|
  {
    if ts == [] then []
    else
      var t := ts[|ts| - 1];
      if t.ttype == Despesa && (t.status == Pago || t.status == Previsto)
      then CostItems(ts[..|ts| - 1]) + [Item(CategoryName(t), "", t.amount, 0.0)]
      else CostItems(ts[..|ts| - 1])
  }

  datatype Statement = Statement(
    receitaByCategory: seq<Group>,
    despesaByCategory: seq<Group>,
    totalReceita: real,
    totalDespesa: real,
    taxasPlataforma: real,
    outrasDespesas: real,
    lucroOperacional: real,
    margem: real)

  /** The statement of the two records: totals are the records' sums, the
    * fees are the "Plataforma" entry or 0. */
  function StatementOf(revenue: seq<Group>, costs: seq<Group>): Statement {
    var totalReceita := SumFirst(revenue);
    var totalDespesa := SumFirst(costs);
    var taxas := FirstOr0(costs, PlatformFees);
    Statement(revenue, costs, totalReceita, totalDespesa, taxas, totalDespesa - taxas,
              totalReceita - totalDespesa, Margin(totalReceita - totalDespesa, totalReceita))
  }

  /** The statement the page shows for a list of transactions. */
  function DreOf(ts: seq<Transaction>): Statement {
    StatementOf(Grouped(RevenueItems(ts)), Grouped(CostItems(ts)))
  }

  /** The page's computation: one pass over the rows, each adding to at
    * most one of the two records. */
  method ComputeDre(data: Option<seq<Transaction>>) returns (d: Statement)
    ensures d == DreOf(Rows(data))
  {
    var ts := Rows(data);
    var revenue, costs := [], [];
    for i := 0 to |ts|
      invariant revenue == Grouped(RevenueItems(ts[..i]))
      invariant costs == Grouped(CostItems(ts[..i]))
    {
      var t := ts[i];
      assert ts[..i + 1][..i] == ts[..i];
      var it := Item(CategoryName(t), "", t.amount, 0.0);
      if t.ttype == Receita && (t.status == Recebido || t.status == Previsto) {
        revenue := AddItem(revenue, it);
      } else if t.ttype == Despesa && (t.status == Pago || t.status == Previsto) {
        costs := AddItem(costs, it);
      }
    }
    assert ts[..|ts|] == ts;
    d := StatementOf(revenue, costs);
  }

  /** The operating costs listed: every expense entry but the platform
    * fees. */
  function OperatingCosts(d: Statement): seq<Group> {
    Without(d.despesaByCategory, PlatformFees)
  }

  lemma {:induction false} RevenueItemsTotal(ts: seq<Transaction>)
    ensures TotalFirst(RevenueItems(ts)) == Amount(ts, Receita, Recebido) + Amount(ts, Receita, Previsto)
    decreases |ts|
  {
    if ts != [] {
      var n := |ts| - 1;
      var t := ts[n];
      RevenueItemsTotal(ts[..n]);
      if t.ttype == Receita && (t.status == Recebido || t.status == Previsto) {
        TotalsAppend(RevenueItems(ts[..n]), Item(CategoryName(t), "", t.amount, 0.0));
      }
    }
  }

  lemma {:induction false} CostItemsTotal(ts: seq<Transaction>)
    ensures TotalFirst(CostItems(ts)) == Amount(ts, Despesa, Pago) + Amount(ts, Despesa, Previsto)
    decreases |ts|
  {
    if ts != [] {
      var n := |ts| - 1;
      var t := ts[n];
      CostItemsTotal(ts[..n]);
      if t.ttype == Despesa && (t.status == Pago || t.status == Previsto) {
        TotalsAppend(CostItems(ts[..n]), Item(CategoryName(t), "", t.amount, 0.0));
      }
    }
  }

  /** The statement against the dashboard cards: its revenue is the
    * received plus the expected revenue, its expenses the paid plus the
    * expected expenses; cancelled rows count in neither. */
  lemma DreAgainstStats(ts: seq<Transaction>)
    ensures DreOf(ts).totalReceita == StatsOf(ts).totalReceita + StatsOf(ts).receitaPrevista
    ensures DreOf(ts).totalDespesa == StatsOf(ts).totalDespesa + StatsOf(ts).despesaPrevista
  {
    RevenueItemsTotal(ts);
    CostItemsTotal(ts);
    GroupedTotals(RevenueItems(ts));
    GroupedTotals(CostItems(ts));
  }

  /** The platform fees and the other costs make up the expenses, and the
    * listed operating costs add up to the other costs, without a
    * "Plataforma" line; categories are never listed twice. */
  lemma FeesSplit(ts: seq<Transaction>)
    ensures var d := DreOf(ts);
            d.taxasPlataforma + d.outrasDespesas == d.totalDespesa &&
            SumFirst(OperatingCosts(d)) == d.outrasDespesas &&
            PlatformFees !in KeysOf(OperatingCosts(d)) &&
            DistinctKeys(d.receitaByCategory) && DistinctKeys(d.despesaByCategory)
  {
    GroupedDistinct(RevenueItems(ts));
    GroupedDistinct(CostItems(ts));
    WithoutSplit(Grouped(CostItems(ts)), PlatformFees);
  }

  /** The result is revenue minus all expenses, fees included, and the
    * margin is 0 without revenue. */
  lemma ResultAndMargin(ts: seq<Transaction>)
    ensures var d := DreOf(ts);
            d.lucroOperacional == d.totalReceita - d.taxasPlataforma - d.outrasDespesas &&
            (d.totalReceita <= 0.0 ==> d.margem == 0.0) &&
            (d.totalReceita > 0.0 ==> d.margem * d.totalReceita == d.lucroOperacional * 100.0)
  {
  }
}
