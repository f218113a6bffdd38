// The sales charts: the number of sales, the revenue and the average ticket,
// and the sales grouped by creator, by platform and by source, each group
// labelled and coloured for its chart.

module SalesCharts {

  import opened Strings
  import opened FinanceTypes
  import opened Grouping
  import opened Finance

  /** The chart palette, cycled by position. */
  const Palette: seq<string> := ["hsl(var(--primary))", "hsl(var(--chart-2))", "hsl(var(--chart-3))",
                                 "hsl(var(--chart-4))", "hsl(var(--chart-5))", "#8B5CF6"]

  /** The colour of the `index`-th slice. */
  function SliceColor(index: nat): (c: string)
    ensures c == Palette[index % 6]
    ensures c in Palette
  {
    Palette[index % |Palette|]
  }

  /** The colours repeat every six slices, and six slices in a row all
    * differ. */
  lemma {:induction false} SliceColorsCycle(i: nat, j: nat)
    ensures SliceColor(i + 6) == SliceColor(i)
    ensures i < j < i + 6 ==> SliceColor(i) != SliceColor(j)
  {
    assert (i + 6) % 6 == i % 6;
    if i < j < i + 6 {
      assert i % 6 != j % 6;
      assert forall a, b :: 0 <= a < b < 6 ==> Palette[a] != Palette[b];
    }
  }

  function SalesCount(sales: Option<seq<Sale>>): nat {
    |Rows(sales)|
  }

  function Revenue(ss: seq<Sale>): real
    decreases |ss|
  {
    if ss == [] then 0.0 else Revenue(ss[..|ss| - 1]) + ss[|ss| - 1].amount
  }

  /** The mean amount per sale, 0 without sales. */
  function AverageTicket(sales: Option<seq<Sale>>): (r: real)
    ensures SalesCount(sales) > 0 ==> r * SalesCount(sales) as real == Revenue(Rows(sales))
    ensures SalesCount(sales) == 0 ==> r == 0.0
  {
    var n := SalesCount(sales);
    if n > 0 then Revenue(Rows(sales)) / n as real else 0.0
  }

  // ---------------------------------------------------------------------
  // Groups

  /** Sales that name a creator, by creator, labelled with the creator's
    * name. */
  function CreatorItems(ss: seq<Sale>): seq<Item>
    decreases |ss|
  {
    if ss == [] then []
    else
      var s := ss[|ss| - 1];
      if s.creator.Some?
      then CreatorItems(ss[..|ss| - 1]) + [Item(SourceKey(s.creator.value), SourceLabel(s.creator.value), s.amount, 0.0)]
      else CreatorItems(ss[..|ss| - 1])
  }

  function PlatformItems(ss: seq<Sale>): seq<Item>
    decreases |ss|
  {
    if ss == [] then []
    else
      var s := ss[|ss| - 1];
      PlatformItems(ss[..|ss| - 1]) + [Item(PlatformKey(s.platform), PlatformLabel(s.platform), s.amount, 0.0)]
  }

  function SourceItems(ss: seq<Sale>): seq<Item>
    decreases |ss|
  {
    if ss == [] then []
    else
      var s := ss[|ss| - 1];
      SourceItems(ss[..|ss| - 1]) + [Item(SourceKey(s.source), SourceLabel(s.source), s.amount, 0.0)]
  }

  /** The three groupings, each one pass over the sales updating its
    * record in place; missing sales give empty groupings. */
  method GroupSales(sales: Option<seq<Sale>>) returns (byCreator: seq<Group>, byPlatform: seq<Group>, bySource: seq<Group>)
    ensures byCreator == Grouped(CreatorItems(Rows(sales)))
    ensures byPlatform == Grouped(PlatformItems(Rows(sales)))
    ensures bySource == Grouped(SourceItems(Rows(sales)))
  {
    var ss := Rows(sales);
    byCreator := [];
    for i := 0 to |ss|
      invariant byCreator == Grouped(CreatorItems(ss[..i]))
    {
      assert ss[..i + 1][..i] == ss[..i];
      var s := ss[i];
      if s.creator.Some? {
        byCreator := AddItem(byCreator, Item(SourceKey(s.creator.value), SourceLabel(s.creator.value), s.amount, 0.0));
      }
    }
    byPlatform := [];
    for i := 0 to |ss|
      invariant byPlatform == Grouped(PlatformItems(ss[..i]))
    {
      assert ss[..i + 1][..i] == ss[..i];
      var s := ss[i];
      byPlatform := AddItem(byPlatform, Item(PlatformKey(s.platform), PlatformLabel(s.platform), s.amount, 0.0));
    }
    bySource := [];
    for i := 0 to |ss|
      invariant bySource == Grouped(SourceItems(ss[..i]))
    {
      assert ss[..i + 1][..i] == ss[..i];
      var s := ss[i];
      bySource := AddItem(bySource, Item(SourceKey(s.source), SourceLabel(s.source), s.amount, 0.0));
    }
    assert ss[..|ss|] == ss;
  }

  // ---------------------------------------------------------------------
  // What the groups add up to

  /** The sales that name a creator, and their amount. */
  function WithCreator(ss: seq<Sale>): nat
    decreases |ss|
  {
    if ss == [] then 0 else WithCreator(ss[..|ss| - 1]) + (if ss[|ss| - 1].creator.Some? then 1 else 0)
  }

  function CreatorRevenue(ss: seq<Sale>): real
    decreases |ss|
  {
    if ss == [] then 0.0
    else CreatorRevenue(ss[..|ss| - 1]) + (if ss[|ss| - 1].creator.Some? then ss[|ss| - 1].amount else 0.0)
  }

  lemma {:induction false} CreatorItemsFacts(ss: seq<Sale>)
    ensures |CreatorItems(ss)| == WithCreator(ss)
    ensures TotalFirst(CreatorItems(ss)) == CreatorRevenue(ss)
    decreases |ss|
  {
    if ss != [] {
      var n := |ss| - 1;
      var s := ss[n];
      CreatorItemsFacts(ss[..n]);
      if s.creator.Some? {
        TotalsAppend(CreatorItems(ss[..n]), Item(SourceKey(s.creator.value), SourceLabel(s.creator.value), s.amount, 0.0));
      }
    }
  }

  lemma {:induction false} PlatformAndSourceItemsFacts(ss: seq<Sale>)
    ensures |PlatformItems(ss)| == |ss| && TotalFirst(PlatformItems(ss)) == Revenue(ss)
    ensures |SourceItems(ss)| == |ss| && TotalFirst(SourceItems(ss)) == Revenue(ss)
    decreases |ss|
  {
    if ss != [] {
      var n := |ss| - 1;
      var s := ss[n];
      PlatformAndSourceItemsFacts(ss[..n]);
      TotalsAppend(PlatformItems(ss[..n]), Item(PlatformKey(s.platform), PlatformLabel(s.platform), s.amount, 0.0));
      TotalsAppend(SourceItems(ss[..n]), Item(SourceKey(s.source), SourceLabel(s.source), s.amount, 0.0));
    }
  }

  /** Every sale lands in exactly one platform group and in exactly one
    * source group: both groupings count all the sales and add up to the
    * revenue. Only sales naming a creator are grouped by creator. */
  lemma GroupsAddUp(sales: Option<seq<Sale>>)
    ensures var ss := Rows(sales);
            SumCount(Grouped(PlatformItems(ss))) == SalesCount(sales) &&
            SumFirst(Grouped(PlatformItems(ss))) == Revenue(ss) &&
            SumCount(Grouped(SourceItems(ss))) == SalesCount(sales) &&
            SumFirst(Grouped(SourceItems(ss))) == Revenue(ss) &&
            SumCount(Grouped(CreatorItems(ss))) == WithCreator(ss) &&
            SumFirst(Grouped(CreatorItems(ss))) == CreatorRevenue(ss)
  {
    var ss := Rows(sales);
    PlatformAndSourceItemsFacts(ss);
    CreatorItemsFacts(ss);
    GroupedTotals(PlatformItems(ss));
    GroupedTotals(SourceItems(ss));
    GroupedTotals(CreatorItems(ss));
  }

  /** A creator's group holds that creator's sales: their number and sum,
    * labelled with the creator's name; a creator without sales has no
    * group. */
  lemma CreatorGroup(ss: seq<Sale>, c: Source)
    ensures var e := Lookup(Grouped(CreatorItems(ss)), SourceKey(c));
            (e.None? <==> CountKey(CreatorItems(ss), SourceKey(c)) == 0) &&
            (e.Some? ==> e.value == Group(SourceKey(c), SourceLabel(c), FirstOfKey(CreatorItems(ss), SourceKey(c)), 0.0,
                                          CountKey(CreatorItems(ss), SourceKey(c))))
  {
    var items := CreatorItems(ss);
    var k := SourceKey(c);
    GroupedLookup(items, k);
    CreatorTags(ss, c);
    NoSecond(ss, k);
  }

  lemma {:induction false} CreatorTags(ss: seq<Sale>, c: Source)
    ensures FirstTag(CreatorItems(ss), SourceKey(c)).Some? ==> FirstTag(CreatorItems(ss), SourceKey(c)).value == SourceLabel(c)
    decreases |ss|
  {
    if ss != [] {
      var n := |ss| - 1;
      CreatorTags(ss[..n], c);
      var items := CreatorItems(ss);
      if ss[n].creator.Some? {
        assert items[..|items| - 1] == CreatorItems(ss[..n]);
        LabelsTellApart(c, ss[n].creator.value, Site, Site, Previsto, Previsto, Pix, Pix, Bronze, Bronze);
      }
    }
  }

  lemma {:induction false} NoSecond(ss: seq<Sale>, k: string)
    ensures SecondOfKey(CreatorItems(ss), k) == 0.0
    decreases |ss|
  {
    if ss != [] {
      var n := |ss| - 1;
      NoSecond(ss[..n], k);
      var items := CreatorItems(ss);
      if ss[n].creator.Some? {
        assert items[..|items| - 1] == CreatorItems(ss[..n]);
      }
    }
  }
}
