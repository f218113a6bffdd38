// Grouping rows into a record keyed by a string, as the finance screens do
// with `reduce` into an object and `Object.values`: the first row of a key
// creates its entry (with that row's tag, a colour or a label), every row of
// the key adds its amounts and one to the count, and entries keep the order
// in which their keys first appeared.

module Grouping {

  import opened Strings

  /** One row's contribution. */
  datatype Item = Item(key: string, tag: string, first: real, second: real)

  /** One entry of the record. */
  datatype Group = Group(key: string, tag: string, first: real, second: real, count: nat)

  function Start(it: Item): Group {
    Group(it.key, it.tag, it.first, it.second, 1)
  }

  function Merge(g: Group, it: Item): Group {
    Group(g.key, g.tag, g.first + it.first, g.second + it.second, g.count + 1)
  }

  /** Adding one row to the record. */
  function AddTo(gs: seq<Group>, it: Item): seq<Group>
    decreases |gs|
  {
    if gs == [] then [Start(it)]
    else if gs[0].key == it.key then [Merge(gs[0], it)] + gs[1..]
    else [gs[0]] + AddTo(gs[1..], it)
  }

  /** The record after all rows, in order. */
  function Grouped(items: seq<Item>): seq<Group>
    decreases |items|
  {
    if items == [] then [] else AddTo(Grouped(items[..|items| - 1]), items[|items| - 1])
  }

  // ---------------------------------------------------------------------
  // Reading the record

  function Lookup(gs: seq<Group>, k: string): Option<Group>
    decreases |gs|
  {
    if gs == [] then None else if gs[0].key == k then Some(gs[0]) else Lookup(gs[1..], k)
  }

  function KeysOf(gs: seq<Group>): set<string>
    decreases |gs|
  {
    if gs == [] then {} else {gs[0].key} + KeysOf(gs[1..])
  }

  /** No key has two entries. */
  predicate DistinctKeys(gs: seq<Group>)
    decreases |gs|
  {
    gs == [] || (gs[0].key !in KeysOf(gs[1..]) && DistinctKeys(gs[1..]))
  }

  function SumFirst(gs: seq<Group>): real
    decreases |gs|
  {
    if gs == [] then 0.0 else gs[0].first + SumFirst(gs[1..])
  }

  function SumSecond(gs: seq<Group>): real
    decreases |gs|
  {
    if gs == [] then 0.0 else gs[0].second + SumSecond(gs[1..])
  }

  function SumCount(gs: seq<Group>): nat
    decreases |gs|
  {
    if gs == [] then 0 else gs[0].count + SumCount(gs[1..])
  }

  // ---------------------------------------------------------------------
  // What the rows say, key by key

  function TotalFirst(items: seq<Item>): real
    decreases |items|
  {
    if items == [] then 0.0 else TotalFirst(items[..|items| - 1]) + items[|items| - 1].first
  }

  function TotalSecond(items: seq<Item>): real
    decreases |items|
  {
    if items == [] then 0.0 else TotalSecond(items[..|items| - 1]) + items[|items| - 1].second
  }

  function CountKey(items: seq<Item>, k: string): nat
    decreases |items|
  {
    if items == [] then 0
    else CountKey(items[..|items| - 1], k) + (if items[|items| - 1].key == k then 1 else 0)
  }

  function FirstOfKey(items: seq<Item>, k: string): real
    decreases |items|
  {
    if items == [] then 0.0
    else FirstOfKey(items[..|items| - 1], k) + (if items[|items| - 1].key == k then items[|items| - 1].first else 0.0)
  }

  function SecondOfKey(items: seq<Item>, k: string): real
    decreases |items|
  {
    if items == [] then 0.0
    else SecondOfKey(items[..|items| - 1], k) + (if items[|items| - 1].key == k then items[|items| - 1].second else 0.0)
  }

  /** The tag of the first row with key `k`. */
  function FirstTag(items: seq<Item>, k: string): Option<string>
    decreases |items|
  {
    if items == [] then None
    else
      var before := FirstTag(items[..|items| - 1], k);
      if before.Some? then before
      else if items[|items| - 1].key == k then Some(items[|items| - 1].tag)
      else None
  }

  // ---------------------------------------------------------------------
  // One step

  lemma {:induction false} AddToSums(gs: seq<Group>, it: Item)
    ensures SumFirst(AddTo(gs, it)) == SumFirst(gs) + it.first
    ensures SumSecond(AddTo(gs, it)) == SumSecond(gs) + it.second
    ensures SumCount(AddTo(gs, it)) == SumCount(gs) + 1
    decreases |gs|
  {
    if gs != [] {
      if gs[0].key == it.key {
        assert ([Merge(gs[0], it)] + gs[1..])[1..] == gs[1..];
      } else {
        AddToSums(gs[1..], it);
        assert ([gs[0]] + AddTo(gs[1..], it))[1..] == AddTo(gs[1..], it);
      }
    }
  }

  lemma {:induction false} AddToLookup(gs: seq<Group>, it: Item, k: string)
    ensures Lookup(AddTo(gs, it), k) ==
              if k != it.key then Lookup(gs, k)
              else if Lookup(gs, k).None? then Some(Start(it))
              else Some(Merge(Lookup(gs, k).value, it))
    decreases |gs|
  {
    if gs != [] {
      if gs[0].key == it.key {
        assert ([Merge(gs[0], it)] + gs[1..])[1..] == gs[1..];
      } else {
        AddToLookup(gs[1..], it, k);
        assert ([gs[0]] + AddTo(gs[1..], it))[1..] == AddTo(gs[1..], it);
      }
    }
  }

  lemma {:induction false} LookupKey(gs: seq<Group>, k: string)
    ensures Lookup(gs, k).Some? ==> Lookup(gs, k).value.key == k
    ensures Lookup(gs, k).Some? <==> k in KeysOf(gs)
    decreases |gs|
  {
    if gs != [] {
      LookupKey(gs[1..], k);
    }
  }

  /** The keys after a step: the old ones and the row's; none repeated when
    * none was. */
  lemma {:induction false} AddToKeys(gs: seq<Group>, it: Item)
    ensures KeysOf(AddTo(gs, it)) == KeysOf(gs) + {it.key}
    ensures DistinctKeys(gs) ==> DistinctKeys(AddTo(gs, it))
    decreases |gs|
  {
    if gs != [] {
      if gs[0].key == it.key {
        assert ([Merge(gs[0], it)] + gs[1..])[1..] == gs[1..];
      } else {
        AddToKeys(gs[1..], it);
        assert ([gs[0]] + AddTo(gs[1..], it))[1..] == AddTo(gs[1..], it);
      }
    }
  }

  // ---------------------------------------------------------------------
  // All rows

  /** Keys are never repeated. */
  lemma {:induction false} GroupedDistinct(items: seq<Item>)
    ensures DistinctKeys(Grouped(items))
    decreases |items|
  {
    if items != [] {
      GroupedDistinct(items[..|items| - 1]);
      AddToKeys(Grouped(items[..|items| - 1]), items[|items| - 1]);
    }
  }

  /** The entries' amounts add up to the rows' amounts, and the counts to
    * the number of rows: every row lands in exactly one entry. */
  lemma {:induction false} GroupedTotals(items: seq<Item>)
    ensures SumFirst(Grouped(items)) == TotalFirst(items)
    ensures SumSecond(Grouped(items)) == TotalSecond(items)
    ensures SumCount(Grouped(items)) == |items|
    decreases |items|
  {
    if items != [] {
      GroupedTotals(items[..|items| - 1]);
      AddToSums(Grouped(items[..|items| - 1]), items[|items| - 1]);
    }
  }

  /** The entry of a key exists iff some row has the key; it carries the
    * first such row's tag, the sums of those rows' amounts and their
    * number. */
  lemma {:induction false} GroupedLookup(items: seq<Item>, k: string)
    ensures FirstTag(items, k).Some? <==> CountKey(items, k) > 0
    ensures CountKey(items, k) == 0 ==> FirstOfKey(items, k) == 0.0 && SecondOfKey(items, k) == 0.0
    ensures var e := Lookup(Grouped(items), k);
            (e.None? <==> CountKey(items, k) == 0) &&
            (e.Some? ==> FirstTag(items, k).Some? &&
                         e.value == Group(k, FirstTag(items, k).value, FirstOfKey(items, k), SecondOfKey(items, k), CountKey(items, k)))
    decreases |items|
  {
    if items != [] {
      var n := |items| - 1;
      GroupedLookup(items[..n], k);
      AddToLookup(Grouped(items[..n]), items[n], k);
      LookupKey(Grouped(items[..n]), k);
      var prev := Lookup(Grouped(items[..n]), k);
      if items[n].key == k && prev.Some? {
        assert Lookup(Grouped(items), k) == Some(Merge(prev.value, items[n]));
        assert prev.value.key == k;
      }
    }
  }

  /** The keys of the rows. */
  function ItemKeys(items: seq<Item>): set<string>
    decreases |items|
  {
    if items == [] then {} else ItemKeys(items[..|items| - 1]) + {items[|items| - 1].key}
  }

  /** The record has an entry for exactly the rows' keys. */
  lemma {:induction false} GroupedKeys(items: seq<Item>)
    ensures KeysOf(Grouped(items)) == ItemKeys(items)
    decreases |items|
  {
    if items != [] {
      GroupedKeys(items[..|items| - 1]);
      AddToKeys(Grouped(items[..|items| - 1]), items[|items| - 1]);
    }
  }

  lemma {:induction false} ItemKeysHas(items: seq<Item>, i: nat)
    requires i < |items|
    ensures items[i].key in ItemKeys(items)
    decreases |items|
  {
    if i < |items| - 1 {
      ItemKeysHas(items[..|items| - 1], i);
    }
  }

  /** A key's entry is one of the record's entries. */
  lemma {:induction false} LookupIn(gs: seq<Group>, k: string)
    ensures Lookup(gs, k).Some? ==> Lookup(gs, k).value in gs
    decreases |gs|
  {
    if gs != [] && gs[0].key != k {
      LookupIn(gs[1..], k);
    }
  }

  // ---------------------------------------------------------------------
  // The loop

  /** One step as the screens run it: the entry of the row's key is looked
    * up in the record built so far and updated in place, or a new entry is
    * appended. */
  method AddItem(gs: seq<Group>, it: Item) returns (r: seq<Group>)
    ensures r == AddTo(gs, it)
  {
    var j := 0;
    while j < |gs| && gs[j].key != it.key
      invariant 0 <= j <= |gs|
      invariant forall m :: 0 <= m < j ==> gs[m].key != it.key
    {
      j := j + 1;
    }
    AddToAt(gs, it, j);
    if j < |gs| {
      r := gs[j := Merge(gs[j], it)];
    } else {
      r := gs + [Start(it)];
    }
  }

  /** The whole accumulation: one pass over the rows. */
  method GroupItems(items: seq<Item>) returns (gs: seq<Group>)
    ensures gs == Grouped(items)
  {
    gs := [];
    for n := 0 to |items|
      invariant gs == Grouped(items[..n])
    {
      gs := AddItem(gs, items[n]);
      assert items[..n + 1][..n] == items[..n];
    }
    assert items[..|items|] == items;
  }

  /** A step in place: the first entry of the key is updated, or a new one
    * is appended when there is none. */
  lemma {:induction false} AddToAt(gs: seq<Group>, it: Item, j: nat)
    requires j <= |gs| && forall m :: 0 <= m < j ==> gs[m].key != it.key
    requires j < |gs| ==> gs[j].key == it.key
    ensures j < |gs| ==> AddTo(gs, it) == gs[j := Merge(gs[j], it)]
    ensures j == |gs| ==> AddTo(gs, it) == gs + [Start(it)]
    decreases j
  {
    if j > 0 {
      AddToAt(gs[1..], it, j - 1);
      if j < |gs| {
        assert [gs[0]] + gs[1..][j - 1 := Merge(gs[j], it)] == gs[j := Merge(gs[j], it)];
      } else {
        assert [gs[0]] + (gs[1..] + [Start(it)]) == gs + [Start(it)];
      }
    } else if j < |gs| {
      assert [Merge(gs[0], it)] + gs[1..] == gs[0 := Merge(gs[0], it)];
    }
  }

  // ---------------------------------------------------------------------
  // Leaving one key out

  /** The record without the entry of key `k`. */
  function Without(gs: seq<Group>, k: string): seq<Group>
    decreases |gs|
  {
    if gs == [] then [] else (if gs[0].key == k then [] else [gs[0]]) + Without(gs[1..], k)
  }

  /** The amount of key `k`, or 0 when it has no entry (`record[k] || 0`). */
  function FirstOr0(gs: seq<Group>, k: string): real {
    var e := Lookup(gs, k);
    if e.Some? then e.value.first else 0.0
  }

  /** Leaving a key out drops exactly its entry: no entry of that key is
    * left, the others stay, and, keys being distinct, the amounts left and
    * the key's amount make up the whole. */
  lemma {:induction false} WithoutSplit(gs: seq<Group>, k: string)
    requires DistinctKeys(gs)
    ensures KeysOf(Without(gs, k)) == KeysOf(gs) - {k}
    ensures SumFirst(Without(gs, k)) + FirstOr0(gs, k) == SumFirst(gs)
    decreases |gs|
  {
    if gs != [] {
      WithoutSplit(gs[1..], k);
      var rest := Without(gs[1..], k);
      LookupKey(gs[1..], k);
      if gs[0].key == k {
        assert Without(gs, k) == rest;
        assert Lookup(gs[1..], k).None?;
      } else {
        assert Without(gs, k) == [gs[0]] + rest;
        assert ([gs[0]] + rest)[1..] == rest;
      }
    }
  }

  // ---------------------------------------------------------------------
  // Sorting by key

  /** Code-unit order on strings. */
  predicate KeyLeq(a: string, b: string)
    decreases |a|
  {
    a == [] || (b != [] && (a[0] < b[0] || (a[0] == b[0] && KeyLeq(a[1..], b[1..]))))
  }

  lemma {:induction false} KeyLeqTotal(a: string, b: string)
    ensures KeyLeq(a, b) || KeyLeq(b, a)
    decreases |a|
  {
    if a != [] && b != [] && a[0] == b[0] {
      KeyLeqTotal(a[1..], b[1..]);
    }
  }

  lemma {:induction false} KeyLeqTrans(a: string, b: string, c: string)
    requires KeyLeq(a, b) && KeyLeq(b, c)
    ensures KeyLeq(a, c)
    decreases |a|
  {
    if a != [] && a[0] == b[0] && b[0] == c[0] {
      KeyLeqTrans(a[1..], b[1..], c[1..]);
    }
  }

  /** Every entry's key is at least `k`. */
  predicate AllAbove(k: string, s: seq<Group>) {
    forall j :: 0 <= j < |s| ==> KeyLeq(k, s[j].key)
  }

  /** Ascending by key: each entry is at most all the entries after it. */
  predicate SortedByKey(gs: seq<Group>)
    decreases |gs|
  {
    gs == [] || (AllAbove(gs[0].key, gs[1..]) && SortedByKey(gs[1..]))
  }

  lemma {:induction false} SortedPairwise(gs: seq<Group>)
    requires SortedByKey(gs)
    ensures forall i, j :: 0 <= i < j < |gs| ==> KeyLeq(gs[i].key, gs[j].key)
    decreases |gs|
  {
    if gs != [] {
      SortedPairwise(gs[1..]);
      forall i, j | 0 <= i < j < |gs| ensures KeyLeq(gs[i].key, gs[j].key) {
        if i == 0 {
          assert gs[j] == gs[1..][j - 1];
        } else {
          assert gs[i] == gs[1..][i - 1] && gs[j] == gs[1..][j - 1];
        }
      }
    }
  }

  function Insert(g: Group, s: seq<Group>): seq<Group>
    decreases |s|
  {
    if s == [] then [g]
    else if KeyLeq(g.key, s[0].key) then [g] + s
    else [s[0]] + Insert(g, s[1..])
  }

  /** `sort((a, b) => a.key.localeCompare(b.key))`. */
  function SortByKey(gs: seq<Group>): seq<Group>
    decreases |gs|
  {
    if gs == [] then [] else Insert(gs[0], SortByKey(gs[1..]))
  }

  lemma {:induction false} InsertKeeps(g: Group, s: seq<Group>)
    ensures multiset(Insert(g, s)) == multiset(s) + multiset{g}
    ensures SumFirst(Insert(g, s)) == SumFirst(s) + g.first
    ensures SumSecond(Insert(g, s)) == SumSecond(s) + g.second
    ensures SumCount(Insert(g, s)) == SumCount(s) + g.count
    decreases |s|
  {
    if s != [] {
      if KeyLeq(g.key, s[0].key) {
        assert ([g] + s)[1..] == s;
      } else {
        InsertKeeps(g, s[1..]);
        assert ([s[0]] + Insert(g, s[1..]))[1..] == Insert(g, s[1..]);
        assert s == [s[0]] + s[1..];
      }
    }
  }

  lemma {:induction false} InsertAbove(k: string, g: Group, s: seq<Group>)
    requires AllAbove(k, s) && KeyLeq(k, g.key)
    ensures AllAbove(k, Insert(g, s))
    decreases |s|
  {
    if s != [] && !KeyLeq(g.key, s[0].key) {
      assert AllAbove(k, s[1..]) by {
        forall j | 0 <= j < |s| - 1 ensures KeyLeq(k, s[1..][j].key) {
          assert s[1..][j] == s[j + 1];
        }
      }
      InsertAbove(k, g, s[1..]);
      var r := [s[0]] + Insert(g, s[1..]);
      assert forall j :: 1 <= j < |r| ==> r[j] == Insert(g, s[1..])[j - 1];
    } else if s != [] {
      var r := [g] + s;
      assert forall j :: 1 <= j < |r| ==> r[j] == s[j - 1];
    }
  }

  lemma {:induction false} InsertSorted(g: Group, s: seq<Group>)
    requires SortedByKey(s)
    ensures SortedByKey(Insert(g, s))
    decreases |s|
  {
    if s != [] {
      if KeyLeq(g.key, s[0].key) {
        forall j | 0 <= j < |s| ensures KeyLeq(g.key, s[j].key) {
          if j > 0 {
            assert s[j] == s[1..][j - 1];
            KeyLeqTrans(g.key, s[0].key, s[j].key);
          }
        }
        assert ([g] + s)[1..] == s;
      } else {
        KeyLeqTotal(g.key, s[0].key);
        InsertSorted(g, s[1..]);
        InsertAbove(s[0].key, g, s[1..]);
        assert ([s[0]] + Insert(g, s[1..]))[1..] == Insert(g, s[1..]);
      }
    }
  }

  /** The sorted record is in key order, holds the same entries, and has
    * the same totals. */
  lemma {:induction false} SortByKeyCorrect(gs: seq<Group>)
    ensures SortedByKey(SortByKey(gs))
    ensures multiset(SortByKey(gs)) == multiset(gs)
    ensures SumFirst(SortByKey(gs)) == SumFirst(gs)
    ensures SumSecond(SortByKey(gs)) == SumSecond(gs)
    ensures SumCount(SortByKey(gs)) == SumCount(gs)
    decreases |gs|
  {
    SortByKeySorted(gs);
    if gs != [] {
      SortByKeyCorrect(gs[1..]);
      InsertKeeps(gs[0], SortByKey(gs[1..]));
      assert gs == [gs[0]] + gs[1..];
    }
  }

  lemma {:induction false} SortByKeySorted(gs: seq<Group>)
    ensures SortedByKey(SortByKey(gs))
    decreases |gs|
  {
    if gs != [] {
      SortByKeySorted(gs[1..]);
      InsertSorted(gs[0], SortByKey(gs[1..]));
    }
  }
}
