// `useWorkbookProgress`: how far a participant is in each module and in the
// whole workbook, counted from the answers stored for them. The totals the
// percentages divide by are a parameter, so that the totals written in the
// hook and the totals the workbook content actually has can be compared.

module WorkbookProgress {

  import opened Strings
  import opened WorkbookData

  /** One stored answer, as the progress query selects it. */
  datatype Answer = Answer(moduleId: int, activityId: string)

  /** What the query gives: nobody signed in, an error, or the rows (which
    * may be null). */
  datatype Fetched = NoUser | QueryError | Data(rows: Option<seq<Answer>>)

  function RowsOf(rows: Option<seq<Answer>>): seq<Answer> {
    if rows.Some? then rows.value else []
  }

  /** The distinct activities answered in module `m`. */
  function Answered(rows: seq<Answer>, m: int): set<string>
    decreases |rows|
  {
    if rows == [] then {}
    else if rows[|rows| - 1].moduleId == m then Answered(rows[..|rows| - 1], m) + {rows[|rows| - 1].activityId}
    else Answered(rows[..|rows| - 1], m)
  }

  /** Totals per module: one positive number for each of the modules 1..4. */
  predicate Covers(totals: map<int, nat>) {
    forall m :: 1 <= m <= 4 ==> m in totals && totals[m] > 0
  }

  /** Answers counted over modules 1..n. */
  function CompletedUpTo(rows: seq<Answer>, n: nat): nat {
    if n == 0 then 0 else CompletedUpTo(rows, n - 1) + |Answered(rows, n)|
  }

  /** Totals summed over modules 1..n. */
  function TotalUpTo(totals: map<int, nat>, n: nat): (r: nat)
    requires Covers(totals) && n <= 4
    ensures n > 0 ==> r > 0
  {
    if n == 0 then 0 else TotalUpTo(totals, n - 1) + totals[n]
  }

  function ModuleProgress(rows: seq<Answer>, totals: map<int, nat>, m: int): nat
    requires Covers(totals) && 1 <= m <= 4
  {
    RoundPercent(|Answered(rows, m)|, totals[m])
  }

  /** The percentage map: modules 1..4, each its rounded share. */
  function ProgressMap(rows: seq<Answer>, totals: map<int, nat>): map<int, nat>
    requires Covers(totals)
  {
    map m | 1 <= m <= 4 :: ModuleProgress(rows, totals, m)
  }

  /** The overall percentage: all answers counted over all totals. */
  function TotalProgress(rows: seq<Answer>, totals: map<int, nat>): nat
    requires Covers(totals)
  {
    RoundPercent(CompletedUpTo(rows, 4), TotalUpTo(totals, 4))
  }

  /** `progress[m] || 0`: how the pages read one module's percentage. */
  function ShownProgress(progress: map<int, nat>, m: int): (r: nat)
    ensures m in progress ==> r == progress[m]
    ensures m !in progress ==> r == 0
  {
    if m in progress then progress[m] else 0
  }

  /** The hook: no user or a failed query leave the empty map and 0;
    * otherwise each answer of a module 1..4 is added to its module's set,
    * then each module's percentage and the overall one are computed. */
  method FetchProgress(fetched: Fetched, totals: map<int, nat>) returns (progress: map<int, nat>, totalProgress: nat)
    requires Covers(totals)
    ensures fetched.Data? ==> progress == ProgressMap(RowsOf(fetched.rows), totals) &&
                              totalProgress == TotalProgress(RowsOf(fetched.rows), totals)
    ensures !fetched.Data? ==> progress == map[] && totalProgress == 0
  {
    if !fetched.Data? {
      return map[], 0;
    }
    var rows := RowsOf(fetched.rows);
    var completed: map<int, set<string>> := map[1 := {}, 2 := {}, 3 := {}, 4 := {}];
    var k := 0;
    while k < |rows|
      invariant 0 <= k <= |rows|
      invariant forall m :: 1 <= m <= 4 ==> m in completed && completed[m] == Answered(rows[..k], m)
    {
      var item := rows[k];
      if 1 <= item.moduleId <= 4 {
        completed := completed[item.moduleId := completed[item.moduleId] + {item.activityId}];
      }
      assert rows[..k + 1][..k] == rows[..k];
      k := k + 1;
    }
    assert rows[..|rows|] == rows;
    progress := map[];
    var totalCompleted := 0;
    var totalActivities := 0;
    for i := 1 to 5
      invariant progress == map m | 1 <= m < i :: ModuleProgress(rows, totals, m)
      invariant totalCompleted == CompletedUpTo(rows, i - 1) && totalActivities == TotalUpTo(totals, i - 1)
    {
      var c := |completed[i]|;
      var t := totals[i];
      progress := progress[i := RoundPercent(c, t)];
      totalCompleted := totalCompleted + c;
      totalActivities := totalActivities + t;
    }
    totalProgress := RoundPercent(totalCompleted, totalActivities);
  }

  // ---------------------------------------------------------------------
  // What is counted

  /** An activity counts for a module exactly when some row records it
    * there, however often and wherever in the list. */
  lemma {:induction false} AnsweredMeans(rows: seq<Answer>, m: int, id: string)
    ensures id in Answered(rows, m) <==> exists k :: 0 <= k < |rows| && rows[k] == Answer(m, id)
    decreases |rows|
  {
    if rows != [] {
      var init := rows[..|rows| - 1];
      AnsweredMeans(init, m, id);
      if exists k :: 0 <= k < |init| && init[k] == Answer(m, id) {
        var k :| 0 <= k < |init| && init[k] == Answer(m, id);
        assert rows[k] == init[k];
      }
      if exists k :: 0 <= k < |rows| && rows[k] == Answer(m, id) {
        var k :| 0 <= k < |rows| && rows[k] == Answer(m, id);
        if k < |init| {
          assert init[k] == rows[k];
        }
      }
    }
  }

  /** Progress depends only on which activities are answered in each
    * module: rows in another order, repeated rows and rows of a module
    * outside 1..4 change nothing. */
  lemma SameAnswersSameProgress(a: seq<Answer>, b: seq<Answer>, totals: map<int, nat>)
    requires Covers(totals)
    requires forall m, id :: 1 <= m <= 4 ==>
               ((exists k :: 0 <= k < |a| && a[k] == Answer(m, id)) <==> (exists k :: 0 <= k < |b| && b[k] == Answer(m, id)))
    ensures ProgressMap(a, totals) == ProgressMap(b, totals)
    ensures TotalProgress(a, totals) == TotalProgress(b, totals)
  {
    forall m | 1 <= m <= 4
      ensures Answered(a, m) == Answered(b, m)
    {
      forall id
        ensures id in Answered(a, m) <==> id in Answered(b, m)
      {
        AnsweredMeans(a, m, id);
        AnsweredMeans(b, m, id);
      }
    }
    CompletedSame(a, b, 4);
  }

  lemma {:induction false} CompletedSame(a: seq<Answer>, b: seq<Answer>, n: nat)
    requires n <= 4 && forall m :: 1 <= m <= n ==> Answered(a, m) == Answered(b, m)
    ensures CompletedUpTo(a, n) == CompletedUpTo(b, n)
  {
    if n > 0 {
      CompletedSame(a, b, n - 1);
    }
  }

  /** A repeated answer and an answer outside modules 1..4 add nothing. */
  lemma IgnoredRows(rows: seq<Answer>, r: Answer, totals: map<int, nat>)
    requires Covers(totals)
    requires r in rows || !(1 <= r.moduleId <= 4)
    ensures ProgressMap(rows + [r], totals) == ProgressMap(rows, totals)
    ensures TotalProgress(rows + [r], totals) == TotalProgress(rows, totals)
  {
    var ext := rows + [r];
    forall m | 1 <= m <= 4
      ensures Answered(ext, m) == Answered(rows, m)
    {
      assert ext[..|ext| - 1] == rows;
      if r.moduleId == m {
        var k :| 0 <= k < |rows| && rows[k] == r;
        AnsweredMeans(rows, m, r.activityId);
      }
    }
    CompletedSame(ext, rows, 4);
  }

  // ---------------------------------------------------------------------
  // Which rows the application writes, and how many a module can hold

  /** The set of a module's activity ids. */
  function ModuleIds(m: int): set<string>
    requires 1 <= m <= 4
  {
    var ids := ActivityIds(Modules[m - 1]);
    set id | id in ids
  }

  /** The rows the module page can store: every answer for a module 1..4
    * is under one of that module's activity ids. */
  predicate Stored(rows: seq<Answer>) {
    forall k :: 0 <= k < |rows| && 1 <= rows[k].moduleId <= 4 ==>
      rows[k].activityId in ActivityIds(Modules[rows[k].moduleId - 1])
  }

  lemma {:induction false} AnsweredWithin(rows: seq<Answer>, m: int)
    requires Stored(rows) && 1 <= m <= 4
    ensures Answered(rows, m) <= ModuleIds(m)
    decreases |rows|
  {
    if rows != [] {
      AnsweredWithin(rows[..|rows| - 1], m);
    }
  }

  lemma {:induction false} DistinctCard(xs: seq<string>)
    requires Distinct(xs)
    ensures |set x | x in xs| == |xs|
    decreases |xs|
  {
    if xs != [] {
      var init := xs[..|xs| - 1];
      DistinctCard(init);
      assert (set x | x in xs) == (set x | x in init) + {xs[|xs| - 1]};
      assert xs[|xs| - 1] !in init;
    }
  }

  /** Module m holds as many ids as it has activities. */
  lemma ModuleIdsCard(m: int)
    requires 1 <= m <= 4
    ensures |ModuleIds(m)| == |Activities(Modules[m - 1])|
  {
    DistinctActivityIds(m - 1);
    DistinctCard(ActivityIds(Modules[m - 1]));
  }

  /** Answers of one module under distinct ids count one each. */
  lemma {:induction false} DistinctAnswersCount(rows: seq<Answer>, m: int)
    requires forall k :: 0 <= k < |rows| ==> rows[k].moduleId == m
    requires forall i, j :: 0 <= i < j < |rows| ==> rows[i].activityId != rows[j].activityId
    ensures |Answered(rows, m)| == |rows|
    decreases |rows|
  {
    if rows != [] {
      var init := rows[..|rows| - 1];
      var last := rows[|rows| - 1];
      DistinctAnswersCount(init, m);
      AnsweredMeans(init, m, last.activityId);
    }
  }

  /** Every activity of module m answered once. */
  function AllAnswers(m: int): (rows: seq<Answer>)
    requires 1 <= m <= 4
    ensures |rows| == |Activities(Modules[m - 1])| && Stored(rows)
    ensures forall k :: 0 <= k < |rows| ==> rows[k] == Answer(m, ActivityIds(Modules[m - 1])[k])
  {
    var ids := ActivityIds(Modules[m - 1]);
    seq(|ids|, k requires 0 <= k < |ids| => Answer(m, ids[k]))
  }

  lemma AllAnswersCount(m: int)
    requires 1 <= m <= 4
    ensures |Answered(AllAnswers(m), m)| == |Activities(Modules[m - 1])|
    ensures Answered(AllAnswers(m), m) == ModuleIds(m)
  {
    var rows := AllAnswers(m);
    DistinctActivityIds(m - 1);
    DistinctAnswersCount(rows, m);
    AnsweredWithin(rows, m);
    forall id | id in ModuleIds(m)
      ensures id in Answered(rows, m)
    {
      var ids := ActivityIds(Modules[m - 1]);
      var k :| 0 <= k < |ids| && ids[k] == id;
      AnsweredMeans(rows, m, id);
      assert rows[k] == Answer(m, id);
    }
  }

  lemma SubsetCard(a: set<string>, b: set<string>)
    requires a <= b
    ensures |a| <= |b|
    ensures |a| == |b| ==> a == b
  {
    assert b == a + (b - a);
    assert a * (b - a) == {};
    if |a| == |b| {
      assert |b - a| == 0;
    }
  }

  /** One module's entry of the map. */
  lemma ProgressAt(rows: seq<Answer>, totals: map<int, nat>, m: int)
    requires Covers(totals) && 1 <= m <= 4
    ensures m in ProgressMap(rows, totals)
    ensures ProgressMap(rows, totals)[m] == RoundPercent(|Answered(rows, m)|, totals[m])
  {
  }

  // ---------------------------------------------------------------------
  // The totals as written in the hook

  const WrittenTotals: map<int, nat> := map[1 := 9, 2 := 5, 3 := 6, 4 := 6]

  /** With the totals as written, answering all ten activities of module 1
    * shows 111%. */
  lemma WrittenModuleOneOverflows()
    ensures Covers(WrittenTotals)
    ensures ProgressMap(AllAnswers(1), WrittenTotals)[1] == 111
  {
    var rows := AllAnswers(1);
    ModuleShape(0);
    DistinctActivityIds(0);
    DistinctAnswersCount(rows, 1);
    ProgressAt(rows, WrittenTotals, 1);
    assert WrittenTotals[1] == 9;
    assert RoundPercent(10, 9) == 111;
  }

  /** With the totals as written, module 1 already shows 100% with one of
    * its activities unanswered. */
  lemma WrittenModuleOneEarly()
    ensures Covers(WrittenTotals)
    ensures var rows := AllAnswers(1)[..9];
            |Answered(rows, 1)| == 9 < |Activities(Modules[0])| && ProgressMap(rows, WrittenTotals)[1] == 100
  {
    ModuleShape(0);
    var rows := AllAnswers(1)[..9];
    DistinctActivityIds(0);
    DistinctAnswersCount(rows, 1);
    ProgressAt(rows, WrittenTotals, 1);
    assert RoundPercent(9, 9) == 100;
  }

  /** With the totals as written, module 4 never reaches 100%: it has five
    * activities and the hook divides by six, so it stops at 83%. */
  lemma WrittenModuleFourStops(rows: seq<Answer>)
    requires Stored(rows)
    ensures Covers(WrittenTotals)
    ensures ProgressMap(rows, WrittenTotals)[4] <= 83
    ensures ProgressMap(AllAnswers(4), WrittenTotals)[4] == 83
  {
    AnsweredWithin(rows, 4);
    ModuleIdsCard(4);
    ModuleShape(3);
    SubsetCard(Answered(rows, 4), ModuleIds(4));
    var c := |Answered(rows, 4)|;
    ProgressAt(rows, WrittenTotals, 4);
    var r := RoundPercent(c, 6);
    assert 12 * r <= 200 * c + 6 <= 1006;
    AllAnswersCount(4);
    ProgressAt(AllAnswers(4), WrittenTotals, 4);
    assert RoundPercent(5, 6) == 83;
  }

  // ---------------------------------------------------------------------
  // Totals taken from the workbook content

  /** Each module's total is its number of activities. */
  const ContentTotals: map<int, nat> := map[1 := 10, 2 := 5, 3 := 7, 4 := 5]

  lemma ContentTotalsMatch(m: int)
    requires 1 <= m <= 4
    ensures Covers(ContentTotals)
    ensures ContentTotals[m] == |Activities(Modules[m - 1])| == |ModuleIds(m)|
  {
    ModuleShape(m - 1);
    ModuleIdsCard(m);
  }

  /** `Math.round(c / t * 100)` for c <= t < 200 is at most 100, and 100
    * only for c == t. */
  lemma RoundPercentFull(c: nat, t: nat)
    requires 0 < t < 200 && c <= t
    ensures RoundPercent(c, t) <= 100
    ensures RoundPercent(c, t) == 100 <==> c == t
  {
    var r := RoundPercent(c, t);
    if r > 100 {
      MulAtLeast(2 * t, r, 101);
    }
    if r < 100 {
      MulAtLeast(2 * t, 100, r + 1);
      assert 200 * c + t < 200 * t;
    }
  }

  lemma MulAtLeast(k: nat, a: nat, b: nat)
    requires a >= b
    ensures k * a >= k * b
  {
    assert k * a == k * b + k * (a - b);
  }

  /** With the content's totals, a module's percentage stays within 100 and
    * reaches 100 exactly when every one of its activities is answered. */
  lemma ContentModuleProgress(rows: seq<Answer>, m: int)
    requires Stored(rows) && 1 <= m <= 4
    ensures Covers(ContentTotals)
    ensures ProgressMap(rows, ContentTotals)[m] <= 100
    ensures ProgressMap(rows, ContentTotals)[m] == 100 <==> Answered(rows, m) == ModuleIds(m)
  {
    AnsweredWithin(rows, m);
    ContentTotalsMatch(m);
    SubsetCard(Answered(rows, m), ModuleIds(m));
    ProgressAt(rows, ContentTotals, m);
    RoundPercentFull(|Answered(rows, m)|, ContentTotals[m]);
  }

  /** With the content's totals, the overall percentage stays within 100 and
    * reaches 100 exactly when the whole workbook is answered. */
  lemma ContentTotalProgress(rows: seq<Answer>)
    requires Stored(rows)
    ensures Covers(ContentTotals)
    ensures TotalUpTo(ContentTotals, 4) == 27
    ensures TotalProgress(rows, ContentTotals) <= 100
    ensures TotalProgress(rows, ContentTotals) == 100 <==> forall m :: 1 <= m <= 4 ==> Answered(rows, m) == ModuleIds(m)
  {
    ContentTotalsMatch(1);
    forall m | 1 <= m <= 4
      ensures |Answered(rows, m)| <= ContentTotals[m]
      ensures |Answered(rows, m)| == ContentTotals[m] <==> Answered(rows, m) == ModuleIds(m)
    {
      AnsweredWithin(rows, m);
      ContentTotalsMatch(m);
      SubsetCard(Answered(rows, m), ModuleIds(m));
    }
    CompletedBound(rows, ContentTotals, 4);
    assert TotalUpTo(ContentTotals, 4) == 27 by {
      assert TotalUpTo(ContentTotals, 2) == 15;
    }
    RoundPercentFull(CompletedUpTo(rows, 4), 27);
  }

  /** The answers counted stay within the totals summed, and reach them
    * exactly when every module reaches its own total. */
  lemma {:induction false} CompletedBound(rows: seq<Answer>, totals: map<int, nat>, n: nat)
    requires Covers(totals) && n <= 4
    requires forall m :: 1 <= m <= n ==> |Answered(rows, m)| <= totals[m]
    ensures CompletedUpTo(rows, n) <= TotalUpTo(totals, n)
    ensures CompletedUpTo(rows, n) == TotalUpTo(totals, n) <==> forall m :: 1 <= m <= n ==> |Answered(rows, m)| == totals[m]
  {
    if n > 0 {
      CompletedBound(rows, totals, n - 1);
    }
  }
}
