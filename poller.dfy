// The `process-scheduled-campaigns` edge function: find the campaigns whose
// schedule has come and hand each one to `send-campaign`. The query result,
// the clock and the outcome of each invocation are parameters.

module ScheduledPoller {

  import opened Strings
  import opened Http
  import opened Campaigns

  datatype Request = Options | Post

  /** What `functions.invoke("send-campaign", ...)` came to for one campaign. */
  datatype Invocation =
    | Invoked                      // no error returned
    | InvokeFailed(message: string) // an error object was returned
    | InvokeThrew(text: string)     // the call threw; `String(error)`

  datatype ResultStatus = ResultSent | ResultError

  datatype Result = Result(id: string, status: ResultStatus, error: Option<string>)

  datatype Body =
    | NothingToProcess               // { message: "No campaigns to process", processed: 0 }
    | Processed(processed: nat, results: seq<Result>)
    | Failure(error: string)

  /** The poller's only effect: one invocation of the dispatcher. */
  datatype Effect = InvokeSendCampaign(campaignId: string)

  /** `status = 'scheduled'` and `scheduled_at <= now`; a null schedule
    * never matches. */
  predicate IsDue(c: Campaign, now: Millis) {
    c.status == Scheduled && c.scheduledAt.Some? && c.scheduledAt.value <= now
  }

  /** The rows the query returns, in table order. */
  function Due(table: seq<Campaign>, now: Millis): (r: seq<Campaign>)
    ensures |r| <= |table|
    ensures forall k :: 0 <= k < |r| ==> IsDue(r[k], now) && r[k] in table
    ensures forall c :: c in table && IsDue(c, now) ==> c in r
    decreases |table|
  {
    if table == [] then []
    else
      var n := |table| - 1;
      Due(table[..n], now) + (if IsDue(table[n], now) then [table[n]] else [])
  }

  function ResultFor(id: string, o: Invocation): (r: Result)
    ensures r.id == id
    ensures r.status == ResultSent <==> o.Invoked?
    ensures r.error.None? <==> o.Invoked?
  {
    match o
    case Invoked => Result(id, ResultSent, None)
    case InvokeFailed(m) => Result(id, ResultError, Some(m))
    case InvokeThrew(t) => Result(id, ResultError, Some(t))
  }

  /** The fetch failed; the message is that of an `Error`, if it is one. */
  datatype FetchError = FetchError(message: Option<string>)

  predicate OutcomesFit(table: seq<Campaign>, fetchError: Option<FetchError>, now: Millis, outcomes: seq<Invocation>) {
    fetchError.None? ==> |outcomes| == |Due(table, now)|
  }

  method Serve(req: Request, table: seq<Campaign>, fetchError: Option<FetchError>, now: Millis,
               outcomes: seq<Invocation>)
    returns (effects: seq<Effect>, reply: Reply<Body>)
    requires OutcomesFit(table, fetchError, now, outcomes)
    ensures req.Options? ==> effects == [] && reply == Preflight
    ensures req.Post? && fetchError.Some? ==>
              effects == [] && reply == Reply(500, Failure(CaughtMessage(fetchError.value.message)))
    ensures req.Post? && fetchError.None? && Due(table, now) == [] ==>
              effects == [] && reply == Reply(200, NothingToProcess)
    ensures req.Post? && fetchError.None? && Due(table, now) != [] ==>
              var due := Due(table, now);
              reply.Reply? && reply.status == 200 && reply.body.Processed? &&
              reply.body.processed == |reply.body.results| == |due| &&
              (forall k :: 0 <= k < |due| ==> reply.body.results[k] == ResultFor(due[k].id, outcomes[k])) &&
              effects == Invocations(due)
  {
    if req.Options? {
      return [], Preflight;
    }
    if fetchError.Some? {
      return [], Reply(500, Failure(CaughtMessage(fetchError.value.message)));
    }
    var scheduled := Due(table, now);
    if scheduled == [] {
      return [], Reply(200, NothingToProcess);
    }
    var results: seq<Result> := [];
    effects := [];
    for i := 0 to |scheduled|
      invariant |results| == i
      invariant forall k :: 0 <= k < i ==> results[k] == ResultFor(scheduled[k].id, outcomes[k])
      invariant effects == Invocations(scheduled[..i])
    {
      var campaign := scheduled[i];
      effects := effects + [InvokeSendCampaign(campaign.id)];
      match outcomes[i]
      case Invoked =>
        results := results + [Result(campaign.id, ResultSent, None)];
      case InvokeFailed(m) =>
        results := results + [Result(campaign.id, ResultError, Some(m))];
      case InvokeThrew(t) =>
        results := results + [Result(campaign.id, ResultError, Some(t))];
      assert scheduled[..i + 1][..i] == scheduled[..i];
    }
    assert scheduled[..|scheduled|] == scheduled;
    reply := Reply(200, Processed(|results|, results));
  }

  /** One invocation per due campaign, in order. */
  function Invocations(due: seq<Campaign>): (r: seq<Effect>)
    ensures |r| == |due|
    ensures forall k :: 0 <= k < |due| ==> r[k] == InvokeSendCampaign(due[k].id)
    decreases |due|
  {
    if due == [] then [] else Invocations(due[..|due| - 1]) + [InvokeSendCampaign(due[|due| - 1].id)]
  }

  /** A campaign that is not scheduled, or whose time has not come, is
    * never handed to the dispatcher. */
  lemma {:induction false} OnlyDueAreInvoked(table: seq<Campaign>, now: Millis, id: string)
    requires forall c :: c in table && c.id == id ==> !IsDue(c, now)
    ensures InvokeSendCampaign(id) !in Invocations(Due(table, now))
  {
    var due := Due(table, now);
    var inv := Invocations(due);
    forall k | 0 <= k < |inv| ensures inv[k] != InvokeSendCampaign(id) {
      assert due[k] in table && IsDue(due[k], now);
    }
  }

  /** Every due campaign is handed to the dispatcher. */
  lemma {:induction false} EveryDueIsInvoked(table: seq<Campaign>, now: Millis, c: Campaign)
    requires c in table && IsDue(c, now)
    ensures InvokeSendCampaign(c.id) in Invocations(Due(table, now))
  {
    var due := Due(table, now);
    var k :| 0 <= k < |due| && due[k] == c;
    assert Invocations(due)[k] == InvokeSendCampaign(c.id);
  }

  /** The poller writes no campaign row, so a due campaign stays due on
    * every later run until the dispatcher changes its status: a campaign
    * whose dispatch fails before the "sending" write is retried. */
  lemma {:induction false} DueIsStable(table: seq<Campaign>, now: Millis, later: Millis)
    requires now <= later
    ensures forall c :: c in Due(table, now) ==> c in Due(table, later)
  {
    forall c | c in Due(table, now) ensures c in Due(table, later) {
      assert c in table && IsDue(c, later);
    }
  }
}
