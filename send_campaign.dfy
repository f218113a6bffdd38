// The `send-campaign` edge function: deliver one campaign to every contact,
// one provider request per contact, log each outcome and mark the campaign
// sent. The database and the e-mail provider are parameters: the query
// results are inputs, the provider's answers arrive as one outcome per
// contact, and every write or request is returned, in order, as an effect.

module SendCampaign {

  import opened Strings
  import opened Http
  import opened Campaigns

  const Sender := "EMPODHERA <contato@empodhera.com>"
  const NameToken := "{{nome}}"

  /** A body that is not JSON makes `req.json()` throw, and the parser's
    * message is what the handler answers with. */
  datatype Request = Options | Unparsable(message: string) | Post(campaignId: Option<string>)

  datatype Contact = Contact(id: string, email: string, name: Option<string>)

  datatype Email = Email(from: string, to: seq<string>, subject: string, html: string)

  /** What the provider request for one contact came to. */
  datatype Delivery =
    | Delivered(at: Millis)             // 2xx; `at` is the clock when it is logged
    | Rejected(text: string)            // non-2xx, with the response text
    | Raised(message: Option<string>)   // the request threw (message of an Error)

  datatype LogStatus = LogSent | LogFailed

  datatype EmailLog = EmailLog(
    campaignId: string,
    contactId: string,
    status: LogStatus,
    sentAt: Option<Millis>,
    errorMessage: Option<string>)

  datatype Effect =
    | UpdateCampaign(id: string, patch: CampaignPatch)
    | SendEmail(email: Email)
    | InsertLog(log: EmailLog)

  datatype Body = Summary(sent: nat, failed: nat) | Failure(error: string)

  /** The campaign's HTML with every `{{nome}}` replaced by the contact's
    * name, or by nothing when the contact has no name; the name goes
    * through JavaScript's `$` substitution patterns like any replacement. */
  function Personalize(html: string, name: Option<string>): string {
    ReplaceAllJs(html, NameToken, OrEmpty(name))
  }

  /** A template with one `{{nome}}`, and no brace before it, gets the name
    * in its place and nothing else changes. */
  lemma PersonalizeFillsToken(a: string, b: string, name: Option<string>)
    requires '{' !in a && !Contains(b, NameToken) && '$' !in OrEmpty(name)
    ensures Personalize(a + NameToken + b, name) == a + OrEmpty(name) + b
  {
    ReplaceAllJsLiteral(a + NameToken + b, NameToken, OrEmpty(name));
    ReplaceAllInserts(a, NameToken, b, OrEmpty(name));
    ReplaceAllAbsent(b, NameToken, OrEmpty(name));
  }

  /** "Oi {{nome}}!" reads "Oi Ana!" for Ana, and "Oi !" for a contact
    * without a name. */
  lemma GreetsAna()
    ensures Personalize("Oi {{nome}}!", Some("Ana")) == "Oi Ana!"
    ensures Personalize("Oi {{nome}}!", None) == "Oi !"
  {
    var a, b := "Oi ", "!";
    NoLongContains(b, NameToken);
    PersonalizeFillsToken(a, b, Some("Ana"));
    PersonalizeFillsToken(a, b, None);
    assert a + NameToken + b == "Oi {{nome}}!";
    assert a + "Ana" + b == "Oi Ana!" && a + "" + b == "Oi !";
  }

  function EmailFor(c: Campaign, contact: Contact): Email {
    Email(Sender, [contact.email], c.subject, Personalize(c.htmlContent, contact.name))
  }

  /** The `error_message` recorded for a failed delivery. */
  function FailureText(d: Delivery): string
    requires !d.Delivered?
  {
    match d
    case Rejected(text) => text
    case Raised(message) => CaughtMessage(message)
  }

  function LogFor(campaignId: string, contact: Contact, d: Delivery): (log: EmailLog)
    ensures log.campaignId == campaignId && log.contactId == contact.id
    ensures log.status == LogSent <==> d.Delivered?
    ensures log.sentAt.Some? <==> d.Delivered?
    ensures log.errorMessage.Some? <==> !d.Delivered?
  {
    if d.Delivered? then EmailLog(campaignId, contact.id, LogSent, Some(d.at), None)
    else EmailLog(campaignId, contact.id, LogFailed, None, Some(FailureText(d)))
  }

  /** The effects of delivering to the contacts in order: a request, then
    * its log row, for each. */
  function Deliveries(id: string, c: Campaign, contacts: seq<Contact>, outcomes: seq<Delivery>): (r: seq<Effect>)
    requires |outcomes| == |contacts|
    ensures |r| == 2 * |contacts|
    decreases |contacts|
  {
    if contacts == [] then []
    else
      var n := |contacts| - 1;
      Deliveries(id, c, contacts[..n], outcomes[..n])
        + [SendEmail(EmailFor(c, contacts[n])), InsertLog(LogFor(id, contacts[n], outcomes[n]))]
  }

  lemma DeliveriesStep(id: string, c: Campaign, contacts: seq<Contact>, outcomes: seq<Delivery>, i: nat)
    requires i < |contacts| == |outcomes|
    ensures Deliveries(id, c, contacts[..i + 1], outcomes[..i + 1]) ==
            Deliveries(id, c, contacts[..i], outcomes[..i]) +
            [SendEmail(EmailFor(c, contacts[i])), InsertLog(LogFor(id, contacts[i], outcomes[i]))]
  {
    var p, q := contacts[..i + 1], outcomes[..i + 1];
    assert p[..i] == contacts[..i] && q[..i] == outcomes[..i];
  }

  /** How many deliveries succeeded. */
  function DeliveredCount(outcomes: seq<Delivery>): (n: nat)
    ensures n <= |outcomes|
    decreases |outcomes|
  {
    if outcomes == [] then 0
    else DeliveredCount(outcomes[..|outcomes| - 1]) + (if outcomes[|outcomes| - 1].Delivered? then 1 else 0)
  }

  predicate OutcomesFit(contacts: Option<seq<Contact>>, outcomes: seq<Delivery>) {
    contacts.Some? ==> |outcomes| == |contacts.value|
  }

  /** The whole request: the error checks in order, then the delivery. */
  function Handle(req: Request, campaigns: map<string, Campaign>, contacts: Option<seq<Contact>>,
                  outcomes: seq<Delivery>, finishedAt: Millis): (seq<Effect>, Reply<Body>)
    requires OutcomesFit(contacts, outcomes)
  {
    if req.Options? then ([], Preflight)
    else if req.Unparsable? then ([], Reply(500, Failure(req.message)))
    else if !Truthy(req.campaignId) then ([], Reply(500, Failure("campaignId is required")))
    else if req.campaignId.value !in campaigns then ([], Reply(500, Failure("Campaign not found")))
    else if contacts.None? || contacts.value == [] then ([], Reply(500, Failure("No contacts to send to")))
    else
      var id := req.campaignId.value;
      var list := contacts.value;
      var sent := DeliveredCount(outcomes);
      (Trace(id, campaigns[id], list, outcomes, finishedAt), Reply(200, Summary(sent, |list| - sent)))
  }

  method Serve(req: Request, campaigns: map<string, Campaign>, contacts: Option<seq<Contact>>,
               outcomes: seq<Delivery>, finishedAt: Millis)
    returns (effects: seq<Effect>, reply: Reply<Body>)
    requires OutcomesFit(contacts, outcomes)
    ensures (effects, reply) == Handle(req, campaigns, contacts, outcomes, finishedAt)
  {
    if req.Options? {
      return [], Preflight;
    }
    if req.Unparsable? {
      return [], Reply(500, Failure(req.message));
    }
    if !Truthy(req.campaignId) {
      return [], Reply(500, Failure("campaignId is required"));
    }
    var id := req.campaignId.value;
    if id !in campaigns {
      return [], Reply(500, Failure("Campaign not found"));
    }
    var campaign := campaigns[id];
    if contacts.None? || contacts.value == [] {
      return [], Reply(500, Failure("No contacts to send to"));
    }
    var list := contacts.value;
    var delivered, successCount, failCount := Deliver(id, campaign, list, outcomes);
    effects := [UpdateCampaign(id, SendingPatch)] + delivered + [UpdateCampaign(id, SentPatch(finishedAt))];
    reply := Reply(200, Summary(successCount, failCount));
    HandlePasses(req, campaigns, contacts, outcomes, finishedAt);
  }

  /** The loop over the contacts: one provider request per contact, then
    * its log row, counting deliveries and failures. */
  method Deliver(id: string, campaign: Campaign, list: seq<Contact>, outcomes: seq<Delivery>)
    returns (effects: seq<Effect>, successCount: nat, failCount: nat)
    requires |outcomes| == |list|
    ensures effects == Deliveries(id, campaign, list, outcomes)
    ensures successCount == DeliveredCount(outcomes) && successCount + failCount == |list|
  {
    effects := [];
    successCount, failCount := 0, 0;
    for i := 0 to |list|
      invariant effects == Deliveries(id, campaign, list[..i], outcomes[..i])
      invariant successCount == DeliveredCount(outcomes[..i])
      invariant successCount + failCount == i
    {
      var contact := list[i];
      ghost var before := effects;
      DeliveriesStep(id, campaign, list, outcomes, i);
      effects := effects + [SendEmail(EmailFor(campaign, contact))];
      if outcomes[i].Delivered? {
        effects := effects + [InsertLog(EmailLog(id, contact.id, LogSent, Some(outcomes[i].at), None))];
        successCount := successCount + 1;
      } else {
        effects := effects + [InsertLog(EmailLog(id, contact.id, LogFailed, None, Some(FailureText(outcomes[i]))))];
        failCount := failCount + 1;
      }
      assert effects == before + [SendEmail(EmailFor(campaign, contact)), InsertLog(LogFor(id, contact, outcomes[i]))];
      assert outcomes[..i + 1][..i] == outcomes[..i];
    }
    assert list[..|list|] == list;
    assert outcomes[..|list|] == outcomes;
  }

  /** A request that passes the checks answers with the delivery trace and
    * the two counts. */
  lemma HandlePasses(req: Request, campaigns: map<string, Campaign>, contacts: Option<seq<Contact>>,
                     outcomes: seq<Delivery>, finishedAt: Millis)
    requires OutcomesFit(contacts, outcomes) && req.Post? && Truthy(req.campaignId)
    requires req.campaignId.value in campaigns && contacts.Some? && contacts.value != []
    ensures var id := req.campaignId.value;
            var sent := DeliveredCount(outcomes);
            Handle(req, campaigns, contacts, outcomes, finishedAt) ==
              (Trace(id, campaigns[id], contacts.value, outcomes, finishedAt),
               Reply(200, Summary(sent, |contacts.value| - sent)))
  {
  }

  // ---------------------------------------------------------------------
  // What the trace of a delivery contains

  function Sends(effects: seq<Effect>): (r: seq<Email>)
    ensures |r| <= |effects|
    decreases |effects|
  {
    if effects == [] then []
    else Sends(effects[..|effects| - 1]) + (match effects[|effects| - 1] case SendEmail(e) => [e] case _ => [])
  }

  function Logs(effects: seq<Effect>): (r: seq<EmailLog>)
    ensures |r| <= |effects|
    decreases |effects|
  {
    if effects == [] then []
    else Logs(effects[..|effects| - 1]) + (match effects[|effects| - 1] case InsertLog(l) => [l] case _ => [])
  }

  lemma {:induction false} SendsAppend(a: seq<Effect>, b: seq<Effect>)
    ensures Sends(a + b) == Sends(a) + Sends(b)
    decreases |b|
  {
    if b != [] {
      var n := |b| - 1;
      assert (a + b)[..|a + b| - 1] == a + b[..n];
      SendsAppend(a, b[..n]);
    } else {
      assert a + b == a;
    }
  }

  lemma {:induction false} LogsAppend(a: seq<Effect>, b: seq<Effect>)
    ensures Logs(a + b) == Logs(a) + Logs(b)
    decreases |b|
  {
    if b != [] {
      var n := |b| - 1;
      assert (a + b)[..|a + b| - 1] == a + b[..n];
      LogsAppend(a, b[..n]);
    } else {
      assert a + b == a;
    }
  }

  /** Every contact gets exactly one request, in order, addressed to that
    * contact alone, with the campaign's subject and the HTML personalized
    * with that contact's name. */
  lemma {:induction false} OneEmailPerContact(id: string, c: Campaign, contacts: seq<Contact>, outcomes: seq<Delivery>)
    requires |outcomes| == |contacts|
    ensures var s := Sends(Deliveries(id, c, contacts, outcomes));
            |s| == |contacts| &&
            forall k :: 0 <= k < |contacts| ==>
              s[k] == Email(Sender, [contacts[k].email], c.subject, Personalize(c.htmlContent, contacts[k].name))
    decreases |contacts|
  {
    if contacts != [] {
      var n := |contacts| - 1;
      var last := [SendEmail(EmailFor(c, contacts[n])), InsertLog(LogFor(id, contacts[n], outcomes[n]))];
      OneEmailPerContact(id, c, contacts[..n], outcomes[..n]);
      SendsAppend(Deliveries(id, c, contacts[..n], outcomes[..n]), last);
      assert last[..1] == [SendEmail(EmailFor(c, contacts[n]))];
      assert Sends(last) == [EmailFor(c, contacts[n])] by {
        assert last[..0] == [];
      }
    }
  }

  /** Every contact gets exactly one log row, in order: "sent" with a time
    * exactly when the provider accepted, "failed" with the error otherwise. */
  lemma OneLogPerContact(id: string, c: Campaign, contacts: seq<Contact>, outcomes: seq<Delivery>)
    requires |outcomes| == |contacts|
    ensures var l := Logs(Deliveries(id, c, contacts, outcomes));
            |l| == |contacts| &&
            forall k :: 0 <= k < |contacts| ==>
              l[k].campaignId == id && l[k].contactId == contacts[k].id &&
              (l[k].status == LogSent <==> outcomes[k].Delivered?) &&
              (outcomes[k].Delivered? ==> l[k].sentAt == Some(outcomes[k].at) && l[k].errorMessage.None?) &&
              (!outcomes[k].Delivered? ==> l[k].sentAt.None? && l[k].errorMessage == Some(FailureText(outcomes[k])))
  {
    LogsInOrder(id, c, contacts, outcomes);
  }

  lemma {:induction false} LogsInOrder(id: string, c: Campaign, contacts: seq<Contact>, outcomes: seq<Delivery>)
    requires |outcomes| == |contacts|
    ensures var l := Logs(Deliveries(id, c, contacts, outcomes));
            |l| == |contacts| && forall k :: 0 <= k < |contacts| ==> l[k] == LogFor(id, contacts[k], outcomes[k])
    decreases |contacts|
  {
    if contacts != [] {
      var n := |contacts| - 1;
      var last := [SendEmail(EmailFor(c, contacts[n])), InsertLog(LogFor(id, contacts[n], outcomes[n]))];
      var before := Deliveries(id, c, contacts[..n], outcomes[..n]);
      LogsInOrder(id, c, contacts[..n], outcomes[..n]);
      LogsAppend(before, last);
      PairEffects(EmailFor(c, contacts[n]), LogFor(id, contacts[n], outcomes[n]));
      assert Logs(Deliveries(id, c, contacts, outcomes)) == Logs(before) + [LogFor(id, contacts[n], outcomes[n])];
      assert forall k :: 0 <= k < n ==> contacts[..n][k] == contacts[k] && outcomes[..n][k] == outcomes[k];
    }
  }

  /** The pair of effects for one contact holds one send and one log. */
  lemma PairEffects(e: Email, log: EmailLog)
    ensures Sends([SendEmail(e), InsertLog(log)]) == [e]
    ensures Logs([SendEmail(e), InsertLog(log)]) == [log]
  {
    var pair := [SendEmail(e), InsertLog(log)];
    assert pair[..1] == [SendEmail(e)];
    assert pair[..1][..0] == [];
  }

  /** The delivered count is the number of "sent" log rows. */
  lemma {:induction false} CountMatchesLogs(id: string, c: Campaign, contacts: seq<Contact>, outcomes: seq<Delivery>)
    requires |outcomes| == |contacts|
    ensures DeliveredCount(outcomes) == SentLogs(Logs(Deliveries(id, c, contacts, outcomes)))
    decreases |contacts|
  {
    if contacts != [] {
      var n := |contacts| - 1;
      var last := [SendEmail(EmailFor(c, contacts[n])), InsertLog(LogFor(id, contacts[n], outcomes[n]))];
      var before := Deliveries(id, c, contacts[..n], outcomes[..n]);
      CountMatchesLogs(id, c, contacts[..n], outcomes[..n]);
      LogsAppend(before, last);
      assert Logs(last) == [LogFor(id, contacts[n], outcomes[n])] by {
        assert last[..1] == [SendEmail(EmailFor(c, contacts[n]))];
        assert last[..1][..0] == [];
      }
      SentLogsAppend(Logs(before), Logs(last));
    }
  }

  function SentLogs(logs: seq<EmailLog>): nat
    decreases |logs|
  {
    if logs == [] then 0
    else SentLogs(logs[..|logs| - 1]) + (if logs[|logs| - 1].status == LogSent then 1 else 0)
  }

  lemma {:induction false} SentLogsAppend(a: seq<EmailLog>, b: seq<EmailLog>)
    ensures SentLogs(a + b) == SentLogs(a) + SentLogs(b)
    decreases |b|
  {
    if b != [] {
      assert (a + b)[..|a + b| - 1] == a + b[..|b| - 1];
      SentLogsAppend(a, b[..|b| - 1]);
    } else {
      assert a + b == a;
    }
  }

  // ---------------------------------------------------------------------
  // The request as a whole

  /** Each error stops the request before anything is written or sent. */
  lemma HandleErrors(req: Request, campaigns: map<string, Campaign>, contacts: Option<seq<Contact>>,
                     outcomes: seq<Delivery>, finishedAt: Millis)
    requires OutcomesFit(contacts, outcomes) && !req.Options?
    ensures var (effects, reply) := Handle(req, campaigns, contacts, outcomes, finishedAt);
            (req.Unparsable? ==> effects == [] && reply == Reply(500, Failure(req.message))) &&
            (req.Post? && !Truthy(req.campaignId) ==> effects == [] && reply == Reply(500, Failure("campaignId is required"))) &&
            (req.Post? && Truthy(req.campaignId) && req.campaignId.value !in campaigns ==>
               effects == [] && reply == Reply(500, Failure("Campaign not found"))) &&
            (req.Post? && Truthy(req.campaignId) && req.campaignId.value in campaigns && (contacts.None? || contacts.value == []) ==>
               effects == [] && reply == Reply(500, Failure("No contacts to send to"))) &&
            (reply.Reply? && reply.status == 500 ==> effects == [])
  {
  }

  /** The trace of a request that passes the checks. */
  function Trace(id: string, c: Campaign, contacts: seq<Contact>, outcomes: seq<Delivery>, finishedAt: Millis): seq<Effect>
    requires |outcomes| == |contacts|
  {
    [UpdateCampaign(id, SendingPatch)] + Deliveries(id, c, contacts, outcomes) + [UpdateCampaign(id, SentPatch(finishedAt))]
  }

  lemma TraceContents(id: string, c: Campaign, contacts: seq<Contact>, outcomes: seq<Delivery>, finishedAt: Millis)
    requires |outcomes| == |contacts|
    ensures var t := Trace(id, c, contacts, outcomes, finishedAt);
            Sends(t) == Sends(Deliveries(id, c, contacts, outcomes)) &&
            Logs(t) == Logs(Deliveries(id, c, contacts, outcomes))
  {
    var d := Deliveries(id, c, contacts, outcomes);
    var first := [UpdateCampaign(id, SendingPatch)];
    var final := [UpdateCampaign(id, SentPatch(finishedAt))];
    SendsAppend(first, d);
    SendsAppend(first + d, final);
    LogsAppend(first, d);
    LogsAppend(first + d, final);
    assert Sends(first) == [] && Logs(first) == [] by { assert first[..0] == []; }
    assert Sends(final) == [] && Logs(final) == [] by { assert final[..0] == []; }
  }

  /** A request that passes the checks reaches every contact: the counts
    * add up to the number of contacts, the campaign is marked "sending"
    * first and "sent" last, and nothing else touches the campaign row. */
  lemma HandleSuccess(id: string, campaigns: map<string, Campaign>, contacts: seq<Contact>,
                      outcomes: seq<Delivery>, finishedAt: Millis)
    requires id != "" && id in campaigns && contacts != [] && |outcomes| == |contacts|
    ensures var (effects, reply) := Handle(Post(Some(id)), campaigns, Some(contacts), outcomes, finishedAt);
            reply.Reply? && reply.status == 200 && reply.body.Summary? &&
            reply.body.sent + reply.body.failed == |contacts| &&
            reply.body.sent == SentLogs(Logs(effects)) &&
            |Sends(effects)| == |contacts| && |Logs(effects)| == |contacts| &&
            effects[0] == UpdateCampaign(id, SendingPatch) &&
            effects[|effects| - 1] == UpdateCampaign(id, SentPatch(finishedAt)) &&
            forall k :: 0 < k < |effects| - 1 ==> !effects[k].UpdateCampaign?
  {
    var c := campaigns[id];
    HandlePasses(Post(Some(id)), campaigns, Some(contacts), outcomes, finishedAt);
    TraceShape(id, c, contacts, outcomes, finishedAt);
  }

  /** The trace of a delivery: one send and one log per contact, as many
    * "sent" logs as deliveries, and the campaign written only first and
    * last. */
  lemma TraceShape(id: string, c: Campaign, contacts: seq<Contact>, outcomes: seq<Delivery>, finishedAt: Millis)
    requires |outcomes| == |contacts|
    ensures var t := Trace(id, c, contacts, outcomes, finishedAt);
            DeliveredCount(outcomes) == SentLogs(Logs(t)) &&
            |Sends(t)| == |contacts| && |Logs(t)| == |contacts| &&
            t[0] == UpdateCampaign(id, SendingPatch) &&
            t[|t| - 1] == UpdateCampaign(id, SentPatch(finishedAt)) &&
            forall k :: 0 < k < |t| - 1 ==> !t[k].UpdateCampaign?
  {
    var t := Trace(id, c, contacts, outcomes, finishedAt);
    TraceContents(id, c, contacts, outcomes, finishedAt);
    DeliveryCounts(id, c, contacts, outcomes);
    CountMatchesLogs(id, c, contacts, outcomes);
    DeliveriesNoUpdates(id, c, contacts, outcomes);
    var d := Deliveries(id, c, contacts, outcomes);
    assert forall k :: 0 < k < |t| - 1 ==> t[k] == d[k - 1];
  }

  lemma DeliveryCounts(id: string, c: Campaign, contacts: seq<Contact>, outcomes: seq<Delivery>)
    requires |outcomes| == |contacts|
    ensures |Sends(Deliveries(id, c, contacts, outcomes))| == |contacts|
    ensures |Logs(Deliveries(id, c, contacts, outcomes))| == |contacts|
  {
    OneEmailPerContact(id, c, contacts, outcomes);
    OneLogPerContact(id, c, contacts, outcomes);
  }

  lemma {:induction false} DeliveriesNoUpdates(id: string, c: Campaign, contacts: seq<Contact>, outcomes: seq<Delivery>)
    requires |outcomes| == |contacts|
    ensures forall k :: 0 <= k < |Deliveries(id, c, contacts, outcomes)| ==>
              !Deliveries(id, c, contacts, outcomes)[k].UpdateCampaign?
    decreases |contacts|
  {
    if contacts != [] {
      var n := |contacts| - 1;
      DeliveriesNoUpdates(id, c, contacts[..n], outcomes[..n]);
    }
  }

  /** The dispatcher never looks at the campaign's current status: a
    * campaign that is already "sent" or "sending" is delivered again. */
  lemma StatusIsIgnored(req: Request, campaigns: map<string, Campaign>, contacts: Option<seq<Contact>>,
                        outcomes: seq<Delivery>, finishedAt: Millis, status: CampaignStatus)
    requires OutcomesFit(contacts, outcomes) && req.Post? && Truthy(req.campaignId) && req.campaignId.value in campaigns
    ensures var id := req.campaignId.value;
            var other := campaigns[id := campaigns[id].(status := status)];
            Handle(req, other, contacts, outcomes, finishedAt) == Handle(req, campaigns, contacts, outcomes, finishedAt)
  {
    var id := req.campaignId.value;
    if contacts.Some? {
      DeliveriesIgnoreStatus(id, campaigns[id], contacts.value, outcomes, status);
    }
  }

  lemma {:induction false} DeliveriesIgnoreStatus(id: string, c: Campaign, contacts: seq<Contact>,
                                                  outcomes: seq<Delivery>, status: CampaignStatus)
    requires |outcomes| == |contacts|
    ensures Deliveries(id, c.(status := status), contacts, outcomes) == Deliveries(id, c, contacts, outcomes)
    decreases |contacts|
  {
    if contacts != [] {
      var n := |contacts| - 1;
      DeliveriesIgnoreStatus(id, c, contacts[..n], outcomes[..n], status);
    }
  }

  /** Writing the trace to the table leaves the campaign "sent" at the
    * finishing time, however many deliveries failed, and no other campaign
    * changes. */
  function ApplyUpdates(table: map<string, Campaign>, effects: seq<Effect>): map<string, Campaign>
    decreases |effects|
  {
    if effects == [] then table
    else
      var before := ApplyUpdates(table, effects[..|effects| - 1]);
      match effects[|effects| - 1]
      case UpdateCampaign(id, p) => UpdateById(before, id, p)
      case _ => before
  }

  lemma {:induction false} ApplyUpdatesAppend(table: map<string, Campaign>, a: seq<Effect>, b: seq<Effect>)
    ensures ApplyUpdates(table, a + b) == ApplyUpdates(ApplyUpdates(table, a), b)
    decreases |b|
  {
    if b != [] {
      assert (a + b)[..|a + b| - 1] == a + b[..|b| - 1];
      ApplyUpdatesAppend(table, a, b[..|b| - 1]);
    } else {
      assert a + b == a;
    }
  }

  lemma {:induction false} ApplyUpdatesNone(table: map<string, Campaign>, effects: seq<Effect>)
    requires forall k :: 0 <= k < |effects| ==> !effects[k].UpdateCampaign?
    ensures ApplyUpdates(table, effects) == table
    decreases |effects|
  {
    if effects != [] {
      ApplyUpdatesNone(table, effects[..|effects| - 1]);
    }
  }

  lemma {:induction false} CampaignEndsSent(id: string, campaigns: map<string, Campaign>, contacts: seq<Contact>,
                                            outcomes: seq<Delivery>, finishedAt: Millis)
    requires id != "" && id in campaigns && contacts != [] && |outcomes| == |contacts|
    ensures var (effects, _) := Handle(Post(Some(id)), campaigns, Some(contacts), outcomes, finishedAt);
            var after := ApplyUpdates(campaigns, effects);
            after.Keys == campaigns.Keys &&
            after[id].status == Sent && after[id].sentAt == Some(finishedAt) &&
            after[id].scheduledAt == campaigns[id].scheduledAt &&
            forall k :: k in campaigns && k != id ==> after[k] == campaigns[k]
  {
    var d := Deliveries(id, campaigns[id], contacts, outcomes);
    var first := [UpdateCampaign(id, SendingPatch)];
    var final := [UpdateCampaign(id, SentPatch(finishedAt))];
    DeliveriesNoUpdates(id, campaigns[id], contacts, outcomes);
    ApplyUpdatesAppend(campaigns, first, d);
    ApplyUpdatesAppend(campaigns, first + d, final);
    ApplyUpdatesNone(ApplyUpdates(campaigns, first), d);
    assert ApplyUpdates(campaigns, first) == UpdateById(campaigns, id, SendingPatch) by {
      assert first[..0] == [];
    }
    var mid := UpdateById(campaigns, id, SendingPatch);
    assert ApplyUpdates(mid, final) == UpdateById(mid, id, SentPatch(finishedAt)) by {
      assert final[..0] == [];
    }
  }

  // ---------------------------------------------------------------------
  // Personalization

  /** A name that cannot rebuild the placeholder, and holds no `$`
    * pattern, leaves none behind. */
  lemma PersonalizedHasNoToken(html: string, name: string)
    requires name != [] && '{' !in name && name[0] !in NameToken && '$' !in name
    ensures !Contains(Personalize(html, Some(name)), NameToken)
  {
    ReplaceAllJsLiteral(html, NameToken, name);
    ReplaceAllRemoves(html, NameToken, name);
  }

  /** A contact named `$&` gets the placeholder itself back: the pattern
    * expands to the matched text, so the email still reads `{{nome}}`. */
  lemma DollarNameKeepsToken()
    ensures Personalize(NameToken, Some("$&")) == NameToken
    ensures Contains(Personalize(NameToken, Some("$&")), NameToken)
  {
    assert NameToken[0..|NameToken|] == NameToken;
    assert Expand("$&", NameToken, [], []) == NameToken by {
      assert "$&"[2..] == [];
    }
    assert NameToken[..|NameToken|] == NameToken;
  }

  /** A contact named `$$` receives a single dollar sign. */
  lemma DoubleDollarNameHalves()
    ensures Personalize(NameToken, Some("$$")) == "$"
  {
    assert NameToken[0..|NameToken|] == NameToken;
    assert Expand("$$", NameToken, [], []) == "$" by {
      assert "$$"[2..] == [];
    }
  }

  /** HTML without the placeholder goes out unchanged. */
  lemma UnpersonalizedIsUnchanged(html: string, name: Option<string>)
    requires !Contains(html, NameToken)
    ensures Personalize(html, name) == html
  {
    ReplaceAllJsAbsent(html, NameToken, OrEmpty(name));
  }
}
