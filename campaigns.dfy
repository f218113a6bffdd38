// The `campaigns` table and the writes made to it by the admin pages and the
// edge functions. Timestamps are milliseconds since the epoch.

module Campaigns {

  import opened Strings

  type Millis = int

  /** The `status` column is free text; the application writes four values
    * and treats every other value as a draft-like "anything else". */
  datatype CampaignStatus = Draft | Scheduled | Sending | Sent | Other(raw: string)

  function StatusName(s: CampaignStatus): string {
    match s
    case Draft => "draft"
    case Scheduled => "scheduled"
    case Sending => "sending"
    case Sent => "sent"
    case Other(raw) => raw
  }

  function ParseStatus(raw: string): (s: CampaignStatus)
    ensures s.Other? <==> raw !in {"draft", "scheduled", "sending", "sent"}
  {
    if raw == "draft" then Draft
    else if raw == "scheduled" then Scheduled
    else if raw == "sending" then Sending
    else if raw == "sent" then Sent
    else Other(raw)
  }

  /** A status value read from the column is written back unchanged. */
  lemma StatusRoundTrip(raw: string)
    ensures StatusName(ParseStatus(raw)) == raw
  {
  }

  /** A well-formed status survives a write and a read. */
  predicate WellFormedStatus(s: CampaignStatus) {
    s.Other? ==> s.raw !in {"draft", "scheduled", "sending", "sent"}
  }

  lemma ParseStatusName(s: CampaignStatus)
    requires WellFormedStatus(s)
    ensures ParseStatus(StatusName(s)) == s
  {
  }

  datatype Campaign = Campaign(
    id: string,
    title: string,
    subject: string,
    htmlContent: string,
    status: CampaignStatus,
    scheduledAt: Option<Millis>,
    sentAt: Option<Millis>,
    createdAt: Millis)

  /** The columns an `update` sets: the status always, `sent_at` when given,
    * `scheduled_at` when given (possibly to null). */
  datatype CampaignPatch = CampaignPatch(
    status: CampaignStatus,
    sentAt: Option<Millis>,
    scheduledAt: Option<Option<Millis>>)

  function ApplyPatch(c: Campaign, p: CampaignPatch): (r: Campaign)
    ensures r.status == p.status
    ensures r.sentAt == (if p.sentAt.Some? then p.sentAt else c.sentAt)
    ensures r.scheduledAt == (if p.scheduledAt.Some? then p.scheduledAt.value else c.scheduledAt)
    ensures r.id == c.id && r.title == c.title && r.subject == c.subject
    ensures r.htmlContent == c.htmlContent && r.createdAt == c.createdAt
  {
    c.(status := p.status,
       sentAt := if p.sentAt.Some? then p.sentAt else c.sentAt,
       scheduledAt := if p.scheduledAt.Some? then p.scheduledAt.value else c.scheduledAt)
  }

  /** `update(...).eq("id", id)`: an id that matches no row changes nothing. */
  function UpdateById(table: map<string, Campaign>, id: string, p: CampaignPatch): (r: map<string, Campaign>)
    ensures r.Keys == table.Keys
    ensures forall k :: k in table && k != id ==> r[k] == table[k]
    ensures id in table ==> r[id] == ApplyPatch(table[id], p)
  {
    if id in table then table[id := ApplyPatch(table[id], p)] else table
  }

  // The patches the application sends.

  /** The dispatcher, before delivering. */
  const SendingPatch := CampaignPatch(Sending, None, None)

  /** The dispatcher, after delivering. */
  function SentPatch(at: Millis): CampaignPatch {
    CampaignPatch(Sent, Some(at), None)
  }

  /** The campaign page, scheduling. */
  function SchedulePatch(at: Millis): CampaignPatch {
    CampaignPatch(Scheduled, None, Some(Some(at)))
  }

  /** The campaign page, cancelling a schedule. */
  const CancelPatch := CampaignPatch(Draft, None, Some(None))

  /** Scheduling then cancelling leaves a draft with no schedule, whatever
    * the campaign was before. */
  lemma ScheduleThenCancel(c: Campaign, at: Millis)
    ensures var r := ApplyPatch(ApplyPatch(c, SchedulePatch(at)), CancelPatch);
            r.status == Draft && r.scheduledAt.None? && r.sentAt == c.sentAt
  {
  }
}
