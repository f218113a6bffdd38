// The admin list of campaigns: badge, date column, the send button and the
// removal of a deleted row.

module CampaignList {

  import opened Strings
  import opened Campaigns
  import Lists

  datatype ListBadge = ListSent | ListSending | ListDraft

  /** The list knows two statuses; everything else, "scheduled" included,
    * reads as a draft here. */
  function Badge(s: CampaignStatus): (b: ListBadge)
    ensures b == ListSent <==> s == Sent
    ensures b == ListSending <==> s == Sending
    ensures b == ListDraft <==> s != Sent && s != Sending
  {
    match s
    case Sent => ListSent
    case Sending => ListSending
    case _ => ListDraft
  }

  function BadgeLabel(b: ListBadge): string {
    match b
    case ListSent => "Enviada"
    case ListSending => "Enviando"
    case ListDraft => "Rascunho"
  }

  /** The date column: when it was sent, or else when it was created. */
  function DateShown(c: Campaign): (d: Millis)
    ensures c.sentAt.Some? ==> d == c.sentAt.value
    ensures c.sentAt.None? ==> d == c.createdAt
  {
    if c.sentAt.Some? then c.sentAt.value else c.createdAt
  }

  /** The send button is offered for drafts only. */
  predicate OffersSend(s: CampaignStatus) {
    s == Draft
  }

  function CampaignId(c: Campaign): string {
    c.id
  }

  datatype ListRequest = DeleteCampaign(id: string) | InvokeSendCampaign(id: string) | FetchCampaigns

  class CampaignListPage {
    var campaigns: seq<Campaign>
    var sendingId: Option<string>
    var requests: seq<ListRequest>

    constructor (loaded: seq<Campaign>)
      ensures campaigns == loaded && sendingId.None? && requests == []
    {
      campaigns := loaded;
      sendingId := None;
      requests := [];
    }

    /** After the confirmation, delete the row; only a successful delete
      * drops it from the list, and nothing else in the list changes. */
    method HandleDelete(id: string, confirmed: bool, deleteOk: bool) returns (deleted: bool)
      modifies this`campaigns, this`requests
      ensures deleted <==> confirmed && deleteOk
      ensures requests == old(requests) + (if confirmed then [DeleteCampaign(id)] else [])
      ensures campaigns == if deleted then Lists.RemoveKey(old(campaigns), CampaignId, id) else old(campaigns)
    {
      if !confirmed {
        return false;
      }
      requests := requests + [DeleteCampaign(id)];
      if deleteOk {
        campaigns := Lists.RemoveKey(campaigns, CampaignId, id);
        return true;
      }
      return false;
    }

    /** After the confirmation, invoke the dispatcher; reload on success. */
    method HandleSend(id: string, confirmed: bool, invokeOk: bool)
      modifies this`requests, this`sendingId
      ensures requests == old(requests) +
                (if !confirmed then [] else if invokeOk then [InvokeSendCampaign(id), FetchCampaigns] else [InvokeSendCampaign(id)])
      ensures sendingId == if confirmed then None else old(sendingId)
    {
      if !confirmed {
        return;
      }
      sendingId := Some(id);
      requests := requests + [InvokeSendCampaign(id)];
      if invokeOk {
        requests := requests + [FetchCampaigns];
      }
      sendingId := None;
    }
  }

  /** The list and the campaign page disagree on scheduled campaigns: the
    * list calls them drafts and shows no send button, the page shows them
    * as scheduled and offers to cancel. */
  lemma ScheduledReadsAsDraftHere()
    ensures Badge(Scheduled) == ListDraft && !OffersSend(Scheduled)
  {
  }
}
