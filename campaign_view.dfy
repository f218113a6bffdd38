// The admin page of one campaign: send now, send a test, schedule, cancel a
// schedule, and what the page shows for each status. Each handler is one
// method; the answer of the backend to its request is a parameter, and the
// requests the page makes are recorded in order.

module CampaignView {

  import opened Strings
  import opened Campaigns
  import ScheduledPoller

  const DayMs := 86_400_000
  const HourMs := 3_600_000
  const MinuteMs := 60_000

  /** The requests the page makes: to the backend, and to the router. */
  datatype PageRequest =
    | InvokeSendCampaign(campaignId: string)
    | InvokeSendTest(campaignId: string, testEmail: string)
    | WriteCampaign(campaignId: string, patch: CampaignPatch)
    | FetchCampaign
    | FetchLogs
    | Navigate(path: string)

  datatype Toast = Toast(title: string, destructive: bool)

  // ---------------------------------------------------------------------
  // Scheduling

  /** The hour choices "00" .. "23". */
  function HourOptions(): (r: seq<string>)
    ensures |r| == 24
    ensures forall i :: 0 <= i < 24 ==> r[i] == Pad2(i)
  {
    seq(24, i requires 0 <= i < 24 => Pad2(i))
  }

  const MinuteOptions: seq<string> := ["00", "15", "30", "45"]

  /** Every hour the select offers reads back as its number. */
  lemma HourOptionParses(i: nat)
    requires i < 24
    ensures ParseInt(HourOptions()[i]) == Some(i)
  {
    ParsePad2(i);
  }

  /** Every minute the select offers reads back as its number. */
  lemma MinuteOptionParses(j: nat)
    requires j < 4
    ensures ParseInt(MinuteOptions[j]) == Some(15 * j)
  {
    var n := 15 * j;
    assert MinuteOptions[j] == Pad2(n) by {
      assert DigitChar(0) == '0' && DigitChar(1) == '1' && DigitChar(3) == '3';
      assert DigitChar(4) == '4' && DigitChar(5) == '5';
    }
    ParsePad2(n);
  }

  /** The chosen calendar day (a day number) at the chosen hour and minute,
    * seconds and milliseconds zero; an unreadable hour or minute gives an
    * invalid date. */
  function ScheduleInstant(day: int, hour: string, minute: string): Option<Millis> {
    match (ParseInt(hour), ParseInt(minute))
    case (Some(h), Some(m)) => Some(Moment(day, h, m))
    case _ => None
  }

  /** The millisecond clock at minute `m` of hour `h` of day `day`. */
  function Moment(day: int, h: int, m: int): Millis {
    day * DayMs + h * HourMs + m * MinuteMs
  }

  datatype ScheduleCheck = MissingDate | InvalidTime | NotInFuture | Accept(at: Millis)

  /** What the schedule button decides before writing anything. */
  function CheckSchedule(date: Option<int>, hour: string, minute: string, now: Millis): (r: ScheduleCheck)
    ensures r.Accept? <==>
              date.Some? && ScheduleInstant(date.value, hour, minute).Some? &&
              ScheduleInstant(date.value, hour, minute).value > now
    ensures r.Accept? ==> r.at > now && r.at % MinuteMs == 0
  {
    if date.None? then MissingDate
    else match ScheduleInstant(date.value, hour, minute)
      case None => InvalidTime
      case Some(at) =>
        assert at == (date.value * 1440 + ParseInt(hour).value * 60 + ParseInt(minute).value) * MinuteMs;
        if at <= now then NotInFuture else Accept(at)
  }

  /** Any hour and minute offered, on a day, is accepted exactly when that
    * moment is in the future, and then it is that moment. */
  lemma ScheduleFromOptions(day: int, i: nat, j: nat, now: Millis)
    requires i < 24 && j < 4
    ensures var r := CheckSchedule(Some(day), HourOptions()[i], MinuteOptions[j], now);
            var at := day * DayMs + i * HourMs + 15 * j * MinuteMs;
            (at > now ==> r == Accept(at)) && (at <= now ==> r == NotInFuture)
  {
    HourOptionParses(i);
    MinuteOptionParses(j);
    var hour, minute := HourOptions()[i], MinuteOptions[j];
    InstantOfReadTime(day, hour, minute, i, 15 * j);
    CheckInstant(day, hour, minute, Moment(day, i, 15 * j), now);
  }

  /** A readable hour and minute name that moment of the day. */
  lemma InstantOfReadTime(day: int, hour: string, minute: string, h: int, m: int)
    requires ParseInt(hour) == Some(h) && ParseInt(minute) == Some(m)
    ensures ScheduleInstant(day, hour, minute) == Some(Moment(day, h, m))
  {
  }

  /** A readable moment is accepted exactly when it is in the future. */
  lemma CheckInstant(day: int, hour: string, minute: string, at: Millis, now: Millis)
    requires ScheduleInstant(day, hour, minute) == Some(at)
    ensures CheckSchedule(Some(day), hour, minute, now) == if at > now then Accept(at) else NotInFuture
  {
  }

  // ---------------------------------------------------------------------
  // What the page shows

  datatype Badge = BadgeSent | BadgeScheduled(at: Option<Millis>) | BadgeSending | BadgeDraft

  /** The status badge; every status it does not know reads as a draft. */
  function StatusBadge(c: Option<Campaign>): (b: Option<Badge>)
    ensures c.None? <==> b.None?
    ensures c.Some? && c.value.status == Sent ==> b == Some(BadgeSent)
    ensures c.Some? && c.value.status == Scheduled ==> b == Some(BadgeScheduled(c.value.scheduledAt))
    ensures c.Some? && c.value.status == Sending ==> b == Some(BadgeSending)
    ensures c.Some? && (c.value.status == Draft || c.value.status.Other?) ==> b == Some(BadgeDraft)
  {
    match c
    case None => None
    case Some(x) =>
      Some(match x.status
        case Sent => BadgeSent
        case Scheduled => BadgeScheduled(x.scheduledAt)
        case Sending => BadgeSending
        case _ => BadgeDraft)
  }

  function BadgeLabel(b: Badge): string {
    match b
    case BadgeSent => "Enviada"
    case BadgeScheduled(_) => "Agendada para"
    case BadgeSending => "Enviando..."
    case BadgeDraft => "Rascunho"
  }

  datatype LogIcon = CheckIcon | CrossIcon | ClockIcon

  /** The icon of a delivery log row, from its raw status text. */
  function StatusIcon(status: string): (i: LogIcon)
    ensures i == CheckIcon <==> status == "sent"
    ensures i == CrossIcon <==> status == "failed"
  {
    if status == "sent" then CheckIcon else if status == "failed" then CrossIcon else ClockIcon
  }

  /** The "cancel schedule" button is offered for scheduled campaigns only. */
  predicate OffersCancel(s: CampaignStatus) {
    s == Scheduled
  }

  /** "Schedule" and "send now" are offered for drafts only. */
  predicate OffersSendAndSchedule(s: CampaignStatus) {
    s == Draft
  }

  /** A campaign that is sent, being sent, or of an unknown status offers
    * none of the three actions; no status offers both kinds. */
  lemma ActionsByStatus(s: CampaignStatus)
    ensures !(OffersCancel(s) && OffersSendAndSchedule(s))
    ensures (s == Sent || s == Sending || s.Other?) ==> !OffersCancel(s) && !OffersSendAndSchedule(s)
  {
  }

  /** The schedule button is disabled while a write is pending or without a day. */
  predicate ScheduleButtonEnabled(isScheduling: bool, date: Option<int>) {
    !isScheduling && date.Some?
  }

  /** The preview fills the placeholder with a sample name. */
  function Preview(html: string): (r: string)
    ensures !Contains(r, "{{nome}}")
    ensures !Contains(html, "{{nome}}") ==> r == html
  {
    ReplaceAllJsLiteral(html, "{{nome}}", "Maria");
    ReplaceAllRemoves(html, "{{nome}}", "Maria");
    assert !Contains(html, "{{nome}}") ==> ReplaceAllJs(html, "{{nome}}", "Maria") == html by {
      if !Contains(html, "{{nome}}") {
        ReplaceAllJsAbsent(html, "{{nome}}", "Maria");
      }
    }
    ReplaceAllJs(html, "{{nome}}", "Maria")
  }

  /** A template with one `{{nome}}`, and no brace before it, is previewed
    * with "Maria" in its place. */
  lemma PreviewFillsToken(a: string, b: string)
    requires '{' !in a && !Contains(b, "{{nome}}")
    ensures Preview(a + "{{nome}}" + b) == a + "Maria" + b
  {
    ReplaceAllJsLiteral(a + "{{nome}}" + b, "{{nome}}", "Maria");
    ReplaceAllInserts(a, "{{nome}}", b, "Maria");
    ReplaceAllAbsent(b, "{{nome}}", "Maria");
  }

  /** "Oi {{nome}}!" is previewed as "Oi Maria!". */
  lemma PreviewGreeting()
    ensures Preview("Oi {{nome}}!") == "Oi Maria!"
  {
    var a, b := "Oi ", "!";
    NoLongContains(b, "{{nome}}");
    PreviewFillsToken(a, b);
    assert a + "{{nome}}" + b == "Oi {{nome}}!";
    assert a + "Maria" + b == "Oi Maria!";
  }

  // ---------------------------------------------------------------------
  // The page's state and handlers

  class CampaignPage {
    const id: string
    var campaign: Option<Campaign>
    var testEmail: string
    var testDialogOpen: bool
    var isSendingTest: bool
    var scheduleDialogOpen: bool
    var scheduleDate: Option<int>
    var scheduleHour: string
    var scheduleMinute: string
    var isScheduling: bool
    var isSending: bool
    var requests: seq<PageRequest>

    constructor (id: string)
      ensures this.id == id && campaign.None?
      ensures testEmail == "" && !testDialogOpen && !isSendingTest
      ensures !scheduleDialogOpen && scheduleDate.None? && scheduleHour == "09" && scheduleMinute == "00"
      ensures !isScheduling && !isSending
      ensures requests == [FetchCampaign, FetchLogs]
    {
      this.id := id;
      campaign := None;
      testEmail := "";
      testDialogOpen := false;
      isSendingTest := false;
      scheduleDialogOpen := false;
      scheduleDate := None;
      scheduleHour := "09";
      scheduleMinute := "00";
      isScheduling := false;
      isSending := false;
      requests := [FetchCampaign, FetchLogs];
    }

    /** "Send now": after the confirmation, invoke the dispatcher; on success
      * reload the campaign and its logs. */
    method HandleSend(confirmed: bool, invokeOk: bool) returns (toast: Option<Toast>)
      modifies this
      ensures !confirmed ==> toast.None? && requests == old(requests)
      ensures confirmed && invokeOk ==>
                toast == Some(Toast("Campanha enviada!", false)) &&
                requests == old(requests) + [InvokeSendCampaign(id), FetchCampaign, FetchLogs]
      ensures confirmed && !invokeOk ==>
                toast == Some(Toast("Erro ao enviar", true)) &&
                requests == old(requests) + [InvokeSendCampaign(id)]
      ensures !confirmed ==> isSending == old(isSending)
      ensures confirmed ==> !isSending
      ensures campaign == old(campaign) && testEmail == old(testEmail) && testDialogOpen == old(testDialogOpen)
      ensures scheduleDialogOpen == old(scheduleDialogOpen) && scheduleDate == old(scheduleDate)
      ensures isScheduling == old(isScheduling) && isSendingTest == old(isSendingTest)
      ensures scheduleHour == old(scheduleHour) && scheduleMinute == old(scheduleMinute)
    {
      if !confirmed {
        return None;
      }
      isSending := true;
      requests := requests + [InvokeSendCampaign(id)];
      if invokeOk {
        toast := Some(Toast("Campanha enviada!", false));
        requests := requests + [FetchCampaign, FetchLogs];
      } else {
        toast := Some(Toast("Erro ao enviar", true));
      }
      isSending := false;
    }

    /** "Send test": an empty address is refused before any request; a
      * success closes the dialog and clears the address. */
    method HandleSendTest(invokeOk: bool) returns (toast: Toast)
      modifies this
      ensures testEmail == "" <==> (old(testEmail) == "" || invokeOk)
      ensures old(testEmail) == "" ==>
                toast == Toast("Email obrigatório", true) && requests == old(requests) &&
                testDialogOpen == old(testDialogOpen)
      ensures old(testEmail) != "" ==> requests == old(requests) + [InvokeSendTest(id, old(testEmail))]
      ensures old(testEmail) != "" && invokeOk ==>
                toast == Toast("Email de teste enviado!", false) && !testDialogOpen
      ensures old(testEmail) != "" && !invokeOk ==>
                toast == Toast("Erro ao enviar teste", true) && testDialogOpen == old(testDialogOpen) &&
                testEmail == old(testEmail)
      ensures old(testEmail) == "" ==> isSendingTest == old(isSendingTest)
      ensures old(testEmail) != "" ==> !isSendingTest
      ensures campaign == old(campaign) && scheduleDialogOpen == old(scheduleDialogOpen)
      ensures scheduleDate == old(scheduleDate) && isScheduling == old(isScheduling) && isSending == old(isSending)
      ensures scheduleHour == old(scheduleHour) && scheduleMinute == old(scheduleMinute)
    {
      if testEmail == "" {
        return Toast("Email obrigatório", true);
      }
      isSendingTest := true;
      requests := requests + [InvokeSendTest(id, testEmail)];
      if invokeOk {
        toast := Toast("Email de teste enviado!", false);
        testDialogOpen := false;
        testEmail := "";
      } else {
        toast := Toast("Erro ao enviar teste", true);
      }
      isSendingTest := false;
    }

    /** "Schedule": the checks of `CheckSchedule`, then one write of the
      * status and the instant; a success closes the dialog and reloads. */
    method HandleSchedule(now: Millis, writeOk: bool) returns (toast: Toast)
      modifies this`isScheduling, this`requests, this`scheduleDialogOpen
      ensures var check := CheckSchedule(old(scheduleDate), old(scheduleHour), old(scheduleMinute), now);
              (check == MissingDate ==> toast == Toast("Data obrigatória", true) && requests == old(requests)) &&
              (check == NotInFuture ==> toast == Toast("Data inválida", true) && requests == old(requests)) &&
              (check == InvalidTime ==> toast == Toast("Erro ao agendar", true) && requests == old(requests)) &&
              (check.Accept? && writeOk ==>
                 toast == Toast("Campanha agendada!", false) && !scheduleDialogOpen &&
                 requests == old(requests) + [WriteCampaign(id, SchedulePatch(check.at)), FetchCampaign]) &&
              (check.Accept? && !writeOk ==>
                 toast == Toast("Erro ao agendar", true) && scheduleDialogOpen == old(scheduleDialogOpen) &&
                 requests == old(requests) + [WriteCampaign(id, SchedulePatch(check.at))]) &&
              (!check.Accept? ==> scheduleDialogOpen == old(scheduleDialogOpen))
      ensures !isScheduling
    {
      var check := CheckSchedule(scheduleDate, scheduleHour, scheduleMinute, now);
      match check
      case MissingDate =>
        isScheduling := false;
        return Toast("Data obrigatória", true);
      case NotInFuture =>
        isScheduling := false;
        return Toast("Data inválida", true);
      case InvalidTime =>
        // The invalid date passes the past check and fails when it is
        // converted for the write, inside the try block.
        isScheduling := true;
        toast := Toast("Erro ao agendar", true);
        isScheduling := false;
      case Accept(at) =>
        isScheduling := true;
        requests := requests + [WriteCampaign(id, SchedulePatch(at))];
        if writeOk {
          toast := Toast("Campanha agendada!", false);
          scheduleDialogOpen := false;
          requests := requests + [FetchCampaign];
        } else {
          toast := Toast("Erro ao agendar", true);
        }
        isScheduling := false;
    }

    /** "Cancel schedule": after the confirmation, back to draft with no
      * schedule. */
    method HandleCancelSchedule(confirmed: bool, writeOk: bool) returns (toast: Option<Toast>)
      modifies this`requests
      ensures !confirmed ==> toast.None? && requests == old(requests)
      ensures confirmed && writeOk ==>
                toast == Some(Toast("Agendamento cancelado", false)) &&
                requests == old(requests) + [WriteCampaign(id, CancelPatch), FetchCampaign]
      ensures confirmed && !writeOk ==>
                toast == Some(Toast("Erro ao cancelar", true)) &&
                requests == old(requests) + [WriteCampaign(id, CancelPatch)]
    {
      if !confirmed {
        return None;
      }
      requests := requests + [WriteCampaign(id, CancelPatch)];
      if writeOk {
        toast := Some(Toast("Agendamento cancelado", false));
        requests := requests + [FetchCampaign];
      } else {
        toast := Some(Toast("Erro ao cancelar", true));
      }
    }

    /** The answer to a `FetchCampaign` request: the row, or `None` when
      * the query failed or found no row. A missing campaign is toasted and
      * the page goes back to the list. */
    method Loaded(answer: Option<Campaign>) returns (toast: Option<Toast>)
      modifies this`campaign, this`requests
      ensures answer.Some? ==> campaign == answer && toast.None? && requests == old(requests)
      ensures answer.None? ==>
                campaign == old(campaign) && toast == Some(Toast("Campanha não encontrada", true)) &&
                requests == old(requests) + [Navigate("/admin/campaigns")]
    {
      if answer.Some? {
        campaign := answer;
        return None;
      }
      toast := Some(Toast("Campanha não encontrada", true));
      requests := requests + [Navigate("/admin/campaigns")];
    }
  }

  /** A schedule accepted by the page, written to the table and then found by
    * the poller once its time has come, is handed to the dispatcher; before
    * its time it is not. */
  lemma ScheduledCampaignIsPickedUp(c: Campaign, date: Option<int>, hour: string, minute: string,
                                    now: Millis, later: Millis)
    requires CheckSchedule(date, hour, minute, now).Accept?
    ensures var at := CheckSchedule(date, hour, minute, now).at;
            var written := ApplyPatch(c, SchedulePatch(at));
            written.status == Scheduled && written.scheduledAt == Some(at) &&
            (ScheduledPoller.IsDue(written, later) <==> later >= at) &&
            !ScheduledPoller.IsDue(written, now)
  {
  }
}
