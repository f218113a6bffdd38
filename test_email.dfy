// The `send-test-email` edge function: send one campaign to one address,
// with the placeholder filled by a fixed name and a marked subject.

module TestEmail {

  import opened Strings
  import opened Http
  import opened Campaigns
  import SendCampaign

  const TestName := "Teste"
  const SubjectPrefix := "[TESTE] "

  /** A body that is not JSON makes `req.json()` throw with the parser's
    * message. */
  datatype Request = Options | Unparsable(message: string) | Post(campaignId: Option<string>, testEmail: Option<string>)

  /** What the single provider request came to. */
  datatype ProviderAnswer = Accepted | Refused(text: string) | Raised(message: Option<string>)

  datatype Body = Confirmed(message: string) | Failure(error: string)

  datatype Effect = SendEmail(email: SendCampaign.Email)

  function TestEmailFor(c: Campaign, to: string): SendCampaign.Email {
    SendCampaign.Email(SendCampaign.Sender, [to], SubjectPrefix + c.subject,
                       ReplaceAllJs(c.htmlContent, SendCampaign.NameToken, TestName))
  }

  function Handle(req: Request, campaigns: map<string, Campaign>, answer: ProviderAnswer): (out: (seq<Effect>, Reply<Body>))
    ensures req.Options? ==> out == ([], Preflight)
    ensures req.Unparsable? ==> out == ([], Reply(500, Failure(req.message)))
    ensures req.Post? && !Truthy(req.campaignId) ==> out == ([], Reply(500, Failure("campaignId is required")))
    ensures req.Post? && Truthy(req.campaignId) && !Truthy(req.testEmail) ==>
              out == ([], Reply(500, Failure("testEmail is required")))
    ensures req.Post? && Truthy(req.campaignId) && Truthy(req.testEmail) && req.campaignId.value !in campaigns ==>
              out == ([], Reply(500, Failure("Campaign not found")))
    ensures req.Post? && Truthy(req.campaignId) && Truthy(req.testEmail) && req.campaignId.value in campaigns ==>
              out.0 == [SendEmail(TestEmailFor(campaigns[req.campaignId.value], req.testEmail.value))] &&
              (answer.Accepted? <==> out.1 == Reply(200, Confirmed("Test email sent to " + req.testEmail.value))) &&
              (answer.Refused? ==> out.1 == Reply(500, Failure("Failed to send test email: " + answer.text))) &&
              (answer.Raised? ==> out.1 == Reply(500, Failure(CaughtMessage(answer.message))))
  {
    if req.Options? then ([], Preflight)
    else if req.Unparsable? then ([], Reply(500, Failure(req.message)))
    else if !Truthy(req.campaignId) then ([], Reply(500, Failure("campaignId is required")))
    else if !Truthy(req.testEmail) then ([], Reply(500, Failure("testEmail is required")))
    else if req.campaignId.value !in campaigns then ([], Reply(500, Failure("Campaign not found")))
    else
      var email := TestEmailFor(campaigns[req.campaignId.value], req.testEmail.value);
      var reply := match answer
        case Accepted => Reply(200, Confirmed("Test email sent to " + req.testEmail.value))
        case Refused(text) => Reply(500, Failure("Failed to send test email: " + text))
        case Raised(message) => Reply(500, Failure(CaughtMessage(message)));
      ([SendEmail(email)], reply)
  }

  /** A test send goes to the given address only, never to a contact, and
    * the placeholder is always filled. */
  lemma TestSendIsFilled(c: Campaign, to: string)
    ensures var e := TestEmailFor(c, to);
            e.to == [to] && StartsWith(e.subject, SubjectPrefix) &&
            !Contains(e.html, SendCampaign.NameToken)
  {
    ReplaceAllJsLiteral(c.htmlContent, SendCampaign.NameToken, TestName);
    ReplaceAllRemoves(c.htmlContent, SendCampaign.NameToken, TestName);
  }

  /** A template with one `{{nome}}`, and no brace before it, is sent with
    * "Teste" in its place. */
  lemma TestEmailFillsToken(c: Campaign, to: string, a: string, b: string)
    requires c.htmlContent == a + SendCampaign.NameToken + b
    requires '{' !in a && !Contains(b, SendCampaign.NameToken)
    ensures TestEmailFor(c, to).html == a + TestName + b
  {
    ReplaceAllJsLiteral(c.htmlContent, SendCampaign.NameToken, TestName);
    ReplaceAllInserts(a, SendCampaign.NameToken, b, TestName);
    ReplaceAllAbsent(b, SendCampaign.NameToken, TestName);
  }

  /** "Oi {{nome}}!" is sent as "Oi Teste!". */
  lemma TestGreeting(c: Campaign, to: string)
    requires c.htmlContent == "Oi {{nome}}!"
    ensures TestEmailFor(c, to).html == "Oi Teste!"
  {
    var a, b := "Oi ", "!";
    assert c.htmlContent == a + SendCampaign.NameToken + b;
    NoLongContains(b, SendCampaign.NameToken);
    TestEmailFillsToken(c, to, a, b);
    assert a + TestName + b == "Oi Teste!";
  }

  /** A test send never changes the campaign or writes a log. */
  lemma TestSendWritesNothing(req: Request, campaigns: map<string, Campaign>, answer: ProviderAnswer)
    ensures var (effects, _) := Handle(req, campaigns, answer);
            |effects| <= 1 && forall k :: 0 <= k < |effects| ==> effects[k].SendEmail?
  {
  }
}
