// The `send-workbook-welcome` edge function, in its deployed form and in the
// variant kept with the migration files: both greet the new participant by
// first name; they differ in the sender and in how errors are answered.

module WorkbookWelcome {

  import opened Strings
  import opened Http

  const Sender := "EMPODHERA <onboarding@resend.dev>"
  const MissingFields := "Email and name are required"

  /** A body that is not JSON makes `req.json()` throw with the parser's
    * message. */
  datatype Request = Options | Unparsable(message: string) | Post(email: Option<string>, name: Option<string>)

  /** `{ success: true, data }` or `{ success: false, error }`. */
  datatype Body = Welcomed | NotWelcomed(error: Option<string>)

  function Subject(firstName: string): string {
    "Bem-vinda ao Caderno de Atividades, " + firstName + "! ✨"
  }

  function WelcomeFor(email: string, name: string): (g: Greeting)
    ensures g.to == [email] && g.firstName == FirstWord(name) && g.subject == Subject(FirstWord(name))
  {
    Greeting(Sender, [email], Subject(FirstWord(name)), FirstWord(name))
  }

  /** Both fields must be truthy; the missing-field error is thrown and so
    * answered like any other failure, with 500. */
  function Handle(req: Request, send: SendResult): (out: (seq<Greeting>, Reply<Body>))
    ensures req.Options? ==> out == ([], Preflight)
    ensures req.Unparsable? ==> out == ([], Reply(500, NotWelcomed(Some(req.message))))
    ensures req.Post? && !(Truthy(req.email) && Truthy(req.name)) ==>
              out == ([], Reply(500, NotWelcomed(Some(MissingFields))))
    ensures req.Post? && Truthy(req.email) && Truthy(req.name) ==>
              out.0 == [WelcomeFor(req.email.value, req.name.value)] &&
              (send.SdkResolved? <==> out.1 == Reply(200, Welcomed)) &&
              (send.SdkThrew? ==> out.1 == Reply(500, NotWelcomed(send.message)))
  {
    match req
    case Options => ([], Preflight)
    case Unparsable(message) => ([], Reply(500, NotWelcomed(Some(message))))
    case Post(email, name) =>
      if !Truthy(email) || !Truthy(name) then ([], Reply(500, NotWelcomed(Some(MissingFields))))
      else
        var reply := match send
          case SdkResolved => Reply(200, Welcomed)
          case SdkThrew(message) => Reply(500, NotWelcomed(message));
        ([WelcomeFor(email.value, name.value)], reply)
  }

  /** The subject names the participant by the first word of the name. */
  lemma SubjectNamesParticipant(name: string)
    ensures Contains(Subject(FirstWord(name)), FirstWord(name))
    ensures StartsWith(name, FirstWord(name)) && ' ' !in FirstWord(name)
  {
    ContainsInfix("Bem-vinda ao Caderno de Atividades, ", FirstWord(name), "! ✨");
  }
}

module WorkbookWelcomeMigrated {

  import opened Strings
  import opened Http
  import WorkbookWelcome

  const Sender := "EMPODHERA <contato@empodhera.com>"
  const SendFailed := "Failed to send email"

  datatype Body =
    | Welcomed                                  // `{ success: true, data }`
    | Invalid(error: string)                    // 400
    | Failed(error: string, details: Option<string>)  // 500

  function WelcomeFor(email: string, name: string): (g: Greeting)
    ensures g.from == Sender && g.to == [email] && g.firstName == FirstWord(name)
  {
    Greeting(Sender, [email], WorkbookWelcome.Subject(FirstWord(name)), FirstWord(name))
  }

  /** Missing fields are answered 400 before any send; a thrown send, or a
    * body that is not JSON, is answered 500 with a fixed error and the
    * exception's message. */
  function Handle(req: WorkbookWelcome.Request, send: SendResult): (out: (seq<Greeting>, Reply<Body>))
    ensures req.Options? ==> out == ([], Preflight)
    ensures req.Unparsable? ==> out == ([], Reply(500, Failed(SendFailed, Some(req.message))))
    ensures req.Post? && !(Truthy(req.email) && Truthy(req.name)) ==>
              out == ([], Reply(400, Invalid(WorkbookWelcome.MissingFields)))
    ensures req.Post? && Truthy(req.email) && Truthy(req.name) ==>
              out.0 == [WelcomeFor(req.email.value, req.name.value)] &&
              (send.SdkResolved? <==> out.1 == Reply(200, Welcomed)) &&
              (send.SdkThrew? ==> out.1 == Reply(500, Failed(SendFailed, send.message)))
  {
    match req
    case Options => ([], Preflight)
    case Unparsable(message) => ([], Reply(500, Failed(SendFailed, Some(message))))
    case Post(email, name) =>
      if !Truthy(email) || !Truthy(name) then ([], Reply(400, Invalid(WorkbookWelcome.MissingFields)))
      else
        var reply := match send
          case SdkResolved => Reply(200, Welcomed)
          case SdkThrew(message) => Reply(500, Failed(SendFailed, message));
        ([WelcomeFor(email.value, name.value)], reply)
  }

  /** The two versions send the same greeting with the same subject to the
    * same address, from different senders, and agree on which requests
    * send nothing; only the status of a rejected request differs. */
  lemma VariantsAgree(req: WorkbookWelcome.Request, send: SendResult)
    ensures var (sent, reply) := Handle(req, send);
            var (sentOld, replyOld) := WorkbookWelcome.Handle(req, send);
            |sent| == |sentOld| &&
            (forall k :: 0 <= k < |sent| ==>
               sent[k].to == sentOld[k].to && sent[k].subject == sentOld[k].subject &&
               sent[k].firstName == sentOld[k].firstName && sent[k].from != sentOld[k].from) &&
            (req.Post? && sent == [] ==> IsStatus(reply, 400) && IsStatus(replyOld, 500)) &&
            (IsStatus(reply, 200) <==> IsStatus(replyOld, 200))
  {
  }
}
