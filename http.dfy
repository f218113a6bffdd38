// What every edge function answers: a CORS preflight, or a status code with
// a JSON body. Headers are the same fixed CORS set everywhere and are not
// modelled.

module Http {

  import opened Strings

  datatype Reply<B> =
    | Preflight                      // `OPTIONS`: empty 200 answer
    | Reply(status: int, body: B)

  /** A body a caller can tell apart from the preflight answer. */
  predicate IsStatus<B>(r: Reply<B>, code: int) {
    r.Reply? && r.status == code
  }

  /** The message of a caught exception: its `message` when it is an
    * `Error`, otherwise "Unknown error". */
  function CaughtMessage(message: Option<string>): (r: string)
    ensures message.Some? ==> r == message.value
    ensures message.None? ==> r == "Unknown error"
  {
    match message
    case Some(m) => m
    case None => "Unknown error"
  }

  /** An email whose body is a fixed template greeting `firstName`; the
    * markup around the greeting is constant and not modelled. */
  datatype Greeting = Greeting(from: string, to: seq<string>, subject: string, firstName: string)

  /** How `resend.emails.send` came back: the SDK resolves with an error
    * object instead of throwing when the provider refuses, so only a thrown
    * exception (network, bad key format) is seen as a failure. */
  datatype SendResult = SdkResolved | SdkThrew(message: Option<string>)
}
