// The `send-waiting-list-confirmation` edge function: record the person as a
// contact when the address is new, then send the confirmation email.

module WaitingConfirmation {

  import opened Strings
  import opened Http

  const Sender := "EMPODHERA <onboarding@resend.dev>"
  const Subject := "Você está na lista de espera do EMPODHERA! 🎉"
  const DoneMessage := "Confirmation email sent and contact added"

  /** What the runtime throws when the body has no `name` and the first
    * name is taken from it. */
  const NoNameMessage := "Cannot read properties of undefined (reading 'split')"

  /** A body that is not JSON carries the parser's message; in a JSON body
    * `name` may be missing. */
  datatype Request = Options | Unparsable(message: Option<string>) | Post(name: Option<string>, email: string)

  /** One row of the contacts table; `name` is nullable there. */
  datatype ContactRow = ContactRow(email: string, name: Option<string>)

  /** The contacts table, its rows in insertion order. */
  type ContactTable = seq<ContactRow>

  datatype Effect =
    | InsertContact(row: ContactRow)
    | SendEmail(mail: Greeting)

  datatype Body = Done(message: string) | Failure(error: Option<string>)

  /** The number of rows holding `email`. */
  function Matching(contacts: ContactTable, email: string): (n: nat)
    ensures n <= |contacts|
    ensures n == 0 <==> forall i :: 0 <= i < |contacts| ==> contacts[i].email != email
    decreases |contacts|
  {
    if contacts == [] then 0
    else
      var rest := Matching(contacts[1..], email);
      assert forall i :: 1 <= i < |contacts| ==> contacts[i] == contacts[1..][i - 1];
      (if contacts[0].email == email then 1 else 0) + rest
  }

  /** Whether `.maybeSingle()` hands back a row: the query must reach the
    * table, and exactly one row may match, since two or more are an error
    * and an error leaves `data` null. */
  predicate Known(contacts: ContactTable, email: string, reachable: bool) {
    reachable && Matching(contacts, email) == 1
  }

  function ConfirmationFor(name: string, email: string): (g: Greeting)
    ensures g.to == [email] && g.from == Sender && g.subject == Subject
    ensures g.firstName == FirstWord(name)
  {
    Greeting(Sender, [email], Subject, FirstWord(name))
  }

  /** The handler: the lookup (`reachable` is false when the query itself
    * fails), an insert for an address it did not find (whose failure is
    * only logged), then the first name and one send. The SDK resolves on
    * provider refusals, so only a thrown send, a missing name or a body
    * that is not JSON gives 500. */
  function Handle(req: Request, contacts: ContactTable, reachable: bool, insertOk: bool, send: SendResult)
    : (out: (seq<Effect>, ContactTable, Reply<Body>))
    ensures req.Options? ==> out == ([], contacts, Preflight)
    ensures req.Unparsable? ==> out == ([], contacts, Reply(500, Failure(req.message)))
    ensures req.Post? ==> |contacts| <= |out.1| <= |contacts| + 1 && out.1[..|contacts|] == contacts
    ensures req.Post? && req.name.None? ==>
              out.2 == Reply(500, Failure(Some(NoNameMessage))) &&
              forall i :: 0 <= i < |out.0| ==> out.0[i].InsertContact?
    ensures req.Post? && req.name.Some? ==>
              out.0 != [] && out.0[|out.0| - 1] == SendEmail(ConfirmationFor(req.name.value, req.email)) &&
              (out.2 == Reply(200, Done(DoneMessage)) <==> send.SdkResolved?)
  {
    match req
    case Options => ([], contacts, Preflight)
    case Unparsable(message) => ([], contacts, Reply(500, Failure(message)))
    case Post(name, email) =>
      var row := ContactRow(email, name);
      var known := Known(contacts, email, reachable);
      var inserts := if known then [] else [InsertContact(row)];
      var table := if !known && insertOk then contacts + [row] else contacts;
      assert table[..|contacts|] == contacts;
      if name.None? then (inserts, table, Reply(500, Failure(Some(NoNameMessage))))
      else
        var effects := inserts + [SendEmail(ConfirmationFor(name.value, email))];
        var reply := match send
          case SdkResolved => Reply(200, Done(DoneMessage))
          case SdkThrew(message) => Reply(500, Failure(message));
        (effects, table, reply)
  }

  /** A contact row is inserted exactly when the lookup found none, and
    * kept when the insert succeeds; a row the lookup found leaves the table
    * as it was. */
  lemma InsertOnlyWhenAbsent(name: Option<string>, email: string, contacts: ContactTable, reachable: bool,
                             insertOk: bool, send: SendResult)
    ensures var (effects, table, _) := Handle(Post(name, email), contacts, reachable, insertOk, send);
            (Known(contacts, email, reachable) ==>
               table == contacts && forall i :: 0 <= i < |effects| ==> !effects[i].InsertContact?) &&
            (!Known(contacts, email, reachable) ==> effects[0] == InsertContact(ContactRow(email, name))) &&
            (!Known(contacts, email, reachable) && insertOk ==> table == contacts + [ContactRow(email, name)]) &&
            (!insertOk ==> table == contacts)
  {
  }

  /** With the table reachable, a registered address is not added again,
    * and a new address is. */
  lemma ReachableNoDuplicate(name: Option<string>, email: string, contacts: ContactTable, send: SendResult)
    requires Matching(contacts, email) <= 1
    ensures var (_, table, _) := Handle(Post(name, email), contacts, true, true, send);
            Matching(table, email) == 1
  {
    var row := ContactRow(email, name);
    if Matching(contacts, email) == 0 {
      MatchingAppend(contacts, row, email);
    }
  }

  /** A failed lookup treats a registered address as new: it gets a
    * second row. Two rows already there make every later lookup fail the
    * same way, so the address gains a row on each sign-up. */
  lemma LookupFailureDuplicates(name: Option<string>, email: string, contacts: ContactTable, reachable: bool,
                                send: SendResult)
    requires Matching(contacts, email) >= 1
    requires !reachable || Matching(contacts, email) >= 2
    ensures var (_, table, _) := Handle(Post(name, email), contacts, reachable, true, send);
            Matching(table, email) == Matching(contacts, email) + 1
  {
    MatchingAppend(contacts, ContactRow(email, name), email);
  }

  lemma {:induction false} MatchingAppend(contacts: ContactTable, row: ContactRow, email: string)
    ensures Matching(contacts + [row], email) == Matching(contacts, email) + (if row.email == email then 1 else 0)
    decreases |contacts|
  {
    if contacts != [] {
      assert (contacts + [row])[1..] == contacts[1..] + [row];
      MatchingAppend(contacts[1..], row, email);
    } else {
      assert ([] + [row])[1..] == [];
    }
  }

  /** The rows already there are never touched, and a row added holds the
    * given address and name. */
  lemma OtherContactsUnchanged(name: Option<string>, email: string, contacts: ContactTable, reachable: bool,
                               insertOk: bool, send: SendResult)
    ensures var (_, table, _) := Handle(Post(name, email), contacts, reachable, insertOk, send);
            table[..|contacts|] == contacts &&
            forall i :: |contacts| <= i < |table| ==> table[i] == ContactRow(email, name)
  {
  }

  /** A failed insert does not stop the confirmation, and the answer does
    * not depend on the insert or on whether the address was known. */
  lemma InsertFailureStillSends(name: string, email: string, contacts: ContactTable, reachable: bool, send: SendResult)
    ensures var (e1, _, r1) := Handle(Post(Some(name), email), contacts, reachable, false, send);
            var (e2, _, r2) := Handle(Post(Some(name), email), contacts, reachable, true, send);
            e1 == e2 && r1 == r2 && e1[|e1| - 1] == SendEmail(ConfirmationFor(name, email))
  {
  }

  /** A body without a name still inserts the new address, with a null
    * name, then fails before any email is sent. */
  lemma MissingNameInsertsThenFails(email: string, contacts: ContactTable, reachable: bool, insertOk: bool,
                                    send: SendResult)
    requires !Known(contacts, email, reachable)
    ensures var (effects, table, reply) := Handle(Post(None, email), contacts, reachable, insertOk, send);
            effects == [InsertContact(ContactRow(email, None))] &&
            (insertOk ==> table == contacts + [ContactRow(email, None)]) &&
            reply == Reply(500, Failure(Some(NoNameMessage)))
  {
  }

  /** The greeting uses the name up to its first space. */
  lemma GreetsFirstName(name: string, email: string)
    ensures var w := ConfirmationFor(name, email).firstName;
            ' ' !in w && StartsWith(name, w) && (w == name || name[|w|] == ' ')
  {
  }

  /** With a name, only a thrown send answers 500; the answer is 200
    * otherwise. */
  lemma StatusFollowsSend(req: Request, contacts: ContactTable, reachable: bool, insertOk: bool, send: SendResult)
    requires req.Post? && req.name.Some?
    ensures var (_, _, reply) := Handle(req, contacts, reachable, insertOk, send);
            (send.SdkResolved? <==> reply == Reply(200, Done(DoneMessage))) &&
            (send.SdkThrew? ==> reply == Reply(500, Failure(send.message)))
  {
  }
}
