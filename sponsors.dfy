// The sponsors table: the contracted, received and receivable totals, and the
// payment-status change a row's selector sends.

module Sponsors {

  import opened Strings
  import opened FinanceTypes
  import opened Finance

  /** The sum of all contracted values, cancelled sponsors included. */
  function Contracted(ss: seq<Sponsor>): real
    decreases |ss|
  {
    if ss == [] then 0.0 else Contracted(ss[..|ss| - 1]) + ss[|ss| - 1].contractedValue
  }

  /** The sum of the contracted values of the sponsors with status `st`. */
  function WithStatus(ss: seq<Sponsor>, st: Status): real
    decreases |ss|
  {
    if ss == [] then 0.0
    else WithStatus(ss[..|ss| - 1], st) + (if ss[|ss| - 1].paymentStatus == st then ss[|ss| - 1].contractedValue else 0.0)
  }

  function TotalContracted(sponsors: Option<seq<Sponsor>>): real {
    Contracted(Rows(sponsors))
  }

  function TotalReceived(sponsors: Option<seq<Sponsor>>): real {
    WithStatus(Rows(sponsors), Recebido)
  }

  /** "A Receber". */
  function Receivable(sponsors: Option<seq<Sponsor>>): real {
    TotalContracted(sponsors) - TotalReceived(sponsors)
  }

  lemma {:induction false} ContractedByStatus(ss: seq<Sponsor>)
    ensures Contracted(ss) == WithStatus(ss, Previsto) + WithStatus(ss, Recebido) + WithStatus(ss, Pago) + WithStatus(ss, Cancelado)
    decreases |ss|
  {
    if ss != [] {
      ContractedByStatus(ss[..|ss| - 1]);
    }
  }

  /** The receivable is everything not yet received: the expected values,
    * and also the cancelled ones (and any marked paid). */
  lemma ReceivableCountsCancelled(sponsors: Option<seq<Sponsor>>)
    ensures var ss := Rows(sponsors);
            Receivable(sponsors) == WithStatus(ss, Previsto) + WithStatus(ss, Cancelado) + WithStatus(ss, Pago)
  {
    ContractedByStatus(Rows(sponsors));
  }

  predicate NonNegative(ss: seq<Sponsor>) {
    forall i :: 0 <= i < |ss| ==> ss[i].contractedValue >= 0.0
  }

  lemma {:induction false} WithStatusBounds(ss: seq<Sponsor>, st: Status)
    requires NonNegative(ss)
    ensures 0.0 <= WithStatus(ss, st) <= Contracted(ss)
    decreases |ss|
  {
    if ss != [] {
      WithStatusBounds(ss[..|ss| - 1], st);
    }
  }

  /** With non-negative values, nothing received exceeds what was
    * contracted, so the receivable is never negative. */
  lemma ReceivedWithinContracted(sponsors: Option<seq<Sponsor>>)
    requires NonNegative(Rows(sponsors))
    ensures 0.0 <= TotalReceived(sponsors) <= TotalContracted(sponsors)
    ensures Receivable(sponsors) >= 0.0
  {
    WithStatusBounds(Rows(sponsors), Recebido);
  }

  // ---------------------------------------------------------------------
  // Changing the status

  /** The statuses a row's selector offers. */
  const StatusOptions: seq<Status> := [Previsto, Recebido, Cancelado]

  /** The update sent: the sponsor's id and the new status, nothing else. */
  datatype StatusUpdate = StatusUpdate(id: string, paymentStatus: Status)

  function HandleStatusChange(sponsorId: string, newStatus: Status): (u: StatusUpdate)
    ensures u.id == sponsorId && u.paymentStatus == newStatus
  {
    StatusUpdate(sponsorId, newStatus)
  }

  /** The table once the update is stored: the sponsor with that id gets the
    * new status, all else stays. */
  function Apply(ss: seq<Sponsor>, u: StatusUpdate): (r: seq<Sponsor>)
    ensures |r| == |ss|
    ensures forall i :: 0 <= i < |ss| ==>
              r[i] == if ss[i].id == u.id then ss[i].(paymentStatus := u.paymentStatus) else ss[i]
  {
    seq(|ss|, i requires 0 <= i < |ss| => if ss[i].id == u.id then ss[i].(paymentStatus := u.paymentStatus) else ss[i])
  }

  lemma {:induction false} ContractedUnchanged(ss: seq<Sponsor>, u: StatusUpdate)
    ensures Contracted(Apply(ss, u)) == Contracted(ss)
    decreases |ss|
  {
    if ss != [] {
      var n := |ss| - 1;
      ContractedUnchanged(ss[..n], u);
      assert Apply(ss, u)[..n] == Apply(ss[..n], u);
    }
  }

  /** A status change never moves the contracted total; the selector never
    * offers "pago", so a sponsor is only ever expected, received or
    * cancelled through it. */
  lemma StatusChangeKeepsContracted(ss: seq<Sponsor>, id: string, st: Status)
    requires st in StatusOptions
    ensures Contracted(Apply(ss, HandleStatusChange(id, st))) == Contracted(ss)
    ensures st != Pago
  {
    ContractedUnchanged(ss, HandleStatusChange(id, st));
  }
}
