// A payment transaction and its status: created pending, then marked
// succeeded, failed or canceled. Statuses are the strings the table holds;
// `now` stands for the clock reading at the call.

module Transactions {
  import opened Common

  const Pending: string := "pending"
  const Succeeded: string := "succeeded"
  const Failed: string := "failed"
  const Canceled: string := "canceled"

  /** The four statuses the entity's methods write. */
  predicate KnownStatus(s: string)
  {
    s == Pending || s == Succeeded || s == Failed || s == Canceled
  }

  /** The persisted columns of a transaction, without its id. */
  datatype TxnRecord = TxnRecord(
    customerId: int,
    movieId: string,
    amount: real,
    currency: string,
    status: string,
    stripePaymentIntentId: Option<string>,
    stripeCustomerId: Option<string>,
    chargeId: Option<string>,
    errorMessage: Option<string>,
    createdAt: nat,
    paidAt: Option<nat>,
    failedAt: Option<nat>,
    canceledAt: Option<nat>)

  /** The columns of `Transaction.create`. */
  function Created(customerId: int, movieId: string, amount: real, currency: string, now: nat): (t: TxnRecord)
    ensures t.status == Pending && t.createdAt == now
    ensures t.customerId == customerId && t.movieId == movieId && t.amount == amount && t.currency == currency
    ensures t.stripePaymentIntentId.None? && t.stripeCustomerId.None? && t.chargeId.None? && t.errorMessage.None?
    ensures t.paidAt.None? && t.failedAt.None? && t.canceledAt.None?
  {
    TxnRecord(customerId, movieId, amount, currency, Pending, None, None, None, None, now, None, None, None)
  }

  /** The columns after `markAsSucceeded`: nothing changes on a transaction
    * that already succeeded; any other status, failed and canceled
    * included, becomes succeeded with the Stripe ids and the payment time. */
  function MarkedSucceeded(t: TxnRecord, paymentIntentId: Option<string>, stripeCustomerId: Option<string>,
                           chargeId: Option<string>, now: nat): (r: TxnRecord)
    ensures t.status == Succeeded ==> r == t
    ensures t.status != Succeeded ==>
      r.status == Succeeded && r.paidAt == Some(now)
      && r.stripePaymentIntentId == paymentIntentId && r.stripeCustomerId == stripeCustomerId && r.chargeId == chargeId
      && r.(status := t.status, paidAt := t.paidAt, stripePaymentIntentId := t.stripePaymentIntentId,
            stripeCustomerId := t.stripeCustomerId, chargeId := t.chargeId) == t
  {
    if t.status == Succeeded then t
    else t.(status := Succeeded, stripePaymentIntentId := paymentIntentId, stripeCustomerId := stripeCustomerId,
            chargeId := chargeId, paidAt := Some(now))
  }

  /** The columns after `markAsFailed`: unconditionally failed, with the
    * message and the failure time; the payment columns stay. */
  function MarkedFailed(t: TxnRecord, errorMessage: Option<string>, now: nat): (r: TxnRecord)
    ensures r.status == Failed && r.errorMessage == errorMessage && r.failedAt == Some(now)
    ensures r.(status := t.status, errorMessage := t.errorMessage, failedAt := t.failedAt) == t
  {
    t.(status := Failed, errorMessage := errorMessage, failedAt := Some(now))
  }

  /** The columns after `cancel`: only a pending transaction is canceled. */
  function AfterCancel(t: TxnRecord, now: nat): (r: TxnRecord)
    ensures t.status == Pending ==> r == t.(status := Canceled, canceledAt := Some(now))
    ensures t.status != Pending ==> r == t
  {
    if t.status == Pending then t.(status := Canceled, canceledAt := Some(now)) else t
  }

  /** The entity: its id is absent until the transaction table assigns one. */
  class Transaction {
    var id: Option<nat>
    var customerId: int
    var movieId: string
    var amount: real
    var currency: string
    var status: string
    var stripePaymentIntentId: Option<string>
    var stripeCustomerId: Option<string>
    var chargeId: Option<string>
    var errorMessage: Option<string>
    var createdAt: nat
    var paidAt: Option<nat>
    var failedAt: Option<nat>
    var canceledAt: Option<nat>

    function Record(): TxnRecord
      reads this
    {
      TxnRecord(customerId, movieId, amount, currency, status, stripePaymentIntentId, stripeCustomerId,
                chargeId, errorMessage, createdAt, paidAt, failedAt, canceledAt)
    }

    /** `Transaction.create`. */
    constructor Create(customerId: int, movieId: string, amount: real, currency: string, now: nat)
      ensures id.None? && Record() == Created(customerId, movieId, amount, currency, now)
    {
      this.id := None;
      this.customerId := customerId;
      this.movieId := movieId;
      this.amount := amount;
      this.currency := currency;
      this.status := Pending;
      this.stripePaymentIntentId := None;
      this.stripeCustomerId := None;
      this.chargeId := None;
      this.errorMessage := None;
      this.createdAt := now;
      this.paidAt := None;
      this.failedAt := None;
      this.canceledAt := None;
    }

    method MarkAsSucceeded(paymentIntentId: Option<string>, stripeCustomerId: Option<string>, chargeId: Option<string>, now: nat)
      modifies this
      ensures id == old(id)
      ensures Record() == MarkedSucceeded(old(Record()), paymentIntentId, stripeCustomerId, chargeId, now)
    {
      if status == Succeeded {
        return;
      }
      status := Succeeded;
      stripePaymentIntentId := paymentIntentId;
      this.stripeCustomerId := stripeCustomerId;
      this.chargeId := chargeId;
      paidAt := Some(now);
    }

    method MarkAsFailed(errorMessage: Option<string>, now: nat)
      modifies this
      ensures id == old(id)
      ensures Record() == MarkedFailed(old(Record()), errorMessage, now)
    {
      status := Failed;
      this.errorMessage := errorMessage;
      failedAt := Some(now);
    }

    method Cancel(now: nat)
      modifies this
      ensures id == old(id)
      ensures Record() == AfterCancel(old(Record()), now)
    {
      if status == Pending {
        status := Canceled;
        canceledAt := Some(now);
      }
    }
  }

  // ---------------------------------------------------------------------
  // The status machine

  /** One call of the entity's three methods, with its arguments. */
  datatype Step =
    | Succeed(paymentIntentId: Option<string>, stripeCustomerId: Option<string>, chargeId: Option<string>, at: nat)
    | Fail(message: Option<string>, at: nat)
    | Cancel(at: nat)

  function Apply(t: TxnRecord, s: Step): TxnRecord
  {
    match s
    case Succeed(p, c, ch, at) => MarkedSucceeded(t, p, c, ch, at)
    case Fail(m, at) => MarkedFailed(t, m, at)
    case Cancel(at) => AfterCancel(t, at)
  }

  function ApplyAll(t: TxnRecord, steps: seq<Step>): TxnRecord
    decreases |steps|
  {
    if steps == [] then t else ApplyAll(Apply(t, steps[0]), steps[1..])
  }

  /** Marking an already succeeded transaction again changes nothing. */
  lemma SucceededIsIdempotent(t: TxnRecord, p: Option<string>, c: Option<string>, ch: Option<string>, now: nat,
                              p2: Option<string>, c2: Option<string>, ch2: Option<string>, later: nat)
    ensures MarkedSucceeded(MarkedSucceeded(t, p, c, ch, now), p2, c2, ch2, later) == MarkedSucceeded(t, p, c, ch, now)
  {
  }

  /** Canceling is possible only from pending, and only once. */
  lemma CancelOnlyFromPending(t: TxnRecord, now: nat)
    ensures AfterCancel(t, now).status == Canceled <==> t.status == Pending || t.status == Canceled
    ensures AfterCancel(AfterCancel(t, now), now) == AfterCancel(t, now)
  {
  }

  /** Failure overrides success: a succeeded transaction can be marked
    * failed, and it then keeps its payment time and charge. */
  lemma FailureOverridesSuccess(t: TxnRecord, p: Option<string>, c: Option<string>, ch: Option<string>,
                                now: nat, message: Option<string>, later: nat)
    requires t.status != Succeeded
    ensures var f := MarkedFailed(MarkedSucceeded(t, p, c, ch, now), message, later);
      f.status == Failed && f.paidAt == Some(now) && f.chargeId == ch
  {
  }

  /** From creation, every sequence of calls leaves a known status and the
    * columns the transaction was created with. */
  lemma {:induction false} StepsKeepStatusKnown(t: TxnRecord, steps: seq<Step>)
    requires KnownStatus(t.status)
    ensures KnownStatus(ApplyAll(t, steps).status)
    ensures ApplyAll(t, steps).customerId == t.customerId && ApplyAll(t, steps).movieId == t.movieId
    ensures ApplyAll(t, steps).amount == t.amount && ApplyAll(t, steps).currency == t.currency
    ensures ApplyAll(t, steps).createdAt == t.createdAt
    decreases |steps|
  {
    if steps != [] {
      StepsKeepStatusKnown(Apply(t, steps[0]), steps[1..]);
    }
  }

  /** A canceled transaction was never paid: from a state without a payment
    * time, or a paid one that is succeeded or failed, no call sequence
    * reaches canceled with a payment time. */
  lemma {:induction false} CanceledNeverPaid(t: TxnRecord, steps: seq<Step>)
    requires t.paidAt.None? || t.status == Succeeded || t.status == Failed
    ensures ApplyAll(t, steps).status == Canceled ==> ApplyAll(t, steps).paidAt.None?
    decreases |steps|
  {
    if steps != [] {
      var next := Apply(t, steps[0]);
      assert next.paidAt.None? || next.status == Succeeded || next.status == Failed;
      CanceledNeverPaid(next, steps[1..]);
    }
  }

  /** Every created transaction starts in a state both lemmas apply to. */
  lemma CreatedStartsPending(customerId: int, movieId: string, amount: real, currency: string, now: nat, steps: seq<Step>)
    ensures KnownStatus(ApplyAll(Created(customerId, movieId, amount, currency, now), steps).status)
    ensures var t := ApplyAll(Created(customerId, movieId, amount, currency, now), steps);
      t.status == Canceled ==> t.paidAt.None?
  {
    StepsKeepStatusKnown(Created(customerId, movieId, amount, currency, now), steps);
    CanceledNeverPaid(Created(customerId, movieId, amount, currency, now), steps);
  }
}
