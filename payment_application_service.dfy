// Creating a payment: the movie is checked with the movie service, then the
// customer with the customer service, then a pending transaction is saved
// and an event announcing it is sent to the message broker. The replies of
// the two remote services and of the broker are parameters; the calls the
// service makes are recorded in order, so the order is part of the state.

module PaymentApplicationServices {
  import opened Common
  import opened Transactions

  /** What a remote lookup gives back: an exception (with its message, which
    * may be null), a null reply, or a reply with or without its data. */
  datatype Reply =
    | Threw(message: Option<string>)
    | NoReply
    | Replied(hasData: bool)

  /** What sending to the broker gives: sent, or an exception. */
  datatype Send = Sent | SendFailed(message: Option<string>)

  datatype PaymentRequest = PaymentRequest(customerId: int, movieId: string, amount: real, currency: string)

  /** The answer: the saved transaction's id and three placeholder values. */
  datatype PaymentResponse = PaymentResponse(transactionId: nat, clientSecret: string, ephemeralKey: string, customerId: string)

  /** The event sent after the save. */
  datatype PaymentEvent = PaymentEvent(transactionId: nat, customerId: int, movieId: string, amount: real, currency: string)

  /** One interaction with a collaborator. */
  datatype Call =
    | GetMovie(movieId: string)
    | GetCustomer(customerId: int)
    | Save(txn: TxnRecord)
    | Publish(event: PaymentEvent)

  /** Java's string conversion of a possibly null message. */
  function MessageText(m: Option<string>): string
  {
    if m.Some? then m.value else "null"
  }

  function Response(id: nat): (r: PaymentResponse)
    ensures r.transactionId == id
  {
    PaymentResponse(id, "pi_xxx_secret_xxx", "ek_xxx", "cus_xxx")
  }

  /** The first step: `None` when the movie exists, otherwise the message
    * of the exception `createPayment` ends with. */
  function MovieFailure(req: PaymentRequest, reply: Reply): (r: Option<string>)
    ensures r.None? <==> reply == Replied(true)
    ensures r.Some? ==> StartsWith(r.value, "Could not validate movie: ")
  {
    var prefix := "Could not validate movie: ";
    match reply
    case Replied(true) => None
    case Threw(m) => Some(prefix + MessageText(m))
    case _ => Some(prefix + "Movie not found with ID: " + req.movieId)
  }

  /** The second step: `None` when the customer exists, otherwise the
    * message of the exception. */
  function CustomerFailure(req: PaymentRequest, reply: Reply): (r: Option<string>)
    ensures r.None? <==> reply == Replied(true)
    ensures r.Some? ==> StartsWith(r.value, "Could not validate customer: ")
  {
    var prefix := "Could not validate customer: ";
    match reply
    case Replied(true) => None
    case Threw(m) => Some(prefix + MessageText(m))
    case _ => Some(prefix + "Customer not found with ID: " + IntText(req.customerId))
  }

  /** The transaction `createPayment` saves. */
  function NewTransaction(req: PaymentRequest, now: nat): TxnRecord
  {
    Created(req.customerId, req.movieId, req.amount, req.currency, now)
  }

  function EventFor(id: nat, t: TxnRecord): (e: PaymentEvent)
    ensures e.transactionId == id && e.customerId == t.customerId && e.movieId == t.movieId
    ensures e.amount == t.amount && e.currency == t.currency
  {
    PaymentEvent(id, t.customerId, t.movieId, t.amount, t.currency)
  }

  /** The calls `createPayment` makes, in order, when the new row would get
    * the id `id`: each step runs only if the one before it succeeded. */
  function PaymentCalls(req: PaymentRequest, movie: Reply, customer: Reply, id: nat, now: nat): seq<Call>
  {
    if MovieFailure(req, movie).Some? then [GetMovie(req.movieId)]
    else if CustomerFailure(req, customer).Some? then [GetMovie(req.movieId), GetCustomer(req.customerId)]
    else
      var t := NewTransaction(req, now);
      [GetMovie(req.movieId), GetCustomer(req.customerId), Save(t), Publish(EventFor(id, t))]
  }

  /** The answer of `createPayment`: the first failing step's message, or
    * the response for the saved row. */
  function PaymentResult(req: PaymentRequest, movie: Reply, customer: Reply, send: Send, id: nat)
    : (r: Result<PaymentResponse, string>)
    ensures r.Ok? <==> movie == Replied(true) && customer == Replied(true) && send == Sent
    ensures r.Ok? ==> r.value.transactionId == id
  {
    if MovieFailure(req, movie).Some? then Err(MovieFailure(req, movie).value)
    else if CustomerFailure(req, customer).Some? then Err(CustomerFailure(req, customer).value)
    else if send.SendFailed? then Err(MessageText(send.message))
    else Ok(Response(id))
  }

  // ---------------------------------------------------------------------
  // The step order

  /** A movie that cannot be validated ends the call at once: only the
    * movie service was asked, and a missing movie is reported as such. */
  lemma MovieCheckedFirst(req: PaymentRequest, movie: Reply, customer: Reply, send: Send, id: nat, now: nat)
    requires movie != Replied(true)
    ensures PaymentCalls(req, movie, customer, id, now) == [GetMovie(req.movieId)]
    ensures PaymentResult(req, movie, customer, send, id).Err?
    ensures StartsWith(PaymentResult(req, movie, customer, send, id).error, "Could not validate movie: ")
    ensures !movie.Threw? ==> ContainsSub(PaymentResult(req, movie, customer, send, id).error, "Movie not found")
  {
    if !movie.Threw? {
      ContainsInfix("Could not validate movie: ", "Movie not found", " with ID: " + req.movieId);
      assert "Could not validate movie: " + "Movie not found with ID: " + req.movieId
          == "Could not validate movie: " + "Movie not found" + (" with ID: " + req.movieId);
    }
  }

  /** A customer that cannot be validated ends the call before anything is
    * saved or sent, and a missing customer is reported as such. */
  lemma CustomerCheckedBeforeSave(req: PaymentRequest, movie: Reply, customer: Reply, send: Send, id: nat, now: nat)
    requires movie == Replied(true) && customer != Replied(true)
    ensures PaymentCalls(req, movie, customer, id, now) == [GetMovie(req.movieId), GetCustomer(req.customerId)]
    ensures PaymentResult(req, movie, customer, send, id).Err?
    ensures StartsWith(PaymentResult(req, movie, customer, send, id).error, "Could not validate customer: ")
    ensures !customer.Threw? ==> ContainsSub(PaymentResult(req, movie, customer, send, id).error, "Customer not found")
  {
    if !customer.Threw? {
      var rest := " with ID: " + IntText(req.customerId);
      ContainsInfix("Could not validate customer: ", "Customer not found", rest);
      assert "Could not validate customer: " + "Customer not found with ID: " + IntText(req.customerId)
          == "Could not validate customer: " + "Customer not found" + rest;
    }
  }

  /** With both checks passed, exactly one pending transaction with the
    * request's values is saved, and the event sent after it carries the
    * saved id and the saved values. */
  lemma SaveThenPublish(req: PaymentRequest, customer: Reply, id: nat, now: nat)
    requires customer == Replied(true)
    ensures var calls := PaymentCalls(req, Replied(true), customer, id, now);
      |calls| == 4 && calls[2].Save? && calls[3].Publish?
      && calls[2].txn.status == Pending
      && calls[2].txn.customerId == req.customerId && calls[2].txn.movieId == req.movieId
      && calls[2].txn.amount == req.amount && calls[2].txn.currency == req.currency
      && calls[3].event == EventFor(id, calls[2].txn)
  {
  }

  /** The event is sent while the transaction it names is still pending:
    * it announces a payment that has not been taken. */
  lemma EventNamesPendingTransaction(req: PaymentRequest, id: nat, now: nat)
    ensures var calls := PaymentCalls(req, Replied(true), Replied(true), id, now);
      calls[3].Publish? && calls[3].event.transactionId == id && calls[2].txn.status == Pending
  {
  }

  // ---------------------------------------------------------------------
  // The transaction table and the service

  type Rows = map<nat, TxnRecord>

  /** `existsByCustomerIdAndMovieIdAndStatus(customerId, movieId, "succeeded")`. */
  predicate HasPurchased(rows: Rows, customerId: int, movieId: string)
  {
    exists k :: k in rows && rows[k].customerId == customerId && rows[k].movieId == movieId && rows[k].status == Succeeded
  }

  /** `getTransactionById`. */
  function GetTransactionById(rows: Rows, id: nat): (r: Result<TxnRecord, string>)
    ensures r.Ok? <==> id in rows
    ensures r.Ok? ==> r.value == rows[id]
    ensures r.Err? ==> r.error == "Transaction not found"
  {
    if id in rows then Ok(rows[id]) else Err("Transaction not found")
  }

  /** `getTransactionsByCustomer`: the ids of the customer's transactions. */
  function TransactionsOf(rows: Rows, customerId: int): (r: set<nat>)
    ensures forall k :: k in r <==> k in rows && rows[k].customerId == customerId
  {
    set k | k in rows && rows[k].customerId == customerId
  }

  /** A payment just created does not count as a purchase: only a
    * transaction marked succeeded does. */
  lemma CreatedPaymentIsNoPurchase(rows: Rows, id: nat, req: PaymentRequest, now: nat)
    requires !HasPurchased(rows, req.customerId, req.movieId)
    ensures !HasPurchased(rows[id := NewTransaction(req, now)], req.customerId, req.movieId)
  {
  }

  /** Marking a customer's transaction for a movie succeeded makes it a
    * purchase, whatever state it was in. */
  lemma SucceededIsPurchase(rows: Rows, id: nat, p: Option<string>, c: Option<string>, ch: Option<string>, now: nat)
    requires id in rows
    ensures var t := rows[id];
      HasPurchased(rows[id := MarkedSucceeded(t, p, c, ch, now)], t.customerId, t.movieId)
  {
    var t := MarkedSucceeded(rows[id], p, c, ch, now);
    assert t.status == Succeeded;
    assert id in rows[id := t];
  }

  class TransactionTable {
    var rows: Rows
    var nextId: nat

    predicate Valid()
      reads this
    {
      forall k :: k in rows ==> k < nextId
    }

    constructor ()
      ensures Valid() && rows == map[] && nextId == 0
    {
      rows := map[];
      nextId := 0;
    }
  }

  class PaymentApplicationService {
    const table: TransactionTable
    /** Every call made to the movie client, customer client, repository
      * and event producer, oldest first. */
    var calls: seq<Call>

    constructor (table: TransactionTable)
      ensures this.table == table && calls == []
    {
      this.table := table;
      calls := [];
    }

    /** `createPayment`. The method is transactional: a failed send rolls
      * the saved row back, though the identity value it drew stays used. */
    method CreatePayment(req: PaymentRequest, movie: Reply, customer: Reply, send: Send, now: nat)
      returns (r: Result<PaymentResponse, string>)
      requires table.Valid()
      modifies this, table
      ensures table.Valid()
      ensures r == PaymentResult(req, movie, customer, send, old(table.nextId))
      ensures calls == old(calls) + PaymentCalls(req, movie, customer, old(table.nextId), now)
      ensures r.Ok? ==> table.rows == old(table.rows)[old(table.nextId) := NewTransaction(req, now)]
      ensures r.Err? ==> table.rows == old(table.rows)
      ensures table.nextId == if movie == Replied(true) && customer == Replied(true)
                              then old(table.nextId) + 1 else old(table.nextId)
    {
      // 1. the movie
      calls := calls + [GetMovie(req.movieId)];
      var movieFailure := MovieFailure(req, movie);
      if movieFailure.Some? {
        return Err(movieFailure.value);
      }
      // 2. the customer
      calls := calls + [GetCustomer(req.customerId)];
      var customerFailure := CustomerFailure(req, customer);
      if customerFailure.Some? {
        return Err(customerFailure.value);
      }
      // 3. and 4. create and save
      var txn := new Transaction.Create(req.customerId, req.movieId, req.amount, req.currency, now);
      var record := txn.Record();
      var before := table.rows;
      calls := calls + [Save(record)];
      var id := table.nextId;
      table.rows := table.rows[id := record];
      table.nextId := id + 1;
      txn.id := Some(id);
      // 5. the response and 6. the event
      var response := Response(id);
      calls := calls + [Publish(EventFor(id, record))];
      if send.SendFailed? {
        table.rows := before;
        return Err(MessageText(send.message));
      }
      r := Ok(response);
    }
  }
}
