// The customer service: customers with a unique email and an optional,
// also unique, Firebase uid; creation, lookups, profile updates that keep
// the email unique, deletion, and the Stripe id and subscription flags.

module CustomerServices {
  import opened Common

  /** A stored customer (table `customers`). */
  datatype Customer = Customer(
    firebaseUid: Option<string>,
    email: string,
    fullName: Option<string>,
    phoneNumber: Option<string>,
    avatarUrl: Option<string>,
    dateOfBirth: Option<string>,
    gender: Option<string>,
    isSubscribed: bool,
    stripeCustomerId: Option<string>,
    createdAt: nat,
    updatedAt: Option<nat>)

  /** The profile fields a client sends. */
  datatype CustomerRequest = CustomerRequest(
    firebaseUid: Option<string>,
    email: string,
    fullName: Option<string>,
    phoneNumber: Option<string>,
    avatarUrl: Option<string>,
    dateOfBirth: Option<string>,
    gender: Option<string>)

  datatype CustomerError =
    | NotFoundById(id: nat)                        // ResourceNotFoundException("Customer", "id", id)
    | NotFound(field: string, value: string)       // ResourceNotFoundException("Customer", field, value)
    | BadRequest(message: string)                  // BadRequestException
    | DataIntegrity(message: string)               // a unique constraint of the table

  function EmailTaken(email: string): string
  {
    "Customer with email '" + email + "' already exists"
  }

  const DuplicateFirebaseUid: string := "duplicate key value violates unique constraint on customers.firebase_uid"

  type Rows = map<nat, Customer>

  /** `existsByEmail`. */
  predicate ExistsByEmail(rows: Rows, email: string)
  {
    exists k :: k in rows && rows[k].email == email
  }

  /** Another row than `except` holds this email. */
  predicate EmailTakenBy(rows: Rows, email: string, except: nat)
  {
    exists k :: k in rows && k != except && rows[k].email == email
  }

  /** Another row than `except` holds this Firebase uid; a null uid is
    * never taken, since a unique column admits any number of nulls. */
  predicate UidTakenBy(rows: Rows, uid: Option<string>, except: Option<nat>)
  {
    uid.Some? && exists k :: k in rows && Some(k) != except && rows[k].firebaseUid == uid
  }

  /** The two unique constraints of the table. */
  predicate Unique(rows: Rows)
  {
    && (forall a, b :: a in rows && b in rows && rows[a].email == rows[b].email ==> a == b)
    && (forall a, b :: a in rows && b in rows && rows[a].firebaseUid.Some? && rows[a].firebaseUid == rows[b].firebaseUid ==> a == b)
  }

  /** Replacing or adding a row that clashes with no other row keeps both
    * constraints. */
  lemma PutKeepsUnique(rows: Rows, id: nat, c: Customer)
    requires Unique(rows)
    requires !EmailTakenBy(rows, c.email, id) && !UidTakenBy(rows, c.firebaseUid, Some(id))
    ensures Unique(rows[id := c])
  {
  }

  /** `new Customer()` and the setters of `createCustomer`: not subscribed,
    * no Stripe id, created now. */
  function Created(req: CustomerRequest, now: nat): (c: Customer)
    ensures c.firebaseUid == req.firebaseUid && c.email == req.email && c.fullName == req.fullName
    ensures c.phoneNumber == req.phoneNumber && c.avatarUrl == req.avatarUrl
    ensures c.dateOfBirth == req.dateOfBirth && c.gender == req.gender
    ensures !c.isSubscribed && c.stripeCustomerId.None? && c.createdAt == now && c.updatedAt.None?
  {
    Customer(req.firebaseUid, req.email, req.fullName, req.phoneNumber, req.avatarUrl,
             req.dateOfBirth, req.gender, false, None, now, None)
  }

  /** The setters of `updateCustomer`: the profile fields are replaced, the
    * Firebase uid, Stripe id, subscription and creation time are not. */
  function Edited(c: Customer, req: CustomerRequest): (r: Customer)
    ensures r.email == req.email && r.fullName == req.fullName && r.phoneNumber == req.phoneNumber
    ensures r.avatarUrl == req.avatarUrl && r.dateOfBirth == req.dateOfBirth && r.gender == req.gender
    ensures r.firebaseUid == c.firebaseUid && r.stripeCustomerId == c.stripeCustomerId
    ensures r.isSubscribed == c.isSubscribed && r.createdAt == c.createdAt && r.updatedAt == c.updatedAt
  {
    c.(email := req.email, fullName := req.fullName, phoneNumber := req.phoneNumber,
       avatarUrl := req.avatarUrl, dateOfBirth := req.dateOfBirth, gender := req.gender)
  }

  /** The row flushed for a loaded customer: `@PreUpdate` stamps the time
    * only when a setter actually changed something. */
  function Flushed(before: Customer, after: Customer, now: nat): (r: Customer)
    ensures after == before ==> r == before
    ensures after != before ==> r == after.(updatedAt := Some(now))
  {
    if after == before then before else after.(updatedAt := Some(now))
  }

  /** `createCustomer`: a taken email is refused before anything is stored;
    * a taken Firebase uid, which is not checked, fails at the constraint. */
  function CreateOutcome(rows: Rows, req: CustomerRequest, now: nat): (r: Result<Customer, CustomerError>)
    ensures r.Ok? <==> !ExistsByEmail(rows, req.email) && !UidTakenBy(rows, req.firebaseUid, None)
    ensures r.Ok? ==> r.value == Created(req, now)
    ensures ExistsByEmail(rows, req.email) ==> r == Err(BadRequest(EmailTaken(req.email)))
    ensures !ExistsByEmail(rows, req.email) && r.Err? ==> r == Err(DataIntegrity(DuplicateFirebaseUid))
  {
    if ExistsByEmail(rows, req.email) then Err(BadRequest(EmailTaken(req.email)))
    else if UidTakenBy(rows, req.firebaseUid, None) then Err(DataIntegrity(DuplicateFirebaseUid))
    else Ok(Created(req, now))
  }

  /** `updateCustomer`: a missing id is not found; a new email that another
    * customer holds is refused; keeping one's own email is allowed. */
  function UpdateOutcome(rows: Rows, id: nat, req: CustomerRequest, now: nat): (r: Result<Customer, CustomerError>)
    ensures id !in rows <==> r == Err(NotFoundById(id))
    ensures id in rows && req.email == rows[id].email ==> r.Ok?
    ensures id in rows && req.email != rows[id].email ==> (r.Ok? <==> !ExistsByEmail(rows, req.email))
    ensures r.Ok? ==> id in rows && r.value == Flushed(rows[id], Edited(rows[id], req), now)
    ensures r.Err? && id in rows ==> r == Err(BadRequest(EmailTaken(req.email)))
  {
    if id !in rows then Err(NotFoundById(id))
    else if rows[id].email != req.email && ExistsByEmail(rows, req.email) then
      Err(BadRequest(EmailTaken(req.email)))
    else Ok(Flushed(rows[id], Edited(rows[id], req), now))
  }

  /** An update the service lets through never reaches either unique
    * constraint: the email was checked and the uid is not touched. */
  lemma UpdateKeepsUnique(rows: Rows, id: nat, req: CustomerRequest, now: nat)
    requires Unique(rows)
    requires UpdateOutcome(rows, id, req, now).Ok?
    ensures Unique(rows[id := UpdateOutcome(rows, id, req, now).value])
  {
    var c := UpdateOutcome(rows, id, req, now).value;
    assert c.firebaseUid == rows[id].firebaseUid;
    PutKeepsUnique(rows, id, c);
  }

  /** On a table whose emails are unique, an update is refused exactly when
    * another customer holds the requested email. */
  lemma UpdateRefusesTakenEmails(rows: Rows, id: nat, req: CustomerRequest, now: nat)
    requires Unique(rows) && id in rows
    ensures UpdateOutcome(rows, id, req, now).Ok? <==> !EmailTakenBy(rows, req.email, id)
  {
  }

  /** A lookup by id (`getCustomerById`). */
  function GetCustomerById(rows: Rows, id: nat): (r: Result<Customer, CustomerError>)
    ensures r.Ok? <==> id in rows
    ensures r.Ok? ==> r.value == rows[id]
    ensures r.Err? ==> r.error == NotFoundById(id)
  {
    if id in rows then Ok(rows[id]) else Err(NotFoundById(id))
  }

  /** `getCustomerByEmail`: the one customer with that email. */
  function GetCustomerByEmail(rows: Rows, email: string): (r: Result<nat, CustomerError>)
    requires Unique(rows)
    ensures r.Ok? <==> ExistsByEmail(rows, email)
    ensures r.Ok? ==> r.value in rows && rows[r.value].email == email
    ensures r.Err? ==> r.error == NotFound("email", email)
  {
    if ExistsByEmail(rows, email) then
      var k :| k in rows && rows[k].email == email; Ok(k)
    else Err(NotFound("email", email))
  }

  /** `getCustomerByFirebaseUid`: the one customer with that uid. */
  function GetCustomerByFirebaseUid(rows: Rows, uid: string): (r: Result<nat, CustomerError>)
    requires Unique(rows)
    ensures r.Ok? <==> UidTakenBy(rows, Some(uid), None)
    ensures r.Ok? ==> r.value in rows && rows[r.value].firebaseUid == Some(uid)
    ensures r.Err? ==> r.error == NotFound("firebaseUid", uid)
  {
    if UidTakenBy(rows, Some(uid), None) then
      var k :| k in rows && rows[k].firebaseUid == Some(uid); Ok(k)
    else Err(NotFound("firebaseUid", uid))
  }

  /** The answer a lookup by email gives is the only row with that email. */
  lemma LookupByEmailIsUnique(rows: Rows, email: string, k: nat)
    requires Unique(rows) && k in rows && rows[k].email == email
    ensures GetCustomerByEmail(rows, email) == Ok(k)
  {
  }

  /** The customer table. */
  class CustomerTable {
    var rows: Rows
    var nextId: nat

    predicate Valid()
      reads this
    {
      Unique(rows) && forall k :: k in rows ==> k < nextId
    }

    constructor ()
      ensures Valid() && rows == map[] && nextId == 0
    {
      rows := map[];
      nextId := 0;
    }
  }

  /** The service over one customer table. */
  class CustomerService {
    const table: CustomerTable

    constructor (table: CustomerTable)
      ensures this.table == table
    {
      this.table := table;
    }

    /** `createCustomer`: the new customer gets the next identity value. An
      * insert the unique constraint refuses has already drawn that value,
      * which is not handed out again. */
    method CreateCustomer(req: CustomerRequest, now: nat) returns (r: Result<nat, CustomerError>)
      requires table.Valid()
      modifies table
      ensures table.Valid()
      ensures CreateOutcome(old(table.rows), req, now).Err? ==>
        r == Err(CreateOutcome(old(table.rows), req, now).error) && table.rows == old(table.rows)
      ensures r.Err? && r.error.BadRequest? ==> table.nextId == old(table.nextId)
      ensures r.Err? && r.error.DataIntegrity? ==> table.nextId == old(table.nextId) + 1
      ensures CreateOutcome(old(table.rows), req, now).Ok? ==>
        r == Ok(old(table.nextId)) && table.nextId == old(table.nextId) + 1
        && table.rows == old(table.rows)[old(table.nextId) := Created(req, now)]
    {
      if ExistsByEmail(table.rows, req.email) {
        return Err(BadRequest(EmailTaken(req.email)));
      }
      var c := Created(req, now);
      var id := table.nextId;
      if UidTakenBy(table.rows, c.firebaseUid, None) {
        table.nextId := id + 1;
        return Err(DataIntegrity(DuplicateFirebaseUid));
      }
      assert !EmailTakenBy(table.rows, c.email, id) && !UidTakenBy(table.rows, c.firebaseUid, Some(id));
      PutKeepsUnique(table.rows, id, c);
      table.rows := table.rows[id := c];
      table.nextId := id + 1;
      r := Ok(id);
    }

    /** `updateCustomer`. */
    method UpdateCustomer(id: nat, req: CustomerRequest, now: nat) returns (r: Result<Customer, CustomerError>)
      requires table.Valid()
      modifies table
      ensures table.Valid() && table.nextId == old(table.nextId)
      ensures r == UpdateOutcome(old(table.rows), id, req, now)
      ensures r.Ok? ==> table.rows == old(table.rows)[id := r.value]
      ensures r.Err? ==> table.rows == old(table.rows)
    {
      if id !in table.rows {
        return Err(NotFoundById(id));
      }
      var existing := table.rows[id];
      if existing.email != req.email && ExistsByEmail(table.rows, req.email) {
        return Err(BadRequest(EmailTaken(req.email)));
      }
      var saved := Flushed(existing, Edited(existing, req), now);
      UpdateKeepsUnique(table.rows, id, req, now);
      table.rows := table.rows[id := saved];
      r := Ok(saved);
    }

    /** `deleteCustomer`. */
    method DeleteCustomer(id: nat) returns (r: Result<(), CustomerError>)
      requires table.Valid()
      modifies table
      ensures table.Valid() && table.nextId == old(table.nextId)
      ensures id !in old(table.rows) ==> r == Err(NotFoundById(id)) && table.rows == old(table.rows)
      ensures id in old(table.rows) ==> r == Ok(()) && table.rows == old(table.rows) - {id}
    {
      if id !in table.rows {
        return Err(NotFoundById(id));
      }
      table.rows := table.rows - {id};
      r := Ok(());
    }

    /** `updateStripeCustomerId`: only the Stripe id changes (and the update
      * time, when it did). */
    method UpdateStripeCustomerId(id: nat, stripeCustomerId: Option<string>, now: nat) returns (r: Result<Customer, CustomerError>)
      requires table.Valid()
      modifies table
      ensures table.Valid() && table.nextId == old(table.nextId)
      ensures id !in old(table.rows) ==> r == Err(NotFoundById(id)) && table.rows == old(table.rows)
      ensures id in old(table.rows) ==>
        var c := old(table.rows)[id];
        r == Ok(Flushed(c, c.(stripeCustomerId := stripeCustomerId), now))
        && table.rows == old(table.rows)[id := r.value]
    {
      if id !in table.rows {
        return Err(NotFoundById(id));
      }
      var c := table.rows[id];
      var saved := Flushed(c, c.(stripeCustomerId := stripeCustomerId), now);
      assert saved.email == c.email && saved.firebaseUid == c.firebaseUid;
      PutKeepsUnique(table.rows, id, saved);
      table.rows := table.rows[id := saved];
      r := Ok(saved);
    }

    /** `updateSubscription`: only the subscription flag changes (and the
      * update time, when it did). */
    method UpdateSubscription(id: nat, isSubscribed: bool, now: nat) returns (r: Result<Customer, CustomerError>)
      requires table.Valid()
      modifies table
      ensures table.Valid() && table.nextId == old(table.nextId)
      ensures id !in old(table.rows) ==> r == Err(NotFoundById(id)) && table.rows == old(table.rows)
      ensures id in old(table.rows) ==>
        r == Ok(Subscribed(old(table.rows)[id], isSubscribed, now))
        && table.rows == old(table.rows)[id := r.value]
    {
      if id !in table.rows {
        return Err(NotFoundById(id));
      }
      var saved := Subscribed(table.rows[id], isSubscribed, now);
      PutKeepsUnique(table.rows, id, saved);
      table.rows := table.rows[id := saved];
      r := Ok(saved);
    }
  }

  /** The row `updateSubscription` saves: the flag set, the rest kept. */
  function Subscribed(c: Customer, isSubscribed: bool, now: nat): (r: Customer)
    ensures r.isSubscribed == isSubscribed
    ensures r.(isSubscribed := c.isSubscribed, updatedAt := c.updatedAt) == c
    ensures c.isSubscribed == isSubscribed <==> r == c
  {
    Flushed(c, c.(isSubscribed := isSubscribed), now)
  }

  /** Subscribing twice is subscribing once: the second call saves the row
    * unchanged, without a new update time. */
  lemma SubscriptionIdempotent(c: Customer, isSubscribed: bool, now: nat, later: nat)
    ensures Subscribed(Subscribed(c, isSubscribed, now), isSubscribed, later) == Subscribed(c, isSubscribed, now)
  {
  }
}
