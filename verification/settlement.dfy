/**
 The settlement workflow of `POST /payments`, and the caller's payment history
 of `GET /payments`.

 Settlement is two independent store writes run one after the other: insert
 the posted payment into the ledger, then `deleteMany` the carts whose `_id`
 is listed in the payment's `cartIds`. Nothing ties the deleted carts to the
 payer: any authenticated caller may clear any cart by listing its id.
 */
module Settlement {
  import opened Wrappers
  import opened Store
  import opened Auth

  /** Mongo's `InsertOneResult` and `DeleteResult`. */
  datatype InsertResult = InsertResult(insertedId: Id)
  datatype DeleteResult = DeleteResult(deletedCount: nat)

  /** The body of a successful `POST /payments` answer. */
  datatype SettleReply = SettleReply(paymentResult: InsertResult, deleteResult: DeleteResult)

  /** Step 1, `insertOne(payment)`: the ledger gains exactly the posted body. */
  function RecordPayment(db: Db, payment: PaymentBody): (r: Step<InsertResult>)
    ensures r.db.payments == db.payments + [Doc(db.nextId, payment)]
    ensures |r.db.payments| == |db.payments| + 1
    ensures r.reply.insertedId == db.nextId < r.db.nextId
    ensures r.db.users == db.users && r.db.menu == db.menu && r.db.carts == db.carts
  {
    var docs := db.payments + [Doc(db.nextId, payment)];
    Step(db.(payments := docs, nextId := db.nextId + 1), InsertResult(db.nextId))
  }

  /** Step 2, `deleteMany({ _id: { $in: cartIds } })`. */
  function ClearCarts(db: Db, cartIds: seq<Id>): (r: Step<DeleteResult>)
    ensures forall i :: 0 <= i < |r.db.carts| ==> r.db.carts[i] in db.carts && r.db.carts[i].id !in cartIds
    ensures forall i :: 0 <= i < |db.carts| && db.carts[i].id !in cartIds ==> db.carts[i] in r.db.carts
    ensures r.reply.deletedCount == |db.carts| - |r.db.carts|
    ensures r.db.users == db.users && r.db.menu == db.menu && r.db.payments == db.payments
    ensures r.db.nextId == db.nextId
  {
    var kept := Filter(db.carts, (c: Doc<CartBody>) => c.id !in cartIds);
    Step(db.(carts := kept), DeleteResult(|db.carts| - |kept|))
  }

  /** The number of carts whose id is listed. */
  function CountListed(carts: seq<Doc<CartBody>>, cartIds: seq<Id>): nat {
    if |carts| == 0 then 0
    else (if carts[0].id in cartIds then 1 else 0) + CountListed(carts[1..], cartIds)
  }

  lemma {:induction false} KeptPlusListed(carts: seq<Doc<CartBody>>, cartIds: seq<Id>)
    ensures |Filter(carts, (c: Doc<CartBody>) => c.id !in cartIds)| + CountListed(carts, cartIds) == |carts|
    decreases |carts|
  {
    if |carts| > 0 {
      KeptPlusListed(carts[1..], cartIds);
    }
  }

  lemma {:induction false} CountListedIsOverlap(carts: seq<Doc<CartBody>>, cartIds: seq<Id>)
    requires UniqueIds(carts)
    ensures CountListed(carts, cartIds) == |IdSet(carts) * set k | k in cartIds|
    decreases |carts|
  {
    var listed := set k | k in cartIds;
    if |carts| == 0 {
      assert IdSet(carts) == {};
    } else {
      var rest := carts[1..];
      UniqueIdsTail(carts);
      CountListedIsOverlap(rest, cartIds);
      IdSetCons(carts);
      if carts[0].id in cartIds {
        assert IdSet(carts) * listed == {carts[0].id} + IdSet(rest) * listed;
      } else {
        assert IdSet(carts) * listed == IdSet(rest) * listed;
      }
    }
  }

  /**
   With unique cart ids, the deleted count is the number of distinct listed ids
   that name an existing cart: unknown and repeated ids change nothing.
   */
  lemma ClearCartsCount(db: Db, cartIds: seq<Id>)
    requires UniqueIds(db.carts)
    ensures ClearCarts(db, cartIds).reply.deletedCount == |IdSet(db.carts) * set k | k in cartIds|
  {
    KeptPlusListed(db.carts, cartIds);
    CountListedIsOverlap(db.carts, cartIds);
  }

  /** After clearing, no listed id names a cart; every unlisted cart is still there. */
  lemma ClearCartsExactly(db: Db, cartIds: seq<Id>)
    ensures IdSet(ClearCarts(db, cartIds).db.carts) == IdSet(db.carts) - set k | k in cartIds
  {
  }

  /**
   `POST /payments` after the token gate. The ledger write always happens; a
   payment without `cartIds` makes the `$in` filter invalid, so the delete is
   rejected after the payment is stored and the request fails.
   */
  function Settle(db: Db, payment: PaymentBody): (r: Step<Response<SettleReply>>)
    ensures r.db.payments == db.payments + [Doc(db.nextId, payment)]
    ensures r.db.users == db.users && r.db.menu == db.menu
    ensures payment.cartIds.None? ==> r.reply == ServerError && r.db.carts == db.carts
    ensures payment.cartIds.Some? ==>
      && r.reply.Ok?
      && r.reply.body.paymentResult.insertedId == db.nextId
      && r.reply.body.deleteResult.deletedCount == |db.carts| - |r.db.carts|
      && (forall i :: 0 <= i < |r.db.carts| ==> r.db.carts[i] in db.carts && r.db.carts[i].id !in payment.cartIds.value)
      && (forall i :: 0 <= i < |db.carts| && db.carts[i].id !in payment.cartIds.value ==> db.carts[i] in r.db.carts)
  {
    var s1 := RecordPayment(db, payment);
    match payment.cartIds
    case None => Step(s1.db, ServerError)
    case Some(ids) =>
      var s2 := ClearCarts(s1.db, ids);
      Step(s2.db, Ok(SettleReply(s1.reply, s2.reply)))
  }

  /** Settlement keeps every collection well identified. */
  lemma SettleKeepsValid(db: Db, payment: PaymentBody)
    requires Valid(db)
    ensures Valid(Settle(db, payment).db)
  {
    var s1 := RecordPayment(db, payment);
    AppendFresh(db.payments, db.nextId, payment);
    RaiseBound(db.users, db.nextId, db.nextId + 1);
    RaiseBound(db.menu, db.nextId, db.nextId + 1);
    RaiseBound(db.carts, db.nextId, db.nextId + 1);
    if payment.cartIds.Some? {
      FilterWellIdentified(s1.db.carts, s1.db.nextId, (c: Doc<CartBody>) => c.id !in payment.cartIds.value);
    }
  }

  /** A cart of another customer is deleted when its id is listed: settlement never checks owners. */
  lemma SettleClearsForeignCart(db: Db, payment: PaymentBody, i: nat)
    requires payment.cartIds.Some? && i < |db.carts|
    requires db.carts[i].id in payment.cartIds.value && db.carts[i].body.email != payment.email
    ensures db.carts[i].id !in IdSet(Settle(db, payment).db.carts)
  {
  }

  /** The route `POST /payments` behind `verifyToken`; a refused request writes nothing. */
  function SettleRoute(db: Db, authorization: Option<string>, verify: Verifier, payment: PaymentBody): (r: Step<Response<SettleReply>>)
    ensures VerifyToken(authorization, verify).Deny? ==> r == Step(db, Denied(Unauthorized))
    ensures VerifyToken(authorization, verify).Admit? ==> r == Settle(db, payment)
  {
    match VerifyToken(authorization, verify)
    case Deny(d) => Step(db, Denied(d))
    case Admit(_) => Settle(db, payment)
  }

  /**
   The route `GET /payments?email=` behind `verifyToken`: 403 unless the query
   email is the token's email, otherwise that customer's ledger entries.
   */
  function PaymentHistory(db: Db, authorization: Option<string>, verify: Verifier, queryEmail: Option<string>)
    : (r: Response<seq<Doc<PaymentBody>>>)
    ensures VerifyToken(authorization, verify).Deny? <==> r == Denied(Unauthorized)
    ensures VerifyToken(authorization, verify).Admit? && queryEmail != Some(VerifyToken(authorization, verify).claims.email) ==>
      r == Denied(Forbidden)
    ensures r.Ok? <==>
      VerifyToken(authorization, verify).Admit? && queryEmail == Some(VerifyToken(authorization, verify).claims.email)
    ensures r.Ok? ==>
      && queryEmail.Some?
      && (forall i :: 0 <= i < |r.body| ==> r.body[i] in db.payments && r.body[i].body.email == queryEmail.value)
      && (forall i :: 0 <= i < |db.payments| && db.payments[i].body.email == queryEmail.value ==> db.payments[i] in r.body)
  {
    match VerifyToken(authorization, verify)
    case Deny(d) => Denied(d)
    case Admit(claims) =>
      if queryEmail != Some(claims.email) then Denied(Forbidden)
      else Ok(Filter(db.payments, (p: Doc<PaymentBody>) => p.body.email == claims.email))
  }
}
