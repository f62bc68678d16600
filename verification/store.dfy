/**
 The backing store of the restaurant server, as an immutable value.

 Each MongoDB collection is a sequence of documents in natural (insertion)
 order, so that `findOne` is "the first document that matches". A document is
 the body the client sent plus the `_id` the store assigned on insertion; ids
 are drawn from a counter that the store advances on every insertion.
 */
module Store {
  import opened Wrappers

  /** A MongoDB ObjectId, abstracted to a natural number. */
  type Id = nat

  /** A stored document: the assigned `_id` and the body as the client sent it. */
  datatype Doc<T> = Doc(id: Id, body: T)

  /** A document of the `users` collection; `role` is absent for ordinary users. */
  datatype UserBody = UserBody(email: string, name: string, role: Option<string>)

  /** A document of the `menu` collection. */
  datatype MenuBody = MenuBody(name: string, category: string, price: real)

  /** A document of the `carts` collection: one pending order line of `email`. */
  datatype CartBody = CartBody(email: string, menuId: Id, name: string, price: real)

  /**
   A document of the `payments` collection, stored exactly as the checkout page
   posts it. `price` is None when the field is missing or not a number;
   `cartIds` is None when the field is missing.
   */
  datatype PaymentBody = PaymentBody(
    email: string,
    price: Option<real>,
    transactionId: string,
    date: string,
    menuIds: seq<Id>,
    cartIds: Option<seq<Id>>)

  /** The `bistroDB` database: the four collections the core reads and writes. */
  datatype Db = Db(
    users: seq<Doc<UserBody>>,
    menu: seq<Doc<MenuBody>>,
    carts: seq<Doc<CartBody>>,
    payments: seq<Doc<PaymentBody>>,
    nextId: Id)

  /** The store after a request, paired with what the request answers. */
  datatype Step<T> = Step(db: Db, reply: T)

  /** The ids present in a collection. */
  function IdSet<T>(docs: seq<Doc<T>>): set<Id> {
    set i | 0 <= i < |docs| :: docs[i].id
  }

  predicate UniqueIds<T>(docs: seq<Doc<T>>) {
    forall i, j :: 0 <= i < j < |docs| ==> docs[i].id != docs[j].id
  }

  predicate IdsBelow<T>(docs: seq<Doc<T>>, bound: Id) {
    forall i :: 0 <= i < |docs| ==> docs[i].id < bound
  }

  predicate WellIdentified<T>(docs: seq<Doc<T>>, bound: Id) {
    UniqueIds(docs) && IdsBelow(docs, bound)
  }

  /** Ids are unique within each collection and all lie below the id counter. */
  predicate Valid(db: Db) {
    && WellIdentified(db.users, db.nextId)
    && WellIdentified(db.menu, db.nextId)
    && WellIdentified(db.carts, db.nextId)
    && WellIdentified(db.payments, db.nextId)
  }

  /** No two stored users share an email address. */
  predicate UniqueEmails(users: seq<Doc<UserBody>>) {
    forall i, j :: 0 <= i < j < |users| ==> users[i].body.email != users[j].body.email
  }

  /** Some stored user has this email address. */
  predicate EmailRegistered(users: seq<Doc<UserBody>>, email: string) {
    exists i :: 0 <= i < |users| && users[i].body.email == email
  }

  /** The index of the first element satisfying `p`: a query with `findOne` semantics. */
  function FirstMatch<T>(s: seq<T>, p: T -> bool): (r: Option<nat>)
    ensures r.Some? ==> r.value < |s| && p(s[r.value])
    ensures r.Some? ==> forall j :: 0 <= j < r.value ==> !p(s[j])
    ensures r.None? ==> forall j :: 0 <= j < |s| ==> !p(s[j])
  {
    if |s| == 0 then None
    else if p(s[0]) then Some(0)
    else
      match FirstMatch(s[1..], p)
      case None => None
      case Some(k) => Some(k + 1)
  }

  /** The elements satisfying `p`, in their original order: a query with `find` semantics. */
  function Filter<T(==)>(s: seq<T>, p: T -> bool): (r: seq<T>)
    ensures |r| <= |s|
    ensures forall i :: 0 <= i < |r| ==> r[i] in s && p(r[i])
    ensures forall i :: 0 <= i < |s| && p(s[i]) ==> s[i] in r
  {
    if |s| == 0 then []
    else if p(s[0]) then [s[0]] + Filter(s[1..], p)
    else Filter(s[1..], p)
  }

  /** `findOne({ email })` on the users collection. */
  function FindUserByEmail(users: seq<Doc<UserBody>>, email: string): (r: Option<nat>)
    ensures r.Some? ==> r.value < |users| && users[r.value].body.email == email
    ensures r.Some? ==> forall j :: 0 <= j < r.value ==> users[j].body.email != email
    ensures r.None? <==> !EmailRegistered(users, email)
  {
    FirstMatch(users, (u: Doc<UserBody>) => u.body.email == email)
  }

  /** The document an `{ _id }` filter selects, as in `updateOne({ _id }, …)`. */
  function IndexOfId<T>(docs: seq<Doc<T>>, id: Id): (r: Option<nat>)
    ensures r.Some? ==> r.value < |docs| && docs[r.value].id == id
    ensures r.Some? ==> forall j :: 0 <= j < r.value ==> docs[j].id != id
    ensures r.None? <==> id !in IdSet(docs)
  {
    FirstMatch(docs, (d: Doc<T>) => d.id == id)
  }

  /** Appending a document under the counter's id keeps the collection well identified. */
  lemma AppendFresh<T>(docs: seq<Doc<T>>, bound: Id, body: T)
    requires WellIdentified(docs, bound)
    ensures WellIdentified(docs + [Doc(bound, body)], bound + 1)
  {
  }

  /** Raising the counter keeps a collection well identified. */
  lemma RaiseBound<T>(docs: seq<Doc<T>>, bound: Id, bound': Id)
    requires WellIdentified(docs, bound) && bound <= bound'
    ensures WellIdentified(docs, bound')
  {
  }

  /** The ids of a non-empty collection: its first id and the ids of the rest. */
  lemma IdSetCons<T>(docs: seq<Doc<T>>)
    requires |docs| > 0
    ensures IdSet(docs) == {docs[0].id} + IdSet(docs[1..])
  {
  }

  /** Dropping the first document keeps ids unique, and its id occurs nowhere else. */
  lemma UniqueIdsTail<T>(docs: seq<Doc<T>>)
    requires |docs| > 0 && UniqueIds(docs)
    ensures UniqueIds(docs[1..])
    ensures docs[0].id !in IdSet(docs[1..])
  {
  }

  /** Removing documents from a collection keeps its ids unique. */
  lemma {:induction false} FilterUniqueIds<T>(docs: seq<Doc<T>>, p: Doc<T> -> bool)
    requires UniqueIds(docs)
    ensures UniqueIds(Filter(docs, p))
    decreases |docs|
  {
    if |docs| > 0 {
      var rest := docs[1..];
      UniqueIdsTail(docs);
      FilterUniqueIds(rest, p);
      if p(docs[0]) {
        var r := [docs[0]] + Filter(rest, p);
        forall i, j | 0 <= i < j < |r| ensures r[i].id != r[j].id {
          if i == 0 {
            assert r[j] in rest;
            var k :| 0 <= k < |rest| && rest[k] == r[j];
            assert docs[k + 1] == r[j];
          }
        }
      }
    }
  }

  /** Removing documents from a collection keeps it well identified. */
  lemma FilterWellIdentified<T>(docs: seq<Doc<T>>, bound: Id, p: Doc<T> -> bool)
    requires WellIdentified(docs, bound)
    ensures WellIdentified(Filter(docs, p), bound)
  {
  }
}
