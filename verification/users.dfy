/**
 The user routes of the core: idempotent self-registration (`POST /users`),
 promotion to admin (`PATCH /users/admin/:id`) and the caller's own admin
 status (`GET /users/admin/:email`).
 */
module Users {
  import opened Wrappers
  import opened Store
  import opened Auth

  /** The answer of `POST /users`: `insertedId` is null when the email was already taken. */
  datatype RegisterReply = AlreadyExists | Inserted(id: Id) {
    function InsertedId(): Option<Id> {
      match this
      case AlreadyExists => None
      case Inserted(id) => Some(id)
    }
  }

  /** Mongo's `UpdateResult` counts. */
  datatype UpdateResult = UpdateResult(matchedCount: nat, modifiedCount: nat)

  /**
   `POST /users`: look the email up and insert the body, exactly as sent, only
   when nobody has that email yet.
   */
  function Register(db: Db, user: UserBody): (r: Step<RegisterReply>)
    ensures EmailRegistered(db.users, user.email) ==> r.reply == AlreadyExists && r.db == db
    ensures !EmailRegistered(db.users, user.email) ==>
      && r.reply == Inserted(db.nextId)
      && r.db.users == db.users + [Doc(db.nextId, user)]
      && r.db.nextId == db.nextId + 1
    ensures r.db.menu == db.menu && r.db.carts == db.carts && r.db.payments == db.payments
    ensures EmailRegistered(r.db.users, user.email)
  {
    match FindUserByEmail(db.users, user.email)
    case Some(_) => Step(db, AlreadyExists)
    case None =>
      var users' := db.users + [Doc(db.nextId, user)];
      assert users'[|db.users|].body.email == user.email;
      Step(db.(users := users', nextId := db.nextId + 1), Inserted(db.nextId))
  }

  /** Registering the same body again inserts nothing and reports a null `insertedId`. */
  lemma RegisterIdempotent(db: Db, user: UserBody)
    ensures Register(Register(db, user).db, user) == Step(Register(db, user).db, AlreadyExists)
    ensures Register(Register(db, user).db, user).reply.InsertedId() == None
    ensures |Register(Register(db, user).db, user).db.users| == |Register(db, user).db.users|
  {
  }

  /** Registration keeps ids unique and emails unique. */
  lemma RegisterKeepsInvariants(db: Db, user: UserBody)
    requires Valid(db) && UniqueEmails(db.users)
    ensures Valid(Register(db, user).db) && UniqueEmails(Register(db, user).db.users)
  {
  }

  /**
   The body is stored verbatim, role included, so a newcomer who posts
   `role: "admin"` passes the role gate from then on.
   */
  lemma SelfRegisteredAdmin(db: Db, user: UserBody, claims: Claims)
    requires !EmailRegistered(db.users, user.email)
    requires user.role == Some(AdminRole) && claims.email == user.email
    ensures VerifyAdmin(Register(db, user).db.users, claims).Admit?
  {
  }

  /**
   `PATCH /users/admin/:id`: `$set` the role of the user with this `_id` to
   `"admin"`. Mongo counts a document as modified only when its role changes.
   */
  function Promote(db: Db, id: Id): (r: Step<UpdateResult>)
    ensures r.db.menu == db.menu && r.db.carts == db.carts && r.db.payments == db.payments
    ensures r.db.nextId == db.nextId
    ensures |r.db.users| == |db.users|
    ensures forall i :: 0 <= i < |db.users| ==>
      && r.db.users[i].id == db.users[i].id
      && r.db.users[i].body.email == db.users[i].body.email
      && r.db.users[i].body.name == db.users[i].body.name
    ensures forall i :: 0 <= i < |db.users| && db.users[i].id != id ==> r.db.users[i] == db.users[i]
    ensures forall i :: 0 <= i < |db.users| && db.users[i].id == id && (forall j :: 0 <= j < i ==> db.users[j].id != id) ==>
      r.db.users[i].body.role == Some(AdminRole)
    ensures r.reply.matchedCount == (if id in IdSet(db.users) then 1 else 0)
    ensures r.reply.modifiedCount <= r.reply.matchedCount
    ensures r.reply.modifiedCount == 0 <==> r.db == db
  {
    match IndexOfId(db.users, id)
    case None => Step(db, UpdateResult(0, 0))
    case Some(k) =>
      var u := db.users[k];
      var promoted := Doc(u.id, u.body.(role := Some(AdminRole)));
      if u.body.role == Some(AdminRole) then
        assert db.users[k := promoted] == db.users;
        Step(db, UpdateResult(1, 0))
      else
        assert db.users[k := promoted][k] != db.users[k];
        Step(db.(users := db.users[k := promoted]), UpdateResult(1, 1))
  }

  /** Only the first user with the id can change; with unique ids that is the user with the id. */
  lemma PromoteChangesOnlyTarget(db: Db, id: Id, i: nat)
    requires i < |db.users| && Promote(db, id).db.users[i] != db.users[i]
    ensures IndexOfId(db.users, id) == Some(i)
  {
  }

  /** Promoting twice is promoting once; the second call modifies nothing. */
  lemma PromoteIdempotent(db: Db, id: Id)
    ensures Promote(Promote(db, id).db, id).db == Promote(db, id).db
    ensures Promote(Promote(db, id).db, id).reply == UpdateResult(Promote(db, id).reply.matchedCount, 0)
  {
  }

  /** After promotion the promoted user passes the role gate, when emails are unique. */
  lemma PromotedUserPassesGate(db: Db, id: Id, claims: Claims)
    requires UniqueEmails(db.users)
    requires IndexOfId(db.users, id).Some?
    requires claims.email == db.users[IndexOfId(db.users, id).value].body.email
    ensures VerifyAdmin(Promote(db, id).db.users, claims).Admit?
  {
  }

  /** Promotion keeps ids and emails unique. */
  lemma PromoteKeepsInvariants(db: Db, id: Id)
    requires Valid(db) && UniqueEmails(db.users)
    ensures Valid(Promote(db, id).db) && UniqueEmails(Promote(db, id).db.users)
  {
  }

  /** The route `PATCH /users/admin/:id` behind `verifyToken` and `verifyAdmin`. */
  function PromoteRoute(db: Db, authorization: Option<string>, verify: Verifier, id: Id): (r: Step<Response<UpdateResult>>)
    ensures VerifyToken(authorization, verify).Deny? <==> r.reply == Denied(Unauthorized)
    ensures r.reply == Denied(Forbidden) <==>
      VerifyToken(authorization, verify).Admit? && !FirstUserIsAdmin(db.users, VerifyToken(authorization, verify).claims.email)
    ensures !r.reply.Ok? ==> r.db == db
    ensures r.reply.Ok? ==> r.db == Promote(db, id).db && r.reply.body == Promote(db, id).reply
    ensures r.reply != ServerError
  {
    match VerifyToken(authorization, verify)
    case Deny(d) => Step(db, Denied(d))
    case Admit(claims) =>
      match VerifyAdmin(db.users, claims)
      case Deny(d) => Step(db, Denied(d))
      case Admit(_) =>
        var s := Promote(db, id);
        Step(s.db, Ok(s.reply))
  }

  /** The route `GET /users/admin/:email` behind `verifyToken`. */
  function AdminStatusRoute(db: Db, authorization: Option<string>, verify: Verifier, pathEmail: string): (r: Response<bool>)
    ensures VerifyToken(authorization, verify).Deny? <==> r == Denied(Unauthorized)
    ensures VerifyToken(authorization, verify).Admit? ==>
      var claims := VerifyToken(authorization, verify).claims;
      && (pathEmail != claims.email <==> r == Denied(Forbidden))
      && (pathEmail == claims.email ==> r == Ok(VerifyAdmin(db.users, claims).Admit?))
  {
    match VerifyToken(authorization, verify)
    case Deny(d) => Denied(d)
    case Admit(claims) => AdminFlag(db.users, claims, pathEmail)
  }
}
