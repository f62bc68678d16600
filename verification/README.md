# Bistro Boss server core, modelled in Dafny

This project models the decision and data logic of the Bistro Boss restaurant
server (`index.js`, an Express server over MongoDB): the guard chain in front
of the protected routes, user self-registration and promotion to admin, the
checkout settlement that records a payment and clears carts, and the two
reporting queries (revenue and the order/catalog join).

The database is an immutable value `Store.Db` holding the `users`, `menu`,
`carts` and `payments` collections as sequences of documents in natural order,
so `findOne` is "the first document that matches". A document is the body the
client posted plus the `_id` the store assigned; ids come from a counter
`nextId` that every insertion advances. Each writing route is a pure function from the
store and the request to the new store and the reply (`Store.Step`); a
read-only route returns only the reply, and the public `/order-stats` query is
the function `Analytics.OrderStats` over the ledger and the catalog.

Modules:

- `Wrappers` — `Option`, for JavaScript's `undefined`/`null` and missing fields.
- `Store` — documents, the database, `findOne`/`find` queries, and the
  invariant `Valid` (unique ids per collection, all below the counter).
- `Auth` — `verifyToken` (missing or empty header, `split(" ")[1]`, the JWT
  check as an abstract `Verifier`), `verifyAdmin` (role re-read from the store,
  strict comparison with `"admin"`), and the self-only admin check.
- `Users` — `POST /users`, `PATCH /users/admin/:id`, `GET /users/admin/:email`.
- `Settlement` — `POST /payments` as two sequential writes, and `GET /payments`.
- `Analytics` — revenue of `GET /admin-stats` and the join of `GET /order-stats`.

Behaviour worth knowing, as the code is written:

- `POST /users` stores the posted body verbatim, `role` included, so nothing
  keeps a newcomer at the standard role: one who posts `role: "admin"` passes
  the role gate afterwards (`Users.SelfRegisteredAdmin`).
- Settlement never compares the payer, the token identity or the cart owners:
  any authenticated caller clears any cart whose id it lists
  (`Settlement.SettleClearsForeignCart`).
- A payment posted without `cartIds` is still written to the ledger; the
  following `deleteMany` receives an invalid `$in` filter and rejects, leaving
  the carts in place; the async handler does not catch the rejection, so no
  reply is sent (`Settlement.Settle`, `ServerError`).
- A failed `insertOne` is not handled either; store failures are not modelled.
- A repeat registration answers `{ message, insertedId: null }`, modelled by
  `RegisterReply.AlreadyExists`.
- `POST /jwt` signs whatever body it receives without checking any credential,
  so any caller can obtain a valid token for any email, an admin's included.
  Every property of the guard chain holds for every verifier, so this changes
  no contract, but the token gate authenticates nobody in practice.
- Mongo counts a promotion as a modification only when the role actually
  changes, so a second promotion reports `modifiedCount` 0.

## Model

| member | source | states |
|---|---|---|
| Auth.Split | index.js:19 | JavaScript `split(" ")` yields at least one part, no part contains the separator, and more than one part exactly when the separator occurs |
| Auth.JoinSplit | index.js:19 | splitting the header loses nothing: joining the parts with the separator gives the header back |
| Auth.BearerToken | index.js:19 | a token is extracted exactly when the header contains a space, and it contains no space |
| Auth.BearerRoundTrip | index.js:19 | a header `<scheme> <token>`, with or without further space-separated text after the token, yields exactly that token |
| Auth.BearerTokenBetweenSpaces | index.js:19 | the extracted token is exactly the text after the first space up to the next space or the end of the header |
| Auth.AbsentTokenNeverVerifies | index.js:19-22 | an undefined or empty token is refused before verification, whatever the verifier would say |
| Auth.VerifyToken | index.js:15-27 | the token gate only ever refuses with 401 and refuses a missing or empty header; a present header whose non-empty token verifies is admitted with exactly the decoded claims, and nothing else is admitted |
| Auth.MissingHeaderNeverVerifies | index.js:16-18 | without a header the answer is 401 whatever the verifier would say, so verification is never consulted |
| Auth.BearerHeaderGate | index.js:19-25 | a bearer header, with or without trailing space-separated text, admits with exactly the claims decoded from its second field, and is 401 when that token fails verification |
| Store.FindUserByEmail | index.js:51-52 | `findOne({ email })` finds the first user with that email, and nothing exactly when no user has it |
| Store.IndexOfId | index.js:171 | the `{ _id }` filter of `updateOne` selects the first document with that id, and nothing exactly when the id is absent |
| Auth.StoredUser | index.js:52 | the user found by email exists exactly when the email is registered, and is then the first stored user with that email |
| Auth.VerifyAdmin | index.js:49-58 | the role gate admits, passing the same claims on, if and only if the first stored user with the token's email has role exactly "admin"; otherwise 403, and always 403 for an unknown email |
| Auth.AdminGateUniqueEmails | index.js:49-58 | with unique emails the role gate admits exactly when some stored user with the token's email is an admin |
| Auth.AdminGateIgnoresClaimedRole | index.js:50-53 | a role written into the token never changes the role gate's decision |
| Auth.AdminFlag | index.js:156-166 | the self-only check is 403 when the path email differs from the token email, otherwise reports whether the stored user is an admin, and false when the user is absent |
| Auth.AdminFlagMatchesGate | index.js:155-167 | on the caller's own email the reported admin flag equals the role gate's decision |
| Users.Register | index.js:186-195 | registration of a taken email inserts nothing and answers AlreadyExists; otherwise it appends the body under a fresh id; other collections never change; afterwards the email is registered |
| Users.RegisterIdempotent | index.js:188-192 | registering the same body twice gives the same store as once, a null insertedId and an unchanged user count |
| Users.RegisterKeepsInvariants | index.js:186-195 | registration keeps ids unique and emails unique |
| Users.SelfRegisteredAdmin | index.js:187-193 | a new user who posts role "admin" passes the role gate afterwards |
| Users.Promote | index.js:169-179 | promotion gives the first user with the id role "admin", changes no other user, no id, email or name and no other collection; matchedCount is 1 exactly when the id exists; modifiedCount is 0 exactly when nothing changed |
| Users.PromoteChangesOnlyTarget | index.js:171-177 | a user that promotion changed is the first user with the given id |
| Users.PromoteIdempotent | index.js:169-179 | promoting twice leaves the same store as promoting once, and the second call modifies nothing |
| Users.PromotedUserPassesGate | index.js:169-179 | with unique emails, the promoted user passes the role gate afterwards |
| Users.PromoteKeepsInvariants | index.js:169-179 | promotion keeps ids unique and emails unique |
| Users.PromoteRoute | index.js:169 | the promotion route is 401 exactly when the token gate refuses, 403 exactly when the caller's stored role is not admin, changes nothing when refused, and otherwise promotes |
| Users.AdminStatusRoute | index.js:155-167 | the admin-status route is 401 exactly when the token gate refuses, 403 exactly for another user's email, and otherwise answers the role gate's decision |
| Settlement.RecordPayment | index.js:131-132 | the ledger gains exactly one record, equal to the posted body, under a fresh id; nothing else changes |
| Settlement.ClearCarts | index.js:133-138 | every remaining cart was there and is unlisted, every unlisted cart remains, deletedCount is the number of carts removed, other collections unchanged |
| Settlement.ClearCartsCount | index.js:133-138 | with unique cart ids, deletedCount equals the number of distinct listed ids that name an existing cart |
| Settlement.ClearCartsExactly | index.js:133-138 | the cart ids after clearing are exactly the ids before minus the listed ones; unknown ids are ignored |
| Settlement.Settle | index.js:130-140 | settlement always appends the posted payment to the ledger; with cartIds it removes exactly the listed carts and reports both results; without cartIds it fails after the ledger write, carts untouched |
| Settlement.SettleKeepsValid | index.js:130-140 | settlement keeps every collection's ids unique and below the counter |
| Settlement.SettleClearsForeignCart | index.js:133-138 | a listed cart belonging to another customer is deleted too |
| Settlement.SettleRoute | index.js:130 | the settlement route writes nothing and is 401 when the token gate refuses, and otherwise settles |
| Settlement.PaymentHistory | index.js:119-128 | the payment history is 401 when the token gate refuses, 403 when the query email is not the token email, answered exactly when the token is valid and the emails match, and then contains exactly the ledger records with that email |
| Analytics.GroupTotal | index.js:69-74 | the `$group` stage yields no group on an empty ledger and exactly one otherwise |
| Analytics.Revenue | index.js:76 | revenue is 0 on an empty ledger |
| Analytics.RevenueAppend | index.js:69-76 | appending a payment raises revenue by exactly its numeric price, and by nothing when the price is missing |
| Analytics.RevenueSplit | index.js:69-76 | revenue is additive over any split of the ledger |
| Analytics.RevenueNonNegative | index.js:69-76 | revenue is non-negative when no price is negative |
| Analytics.RevenueScan | index.js:69-76 | a one-pass reduction with `$sum`'s treatment of missing prices computes the same revenue as the aggregate |
| Analytics.SettleAddsRevenue | index.js:130-132 | settling a payment raises revenue by exactly its price, whether or not the carts were cleared |
| Analytics.RevenueAfterTwoSettlements | index.js:69-76 | revenue is 0 on an empty ledger and 25 after settling payments of 10 and 15 |
| Analytics.AdminStatsRoute | index.js:60-79 | admin stats are 401 exactly when the token gate refuses, 403 exactly when the stored role is not admin, and otherwise report the ledger's price sum and the store's count estimates |
| Analytics.LookupMenu | index.js:87-100 | the lookup yields catalog entries whose id equals the menu id, includes every such entry, and is empty exactly when no entry has that id |
| Analytics.LookupAtMostOne | index.js:87-100 | with unique catalog ids each row matches at most one catalog entry |
| Analytics.OrderStats | index.js:81-104 | the join has one row per (payment, element of menuIds), so its length is the sum of the menuIds lengths |
| Analytics.OrderStatsAppend | index.js:82-102 | the join of a concatenated ledger is the concatenation of the joins |
| Analytics.EmptyMenuIdsContributeNothing | index.js:84 | a payment with empty menuIds contributes no row |
| Analytics.OrderStatsRowAt | index.js:82-102 | the row of the k-th menu id of the i-th payment sits after the rows of the earlier payments and carries that payment, that id and its catalog matches |
| Analytics.OrderStatsRowOrigin | index.js:82-102 | every row carries a ledger payment, one of its menu ids, and that id's catalog matches |
| Analytics.UnknownMenuIdKeepsRow | index.js:87-100 | a menu id absent from the catalog still yields its row, with an empty match list |

## Left out

- The Stripe payment intent of `POST /create-payment-intent` and its `parseInt(price * 100)` conversion: an external processor call plus floating-point conversion.
- Token issuing (`POST /jwt`) and the signature and expiry check: cryptography belongs to the JWT library; the model takes the check as an abstract `Verifier` from token text to claims.
- The MongoDB client, collection handles, Express and CORS wiring, the ping and `listen`: I/O plumbing.
- `estimatedDocumentCount`: the counts are estimates read from collection metadata, so `Analytics.AdminStatsRoute` takes them as an input rather than deriving them from the collections.
- `new ObjectId(id)` and `$toObjectId` failures on malformed id strings: the model's ids are already parsed, and the error behaviour belongs to the driver.
- Failures of the store itself (a rejected `insertOne`, a lost connection): no store error is modelled except the invalid `$in` filter of a payment without `cartIds`.
- Concurrency: requests are not interleaved. Two concurrent registrations of one email could both pass the lookup and insert twice, and a crash between the two settlement writes would leave the payment without its cart deletion; the model runs each request's writes as sequential steps to completion.
- Floating point: prices are exact reals; the rounding of JavaScript numbers and of `$sum` over doubles is not modelled.
- Settlement.PaymentHistory: states which records are answered, but not their order or how often each appears; both follow from the `find` definition and are not stated as contracts.
- `GET /payments` keeps running after sending its 403 and then fails on a second send; `Settlement.PaymentHistory` models only the 403 the client receives.
- The plain CRUD routes for menu, reviews and carts, `GET /users` and `DELETE /users/:id`: they persist or return what was sent and carry no invariant.
- Request bodies with a client-chosen `_id`, a missing `email`, extra fields beyond those modelled, or a `menuIds` value that is not an array, and token payloads without `email`: bodies and claims are typed records with the fields the core reads. Such a token would make `verifyAdmin` look up `{ email: undefined }`, which the driver sends as `{ email: null }` and which matches the first user stored without an email; the model cannot express that user or that token.
- Analytics.GroupTotal: its contract states only that an empty ledger yields no group and any other ledger one; the group's total is stated through `Analytics.RevenueAppend`, `Analytics.RevenueSplit` and `Analytics.RevenueScan`.
- Analytics.Revenue: its own contract states only the empty-ledger case; the sum itself is stated by `Analytics.RevenueAppend`, `Analytics.RevenueSplit` and `Analytics.RevenueScan`.
