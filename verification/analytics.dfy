/**
 The two reporting queries over the ledger: the revenue of `GET /admin-stats`
 and the unwind-and-lookup join of `GET /order-stats`.
 */
module Analytics {
  import opened Wrappers
  import opened Store
  import opened Auth
  import Settlement

  /** What `$sum` adds for one payment: its price, or nothing when the price is missing. */
  function PriceOf(p: Doc<PaymentBody>): real {
    p.body.price.GetOr(0.0)
  }

  /** The sum of prices over the ledger, oldest payment first. */
  function SumPrices(payments: seq<Doc<PaymentBody>>): real
    decreases |payments|
  {
    if |payments| == 0 then 0.0
    else SumPrices(payments[..|payments| - 1]) + PriceOf(payments[|payments| - 1])
  }

  /** `$group: { _id: null, total: { $sum: "$price" } }`: an empty ledger yields no group at all. */
  function GroupTotal(payments: seq<Doc<PaymentBody>>): (groups: seq<real>)
    ensures |groups| <= 1
    ensures |groups| == 0 <==> |payments| == 0
  {
    if |payments| == 0 then [] else [SumPrices(payments)]
  }

  /** `totalRevenue.length > 0 ? totalRevenue[0].total : 0`. */
  function Revenue(payments: seq<Doc<PaymentBody>>): (revenue: real)
    ensures |payments| == 0 ==> revenue == 0.0
  {
    var groups := GroupTotal(payments);
    if |groups| > 0 then groups[0] else 0.0
  }

  /** Revenue grows by exactly the price of a payment appended to the ledger. */
  lemma RevenueAppend(payments: seq<Doc<PaymentBody>>, p: Doc<PaymentBody>)
    ensures Revenue(payments + [p]) == Revenue(payments) + PriceOf(p)
  {
    var s := payments + [p];
    assert s[..|s| - 1] == payments && s[|s| - 1] == p;
    assert SumPrices(s) == SumPrices(payments) + PriceOf(p);
  }

  /** Revenue is additive over any split of the ledger, so the order of the scan does not matter. */
  lemma {:induction false} RevenueSplit(a: seq<Doc<PaymentBody>>, b: seq<Doc<PaymentBody>>)
    ensures Revenue(a + b) == Revenue(a) + Revenue(b)
    decreases |b|
  {
    if |b| == 0 {
      assert a + b == a;
    } else {
      var b' := b[..|b| - 1];
      var last := b[|b| - 1];
      assert b == b' + [last];
      assert a + b == (a + b') + [last];
      RevenueSplit(a, b');
      RevenueAppend(a + b', last);
      RevenueAppend(b', last);
    }
  }

  /** With no negative prices on the ledger, revenue is never negative. */
  lemma {:induction false} RevenueNonNegative(payments: seq<Doc<PaymentBody>>)
    requires forall i :: 0 <= i < |payments| ==> PriceOf(payments[i]) >= 0.0
    ensures Revenue(payments) >= 0.0
    decreases |payments|
  {
    if |payments| > 0 {
      var init := payments[..|payments| - 1];
      RevenueNonNegative(init);
      RevenueAppend(init, payments[|payments| - 1]);
      assert payments == init + [payments[|payments| - 1]];
    }
  }

  /**
   A reference reduction with `$sum`'s semantics: one pass over the ledger
   adding each numeric price and skipping a missing one.
   */
  method RevenueScan(payments: seq<Doc<PaymentBody>>) returns (total: real)
    ensures total == Revenue(payments)
  {
    total := 0.0;
    var i := 0;
    while i < |payments|
      invariant 0 <= i <= |payments|
      invariant total == Revenue(payments[..i])
    {
      RevenueAppend(payments[..i], payments[i]);
      assert payments[..i + 1] == payments[..i] + [payments[i]];
      total := total + PriceOf(payments[i]);
      i := i + 1;
    }
    assert payments[..i] == payments;
  }

  /** Settling a payment raises the revenue by exactly its price, whether or not the carts are cleared. */
  lemma SettleAddsRevenue(db: Db, payment: PaymentBody)
    ensures Revenue(Settlement.Settle(db, payment).db.payments) == Revenue(db.payments) + payment.price.GetOr(0.0)
  {
    RevenueAppend(db.payments, Doc(db.nextId, payment));
  }

  /** Revenue is 0 on an empty ledger and 25 after settling payments of 10 and 15. */
  lemma RevenueAfterTwoSettlements(db: Db, first: PaymentBody, second: PaymentBody)
    requires db.payments == []
    requires first.price == Some(10.0) && second.price == Some(15.0)
    ensures Revenue(db.payments) == 0.0
    ensures Revenue(Settlement.Settle(Settlement.Settle(db, first).db, second).db.payments) == 25.0
  {
    var once := Settlement.Settle(db, first).db;
    SettleAddsRevenue(db, first);
    SettleAddsRevenue(once, second);
  }

  /** The counts `estimatedDocumentCount` reports, read from collection metadata. */
  datatype Counts = Counts(users: nat, menuItems: nat, paymentItems: nat)

  /** The body of `GET /admin-stats`. */
  datatype AdminSummary = AdminSummary(users: nat, menuItems: nat, paymentItems: nat, revenue: real)

  /** The route `GET /admin-stats` behind `verifyToken` and `verifyAdmin`. */
  function AdminStatsRoute(db: Db, authorization: Option<string>, verify: Verifier, estimates: Counts)
    : (r: Response<AdminSummary>)
    ensures VerifyToken(authorization, verify).Deny? <==> r == Denied(Unauthorized)
    ensures r == Denied(Forbidden) <==>
      VerifyToken(authorization, verify).Admit? && !FirstUserIsAdmin(db.users, VerifyToken(authorization, verify).claims.email)
    ensures r.Ok? ==>
      && r.body.revenue == SumPrices(db.payments)
      && r.body.users == estimates.users
      && r.body.menuItems == estimates.menuItems
      && r.body.paymentItems == estimates.paymentItems
    ensures r.Ok? && db.payments == [] ==> r.body.revenue == 0.0
    ensures r != ServerError
  {
    match VerifyToken(authorization, verify)
    case Deny(d) => Denied(d)
    case Admit(claims) =>
      match VerifyAdmin(db.users, claims)
      case Deny(d) => Denied(d)
      case Admit(_) =>
        Ok(AdminSummary(estimates.users, estimates.menuItems, estimates.paymentItems, Revenue(db.payments)))
  }

  /** One document of the `/order-stats` answer: a payment unwound to one menu id, with its catalog matches. */
  datatype OrderRow = OrderRow(payment: Doc<PaymentBody>, menuId: Id, menuItems: seq<Doc<MenuBody>>)

  /** The `$lookup` sub-pipeline: the catalog entries whose `_id` equals the menu id, in catalog order. */
  function LookupMenu(menu: seq<Doc<MenuBody>>, id: Id): (items: seq<Doc<MenuBody>>)
    ensures forall i :: 0 <= i < |items| ==> items[i] in menu && items[i].id == id
    ensures forall i :: 0 <= i < |menu| && menu[i].id == id ==> menu[i] in items
    ensures |items| == 0 <==> id !in IdSet(menu)
  {
    var items := Filter(menu, (m: Doc<MenuBody>) => m.id == id);
    assert id in IdSet(menu) ==> |items| > 0 by {
      if id in IdSet(menu) {
        var i :| 0 <= i < |menu| && menu[i].id == id;
        assert menu[i] in items;
      }
    }
    assert |items| > 0 ==> id in IdSet(menu) by {
      if |items| > 0 {
        var i :| 0 <= i < |menu| && menu[i] == items[0];
      }
    }
    items
  }

  lemma FirstTwoIdsDiffer(docs: seq<Doc<MenuBody>>)
    requires UniqueIds(docs) && |docs| > 1
    ensures docs[0].id != docs[1].id
  {
  }

  /** A catalog with unique ids matches each menu id at most once. */
  lemma LookupAtMostOne(menu: seq<Doc<MenuBody>>, id: Id)
    requires UniqueIds(menu)
    ensures |LookupMenu(menu, id)| <= 1
  {
    var items := LookupMenu(menu, id);
    FilterUniqueIds(menu, (m: Doc<MenuBody>) => m.id == id);
    assert UniqueIds(items);
    assert forall i :: 0 <= i < |items| ==> items[i].id == id;
    if |items| > 1 {
      FirstTwoIdsDiffer(items);
      assert false;
    }
  }

  /** `$unwind: "$menuIds"` and `$lookup` for one payment. */
  function UnwindPayment(p: Doc<PaymentBody>, menu: seq<Doc<MenuBody>>): seq<OrderRow> {
    seq(|p.body.menuIds|, k requires 0 <= k < |p.body.menuIds| =>
      OrderRow(p, p.body.menuIds[k], LookupMenu(menu, p.body.menuIds[k])))
  }

  /** The number of menu ids referenced across the ledger. */
  function MenuRefCount(payments: seq<Doc<PaymentBody>>): nat
    decreases |payments|
  {
    if |payments| == 0 then 0 else |payments[0].body.menuIds| + MenuRefCount(payments[1..])
  }

  /** `GET /order-stats`: the unwound ledger joined against the catalog, payment by payment. */
  function OrderStats(payments: seq<Doc<PaymentBody>>, menu: seq<Doc<MenuBody>>): (rows: seq<OrderRow>)
    ensures |rows| == MenuRefCount(payments)
    decreases |payments|
  {
    if |payments| == 0 then []
    else UnwindPayment(payments[0], menu) + OrderStats(payments[1..], menu)
  }

  /** The join distributes over any split of the ledger. */
  lemma {:induction false} OrderStatsAppend(a: seq<Doc<PaymentBody>>, b: seq<Doc<PaymentBody>>, menu: seq<Doc<MenuBody>>)
    ensures OrderStats(a + b, menu) == OrderStats(a, menu) + OrderStats(b, menu)
    decreases |a|
  {
    if |a| == 0 {
      assert a + b == b;
    } else {
      assert (a + b)[1..] == a[1..] + b;
      assert (a + b)[0] == a[0];
      OrderStatsAppend(a[1..], b, menu);
    }
  }

  /** A payment that references no menu id contributes no row. */
  lemma EmptyMenuIdsContributeNothing(
    a: seq<Doc<PaymentBody>>, p: Doc<PaymentBody>, b: seq<Doc<PaymentBody>>, menu: seq<Doc<MenuBody>>)
    requires p.body.menuIds == []
    ensures OrderStats(a + [p] + b, menu) == OrderStats(a + b, menu)
  {
    OrderStatsAppend(a + [p], b, menu);
    OrderStatsAppend(a, [p], menu);
    OrderStatsAppend(a, b, menu);
    assert OrderStats([p], menu) == [] by {
      assert [p][1..] == [];
    }
  }

  /**
   Completeness and order: the k-th menu id of the i-th payment has its row
   right after the rows of the earlier payments, carrying the catalog matches
   of that id.
   */
  lemma {:induction false} OrderStatsRowAt(payments: seq<Doc<PaymentBody>>, menu: seq<Doc<MenuBody>>, i: nat, k: nat)
    requires i < |payments| && k < |payments[i].body.menuIds|
    ensures MenuRefCount(payments[..i]) + k < |OrderStats(payments, menu)|
    ensures OrderStats(payments, menu)[MenuRefCount(payments[..i]) + k]
      == OrderRow(payments[i], payments[i].body.menuIds[k], LookupMenu(menu, payments[i].body.menuIds[k]))
    decreases i
  {
    var rows := OrderStats(payments, menu);
    var head := UnwindPayment(payments[0], menu);
    assert rows == head + OrderStats(payments[1..], menu);
    if i == 0 {
      assert payments[..0] == [];
    } else {
      OrderStatsRowAt(payments[1..], menu, i - 1, k);
      assert payments[..i] == [payments[0]] + payments[1..][..i - 1];
      assert payments[..i][1..] == payments[1..][..i - 1];
    }
  }

  /** Soundness: every row comes from one menu id of one ledger payment. */
  lemma {:induction false} OrderStatsRowOrigin(payments: seq<Doc<PaymentBody>>, menu: seq<Doc<MenuBody>>, r: nat)
    requires r < |OrderStats(payments, menu)|
    ensures exists i, k :: (0 <= i < |payments| && 0 <= k < |payments[i].body.menuIds|
      && OrderStats(payments, menu)[r] == OrderRow(payments[i], payments[i].body.menuIds[k], LookupMenu(menu, payments[i].body.menuIds[k])))
    decreases |payments|
  {
    var head := UnwindPayment(payments[0], menu);
    var rows := OrderStats(payments, menu);
    assert rows == head + OrderStats(payments[1..], menu);
    if r < |head| {
      assert rows[r] == head[r];
    } else {
      OrderStatsRowOrigin(payments[1..], menu, r - |head|);
      var i, k :| 0 <= i < |payments[1..]| && 0 <= k < |payments[1..][i].body.menuIds|
        && OrderStats(payments[1..], menu)[r - |head|]
          == OrderRow(payments[1..][i], payments[1..][i].body.menuIds[k], LookupMenu(menu, payments[1..][i].body.menuIds[k]));
      assert payments[1..][i] == payments[i + 1];
      assert rows[r] == OrderStats(payments[1..], menu)[r - |head|];
    }
  }

  /** A menu id missing from the catalog still yields its row, with no catalog matches. */
  lemma UnknownMenuIdKeepsRow(payments: seq<Doc<PaymentBody>>, menu: seq<Doc<MenuBody>>, i: nat, k: nat)
    requires i < |payments| && k < |payments[i].body.menuIds|
    requires payments[i].body.menuIds[k] !in IdSet(menu)
    ensures MenuRefCount(payments[..i]) + k < |OrderStats(payments, menu)|
    ensures OrderStats(payments, menu)[MenuRefCount(payments[..i]) + k]
      == OrderRow(payments[i], payments[i].body.menuIds[k], [])
  {
    OrderStatsRowAt(payments, menu, i, k);
  }
}
