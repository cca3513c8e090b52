/**
 * The payment service (server/service/product/paymant.go): the list of active
 * payment methods, and the SelectCoupon check chain. Both only read. Query
 * results are inputs; a query that fails is a flag. Amounts compare as reals
 * (a float64 comparison of finite values), times as ordered integers.
 */
module PaymentService {
  import opened Wrappers

  // ---------------------------------------------------------------------------
  // GetPaymentMethod

  /** A row of payment_methods. */
  datatype PaymentMethodRow = PaymentMethodRow(
    id: int, methodCode: string, name: string, description: Option<string>,
    isActive: bool, sortOrder: int)

  /** What the endpoint returns per method (dto.PaymentMethodInfo). */
  datatype PaymentMethodInfo = PaymentMethodInfo(
    methodId: int, methodCode: string, name: string, description: Option<string>)

  function InfoOf(row: PaymentMethodRow): PaymentMethodInfo
  {
    PaymentMethodInfo(row.id, row.methodCode, row.name, row.description)
  }

  /** WHERE is_active = true. */
  function ActiveRows(rows: seq<PaymentMethodRow>): (r: seq<PaymentMethodRow>)
    ensures forall x :: x in r ==> x.isActive && x in rows
    ensures forall k :: 0 <= k < |rows| && rows[k].isActive ==> rows[k] in r
    ensures multiset(r) <= multiset(rows)
  {
    if rows == [] then []
    else
      var rest := ActiveRows(rows[1..]);
      assert rows == [rows[0]] + rows[1..];
      if rows[0].isActive then [rows[0]] + rest else rest
  }

  /** The filter keeps every active row as often as the table holds it, and drops every other row. */
  lemma {:induction false} ActiveRowsMultiplicity(rows: seq<PaymentMethodRow>)
    ensures forall x :: multiset(ActiveRows(rows))[x] == if x.isActive then multiset(rows)[x] else 0
  {
    if rows != [] {
      ActiveRowsMultiplicity(rows[1..]);
      assert rows == [rows[0]] + rows[1..];
    }
  }

  predicate SortedBySortOrder(rows: seq<PaymentMethodRow>)
  {
    forall i, j :: 0 <= i < j < |rows| ==> rows[i].sortOrder <= rows[j].sortOrder
  }

  /** Inserts x before the first row whose sort order is not below x's. */
  function InsertBySortOrder(x: PaymentMethodRow, rows: seq<PaymentMethodRow>): seq<PaymentMethodRow>
  {
    if rows == [] || x.sortOrder <= rows[0].sortOrder then [x] + rows
    else [rows[0]] + InsertBySortOrder(x, rows[1..])
  }

  /** Inserting adds one element, and only x. */
  lemma {:induction false} InsertAddsOnlyX(x: PaymentMethodRow, rows: seq<PaymentMethodRow>)
    ensures var r := InsertBySortOrder(x, rows);
      |r| == |rows| + 1 && forall k :: 0 <= k < |r| ==> r[k] == x || r[k] in rows
  {
    var r := InsertBySortOrder(x, rows);
    if rows == [] || x.sortOrder <= rows[0].sortOrder {
      forall k | 0 < k < |r| ensures r[k] in rows {
        assert r[k] == rows[k - 1];
      }
    } else {
      var tail := rows[1..];
      InsertAddsOnlyX(x, tail);
      var rest := InsertBySortOrder(x, tail);
      forall k | 0 < k < |r| ensures r[k] == x || r[k] in rows {
        assert r[k] == rest[k - 1];
        assert r[k] == x || r[k] in tail;
      }
    }
  }

  /** A row no later than every row of a sorted list can go in front of it. */
  lemma PrependKeepsSorted(y: PaymentMethodRow, rest: seq<PaymentMethodRow>)
    requires SortedBySortOrder(rest)
    requires forall k :: 0 <= k < |rest| ==> y.sortOrder <= rest[k].sortOrder
    ensures SortedBySortOrder([y] + rest)
  {
    var r := [y] + rest;
    forall i, j | 0 <= i < j < |r| ensures r[i].sortOrder <= r[j].sortOrder {
      assert r[j] == rest[j - 1];
      if i > 0 {
        assert r[i] == rest[i - 1];
      }
    }
  }

  /** Inserting into a sorted list keeps it sorted. */
  lemma {:induction false} InsertKeepsSorted(x: PaymentMethodRow, rows: seq<PaymentMethodRow>)
    requires SortedBySortOrder(rows)
    ensures SortedBySortOrder(InsertBySortOrder(x, rows))
  {
    if rows == [] || x.sortOrder <= rows[0].sortOrder {
      assert forall k :: 0 <= k < |rows| ==> x.sortOrder <= rows[k].sortOrder by {
        forall k | 0 < k < |rows| ensures x.sortOrder <= rows[k].sortOrder {
          assert rows[0].sortOrder <= rows[k].sortOrder;
        }
      }
      PrependKeepsSorted(x, rows);
    } else {
      var tail := rows[1..];
      InsertKeepsSorted(x, tail);
      InsertAddsOnlyX(x, tail);
      var rest := InsertBySortOrder(x, tail);
      forall k | 0 <= k < |rest| ensures rows[0].sortOrder <= rest[k].sortOrder {
        if rest[k] != x {
          var j :| 0 <= j < |tail| && tail[j] == rest[k];
          assert rows[j + 1] == rest[k];
        }
      }
      PrependKeepsSorted(rows[0], rest);
    }
  }

  /** Inserting adds exactly one occurrence of x. */
  lemma {:induction false} InsertIsPermutation(x: PaymentMethodRow, rows: seq<PaymentMethodRow>)
    ensures multiset(InsertBySortOrder(x, rows)) == multiset(rows) + multiset{x}
  {
    if rows != [] && x.sortOrder > rows[0].sortOrder {
      InsertIsPermutation(x, rows[1..]);
      assert rows == [rows[0]] + rows[1..];
    }
  }

  /** ORDER BY sort_order ASC: the same rows, ascending by sort order. */
  function OrderBySortOrder(rows: seq<PaymentMethodRow>): (r: seq<PaymentMethodRow>)
    ensures SortedBySortOrder(r)
    ensures multiset(r) == multiset(rows)
  {
    if rows == [] then []
    else
      var rest := OrderBySortOrder(rows[1..]);
      InsertKeepsSorted(rows[0], rest);
      InsertIsPermutation(rows[0], rest);
      assert rows == [rows[0]] + rows[1..];
      InsertBySortOrder(rows[0], rest)
  }

  /**
   * GetPaymentMethod: the active methods in ascending sort order. The list is
   * never nil: a failed query and an empty result both give `[]`. The flag
   * reports the failure.
   */
  function GetPaymentMethod(rows: seq<PaymentMethodRow>, queryFailed: bool): (r: (Slice<PaymentMethodInfo>, bool))
    ensures r.0.Items?
    ensures r.1 == queryFailed
    ensures queryFailed ==> r.0.items == []
    ensures !queryFailed ==> r.0.items == Project(OrderBySortOrder(ActiveRows(rows)))
    ensures (forall k :: 0 <= k < |rows| ==> !rows[k].isActive) ==> r.0 == Items([])
  {
    if queryFailed then (Items([]), true)
    else
      assert ActiveRows(rows) != [] ==> ActiveRows(rows)[0] in rows;
      var scanned := if ActiveRows(rows) == [] then Nil else Items(Project(OrderBySortOrder(ActiveRows(rows))));
      var results := if scanned.Nil? then Items([]) else scanned;
      (results, false)
  }

  function Project(rows: seq<PaymentMethodRow>): (r: seq<PaymentMethodInfo>)
    ensures |r| == |rows|
    ensures forall k :: 0 <= k < |rows| ==> r[k] == InfoOf(rows[k])
  {
    seq(|rows|, k requires 0 <= k < |rows| => InfoOf(rows[k]))
  }

  /** The list holds each active method as often as the table does, and no other. */
  lemma PaymentMethodMultiplicity(rows: seq<PaymentMethodRow>)
    ensures var ordered := OrderBySortOrder(ActiveRows(rows));
      forall x :: multiset(ordered)[x] == if x.isActive then multiset(rows)[x] else 0
  {
    ActiveRowsMultiplicity(rows);
    assert multiset(OrderBySortOrder(ActiveRows(rows))) == multiset(ActiveRows(rows));
  }

  /** The list holds exactly the active methods, in ascending sort order. */
  lemma PaymentMethodsAreActiveAndOrdered(rows: seq<PaymentMethodRow>)
    ensures var ordered := OrderBySortOrder(ActiveRows(rows));
      && GetPaymentMethod(rows, false).0.items == Project(ordered)
      && SortedBySortOrder(ordered)
      && (forall x :: x in ordered ==> x.isActive && x in rows)
      && (forall k :: 0 <= k < |rows| && rows[k].isActive ==> rows[k] in ordered)
  {
    var active := ActiveRows(rows);
    var ordered := OrderBySortOrder(active);
    forall x | x in ordered ensures x.isActive && x in rows {
      assert x in multiset(ordered);
      assert x in multiset(active);
      assert x in multiset(rows);
    }
    forall k | 0 <= k < |rows| && rows[k].isActive ensures rows[k] in ordered {
      assert rows[k] in multiset(active);
    }
  }

  // ---------------------------------------------------------------------------
  // SelectCoupon

  /** A row of checkout_sessions, as far as it is scanned. */
  datatype Session = Session(user: nat, usedPoints: int, pointsDiscountAmount: real, shippingFee: real)

  /** A row of conpons, as far as the checks read it. */
  datatype Coupon = Coupon(code: string, isActive: bool, minPurchase: real, startDate: int, endDate: int)

  /** Go's zero time.Time, as seconds before the Unix epoch (0001-01-01 UTC). */
  const ZeroTime: int := -62135596800

  const ZeroSession := Session(0, 0, 0.0, 0.0)
  const ZeroCoupon := Coupon("", false, 0.0, ZeroTime, ZeroTime)

  /** The errors SelectCoupon returns. */
  datatype CouponError =
    | SessionQueryFailed      // the session query's own error
    | ConponNotFound          // ErrConponNotFound: the coupon query failed
    | CouponInvalid           // ErrCouponInvalid: not active
    | CouponExpired           // ErrCouponExpired: outside the validity window
    | CouponMinPurchaseNotMet // ErrCouponMinPurchaseNotMet
    | CountQueryFailed        // the final count query's own error

  /** Which of SelectCoupon's three queries fail. */
  datatype QueryFailures = QueryFailures(session: bool, coupon: bool, count: bool)

  /** Scan into a struct: the user's first session, or the zero value when there is none. */
  function SessionOf(sessions: seq<Session>, user: nat): (s: Session)
    ensures (exists k :: 0 <= k < |sessions| && sessions[k].user == user) ==> s.user == user && s in sessions
    ensures (forall k :: 0 <= k < |sessions| ==> sessions[k].user != user) ==> s == ZeroSession
  {
    if sessions == [] then ZeroSession
    else if sessions[0].user == user then sessions[0]
    else
      assert forall k :: 1 <= k < |sessions| ==> sessions[k] == sessions[1..][k - 1];
      SessionOf(sessions[1..], user)
  }

  /** Scan into a struct of all columns: the first coupon with the code, or the zero value. */
  function CouponOf(coupons: seq<Coupon>, code: string): (c: Coupon)
    ensures (exists k :: 0 <= k < |coupons| && coupons[k].code == code) ==> c.code == code && c in coupons
    ensures (forall k :: 0 <= k < |coupons| ==> coupons[k].code != code) ==> c == ZeroCoupon
  {
    if coupons == [] then ZeroCoupon
    else if coupons[0].code == code then coupons[0]
    else
      assert forall k :: 1 <= k < |coupons| ==> coupons[k] == coupons[1..][k - 1];
      CouponOf(coupons[1..], code)
  }

  /** A coupon is within its validity window at `now`, both ends included. */
  predicate InWindow(c: Coupon, now: int)
  {
    c.startDate <= now <= c.endDate
  }

  /** The check chain on the scanned values, in the source's order. */
  function CheckCoupon(session: Session, coupon: Coupon, now: int): (r: Option<CouponError>)
    ensures r.None? <==> coupon.isActive && InWindow(coupon, now) && session.pointsDiscountAmount >= coupon.minPurchase
    ensures r == Some(CouponInvalid) <==> !coupon.isActive
    ensures r == Some(CouponExpired) <==> coupon.isActive && !InWindow(coupon, now)
    ensures r == Some(CouponMinPurchaseNotMet) <==>
      coupon.isActive && InWindow(coupon, now) && session.pointsDiscountAmount < coupon.minPurchase
    ensures r != Some(SessionQueryFailed) && r != Some(ConponNotFound) && r != Some(CountQueryFailed)
  {
    if !coupon.isActive then Some(CouponInvalid)
    else if now > coupon.endDate || now < coupon.startDate then Some(CouponExpired)
    else if session.pointsDiscountAmount < coupon.minPurchase then Some(CouponMinPurchaseNotMet)
    else None
  }

  /** SelectCoupon around a given coupon scan: session query, coupon query, checks, count query. */
  function SelectCouponWith(session: Session, coupon: Coupon, now: int, fails: QueryFailures): Option<CouponError>
  {
    if fails.session then Some(SessionQueryFailed)
    else if fails.coupon then Some(ConponNotFound)
    else match CheckCoupon(session, coupon, now)
      case Some(e) => Some(e)
      case None => if fails.count then Some(CountQueryFailed) else None
  }

  /**
   * The coupon as the written query scans it. Only the column conpon_code is
   * selected, and under GORM's default naming no field of the struct maps to
   * it (CouponCode maps to coupon_code), so every field keeps its zero value,
   * whichever coupons there are.
   */
  function CouponAsQueried(coupons: seq<Coupon>, code: string): (c: Coupon)
    ensures !c.isActive && c.code == ""
    ensures c.startDate == c.endDate == ZeroTime && c.minPurchase == 0.0
  {
    ZeroCoupon
  }

  /** SelectCoupon as written. None means the call returned no error (with an empty response). */
  function SelectCouponAsWritten(sessions: seq<Session>, coupons: seq<Coupon>, user: nat, code: string,
                                 now: int, fails: QueryFailures): Option<CouponError>
  {
    SelectCouponWith(SessionOf(sessions, user), CouponAsQueried(coupons, code), now, fails)
  }

  /** As written, no coupon ever passes: without the is_active column every coupon reads as inactive. */
  lemma SelectCouponAsWrittenNeverPasses(sessions: seq<Session>, coupons: seq<Coupon>, user: nat, code: string,
                                         now: int, fails: QueryFailures)
    ensures SelectCouponAsWritten(sessions, coupons, user, code, now, fails).Some?
    ensures !fails.session && !fails.coupon ==>
      SelectCouponAsWritten(sessions, coupons, user, code, now, fails) == Some(CouponInvalid)
  {
  }

  /** SelectCoupon reading all the coupon's columns, as the checks evidently intend. */
  function SelectCoupon(sessions: seq<Session>, coupons: seq<Coupon>, user: nat, code: string,
                        now: int, fails: QueryFailures): (r: Option<CouponError>)
    ensures fails.session ==> r == Some(SessionQueryFailed)
    ensures !fails.session && fails.coupon ==> r == Some(ConponNotFound)
  {
    SelectCouponWith(SessionOf(sessions, user), CouponOf(coupons, code), now, fails)
  }

  /**
   * A coupon passes exactly when every query succeeds, the user's session
   * exists and its points discount reaches the minimum, and the code names an
   * active coupon whose window contains `now`.
   */
  lemma SelectCouponPassesIff(sessions: seq<Session>, coupons: seq<Coupon>, user: nat, code: string,
                              now: int, fails: QueryFailures)
    requires exists k :: 0 <= k < |coupons| && coupons[k].code == code
    ensures var c := CouponOf(coupons, code);
      SelectCoupon(sessions, coupons, user, code, now, fails).None? <==>
        && !fails.session && !fails.coupon && !fails.count
        && c.isActive && c.startDate <= now <= c.endDate
        && SessionOf(sessions, user).pointsDiscountAmount >= c.minPurchase
  {
  }

  /** A code that names no coupon scans as the zero row, which is inactive: CouponInvalid, not ConponNotFound. */
  lemma UnknownCodeIsInvalid(sessions: seq<Session>, coupons: seq<Coupon>, user: nat, code: string,
                             now: int, fails: QueryFailures)
    requires forall k :: 0 <= k < |coupons| ==> coupons[k].code != code
    requires !fails.session && !fails.coupon
    ensures SelectCoupon(sessions, coupons, user, code, now, fails) == Some(CouponInvalid)
  {
  }

  /** The validity window is inclusive: a coupon is not expired at its start or its end instant. */
  lemma WindowEndsAreValid(session: Session, coupon: Coupon)
    requires coupon.isActive && coupon.startDate <= coupon.endDate
    ensures CheckCoupon(session, coupon, coupon.startDate) != Some(CouponExpired)
    ensures CheckCoupon(session, coupon, coupon.endDate) != Some(CouponExpired)
    ensures CheckCoupon(session, coupon, coupon.endDate + 1) == Some(CouponExpired)
    ensures CheckCoupon(session, coupon, coupon.startDate - 1) == Some(CouponExpired)
  {
  }

  /** Without a session row the points discount is zero, so any positive minimum is not met. */
  lemma NoSessionMeansMinimumNotMet(sessions: seq<Session>, coupons: seq<Coupon>, user: nat, code: string,
                                    now: int, fails: QueryFailures)
    requires forall k :: 0 <= k < |sessions| ==> sessions[k].user != user
    requires !fails.session && !fails.coupon
    requires var c := CouponOf(coupons, code); c.isActive && InWindow(c, now) && c.minPurchase > 0.0
    ensures SelectCoupon(sessions, coupons, user, code, now, fails) == Some(CouponMinPurchaseNotMet)
  {
  }
}
