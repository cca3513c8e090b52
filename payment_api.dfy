/**
 * The payment handlers (server/api/v1/product/payment.go). GetPaymentMethod
 * sends the service's list or reports its error; SelectCoupon, as written,
 * repeats the add-to-cart handler step for step and never reaches the coupon
 * checks of the payment service.
 */
module PaymentApi {
  import opened Wrappers
  import opened GoRuntime
  import opened ProductService
  import opened ProductTables
  import opened PaymentService
  import opened ProductApi
  import opened Responses

  /**
   * GetPaymentMethod: a failed query becomes 404 INVALID_PARAMETER; otherwise
   * the active methods are sent in the service's order.
   */
  function GetPaymentMethodHandler(rows: seq<PaymentMethodRow>, queryFailed: bool): (r: Result<seq<PaymentMethodInfo>, Reply>)
    ensures r.Failure? <==> queryFailed
    ensures r.Failure? ==> r.error == FailCode(InvalidParameter, BadSkuIdFormat)
    ensures r.Success? ==> forall k :: 0 <= k < |r.value| ==> exists x :: x in rows && x.isActive && r.value[k] == InfoOf(x)
    ensures r.Success? ==> forall k :: 0 <= k < |rows| && rows[k].isActive ==> InfoOf(rows[k]) in r.value
    ensures r.Success? ==> |r.value| == |ActiveRows(rows)|
  {
    var result := GetPaymentMethod(rows, queryFailed);
    if result.1 then Failure(FailCode(InvalidParameter, BadSkuIdFormat))
    else
      ListedMethodsAreTheActiveOnes(rows);
      Success(result.0.items)
  }

  /** The listed methods are the active rows: each listed one is active, each active one listed, and as many as there are active rows. */
  lemma ListedMethodsAreTheActiveOnes(rows: seq<PaymentMethodRow>)
    ensures var items := GetPaymentMethod(rows, false).0.items;
      && (forall k :: 0 <= k < |items| ==> exists x :: x in rows && x.isActive && items[k] == InfoOf(x))
      && (forall k :: 0 <= k < |rows| && rows[k].isActive ==> InfoOf(rows[k]) in items)
      && |items| == |ActiveRows(rows)|
  {
    PaymentMethodsAreActiveAndOrdered(rows);
    var ordered := OrderBySortOrder(ActiveRows(rows));
    var items := Project(ordered);
    assert |ordered| == |ActiveRows(rows)| by {
      assert multiset(ordered) == multiset(ActiveRows(rows));
      assert |multiset(ordered)| == |multiset(ActiveRows(rows))|;
    }
    forall k | 0 <= k < |items| ensures exists x :: x in rows && x.isActive && items[k] == InfoOf(x) {
      assert ordered[k] in ordered;
    }
    forall k | 0 <= k < |rows| && rows[k].isActive ensures InfoOf(rows[k]) in items {
      var j :| 0 <= j < |ordered| && ordered[j] == rows[k];
      assert items[j] == InfoOf(rows[k]);
    }
  }

  /**
   * SelectCoupon as written: a non-empty sku_id, the quantity (1 when empty,
   * at least 1), then the add-to-cart service; ProductNotFound is NOT_FOUND and
   * any other error writes nothing. The steps are written out as the source
   * repeats them, so that the ensures proves the two endpoints coincide.
   */
  function SelectCouponHandler(skus: set<SkuId>, inventory: map<SkuId, Stock>, cart: seq<CartRow>,
                               user: UserId, skuId: string, quantity: string): (r: (Reply, seq<CartRow>))
    ensures r == AddItemsIntoCartHandler(skus, inventory, cart, user, skuId, quantity)
  {
    if skuId == "" then (FailCode(InvalidParameter, SkuRequired), cart)
    else
      var q := if quantity == "" then Some(1) else match Atoi(quantity)
        case Failure(_) => None
        case Success(v) => if v < 1 then None else Some(v);
      match q
      case None => (FailCode(InvalidParameter, BadQuantity), cart)
      case Some(n) =>
        var step := CartAdd(skus, inventory, cart, user, skuId, n);
        if step.0 == Some(ProductNotFound) then (FailCode(NotFound, SkuMissing), cart)
        else if step.0.Some? then (NoReply, cart)
        else (OkReply, step.1)
  }

  /** As written, selecting a coupon puts one more of the SKU into the cart whenever stock allows. */
  lemma SelectCouponAddsToCart(skus: set<SkuId>, inventory: map<SkuId, Stock>, cart: seq<CartRow>,
                                user: UserId, skuId: string)
    requires skuId != "" && skuId in skus
    requires 0 <= QuantityOf(cart, user, skuId) < AvailableIn(inventory, skuId)
    ensures SelectCouponHandler(skus, inventory, cart, user, skuId, "").0 == OkReply
    ensures QuantityOf(SelectCouponHandler(skus, inventory, cart, user, skuId, "").1, user, skuId) == QuantityOf(cart, user, skuId) + 1
  {
  }
}
