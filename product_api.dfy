/**
 * The product handlers (server/api/v1/product/product.go): how each one reads
 * and checks its query parameters, in which order, and which reply each
 * service error becomes. A handler's check chain is a function from the raw
 * parameters to either the reply that rejects the request or the validated
 * arguments of the service call; the sort whitelist is checked by a loop.
 * Services this model does not cover are represented by their outcome, an
 * optional ServiceError passed in.
 */
module ProductApi {
  import opened Wrappers
  import opened GoRuntime
  import opened ProductService
  import opened ProductTables
  import opened Responses

  // ---------------------------------------------------------------------------
  // Integer query parameters

  /**
   * An optional integer parameter: empty gives the default; otherwise
   * strconv.Atoi must succeed and the value lie in lo..hi (no upper bound
   * when hi is None).
   */
  function IntParam(raw: string, default: int, lo: int, hi: Option<int>): (r: Option<int>)
    ensures raw == "" ==> r == Some(default)
    ensures raw != "" ==>
      (r.Some? <==> Atoi(raw).Success? && lo <= Atoi(raw).value && (hi.None? || Atoi(raw).value <= hi.value))
    ensures raw != "" && r.Some? ==> r.value == Atoi(raw).value
    ensures raw != "" && r.Some? ==>
      Atoi(raw) == Success(r.value) && lo <= r.value && (hi.None? || r.value <= hi.value)
    ensures raw != "" && Atoi(raw).Failure? ==> r.None?
  {
    if raw == "" then Some(default)
    else
      match Atoi(raw)
      case Failure(_) => None
      case Success(v) => if v < lo || (hi.Some? && v > hi.value) then None else Some(v)
  }

  /** A 64-bit number written in decimal is accepted exactly when it lies in the range, and read back unchanged. */
  lemma IntParamOfItoa(n: int, default: int, lo: int, hi: Option<int>)
    requires MinInt64 <= n <= MaxInt64
    ensures IntParam(Itoa(n), default, lo, hi) == if lo <= n && (hi.None? || n <= hi.value) then Some(n) else None
  {
    AtoiItoa(n);
  }

  /** page: 1 when empty, otherwise a number of at least 1. */
  function PageParam(raw: string): (r: Option<int>)
    ensures raw == "" ==> r == Some(1)
    ensures r.Some? ==> 1 <= r.value <= MaxInt64
  {
    IntParam(raw, 1, 1, None)
  }

  /** limit of the paged lists: 10 when empty, otherwise 1..100. */
  function LimitParam(raw: string): (r: Option<int>)
    ensures raw == "" ==> r == Some(10)
    ensures r.Some? ==> 1 <= r.value <= 100
  {
    IntParam(raw, 10, 1, Some(100))
  }

  /** limit of the related products: 5 when empty, otherwise 1..10. */
  function RelatedLimitParam(raw: string): (r: Option<int>)
    ensures raw == "" ==> r == Some(5)
    ensures r.Some? ==> 1 <= r.value <= 10
  {
    IntParam(raw, 5, 1, Some(10))
  }

  /** limit of the coordinate sets: 4 when empty, otherwise 1..5. */
  function CoordinateLimitParam(raw: string): (r: Option<int>)
    ensures raw == "" ==> r == Some(4)
    ensures r.Some? ==> 1 <= r.value <= 5
  {
    IntParam(raw, 4, 1, Some(5))
  }

  /** rating: 0 (no filter) when empty, otherwise a star count 1..5. */
  function RatingParam(raw: string): (r: Option<int>)
    ensures raw == "" ==> r == Some(0)
    ensures r.Some? ==> r.value == 0 || 1 <= r.value <= 5
  {
    IntParam(raw, 0, 1, Some(5))
  }

  /** quantity: 1 when empty, otherwise a number of at least 1. */
  function QuantityParam(raw: string): (r: Option<int>)
    ensures raw == "" ==> r == Some(1)
    ensures r.Some? ==> 1 <= r.value <= MaxInt64
  {
    IntParam(raw, 1, 1, None)
  }

  /** An accepted rating filters the reviews exactly when the parameter was given. */
  lemma RatingFiltersWhenGiven(raw: string)
    requires RatingParam(raw).Some?
    ensures RatingFilter(RatingParam(raw).value).Some? <==> raw != ""
    ensures raw != "" ==> RatingFilter(RatingParam(raw).value) == Some(Atoi(raw).value)
  {
  }

  // ---------------------------------------------------------------------------
  // The sort parameter

  const ReviewSorts: seq<string> := ["newest", "oldest", "highest_rating", "lowest_rating", "most_helpful"]
  const QandASorts: seq<string> := ["newest", "oldest", "most_helpful"]
  const FavouriteSorts: seq<string> := ["newest", "oldest"]

  /** The isValidSort loop: whether the key is one of the options. */
  method IsValidSort(sort: string, options: seq<string>) returns (valid: bool)
    ensures valid <==> sort in options
  {
    valid := false;
    for i := 0 to |options|
      invariant !valid
      invariant sort !in options[..i]
    {
      if sort == options[i] {
        valid := true;
        break;
      }
    }
  }

  /** sort: "newest" when empty; then it must be one of the endpoint's options. */
  function SortParam(raw: string, options: seq<string>): (r: Option<string>)
    ensures r.Some? ==> r.value in options
    ensures r.Some? && raw != "" ==> r.value == raw
    ensures r.None? <==> (if raw == "" then "newest" else raw) !in options
  {
    var sort := if raw == "" then "newest" else raw;
    if sort in options then Some(sort) else None
  }

  /** Every accepted review sort reaches its own case of the service's switch: no two share an order. */
  lemma ReviewSortsAreDistinctOrders()
    ensures forall i, j :: 0 <= i < j < |ReviewSorts| ==> ReviewOrder(ReviewSorts[i]) != ReviewOrder(ReviewSorts[j])
    ensures forall i, j :: 0 <= i < j < |QandASorts| ==> QandAOrder(QandASorts[i]) != QandAOrder(QandASorts[j])
    ensures forall i, j :: 0 <= i < j < |FavouriteSorts| ==> FavouriteOrder(FavouriteSorts[i]) != FavouriteOrder(FavouriteSorts[j])
  {
  }

  // ---------------------------------------------------------------------------
  // GetUserReviews

  datatype ReviewsQuery = ReviewsQuery(productCode: string, page: int, limit: int, rating: int, sort: string)

  /** A product code must be present and at least 7 bytes long. */
  predicate LongEnough(productCode: string)
  {
    ByteLen(productCode) >= 7
  }

  /**
   * GetUserReviews' checks, in order: page, limit, rating, sort, then the
   * product code (present, at least 7 bytes). Every rejection is a 404
   * INVALID_PARAMETER.
   */
  function ReviewsRequest(productCode: string, page: string, limit: string, rating: string, sort: string): (r: Result<ReviewsQuery, Reply>)
    ensures r.Success? ==>
      && r.value.page >= 1 && 1 <= r.value.limit <= 100
      && (r.value.rating == 0 || 1 <= r.value.rating <= 5)
      && r.value.sort in ReviewSorts
      && r.value.productCode == productCode && LongEnough(productCode)
    ensures r.Success? <==>
      && PageParam(page).Some? && LimitParam(limit).Some? && RatingParam(rating).Some?
      && SortParam(sort, ReviewSorts).Some? && LongEnough(productCode)
    ensures r.Success? ==> r.value == ReviewsQuery(productCode, PageParam(page).value, LimitParam(limit).value,
                                                   RatingParam(rating).value, SortParam(sort, ReviewSorts).value)
    ensures r.Failure? ==> r.error.FailCode? && r.error.code == InvalidParameter
  {
    match PageParam(page)
    case None => Failure(FailCode(InvalidParameter, BadPage))
    case Some(p) =>
      match LimitParam(limit)
      case None => Failure(FailCode(InvalidParameter, BadLimit))
      case Some(l) =>
        match RatingParam(rating)
        case None => Failure(FailCode(InvalidParameter, BadRating))
        case Some(rt) =>
          match SortParam(sort, ReviewSorts)
          case None => Failure(FailCode(InvalidParameter, BadSort))
          case Some(s) =>
            if productCode == "" then Failure(FailCode(InvalidParameter, BadProductIdentifier))
            else if !LongEnough(productCode) then Failure(FailCode(InvalidParameter, ShortProductCode))
            else Success(ReviewsQuery(productCode, p, l, rt, s))
  }

  /** The handler's own steps, with the whitelist loop; it decides as ReviewsRequest does. */
  method GetUserReviewsRequest(productCode: string, page: string, limit: string, rating: string, sort: string)
    returns (r: Result<ReviewsQuery, Reply>)
    ensures r == ReviewsRequest(productCode, page, limit, rating, sort)
  {
    var pageInt := PageParam(page);
    if pageInt.None? {
      return Failure(FailCode(InvalidParameter, BadPage));
    }
    var limitInt := LimitParam(limit);
    if limitInt.None? {
      return Failure(FailCode(InvalidParameter, BadLimit));
    }
    var ratingInt := RatingParam(rating);
    if ratingInt.None? {
      return Failure(FailCode(InvalidParameter, BadRating));
    }
    var key := sort;
    if key == "" {
      key := "newest";
    }
    var valid := IsValidSort(key, ReviewSorts);
    if !valid {
      return Failure(FailCode(InvalidParameter, BadSort));
    }
    if productCode == "" {
      return Failure(FailCode(InvalidParameter, BadProductIdentifier));
    }
    if ByteLen(productCode) < 7 {
      return Failure(FailCode(InvalidParameter, ShortProductCode));
    }
    r := Success(ReviewsQuery(productCode, pageInt.value, limitInt.value, ratingInt.value, key));
  }

  /** GetUserReviews' reply to the service's outcome. */
  function ReviewsReply(outcome: Option<ServiceError>): (r: Reply)
    ensures r == OkReply <==> outcome.None?
    ensures outcome == Some(ProductNotFound) ==> r == FailCode(NotFound, ProductMissing)
    ensures outcome.Some? && outcome != Some(ProductNotFound) ==> r == FailCode(InvalidParameter, BadProductIdentifier)
  {
    match outcome
    case None => OkReply
    case Some(ProductNotFound) => FailCode(NotFound, ProductMissing)
    case Some(_) => FailCode(InvalidParameter, BadProductIdentifier)
  }

  /** A bad sort key is reported before the product code is looked at, even an empty one. */
  lemma ReviewsSortCheckedBeforeProductCode(productCode: string, page: string, limit: string, rating: string, sort: string)
    requires PageParam(page).Some? && LimitParam(limit).Some? && RatingParam(rating).Some?
    requires SortParam(sort, ReviewSorts).None?
    ensures ReviewsRequest(productCode, page, limit, rating, sort) == Failure(FailCode(InvalidParameter, BadSort))
  {
  }

  /** With every parameter left out, the request asks for page 1 of 10 newest reviews with no rating filter. */
  lemma ReviewsDefaults(productCode: string)
    requires LongEnough(productCode)
    ensures ReviewsRequest(productCode, "", "", "", "") == Success(ReviewsQuery(productCode, 1, 10, 0, "newest"))
  {
    ByteLenBounds(productCode);
  }

  /** The length check counts bytes: three three-byte characters pass it. */
  lemma ProductCodeLengthCountsBytes()
    ensures LongEnough("\U{3042}\U{3044}\U{3046}")
    ensures !LongEnough("ABC123")
  {
    var s := "\U{3042}\U{3044}\U{3046}";
    assert s[..2][..1] == s[..1] && s[..3] == s;
    assert ByteLen(s[..1]) == 3;
    ByteLenBounds("ABC123");
  }

  // ---------------------------------------------------------------------------
  // GetUserQandAs

  datatype QandAQuery = QandAQuery(productCode: string, page: int, limit: int, sort: string)

  /**
   * GetUserQandAs' checks: page, limit, sort, then the product code. An empty
   * code is reported as NOT_FOUND, a short one as INVALID_PARAMETER.
   */
  function QandARequest(productCode: string, page: string, limit: string, sort: string): (r: Result<QandAQuery, Reply>)
    ensures r.Success? ==>
      && r.value.page >= 1 && 1 <= r.value.limit <= 100 && r.value.sort in QandASorts
      && r.value.productCode == productCode && LongEnough(productCode)
    ensures r.Success? <==>
      PageParam(page).Some? && LimitParam(limit).Some? && SortParam(sort, QandASorts).Some? && LongEnough(productCode)
    ensures r.Success? ==>
      r.value == QandAQuery(productCode, PageParam(page).value, LimitParam(limit).value, SortParam(sort, QandASorts).value)
    ensures r.Failure? ==> r.error.FailCode?
    ensures r.Failure? && r.error.code == NotFound <==>
      PageParam(page).Some? && LimitParam(limit).Some? && SortParam(sort, QandASorts).Some? && productCode == ""
  {
    match PageParam(page)
    case None => Failure(FailCode(InvalidParameter, BadPage))
    case Some(p) =>
      match LimitParam(limit)
      case None => Failure(FailCode(InvalidParameter, BadLimit))
      case Some(l) =>
        match SortParam(sort, QandASorts)
        case None => Failure(FailCode(InvalidParameter, BadSort))
        case Some(s) =>
          if productCode == "" then Failure(FailCode(NotFound, ProductMissing))
          else if !LongEnough(productCode) then Failure(FailCode(InvalidParameter, ShortProductCode))
          else Success(QandAQuery(productCode, p, l, s))
  }

  /** The handler's own steps, with the whitelist loop; it decides as QandARequest does. */
  method GetUserQandAsRequest(productCode: string, page: string, limit: string, sort: string)
    returns (r: Result<QandAQuery, Reply>)
    ensures r == QandARequest(productCode, page, limit, sort)
  {
    var pageInt := PageParam(page);
    if pageInt.None? {
      return Failure(FailCode(InvalidParameter, BadPage));
    }
    var limitInt := LimitParam(limit);
    if limitInt.None? {
      return Failure(FailCode(InvalidParameter, BadLimit));
    }
    var key := sort;
    if key == "" {
      key := "newest";
    }
    var valid := IsValidSort(key, QandASorts);
    if !valid {
      return Failure(FailCode(InvalidParameter, BadSort));
    }
    if productCode == "" {
      return Failure(FailCode(NotFound, ProductMissing));
    }
    if ByteLen(productCode) < 7 {
      return Failure(FailCode(InvalidParameter, ShortProductCode));
    }
    r := Success(QandAQuery(productCode, pageInt.value, limitInt.value, key));
  }

  /** GetUserQandAs' reply: ProductNotFound becomes INVALID_PARAMETER and any other error NOT_FOUND. */
  function QandAReply(outcome: Option<ServiceError>): (r: Reply)
    ensures r == OkReply <==> outcome.None?
    ensures outcome == Some(ProductNotFound) ==> r == FailCode(InvalidParameter, BadProductIdentifier)
    ensures outcome.Some? && outcome != Some(ProductNotFound) ==> r == FailCode(NotFound, ProductMissing)
  {
    match outcome
    case None => OkReply
    case Some(ProductNotFound) => FailCode(InvalidParameter, BadProductIdentifier)
    case Some(_) => FailCode(NotFound, ProductMissing)
  }

  /** Q&A accepts fewer sort keys than reviews: every Q&A key is a review key, and "highest_rating" is not a Q&A key. */
  lemma QandASortsAreReviewSorts()
    ensures forall s :: s in QandASorts ==> s in ReviewSorts
    ensures "highest_rating" in ReviewSorts && "highest_rating" !in QandASorts
    ensures forall s :: s in FavouriteSorts ==> s in QandASorts
  {
  }

  // ---------------------------------------------------------------------------
  // GetFavouriteSkuList and GetViewedHistory

  datatype PageQuery = PageQuery(page: int, limit: int, sort: string)

  /**
   * GetFavouriteSkuList's checks: page and limit (404 INVALID_PARAMETER), then
   * sort among "newest" and "oldest", rejected with FailWithMes (HTTP 200, code 7).
   */
  function FavouritesRequest(page: string, limit: string, sort: string): (r: Result<PageQuery, Reply>)
    ensures r.Success? ==> r.value.page >= 1 && 1 <= r.value.limit <= 100 && r.value.sort in FavouriteSorts
    ensures r.Success? <==> PageParam(page).Some? && LimitParam(limit).Some? && SortParam(sort, FavouriteSorts).Some?
    ensures r.Success? ==>
      r.value == PageQuery(PageParam(page).value, LimitParam(limit).value, SortParam(sort, FavouriteSorts).value)
    ensures r.Failure? ==> (r.error.FailCode? || r.error.FailData?) && r.error.code == InvalidParameter
    ensures r.Failure? && r.error.FailData? <==>
      PageParam(page).Some? && LimitParam(limit).Some? && SortParam(sort, FavouriteSorts).None?
  {
    match PageParam(page)
    case None => Failure(FailCode(InvalidParameter, BadPage))
    case Some(p) =>
      match LimitParam(limit)
      case None => Failure(FailCode(InvalidParameter, BadLimit))
      case Some(l) =>
        match SortParam(sort, FavouriteSorts)
        case None => Failure(FailData(InvalidParameter, BadSort))
        case Some(s) => Success(PageQuery(p, l, s))
  }

  /** The handler's own steps, with the whitelist loop; it decides as FavouritesRequest does. */
  method GetFavouriteSkuListRequest(page: string, limit: string, sort: string) returns (r: Result<PageQuery, Reply>)
    ensures r == FavouritesRequest(page, limit, sort)
  {
    var pageInt := PageParam(page);
    if pageInt.None? {
      return Failure(FailCode(InvalidParameter, BadPage));
    }
    var limitInt := LimitParam(limit);
    if limitInt.None? {
      return Failure(FailCode(InvalidParameter, BadLimit));
    }
    var key := sort;
    if key == "" {
      key := "newest";
    }
    var valid := IsValidSort(key, FavouriteSorts);
    if !valid {
      return Failure(FailData(InvalidParameter, BadSort));
    }
    r := Success(PageQuery(pageInt.value, limitInt.value, key));
  }

  /** GetViewedHistory's checks: page and limit only; the list is always newest first. */
  function ViewedRequest(page: string, limit: string): (r: Result<PageQuery, Reply>)
    ensures r.Success? ==> r.value.page >= 1 && 1 <= r.value.limit <= 100
    ensures r.Failure? ==> r.error.FailCode? && r.error.code == InvalidParameter
    ensures r.Success? <==> PageParam(page).Some? && LimitParam(limit).Some?
    ensures r.Success? ==> r.value == PageQuery(PageParam(page).value, LimitParam(limit).value, "newest")
  {
    match PageParam(page)
    case None => Failure(FailCode(InvalidParameter, BadPage))
    case Some(p) =>
      match LimitParam(limit)
      case None => Failure(FailCode(InvalidParameter, BadLimit))
      case Some(l) => Success(PageQuery(p, l, "newest"))
  }

  /**
   * The reply of the favourites, viewed-history and cart lists: ProductNotFound
   * is reported with FailWithMes; any other error falls through to the success
   * reply with the empty result.
   */
  function ListReply(outcome: Option<ServiceError>): (r: Reply)
    ensures r.OkReply? <==> outcome != Some(ProductNotFound)
    ensures !r.OkReply? ==> r == FailData(InvalidParameter, BadProductIdentifier)
  {
    if outcome == Some(ProductNotFound) then FailData(InvalidParameter, BadProductIdentifier) else OkReply
  }

  // ---------------------------------------------------------------------------
  // GetRelatedProductAndCategory and GetStaffCoordinate

  datatype CodeQuery = CodeQuery(productCode: string, limit: int)

  /** The shared checks: the limit (FailWithMes), then a non-empty product code (404 NOT_FOUND). */
  function CodeListRequest(productCode: string, limit: Option<int>): (r: Result<CodeQuery, Reply>)
    ensures r.Success? <==> limit.Some? && productCode != ""
    ensures r.Success? ==> r.value == CodeQuery(productCode, limit.value)
    ensures limit.None? ==> r == Failure(FailData(InvalidParameter, BadLimit))
    ensures limit.Some? && productCode == "" ==> r == Failure(FailCode(NotFound, ProductMissing))
  {
    match limit
    case None => Failure(FailData(InvalidParameter, BadLimit))
    case Some(l) =>
      if productCode == "" then Failure(FailCode(NotFound, ProductMissing))
      else Success(CodeQuery(productCode, l))
  }

  /** GetRelatedProductAndCategory: a limit of 1..10, 5 by default. */
  function RelatedRequest(productCode: string, limit: string): (r: Result<CodeQuery, Reply>)
    ensures r.Success? ==> 1 <= r.value.limit <= 10 && r.value.productCode == productCode != ""
    ensures limit == "" && productCode != "" ==> r == Success(CodeQuery(productCode, 5))
  {
    CodeListRequest(productCode, RelatedLimitParam(limit))
  }

  /** GetStaffCoordinate: a limit of 1..5, 4 by default. */
  function CoordinateRequest(productCode: string, limit: string): (r: Result<CodeQuery, Reply>)
    ensures r.Success? ==> 1 <= r.value.limit <= 5 && r.value.productCode == productCode != ""
    ensures limit == "" && productCode != "" ==> r == Success(CodeQuery(productCode, 4))
  {
    CodeListRequest(productCode, CoordinateLimitParam(limit))
  }

  /** Both lists report any service error with FailWithMes. */
  function CodeListReply(outcome: Option<ServiceError>): (r: Reply)
    ensures r == OkReply <==> outcome.None?
    ensures r != OkReply ==> r == FailData(InvalidParameter, BadProductIdentifier)
  {
    if outcome.None? then OkReply else FailData(InvalidParameter, BadProductIdentifier)
  }

  /** The coordinate limit accepts a subset of the related-products limits. */
  lemma CoordinateLimitWithinRelatedLimit(raw: string)
    requires raw != ""
    ensures CoordinateLimitParam(raw).Some? ==> RelatedLimitParam(raw) == CoordinateLimitParam(raw)
  {
  }

  // ---------------------------------------------------------------------------
  // GetTargetProductSkus

  /**
   * The handler: both ids must be non-empty as given (before any trimming);
   * a service error becomes INVALID_PARAMETER.
   */
  function GetTargetProductSkusHandler(skuId: string, productId: string, db: TargetLookups): (r: Reply)
    ensures skuId == "" || productId == "" ==> r == FailCode(InvalidParameter, BadProductIdentifier)
    ensures r == OkReply ==>
      skuId != "" && productId != "" && forall i :: 0 <= i < |skuId| ==> IsSpace(skuId[i])
    ensures r.FailCode? || r.OkReply?
    ensures skuId != "" && productId != "" ==> (r == OkReply <==> GetTargetProductSkus(skuId, productId, db).Success?)
  {
    if skuId == "" || productId == "" then FailCode(InvalidParameter, BadProductIdentifier)
    else
      TargetSkuPathAlwaysFails(skuId, productId, db);
      match GetTargetProductSkus(skuId, productId, db)
      case Failure(_) => FailCode(InvalidParameter, BadSkuIdFormat)
      case Success(_) => OkReply
  }

  // ---------------------------------------------------------------------------
  // The cart handlers

  /** AddItemsIntoCart's (and ChangeItemsInCart's) checks: a non-empty sku_id, then the quantity. */
  function CartRequest(skuId: string, quantity: string): (r: Result<(SkuId, int), Reply>)
    ensures skuId == "" ==> r == Failure(FailCode(InvalidParameter, SkuRequired))
    ensures r.Success? ==> r.value.0 == skuId != "" && r.value.1 >= 1
    ensures skuId != "" && quantity == "" ==> r == Success((skuId, 1))
    ensures r.Failure? ==> r.error.FailCode? && r.error.code == InvalidParameter
    ensures r.Success? <==> skuId != "" && QuantityParam(quantity).Some?
    ensures r.Success? ==> r.value == (skuId, QuantityParam(quantity).value)
  {
    if skuId == "" then Failure(FailCode(InvalidParameter, SkuRequired))
    else
      match QuantityParam(quantity)
      case None => Failure(FailCode(InvalidParameter, BadQuantity))
      case Some(q) => Success((skuId, q))
  }

  /** The cart reply: ProductNotFound is NOT_FOUND; any other error is only logged and no reply is written. */
  function CartReply(err: Option<ServiceError>): (r: Reply)
    ensures r == OkReply <==> err.None?
    ensures err == Some(ProductNotFound) ==> r == FailCode(NotFound, SkuMissing)
    ensures err.Some? && err != Some(ProductNotFound) ==> r == NoReply
  {
    match err
    case None => OkReply
    case Some(ProductNotFound) => FailCode(NotFound, SkuMissing)
    case Some(_) => NoReply
  }

  /** The AddItemsIntoCart endpoint on the tables: the reply and the new cart. */
  function AddItemsIntoCartHandler(skus: set<SkuId>, inventory: map<SkuId, Stock>, cart: seq<CartRow>,
                                   user: UserId, skuId: string, quantity: string): (r: (Reply, seq<CartRow>))
    ensures r.0 != OkReply ==> r.1 == cart
    ensures r.0 == OkReply ==>
      && CartRequest(skuId, quantity).Success?
      && QuantityOf(r.1, user, skuId) == QuantityOf(cart, user, skuId) + CartRequest(skuId, quantity).value.1
      && QuantityOf(r.1, user, skuId) <= AvailableIn(inventory, skuId)
    ensures r.0 == OkReply <==>
      CartRequest(skuId, quantity).Success? && CartAdd(skus, inventory, cart, user, skuId, CartRequest(skuId, quantity).value.1).0.None?
    ensures r.0 == FailCode(NotFound, SkuMissing) <==> CartRequest(skuId, quantity).Success? && skuId !in skus
    ensures r.0 == NoReply <==>
      CartRequest(skuId, quantity).Success? && skuId in skus
      && CartAdd(skus, inventory, cart, user, skuId, CartRequest(skuId, quantity).value.1).0.Some?
    ensures WithinStock(cart, inventory) ==> WithinStock(r.1, inventory)
  {
    match CartRequest(skuId, quantity)
    case Failure(reply) => (reply, cart)
    case Success(args) =>
      var step := CartAdd(skus, inventory, cart, user, args.0, args.1);
      (CartReply(step.0), step.1)
  }

  /**
   * The ChangeItemsInCart endpoint as written: the same checks, then the
   * service's AddItemsIntoCart, with the same replies; that is, the
   * add-to-cart endpoint.
   */
  function ChangeItemsInCartHandlerAsWritten(skus: set<SkuId>, inventory: map<SkuId, Stock>, cart: seq<CartRow>,
                                             user: UserId, skuId: string, quantity: string): (r: (Reply, seq<CartRow>))
    ensures r.0 != OkReply ==> r.1 == cart
    ensures r.0 == OkReply ==>
      && CartRequest(skuId, quantity).Success?
      && QuantityOf(r.1, user, skuId) == QuantityOf(cart, user, skuId) + CartRequest(skuId, quantity).value.1
    ensures r.0 == OkReply <==>
      CartRequest(skuId, quantity).Success? && CartAdd(skus, inventory, cart, user, skuId, CartRequest(skuId, quantity).value.1).0.None?
  {
    AddItemsIntoCartHandler(skus, inventory, cart, user, skuId, quantity)
  }

  /** As written, "changing" a quantity the user already has adds to it: the new quantity is never the one asked for. */
  lemma ChangeAsWrittenAdds(skus: set<SkuId>, inventory: map<SkuId, Stock>, cart: seq<CartRow>,
                            user: UserId, skuId: string, quantity: string)
    requires QuantityOf(cart, user, skuId) != 0
    requires ChangeItemsInCartHandlerAsWritten(skus, inventory, cart, user, skuId, quantity).0 == OkReply
    ensures QuantityOf(ChangeItemsInCartHandlerAsWritten(skus, inventory, cart, user, skuId, quantity).1, user, skuId)
      != CartRequest(skuId, quantity).value.1
  {
  }

  /** A cart that shows it: 2 of SKU "A" in stock 10; asking to change to 3 leaves 5. */
  lemma ChangeAsWrittenExample()
    ensures var r := ChangeItemsInCartHandlerAsWritten({"A"}, map["A" := Stock(10, 0)], [CartRow(1, "A", 2)], 1, "A", "3");
      r.0 == OkReply && QuantityOf(r.1, 1, "A") == 5
  {
    assert Itoa(3) == "3";
    AtoiItoa(3);
  }

  /** The ChangeItemsInCart endpoint calling ChangeItemsInCart, as its name and route evidently intend. */
  function ChangeItemsInCartHandler(skus: set<SkuId>, inventory: map<SkuId, Stock>, cart: seq<CartRow>,
                                    user: UserId, skuId: string, quantity: string): (r: (Reply, seq<CartRow>))
    ensures r.0 != OkReply ==> r.1 == cart
    ensures r.0 == OkReply ==>
      && CartRequest(skuId, quantity).Success?
      && QuantityOf(r.1, user, skuId) == CartRequest(skuId, quantity).value.1
      && |r.1| == |cart|
    ensures r.0 == FailCode(NotFound, SkuMissing) <==>
      CartRequest(skuId, quantity).Success? && (skuId !in skus || FindCartRow(cart, user, skuId).None?)
    ensures r.0 == OkReply <==>
      CartRequest(skuId, quantity).Success? && CartChange(skus, inventory, cart, user, skuId, CartRequest(skuId, quantity).value.1).0.None?
    ensures WithinStock(cart, inventory) ==> WithinStock(r.1, inventory)
  {
    match CartRequest(skuId, quantity)
    case Failure(reply) => (reply, cart)
    case Success(args) =>
      var step := CartChange(skus, inventory, cart, user, args.0, args.1);
      (CartReply(step.0), step.1)
  }

  /** The reply of the two delete endpoints. */
  function DeleteReply(err: Option<ServiceError>): (r: Reply)
    ensures r == OkReply <==> err.None?
    ensures err == Some(ProductNotFound) ==> r == FailCode(SkuNotFound, ProductGone)
    ensures err == Some(FavoriteNotFound) ==> r == FailCode(NotFound, FavouriteMissing)
    ensures err.Some? && err != Some(ProductNotFound) && err != Some(FavoriteNotFound) ==> r == FailMessage(DeleteFailed)
  {
    match err
    case None => OkReply
    case Some(ProductNotFound) => FailCode(SkuNotFound, ProductGone)
    case Some(FavoriteNotFound) => FailCode(NotFound, FavouriteMissing)
    case Some(_) => FailMessage(DeleteFailed)
  }

  /** The DeleteItemsFromCart endpoint: no check of its own; the service's answer decides. */
  function DeleteItemsFromCartHandler(skus: set<SkuId>, cart: seq<CartRow>, user: UserId, skuId: string): (r: (Reply, seq<CartRow>))
    ensures r.0 == OkReply <==> skuId in skus && FindCartRow(cart, user, skuId).Some?
    ensures r.0 == FailCode(SkuNotFound, ProductGone) <==> skuId !in skus
    ensures r.0 == FailCode(NotFound, FavouriteMissing) <==> skuId in skus && FindCartRow(cart, user, skuId).None?
    ensures r.0 == OkReply ==> FindCartRow(r.1, user, skuId).None?
  {
    var step := CartDelete(skus, cart, user, skuId);
    (DeleteReply(step.0), step.1)
  }

  // ---------------------------------------------------------------------------
  // The favourite and viewed-history handlers

  /**
   * AddFavouriteSku's and AddViewedSkus' reply as written: only ProductNotFound
   * and AlreadyFavorited are caught; any other error falls through to success.
   */
  function AddPairReplyAsWritten(err: Option<ServiceError>, already: Msg): (r: Reply)
    ensures err == Some(ProductNotFound) ==> r == FailCode(NotFound, SkuMissing)
    ensures err == Some(AlreadyFavorited) ==> r == FailCode(AlreadyExists, already)
  {
    match err
    case Some(ProductNotFound) => FailCode(NotFound, SkuMissing)
    case Some(AlreadyFavorited) => FailCode(AlreadyExists, already)
    case _ => OkReply
  }

  /** As written, a failed insert is reported as a success. */
  lemma AddPairReplyHidesFailures(already: Msg)
    ensures AddPairReplyAsWritten(Some(DbError), already) == OkReply
    ensures forall e :: e != ProductNotFound && e != AlreadyFavorited ==> AddPairReplyAsWritten(Some(e), already) == OkReply
  {
  }

  /** The reply evidently intended: success only without an error; other errors fail as the delete endpoints do. */
  function AddPairReply(err: Option<ServiceError>, already: Msg): (r: Reply)
    ensures r == OkReply <==> err.None?
    ensures err.Some? ==> r == AddPairReplyAsWritten(err, already) || r == FailMessage(AddFailed)
    ensures err == Some(ProductNotFound) ==> r == FailCode(NotFound, SkuMissing)
    ensures err == Some(AlreadyFavorited) ==> r == FailCode(AlreadyExists, already)
  {
    match err
    case None => OkReply
    case Some(ProductNotFound) => FailCode(NotFound, SkuMissing)
    case Some(AlreadyFavorited) => FailCode(AlreadyExists, already)
    case Some(_) => FailMessage(AddFailed)
  }

  /** The AddFavouriteSku endpoint: a non-empty sku_id, then the service. */
  function AddFavouriteSkuHandler(skus: set<SkuId>, favourites: seq<UserSku>, user: UserId, skuId: string): (r: (Reply, seq<UserSku>))
    ensures skuId == "" ==> r == (FailCode(InvalidParameter, SkuRequired), favourites)
    ensures r.0 == OkReply <==> skuId != "" && skuId in skus && UserSku(user, skuId) !in favourites
    ensures r.0 == FailCode(AlreadyExists, AlreadyFavourite) <==> skuId != "" && skuId in skus && UserSku(user, skuId) in favourites
    ensures skuId != "" && skuId in skus ==> UserSku(user, skuId) in r.1
    ensures NoDuplicates(favourites) ==> NoDuplicates(r.1)
  {
    if skuId == "" then (FailCode(InvalidParameter, SkuRequired), favourites)
    else
      var step := AddPair(skus, favourites, UserSku(user, skuId));
      (AddPairReply(step.0, AlreadyFavourite), step.1)
  }

  /**
   * The AddFavouriteSku endpoint as written: the service's insert fails every
   * time it is reached, and the reply reports that failure as a success.
   */
  function AddFavouriteSkuHandlerAsWritten(skus: set<SkuId>, favourites: seq<UserSku>, user: UserId, skuId: string): (r: (Reply, seq<UserSku>))
    ensures r.1 == favourites
    ensures r.0 == OkReply <==> skuId != "" && skuId in skus && UserSku(user, skuId) !in favourites
    ensures r.0 == FailCode(AlreadyExists, AlreadyFavourite) <==> skuId != "" && skuId in skus && UserSku(user, skuId) in favourites
  {
    if skuId == "" then (FailCode(InvalidParameter, SkuRequired), favourites)
    else
      var step := AddFavouriteAsWritten(skus, favourites, UserSku(user, skuId));
      (AddPairReplyAsWritten(step.0, AlreadyFavourite), step.1)
  }

  /** A favourite added as written is acknowledged and never stored; the intended endpoint stores it. */
  lemma FavouriteAsWrittenIsLost()
    ensures AddFavouriteSkuHandlerAsWritten({"A"}, [], 1, "A") == (OkReply, [])
    ensures AddFavouriteSkuHandler({"A"}, [], 1, "A") == (OkReply, [UserSku(1, "A")])
  {
    var p := UserSku(1, "A");
    var none: seq<UserSku> := [];
    assert p.sku in {"A"} && p !in none;
    assert none + [p] == [p];
    assert AddPair({"A"}, none, p) == (None, [p]);
    assert AddFavouriteAsWritten({"A"}, [], p) == (Some(DbError), []);
  }

  /**
   * The AddViewedSkus endpoint: the same steps on the viewed history, with the
   * reply as written (its insert names its table, so it raises no other error).
   */
  function AddViewedSkusHandler(skus: set<SkuId>, viewed: seq<UserSku>, user: UserId, skuId: string): (r: (Reply, seq<UserSku>))
    ensures skuId == "" ==> r == (FailCode(InvalidParameter, SkuRequired), viewed)
    ensures r.0 == OkReply <==> skuId != "" && skuId in skus && UserSku(user, skuId) !in viewed
    ensures r.0 == FailCode(AlreadyExists, AlreadyViewed) <==> skuId != "" && skuId in skus && UserSku(user, skuId) in viewed
    ensures NoDuplicates(viewed) ==> NoDuplicates(r.1)
  {
    if skuId == "" then (FailCode(InvalidParameter, SkuRequired), viewed)
    else
      var step := AddPair(skus, viewed, UserSku(user, skuId));
      (AddPairReplyAsWritten(step.0, AlreadyViewed), step.1)
  }

  /** The DeleteFavouriteSku endpoint: no check of its own; the service's answer decides. */
  function DeleteFavouriteSkuHandler(skus: set<SkuId>, favourites: seq<UserSku>, user: UserId, skuId: string): (r: (Reply, seq<UserSku>))
    ensures r.0 == OkReply <==> skuId in skus && UserSku(user, skuId) in favourites
    ensures r.0 == FailCode(SkuNotFound, ProductGone) <==> skuId !in skus
    ensures UserSku(user, skuId) !in r.1 || r.0 != OkReply
  {
    var step := DeletePair(skus, favourites, UserSku(user, skuId));
    (DeleteReply(step.0), step.1)
  }

  // ---------------------------------------------------------------------------
  // Paging offsets of the parsed parameters

  /** Every page number written in decimal, from 1 up to MaxInt64, is accepted as itself. */
  lemma PageParamOfItoa(n: int)
    requires 1 <= n <= MaxInt64
    ensures PageParam(Itoa(n)) == Some(n)
  {
    IntParamOfItoa(n, 1, 1, None);
  }

  /** A page the validator accepts, with the default limit, whose offset wraps around to a negative number. */
  lemma HugePageWrapsOffset()
    ensures PageParam(Itoa(0x1000_0000_0000_0000)) == Some(0x1000_0000_0000_0000)
    ensures LimitParam("") == Some(10)
    ensures Offset(0x1000_0000_0000_0000, 10) > MaxInt64
    ensures OffsetAsWritten(0x1000_0000_0000_0000, 10) < 0
  {
    PageParamOfItoa(0x1000_0000_0000_0000);
    HugeOffsetWraps();
  }

  /** The offset of page 2^60 with limit 10 passes MaxInt64, and its 64-bit value is negative. */
  lemma HugeOffsetWraps()
    ensures Offset(0x1000_0000_0000_0000, 10) > MaxInt64
    ensures OffsetAsWritten(0x1000_0000_0000_0000, 10) < 0
  {
    assert Offset(0x1000_0000_0000_0000, 10) == 11_529_215_046_068_469_750;
    assert OffsetAsWritten(0x1000_0000_0000_0000, 10) == Wrap64(11_529_215_046_068_469_750);
    assert Wrap64(11_529_215_046_068_469_750) == -6_917_529_027_641_081_866;
  }
}
