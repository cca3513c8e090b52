/**
 * The pure helpers of the product service (server/service/product/product.go):
 * its error values, TruncateString, the pagination arithmetic shared by the
 * list endpoints, the sort-key switches with their fallback, the rating filter,
 * and the decision structure of GetTargetProductSkus.
 */
module ProductService {
  import opened Wrappers
  import opened GoRuntime

  /** The errors the product service returns. */
  datatype ServiceError =
    | ProductNotFound     // ErrProductNotFound
    | AlreadyFavorited    // ErrAlreadyFavorited, also returned for a repeated view
    | FavoriteNotFound    // ErrFavoriteNotFound, also returned for a missing cart row
    | InsufficientStock   // the ad-hoc error "ErrInsufficientStock"
    | ExceedsAvailable    // the ad-hoc error "exceeds the purchasable quantity"
    | AddressNotOwned     // the address does not exist or belongs to another user
    | InvalidProductId    // errors.New("invalid product id")
    | NoIdentifier        // neither a SKU id nor a product id was given
    | DbError             // any error reported by the database driver

  // ---------------------------------------------------------------------------
  // TruncateString

  const Ellipsis: char := '\U{2026}'

  /** TruncateString: at most `max` runes of `s`, followed by an ellipsis when runes were dropped. */
  function TruncateString(s: string, max: nat): (r: string)
    ensures |s| <= max ==> r == s
    ensures |s| > max ==> |r| == max + 1 && r[..max] == s[..max] && r[max] == Ellipsis
  {
    if |s| > max then s[..max] + [Ellipsis] else s
  }

  /** Truncating an already truncated string changes nothing. */
  lemma TruncateStringIdempotent(s: string, max: nat)
    ensures TruncateString(TruncateString(s, max), max) == TruncateString(s, max)
  {
    var r := TruncateString(s, max);
    if |s| > max {
      assert r[..max] + [Ellipsis] == r;
    }
  }

  // ---------------------------------------------------------------------------
  // Pagination: offset := (page - 1) * limit; totalPages := (totalCount + limit - 1) / limit

  /** The row offset of a page, in exact arithmetic. */
  function Offset(page: int, limit: int): (offset: int)
    ensures page >= 1 && limit >= 0 ==> offset >= 0
    ensures offset + limit == page * limit
  {
    (page - 1) * limit
  }

  /** The offset as the Go code computes it, in 64-bit arithmetic that wraps around. */
  function OffsetAsWritten(page: int, limit: int): (offset: int)
    ensures MinInt64 <= Offset(page, limit) <= MaxInt64 ==> offset == Offset(page, limit)
  {
    Wrap64((page - 1) * limit)
  }

  /** Total number of pages; the limit is at least 1 (a zero limit would divide by zero). */
  function TotalPages(totalCount: nat, limit: int): nat
    requires limit >= 1
  {
    (totalCount + limit - 1) / limit
  }

  /** TotalPages is the ceiling of totalCount / limit. */
  lemma TotalPagesIsCeiling(totalCount: nat, limit: int)
    requires limit >= 1
    ensures (TotalPages(totalCount, limit) - 1) * limit < totalCount <= TotalPages(totalCount, limit) * limit
    ensures TotalPages(totalCount, limit) == 0 <==> totalCount == 0
  {
    var n := totalCount + limit - 1;
    var p := n / limit;
    var rem := n % limit;
    assert n == p * limit + rem && 0 <= rem < limit;
    assert (p - 1) * limit == p * limit - limit;
  }

  lemma MulLe(a: int, b: int, c: int)
    requires a <= b && c >= 0
    ensures a * c <= b * c
  {
  }

  /** The only k with k * limit <= index < (k + 1) * limit is index / limit. */
  lemma DivUnique(index: int, limit: int, k: int)
    requires limit >= 1 && k * limit <= index < k * limit + limit
    ensures k == index / limit
  {
    var q := index / limit;
    assert index == q * limit + index % limit;
    if k < q {
      MulLe(k + 1, q, limit);
      assert false;
    } else if k > q {
      MulLe(q + 1, k, limit);
      assert false;
    }
  }

  /** index / limit is the k with k * limit <= index < k * limit + limit, and it is not negative. */
  lemma DivBounds(index: nat, limit: int)
    requires limit >= 1
    ensures 0 <= index / limit
    ensures (index / limit) * limit <= index < (index / limit) * limit + limit
  {
    assert index == (index / limit) * limit + index % limit;
  }

  /** A page whose first row exists is one of the TotalPages pages. */
  lemma PageWithinTotal(totalCount: nat, limit: int, q: nat)
    requires limit >= 1 && q * limit < totalCount
    ensures q + 1 <= TotalPages(totalCount, limit)
  {
    TotalPagesIsCeiling(totalCount, limit);
    var t := TotalPages(totalCount, limit);
    if q >= t {
      MulLe(t, q, limit);
      assert false;
    }
  }

  /** Every row index below totalCount is on exactly one page p of 1..TotalPages, namely index / limit + 1. */
  lemma RowOnPage(totalCount: nat, limit: int, index: nat)
    requires limit >= 1 && index < totalCount
    ensures var p := index / limit + 1;
      1 <= p <= TotalPages(totalCount, limit) && Offset(p, limit) <= index < Offset(p, limit) + limit
    ensures forall p :: Offset(p, limit) <= index < Offset(p, limit) + limit ==> p == index / limit + 1
  {
    var q := index / limit;
    DivBounds(index, limit);
    PageWithinTotal(totalCount, limit, q);
    assert Offset(q + 1, limit) == q * limit;
    forall p | Offset(p, limit) <= index < Offset(p, limit) + limit
      ensures p == q + 1
    {
      DivUnique(index, limit, p - 1);
    }
  }

  // ---------------------------------------------------------------------------
  // Sort keys and the rating filter

  /** The ORDER BY a list query uses. */
  datatype SortOrder =
    | CreatedDesc
    | CreatedAsc
    | RatingDesc
    | RatingAsc
    | HelpfulThenCreatedDesc

  /** GetUserReviews' switch; any other key falls back to newest first. */
  function ReviewOrder(sort: string): (r: SortOrder)
    ensures r != CreatedDesc <==> sort in ["oldest", "highest_rating", "lowest_rating", "most_helpful"]
    ensures sort == "oldest" <==> r == CreatedAsc
    ensures sort == "highest_rating" <==> r == RatingDesc
    ensures sort == "lowest_rating" <==> r == RatingAsc
    ensures sort == "most_helpful" <==> r == HelpfulThenCreatedDesc
  {
    match sort
    case "newest" => CreatedDesc
    case "oldest" => CreatedAsc
    case "highest_rating" => RatingDesc
    case "lowest_rating" => RatingAsc
    case "most_helpful" => HelpfulThenCreatedDesc
    case _ => CreatedDesc
  }

  /** GetUserQandAs' switch; any other key falls back to newest first. */
  function QandAOrder(sort: string): (r: SortOrder)
    ensures r != CreatedDesc <==> sort in ["oldest", "most_helpful"]
    ensures sort == "oldest" <==> r == CreatedAsc
    ensures sort == "most_helpful" <==> r == HelpfulThenCreatedDesc
    ensures r != RatingDesc && r != RatingAsc
  {
    match sort
    case "newest" => CreatedDesc
    case "oldest" => CreatedAsc
    case "most_helpful" => HelpfulThenCreatedDesc
    case _ => CreatedDesc
  }

  /** GetFavouriteSkuList: newest first unless the key is "oldest". */
  function FavouriteOrder(sort: string): (r: SortOrder)
    ensures r == CreatedAsc <==> sort == "oldest"
    ensures r == CreatedAsc || r == CreatedDesc
  {
    if sort == "oldest" then CreatedAsc else CreatedDesc
  }

  /** GetUserReviews filters on the rating only when it is a star count 1..5. */
  function RatingFilter(rating: int): (r: Option<int>)
    ensures r.Some? <==> 1 <= rating <= 5
    ensures r.Some? ==> r.value == rating
  {
    if 1 <= rating <= 5 then Some(rating) else None
  }

  // ---------------------------------------------------------------------------
  // GetTargetProductSkus

  /**
   * What the database answers to GetTargetProductSkus' queries: the product's
   * default_sku_id (None when that query fails) and whether the attribute query failed.
   */
  datatype TargetLookups = TargetLookups(defaultSkuId: Option<string>, attributesFailed: bool)

  /**
   * GetTargetProductSkus as written. Both ids are trimmed; a non-blank SKU id
   * always ends in "invalid product id"; otherwise a non-blank product id is
   * resolved through its default SKU, whose attribute query decides the error;
   * with neither id the call fails. The success value is the SKU described.
   */
  function GetTargetProductSkus(skuId: string, productId: string, db: TargetLookups): Result<string, ServiceError>
  {
    var sku := TrimSpace(skuId);
    var product := TrimSpace(productId);
    if sku != "" then Failure(InvalidProductId)
    else if product != "" then
      if db.defaultSkuId.None? || db.defaultSkuId.value == "" then Failure(InvalidProductId)
      else if db.attributesFailed then Failure(DbError)
      else Success(db.defaultSkuId.value)
    else Failure(NoIdentifier)
  }

  /** As written, the call succeeds only when the SKU id is blank after trimming. */
  lemma TargetSkuPathAlwaysFails(skuId: string, productId: string, db: TargetLookups)
    ensures GetTargetProductSkus(skuId, productId, db).Success? ==>
      forall i :: 0 <= i < |skuId| ==> IsSpace(skuId[i])
    ensures (exists i :: 0 <= i < |skuId| && !IsSpace(skuId[i])) ==>
      GetTargetProductSkus(skuId, productId, db) == Failure(InvalidProductId)
  {
    TrimSpaceEmpty(skuId);
  }

  /**
   * The evidently intended GetTargetProductSkus: the SKU id branch returns the
   * SKU it looked up, failing only when its attribute query fails.
   */
  function GetTargetProductSkusIntended(skuId: string, productId: string, db: TargetLookups): (r: Result<string, ServiceError>)
    ensures TrimSpace(skuId) != "" ==>
      (r.Success? <==> !db.attributesFailed) && (r.Success? ==> r.value == TrimSpace(skuId))
    ensures TrimSpace(skuId) == "" ==> r == GetTargetProductSkus(skuId, productId, db)
  {
    var sku := TrimSpace(skuId);
    if sku != "" then
      if db.attributesFailed then Failure(DbError) else Success(sku)
    else GetTargetProductSkus(skuId, productId, db)
  }
}
