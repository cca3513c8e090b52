# Product, cart and payment core of gin-vue-admin's shop backend

This Dafny project models the shop endpoints of the gin-vue-admin server. It covers:

- The per-user tables the product service changes: the cart, favourites, viewed history and shipping addresses. They are modelled as a class whose methods follow the service's steps.
- The pure helpers of the service: `TruncateString`, the paging arithmetic, the sort-key switches, the rating filter, and the decision structure of `GetTargetProductSkus`.
- The two grouping loops: variant options by attribute, and cart rows by SKU.
- The query-parameter checks of the HTTP handlers, and the reply each service error becomes.
- The payment service: the payment-method list and the `SelectCoupon` check chain. Also the payment handlers.

Layout, one module per file:

- `wrappers.dfy` (`Wrappers`): `Option`, `Result`, and `Slice`. A `Slice` tells a Go nil slice from an empty one.
- `go_runtime.dfy` (`GoRuntime`): the parts of Go's library the core relies on: `strconv.Atoi`/`Itoa`, `strings.TrimSpace`, `strings.Split`/`Join` on `","`, `len` of a string in UTF-8 bytes, and 64-bit wrap-around.
- `product_service.dfy` (`ProductService`): the service's errors and its pure helpers.
- `product_tables.dfy` (`ProductTables`): the table rows and each state-changing operation.
  - Each operation is first a transition function from the old tables to an error or the new tables, with its properties as `ensures`.
  - The class `UserTables` holds the tables as fields. Its methods perform the service's steps in place and are proved equal to the transition functions.
  - They are also proved to keep the invariant `Valid()`: address ids below the next id and distinct, at most one default address per user, one cart row per (user, SKU), cart quantities within stock, and no duplicate favourite or viewed pairs.
- `product_grouping.dfy` (`ProductGrouping`): the grouping loops of `GetVariantOptions` and `GetCartItems`, as methods proved against reference definitions.
- `responses.dfy` (`Responses`): the replies of `server/model/common/response/response.go`, reduced to the helper used, the error code and the choice of message.
- `product_api.dfy` (`ProductApi`): the product handlers. Each one's check chain is a function from the raw query strings to either the rejecting reply or the validated arguments. The three handlers with a sort whitelist also have a method form that uses the whitelist loop.
- `payment_api.dfy` (`PaymentApi`): the payment handlers.

Where a service call is outside this model, a handler takes the call's outcome, an optional `ServiceError`, as a parameter. Database failures inside the table operations are not modelled; they appear only as the `DbError` outcome in the handlers' reply mappings.

## Model

| member | source | states |
|---|---|---|
| GoRuntime.Atoi | server/api/v1/product/product.go:130-137 | strconv.Atoi scanning left to right: a range error exactly when the leading run of digits already exceeds MaxUint64, or the text is an optional sign and digits whose value lies outside int64; a syntax error exactly when the text is not an optional sign followed by digits and its leading digits do not overflow; otherwise success with the signed value |
| GoRuntime.AtoiItoa | server/api/v1/product/product.go:130-137 | every int64 written in decimal is read back by Atoi unchanged |
| GoRuntime.AtoiSignAndZeros | server/api/v1/product/product.go:130-137 | a leading '+' and leading zeros are accepted ("+007" is 7, "-0" is 0); a sign alone is a syntax error |
| GoRuntime.OverflowBeforeSyntax | server/api/v1/product/product.go:130-137 | digits past MaxUint64 followed by a non-digit give a range error, not a syntax error |
| GoRuntime.TrimSpaceEmpty | server/service/product/product.go:888-889 | TrimSpace gives "" exactly when every character is white space |
| GoRuntime.JoinSplit | server/service/product/product.go:1314 | joining the pieces of strings.Split on "," gives back the original string |
| GoRuntime.SplitJoin | server/service/product/product.go:1314 | splitting a join of comma-free pieces gives back the pieces |
| GoRuntime.ByteLenBounds | server/api/v1/product/product.go:180 | a string's length in bytes lies between its character count and four times it, and equals its character count for ASCII |
| GoRuntime.Wrap64 | server/service/product/product.go:571 | the wrapped value is in the int64 range, differs from the input by a multiple of 2^64, and is the input itself when it is already in range |
| ProductService.TruncateString | server/service/product/product.go:45-50 | a string of at most max runes is unchanged; a longer one becomes its first max runes followed by an ellipsis |
| ProductService.TruncateStringIdempotent | server/service/product/product.go:45-50 | truncating twice is the same as truncating once |
| ProductService.Offset | server/service/product/product.go:571 | for page ≥ 1 the offset is non-negative and exactly limit rows precede page+1's first row |
| ProductService.OffsetAsWritten | server/service/product/product.go:1407 | in 64-bit arithmetic the offset equals the exact one whenever the exact one fits in an int64 |
| ProductService.TotalPagesIsCeiling | server/service/product/product.go:649 | totalPages is the least number of pages of limit rows that hold totalCount rows; it is 0 exactly when there are no rows |
| ProductService.RowOnPage | server/service/product/product.go:1456 | every row index below totalCount lies on exactly one page, and that page is between 1 and totalPages |
| ProductService.ReviewOrder | server/service/product/product.go:1377-1391 | each key picks its order and no other key does: oldest exactly gives oldest first, highest_rating exactly rating descending, lowest_rating exactly rating ascending, most_helpful exactly helpful count then newest; any other key orders newest first |
| ProductService.QandAOrder | server/service/product/product.go:1501-1510 | oldest exactly gives oldest first and most_helpful exactly helpful count then newest; any other key orders newest first; Q&A is never ordered by rating |
| ProductService.FavouriteOrder | server/service/product/product.go:1656-1659 | favourites are oldest first exactly for "oldest", otherwise newest first |
| ProductService.RatingFilter | server/service/product/product.go:1396-1398 | the reviews are filtered by rating exactly when it is 1..5, and then by that rating |
| ProductService.TargetSkuPathAlwaysFails | server/service/product/product.go:882-1072 | as written, GetTargetProductSkus can succeed only when the SKU id is blank; any SKU id with a non-space character ends in "invalid product id" |
| ProductService.GetTargetProductSkusIntended | server/service/product/product.go:891-971 | with a SKU id, the lookup succeeds exactly when its attribute query does and returns the trimmed SKU id; otherwise it is the product-id path unchanged |
| ProductTables.FindCartRow | server/service/product/product.go:352-356 | the first of the user's rows for the SKU, or none exactly when the user has no such row |
| ProductTables.RemovePair | server/service/product/product.go:1838-1842 | exactly the other pairs remain, and a table without duplicates keeps none |
| ProductTables.UpdatedAddress | server/service/product/product.go:182-206 | GORM Updates with a struct writes only non-zero fields: id and owner stay, empty strings and a nil line 2 keep the stored value, and is_default can only be set |
| ProductTables.CartAdd | server/service/product/product.go:317-377 | the error order is unknown SKU, then no available stock, then over the available quantity; on success the user's quantity grows by exactly the requested amount, stays within stock, and other rows are unchanged; an existing row is updated in place, and only when there is none is the row (user, SKU, quantity) appended at the end; one row per (user, SKU) and within-stock are preserved |
| ProductTables.CartAddAsWritten | server/service/product/product.go:317-377 | as written, the existing quantity plus the requested one wraps around in 64 bits: a successful add to an existing row stores the wrapped sum, and a refusal leaves the cart unchanged |
| ProductTables.CartAddAsWrittenInRange | server/service/product/product.go:359-364 | wherever the sum fits in 64 bits, the add as written is exactly the corrected CartAdd |
| ProductTables.CartAddWrapsAround | server/service/product/product.go:359-363 | one of a SKU plus MaxInt64 more is accepted as written and stores MinInt64, where CartAdd refuses it |
| ProductTables.CartChange | server/service/product/product.go:239-284 | an unknown SKU or a missing row is ProductNotFound; a quantity above stock is refused; on success the quantity becomes exactly the requested one and other rows are unchanged |
| ProductTables.CartDelete | server/service/product/product.go:286-316 | an unknown SKU, then a missing row (FavoriteNotFound), are refused; otherwise exactly the user's rows of that SKU go |
| ProductTables.AddPair | server/service/product/product.go:1773-1811 | an unknown SKU, then an existing pair (AlreadyFavorited), are refused; otherwise the pair is appended and the table stays duplicate-free |
| ProductTables.AddFavouriteAsWritten | server/service/product/product.go:1773-1811 | as written, the favourite insert names no table and fails whenever it is reached: the errors before it are AddPair's, DbError exactly where AddPair would insert, and the table is never changed |
| ProductTables.DeletePair | server/service/product/product.go:1813-1846 | an unknown SKU, then a missing pair (FavoriteNotFound), are refused; otherwise exactly that pair goes |
| ProductTables.AddressCreate | server/service/product/product.go:78-115 | a new default address first clears the user's other defaults; the new row gets the next id and goes at the end; ids stay distinct and below the next id, and there is still at most one default per user |
| ProductTables.AddressChange | server/service/product/product.go:159-212 | an address the user does not own is refused; otherwise defaults are cleared first when requested, and only the owned row is rewritten by the zero-skipping update; id discipline and one default per user are preserved |
| ProductTables.AddressDelete | server/service/product/product.go:214-237 | an address the user does not own is refused; otherwise exactly the rows with that id go, keeping id discipline and one default per user |
| ProductTables.RemoveAddressKeepsIds | server/service/product/product.go:229-233 | deleting addresses keeps every remaining id distinct and below the next id |
| ProductTables.RemoveAddressKeepsDefaults | server/service/product/product.go:229-233 | deleting addresses keeps at most one default per user |
| ProductTables.UserTables.AddItemsIntoCart | server/service/product/product.go:317-377 | the in-place cart update is the CartAdd transition and keeps the invariant |
| ProductTables.UserTables.ChangeItemsInCart | server/service/product/product.go:239-284 | the in-place update is the CartChange transition and keeps the invariant |
| ProductTables.UserTables.DeleteItemsFromCart | server/service/product/product.go:286-316 | the in-place delete is the CartDelete transition and keeps the invariant |
| ProductTables.UserTables.AddFavouriteSku | server/service/product/product.go:1773-1811 | the in-place insert is the AddPair transition on favourites and keeps the invariant |
| ProductTables.UserTables.DeleteFavouriteSku | server/service/product/product.go:1813-1846 | the in-place delete is the DeletePair transition on favourites and keeps the invariant |
| ProductTables.UserTables.AddViewedSkus | server/service/product/product.go:664-702 | the in-place insert is the AddPair transition on the viewed history and keeps the invariant |
| ProductTables.UserTables.CreateShippingAddress | server/service/product/product.go:78-115 | the in-place insert is the AddressCreate transition, the next id advances by one, and the invariant is kept |
| ProductTables.UserTables.ChangeShippingAddress | server/service/product/product.go:159-212 | the in-place update is the AddressChange transition and keeps the invariant |
| ProductTables.UserTables.DeleteShippingAddress | server/service/product/product.go:214-237 | the in-place delete is the AddressDelete transition and keeps the invariant |
| ProductGrouping.OptionOf | server/service/product/product.go:1312-1320 | an option carries its row's id, value and code, and a non-empty list of linked SKU ids whose comma join is the scanned column |
| ProductGrouping.GroupVariantOptions | server/service/product/product.go:1297-1322 | the map has one group per attribute id in the rows; each group has the attribute's first row's name and code and that attribute's options in row order |
| ProductGrouping.OptionsForAppend | server/service/product/product.go:1297-1322 | grouping rows in two parts gives, per attribute, the options of the first part followed by those of the second |
| ProductGrouping.AddVariantRowGroups | server/service/product/product.go:1299-1322 | one pass of the loop keeps the map equal to the grouping of the rows seen so far |
| ProductGrouping.AppendVariantRow | server/service/product/product.go:1299-1322 | a new row leaves every other attribute's first row and options unchanged, opens its own attribute when it is new, and appends its option |
| ProductGrouping.OptionCountsAddUp | server/service/product/product.go:1297-1322 | the groups hold as many options in total as there are rows |
| ProductGrouping.AttributesFor | server/service/product/product.go:516-525 | a SKU's attributes come only from rows with a non-zero attribute id, and a SKU without rows has none |
| ProductGrouping.GroupCartItems | server/service/product/product.go:482-529 | one item per SKU in the rows, built from its first row with all of its attributes in row order; the total counts each SKU's first row once |
| ProductGrouping.AddCartRowGroups | server/service/product/product.go:484-527 | one pass of the loop keeps the map equal to the grouping of the rows seen so far |
| ProductGrouping.AppendCartRow | server/service/product/product.go:484-527 | a new row leaves every other SKU's first row and attributes unchanged, opens its own SKU when it is new, and appends its attribute when it has one |
| ProductGrouping.DistinctSkusTotal | server/service/product/product.go:488-489 | with one row per SKU the total is the sum of price times quantity over the rows |
| ProductGrouping.RepeatedSkusAddNothing | server/service/product/product.go:486-489 | extra rows of SKUs already seen (one per attribute) add nothing to the total |
| PaymentService.ActiveRows | server/service/product/paymant.go:35 | exactly the active rows are kept, each one from the table |
| PaymentService.ActiveRowsMultiplicity | server/service/product/paymant.go:35 | the filter keeps each active row as many times as the table holds it and no inactive row |
| PaymentService.OrderBySortOrder | server/service/product/paymant.go:36 | the result is ordered by sort_order and is a permutation of its input |
| PaymentService.InsertKeepsSorted | server/service/product/paymant.go:36 | inserting a method into a list ordered by sort_order keeps it ordered |
| PaymentService.InsertIsPermutation | server/service/product/paymant.go:36 | inserting a method adds exactly that method to the multiset of the list |
| PaymentService.GetPaymentMethod | server/service/product/paymant.go:23-47 | the list is never nil; on error it is empty; otherwise it is the active methods by sort_order, and with no active method it is the empty list |
| PaymentService.PaymentMethodsAreActiveAndOrdered | server/service/product/paymant.go:26-45 | the listed methods are ordered by sort_order; each is an active row of the table, and every active row is listed |
| PaymentService.PaymentMethodMultiplicity | server/service/product/paymant.go:26-45 | the ordered list holds each active row as many times as the table does, and nothing else |
| PaymentService.SessionOf | server/service/product/paymant.go:59 | Scan gives the user's session when one exists, otherwise the zero value |
| PaymentService.CouponOf | server/service/product/paymant.go:78-81 | Scan gives a coupon with the code when one exists, otherwise the zero value |
| PaymentService.CheckCoupon | server/service/product/paymant.go:86-96 | a coupon passes exactly when it is active, now lies in its window with both ends included, and the points discount reaches the minimum; CouponInvalid exactly when inactive, CouponExpired exactly when active and outside the window, CouponMinPurchaseNotMet exactly when active, in the window and below the minimum; no query error comes from the checks |
| PaymentService.CouponAsQueried | server/service/product/paymant.go:64-81 | the coupon as the written query scans it is never active, has an empty code, the zero window and no minimum, whatever the table holds |
| PaymentService.SelectCouponAsWrittenNeverPasses | server/service/product/paymant.go:49-137 | as written SelectCoupon always returns an error, and CouponInvalid whenever both queries succeed |
| PaymentService.SelectCoupon | server/service/product/paymant.go:49-137 | a failed session query is reported first, then a failed coupon query |
| PaymentService.SelectCouponPassesIff | server/service/product/paymant.go:49-137 | a known code passes exactly when every query succeeds, the coupon is active and in its window, and the session's discount reaches the minimum |
| PaymentService.UnknownCodeIsInvalid | server/service/product/paymant.go:78-88 | a code that names no coupon is reported as CouponInvalid, not ConponNotFound |
| PaymentService.WindowEndsAreValid | server/service/product/paymant.go:90-92 | a coupon is valid at its start and end instants and expired one second outside them |
| PaymentService.NoSessionMeansMinimumNotMet | server/service/product/paymant.go:59-96 | without a session row, any positive minimum purchase is not met |
| ProductApi.IntParam | server/api/v1/product/product.go:128-155 | empty gives the default; otherwise the parameter is accepted exactly when Atoi reads it and the reading lies in the range, and the value is that reading |
| ProductApi.IntParamOfItoa | server/api/v1/product/product.go:128-155 | a decimal int64 is accepted exactly when it lies in the range, and read back unchanged |
| ProductApi.PageParamOfItoa | server/api/v1/product/product.go:128-137 | any positive int64 written in decimal is an accepted page with that value |
| ProductApi.PageParam | server/api/v1/product/product.go:128-137 | page defaults to 1; an accepted page is a 64-bit number of at least 1 |
| ProductApi.LimitParam | server/api/v1/product/product.go:139-146 | limit defaults to 10; an accepted limit is 1..100 |
| ProductApi.RatingParam | server/api/v1/product/product.go:148-155 | rating defaults to 0; an accepted given rating is 1..5 |
| ProductApi.RelatedLimitParam | server/api/v1/product/product.go:496-505 | the related-products limit defaults to 5; an accepted one is 1..10 |
| ProductApi.CoordinateLimitParam | server/api/v1/product/product.go:540-549 | the coordinate limit defaults to 4; an accepted one is 1..5 |
| ProductApi.QuantityParam | server/api/v1/product/product.go:690-702 | quantity defaults to 1; an accepted quantity is at least 1 |
| ProductApi.RatingFiltersWhenGiven | server/api/v1/product/product.go:148-155 | an accepted rating makes the service filter exactly when the parameter was given, and then by the given value |
| ProductApi.IsValidSort | server/api/v1/product/product.go:161-168 | the whitelist loop reports a key valid exactly when it is one of the options |
| ProductApi.SortParam | server/api/v1/product/product.go:157-172 | an empty key means "newest"; an accepted key is one of the options and is the given key when one was given |
| ProductApi.ReviewSortsAreDistinctOrders | server/api/v1/product/product.go:161 | every whitelisted key reaches its own case of the service's switch, so no two accepted keys give the same order |
| ProductApi.ReviewsRequest | server/api/v1/product/product.go:118-185 | accepted exactly when page, limit, rating and sort are each accepted and the product code has at least 7 bytes, and then the query carries those parsed values; page ≥ 1, limit 1..100, rating 0 or 1..5, a whitelisted sort; every refusal is a 404 INVALID_PARAMETER |
| ProductApi.GetUserReviewsRequest | server/api/v1/product/product.go:118-185 | the handler's steps, with the whitelist loop, decide exactly as ReviewsRequest |
| ProductApi.ReviewsReply | server/api/v1/product/product.go:186-200 | success exactly without an error; ProductNotFound is NOT_FOUND and every other error INVALID_PARAMETER |
| ProductApi.ReviewsSortCheckedBeforeProductCode | server/api/v1/product/product.go:157-178 | a bad sort key is reported even when the product code is missing |
| ProductApi.ReviewsDefaults | server/api/v1/product/product.go:124-160 | with no parameters the request is page 1 of 10 newest reviews with no rating filter |
| ProductApi.ProductCodeLengthCountsBytes | server/api/v1/product/product.go:180 | the minimum length counts UTF-8 bytes: three kana pass it, six ASCII characters do not |
| ProductApi.QandARequest | server/api/v1/product/product.go:216-274 | accepted exactly when page, limit and sort are each accepted and the code has at least 7 bytes, and then the query carries those parsed values; refusals are 404s, and NOT_FOUND exactly for an empty code after valid page, limit and sort |
| ProductApi.GetUserQandAsRequest | server/api/v1/product/product.go:216-274 | the handler's steps, with the whitelist loop, decide exactly as QandARequest |
| ProductApi.QandAReply | server/api/v1/product/product.go:275-291 | success exactly without an error; ProductNotFound is INVALID_PARAMETER and every other error NOT_FOUND |
| ProductApi.QandASortsAreReviewSorts | server/api/v1/product/product.go:250 | the Q&A keys are review keys, and the favourite keys are Q&A keys; highest_rating is for reviews only |
| ProductApi.FavouritesRequest | server/api/v1/product/product.go:415-461 | accepted exactly when page, limit and sort (newest or oldest) are each accepted, and then the query carries those parsed values; only a bad sort is refused with FailWithMes |
| ProductApi.GetFavouriteSkuListRequest | server/api/v1/product/product.go:415-461 | the handler's steps, with the whitelist loop, decide exactly as FavouritesRequest |
| ProductApi.ViewedRequest | server/api/v1/product/product.go:618-645 | accepted exactly when page and limit are, and then the query carries those parsed values and the newest-first order |
| ProductApi.ListReply | server/api/v1/product/product.go:462-478 | only ProductNotFound is an error reply, with FailWithMes; any other error falls through to the success reply |
| ProductApi.CodeListRequest | server/api/v1/product/product.go:493-512 | accepted exactly with a valid limit and a non-empty code; a bad limit is refused with FailWithMes, an empty code with 404 NOT_FOUND |
| ProductApi.RelatedRequest | server/api/v1/product/product.go:493-512 | related products take a limit of 1..10, 5 by default |
| ProductApi.CoordinateRequest | server/api/v1/product/product.go:537-556 | coordinate sets take a limit of 1..5, 4 by default |
| ProductApi.CodeListReply | server/api/v1/product/product.go:514-523 | success exactly without an error; any error is FailWithMes INVALID_PARAMETER |
| ProductApi.CoordinateLimitWithinRelatedLimit | server/api/v1/product/product.go:540-549 | every given coordinate limit that is accepted is also an accepted related-products limit, with the same value |
| ProductApi.GetTargetProductSkusHandler | server/api/v1/product/product.go:43-66 | an empty id is refused; with both ids given, the reply is OK exactly when the service lookup succeeds, which needs a SKU id that is blank after trimming; every refusal is a 404 |
| ProductApi.CartRequest | server/api/v1/product/product.go:681-702 | accepted exactly when sku_id is not empty and the quantity is accepted, and then the request carries that SKU and the parsed quantity (at least 1, 1 by default); an empty sku_id is refused first; refusals are 404 INVALID_PARAMETER |
| ProductApi.CartReply | server/api/v1/product/product.go:704-715 | success exactly without an error; ProductNotFound is NOT_FOUND; any other error writes no reply |
| ProductApi.AddItemsIntoCartHandler | server/api/v1/product/product.go:681-716 | OK exactly when the request is accepted and the add succeeds; NOT_FOUND exactly for an accepted request with an unknown SKU; on success the cart holds the requested quantity more of the SKU, within stock; any other reply leaves the cart unchanged |
| ProductApi.ChangeItemsInCartHandlerAsWritten | server/api/v1/product/product.go:800-835 | as written the endpoint is the add-to-cart endpoint: OK exactly when the request is accepted and the add succeeds, and then the quantity asked for is added to the one in the cart; any other reply leaves the cart unchanged |
| ProductApi.ChangeAsWrittenAdds | server/api/v1/product/product.go:823 | as written, a successful change of a SKU already in the cart never sets the requested quantity |
| ProductApi.ChangeAsWrittenExample | server/api/v1/product/product.go:823 | a cart with 2 of a SKU in stock 10, changed to 3, succeeds and holds 5 |
| ProductApi.ChangeItemsInCartHandler | server/api/v1/product/product.go:800-835 | OK exactly when the request is accepted and the change succeeds, and then the quantity is exactly the requested one; NOT_FOUND exactly for an unknown SKU or one not in the cart |
| ProductApi.DeleteReply | server/api/v1/product/product.go:771-783 | success exactly without an error; ProductNotFound is SKU_NOT_FOUND, FavoriteNotFound is NOT_FOUND, and anything else is FailWithMessage |
| ProductApi.DeleteItemsFromCartHandler | server/api/v1/product/product.go:765-785 | succeeds exactly when the SKU exists and is in the user's cart, and then the user has no row for it |
| ProductApi.AddPairReplyAsWritten | server/api/v1/product/product.go:353-366 | ProductNotFound is NOT_FOUND and AlreadyFavorited is ALREADY_EXISTS |
| ProductApi.AddPairReplyHidesFailures | server/api/v1/product/product.go:353-366 | as written, every other error, a failed insert included, is replied to as a success |
| ProductApi.AddPairReply | server/api/v1/product/product.go:353-366 | success exactly without an error; the two caught errors keep their replies |
| ProductApi.AddFavouriteSkuHandlerAsWritten | server/api/v1/product/product.go:343-367 | as written the endpoint replies OK exactly for a known SKU not yet a favourite, and ALREADY_EXISTS for one that is, yet the table never changes |
| ProductApi.FavouriteAsWrittenIsLost | server/api/v1/product/product.go:343-367 | adding SKU "A" to an empty favourites table replies OK and stores nothing as written, and stores the pair as intended |
| ProductApi.AddFavouriteSkuHandler | server/api/v1/product/product.go:343-367 | success exactly for a known SKU not yet a favourite; ALREADY_EXISTS exactly for one that is; the table stays duplicate-free |
| ProductApi.AddViewedSkusHandler | server/api/v1/product/product.go:583-605 | success exactly for a known SKU not yet in the history; ALREADY_EXISTS exactly for one that is |
| ProductApi.DeleteFavouriteSkuHandler | server/api/v1/product/product.go:381-401 | success exactly for a known SKU among the favourites, which is then gone; SKU_NOT_FOUND exactly for an unknown SKU |
| ProductApi.HugePageWrapsOffset | server/api/v1/product/product.go:128-137 | an accepted page of 2^60 with the default limit has an exact offset beyond int64, and the computed offset is negative |
| ProductApi.HugeOffsetWraps | server/service/product/product.go:1407 | page 2^60 with limit 10 has an exact offset beyond int64 and a negative 64-bit offset |
| PaymentApi.GetPaymentMethodHandler | server/api/v1/product/payment.go:34-45 | a failed query is a 404 INVALID_PARAMETER; otherwise the data lists only active methods, lists every active method, and has as many entries as there are active rows |
| PaymentApi.ListedMethodsAreTheActiveOnes | server/api/v1/product/payment.go:35-44 | the listed methods are exactly the active rows, as many as there are active rows |
| PaymentApi.SelectCouponHandler | server/api/v1/product/payment.go:60-95 | the coupon endpoint, as written, behaves exactly as the add-to-cart endpoint |
| PaymentApi.SelectCouponAddsToCart | server/api/v1/product/payment.go:83 | with stock to spare, selecting a coupon puts one more of the SKU into the cart |

## Left out

- SQL text, joins, aggregates, Redis caching, logging and Gin plumbing are not modelled. Queries outside the tables above appear only as an outcome (`Option<ServiceError>`) passed to the handlers.
- Database failures inside the table operations are not modelled: `ProductTables.CartAdd`, `CartChange`, `CartDelete`, `AddPair`, `DeletePair` and the address transitions fail only for the reasons the service checks. The one failure that the code's form makes certain, the untabled favourite insert, is modelled by `ProductTables.AddFavouriteAsWritten`.
- Prices and amounts: the cart's amounts are integers, so `GetCartItems`' float64 sum has no rounding. Coupon amounts are exact reals. humanize formatting and price strings are left out.
- `time.Now()` is a parameter (`now`, in seconds). Times are compared as whole seconds.
- Go map iteration: `GroupVariantOptions` and `GroupCartItems` return maps, because the source turns its maps into slices in random order.
- Ordering ties: `ORDER BY sort_order` leaves equal keys in an unspecified order, and `OrderBySortOrder` fixes one stable order.
- Invalid UTF-8 is not modelled: strings are sequences of Unicode scalar values, and byte lengths come from each character's encoded size.
- ProductService.TruncateString: `max` is a `nat`. The source's behaviour for a negative `max` (a slice panic) is not modelled.
- The `GetVariantOptions`, `GetProductImages`, `GetCartItems`, `GetShippingAddress`, `CreateShippingAddress`, `ChangeShippingAddress` and `DeleteShippingAddress` handlers are not modelled. They bind JSON or path values and only forward the service's error. Their service operations are modelled.
- `GetCartItems`' second Scan assigns no error, and its `TotalItemsCount` comes from a SQL SUM. Neither is modelled; only the grouping loop is.
- Message texts are not modelled; each reply carries a `Msg` constant naming which message it is.
- The `HTTP` status and `code` field of each reply kind are described on `Responses.Reply`, not computed.
- PaymentService.SelectCoupon: the final count query's result is not used by the source, so only its error is modelled. The checkout response is always empty, so no response value is modelled.
- ProductApi.GetTargetProductSkusHandler: the SKU data returned on success is reduced to the SKU id.
- ProductTables.UserTables.AddItemsIntoCart: follows the corrected `ProductTables.CartAdd`, whose sum of the existing and requested quantity does not wrap around in 64 bits. The wrap of product.go:359 is modelled separately by `ProductTables.CartAddAsWritten` (see "## Findings").
- ProductApi.AddItemsIntoCartHandler: calls the corrected `ProductTables.CartAdd`, so a quantity near MaxInt64 is refused as exceeding the stock. The source wraps the sum and replies OK with a negative quantity, as `ProductTables.CartAddWrapsAround` shows.
- ProductApi.ChangeItemsInCartHandlerAsWritten: as written in every other respect, but it adds through the corrected `ProductTables.CartAdd`, without the 64-bit wrap of the sum.
- PaymentApi.SelectCouponHandler: as written in every other respect, but it adds through the corrected `ProductTables.CartAdd`, without the 64-bit wrap of the sum.
- ProductTables.UserTables.AddFavouriteSku: performs the insert the intended way, into user_favorite_skus. The insert as written names no table; `ProductTables.AddFavouriteAsWritten` models that (see "## Findings").

## Findings

| source | as written | input that shows it | evidently intended | confidence | as-written member | corrected member |
|---|---|---|---|---|---|---|
| server/api/v1/product/product.go:823 | the change-quantity endpoint calls AddItemsIntoCart, so the quantity is added to the one in the cart | a cart with 2 of SKU "A" (stock 10) and `quantity=3` ends with 5 | call ChangeItemsInCart and set the quantity to 3 | high, not executed | ProductApi.ChangeAsWrittenAdds | ProductApi.ChangeItemsInCartHandler |
| server/api/v1/product/product.go:353-366 | AddFavouriteSku and AddViewedSkus (594-604) reply success for any error other than the two they check | a failed insert (`DbError`) replies OK | reply success only when there was no error | medium, not executed | ProductApi.AddPairReplyHidesFailures | ProductApi.AddPairReply |
| server/service/product/paymant.go:78-81 | the coupon query selects only conpon_code, which no field of the struct maps to, so is_active, the window and the minimum scan as zero values | any existing active coupon is reported as CouponInvalid | select the columns the checks read | high, not executed | PaymentService.SelectCouponAsWrittenNeverPasses | PaymentService.SelectCouponPassesIff |
| server/service/product/product.go:969-970 | the SKU-id branch builds its result, then returns an "invalid product id" error | `GetTargetProductSkus("sku-1", "", …)` fails however the lookups go | return the SKU it looked up | high, not executed | ProductService.TargetSkuPathAlwaysFails | ProductService.GetTargetProductSkusIntended |
| server/service/product/product.go:1407 | `offset := (page - 1) * limit` in int64 with no upper bound on page | `page=1152921504606846976` with the default limit 10 gives a negative offset | bound the page, or compute the offset without overflow | medium, not executed | ProductApi.HugePageWrapsOffset | ProductService.Offset |
| server/service/product/product.go:359-363 | `existing.Quantity + Quantity` is a Go `int` sum that wraps around before it is compared with the stock | 1 of SKU "A" in the cart, stock 10, `quantity=9223372036854775807`: the sum wraps to MinInt64, passes the check, is stored, and the endpoint replies OK | refuse a total above the stock, the sum taken without overflow | medium, not executed | ProductTables.CartAddWrapsAround | ProductTables.CartAdd |
| server/service/product/product.go:1802-1808 | the favourite insert is a `Create` of an anonymous struct with no table named, which GORM cannot map to a table (the file's own inserts at 368 and 692 name theirs for that reason) | adding a known SKU that is not yet a favourite: the insert fails, and the reply (353-366) is OK, with nothing stored | name the table, as the other inserts do | medium, not executed | ProductApi.FavouriteAsWrittenIsLost | ProductApi.AddFavouriteSkuHandler |
