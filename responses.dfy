/**
 * The replies a handler writes (server/model/common/response/response.go),
 * reduced to what tells them apart: the helper used, the error code and which
 * message was chosen. The message texts themselves are not modelled.
 */
module Responses {

  /** The error codes the handlers send. */
  datatype ErrCode = InvalidParameter | NotFound | SkuNotFound | AlreadyExists

  /** Which of the handlers' messages a reply carries. */
  datatype Msg =
    | BadPage              // page must be a number of at least 1
    | BadLimit             // limit out of its range
    | BadRating            // rating must be 1..5
    | BadSort              // sort not in the endpoint's list
    | BadProductIdentifier // the product identifier is invalid
    | ShortProductCode     // the product code must have at least 7 bytes
    | ProductMissing       // the product was not found
    | SkuRequired          // sku_id is required
    | BadQuantity          // quantity must be a number of at least 1
    | SkuMissing           // the SKU was not found
    | BadSkuIdFormat       // the SKU id is malformed
    | AlreadyFavourite     // already among the favourites
    | AlreadyViewed        // the view was already recorded
    | ProductGone          // the specified product does not exist (delete endpoints)
    | FavouriteMissing     // the favourite was not found (delete endpoints)
    | DeleteFailed         // deleting failed
    | AddFailed            // adding failed

  datatype Reply =
    | FailCode(code: ErrCode, msg: Msg)  // FailWithCode: HTTP 404, {code, data: null, msg}
    | FailData(code: ErrCode, msg: Msg)  // FailWithMes: HTTP 200, {code: 7, data: code, msg}
    | FailMessage(msg: Msg)              // FailWithMessage: HTTP 200, {code: 7, data: {}, msg}
    | OkReply                            // Ok*: HTTP 200, {code: 200, ...}
    | NoReply                            // nothing is written
}
