/**
 * The per-user tables the product service updates in place
 * (server/service/product/product.go): user_cart_items, user_favorite_skus,
 * user_viewed_skus and user_shipping_addresses, with product_skus and
 * inventory read for the existence and stock checks. Each table is a sequence
 * of rows in insertion order; every query succeeds (database failures are not
 * modelled here).
 */
module ProductTables {
  import opened Wrappers
  import opened GoRuntime
  import opened ProductService

  type UserId = nat
  type SkuId = string

  /** An inventory row; a SKU without one scans as all zeroes. */
  datatype Stock = Stock(quantity: int, reserved: int)

  /** A row of user_cart_items. */
  datatype CartRow = CartRow(user: UserId, sku: SkuId, quantity: int)

  /** A row of user_favorite_skus or user_viewed_skus. */
  datatype UserSku = UserSku(user: UserId, sku: SkuId)

  /** The request body of the address create and change endpoints (dto.ShippingAddressInput). */
  datatype AddressInput = AddressInput(
    postalCode: string, prefecture: string, city: string, line1: string,
    line2: Option<string>, recipient: string, phone: string, isDefault: bool)

  /** A row of user_shipping_addresses. */
  datatype AddressRow = AddressRow(
    id: nat, user: UserId, postalCode: string, prefecture: string, city: string,
    line1: string, line2: Option<string>, recipient: string, phone: string, isDefault: bool)

  // ---------------------------------------------------------------------------
  // Cart rows

  predicate IsRowOf(row: CartRow, user: UserId, sku: SkuId)
  {
    row.user == user && row.sku == sku
  }

  /** The row `Take` returns: the first one of the user and SKU. */
  function FindCartRow(rows: seq<CartRow>, user: UserId, sku: SkuId): (r: Option<nat>)
    ensures r.Some? ==> r.value < |rows| && IsRowOf(rows[r.value], user, sku)
    ensures r.Some? ==> forall j :: 0 <= j < r.value ==> !IsRowOf(rows[j], user, sku)
    ensures r.None? <==> forall j :: 0 <= j < |rows| ==> !IsRowOf(rows[j], user, sku)
  {
    if rows == [] then None
    else if IsRowOf(rows[0], user, sku) then Some(0)
    else
      match FindCartRow(rows[1..], user, sku)
      case Some(i) => Some(i + 1)
      case None => None
  }

  /** UPDATE ... SET quantity = q WHERE user_id = user AND sku_id = sku. */
  function SetCartQuantity(rows: seq<CartRow>, user: UserId, sku: SkuId, q: int): (r: seq<CartRow>)
    ensures |r| == |rows|
    ensures forall i :: 0 <= i < |rows| && IsRowOf(rows[i], user, sku) ==> r[i] == CartRow(user, sku, q)
    ensures forall i :: 0 <= i < |rows| && !IsRowOf(rows[i], user, sku) ==> r[i] == rows[i]
  {
    seq(|rows|, i requires 0 <= i < |rows| =>
      if IsRowOf(rows[i], user, sku) then rows[i].(quantity := q) else rows[i])
  }

  /** DELETE ... WHERE user_id = user AND sku_id = sku: the other rows, in order. */
  function RemoveCartRows(rows: seq<CartRow>, user: UserId, sku: SkuId): (r: seq<CartRow>)
    ensures forall x :: x in r <==> x in rows && !IsRowOf(x, user, sku)
    ensures UniqueCartRows(rows) ==> UniqueCartRows(r)
  {
    if rows == [] then []
    else if IsRowOf(rows[0], user, sku) then RemoveCartRows(rows[1..], user, sku)
    else
      var rest := RemoveCartRows(rows[1..], user, sku);
      assert UniqueCartRows(rows) ==> forall x :: x in rest ==> !IsRowOf(x, rows[0].user, rows[0].sku);
      [rows[0]] + rest
  }

  /** At most one cart row per user and SKU. */
  predicate UniqueCartRows(rows: seq<CartRow>)
  {
    forall i, j :: 0 <= i < j < |rows| ==> !IsRowOf(rows[j], rows[i].user, rows[i].sku)
  }

  /** Stock not reserved by others; a SKU without an inventory row has none. */
  function AvailableIn(inventory: map<SkuId, Stock>, sku: SkuId): int
  {
    if sku in inventory then inventory[sku].quantity - inventory[sku].reserved else 0
  }

  /** No cart row asks for more than the available stock of its SKU. */
  predicate WithinStock(rows: seq<CartRow>, inventory: map<SkuId, Stock>)
  {
    forall i :: 0 <= i < |rows| ==> rows[i].quantity <= AvailableIn(inventory, rows[i].sku)
  }

  // ---------------------------------------------------------------------------
  // Favourite and viewed rows

  /** At most one row per (user, SKU) pair. */
  predicate NoDuplicates(rows: seq<UserSku>)
  {
    forall i, j :: 0 <= i < j < |rows| ==> rows[i] != rows[j]
  }

  /** DELETE ... WHERE user_id = p.user AND sku_id = p.sku: the other rows, in order. */
  function RemovePair(rows: seq<UserSku>, p: UserSku): (r: seq<UserSku>)
    ensures forall x :: x in r <==> x in rows && x != p
    ensures NoDuplicates(rows) ==> NoDuplicates(r)
  {
    if rows == [] then []
    else if rows[0] == p then RemovePair(rows[1..], p)
    else
      var rest := RemovePair(rows[1..], p);
      assert NoDuplicates(rows) ==> rows[0] !in rest;
      [rows[0]] + rest
  }

  // ---------------------------------------------------------------------------
  // Address rows

  /** UPDATE ... SET is_default = false WHERE user_id = user. */
  function ClearDefaults(rows: seq<AddressRow>, user: UserId): (r: seq<AddressRow>)
    ensures |r| == |rows|
    ensures forall i :: 0 <= i < |rows| ==>
      r[i] == if rows[i].user == user then rows[i].(isDefault := false) else rows[i]
    ensures forall i :: 0 <= i < |rows| ==>
      r[i].id == rows[i].id && r[i].user == rows[i].user && r[i].isDefault == (rows[i].isDefault && rows[i].user != user)
  {
    seq(|rows|, i requires 0 <= i < |rows| =>
      if rows[i].user == user then rows[i].(isDefault := false) else rows[i])
  }

  /**
   * GORM's Updates with a struct writes only its non-zero fields: an empty
   * string, a nil line 2 and a false is_default leave the stored value as it is.
   * The user_id written is the row's own (the WHERE clause matched it).
   */
  function UpdatedAddress(row: AddressRow, req: AddressInput): (r: AddressRow)
    ensures r.id == row.id && r.user == row.user
    ensures r.isDefault == (row.isDefault || req.isDefault)
    ensures req.postalCode != "" ==> r.postalCode == req.postalCode
    ensures req.postalCode == "" ==> r.postalCode == row.postalCode
    ensures req.line2.Some? ==> r.line2 == req.line2
    ensures req.line2.None? ==> r.line2 == row.line2
  {
    AddressRow(
      row.id, row.user, NonZero(req.postalCode, row.postalCode), NonZero(req.prefecture, row.prefecture),
      NonZero(req.city, row.city), NonZero(req.line1, row.line1),
      if req.line2.Some? then req.line2 else row.line2,
      NonZero(req.recipient, row.recipient), NonZero(req.phone, row.phone),
      row.isDefault || req.isDefault)
  }

  /** The value a string column holds after Updates: the new one unless it is the zero value "". */
  function NonZero(given: string, stored: string): string
  {
    if given != "" then given else stored
  }

  /** UPDATE ... WHERE id = id AND user_id = user, with Updates' zero-value rule. */
  function UpdateAddress(rows: seq<AddressRow>, id: int, user: UserId, req: AddressInput): (r: seq<AddressRow>)
    ensures |r| == |rows|
    ensures forall i :: 0 <= i < |rows| ==>
      r[i] == if rows[i].id == id && rows[i].user == user then UpdatedAddress(rows[i], req) else rows[i]
  {
    seq(|rows|, i requires 0 <= i < |rows| =>
      if rows[i].id == id && rows[i].user == user then UpdatedAddress(rows[i], req) else rows[i])
  }

  /** DELETE ... WHERE id = id: the other rows, in order. */
  function RemoveAddress(rows: seq<AddressRow>, id: int): (r: seq<AddressRow>)
    ensures forall x :: x in r <==> x in rows && x.id != id
    ensures |r| <= |rows|
  {
    if rows == [] then []
    else if rows[0].id == id then RemoveAddress(rows[1..], id)
    else [rows[0]] + RemoveAddress(rows[1..], id)
  }

  /** The row Create inserts for a new address. */
  function NewAddress(id: nat, user: UserId, req: AddressInput): AddressRow
  {
    AddressRow(id, user, req.postalCode, req.prefecture, req.city, req.line1, req.line2,
               req.recipient, req.phone, req.isDefault)
  }

  /** The ownership check: some row has this id and belongs to this user. */
  predicate OwnsAddress(rows: seq<AddressRow>, id: int, user: UserId)
  {
    exists i :: 0 <= i < |rows| && rows[i].id == id && rows[i].user == user
  }

  /** Every user has at most one default address. */
  predicate DefaultsUnique(rows: seq<AddressRow>)
  {
    forall i, j :: 0 <= i < |rows| && 0 <= j < |rows| && rows[i].isDefault && rows[j].isDefault
      && rows[i].user == rows[j].user
      ==> i == j
  }

  /** Row k is the user's one default address. */
  predicate OnlyDefault(rows: seq<AddressRow>, user: UserId, k: nat)
  {
    k < |rows| && rows[k].user == user && rows[k].isDefault
    && forall i :: 0 <= i < |rows| && rows[i].user == user && rows[i].isDefault ==> i == k
  }

  /** Primary-key discipline of an auto-increment id column. */
  predicate IdsBelow(rows: seq<AddressRow>, next: nat)
  {
    && (forall i :: 0 <= i < |rows| ==> rows[i].id < next)
    && (forall i, j :: 0 <= i < j < |rows| ==> rows[i].id != rows[j].id)
  }

  /** A row whose id is below the next one and differs from every id of a list can go in front of it. */
  lemma PrependKeepsIds(a: AddressRow, rest: seq<AddressRow>, next: nat)
    requires IdsBelow(rest, next) && a.id < next
    requires forall k :: 0 <= k < |rest| ==> rest[k].id != a.id
    ensures IdsBelow([a] + rest, next)
  {
    var r := [a] + rest;
    forall i, j | 0 <= i < j < |r| ensures r[i].id != r[j].id {
      assert r[j] == rest[j - 1];
      if i > 0 {
        assert r[i] == rest[i - 1];
      }
    }
  }

  lemma {:induction false} RemoveAddressKeepsIds(rows: seq<AddressRow>, id: int, next: nat)
    requires IdsBelow(rows, next)
    ensures IdsBelow(RemoveAddress(rows, id), next)
  {
    if rows != [] {
      var tail := rows[1..];
      RemoveAddressKeepsIds(tail, id, next);
      var rest := RemoveAddress(tail, id);
      if rows[0].id != id {
        forall k | 0 <= k < |rest| ensures rest[k].id != rows[0].id {
          assert rest[k] in rest;
          var j :| 0 <= j < |tail| && tail[j] == rest[k];
          assert rows[j + 1] == rest[k];
        }
        PrependKeepsIds(rows[0], rest, next);
      }
    }
  }

  lemma {:induction false} RemoveAddressKeepsDefaults(rows: seq<AddressRow>, id: int)
    requires DefaultsUnique(rows)
    ensures DefaultsUnique(RemoveAddress(rows, id))
  {
    if rows != [] {
      RemoveAddressKeepsDefaults(rows[1..], id);
    }
  }

  // ---------------------------------------------------------------------------
  // The operations as transitions of the tables: an error, or the new table.

  /** The quantity the user has of a SKU in the cart: that of its first row, 0 without one. */
  function QuantityOf(rows: seq<CartRow>, user: UserId, sku: SkuId): int
  {
    match FindCartRow(rows, user, sku)
    case Some(i) => rows[i].quantity
    case None => 0
  }

  /** Setting the quantity of a user's SKU leaves its row where it was. */
  lemma {:induction false} FindAfterSet(rows: seq<CartRow>, user: UserId, sku: SkuId, q: int)
    ensures FindCartRow(SetCartQuantity(rows, user, sku, q), user, sku) == FindCartRow(rows, user, sku)
    decreases |rows|
  {
    if rows != [] {
      var after := SetCartQuantity(rows, user, sku, q);
      assert after[1..] == SetCartQuantity(rows[1..], user, sku, q);
      FindAfterSet(rows[1..], user, sku, q);
    }
  }

  /** A row appended for a SKU the user did not have is the one found. */
  lemma FindAfterAppend(rows: seq<CartRow>, row: CartRow)
    requires FindCartRow(rows, row.user, row.sku).None?
    ensures FindCartRow(rows + [row], row.user, row.sku) == Some(|rows|)
  {
    assert IsRowOf((rows + [row])[|rows|], row.user, row.sku);
  }

  /** Rows that are not the user's SKU keep their quantities. */
  predicate OthersUnchanged(before: seq<CartRow>, after: seq<CartRow>, user: UserId, sku: SkuId)
  {
    |before| <= |after|
    && forall i :: 0 <= i < |before| && !IsRowOf(before[i], user, sku) ==> after[i] == before[i]
  }

  /**
   * AddItemsIntoCart: unknown SKU, then no available stock, then a total above
   * the available stock are refused; otherwise the user's quantity of the SKU
   * grows by `quantity`, in its existing row or a new one.
   */
  function CartAdd(skus: set<SkuId>, inventory: map<SkuId, Stock>, cart: seq<CartRow>,
                   user: UserId, sku: SkuId, quantity: int): (r: (Option<ServiceError>, seq<CartRow>))
    ensures r.0.Some? ==> r.1 == cart
    ensures sku !in skus ==> r.0 == Some(ProductNotFound)
    ensures sku in skus && AvailableIn(inventory, sku) <= 0 ==> r.0 == Some(InsufficientStock)
    ensures r.0 == Some(ExceedsAvailable) <==>
      sku in skus && 0 < AvailableIn(inventory, sku) < QuantityOf(cart, user, sku) + quantity
    ensures r.0.None? <==>
      sku in skus && 0 < AvailableIn(inventory, sku) && QuantityOf(cart, user, sku) + quantity <= AvailableIn(inventory, sku)
    ensures r.0.None? ==>
      && QuantityOf(r.1, user, sku) == QuantityOf(cart, user, sku) + quantity
      && QuantityOf(r.1, user, sku) <= AvailableIn(inventory, sku)
      && FindCartRow(r.1, user, sku).Some?
      && OthersUnchanged(cart, r.1, user, sku)
    ensures r.0.None? ==>
      && |r.1| <= |cart| + 1
      && forall i :: |cart| <= i < |r.1| ==> r.1[i] == CartRow(user, sku, quantity)
    ensures r.0.None? && FindCartRow(cart, user, sku).Some? ==> |r.1| == |cart|
    ensures r.0.None? && FindCartRow(cart, user, sku).None? ==> r.1 == cart + [CartRow(user, sku, quantity)]
    ensures WithinStock(cart, inventory) ==> WithinStock(r.1, inventory)
    ensures UniqueCartRows(cart) ==> UniqueCartRows(r.1)
  {
    if sku !in skus then (Some(ProductNotFound), cart)
    else
      var available := AvailableIn(inventory, sku);
      if available <= 0 then (Some(InsufficientStock), cart)
      else
        match FindCartRow(cart, user, sku)
        case Some(i) =>
          var total := cart[i].quantity + quantity;
          if total > available then (Some(ExceedsAvailable), cart)
          else
            FindAfterSet(cart, user, sku, total);
            (None, SetCartQuantity(cart, user, sku, total))
        case None =>
          if quantity > available then (Some(ExceedsAvailable), cart)
          else
            var row := CartRow(user, sku, quantity);
            FindAfterAppend(cart, row);
            (None, cart + [row])
  }

  /**
   * AddItemsIntoCart as written: the existing quantity plus the requested one
   * is a Go `int` sum, which wraps around past MaxInt64 before it is compared
   * with the available stock and written back.
   */
  function CartAddAsWritten(skus: set<SkuId>, inventory: map<SkuId, Stock>, cart: seq<CartRow>,
                            user: UserId, sku: SkuId, quantity: int): (r: (Option<ServiceError>, seq<CartRow>))
    ensures r.0.Some? ==> r.1 == cart
    ensures r.0.None? && FindCartRow(cart, user, sku).Some? ==>
      QuantityOf(r.1, user, sku) == Wrap64(QuantityOf(cart, user, sku) + quantity)
  {
    if sku !in skus then (Some(ProductNotFound), cart)
    else
      var available := AvailableIn(inventory, sku);
      if available <= 0 then (Some(InsufficientStock), cart)
      else
        match FindCartRow(cart, user, sku)
        case Some(i) =>
          var total := Wrap64(cart[i].quantity + quantity);
          if total > available then (Some(ExceedsAvailable), cart)
          else
            FindAfterSet(cart, user, sku, total);
            (None, SetCartQuantity(cart, user, sku, total))
        case None =>
          if quantity > available then (Some(ExceedsAvailable), cart)
          else
            var row := CartRow(user, sku, quantity);
            FindAfterAppend(cart, row);
            (None, cart + [row])
  }

  /** Wherever the sum fits in 64 bits, the add as written is the corrected CartAdd. */
  lemma CartAddAsWrittenInRange(skus: set<SkuId>, inventory: map<SkuId, Stock>, cart: seq<CartRow>,
                                user: UserId, sku: SkuId, quantity: int)
    requires MinInt64 <= QuantityOf(cart, user, sku) + quantity <= MaxInt64
    ensures CartAddAsWritten(skus, inventory, cart, user, sku, quantity) == CartAdd(skus, inventory, cart, user, sku, quantity)
  {
    if sku in skus && AvailableIn(inventory, sku) > 0 && FindCartRow(cart, user, sku).Some? {
      var i := FindCartRow(cart, user, sku).value;
      assert Wrap64(cart[i].quantity + quantity) == cart[i].quantity + quantity;
    }
  }

  /**
   * One of a SKU in the cart plus MaxInt64 more wraps around to MinInt64: as
   * written the add succeeds and stores a negative quantity, where the
   * unbounded sum is refused as exceeding the stock.
   */
  lemma CartAddWrapsAround()
    ensures var cart := [CartRow(1, "A", 1)];
      var inventory := map["A" := Stock(10, 0)];
      && CartAddAsWritten({"A"}, inventory, cart, 1, "A", MaxInt64).0.None?
      && QuantityOf(CartAddAsWritten({"A"}, inventory, cart, 1, "A", MaxInt64).1, 1, "A") == MinInt64
      && CartAdd({"A"}, inventory, cart, 1, "A", MaxInt64).0 == Some(ExceedsAvailable)
  {
    var cart := [CartRow(1, "A", 1)];
    assert FindCartRow(cart, 1, "A") == Some(0);
    assert Wrap64(1 + MaxInt64) == MinInt64;
  }

  /**
   * ChangeItemsInCart: unknown SKU, then no row of the user's (both reported as
   * ProductNotFound), then a quantity above the available stock are refused;
   * otherwise the user's quantity of the SKU becomes exactly `quantity`.
   */
  function CartChange(skus: set<SkuId>, inventory: map<SkuId, Stock>, cart: seq<CartRow>,
                      user: UserId, sku: SkuId, quantity: int): (r: (Option<ServiceError>, seq<CartRow>))
    ensures r.0.Some? ==> r.1 == cart
    ensures r.0 == Some(ProductNotFound) <==> sku !in skus || FindCartRow(cart, user, sku).None?
    ensures r.0 == Some(ExceedsAvailable) <==>
      sku in skus && FindCartRow(cart, user, sku).Some? && quantity > AvailableIn(inventory, sku)
    ensures r.0.None? ==>
      && QuantityOf(r.1, user, sku) == quantity
      && |r.1| == |cart|
      && OthersUnchanged(cart, r.1, user, sku)
    ensures WithinStock(cart, inventory) ==> WithinStock(r.1, inventory)
    ensures UniqueCartRows(cart) ==> UniqueCartRows(r.1)
  {
    if sku !in skus then (Some(ProductNotFound), cart)
    else if FindCartRow(cart, user, sku).None? then (Some(ProductNotFound), cart)
    else if quantity > AvailableIn(inventory, sku) then (Some(ExceedsAvailable), cart)
    else
      FindAfterSet(cart, user, sku, quantity);
      (None, SetCartQuantity(cart, user, sku, quantity))
  }

  /**
   * DeleteItemsFromCart: unknown SKU, then no row of the user's (reported as
   * FavoriteNotFound) are refused; otherwise exactly the user's rows of the SKU go.
   */
  function CartDelete(skus: set<SkuId>, cart: seq<CartRow>, user: UserId, sku: SkuId): (r: (Option<ServiceError>, seq<CartRow>))
    ensures r.0.Some? ==> r.1 == cart
    ensures sku !in skus ==> r.0 == Some(ProductNotFound)
    ensures r.0 == Some(FavoriteNotFound) <==> sku in skus && FindCartRow(cart, user, sku).None?
    ensures r.0.None? <==> sku in skus && FindCartRow(cart, user, sku).Some?
    ensures r.0.None? ==> forall x :: x in r.1 <==> x in cart && !IsRowOf(x, user, sku)
    ensures FindCartRow(r.1, user, sku).None? || r.0.Some?
    ensures forall inventory :: WithinStock(cart, inventory) ==> WithinStock(r.1, inventory)
    ensures UniqueCartRows(cart) ==> UniqueCartRows(r.1)
  {
    if sku !in skus then (Some(ProductNotFound), cart)
    else if FindCartRow(cart, user, sku).None? then (Some(FavoriteNotFound), cart)
    else
      var rest := RemoveCartRows(cart, user, sku);
      assert forall i :: 0 <= i < |rest| ==> rest[i] in cart && !IsRowOf(rest[i], user, sku) by {
        forall i | 0 <= i < |rest| ensures rest[i] in cart && !IsRowOf(rest[i], user, sku) {
          assert rest[i] in rest;
        }
      }
      (None, rest)
  }

  /**
   * AddFavouriteSku and AddViewedSkus: unknown SKU, then a pair already in the
   * table (AlreadyFavorited), are refused; otherwise the pair is appended.
   */
  function AddPair(skus: set<SkuId>, rows: seq<UserSku>, p: UserSku): (r: (Option<ServiceError>, seq<UserSku>))
    ensures r.0.Some? ==> r.1 == rows
    ensures p.sku !in skus ==> r.0 == Some(ProductNotFound)
    ensures r.0 == Some(AlreadyFavorited) <==> p.sku in skus && p in rows
    ensures r.0.None? <==> p.sku in skus && p !in rows
    ensures r.0.None? ==> r.1 == rows + [p]
    ensures p.sku in skus ==> p in r.1
    ensures NoDuplicates(rows) ==> NoDuplicates(r.1)
  {
    if p.sku !in skus then (Some(ProductNotFound), rows)
    else if p in rows then (Some(AlreadyFavorited), rows)
    else (None, rows + [p])
  }

  /**
   * AddFavouriteSku as written: after the two checks, the insert is a Create of
   * an anonymous struct with no table named, and GORM cannot name the table of
   * an anonymous struct, so the insert fails whenever it is reached and
   * nothing is stored.
   */
  function AddFavouriteAsWritten(skus: set<SkuId>, rows: seq<UserSku>, p: UserSku): (r: (Option<ServiceError>, seq<UserSku>))
    ensures r.1 == rows
    ensures r.0.Some?
    ensures r.0 == Some(DbError) <==> AddPair(skus, rows, p).0.None?
    ensures AddPair(skus, rows, p).0.Some? ==> r.0 == AddPair(skus, rows, p).0
  {
    if p.sku !in skus then (Some(ProductNotFound), rows)
    else if p in rows then (Some(AlreadyFavorited), rows)
    else (Some(DbError), rows)
  }

  /**
   * DeleteFavouriteSku: unknown SKU, then a pair not in the table
   * (FavoriteNotFound), are refused; otherwise exactly that pair goes.
   */
  function DeletePair(skus: set<SkuId>, rows: seq<UserSku>, p: UserSku): (r: (Option<ServiceError>, seq<UserSku>))
    ensures r.0.Some? ==> r.1 == rows
    ensures p.sku !in skus ==> r.0 == Some(ProductNotFound)
    ensures r.0 == Some(FavoriteNotFound) <==> p.sku in skus && p !in rows
    ensures r.0.None? <==> p.sku in skus && p in rows
    ensures r.0.None? ==> forall x :: x in r.1 <==> x in rows && x != p
    ensures p !in r.1 || r.0.Some?
    ensures NoDuplicates(rows) ==> NoDuplicates(r.1)
  {
    if p.sku !in skus then (Some(ProductNotFound), rows)
    else if p !in rows then (Some(FavoriteNotFound), rows)
    else (None, RemovePair(rows, p))
  }

  /** Rows of other users are untouched; the user's rows lose their default flag when `clear` holds. */
  predicate DefaultsClearedFor(before: seq<AddressRow>, after: seq<AddressRow>, user: UserId, clear: bool)
  {
    |before| <= |after|
    && forall i :: 0 <= i < |before| ==>
      after[i] == if clear && before[i].user == user then before[i].(isDefault := false) else before[i]
  }

  /**
   * CreateShippingAddress: a new default first clears the user's other
   * defaults; the new row, with the next id, goes at the end.
   */
  function AddressCreate(rows: seq<AddressRow>, next: nat, user: UserId, req: AddressInput): (r: seq<AddressRow>)
    ensures |r| == |rows| + 1 && r[|rows|] == NewAddress(next, user, req)
    ensures DefaultsClearedFor(rows, r, user, req.isDefault)
    ensures IdsBelow(rows, next) ==> IdsBelow(r, next + 1)
    ensures DefaultsUnique(rows) ==> DefaultsUnique(r)
    ensures req.isDefault ==> OnlyDefault(r, user, |rows|)
  {
    var kept := if req.isDefault then ClearDefaults(rows, user) else rows;
    CreateKeepsIds(rows, kept, NewAddress(next, user, req), next);
    CreateKeepsDefaults(rows, kept, NewAddress(next, user, req));
    kept + [NewAddress(next, user, req)]
  }

  /** Appending a row with the next id to rows whose ids are kept gives ids below the id after it. */
  lemma CreateKeepsIds(rows: seq<AddressRow>, kept: seq<AddressRow>, a: AddressRow, next: nat)
    requires |kept| == |rows| && forall i :: 0 <= i < |rows| ==> kept[i].id == rows[i].id
    requires a.id == next
    ensures IdsBelow(rows, next) ==> IdsBelow(kept + [a], next + 1)
  {
    if IdsBelow(rows, next) {
      var r := kept + [a];
      forall i, j | 0 <= i < j < |r| ensures r[i].id != r[j].id {
        assert r[i] == kept[i];
        if j < |kept| {
          assert r[j] == kept[j];
        }
      }
    }
  }

  /**
   * Appending a row to rows whose defaults are those of `rows`, or those of
   * `rows` with the new row's user's defaults cleared when the new row is a default.
   */
  lemma CreateKeepsDefaults(rows: seq<AddressRow>, kept: seq<AddressRow>, a: AddressRow)
    requires |kept| == |rows|
    requires forall i :: 0 <= i < |rows| ==> kept[i].user == rows[i].user
    requires forall i :: 0 <= i < |rows| ==>
      kept[i].isDefault == (rows[i].isDefault && !(a.isDefault && rows[i].user == a.user))
    ensures DefaultsUnique(rows) ==> DefaultsUnique(kept + [a])
    ensures a.isDefault ==> OnlyDefault(kept + [a], a.user, |rows|)
  {
    var r := kept + [a];
    forall i | 0 <= i < |kept| ensures r[i] == kept[i] {
    }
  }

  /**
   * ChangeShippingAddress: an address the user does not own is refused;
   * otherwise a new default first clears the user's defaults, then the
   * request's non-zero fields are written to that address.
   */
  function AddressChange(rows: seq<AddressRow>, id: int, user: UserId, req: AddressInput): (r: (Option<ServiceError>, seq<AddressRow>))
    ensures r.0.Some? ==> r.1 == rows
    ensures r.0 == Some(AddressNotOwned) <==> !OwnsAddress(rows, id, user)
    ensures r.0.None? <==> OwnsAddress(rows, id, user)
    ensures |r.1| == |rows|
    ensures r.0.None? ==> forall i :: 0 <= i < |rows| ==>
      var cleared := if req.isDefault && rows[i].user == user then rows[i].(isDefault := false) else rows[i];
      r.1[i] == if rows[i].id == id && rows[i].user == user then UpdatedAddress(cleared, req) else cleared
    ensures forall next: nat :: IdsBelow(rows, next) ==> IdsBelow(r.1, next)
    ensures Unique(rows) && DefaultsUnique(rows) ==> DefaultsUnique(r.1)
    ensures Unique(rows) && r.0.None? && req.isDefault ==>
      exists k :: 0 <= k < |r.1| && r.1[k].id == id && OnlyDefault(r.1, user, k)
  {
    if !OwnsAddress(rows, id, user) then (Some(AddressNotOwned), rows)
    else
      var changed := ChangedRows(rows, id, user, req);
      ChangeKeepsDefaults(rows, id, user, req);
      assert Unique(rows) && req.isDefault ==>
        exists k :: 0 <= k < |changed| && changed[k].id == id && OnlyDefault(changed, user, k) by {
        if Unique(rows) && req.isDefault {
          var k :| 0 <= k < |rows| && rows[k].id == id && rows[k].user == user;
          ChangeSetsDefault(rows, id, user, req, k);
        }
      }
      (None, changed)
  }

  /** The rows after a change: the user's defaults cleared first when asked for, then the owned row updated. */
  function ChangedRows(rows: seq<AddressRow>, id: int, user: UserId, req: AddressInput): (r: seq<AddressRow>)
    ensures |r| == |rows|
    ensures forall i :: 0 <= i < |rows| ==>
      var cleared := if req.isDefault && rows[i].user == user then rows[i].(isDefault := false) else rows[i];
      r[i] == if rows[i].id == id && rows[i].user == user then UpdatedAddress(cleared, req) else cleared
    ensures forall i :: 0 <= i < |rows| ==> r[i].id == rows[i].id && r[i].user == rows[i].user
    ensures forall i :: 0 <= i < |rows| ==>
      r[i].isDefault == if req.isDefault && rows[i].user == user then rows[i].id == id else rows[i].isDefault
  {
    UpdateAddress(if req.isDefault then ClearDefaults(rows, user) else rows, id, user, req)
  }

  /** A change keeps at most one default per user when the ids are distinct. */
  lemma ChangeKeepsDefaults(rows: seq<AddressRow>, id: int, user: UserId, req: AddressInput)
    ensures Unique(rows) && DefaultsUnique(rows) ==> DefaultsUnique(ChangedRows(rows, id, user, req))
  {
    var r := ChangedRows(rows, id, user, req);
    if Unique(rows) && DefaultsUnique(rows) {
      forall i, j | 0 <= i < |r| && 0 <= j < |r| && r[i].isDefault && r[j].isDefault && r[i].user == r[j].user
        ensures i == j
      {
        if req.isDefault && rows[i].user == user {
          assert rows[i].id == id && rows[j].id == id;
        }
      }
    }
  }

  /** Making address k a default leaves it the user's only default. */
  lemma ChangeSetsDefault(rows: seq<AddressRow>, id: int, user: UserId, req: AddressInput, k: nat)
    requires Unique(rows) && req.isDefault
    requires k < |rows| && rows[k].id == id && rows[k].user == user
    ensures ChangedRows(rows, id, user, req)[k].id == id
    ensures OnlyDefault(ChangedRows(rows, id, user, req), user, k)
  {
  }

  /** The address ids are pairwise distinct. */
  predicate Unique(rows: seq<AddressRow>)
  {
    forall i, j :: 0 <= i < j < |rows| ==> rows[i].id != rows[j].id
  }

  /**
   * DeleteShippingAddress: an address the user does not own is refused;
   * otherwise every row with that id goes.
   */
  function AddressDelete(rows: seq<AddressRow>, id: int, user: UserId): (r: (Option<ServiceError>, seq<AddressRow>))
    ensures r.0.Some? ==> r.1 == rows
    ensures r.0 == Some(AddressNotOwned) <==> !OwnsAddress(rows, id, user)
    ensures r.0.None? <==> OwnsAddress(rows, id, user)
    ensures r.0.None? ==> forall x :: x in r.1 <==> x in rows && x.id != id
    ensures forall next: nat :: IdsBelow(rows, next) ==> IdsBelow(r.1, next)
    ensures DefaultsUnique(rows) ==> DefaultsUnique(r.1)
  {
    if !OwnsAddress(rows, id, user) then (Some(AddressNotOwned), rows)
    else
      var rest := RemoveAddress(rows, id);
      assert forall next: nat :: IdsBelow(rows, next) ==> IdsBelow(rest, next) by {
        forall next: nat | IdsBelow(rows, next) ensures IdsBelow(rest, next) {
          RemoveAddressKeepsIds(rows, id, next);
        }
      }
      assert DefaultsUnique(rows) ==> DefaultsUnique(rest) by {
        if DefaultsUnique(rows) {
          RemoveAddressKeepsDefaults(rows, id);
        }
      }
      (None, rest)
  }

  // ---------------------------------------------------------------------------

  /** The tables, as the service's methods see them. */
  class UserTables {
    var skus: set<SkuId>                  // product_skus.id
    var inventory: map<SkuId, Stock>      // inventory by sku_id
    var cart: seq<CartRow>                // user_cart_items
    var favourites: seq<UserSku>          // user_favorite_skus
    var viewed: seq<UserSku>              // user_viewed_skus
    var addresses: seq<AddressRow>        // user_shipping_addresses
    var nextAddressId: nat                // the next auto-increment id

    /** Address ids are distinct and below the next one; cart rows are unique and within stock; pairs are unique. */
    ghost predicate Valid()
      reads this
    {
      && IdsBelow(addresses, nextAddressId)
      && DefaultsUnique(addresses)
      && UniqueCartRows(cart)
      && WithinStock(cart, inventory)
      && NoDuplicates(favourites)
      && NoDuplicates(viewed)
    }

    function Available(sku: SkuId): int
      reads this
    {
      AvailableIn(inventory, sku)
    }

    constructor (skus: set<SkuId>, inventory: map<SkuId, Stock>)
      ensures Valid()
      ensures this.skus == skus && this.inventory == inventory
      ensures cart == [] && favourites == [] && viewed == [] && addresses == []
    {
      this.skus := skus;
      this.inventory := inventory;
      cart, favourites, viewed, addresses := [], [], [], [];
      nextAddressId := 1;
    }

    method AddItemsIntoCart(user: UserId, sku: SkuId, quantity: int) returns (err: Option<ServiceError>)
      requires Valid()
      modifies this`cart
      ensures Valid()
      ensures (err, cart) == CartAdd(skus, inventory, old(cart), user, sku, quantity)
    {
      if sku !in skus {
        return Some(ProductNotFound);
      }
      var available := Available(sku);
      if available <= 0 {
        return Some(InsufficientStock);
      }
      var existing := FindCartRow(cart, user, sku);
      if existing.Some? {
        var total := cart[existing.value].quantity + quantity;
        if total > available {
          return Some(ExceedsAvailable);
        }
        cart := SetCartQuantity(cart, user, sku, total);
      } else {
        if quantity > available {
          return Some(ExceedsAvailable);
        }
        cart := cart + [CartRow(user, sku, quantity)];
      }
      err := None;
    }

    method ChangeItemsInCart(user: UserId, sku: SkuId, quantity: int) returns (err: Option<ServiceError>)
      requires Valid()
      modifies this`cart
      ensures Valid()
      ensures (err, cart) == CartChange(skus, inventory, old(cart), user, sku, quantity)
    {
      if sku !in skus {
        return Some(ProductNotFound);
      }
      var existing := FindCartRow(cart, user, sku);
      if existing.None? {
        return Some(ProductNotFound);
      }
      var available := Available(sku);
      if quantity > available {
        return Some(ExceedsAvailable);
      }
      cart := SetCartQuantity(cart, user, sku, quantity);
      err := None;
    }

    method DeleteItemsFromCart(user: UserId, sku: SkuId) returns (err: Option<ServiceError>)
      requires Valid()
      modifies this`cart
      ensures Valid()
      ensures (err, cart) == CartDelete(skus, old(cart), user, sku)
    {
      if sku !in skus {
        return Some(ProductNotFound);
      }
      if FindCartRow(cart, user, sku).None? {
        return Some(FavoriteNotFound);
      }
      var rest := RemoveCartRows(cart, user, sku);
      forall i | 0 <= i < |rest| ensures rest[i] in cart {
        assert rest[i] in rest;
      }
      cart := rest;
      err := None;
    }

    method AddFavouriteSku(user: UserId, sku: SkuId) returns (err: Option<ServiceError>)
      requires Valid()
      modifies this`favourites
      ensures Valid()
      ensures (err, favourites) == AddPair(skus, old(favourites), UserSku(user, sku))
    {
      if sku !in skus {
        return Some(ProductNotFound);
      }
      if UserSku(user, sku) in favourites {
        return Some(AlreadyFavorited);
      }
      favourites := favourites + [UserSku(user, sku)];
      err := None;
    }

    method DeleteFavouriteSku(user: UserId, sku: SkuId) returns (err: Option<ServiceError>)
      requires Valid()
      modifies this`favourites
      ensures Valid()
      ensures (err, favourites) == DeletePair(skus, old(favourites), UserSku(user, sku))
    {
      if sku !in skus {
        return Some(ProductNotFound);
      }
      if UserSku(user, sku) !in favourites {
        return Some(FavoriteNotFound);
      }
      favourites := RemovePair(favourites, UserSku(user, sku));
      err := None;
    }

    method AddViewedSkus(user: UserId, sku: SkuId) returns (err: Option<ServiceError>)
      requires Valid()
      modifies this`viewed
      ensures Valid()
      ensures (err, viewed) == AddPair(skus, old(viewed), UserSku(user, sku))
    {
      if sku !in skus {
        return Some(ProductNotFound);
      }
      if UserSku(user, sku) in viewed {
        return Some(AlreadyFavorited);
      }
      viewed := viewed + [UserSku(user, sku)];
      err := None;
    }

    method CreateShippingAddress(user: UserId, req: AddressInput)
      requires Valid()
      modifies this`addresses, this`nextAddressId
      ensures Valid()
      ensures nextAddressId == old(nextAddressId) + 1
      ensures addresses == AddressCreate(old(addresses), old(nextAddressId), user, req)
    {
      var rows := addresses;
      if req.isDefault {
        rows := ClearDefaults(rows, user);
      }
      addresses := rows + [NewAddress(nextAddressId, user, req)];
      nextAddressId := nextAddressId + 1;
    }

    method ChangeShippingAddress(user: UserId, addressId: int, req: AddressInput) returns (err: Option<ServiceError>)
      requires Valid()
      modifies this`addresses
      ensures Valid()
      ensures (err, addresses) == AddressChange(old(addresses), addressId, user, req)
    {
      if !OwnsAddress(addresses, addressId, user) {
        return Some(AddressNotOwned);
      }
      var rows := addresses;
      if req.isDefault {
        rows := ClearDefaults(rows, user);
      }
      addresses := UpdateAddress(rows, addressId, user, req);
      err := None;
    }

    method DeleteShippingAddress(user: UserId, addressId: int) returns (err: Option<ServiceError>)
      requires Valid()
      modifies this`addresses
      ensures Valid()
      ensures (err, addresses) == AddressDelete(old(addresses), addressId, user)
    {
      if !OwnsAddress(addresses, addressId, user) {
        return Some(AddressNotOwned);
      }
      RemoveAddressKeepsIds(addresses, addressId, nextAddressId);
      RemoveAddressKeepsDefaults(addresses, addressId);
      addresses := RemoveAddress(addresses, addressId);
      err := None;
    }
  }
}
