/** The write side of shop/serializers.py: the related-count getters, the rating
    and registration validators, account creation, and nested order creation. */
module Serializers {
  import opened Results
  import opened Seqs
  import opened Models
  import opened Store

  // ---------------------------------------------------------------------
  // Related counts.
  // ---------------------------------------------------------------------

  /** `CategorySerializer.get_products_count`: never more than there are products. */
  function ProductsCount(t: Db, categoryId: nat): (r: nat)
    ensures r <= |t.products|
  {
    |Filter(t.products, Refs(ProductCategory, categoryId))|
  }

  /** `CustomerSerializer.get_orders_count`: never more than there are orders. */
  function OrdersCount(t: Db, customerId: nat): (r: nat)
    ensures r <= |t.orders|
  {
    |Filter(t.orders, Refs(OrderCustomer, customerId))|
  }

  /** `ProductListSerializer.get_reviews_count` (defined, though not among the listed
      fields): never more than there are reviews. */
  function ReviewsCount(t: Db, productId: nat): (r: nat)
    ensures r <= |t.reviews|
  {
    |ReviewsOf(t.reviews, productId)|
  }

  /** The count is zero exactly when no product is in the category. */
  lemma ProductsCountSpec(t: Db, categoryId: nat)
    ensures ProductsCount(t, categoryId) == 0 <==> forall p :: p in t.products ==> p.categoryId != categoryId
  {
    FilterEmptyIff(t.products, Refs(ProductCategory, categoryId));
    forall p ensures Refs(ProductCategory, categoryId)(p) == (p.categoryId == categoryId) {
      assert ProductCategory(p) == p.categoryId;
    }
  }

  /** The count is zero exactly when the customer has no orders. */
  lemma OrdersCountSpec(t: Db, customerId: nat)
    ensures OrdersCount(t, customerId) == 0 <==> forall o :: o in t.orders ==> o.customerId != customerId
  {
    FilterEmptyIff(t.orders, Refs(OrderCustomer, customerId));
    forall o ensures Refs(OrderCustomer, customerId)(o) == (o.customerId == customerId) {
      assert OrderCustomer(o) == o.customerId;
    }
  }

  /** Adding a product raises its own category's count by one and no other. */
  lemma ProductsCountAdd(t: Db, p: Product, categoryId: nat)
    ensures ProductsCount(t.(products := t.products + [p]), categoryId) ==
            ProductsCount(t, categoryId) + if p.categoryId == categoryId then 1 else 0
  {
    FilterAppend(t.products, [p], Refs(ProductCategory, categoryId));
    assert ProductCategory(p) == p.categoryId;
  }

  /** Adding an order raises its own customer's count by one and no other. */
  lemma OrdersCountAdd(t: Db, o: Order, customerId: nat)
    ensures OrdersCount(t.(orders := t.orders + [o]), customerId) ==
            OrdersCount(t, customerId) + if o.customerId == customerId then 1 else 0
  {
    FilterAppend(t.orders, [o], Refs(OrderCustomer, customerId));
    assert OrderCustomer(o) == o.customerId;
  }

  /** Adding a review raises its own product's count by one and no other. */
  lemma ReviewsCountAdd(t: Db, v: Review, productId: nat)
    ensures ReviewsCount(t.(reviews := t.reviews + [v]), productId) ==
            ReviewsCount(t, productId) + if v.productId == productId then 1 else 0
  {
    FilterAppend(t.reviews, [v], Refs(ReviewProduct, productId));
    assert ReviewProduct(v) == v.productId;
  }

  /** Deleting a category removes as many products as it counted, and leaves it none. */
  lemma ProductsCountCascade(t: Db, categoryId: nat)
    ensures |CategoryDeleted(t, categoryId).products| == |t.products| - ProductsCount(t, categoryId)
    ensures ProductsCount(CategoryDeleted(t, categoryId), categoryId) == 0
  {
    FilterSplit(t.products, Refs(ProductCategory, categoryId));
    ProductsCountSpec(CategoryDeleted(t, categoryId), categoryId);
    forall p | p in CategoryDeleted(t, categoryId).products ensures p.categoryId != categoryId {
      assert ProductCategory(p) == p.categoryId;
    }
  }

  /** Deleting a customer removes as many orders as it counted, and leaves it none. */
  lemma OrdersCountCascade(t: Db, customerId: nat)
    ensures |CustomerDeleted(t, customerId).orders| == |t.orders| - OrdersCount(t, customerId)
    ensures OrdersCount(CustomerDeleted(t, customerId), customerId) == 0
  {
    FilterSplit(t.orders, Refs(OrderCustomer, customerId));
    OrdersCountSpec(CustomerDeleted(t, customerId), customerId);
    forall o | o in CustomerDeleted(t, customerId).orders ensures o.customerId != customerId {
      assert OrderCustomer(o) == o.customerId;
    }
  }

  // ---------------------------------------------------------------------
  // Review rating.
  // ---------------------------------------------------------------------

  /** `ReviewSerializer.validated_rating`: out-of-range ratings are refused, others
      come back unchanged. */
  function ValidatedRating(value: int): (r: Result<int>)
    ensures r.Ok? <==> 1 <= value <= 5
    ensures r.Ok? ==> r.value == value
    ensures r.Err? ==> r.error == Invalid("rating")
  {
    if value < 1 || value > 5 then Err(Invalid("rating")) else Ok(value)
  }

  /** The hook is named `validated_rating`, not `validate_rating`, so the serializer
      never calls it; the same range is still enforced, by the model field's
      validators, which refuse exactly the values the hook would. */
  lemma RatingRangeEnforcedByModel(t: Db, v: Review)
    ensures ValidatedRating(v.rating).Ok? <==> RatingOk(v.rating)
    ensures ValidatedRating(v.rating).Err? ==> ReviewError(t, v) == Some(Invalid("rating"))
  {
  }

  // ---------------------------------------------------------------------
  // Registration.
  // ---------------------------------------------------------------------

  /** `min_length=8` on both password fields. */
  const PasswordMinLength := 8
  /** Limits of the account fields (Django's `User` model). */
  const UsernameMax := 150
  const NameMax := 150

  /** The fields the registration serializer reads; anything else is dropped. */
  const RegistrationFields := {"username", "email", "password", "password2", "first_name", "last_name"}

  /** A password field: required, at least 8 characters. */
  predicate PasswordOk(data: map<string, string>, field: string) {
    field in data && |data[field]| >= PasswordMinLength
  }

  /** An optional account field within its length. */
  predicate OptionalOk(data: map<string, string>, field: string, max: nat) {
    field in data ==> |data[field]| <= max
  }

  /** The field-level checks run before `validate`. */
  function RegistrationFieldError(data: map<string, string>): (r: Option<Error>)
    ensures r.None? <==>
      && "username" in data && Required(data["username"], UsernameMax)
      && OptionalOk(data, "email", EmailMax)
      && OptionalOk(data, "first_name", NameMax)
      && OptionalOk(data, "last_name", NameMax)
      && PasswordOk(data, "password") && PasswordOk(data, "password2")
  {
    if "username" !in data || !Required(data["username"], UsernameMax) then Some(Invalid("username"))
    else if !OptionalOk(data, "email", EmailMax) then Some(Invalid("email"))
    else if !OptionalOk(data, "first_name", NameMax) then Some(Invalid("first_name"))
    else if !OptionalOk(data, "last_name", NameMax) then Some(Invalid("last_name"))
    else if !PasswordOk(data, "password") then Some(Invalid("password"))
    else if !PasswordOk(data, "password2") then Some(Invalid("password2"))
    else None
  }

  /** `UserRegistrationSerializer.validate`: the two passwords must agree; the data
      passes through unchanged. */
  function Validate(data: map<string, string>): (r: Result<map<string, string>>)
    requires "password" in data && "password2" in data
    ensures r.Ok? <==> data["password"] == data["password2"]
    ensures r.Ok? ==> r.value == data
  {
    if data["password"] != data["password2"] then Err(Invalid("non_field_errors")) else Ok(data)
  }

  /** The account fields: the validated data without the confirmation field. */
  function WithoutConfirmation(data: map<string, string>): (r: map<string, string>)
    ensures r.Keys == data.Keys - {"password2"}
    ensures forall k :: k in r ==> r[k] == data[k]
  {
    data - {"password2"}
  }

  /** `UserRegistrationSerializer.create`: drops `password2` (which must be there)
      and hands the rest to account creation. */
  method CreateUser(validatedData: map<string, string>) returns (account: map<string, string>)
    requires "password2" in validatedData
    ensures account.Keys == validatedData.Keys - {"password2"}
    ensures forall k :: k in account ==> account[k] == validatedData[k]
  {
    account := WithoutConfirmation(validatedData);
  }

  /** The submitted data restricted to the declared fields. */
  function Cleaned(data: map<string, string>): (r: map<string, string>)
    ensures r.Keys == data.Keys * RegistrationFields
    ensures forall k :: k in r ==> r[k] == data[k]
  {
    map k | k in data && k in RegistrationFields :: data[k]
  }

  /** The fields of the account a registration creates. It succeeds exactly when
      every field is valid and the passwords agree; the account then has every
      submitted declared field except `password2`, with the submitted values. */
  function Registered(data: map<string, string>): (r: Result<map<string, string>>)
    ensures r.Ok? <==> RegistrationFieldError(data).None? && data["password"] == data["password2"]
    ensures r.Ok? ==>
      && r.value.Keys == data.Keys * (RegistrationFields - {"password2"})
      && (forall k :: k in r.value ==> r.value[k] == data[k])
  {
    var d := Cleaned(data);
    assert forall f :: f in RegistrationFields ==> (f in d <==> f in data);
    match RegistrationFieldError(d)
    case Some(e) => Err(e)
    case None =>
      match Validate(d)
      case Err(e) => Err(e)
      case Ok(v) => Ok(WithoutConfirmation(v))
  }

  /** Mismatched passwords are always refused, however valid the rest is. */
  lemma MismatchRefused(data: map<string, string>)
    requires "password" in data && "password2" in data && data["password"] != data["password2"]
    ensures Registered(data).Err?
  {
  }

  // ---------------------------------------------------------------------
  // Order creation.
  // ---------------------------------------------------------------------

  /** One nested item as submitted. A `subtotal` may be sent, but the field is read-only. */
  datatype ItemEntry = ItemEntry(product: nat, quantity: int, subtotal: Option<int>)

  /** The order as submitted to `OrderCreateSerializer`. */
  datatype OrderData = OrderData(
    customer: nat, totalPrice: int, status: Option<string>, notes: Option<string>,
    items: seq<ItemEntry>)

  predicate EntryOk(t: Db, e: ItemEntry) {
    e.quantity >= 1 && e.product in Keys(t.products, ProductKey)
  }

  /** `is_valid()`: the checks on the order fields and on every nested item. */
  function OrderDataError(t: Db, d: OrderData): (r: Option<Error>)
    ensures r.None? <==>
      && d.customer in Keys(t.customers, CustomerKey)
      && d.totalPrice >= 0
      && (d.status.Some? ==> ParseStatus(d.status.value).Some?)
      && (forall e :: e in d.items ==> EntryOk(t, e))
  {
    if d.customer !in Keys(t.customers, CustomerKey) then Some(NotFound("customer"))
    else if d.totalPrice < 0 then Some(Invalid("total_price"))
    else if d.status.Some? && ParseStatus(d.status.value).None? then Some(Invalid("status"))
    else if exists e :: e in d.items && !EntryOk(t, e) then Some(Invalid("items"))
    else None
  }

  /** The status an order is created with: the submitted one, or the default. */
  function StatusOf(d: OrderData): (s: Status)
    ensures d.status.None? ==> s == DefaultStatus
    ensures d.status.Some? && ParseStatus(d.status.value).Some? ==> StatusValue(s) == d.status.value
  {
    match d.status
    case None => DefaultStatus
    case Some(v) =>
      match ParseStatus(v)
      case Some(s) => s
      case None => DefaultStatus
  }

  /** The order row built from the non-`items` fields. */
  function NewOrder(d: OrderData, id: nat): Order {
    Order(id, d.customer, d.totalPrice, StatusOf(d), d.notes)
  }

  /** The item rows created for the entries, numbered from `first`, each stored
      through the save rule against the current prices. */
  function NewItems(orderId: nat, first: nat, entries: seq<ItemEntry>, products: seq<Product>): (r: seq<OrderItem>)
    ensures |r| == |entries|
    ensures forall k :: 0 <= k < |entries| ==>
      r[k] == OrderItem(first + k, orderId, entries[k].product, entries[k].quantity,
                        PriceOf(products, entries[k].product) * entries[k].quantity)
  {
    seq(|entries|, k requires 0 <= k < |entries| =>
      Saved(OrderItem(first + k, orderId, entries[k].product, entries[k].quantity, 0),
            PriceOf(products, entries[k].product)))
  }

  lemma NewItemsSnoc(orderId: nat, first: nat, entries: seq<ItemEntry>, k: nat, products: seq<Product>)
    requires k < |entries|
    ensures NewItems(orderId, first, entries[..k + 1], products) ==
            NewItems(orderId, first, entries[..k], products) +
            [Saved(OrderItem(first + k, orderId, entries[k].product, entries[k].quantity, 0),
                   PriceOf(products, entries[k].product))]
  {
  }

  /** `OrderCreateSerializer.create`: creates the order, then one item per entry,
      in order. Each step is a separate write; nothing groups them. */
  method Create(store: Store, d: OrderData) returns (orderId: nat)
    requires store.Valid() && OrderDataError(store.Snapshot(), d).None?
    modifies store
    ensures store.Valid()
    ensures orderId == old(store.next.order)
    ensures store.Snapshot() == old(store.Snapshot()).(
      orders := old(store.orders) + [NewOrder(d, orderId)],
      items := old(store.items) + NewItems(orderId, old(store.next.item), d.items, old(store.products)))
    ensures store.next == old(store.next).(order := orderId + 1, item := old(store.next.item) + |d.items|)
  {
    var r := store.AddOrder(NewOrder(d, 0));
    assert r.Ok?;
    orderId := r.value;
    assert NewOrder(d, 0).(id := orderId) == NewOrder(d, orderId);
    assert orderId in Keys(store.orders, OrderKey) by {
      assert NewOrder(d, orderId) in store.orders;
    }
    AddItems(store, orderId, d.items);
  }

  /** The loop of `create`: one `OrderItem.objects.create` per entry, in order. */
  method AddItems(store: Store, orderId: nat, entries: seq<ItemEntry>)
    requires store.Valid() && orderId in Keys(store.orders, OrderKey)
    requires forall e :: e in entries ==> EntryOk(store.Snapshot(), e)
    modifies store
    ensures store.Valid()
    ensures store.Snapshot() == old(store.Snapshot()).(
      items := old(store.items) + NewItems(orderId, old(store.next.item), entries, old(store.products)))
    ensures store.next == old(store.next).(item := old(store.next.item) + |entries|)
  {
    ghost var t := store.Snapshot();
    var first := store.next.item;
    var k := 0;
    while k < |entries|
      invariant 0 <= k <= |entries|
      invariant store.Valid()
      invariant store.Snapshot() == t.(items := t.items + NewItems(orderId, first, entries[..k], t.products))
      invariant store.next == old(store.next).(item := first + k)
    {
      var e := entries[k];
      assert e in entries;
      var ri := store.AddItem(orderId, e.product, e.quantity);
      assert ri.Ok?;
      NewItemsSnoc(orderId, first, entries, k, t.products);
      k := k + 1;
    }
    assert entries[..|entries|] == entries;
  }

  // ---------------------------------------------------------------------
  // What order creation stores.
  // ---------------------------------------------------------------------

  function Quantities(entries: seq<ItemEntry>): int {
    if |entries| == 0 then 0 else entries[0].quantity + Quantities(entries[1..])
  }

  lemma {:induction false} SumNewItems(orderId: nat, first: nat, entries: seq<ItemEntry>, products: seq<Product>)
    ensures SumQuantities(NewItems(orderId, first, entries, products)) == Quantities(entries)
    decreases |entries|
  {
    if |entries| > 0 {
      var r := NewItems(orderId, first, entries, products);
      var rest := NewItems(orderId, first + 1, entries[1..], products);
      assert r[1..] == rest;
      SumNewItems(orderId, first + 1, entries[1..], products);
    }
  }

  /** In a consistent store the new order's items are exactly the created rows, so its
      `items_count` is the total submitted quantity. No earlier item can belong to it,
      because its id was never used. */
  lemma CreatedOrderItems(t: Db, n: Counters, d: OrderData)
    requires Consistent(t) && Below(t, n)
    ensures var items := t.items + NewItems(n.order, n.item, d.items, t.products);
      && ItemsOf(items, n.order) == NewItems(n.order, n.item, d.items, t.products)
      && ItemsCount(items, n.order) == Quantities(d.items)
  {
    var created := NewItems(n.order, n.item, d.items, t.products);
    FilterAppend(t.items, created, Refs(ItemOrder, n.order));
    forall i | i in t.items ensures !Refs(ItemOrder, n.order)(i) {
      var o :| o in t.orders && OrderKey(o) == ItemOrder(i);
    }
    FilterNone(t.items, Refs(ItemOrder, n.order));
    forall i | i in created ensures Refs(ItemOrder, n.order)(i) {
      assert ItemOrder(i) == i.orderId;
    }
    FilterKeepsAll(created, Refs(ItemOrder, n.order));
    assert [] + created == created;
    SumNewItems(n.order, n.item, d.items, t.products);
  }

  /** A subtotal sent by the client never reaches the stored items: entries that
      differ only in it create the same rows. */
  lemma ClientSubtotalIgnored(orderId: nat, first: nat, es: seq<ItemEntry>, fs: seq<ItemEntry>, products: seq<Product>)
    requires |es| == |fs|
    requires forall k :: 0 <= k < |es| ==> es[k].product == fs[k].product && es[k].quantity == fs[k].quantity
    ensures NewItems(orderId, first, es, products) == NewItems(orderId, first, fs, products)
  {
  }

  /** In a consistent store every created item's subtotal is its product's stored
      price times its quantity. */
  lemma CreatedSubtotals(t: Db, orderId: nat, first: nat, d: OrderData, k: nat)
    requires Consistent(t) && OrderDataError(t, d).None? && k < |d.items|
    ensures exists p :: (p in t.products && p.id == d.items[k].product &&
                         NewItems(orderId, first, d.items, t.products)[k].subtotal == p.price * d.items[k].quantity)
  {
    assert d.items[k] in d.items;
    var p :| p in t.products && ProductKey(p) == d.items[k].product;
    FindUnique(t.products, ProductKey, p);
  }

  /** The total price is checked only for being non-negative: it is stored as sent and
      need not match the items. */
  lemma TotalPriceNotChecked(t: Db, d: OrderData, total: int)
    requires OrderDataError(t, d).None? && total >= 0
    ensures OrderDataError(t, d.(totalPrice := total)).None?
    ensures NewOrder(d.(totalPrice := total), 0).totalPrice == total
  {
    assert forall e :: e in d.(totalPrice := total).items ==> EntryOk(t, e);
  }
}
