/** The database behind shop/models.py: six tables, the constraints the models
    declare on them (primary keys, `unique`, `unique_together`, foreign keys,
    field validators), guarded inserts, updates, and `on_delete=CASCADE`
    deletion. The pure functions over a snapshot `Db` specify the class `Store`,
    whose fields are the tables themselves. */
module Store {
  import opened Results
  import opened Seqs
  import opened Models

  /** The contents of all tables at one moment. */
  datatype Db = Db(
    categories: seq<Category>, products: seq<Product>, customers: seq<Customer>,
    orders: seq<Order>, items: seq<OrderItem>, reviews: seq<Review>)

  const EmptyDb := Db([], [], [], [], [], [])

  // ---------------------------------------------------------------------
  // Constraints.
  // ---------------------------------------------------------------------

  /** A foreign key: every row of `s` points at an existing row of `targets`. */
  ghost predicate References<T(!new), U(!new)>(s: seq<T>, ref: T -> nat, targets: seq<U>, key: U -> nat) {
    forall x :: x in s ==> ref(x) in Keys(targets, key)
  }

  /** The accounts linked to customers. */
  function Users(cs: seq<Customer>): set<nat> {
    set c | c in cs && c.user.Some? :: c.user.value
  }

  /** `OneToOneField(User)`: no account is linked to two customers. */
  ghost predicate UsersDistinct(cs: seq<Customer>) {
    forall i, j :: 0 <= i < j < |cs| && cs[i].user.Some? ==> cs[i].user != cs[j].user
  }

  ghost predicate Unique(t: Db) {
    && UniqueBy(t.categories, CategoryKey) && UniqueBy(t.categories, CategoryName)
    && UniqueBy(t.products, ProductKey)
    && UniqueBy(t.customers, CustomerKey) && UniqueBy(t.customers, CustomerEmail)
    && UsersDistinct(t.customers)
    && UniqueBy(t.orders, OrderKey)
    && UniqueBy(t.items, ItemKey)
    && UniqueBy(t.reviews, ReviewKey) && UniqueBy(t.reviews, ReviewPair)
  }

  ghost predicate Linked(t: Db) {
    && References(t.products, ProductCategory, t.categories, CategoryKey)
    && References(t.orders, OrderCustomer, t.customers, CustomerKey)
    && References(t.items, ItemOrder, t.orders, OrderKey)
    && References(t.items, ItemProduct, t.products, ProductKey)
    && References(t.reviews, ReviewProduct, t.products, ProductKey)
    && References(t.reviews, ReviewCustomer, t.customers, CustomerKey)
  }

  ghost predicate FieldsOk(t: Db) {
    && (forall c :: c in t.categories ==> CategoryFieldsOk(c))
    && (forall p :: p in t.products ==> ProductFieldsOk(p))
    && (forall c :: c in t.customers ==> CustomerFieldsOk(c))
    && (forall o :: o in t.orders ==> OrderFieldsOk(o))
    && (forall i :: i in t.items ==> ItemFieldsOk(i))
    && (forall r :: r in t.reviews ==> ReviewFieldsOk(r))
  }

  /** Every constraint the models declare holds. */
  ghost predicate Consistent(t: Db) {
    Unique(t) && Linked(t) && FieldsOk(t)
  }

  lemma EmptyDbConsistent()
    ensures Consistent(EmptyDb)
  {
  }

  // ---------------------------------------------------------------------
  // Insert guards: the first validator or constraint a new row violates.
  // ---------------------------------------------------------------------

  function CategoryError(t: Db, c: Category): (r: Option<Error>)
    ensures r.None? <==> CategoryFieldsOk(c) && c.name !in Keys(t.categories, CategoryName)
  {
    if !CategoryFieldsOk(c) then Some(Invalid("name"))
    else if c.name in Keys(t.categories, CategoryName) then Some(Duplicate("name"))
    else None
  }

  function ProductError(t: Db, p: Product): (r: Option<Error>)
    ensures r.None? <==> ProductFieldsOk(p) && p.categoryId in Keys(t.categories, CategoryKey)
  {
    if !Required(p.name, ProductNameMax) then Some(Invalid("name"))
    else if !Required(p.description, Unlimited) then Some(Invalid("description"))
    else if !PriceOk(p.price) then Some(Invalid("price"))
    else if p.stock < 0 then Some(Invalid("stock"))
    else if !Optional(p.material, MaterialMax) then Some(Invalid("material"))
    else if !Optional(p.color, ColorMax) then Some(Invalid("color"))
    else if !Optional(p.dimensions, DimensionsMax) then Some(Invalid("dimensions"))
    else if p.categoryId !in Keys(t.categories, CategoryKey) then Some(NotFound("category"))
    else None
  }

  function CustomerError(t: Db, c: Customer): (r: Option<Error>)
    ensures r.None? <==>
      && CustomerFieldsOk(c)
      && c.email !in Keys(t.customers, CustomerEmail)
      && (c.user.Some? ==> c.user.value !in Users(t.customers))
  {
    if !CustomerFieldsOk(c) then Some(Invalid("customer"))
    else if c.email in Keys(t.customers, CustomerEmail) then Some(Duplicate("email"))
    else if c.user.Some? && c.user.value in Users(t.customers) then Some(Duplicate("user"))
    else None
  }

  function OrderError(t: Db, o: Order): (r: Option<Error>)
    ensures r.None? <==> OrderFieldsOk(o) && o.customerId in Keys(t.customers, CustomerKey)
  {
    if !OrderFieldsOk(o) then Some(Invalid("total_price"))
    else if o.customerId !in Keys(t.customers, CustomerKey) then Some(NotFound("customer"))
    else None
  }

  function ItemError(t: Db, orderId: nat, productId: nat, quantity: int): (r: Option<Error>)
    ensures r.None? <==>
      && quantity >= 1
      && orderId in Keys(t.orders, OrderKey)
      && productId in Keys(t.products, ProductKey)
  {
    if quantity < 1 then Some(Invalid("quantity"))
    else if orderId !in Keys(t.orders, OrderKey) then Some(NotFound("order"))
    else if productId !in Keys(t.products, ProductKey) then Some(NotFound("product"))
    else None
  }

  function ReviewError(t: Db, r: Review): (e: Option<Error>)
    ensures e.None? <==>
      && ReviewFieldsOk(r)
      && r.productId in Keys(t.products, ProductKey)
      && r.customerId in Keys(t.customers, CustomerKey)
      && ReviewPair(r) !in Keys(t.reviews, ReviewPair)
  {
    if !RatingOk(r.rating) then Some(Invalid("rating"))
    else if !Required(r.comment, Unlimited) then Some(Invalid("comment"))
    else if r.productId !in Keys(t.products, ProductKey) then Some(NotFound("product"))
    else if r.customerId !in Keys(t.customers, CustomerKey) then Some(NotFound("customer"))
    else if ReviewPair(r) in Keys(t.reviews, ReviewPair) then Some(Duplicate("product, customer"))
    else None
  }

  // ---------------------------------------------------------------------
  // Inserts keep every constraint.
  // ---------------------------------------------------------------------

  lemma KeysAppend<T(!new), K>(s: seq<T>, key: T -> K, x: T)
    ensures Keys(s + [x], key) == Keys(s, key) + {key(x)}
  {
    assert x in s + [x];
    forall y | y in s ensures y in s + [x] { }
    forall y | y in s + [x] ensures y in s || y == x { }
  }

  lemma AddCategoryConsistent(t: Db, c: Category)
    requires Consistent(t) && CategoryError(t, c).None? && c.id !in Keys(t.categories, CategoryKey)
    ensures Consistent(t.(categories := t.categories + [c]))
  {
    UniqueByAppend(t.categories, CategoryKey, c);
    UniqueByAppend(t.categories, CategoryName, c);
    KeysAppend(t.categories, CategoryKey, c);
  }

  lemma AddProductConsistent(t: Db, p: Product)
    requires Consistent(t) && ProductError(t, p).None? && p.id !in Keys(t.products, ProductKey)
    ensures Consistent(t.(products := t.products + [p]))
  {
    UniqueByAppend(t.products, ProductKey, p);
    KeysAppend(t.products, ProductKey, p);
  }

  lemma AddCustomerConsistent(t: Db, c: Customer)
    requires Consistent(t) && CustomerError(t, c).None? && c.id !in Keys(t.customers, CustomerKey)
    ensures Consistent(t.(customers := t.customers + [c]))
  {
    UniqueByAppend(t.customers, CustomerKey, c);
    UniqueByAppend(t.customers, CustomerEmail, c);
    KeysAppend(t.customers, CustomerKey, c);
    var cs := t.customers + [c];
    forall i, j | 0 <= i < j < |cs| && cs[i].user.Some? ensures cs[i].user != cs[j].user {
      if j == |t.customers| {
        assert cs[i] in t.customers;
      } else {
        assert cs[i] == t.customers[i] && cs[j] == t.customers[j];
      }
    }
  }

  lemma AddOrderConsistent(t: Db, o: Order)
    requires Consistent(t) && OrderError(t, o).None? && o.id !in Keys(t.orders, OrderKey)
    ensures Consistent(t.(orders := t.orders + [o]))
  {
    UniqueByAppend(t.orders, OrderKey, o);
    KeysAppend(t.orders, OrderKey, o);
  }

  lemma AddItemConsistent(t: Db, i: OrderItem)
    requires Consistent(t) && ItemError(t, i.orderId, i.productId, i.quantity).None?
    requires i.id !in Keys(t.items, ItemKey)
    ensures Consistent(t.(items := t.items + [i]))
  {
    UniqueByAppend(t.items, ItemKey, i);
  }

  lemma AddReviewConsistent(t: Db, r: Review)
    requires Consistent(t) && ReviewError(t, r).None? && r.id !in Keys(t.reviews, ReviewKey)
    ensures Consistent(t.(reviews := t.reviews + [r]))
  {
    UniqueByAppend(t.reviews, ReviewKey, r);
    UniqueByAppend(t.reviews, ReviewPair, r);
  }

  /** In a consistent store two reviews of the same product by the same customer
      are the same review. */
  lemma AtMostOneReviewPerPair(t: Db, r1: Review, r2: Review)
    requires Consistent(t) && r1 in t.reviews && r2 in t.reviews
    requires r1.productId == r2.productId && r1.customerId == r2.customerId
    ensures r1 == r2
  {
    var i :| 0 <= i < |t.reviews| && t.reviews[i] == r1;
    var j :| 0 <= j < |t.reviews| && t.reviews[j] == r2;
    assert ReviewPair(t.reviews[i]) == ReviewPair(t.reviews[j]);
  }

  /** A review for a pair that is already reviewed is refused as a duplicate,
      whatever its rating and comment. */
  lemma DuplicateReviewRefused(t: Db, r: Review, earlier: Review)
    requires earlier in t.reviews && ReviewPair(earlier) == ReviewPair(r)
    ensures ReviewError(t, r).Some?
  {
    assert ReviewPair(r) in Keys(t.reviews, ReviewPair);
  }

  /** A category whose name is taken is refused as a duplicate. */
  lemma DuplicateCategoryNameRefused(t: Db, c: Category, earlier: Category)
    requires earlier in t.categories && earlier.name == c.name
    ensures CategoryError(t, c).Some?
    ensures CategoryFieldsOk(c) ==> CategoryError(t, c) == Some(Duplicate("name"))
  {
    assert CategoryName(earlier) == c.name;
  }

  /** A customer whose email is taken is refused as a duplicate. */
  lemma DuplicateEmailRefused(t: Db, c: Customer, earlier: Customer)
    requires earlier in t.customers && earlier.email == c.email
    ensures CustomerError(t, c).Some?
    ensures CustomerFieldsOk(c) ==> CustomerError(t, c) == Some(Duplicate("email"))
  {
    assert CustomerEmail(earlier) == c.email;
  }

  // ---------------------------------------------------------------------
  // Updates.
  // ---------------------------------------------------------------------

  function WithPrice(price: int): Product -> Product {
    (p: Product) => p.(price := price)
  }

  function WithStatus(status: Status): Order -> Order {
    (o: Order) => o.(status := status)
  }

  /** The price a product has now (0 for a missing product, which a consistent
      store never references). */
  function PriceOf(products: seq<Product>, productId: nat): int {
    match Find(products, ProductKey, productId)
    case Some(p) => p.price
    case None => 0
  }

  /** `item.quantity = quantity; item.save()` against the current product prices. */
  function Resave(products: seq<Product>, quantity: int): OrderItem -> OrderItem {
    (i: OrderItem) => Saved(i.(quantity := quantity), PriceOf(products, i.productId))
  }

  /** An update of a product's price: the product with that id takes the new price,
      every other row of every table stays as it was. In particular the stored
      subtotals are not touched. */
  function Repriced(t: Db, productId: nat, price: int): (r: Db)
    ensures r == t.(products := r.products) && |r.products| == |t.products|
    ensures forall k :: 0 <= k < |t.products| ==>
      r.products[k] == if t.products[k].id == productId then t.products[k].(price := price) else t.products[k]
  {
    t.(products := Update(t.products, Refs(ProductKey, productId), WithPrice(price)))
  }

  /** An update of an order's status: the order with that id takes the new status,
      whatever it had before; every other row stays as it was. */
  function StatusSet(t: Db, orderId: nat, status: Status): (r: Db)
    ensures r == t.(orders := r.orders) && |r.orders| == |t.orders|
    ensures forall k :: 0 <= k < |t.orders| ==>
      r.orders[k] == if t.orders[k].id == orderId then t.orders[k].(status := status) else t.orders[k]
  {
    t.(orders := Update(t.orders, Refs(OrderKey, orderId), WithStatus(status)))
  }

  /** Saving an existing item with the given quantity: the item with that id takes
      the quantity and a subtotal recomputed from its product's current price;
      every other row stays as it was. */
  function ItemSaved(t: Db, itemId: nat, quantity: int): (r: Db)
    ensures r == t.(items := r.items) && |r.items| == |t.items|
    ensures forall k :: 0 <= k < |t.items| ==>
      r.items[k] == if t.items[k].id == itemId
                    then t.items[k].(quantity := quantity,
                                     subtotal := PriceOf(t.products, t.items[k].productId) * quantity)
                    else t.items[k]
  {
    t.(items := Update(t.items, Refs(ItemKey, itemId), Resave(t.products, quantity)))
  }

  lemma ReferencesUpdated<T(!new), U(!new)>(s: seq<T>, r: seq<T>, ref: T -> nat, targets: seq<U>, key: U -> nat)
    requires References(s, ref, targets, key)
    requires |r| == |s| && forall i :: 0 <= i < |s| ==> ref(r[i]) == ref(s[i])
    ensures References(r, ref, targets, key)
  {
    forall x | x in r ensures ref(x) in Keys(targets, key) {
      var i :| 0 <= i < |r| && r[i] == x;
      assert s[i] in s;
    }
  }

  lemma RepricedConsistent(t: Db, productId: nat, price: int)
    requires Consistent(t) && PriceOk(price)
    ensures Consistent(Repriced(t, productId, price))
  {
    var ps := Repriced(t, productId, price).products;
    UpdateKeepsKeys(t.products, ps, ProductKey);
    ReferencesUpdated(t.products, ps, ProductCategory, t.categories, CategoryKey);
    forall p | p in ps ensures ProductFieldsOk(p) {
      var i :| 0 <= i < |ps| && ps[i] == p;
      assert t.products[i] in t.products;
    }
  }

  lemma StatusSetConsistent(t: Db, orderId: nat, status: Status)
    requires Consistent(t)
    ensures Consistent(StatusSet(t, orderId, status))
  {
    var os := StatusSet(t, orderId, status).orders;
    UpdateKeepsKeys(t.orders, os, OrderKey);
    ReferencesUpdated(t.orders, os, OrderCustomer, t.customers, CustomerKey);
    forall o | o in os ensures OrderFieldsOk(o) {
      var i :| 0 <= i < |os| && os[i] == o;
      assert t.orders[i] in t.orders;
    }
  }

  /** Setting a status rewrites only that order's status, whatever it was before:
      no transition between the choices is ruled out. */
  lemma StatusSetSpec(t: Db, orderId: nat, status: Status, k: nat)
    requires Consistent(t) && k < |t.orders| && t.orders[k].id == orderId
    ensures StatusSet(t, orderId, status).orders[k] == t.orders[k].(status := status)
    ensures forall j :: 0 <= j < |t.orders| && j != k ==> StatusSet(t, orderId, status).orders[j] == t.orders[j]
  {
    assert OrderKey(t.orders[k]) == orderId;
    forall j | 0 <= j < |t.orders| && j != k ensures t.orders[j].id != orderId {
      assert OrderKey(t.orders[j]) != OrderKey(t.orders[k]);
    }
  }

  lemma ItemSavedConsistent(t: Db, itemId: nat, quantity: int)
    requires Consistent(t) && quantity >= 1
    ensures Consistent(ItemSaved(t, itemId, quantity))
  {
    var saved := ItemSaved(t, itemId, quantity).items;
    UpdateKeepsKeys(t.items, saved, ItemKey);
    ReferencesUpdated(t.items, saved, ItemOrder, t.orders, OrderKey);
    ReferencesUpdated(t.items, saved, ItemProduct, t.products, ProductKey);
    forall x | x in saved ensures ItemFieldsOk(x) {
      var i :| 0 <= i < |saved| && saved[i] == x;
      assert t.items[i] in t.items;
    }
  }

  /** After saving, the item holds the given quantity and a subtotal equal to its
      product's current price times that quantity; every other item, and every
      other field of the item, is unchanged. */
  lemma ItemSavedSpec(t: Db, itemId: nat, quantity: int, k: nat)
    requires Consistent(t) && k < |t.items| && t.items[k].id == itemId
    ensures ItemSaved(t, itemId, quantity).items[k] ==
              t.items[k].(quantity := quantity,
                           subtotal := PriceOf(t.products, t.items[k].productId) * quantity)
    ensures exists p :: p in t.products && p.id == t.items[k].productId &&
              ItemSaved(t, itemId, quantity).items[k].subtotal == p.price * quantity
    ensures forall j :: 0 <= j < |t.items| && j != k ==> ItemSaved(t, itemId, quantity).items[j] == t.items[j]
  {
    var x := t.items[k];
    assert x in t.items;
    var p :| p in t.products && ProductKey(p) == x.productId;
    FindUnique(t.products, ProductKey, p);
    assert ItemKey(x) == itemId;
    assert Resave(t.products, quantity)(x) == x.(quantity := quantity, subtotal := p.price * quantity);
    forall j | 0 <= j < |t.items| && j != k ensures t.items[j].id != itemId {
      assert ItemKey(t.items[j]) != ItemKey(t.items[k]);
    }
  }

  /** Re-saving an item after its product was repriced stores the new price times the
      quantity, whatever subtotal it held before. */
  lemma ResaveAfterReprice(t: Db, productId: nat, price: int, k: nat)
    requires Consistent(t) && PriceOk(price) && k < |t.items| && t.items[k].productId == productId
    ensures
      var t' := Repriced(t, productId, price);
      ItemSaved(t', t.items[k].id, t.items[k].quantity).items[k].subtotal == price * t.items[k].quantity
  {
    var t' := Repriced(t, productId, price);
    RepricedConsistent(t, productId, price);
    assert t'.items == t.items;
    ItemSavedSpec(t', t.items[k].id, t.items[k].quantity, k);
    var p :| p in t'.products && p.id == productId &&
             ItemSaved(t', t.items[k].id, t.items[k].quantity).items[k].subtotal == p.price * t.items[k].quantity;
    var i :| 0 <= i < |t'.products| && t'.products[i] == p;
    assert p.price == price;
  }

  // ---------------------------------------------------------------------
  // Cascading deletes (`on_delete=models.CASCADE`).
  // ---------------------------------------------------------------------

  /** Deleting a category deletes its products, and with them the order items and
      reviews that reference those products. Customers and orders stay. */
  function CategoryDeleted(t: Db, categoryId: nat): (r: Db)
    ensures r.customers == t.customers && r.orders == t.orders
    ensures forall c :: c in r.categories <==> c in t.categories && c.id != categoryId
    ensures forall p :: p in r.products <==> p in t.products && p.categoryId != categoryId
    ensures forall i :: i in r.items <==>
      i in t.items && !exists p :: p in t.products && p.categoryId == categoryId && p.id == i.productId
    ensures forall v :: v in r.reviews <==>
      v in t.reviews && !exists p :: p in t.products && p.categoryId == categoryId && p.id == v.productId
  {
    var gone := Keys(Filter(t.products, Refs(ProductCategory, categoryId)), ProductKey);
    FilterOutRefs(t.categories, CategoryKey, categoryId);
    FilterOutRefs(t.products, ProductCategory, categoryId);
    FilterOutRefsAny(t.items, ItemProduct, gone);
    FilterOutRefsAny(t.reviews, ReviewProduct, gone);
    t.(categories := Filter(t.categories, Not(Refs(CategoryKey, categoryId))),
       products := Filter(t.products, Not(Refs(ProductCategory, categoryId))),
       items := Filter(t.items, Not(RefsAny(ItemProduct, gone))),
       reviews := Filter(t.reviews, Not(RefsAny(ReviewProduct, gone))))
  }

  /** Deleting a product deletes the order items and reviews that reference it. */
  function ProductDeleted(t: Db, productId: nat): (r: Db)
    ensures r.categories == t.categories && r.customers == t.customers && r.orders == t.orders
    ensures forall p :: p in r.products <==> p in t.products && p.id != productId
    ensures forall i :: i in r.items <==> i in t.items && i.productId != productId
    ensures forall v :: v in r.reviews <==> v in t.reviews && v.productId != productId
  {
    FilterOutRefs(t.products, ProductKey, productId);
    FilterOutRefs(t.items, ItemProduct, productId);
    FilterOutRefs(t.reviews, ReviewProduct, productId);
    t.(products := Filter(t.products, Not(Refs(ProductKey, productId))),
       items := Filter(t.items, Not(Refs(ItemProduct, productId))),
       reviews := Filter(t.reviews, Not(Refs(ReviewProduct, productId))))
  }

  /** Deleting a customer deletes their orders (and those orders' items) and their
      reviews. Categories and products stay. */
  function CustomerDeleted(t: Db, customerId: nat): (r: Db)
    ensures r.categories == t.categories && r.products == t.products
    ensures forall c :: c in r.customers <==> c in t.customers && c.id != customerId
    ensures forall o :: o in r.orders <==> o in t.orders && o.customerId != customerId
    ensures forall i :: i in r.items <==>
      i in t.items && !exists o :: o in t.orders && o.customerId == customerId && o.id == i.orderId
    ensures forall v :: v in r.reviews <==> v in t.reviews && v.customerId != customerId
  {
    var gone := Keys(Filter(t.orders, Refs(OrderCustomer, customerId)), OrderKey);
    FilterOutRefs(t.customers, CustomerKey, customerId);
    FilterOutRefs(t.orders, OrderCustomer, customerId);
    FilterOutRefsAny(t.items, ItemOrder, gone);
    FilterOutRefs(t.reviews, ReviewCustomer, customerId);
    t.(customers := Filter(t.customers, Not(Refs(CustomerKey, customerId))),
       orders := Filter(t.orders, Not(Refs(OrderCustomer, customerId))),
       items := Filter(t.items, Not(RefsAny(ItemOrder, gone))),
       reviews := Filter(t.reviews, Not(Refs(ReviewCustomer, customerId))))
  }

  /** Deleting an order deletes its items; every other table stays. */
  function OrderDeleted(t: Db, orderId: nat): (r: Db)
    ensures r.categories == t.categories && r.products == t.products
    ensures r.customers == t.customers && r.reviews == t.reviews
    ensures forall o :: o in r.orders <==> o in t.orders && o.id != orderId
    ensures forall i :: i in r.items <==> i in t.items && i.orderId != orderId
  {
    FilterOutRefs(t.orders, OrderKey, orderId);
    FilterOutRefs(t.items, ItemOrder, orderId);
    t.(orders := Filter(t.orders, Not(Refs(OrderKey, orderId))),
       items := Filter(t.items, Not(Refs(ItemOrder, orderId))))
  }

  /** A foreign key survives when the referencing rows are filtered and every
      kept row's target is kept too. */
  lemma ReferencesFiltered<T(!new), U(!new)>(
    s: seq<T>, ref: T -> nat, keepS: T -> bool, targets: seq<U>, key: U -> nat, keepT: U -> bool)
    requires References(s, ref, targets, key)
    requires forall x, y :: x in s && keepS(x) && y in targets && key(y) == ref(x) ==> keepT(y)
    ensures References(Filter(s, keepS), ref, Filter(targets, keepT), key)
  {
    forall x | x in Filter(s, keepS) ensures ref(x) in Keys(Filter(targets, keepT), key) {
      var y :| y in targets && key(y) == ref(x);
      assert y in Filter(targets, keepT);
    }
  }

  /** A foreign key survives when only the referencing rows are filtered. */
  lemma ReferencesSourceFiltered<T(!new), U(!new)>(s: seq<T>, ref: T -> nat, keepS: T -> bool, targets: seq<U>, key: U -> nat)
    requires References(s, ref, targets, key)
    ensures References(Filter(s, keepS), ref, targets, key)
  {
  }

  lemma CategoryDeletedConsistent(t: Db, categoryId: nat)
    requires Consistent(t)
    ensures Consistent(CategoryDeleted(t, categoryId))
  {
    var r := CategoryDeleted(t, categoryId);
    var gone := Keys(Filter(t.products, Refs(ProductCategory, categoryId)), ProductKey);
    UniqueByFilter(t.categories, CategoryKey, Not(Refs(CategoryKey, categoryId)));
    UniqueByFilter(t.categories, CategoryName, Not(Refs(CategoryKey, categoryId)));
    UniqueByFilter(t.products, ProductKey, Not(Refs(ProductCategory, categoryId)));
    UniqueByFilter(t.items, ItemKey, Not(RefsAny(ItemProduct, gone)));
    UniqueByFilter(t.reviews, ReviewKey, Not(RefsAny(ReviewProduct, gone)));
    UniqueByFilter(t.reviews, ReviewPair, Not(RefsAny(ReviewProduct, gone)));
    ReferencesFiltered(t.products, ProductCategory, Not(Refs(ProductCategory, categoryId)),
                       t.categories, CategoryKey, Not(Refs(CategoryKey, categoryId)));
    forall y | y in t.products && y.categoryId == categoryId ensures y.id in gone {
      assert y in Filter(t.products, Refs(ProductCategory, categoryId));
    }
    ReferencesFiltered(t.items, ItemProduct, Not(RefsAny(ItemProduct, gone)),
                       t.products, ProductKey, Not(Refs(ProductCategory, categoryId)));
    ReferencesFiltered(t.reviews, ReviewProduct, Not(RefsAny(ReviewProduct, gone)),
                       t.products, ProductKey, Not(Refs(ProductCategory, categoryId)));
    ReferencesSourceFiltered(t.items, ItemOrder, Not(RefsAny(ItemProduct, gone)), t.orders, OrderKey);
    ReferencesSourceFiltered(t.reviews, ReviewCustomer, Not(RefsAny(ReviewProduct, gone)), t.customers, CustomerKey);
  }

  lemma ProductDeletedConsistent(t: Db, productId: nat)
    requires Consistent(t)
    ensures Consistent(ProductDeleted(t, productId))
  {
    UniqueByFilter(t.products, ProductKey, Not(Refs(ProductKey, productId)));
    UniqueByFilter(t.items, ItemKey, Not(Refs(ItemProduct, productId)));
    UniqueByFilter(t.reviews, ReviewKey, Not(Refs(ReviewProduct, productId)));
    UniqueByFilter(t.reviews, ReviewPair, Not(Refs(ReviewProduct, productId)));
    ReferencesSourceFiltered(t.products, ProductCategory, Not(Refs(ProductKey, productId)), t.categories, CategoryKey);
    ReferencesFiltered(t.items, ItemProduct, Not(Refs(ItemProduct, productId)),
                       t.products, ProductKey, Not(Refs(ProductKey, productId)));
    ReferencesFiltered(t.reviews, ReviewProduct, Not(Refs(ReviewProduct, productId)),
                       t.products, ProductKey, Not(Refs(ProductKey, productId)));
    ReferencesSourceFiltered(t.items, ItemOrder, Not(Refs(ItemProduct, productId)), t.orders, OrderKey);
    ReferencesSourceFiltered(t.reviews, ReviewCustomer, Not(Refs(ReviewProduct, productId)), t.customers, CustomerKey);
  }

  lemma UsersDistinctFiltered(cs: seq<Customer>, keep: Customer -> bool)
    requires UsersDistinct(cs)
    ensures UsersDistinct(Filter(cs, keep))
    decreases |cs|
  {
    if |cs| > 0 {
      var tail := cs[1..];
      assert UsersDistinct(tail) by {
        forall i, j | 0 <= i < j < |tail| && tail[i].user.Some? ensures tail[i].user != tail[j].user {
          assert tail[i] == cs[i + 1] && tail[j] == cs[j + 1];
        }
      }
      UsersDistinctFiltered(tail, keep);
      if keep(cs[0]) {
        var rest := Filter(tail, keep);
        var r := [cs[0]] + rest;
        forall i, j | 0 <= i < j < |r| && r[i].user.Some? ensures r[i].user != r[j].user {
          if i == 0 {
            assert r[j] == rest[j - 1] && rest[j - 1] in tail;
            var k :| 0 <= k < |tail| && tail[k] == rest[j - 1];
            assert cs[k + 1] == r[j];
          } else {
            assert r[i] == rest[i - 1] && r[j] == rest[j - 1];
          }
        }
      }
    }
  }

  lemma CustomerDeletedConsistent(t: Db, customerId: nat)
    requires Consistent(t)
    ensures Consistent(CustomerDeleted(t, customerId))
  {
    var gone := Keys(Filter(t.orders, Refs(OrderCustomer, customerId)), OrderKey);
    UniqueByFilter(t.customers, CustomerKey, Not(Refs(CustomerKey, customerId)));
    UniqueByFilter(t.customers, CustomerEmail, Not(Refs(CustomerKey, customerId)));
    UsersDistinctFiltered(t.customers, Not(Refs(CustomerKey, customerId)));
    UniqueByFilter(t.orders, OrderKey, Not(Refs(OrderCustomer, customerId)));
    UniqueByFilter(t.items, ItemKey, Not(RefsAny(ItemOrder, gone)));
    UniqueByFilter(t.reviews, ReviewKey, Not(Refs(ReviewCustomer, customerId)));
    UniqueByFilter(t.reviews, ReviewPair, Not(Refs(ReviewCustomer, customerId)));
    ReferencesFiltered(t.orders, OrderCustomer, Not(Refs(OrderCustomer, customerId)),
                       t.customers, CustomerKey, Not(Refs(CustomerKey, customerId)));
    forall y | y in t.orders && y.customerId == customerId ensures y.id in gone {
      assert y in Filter(t.orders, Refs(OrderCustomer, customerId));
    }
    ReferencesFiltered(t.items, ItemOrder, Not(RefsAny(ItemOrder, gone)),
                       t.orders, OrderKey, Not(Refs(OrderCustomer, customerId)));
    ReferencesFiltered(t.reviews, ReviewCustomer, Not(Refs(ReviewCustomer, customerId)),
                       t.customers, CustomerKey, Not(Refs(CustomerKey, customerId)));
    ReferencesSourceFiltered(t.items, ItemProduct, Not(RefsAny(ItemOrder, gone)), t.products, ProductKey);
    ReferencesSourceFiltered(t.reviews, ReviewProduct, Not(Refs(ReviewCustomer, customerId)), t.products, ProductKey);
  }

  lemma OrderDeletedConsistent(t: Db, orderId: nat)
    requires Consistent(t)
    ensures Consistent(OrderDeleted(t, orderId))
  {
    UniqueByFilter(t.orders, OrderKey, Not(Refs(OrderKey, orderId)));
    UniqueByFilter(t.items, ItemKey, Not(Refs(ItemOrder, orderId)));
    ReferencesSourceFiltered(t.orders, OrderCustomer, Not(Refs(OrderKey, orderId)), t.customers, CustomerKey);
    ReferencesFiltered(t.items, ItemOrder, Not(Refs(ItemOrder, orderId)),
                       t.orders, OrderKey, Not(Refs(OrderKey, orderId)));
    ReferencesSourceFiltered(t.items, ItemProduct, Not(Refs(ItemOrder, orderId)), t.products, ProductKey);
  }

  /** Deleting a category removes exactly the products in it and exactly the items and
      reviews whose product went with it; customers and orders are untouched. */
  lemma CategoryDeletedSpec(t: Db, categoryId: nat)
    requires Consistent(t)
    ensures var r := CategoryDeleted(t, categoryId);
      && categoryId !in Keys(r.categories, CategoryKey)
      && (forall c :: c in r.categories <==> c in t.categories && c.id != categoryId)
      && (forall p :: p in r.products <==> p in t.products && p.categoryId != categoryId)
      && (forall i :: i in r.items <==> i in t.items && i.productId in Keys(r.products, ProductKey))
      && (forall v :: v in r.reviews <==> v in t.reviews && v.productId in Keys(r.products, ProductKey))
      && r.customers == t.customers && r.orders == t.orders
  {
    var r := CategoryDeleted(t, categoryId);
    var gone := Keys(Filter(t.products, Refs(ProductCategory, categoryId)), ProductKey);
    // An id of a surviving product is never among the deleted ids, by uniqueness.
    forall p, q | p in r.products && q in Filter(t.products, Refs(ProductCategory, categoryId))
      ensures p.id != q.id
    {
      var i :| 0 <= i < |t.products| && t.products[i] == p;
      var j :| 0 <= j < |t.products| && t.products[j] == q;
      assert i != j;
    }
    forall i | i in t.items ensures i.productId in gone <==> i.productId !in Keys(r.products, ProductKey) {
      var p :| p in t.products && p.id == i.productId;
      if p.categoryId == categoryId {
        assert p in Filter(t.products, Refs(ProductCategory, categoryId));
      } else {
        assert p in r.products;
      }
    }
    forall v | v in t.reviews ensures v.productId in gone <==> v.productId !in Keys(r.products, ProductKey) {
      var p :| p in t.products && p.id == v.productId;
      if p.categoryId == categoryId {
        assert p in Filter(t.products, Refs(ProductCategory, categoryId));
      } else {
        assert p in r.products;
      }
    }
  }

  /** After an order is deleted no item refers to it any more, so its item count is 0. */
  lemma OrderDeletedLeavesNoItems(t: Db, orderId: nat)
    ensures ItemsOf(OrderDeleted(t, orderId).items, orderId) == []
    ensures ItemsCount(OrderDeleted(t, orderId).items, orderId) == 0
  {
    var r := OrderDeleted(t, orderId);
    forall i | i in r.items ensures !Refs(ItemOrder, orderId)(i) {
      assert ItemOrder(i) == i.orderId;
    }
    FilterNone(r.items, Refs(ItemOrder, orderId));
  }

  /** `in_stock` in a consistent store: the stock validator holds for every stored
      product, so a product is out of stock exactly when its stock is zero. */
  lemma OutOfStockIsZero(t: Db, p: Product)
    requires Consistent(t) && p in t.products
    ensures !InStock(p) <==> p.stock == 0
    ensures InStock(p) <==> p.stock >= 1
  {
  }

  // ---------------------------------------------------------------------
  // The store.
  // ---------------------------------------------------------------------

  /** The next primary key of each table (an auto-increment sequence per table). */
  datatype Counters = Counters(category: nat, product: nat, customer: nat, order: nat, item: nat, review: nat)

  /** Every id in a table lies below that table's counter, so a counter value is never in use. */
  ghost predicate Below(t: Db, n: Counters) {
    && KeysBelow(t.categories, CategoryKey, n.category)
    && KeysBelow(t.products, ProductKey, n.product)
    && KeysBelow(t.customers, CustomerKey, n.customer)
    && KeysBelow(t.orders, OrderKey, n.order)
    && KeysBelow(t.items, ItemKey, n.item)
    && KeysBelow(t.reviews, ReviewKey, n.review)
  }

  /** Every row of `t'` is a row of `t` with the same id. */
  ghost predicate IdsWithin(t': Db, t: Db) {
    && Keys(t'.categories, CategoryKey) <= Keys(t.categories, CategoryKey)
    && Keys(t'.products, ProductKey) <= Keys(t.products, ProductKey)
    && Keys(t'.customers, CustomerKey) <= Keys(t.customers, CustomerKey)
    && Keys(t'.orders, OrderKey) <= Keys(t.orders, OrderKey)
    && Keys(t'.items, ItemKey) <= Keys(t.items, ItemKey)
    && Keys(t'.reviews, ReviewKey) <= Keys(t.reviews, ReviewKey)
  }

  lemma BelowWithin(t: Db, t': Db, n: Counters)
    requires Below(t, n) && IdsWithin(t', t)
    ensures Below(t', n)
  {
    forall x | x in t'.categories ensures x.id < n.category { assert CategoryKey(x) in Keys(t'.categories, CategoryKey); }
    forall x | x in t'.products ensures x.id < n.product { assert ProductKey(x) in Keys(t'.products, ProductKey); }
    forall x | x in t'.customers ensures x.id < n.customer { assert CustomerKey(x) in Keys(t'.customers, CustomerKey); }
    forall x | x in t'.orders ensures x.id < n.order { assert OrderKey(x) in Keys(t'.orders, OrderKey); }
    forall x | x in t'.items ensures x.id < n.item { assert ItemKey(x) in Keys(t'.items, ItemKey); }
    forall x | x in t'.reviews ensures x.id < n.review { assert ReviewKey(x) in Keys(t'.reviews, ReviewKey); }
  }

  lemma KeysFiltered<T(!new), K>(s: seq<T>, key: T -> K, keep: T -> bool)
    ensures Keys(Filter(s, keep), key) <= Keys(s, key)
  {
  }

  /** Deletion only removes rows, so the counters stay above every id. */
  lemma CategoryDeletedBelow(t: Db, categoryId: nat, n: Counters)
    requires Below(t, n)
    ensures Below(CategoryDeleted(t, categoryId), n)
  {
    var gone := Keys(Filter(t.products, Refs(ProductCategory, categoryId)), ProductKey);
    KeysFiltered(t.categories, CategoryKey, Not(Refs(CategoryKey, categoryId)));
    KeysFiltered(t.products, ProductKey, Not(Refs(ProductCategory, categoryId)));
    KeysFiltered(t.items, ItemKey, Not(RefsAny(ItemProduct, gone)));
    KeysFiltered(t.reviews, ReviewKey, Not(RefsAny(ReviewProduct, gone)));
    BelowWithin(t, CategoryDeleted(t, categoryId), n);
  }

  lemma ProductDeletedBelow(t: Db, productId: nat, n: Counters)
    requires Below(t, n)
    ensures Below(ProductDeleted(t, productId), n)
  {
    KeysFiltered(t.products, ProductKey, Not(Refs(ProductKey, productId)));
    KeysFiltered(t.items, ItemKey, Not(Refs(ItemProduct, productId)));
    KeysFiltered(t.reviews, ReviewKey, Not(Refs(ReviewProduct, productId)));
    BelowWithin(t, ProductDeleted(t, productId), n);
  }

  lemma CustomerDeletedBelow(t: Db, customerId: nat, n: Counters)
    requires Below(t, n)
    ensures Below(CustomerDeleted(t, customerId), n)
  {
    var gone := Keys(Filter(t.orders, Refs(OrderCustomer, customerId)), OrderKey);
    KeysFiltered(t.customers, CustomerKey, Not(Refs(CustomerKey, customerId)));
    KeysFiltered(t.orders, OrderKey, Not(Refs(OrderCustomer, customerId)));
    KeysFiltered(t.items, ItemKey, Not(RefsAny(ItemOrder, gone)));
    KeysFiltered(t.reviews, ReviewKey, Not(Refs(ReviewCustomer, customerId)));
    BelowWithin(t, CustomerDeleted(t, customerId), n);
  }

  lemma OrderDeletedBelow(t: Db, orderId: nat, n: Counters)
    requires Below(t, n)
    ensures Below(OrderDeleted(t, orderId), n)
  {
    KeysFiltered(t.orders, OrderKey, Not(Refs(OrderKey, orderId)));
    KeysFiltered(t.items, ItemKey, Not(Refs(ItemOrder, orderId)));
    BelowWithin(t, OrderDeleted(t, orderId), n);
  }

  class Store {
    var categories: seq<Category>
    var products: seq<Product>
    var customers: seq<Customer>
    var orders: seq<Order>
    var items: seq<OrderItem>
    var reviews: seq<Review>
    var next: Counters

    function Snapshot(): Db
      reads this
    {
      Db(categories, products, customers, orders, items, reviews)
    }

    ghost predicate Valid()
      reads this
    {
      Consistent(Snapshot()) && Below(Snapshot(), next)
    }

    constructor ()
      ensures Valid() && Snapshot() == EmptyDb
      ensures next == Counters(1, 1, 1, 1, 1, 1)
    {
      categories, products, customers := [], [], [];
      orders, items, reviews := [], [], [];
      next := Counters(1, 1, 1, 1, 1, 1);
    }

    /** Creates a category; its id is assigned by the store. */
    method AddCategory(c: Category) returns (r: Result<nat>)
      requires Valid()
      modifies this
      ensures Valid()
      ensures var e := CategoryError(old(Snapshot()), c);
        r == if e.Some? then Err(e.value) else Ok(old(next.category))
      ensures Snapshot() == if r.Ok? then old(Snapshot()).(categories := old(categories) + [c.(id := r.value)])
                            else old(Snapshot())
      ensures next == if r.Ok? then old(next).(category := r.value + 1) else old(next)
    {
      var e := CategoryError(Snapshot(), c);
      if e.Some? {
        return Err(e.value);
      }
      var row := c.(id := next.category);
      AddCategoryConsistent(Snapshot(), row);
      categories := categories + [row];
      next := next.(category := next.category + 1);
      r := Ok(row.id);
    }

    /** Creates a product in an existing category. */
    method AddProduct(p: Product) returns (r: Result<nat>)
      requires Valid()
      modifies this
      ensures Valid()
      ensures var e := ProductError(old(Snapshot()), p);
        r == if e.Some? then Err(e.value) else Ok(old(next.product))
      ensures Snapshot() == if r.Ok? then old(Snapshot()).(products := old(products) + [p.(id := r.value)])
                            else old(Snapshot())
      ensures next == if r.Ok? then old(next).(product := r.value + 1) else old(next)
    {
      var e := ProductError(Snapshot(), p);
      if e.Some? {
        return Err(e.value);
      }
      var row := p.(id := next.product);
      AddProductConsistent(Snapshot(), row);
      products := products + [row];
      next := next.(product := next.product + 1);
      r := Ok(row.id);
    }

    /** Creates a customer with an unused email (and an unused account link). */
    method AddCustomer(c: Customer) returns (r: Result<nat>)
      requires Valid()
      modifies this
      ensures Valid()
      ensures var e := CustomerError(old(Snapshot()), c);
        r == if e.Some? then Err(e.value) else Ok(old(next.customer))
      ensures Snapshot() == if r.Ok? then old(Snapshot()).(customers := old(customers) + [c.(id := r.value)])
                            else old(Snapshot())
      ensures next == if r.Ok? then old(next).(customer := r.value + 1) else old(next)
    {
      var e := CustomerError(Snapshot(), c);
      if e.Some? {
        return Err(e.value);
      }
      var row := c.(id := next.customer);
      AddCustomerConsistent(Snapshot(), row);
      customers := customers + [row];
      next := next.(customer := next.customer + 1);
      r := Ok(row.id);
    }

    /** A validated order create: `total_price` must pass its
        `MinValueValidator(0.0)` and the customer must exist, as the order
        serializer ensures, before the row is stored. */
    method AddOrder(o: Order) returns (r: Result<nat>)
      requires Valid()
      modifies this
      ensures Valid()
      ensures var e := OrderError(old(Snapshot()), o);
        r == if e.Some? then Err(e.value) else Ok(old(next.order))
      ensures Snapshot() == if r.Ok? then old(Snapshot()).(orders := old(orders) + [o.(id := r.value)])
                            else old(Snapshot())
      ensures next == if r.Ok? then old(next).(order := r.value + 1) else old(next)
    {
      var e := OrderError(Snapshot(), o);
      if e.Some? {
        return Err(e.value);
      }
      var row := o.(id := next.order);
      AddOrderConsistent(Snapshot(), row);
      orders := orders + [row];
      next := next.(order := next.order + 1);
      r := Ok(row.id);
    }

    /** A validated item create: the quantity must pass `MinValueValidator(1)` and
        the order and product must exist, as the order serializer ensures, before
        the row is stored through `save()`; its subtotal is then the product's
        current price times the quantity. */
    method AddItem(orderId: nat, productId: nat, quantity: int) returns (r: Result<nat>)
      requires Valid()
      modifies this
      ensures Valid()
      ensures var e := ItemError(old(Snapshot()), orderId, productId, quantity);
        r == if e.Some? then Err(e.value) else Ok(old(next.item))
      ensures Snapshot() ==
        if r.Ok? then
          old(Snapshot()).(items := old(items) +
            [Saved(OrderItem(r.value, orderId, productId, quantity, 0), PriceOf(old(products), productId))])
        else old(Snapshot())
      ensures next == if r.Ok? then old(next).(item := r.value + 1) else old(next)
    {
      var e := ItemError(Snapshot(), orderId, productId, quantity);
      if e.Some? {
        return Err(e.value);
      }
      var row := Saved(OrderItem(next.item, orderId, productId, quantity, 0), PriceOf(products, productId));
      AddItemConsistent(Snapshot(), row);
      items := items + [row];
      next := next.(item := next.item + 1);
      r := Ok(row.id);
    }

    /** Creates a review; a second review of the same product by the same customer is refused. */
    method AddReview(v: Review) returns (r: Result<nat>)
      requires Valid()
      modifies this
      ensures Valid()
      ensures var e := ReviewError(old(Snapshot()), v);
        r == if e.Some? then Err(e.value) else Ok(old(next.review))
      ensures Snapshot() == if r.Ok? then old(Snapshot()).(reviews := old(reviews) + [v.(id := r.value)])
                            else old(Snapshot())
      ensures next == if r.Ok? then old(next).(review := r.value + 1) else old(next)
    {
      var e := ReviewError(Snapshot(), v);
      if e.Some? {
        return Err(e.value);
      }
      var row := v.(id := next.review);
      AddReviewConsistent(Snapshot(), row);
      reviews := reviews + [row];
      next := next.(review := next.review + 1);
      r := Ok(row.id);
    }

    /** Changes a product's price. Stored subtotals keep the old price until their item is saved again. */
    method SetPrice(productId: nat, price: int) returns (r: Result<()>)
      requires Valid()
      modifies this
      ensures Valid() && next == old(next)
      ensures r == if !PriceOk(price) then Err(Invalid("price"))
                   else if productId !in Keys(old(products), ProductKey) then Err(NotFound("product"))
                   else Ok(())
      ensures Snapshot() == if r.Ok? then Repriced(old(Snapshot()), productId, price) else old(Snapshot())
    {
      if !PriceOk(price) {
        return Err(Invalid("price"));
      }
      if productId !in Keys(products, ProductKey) {
        return Err(NotFound("product"));
      }
      RepricedConsistent(Snapshot(), productId, price);
      var t := Repriced(Snapshot(), productId, price);
      UpdateKeepsKeys(products, t.products, ProductKey);
      BelowWithin(Snapshot(), t, next);
      Load(t);
      r := Ok(());
    }

    /** Changes an order's status to the submitted value, which must be one of the choices. */
    method SetStatus(orderId: nat, value: string) returns (r: Result<()>)
      requires Valid()
      modifies this
      ensures Valid() && next == old(next)
      ensures r == if ParseStatus(value).None? then Err(Invalid("status"))
                   else if orderId !in Keys(old(orders), OrderKey) then Err(NotFound("order"))
                   else Ok(())
      ensures Snapshot() == if r.Ok? then StatusSet(old(Snapshot()), orderId, ParseStatus(value).value)
                            else old(Snapshot())
    {
      var s := ParseStatus(value);
      if s.None? {
        return Err(Invalid("status"));
      }
      if orderId !in Keys(orders, OrderKey) {
        return Err(NotFound("order"));
      }
      StatusSetConsistent(Snapshot(), orderId, s.value);
      var t := StatusSet(Snapshot(), orderId, s.value);
      UpdateKeepsKeys(orders, t.orders, OrderKey);
      BelowWithin(Snapshot(), t, next);
      Load(t);
      r := Ok(());
    }

    /** A validated edit of an existing item: the new quantity must pass the
        field's `MinValueValidator(1)`, then `save()` recomputes the subtotal from
        the product's current price. A bare `save()` would run no validator. */
    method SaveItem(itemId: nat, quantity: int) returns (r: Result<()>)
      requires Valid()
      modifies this
      ensures Valid() && next == old(next)
      ensures r == if quantity < 1 then Err(Invalid("quantity"))
                   else if itemId !in Keys(old(items), ItemKey) then Err(NotFound("item"))
                   else Ok(())
      ensures Snapshot() == if r.Ok? then ItemSaved(old(Snapshot()), itemId, quantity) else old(Snapshot())
    {
      if quantity < 1 {
        return Err(Invalid("quantity"));
      }
      if itemId !in Keys(items, ItemKey) {
        return Err(NotFound("item"));
      }
      ItemSavedConsistent(Snapshot(), itemId, quantity);
      var t := ItemSaved(Snapshot(), itemId, quantity);
      UpdateKeepsKeys(items, t.items, ItemKey);
      BelowWithin(Snapshot(), t, next);
      Load(t);
      r := Ok(());
    }

    /** Replaces the stored rows by those of `t`, leaving the counters alone. */
    method Load(t: Db)
      modifies this
      ensures Snapshot() == t && next == old(next)
    {
      categories, products, customers := t.categories, t.products, t.customers;
      orders, items, reviews := t.orders, t.items, t.reviews;
    }

    method DeleteCategory(categoryId: nat) returns (r: Result<()>)
      requires Valid()
      modifies this
      ensures Valid() && next == old(next)
      ensures r == if categoryId in Keys(old(categories), CategoryKey) then Ok(()) else Err(NotFound("category"))
      ensures Snapshot() == if r.Ok? then CategoryDeleted(old(Snapshot()), categoryId) else old(Snapshot())
    {
      if categoryId !in Keys(categories, CategoryKey) {
        return Err(NotFound("category"));
      }
      var t := CategoryDeleted(Snapshot(), categoryId);
      assert Consistent(t) && Below(t, next) by {
        CategoryDeletedConsistent(Snapshot(), categoryId);
        CategoryDeletedBelow(Snapshot(), categoryId, next);
      }
      Load(t);
      r := Ok(());
    }

    method DeleteProduct(productId: nat) returns (r: Result<()>)
      requires Valid()
      modifies this
      ensures Valid() && next == old(next)
      ensures r == if productId in Keys(old(products), ProductKey) then Ok(()) else Err(NotFound("product"))
      ensures Snapshot() == if r.Ok? then ProductDeleted(old(Snapshot()), productId) else old(Snapshot())
    {
      if productId !in Keys(products, ProductKey) {
        return Err(NotFound("product"));
      }
      var t := ProductDeleted(Snapshot(), productId);
      assert Consistent(t) && Below(t, next) by {
        ProductDeletedConsistent(Snapshot(), productId);
        ProductDeletedBelow(Snapshot(), productId, next);
      }
      Load(t);
      r := Ok(());
    }

    method DeleteCustomer(customerId: nat) returns (r: Result<()>)
      requires Valid()
      modifies this
      ensures Valid() && next == old(next)
      ensures r == if customerId in Keys(old(customers), CustomerKey) then Ok(()) else Err(NotFound("customer"))
      ensures Snapshot() == if r.Ok? then CustomerDeleted(old(Snapshot()), customerId) else old(Snapshot())
    {
      if customerId !in Keys(customers, CustomerKey) {
        return Err(NotFound("customer"));
      }
      var t := CustomerDeleted(Snapshot(), customerId);
      assert Consistent(t) && Below(t, next) by {
        CustomerDeletedConsistent(Snapshot(), customerId);
        CustomerDeletedBelow(Snapshot(), customerId, next);
      }
      Load(t);
      r := Ok(());
    }

    method DeleteOrder(orderId: nat) returns (r: Result<()>)
      requires Valid()
      modifies this
      ensures Valid() && next == old(next)
      ensures r == if orderId in Keys(old(orders), OrderKey) then Ok(()) else Err(NotFound("order"))
      ensures Snapshot() == if r.Ok? then OrderDeleted(old(Snapshot()), orderId) else old(Snapshot())
    {
      if orderId !in Keys(orders, OrderKey) {
        return Err(NotFound("order"));
      }
      var t := OrderDeleted(Snapshot(), orderId);
      assert Consistent(t) && Below(t, next) by {
        OrderDeletedConsistent(Snapshot(), orderId);
        OrderDeletedBelow(Snapshot(), orderId, next);
      }
      Load(t);
      r := Ok(());
    }
  }
}
