/** The shop's records (shop/models.py): their fields, the field validators
    declared on them, the derived properties `in_stock`, `average_rating` and
    `items_count`, the order status choices and the `OrderItem.save` rule.
    Money is held in integer cents. */
module Models {
  import opened Results
  import opened Seqs

  // ---------------------------------------------------------------------
  // Field limits declared on the models.
  // ---------------------------------------------------------------------

  const CategoryNameMax := 100
  const ProductNameMax := 200
  const MaterialMax := 100
  const ColorMax := 50
  const DimensionsMax := 100
  const FullNameMax := 200
  const EmailMax := 254        // Django's default max_length for an EmailField
  const PhoneMax := 20
  const CityMax := 100
  const CountryMax := 100

  /** `DecimalField(max_digits=10, decimal_places=2)`: at most 8 digits before
      the point, so a price in cents has at most 10 digits. */
  const PriceLimit := 10_000_000_000

  // ---------------------------------------------------------------------
  // Records.
  // ---------------------------------------------------------------------

  datatype Category = Category(id: nat, name: string, description: Option<string>)

  /** `price` is in cents and may be negative: no validator bounds it below. */
  datatype Product = Product(
    id: nat, name: string, description: string, price: int, stock: int,
    categoryId: nat, material: string, color: string, dimensions: string,
    isFeatured: bool)

  /** `user` is the optional one-to-one link to an authenticated account. */
  datatype Customer = Customer(
    id: nat, user: Option<nat>, fullName: string, email: string, phone: string,
    address: string, city: string, country: string)

  /** `STATUS_CHOICES`: the closed set of order states. */
  datatype Status = Pending | Shipped | Delivered | Cancelled

  /** `totalPrice` is in cents. */
  datatype Order = Order(id: nat, customerId: nat, totalPrice: int, status: Status, notes: Option<string>)

  /** `subtotal` is in cents and is written only by the save rule. */
  datatype OrderItem = OrderItem(id: nat, orderId: nat, productId: nat, quantity: int, subtotal: int)

  datatype Review = Review(id: nat, productId: nat, customerId: nat, rating: int, comment: string)

  // Column accessors, used as keys and foreign keys.
  function CategoryKey(c: Category): nat { c.id }
  function CategoryName(c: Category): string { c.name }
  function ProductKey(p: Product): nat { p.id }
  function ProductCategory(p: Product): nat { p.categoryId }
  function CustomerKey(c: Customer): nat { c.id }
  function CustomerEmail(c: Customer): string { c.email }
  function OrderKey(o: Order): nat { o.id }
  function OrderCustomer(o: Order): nat { o.customerId }
  function ItemKey(i: OrderItem): nat { i.id }
  function ItemOrder(i: OrderItem): nat { i.orderId }
  function ItemProduct(i: OrderItem): nat { i.productId }
  function ReviewKey(r: Review): nat { r.id }
  function ReviewProduct(r: Review): nat { r.productId }
  function ReviewCustomer(r: Review): nat { r.customerId }
  /** The `unique_together = ['product', 'customer']` key. */
  function ReviewPair(r: Review): (nat, nat) { (r.productId, r.customerId) }

  // ---------------------------------------------------------------------
  // Field validators (max_length, blank, MinValueValidator, MaxValueValidator,
  // max_digits). References to other rows are checked by the store.
  // ---------------------------------------------------------------------

  /** A required CharField/TextField: not blank, and within `max` when it has one. */
  predicate Required(s: string, max: int) { 0 < |s| && (max < 0 || |s| <= max) }

  /** A `blank=True` CharField: only the length is limited. */
  predicate Optional(s: string, max: nat) { |s| <= max }

  const Unlimited := -1

  predicate CategoryFieldsOk(c: Category) {
    Required(c.name, CategoryNameMax)
  }

  predicate PriceOk(price: int) { -PriceLimit < price < PriceLimit }

  predicate ProductFieldsOk(p: Product) {
    && Required(p.name, ProductNameMax)
    && Required(p.description, Unlimited)
    && PriceOk(p.price)
    && p.stock >= 0
    && Optional(p.material, MaterialMax)
    && Optional(p.color, ColorMax)
    && Optional(p.dimensions, DimensionsMax)
  }

  predicate CustomerFieldsOk(c: Customer) {
    && Required(c.fullName, FullNameMax)
    && Required(c.email, EmailMax)
    && Required(c.phone, PhoneMax)
    && Required(c.address, Unlimited)
    && Required(c.city, CityMax)
    && Required(c.country, CountryMax)
  }

  predicate OrderFieldsOk(o: Order) {
    o.totalPrice >= 0
  }

  predicate ItemFieldsOk(i: OrderItem) {
    i.quantity >= 1
  }

  predicate RatingOk(rating: int) { 1 <= rating <= 5 }

  predicate ReviewFieldsOk(r: Review) {
    RatingOk(r.rating) && Required(r.comment, Unlimited)
  }

  // ---------------------------------------------------------------------
  // Order status choices.
  // ---------------------------------------------------------------------

  /** The stored value of each choice. */
  function StatusValue(s: Status): string {
    match s
    case Pending => "pending"
    case Shipped => "shipped"
    case Delivered => "delivered"
    case Cancelled => "cancelled"
  }

  /** The choice check a ChoiceField applies to a submitted value. */
  function ParseStatus(v: string): (r: Option<Status>)
    ensures r.Some? ==> StatusValue(r.value) == v
  {
    if v == "pending" then Some(Pending)
    else if v == "shipped" then Some(Shipped)
    else if v == "delivered" then Some(Delivered)
    else if v == "cancelled" then Some(Cancelled)
    else None
  }

  /** `default='pending'` when no status is supplied. */
  const DefaultStatus := Pending

  /** Every choice's stored value is accepted and read back as that choice,
      and nothing outside the four values is accepted. */
  lemma StatusRoundTrip(s: Status, v: string)
    ensures ParseStatus(StatusValue(s)) == Some(s)
    ensures ParseStatus(v).Some? <==> v in {"pending", "shipped", "delivered", "cancelled"}
  {
  }

  // ---------------------------------------------------------------------
  // Derived values.
  // ---------------------------------------------------------------------

  /** `Product.in_stock`. Since the stock validator refuses negative values, a
      valid product is out of stock exactly when its stock is zero. */
  function InStock(p: Product): (r: bool)
    ensures ProductFieldsOk(p) ==> (!r <==> p.stock == 0)
  {
    p.stock > 0
  }

  /** `product.reviews.all()`. */
  function ReviewsOf(reviews: seq<Review>, productId: nat): seq<Review> {
    Filter(reviews, Refs(ReviewProduct, productId))
  }

  function SumRatings(rs: seq<Review>): int {
    if |rs| == 0 then 0 else rs[0].rating + SumRatings(rs[1..])
  }

  /** `Product.average_rating`: the mean rating of the product's reviews, 0 when it
      has none. It is an exact mean: times the number of reviews it gives back the
      rating total. */
  function AverageRating(reviews: seq<Review>, productId: nat): (r: real)
    ensures |ReviewsOf(reviews, productId)| == 0 ==> r == 0.0
    ensures r * |ReviewsOf(reviews, productId)| as real == SumRatings(ReviewsOf(reviews, productId)) as real
  {
    var mine := ReviewsOf(reviews, productId);
    if |mine| == 0 then 0.0 else SumRatings(mine) as real / |mine| as real
  }

  lemma {:induction false} SumRatingsBounds(rs: seq<Review>)
    requires forall r :: r in rs ==> RatingOk(r.rating)
    ensures |rs| <= SumRatings(rs) <= 5 * |rs|
  {
    if |rs| > 0 {
      assert rs[0] in rs;
      assert forall r :: r in rs[1..] ==> r in rs;
      SumRatingsBounds(rs[1..]);
    }
  }

  /** With every rating in 1..5, a product with reviews averages between 1 and 5;
      one without reviews averages 0. */
  lemma AverageRatingBounds(reviews: seq<Review>, productId: nat)
    requires forall r :: r in reviews ==> RatingOk(r.rating)
    ensures |ReviewsOf(reviews, productId)| == 0 ==> AverageRating(reviews, productId) == 0.0
    ensures |ReviewsOf(reviews, productId)| > 0 ==> 1.0 <= AverageRating(reviews, productId) <= 5.0
  {
    var mine := ReviewsOf(reviews, productId);
    if |mine| > 0 {
      SumRatingsBounds(mine);
      MeanBounds(SumRatings(mine) as real, |mine| as real);
    }
  }

  lemma MulMono(a: real, b: real, n: real)
    requires a < b && n > 0.0
    ensures a * n < b * n
  {
    assert (b - a) * n > 0.0;
  }

  /** A total between n and 5n, divided by n > 0, lies between 1 and 5. */
  lemma MeanBounds(s: real, n: real)
    requires n > 0.0 && n <= s <= 5.0 * n
    ensures 1.0 <= s / n <= 5.0
  {
    var q := s / n;
    assert q * n == s;
    if q < 1.0 { MulMono(q, 1.0, n); }
    if q > 5.0 { MulMono(5.0, q, n); }
  }

  /** `order.items.all()`. */
  function ItemsOf(items: seq<OrderItem>, orderId: nat): seq<OrderItem> {
    Filter(items, Refs(ItemOrder, orderId))
  }

  /** The total quantity of some items; with every quantity at least 1 it is at
      least the number of items. */
  function SumQuantities(items: seq<OrderItem>): (r: int)
    ensures (forall i :: i in items ==> ItemFieldsOk(i)) ==> r >= |items|
  {
    if |items| == 0 then 0
    else
      assert items[0] in items && forall i :: i in items[1..] ==> i in items;
      items[0].quantity + SumQuantities(items[1..])
  }

  /** `Order.items_count`: the total quantity over the order's items. An order
      without items counts 0; otherwise, every quantity being at least 1, it counts
      at least one per item. */
  function ItemsCount(items: seq<OrderItem>, orderId: nat): (r: int)
    ensures |ItemsOf(items, orderId)| == 0 ==> r == 0
    ensures (forall i :: i in items ==> ItemFieldsOk(i)) ==> r >= |ItemsOf(items, orderId)|
  {
    SumQuantities(ItemsOf(items, orderId))
  }

  lemma {:induction false} SumQuantitiesAppend(a: seq<OrderItem>, b: seq<OrderItem>)
    ensures SumQuantities(a + b) == SumQuantities(a) + SumQuantities(b)
    decreases |a|
  {
    if |a| > 0 {
      assert (a + b)[1..] == a[1..] + b;
      SumQuantitiesAppend(a[1..], b);
    } else {
      assert a + b == b;
    }
  }

  // ---------------------------------------------------------------------
  // OrderItem.save: the subtotal is recomputed from the product's price.
  // ---------------------------------------------------------------------

  /** The item as `save()` stores it, given the product's price at that moment:
      whatever subtotal it carried is overwritten with price times quantity, and no
      other field changes. */
  function Saved(item: OrderItem, price: int): (r: OrderItem)
    ensures r.subtotal == price * item.quantity
    ensures r.(subtotal := item.subtotal) == item
  {
    item.(subtotal := price * item.quantity)
  }

  /** Saving twice at the same price is saving once. */
  lemma SaveIdempotent(item: OrderItem, price: int)
    ensures Saved(Saved(item, price), price) == Saved(item, price)
  {
  }

  /** Re-saving after the price changed follows the new price, whatever was stored before. */
  lemma ResaveFollowsPrice(item: OrderItem, oldPrice: int, newPrice: int)
    ensures Saved(Saved(item, oldPrice), newPrice) == Saved(item, newPrice)
    ensures oldPrice != newPrice && item.quantity != 0 ==>
              Saved(Saved(item, oldPrice), newPrice).subtotal != Saved(item, oldPrice).subtotal
  {
  }

  /** The `subtotal >= 0` validator is never applied by `save()`: a negative price stores
      a negative subtotal. */
  lemma NegativePriceGivesNegativeSubtotal(item: OrderItem, price: int)
    requires ItemFieldsOk(item) && price < 0
    ensures Saved(item, price).subtotal < 0
  {
  }
}
