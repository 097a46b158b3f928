# Furniture shop: business rules in Dafny

This project models the rules of the furniture shop backend (a Django REST
application) that sit between the HTTP layer and the database. It has three parts:

- **The catalog, order and review store** (`shop/models.py`).
  - Six tables: categories, products, customers, orders, order items and reviews.
  - The constraints the models declare: primary keys, `unique` names and emails,
    the one-to-one account link, `unique_together` on (product, customer) for
    reviews, foreign keys, and field validators.
  - Guarded inserts, price, status and quantity updates, and `on_delete=CASCADE`
    deletion.
  - The derived values `in_stock`, `average_rating` and `items_count`, and the
    `OrderItem.save` rule that recomputes a subtotal from the product's current
    price.
- **The product filter** (`shop/filters.py`): the nine query parameters, each a
  predicate over products, and the filter set that runs the supplied ones.
- **The write-side serializers** (`shop/serializers.py`):
  - the related-count getters;
  - the rating and registration validators and account creation;
  - nested order creation: one order, then one item per entry.

Layout:

| file | module | contents |
|---|---|---|
| `results.dfy` | `Results` | `Option`, `Result` and the three kinds of refusal (invalid value, duplicate, missing reference). |
| `seqs.dfy` | `Seqs` | Queryset operations on sequences (filter, lookup by key, update), with their algebra: subsequence, fusion, commutation, idempotence, uniqueness. |
| `text.dfy` | `Text` | The `icontains` lookup: ASCII case folding and substring search. |
| `models.dfy` | `Models` | Records, field validators, status choices, derived values, the save rule. |
| `store.dfy` | `Store` | The snapshot `Db`, the invariant `Consistent`, and pure functions for every write with preservation lemmas. It also holds the class `Store`, whose `seq` fields are the tables and whose methods perform the writes in place. |
| `filters.dfy` | `Filters` | `ProductFilter`. |
| `serializers.dfy` | `Serializers` | Count getters, validators, registration, `OrderCreateSerializer.create`. |

Money is held in integer cents. A price is a `DecimalField(max_digits=10,
decimal_places=2)`, so its magnitude in cents is below 10^10. The price has no
lower bound: its non-negativity validator is commented out
(`shop/models.py:22`). Ids come from one counter per table, and `Below`
states that every id in a table is under that table's counter.

Points of the code's behaviour that the model reproduces as written:

- **Registration.** `UserRegistrationSerializer.create` creates only the account
  (`shop/serializers.py:110-113`). The serializer itself creates no customer record.
- **`in_stock`.** An empty parameter is skipped before the method filter runs,
  so every value that reaches `filter_in_stock` is a non-empty string. Every such
  value is truthy, including `"false"`, so it selects products in stock
  (`shop/filters.py:17,30-34`). The `stock == 0` branch cannot be reached through
  the filter set. `Filters.InStockAlwaysMeansInStock` states this.
- **`category`.** The value is a decimal number (`shop/filters.py:20`). The
  exact lookup on the integer id converts it with `int()`, which truncates toward
  zero, so `1.5` selects category 1. `Filters.CategoryValueTruncated` states this.
- **Cascades.** Every foreign key deletes with `CASCADE` (`shop/models.py:26,85,104,105,121,122`).
  - Deleting a category deletes its products, and with them the order items and
    reviews of those products.
  - Deleting a customer deletes their orders, those orders' items, and their
    reviews.
- **Rating hook.** The rating check is named `validated_rating`
  (`shop/serializers.py:92`), so the serializer never calls it. The model field's
  validators (`shop/models.py:123`) refuse the same values.
  `Serializers.RatingRangeEnforcedByModel` states this.
- **Order creation.** It is not wrapped in a transaction
  (`shop/serializers.py:72-79`); the model writes the order and then each item
  as separate steps.

## Model

| member | source | states |
|---|---|---|
| `Models.ParseStatus` | shop/models.py:78-87 | A submitted status is accepted only as one of the four choices, and the accepted choice's stored value is the submitted string. |
| `Models.StatusRoundTrip` | shop/models.py:78-87 | Every choice's stored value is accepted and read back as that choice; exactly the four values pending, shipped, delivered and cancelled are accepted. |
| `Models.InStock` | shop/models.py:53-56 | For a product that passes its validators, `in_stock` is false exactly when stock is 0. |
| `Models.SumRatingsBounds` | shop/models.py:123 | With every rating in 1..5, the rating total of n reviews lies between n and 5n. |
| `Models.AverageRating` | shop/models.py:46-51 | `average_rating` is 0 for a product without reviews, and otherwise, in the model's idealisation of the source's float division, the exact mean: times the number of the product's reviews it equals the sum of their ratings. |
| `Models.AverageRatingBounds` | shop/models.py:46-51 | `average_rating` is 0 for a product without reviews; otherwise it lies in [1, 5]. |
| `Models.SumQuantities` | shop/models.py:100 | With every quantity ≥ 1, the total quantity of n items is at least n. |
| `Models.ItemsCount` | shop/models.py:98-100 | `items_count` is 0 for an order without items and, with quantities ≥ 1, at least the number of its items. |
| `Models.SumQuantitiesAppend` | shop/models.py:98-100 | The total quantity of two item lists together is the sum of their totals. |
| `Models.Saved` | shop/models.py:115-117 | Saving sets the subtotal to price × quantity, overwriting any earlier subtotal, and touches no other field. |
| `Models.SaveIdempotent` | shop/models.py:115-117 | Saving twice at one price equals saving once. |
| `Models.ResaveFollowsPrice` | shop/models.py:115-117 | Re-saving after a price change stores the new price × quantity, whatever the earlier subtotal was. |
| `Models.NegativePriceGivesNegativeSubtotal` | shop/models.py:107-117 | The subtotal ≥ 0 validator is not applied on save: a negative price stores a negative subtotal. |
| `Store.EmptyDbConsistent` | shop/models.py:6-129 | The empty database satisfies every declared constraint. |
| `Store.OutOfStockIsZero` | shop/models.py:24-56 | In a consistent store every product is in stock exactly when its stock is at least 1 and out of stock exactly when it is 0. |
| `Store.CategoryError` | shop/models.py:6-8 | A category is accepted exactly when its name is non-blank, within 100 characters and not already used. |
| `Store.ProductError` | shop/models.py:19-30 | Images aside, a product is accepted exactly when its field validators pass (name, description, price digits, stock ≥ 0, lengths) and its category exists. |
| `Store.CustomerError` | shop/models.py:59-66 | A customer is accepted exactly when its fields are valid, its email is unused and its account, if any, is not linked to another customer. |
| `Store.OrderError` | shop/models.py:85-86 | An order is accepted exactly when total_price ≥ 0 and its customer exists. |
| `Store.ItemError` | shop/models.py:104-106 | An order item is accepted exactly when quantity ≥ 1 and its order and product exist. |
| `Store.ReviewError` | shop/models.py:120-129 | A review is accepted exactly when its rating is in 1..5, its comment is non-blank, its product and customer exist and the pair has no review yet. |
| `Store.AddCategoryConsistent` | shop/models.py:7 | Inserting an accepted category with a fresh id keeps every constraint. |
| `Store.AddProductConsistent` | shop/models.py:26 | Inserting an accepted product with a fresh id keeps every constraint. |
| `Store.AddCustomerConsistent` | shop/models.py:60-62 | Inserting an accepted customer with a fresh id keeps every constraint, including unique email and one-to-one account. |
| `Store.AddOrderConsistent` | shop/models.py:85-86 | Inserting an accepted order with a fresh id keeps every constraint. |
| `Store.AddItemConsistent` | shop/models.py:104-106 | Inserting an accepted order item with a fresh id keeps every constraint. |
| `Store.AddReviewConsistent` | shop/models.py:121-129 | Inserting an accepted review with a fresh id keeps every constraint, including one review per (product, customer). |
| `Store.AtMostOneReviewPerPair` | shop/models.py:129 | In a consistent store, two reviews of one product by one customer are the same review. |
| `Store.DuplicateReviewRefused` | shop/models.py:129 | A review for an already reviewed (product, customer) pair is refused. |
| `Store.DuplicateCategoryNameRefused` | shop/models.py:7 | A category with a taken name is refused; with valid fields the refusal is a duplicate-name error. |
| `Store.DuplicateEmailRefused` | shop/models.py:62 | A customer with a taken email is refused; with valid fields the refusal is a duplicate-email error. |
| `Store.Repriced` | shop/models.py:23 | A price change rewrites only the price of the product with that id; every other row of every table, stored subtotals included, stays as it was. |
| `Store.StatusSet` | shop/models.py:87 | A status change rewrites only the status of the order with that id, whatever it was; every other row stays as it was. |
| `Store.ItemSaved` | shop/models.py:115-117 | Saving an item rewrites only that item, with the new quantity and subtotal = its product's current price × quantity; every other row stays as it was. |
| `Store.RepricedConsistent` | shop/models.py:23 | Changing a product's price to a value within the digit limit keeps every constraint. |
| `Store.StatusSetConsistent` | shop/models.py:87 | Changing an order's status keeps every constraint. |
| `Store.StatusSetSpec` | shop/models.py:78-87 | Setting a status rewrites only that order's status, from any status to any other; every other order is unchanged. |
| `Store.ItemSavedConsistent` | shop/models.py:106-117 | Re-saving an item with a quantity ≥ 1 keeps every constraint. |
| `Store.ItemSavedSpec` | shop/models.py:115-117 | After a save, the item has the new quantity and a subtotal equal to its product's current stored price × quantity; other fields and other items are unchanged. |
| `Store.ResaveAfterReprice` | shop/models.py:115-117 | Re-saving an item after its product was repriced stores the new price × quantity. |
| `Store.CategoryDeleted` | shop/models.py:26 | Removes exactly the category and the products in it (this line), and exactly the items and reviews of those products (the product links at shop/models.py:105 and :121); customers and orders stay. |
| `Store.ProductDeleted` | shop/models.py:104-121 | Removes exactly the product and the items and reviews referring to it; the other tables stay. |
| `Store.CustomerDeleted` | shop/models.py:85 | Removes exactly the customer and their orders (this line), the items of those orders and their reviews (the links at shop/models.py:104 and :122); categories and products stay. |
| `Store.OrderDeleted` | shop/models.py:104 | Removes exactly the order and its items; every other table stays. |
| `Store.CategoryDeletedConsistent` | shop/models.py:26 | Deleting a category, with its products and their items and reviews, leaves no dangling reference and keeps every constraint. |
| `Store.ProductDeletedConsistent` | shop/models.py:105 | Deleting a product, with its items and reviews, keeps every constraint. |
| `Store.CustomerDeletedConsistent` | shop/models.py:85 | Deleting a customer, with their orders, those orders' items and their reviews, keeps every constraint. |
| `Store.OrderDeletedConsistent` | shop/models.py:104 | Deleting an order, with its items, keeps every constraint. |
| `Store.CategoryDeletedSpec` | shop/models.py:26 | In a consistent store the items and reviews a category delete keeps are exactly those whose product survives, and the category id is gone. |
| `Store.OrderDeletedLeavesNoItems` | shop/models.py:98-104 | After an order is deleted no item refers to it and its `items_count` is 0. |
| `Store.Store.constructor` | shop/models.py:6-129 | A new store is empty and consistent, with every counter at 1. |
| `Store.Store.AddCategory` | shop/models.py:6-8 | Creates the category with the next id when accepted; otherwise returns the refusal and changes nothing. |
| `Store.Store.AddProduct` | shop/models.py:19-30 | Creates the product with the next id when accepted; otherwise returns the refusal and changes nothing. |
| `Store.Store.AddCustomer` | shop/models.py:59-66 | Creates the customer with the next id when accepted; otherwise returns the refusal and changes nothing. |
| `Store.Store.AddOrder` | shop/models.py:85-90 | A validated create (`total_price` ≥ 0, existing customer): creates the order with the next id when accepted; otherwise returns the refusal and changes nothing. |
| `Store.Store.AddItem` | shop/models.py:103-117 | A validated create (quantity passes `MinValueValidator(1)`, order and product exist): creates the item with the next id and subtotal = current price × quantity when accepted; otherwise returns the refusal and changes nothing. |
| `Store.Store.AddReview` | shop/models.py:120-129 | Creates the review with the next id when accepted; a duplicate pair or invalid field is refused and changes nothing. |
| `Store.Store.SetPrice` | shop/models.py:23 | Sets a product's price, leaving stored subtotals as they were; refuses an out-of-range price or a missing product. |
| `Store.Store.SetStatus` | shop/models.py:87 | Sets an order's status to any of the four choices; refuses any other value or a missing order. |
| `Store.Store.SaveItem` | shop/models.py:106-117 | A validated edit: a new quantity that passes `MinValueValidator(1)` is stored and `save()` recomputes the subtotal from the current price; a quantity below 1 or a missing item is refused and nothing changes. |
| `Store.Store.DeleteCategory` | shop/models.py:26 | Deletes the category with the whole cascade, through its products to their items and reviews (shop/models.py:105 and :121); refuses a missing category. |
| `Store.Store.DeleteProduct` | shop/models.py:105 | Deletes the product with its items and reviews; refuses a missing product. |
| `Store.Store.DeleteCustomer` | shop/models.py:85 | Deletes the customer with their orders, those orders' items (shop/models.py:104) and their reviews (shop/models.py:122); refuses a missing customer. |
| `Store.Store.DeleteOrder` | shop/models.py:104 | Deletes the order with its items; refuses a missing order. |
| `Seqs.FilterIsSubseq` | shop/filters.py:7-34 | A filtered queryset is a subsequence of its input: order kept, nothing added. |
| `Seqs.FilterFuse` | shop/filters.py:4-28 | Two filters applied in a row equal one filter by their conjunction. |
| `Seqs.FilterCommutes` | shop/filters.py:4-28 | Two filters give the same result in either order. |
| `Seqs.FilterIdempotent` | shop/filters.py:4-28 | Applying a filter twice equals applying it once. |
| `Text.ContainsIffOccurs` | shop/filters.py:11-13 | The substring scan succeeds exactly when the text occurs at some position. |
| `Text.IContains` | shop/filters.py:11-13 | The `icontains` lookup; the empty text is contained in every value. |
| `Text.IContainsIgnoresCase` | shop/filters.py:11-13 | Upper-casing the value or the searched text does not change an `icontains` match. |
| `Text.ContainsImpliesIContains` | shop/filters.py:11-13 | A case-sensitive occurrence is also a case-insensitive one. |
| `Filters.Apply` | shop/filters.py:7-21 | One filter keeps exactly the products satisfying its lookup, as a subsequence of its input. |
| `Filters.Keeps` | shop/filters.py:7-21 | A stock test with a non-empty value agrees with `in_stock`; a `category_name` test keeps a product only when its category exists and that category's name contains the text. |
| `Filters.TruncateToInt` | shop/filters.py:20 | The integer a decimal `category` value is compared as: its truncation toward zero, the integer within 1 of it on the side of zero. |
| `Filters.FilterInStock` | shop/filters.py:30-34 | A non-empty value keeps exactly the products with stock > 0; the empty value keeps exactly those with stock 0. |
| `Filters.Active` | shop/filters.py:6-21 | The filter set runs no stock filter on an empty value. |
| `Filters.ApplyAllIsConjunction` | shop/filters.py:4-28 | Running a list of filters equals one filter by the conjunction of all of them. |
| `Filters.FilterProducts` | shop/filters.py:4-34 | The filter set keeps exactly the products passing every supplied filter, as a subsequence of its input. |
| `Filters.ApplyAllOrderIndependent` | shop/filters.py:4-28 | Lists with the same filters, in any order and with repeats, give the same result. |
| `Filters.ApplyAllIdempotent` | shop/filters.py:4-28 | Filtering the result again with the same filters changes nothing. |
| `Filters.KeepsAllPrice` | shop/filters.py:7-8 | The price filters keep exactly the products with price ≥ min_price and ≤ max_price, each when supplied. |
| `Filters.KeepsAllText` | shop/filters.py:11-13 | The text filters keep exactly the products whose name, material and color contain the supplied texts, ignoring case. |
| `Filters.KeepsAllFlags` | shop/filters.py:16-17 | `is_featured` keeps exactly the matching flag; a supplied `in_stock` keeps exactly the products in stock. |
| `Filters.KeepsAllCategory` | shop/filters.py:20-21 | `category` keeps exactly the products whose category id equals the supplied value truncated toward zero; with category ids unique, `category_name` keeps exactly the products for which some category with their category id has a name containing the text, ignoring case. |
| `Filters.KeepsAllActive` | shop/filters.py:6-21 | With category ids unique, passing every supplied filter is the same as matching every supplied parameter, each stated independently of the filters. |
| `Filters.FilterProductsMatches` | shop/filters.py:4-34 | With category ids unique, the filter set keeps exactly the products matching every supplied parameter; an omitted parameter imposes nothing. |
| `Filters.EmptyPriceRange` | shop/filters.py:7-8 | A min_price above max_price selects nothing. |
| `Filters.InStockAlwaysMeansInStock` | shop/filters.py:17-34 | Through the filter set, any supplied `in_stock` value, "false" included, keeps only products in stock, and gives the same result as "false". |
| `Filters.TextFiltersKeepExactMatches` | shop/filters.py:11-13 | A product whose name, material and color contain the supplied texts exactly, case included, passes the three `icontains` filters. |
| `Filters.NameFilterIgnoresCase` | shop/filters.py:11 | The name filter gives the same result for the upper-cased text. |
| `Filters.CategoryNameThroughKey` | shop/filters.py:21 | With unique category ids, `category_name` keeps a product exactly when its own category's name contains the text. |
| `Filters.CategoryValueTruncated` | shop/filters.py:20 | A `category` value between n and n+1 keeps exactly the products of category n. |
| `Serializers.ProductsCount` | shop/serializers.py:13-14 | `products_count` is at most the number of products. |
| `Serializers.ProductsCountSpec` | shop/serializers.py:13-14 | `products_count` is 0 exactly when no product is in the category. |
| `Serializers.OrdersCount` | shop/serializers.py:41-42 | `orders_count` is at most the number of orders. |
| `Serializers.OrdersCountSpec` | shop/serializers.py:41-42 | `orders_count` is 0 exactly when the customer has no orders. |
| `Serializers.ProductsCountAdd` | shop/serializers.py:13-14 | Adding a product raises its own category's count by one and leaves every other category's count unchanged. |
| `Serializers.OrdersCountAdd` | shop/serializers.py:41-42 | Adding an order raises its own customer's count by one and leaves the others unchanged. |
| `Serializers.ReviewsCount` | shop/serializers.py:28-29 | `get_reviews_count` is at most the number of reviews. |
| `Serializers.ReviewsCountAdd` | shop/serializers.py:28-29 | Adding a review raises its own product's count by one and leaves the others unchanged. |
| `Serializers.ProductsCountCascade` | shop/serializers.py:13-14 | Deleting a category removes exactly as many products as it counted. |
| `Serializers.OrdersCountCascade` | shop/serializers.py:41-42 | Deleting a customer removes exactly as many orders as they counted. |
| `Serializers.ValidatedRating` | shop/serializers.py:92-95 | Refuses a rating below 1 or above 5 and otherwise returns it unchanged. |
| `Serializers.RatingRangeEnforcedByModel` | shop/serializers.py:92-95 | The hook accepts exactly the ratings the model accepts; a rating it would refuse is refused by the review insert. |
| `Serializers.RegistrationFieldError` | shop/serializers.py:97-103 | Registration data passes the field checks exactly when username is present and at most 150 characters, optional fields are within their lengths and both passwords have at least 8 characters. |
| `Serializers.Validate` | shop/serializers.py:105-108 | Refuses data whose two passwords differ; otherwise returns the data unchanged. |
| `Serializers.WithoutConfirmation` | shop/serializers.py:111 | Removes `password2` and keeps every other field with its value. |
| `Serializers.CreateUser` | shop/serializers.py:110-113 | The account gets every validated field except `password2`, with unchanged values. |
| `Serializers.Cleaned` | shop/serializers.py:101-103 | Only the declared registration fields are kept, with their values. |
| `Serializers.Registered` | shop/serializers.py:97-113 | Registration succeeds exactly when the field checks pass and the passwords agree; the account then has exactly the submitted declared fields minus `password2`, with their values. |
| `Serializers.MismatchRefused` | shop/serializers.py:105-107 | Registration with two different passwords is always refused. |
| `Serializers.OrderDataError` | shop/serializers.py:65-70 | Order data is accepted exactly when the customer exists, total_price ≥ 0, a supplied status is a choice and every entry has quantity ≥ 1 and an existing product. |
| `Serializers.StatusOf` | shop/serializers.py:70 | A new order takes the submitted status, or pending when none is submitted. |
| `Serializers.NewItems` | shop/serializers.py:76-77 | One item per entry, in entry order, numbered consecutively, each in the new order with subtotal = current price × quantity. |
| `Serializers.Create` | shop/serializers.py:72-79 | Adds exactly one order built from the non-item fields with the next order id, then exactly one item per entry in input order, and changes nothing else. |
| `Serializers.AddItems` | shop/serializers.py:76-77 | Appends one saved item per entry to the order, in order, keeping the store consistent. |
| `Serializers.SumNewItems` | shop/serializers.py:76-77 | The created items' total quantity is the entries' total quantity. |
| `Serializers.CreatedOrderItems` | shop/serializers.py:72-79 | The new order's items are exactly the created rows, and its `items_count` is the total submitted quantity. |
| `Serializers.ClientSubtotalIgnored` | shop/serializers.py:51 | Entries differing only in a client-sent subtotal create identical items. |
| `Serializers.CreatedSubtotals` | shop/serializers.py:76-77 | Each created item's subtotal is its product's stored price × its quantity. |
| `Serializers.TotalPriceNotChecked` | shop/serializers.py:70-74 | Any non-negative total_price is accepted and stored as sent, whatever the items sum to. |

## Left out

- HTTP wiring is not part of this model: views, URL routing, JWT views, API documentation, admin configuration, pagination and permissions. This covers `shop/views.py`, `shop/urls.py`, `furniture_store/urls.py` and `shop/admin.py`.
- The analytics endpoint is left out. Its view is not part of this model, and `AnalyticsSerializer` only declares fields.
- Framework-managed details are not modelled: `created_at` and `updated_at` timestamps, default orderings, images, indexes, `__str__`, and the search and ordering filters.
- `total_price` and `subtotal` are floating-point fields in the source. The model holds them, like prices, in integer cents.
- `Models.AverageRating`: the source divides with Python's `/` (`shop/models.py:50`) and returns a rounded binary float, or the int 0 when there are no reviews. The model returns the exact rational mean instead, so its `r · n = sum` equation holds of the model only: for ratings 1, 1, 2 the source's 1.3333333333333333 times 3 is not exactly 4. The [1, 5] bound of `Models.AverageRatingBounds` also holds of the float.
- `Store.ProductError`: the required `image` (`shop/models.py:25`, an `ImageField` without `blank=True`) is not modelled, so a product the source refuses for a missing image is accepted here.
- Password hashing and the rest of the account record are not modelled. An account is the map of its fields.
- `Serializers.RegistrationFieldError` and `Serializers.Registered`: accept a username that is already taken (the source refuses it through the unique validator the serializer copies from the account model), a username with characters the account's username validator rejects, and a malformed email. These checks belong to the account model, which is not part of this model.
- The `register_user` view behind `auth/register/` (`shop/urls.py:15`) is not part of this model, nor any customer record it may create besides the account.
- `Store.Store.SaveItem`: refuses a quantity below 1, as a validated edit does. A bare `item.save()` runs no validator and would store such a quantity (0 gives a subtotal of 0), breaking the quantity ≥ 1 invariant that `Models.ItemsCount` relies on; that unvalidated write is not modelled.
- `Store.CustomerError`: does not check the email format. `Customer.email` is an `EmailField` (`shop/models.py:62`), so the source refuses a malformed email that the model accepts; address syntax is not modelled.
- `Store.ProductError`: stock is an unbounded integer. The source's `IntegerField` is also limited to the database's integer range, which depends on the database engine and is not modelled.
- `Store.ItemError`: quantity is an unbounded integer. The database's integer range on the `IntegerField` is not modelled, as for stock.
- Whitespace trimming of submitted text is not modelled. Parsing of number and boolean query values is also left out: a query arrives already cleaned.
- Case folding covers ASCII letters only. Unicode case folding and collation are not modelled.
- Concurrency, transactions and database failures are not modelled. Because of this, the model cannot show a partially created order: a validated order never fails midway in the model.
- Deleting a user account, which would cascade through the one-to-one link, is left out, because accounts are not part of this model.
- Single-row deletion of a review or an order item is left out. It removes one row, and no other row refers to these two tables.
- Updates to fields other than price, status and item quantity are left out. These updates are not plain row writes:
  - a renamed category or a changed customer email is checked again for uniqueness;
  - a review moved onto an already reviewed pair breaks `unique_together`;
  - a product's new category, or an item's new order or product, must exist;
  - an item moved to another product is re-saved at that product's price.
- Ordering does not decrement stock, because the source does not.
