# Order creation over a product catalogue, in Dafny

This project models the order-creation slice of a small e-commerce backend:
the `CreateOrderService.execute` use case and the product repository it
relies on. The service validates a request (a customer id and a list of
`{ id, quantity }` product lines) in a fixed order. First the customer must
exist. Then every product id must be stored. Then no product may be short of
stock. If all checks pass, it creates an order whose lines carry the prices
read from the catalogue, and it subtracts the requested quantities from the
stock.

The model is a pure state transition over an abstract store:

- `Wrappers` (`wrappers.dfy`): `Option` and `Result`.
- `Products` (`products.dfy`): the product table as an immutable map
  `id -> Product(name, price, quantity)`. The repository's operations
  `create`, `findByName`, `findAllById` and `updateQuantity` become map
  operations. `updateQuantity` is a left fold over the request lines. Its
  contract gives the closed form: each stored product loses the sum of the
  quantities of all lines naming it.
- `Orders` (`orders.dfy`): `Execute(store, customer, lines)` returns a
  `Placement`: the outcome (`Success(order)` or `Failure(error)`) and the
  store after it. The store holds the customer ids, the catalogue and the
  orders created so far. The errors are `InvalidCustomer`,
  `UnknownProducts(ids)` and `InsufficientStock(products)`.
- `OrderProperties` (`order_properties.dfy`): lemmas that relate several
  facts or several requests. These are the stock bound, the inputs that break
  it, a repeated order, and an example store with two products, prices 10
  and 20, stocks 5 and 2.

Some points where the code behaves differently from what one might expect:

- The stock check is a reduce over the products found, not over the lines.
  For each product it looks only at the *first* line naming it (`find`). It
  skips that product when this quantity is falsy, which for an integer means
  zero. It reports the product when the quantity is larger than the stored
  quantity. `updateQuantity` then subtracts *every* line. So with repeated ids,
  or with a zero first line, an order can succeed and leave negative stock.
  `RepeatedIdsOversell` and `ZeroFirstLineSkipsCheck` show this.
  `StockStaysNonNegative` proves the bound under distinct ids and non-negative
  initial stock. Line quantities need not be non-negative for that.
- Request quantities are not validated. A zero or negative quantity is
  accepted, and a negative one raises the stock.
- An unknown id is reported once per line that names it, so repeats are
  kept, in request order.

## Model

| member | source | states |
|---|---|---|
| Products.Create | src/modules/products/infra/typeorm/repositories/ProductsRepository.ts:19-33 | the new row carries exactly the given name, price and quantity under a fresh id; every existing product is unchanged and no other key appears |
| Products.FindByName | src/modules/products/infra/typeorm/repositories/ProductsRepository.ts:35-37 | finds nothing exactly when no stored product has the name; otherwise returns a stored product with that name, together with its id |
| Products.CreateThenFindByName | src/modules/products/infra/typeorm/repositories/ProductsRepository.ts:19-37 | after a create, the products with that name are the earlier ones plus the new id; under an unused name the lookup can only find the new product |
| Products.FindAllById | src/modules/products/infra/typeorm/repositories/ProductsRepository.ts:39-42 | returns exactly the stored products whose id some line names, each with its stored row; ids that are not stored are absent and raise no error |
| Products.Decrement | src/modules/products/infra/typeorm/repositories/ProductsRepository.ts:52-58 | one `forEach` step keeps the same products and subtracts the line's quantity from the product it names only, leaving name and price as they were; a line for a product that is not stored changes nothing |
| Products.UpdateQuantity | src/modules/products/infra/typeorm/repositories/ProductsRepository.ts:44-64 | the line-by-line decrement keeps the same set of products, and each one ends with its old quantity minus the sum of the quantities of all lines naming it, with name and price kept |
| Products.UpdatedRows | src/modules/products/infra/typeorm/repositories/ProductsRepository.ts:47-63 | the rows updateQuantity returns are exactly the stored products some line names, each with its old quantity minus the total requested for it |
| Products.RequestedUnmentioned | src/modules/products/infra/typeorm/repositories/ProductsRepository.ts:51-59 | a product that no line names has nothing subtracted |
| Products.RequestedDistinct | src/modules/products/infra/typeorm/repositories/ProductsRepository.ts:51-59 | with distinct ids, the amount subtracted from a product is the quantity on its one line |
| Products.UpdateQuantityFrame | src/modules/products/infra/typeorm/repositories/ProductsRepository.ts:47-61 | the update never changes name or price, and leaves every product that no line names exactly as it was |
| Products.UpdateQuantitySkipsUnknown | src/modules/products/infra/typeorm/repositories/ProductsRepository.ts:52-54 | lines whose product is not stored are skipped: with only such lines the catalogue is unchanged, with no insertion and no error |
| Products.UpdateQuantityCanGoNegative | src/modules/products/infra/typeorm/repositories/ProductsRepository.ts:56-58 | there is no lower-bound check: asking for more than is stored leaves a negative quantity |
| Orders.FirstQuantity | src/modules/orders/services/CreateOrderService.ts:57-58 | `find` yields nothing exactly when no line names the product, and otherwise the quantity on the first line naming it |
| Orders.FirstLineExists | src/modules/orders/services/CreateOrderService.ts:57-58 | whenever some line names a product, there is a first such line |
| Orders.IsShort | src/modules/orders/services/CreateOrderService.ts:57-62 | the reduce's test through `find` lists a product iff the first line naming it has a nonzero (truthy) quantity larger than the stored quantity |
| Orders.Shortages | src/modules/orders/services/CreateOrderService.ts:55-67 | the `insufficientProducts` reduce keeps exactly the found products whose first line has a nonzero quantity over their stock, each with its row |
| Orders.PriceLines | src/modules/orders/services/CreateOrderService.ts:78-83 | the lines built one request line at a time, as `products.map` does, are one order line per request line, in request order, each with that line's product id and quantity and the price of the product found for it |
| Orders.PriceLinesFound | src/modules/orders/services/CreateOrderService.ts:76-83 | when every line's product is stored, pricing against the products the lookup found gives the same order lines as pricing against the whole catalogue, so each captured price is the catalogue price |
| Orders.Missing | src/modules/orders/services/CreateOrderService.ts:44-46 | an id is among the missing ids iff some line names it and it was not found; there are never more missing ids than lines |
| Orders.MissingAppend | src/modules/orders/services/CreateOrderService.ts:44-53 | the missing ids follow request order: those of a concatenation are the concatenation of those of the parts |
| Orders.MissingSingle | src/modules/orders/services/CreateOrderService.ts:44-46 | a single line contributes its id exactly when its product was not found |
| Orders.MissingAgrees | src/modules/orders/services/CreateOrderService.ts:42-46 | the missing ids depend only on which line ids are found, so two lookups that agree on the lines' ids give the same list |
| Orders.MissingFound | src/modules/orders/services/CreateOrderService.ts:38-53 | checking against the products found gives the same missing ids as checking against the whole catalogue; none are missing iff every line's product is stored |
| Orders.ShortagesExact | src/modules/orders/services/CreateOrderService.ts:55-67 | the insufficient products are exactly the stored products whose first line has a nonzero quantity over their stock, each reported with its stored row, so products with enough stock are never listed |
| Orders.Execute | src/modules/orders/services/CreateOrderService.ts:32-89 | an unknown customer is reported first; then unknown products, listing exactly the missing line ids in request order; then insufficient stock, listing exactly the short products; any failure leaves the store unchanged and creates no order; success happens iff all three checks pass, and then the order belongs to the customer and has one line per request line with its id and quantity and the catalogue price, it is appended to the orders, and the catalogue becomes the update of the original lines |
| OrderProperties.StockStaysNonNegative | src/modules/orders/services/CreateOrderService.ts:55-88 | with distinct line ids and no negative stock beforehand, a successful order leaves every quantity non-negative |
| OrderProperties.RepeatedIdsOversell | src/modules/orders/services/CreateOrderService.ts:55-88 | with a repeated id, two lines of 3 against a stock of 5 pass the check and leave -1 |
| OrderProperties.ZeroFirstLineSkipsCheck | src/modules/orders/services/CreateOrderService.ts:57-62 | a first line asking for 0 skips the check, so a later line of 9 against a stock of 5 succeeds and leaves -4 |
| OrderProperties.RepeatOrderFails | src/modules/orders/services/CreateOrderService.ts:55-88 | the check reads the stock left by earlier orders: repeating a successful order whose line asks for more than half of a product's stock fails with that product reported as insufficient |
| OrderProperties.ExampleInsufficientChecks | src/modules/orders/services/CreateOrderService.ts:42-67 | in the example store (prices 10 and 20, stocks 5 and 2), the request [p1:3, p2:3] names only stored products and only p2 is short |
| OrderProperties.ExampleInsufficient | src/modules/orders/services/CreateOrderService.ts:55-74 | in the example store, the request [p1:3, p2:3] fails with insufficient stock, reporting p2 (stock 2) and nothing else |
| OrderProperties.ExampleSuccessChecks | src/modules/orders/services/CreateOrderService.ts:42-67 | in the example store, the request [p1:3, p2:2] names only stored products and neither is short |
| OrderProperties.ExampleSuccessStock | src/modules/products/infra/typeorm/repositories/ProductsRepository.ts:47-61 | in the example store, the decrement for [p1:3, p2:2] leaves stocks 2 and 0 with names and prices kept |
| OrderProperties.ExampleSuccess | src/modules/orders/services/CreateOrderService.ts:76-88 | in the example store, the request [p1:3, p2:2] succeeds with the lines (p1, 3, 10) and (p2, 2, 20) and leaves stocks 2 and 0 |
| OrderProperties.ExampleUnknown | src/modules/orders/services/CreateOrderService.ts:42-53 | in the example store, the request [p1:1, p9:1] fails reporting the unknown id p9 alone |

## Left out

- Execute: the insufficient-stock error is an unordered map from id to product, not a list. The database's return order for `findByIds` is not modelled, so the order of that list is left open. Product names are the rows' `name` fields.
- Execute: the order and the stock decrement happen in one step. The order writer and the stock updater are not modelled as separate storage calls that can fail. So the partial state, where the order is written but the decrement fails, is not represented.
- Dependency injection of the three repositories. The store is passed explicitly.
- The object mapper's `getRepository`, `findByIds`, `findOne` and `save`, and the asynchronous structure. Each is a single map read or write.
- The race between validation and the re-read inside `updateQuantity` under concurrent requests. The model is sequential.
- Error message strings and the `join()` formatting. Errors are tagged values that carry ids or product rows.
- Prices are opaque integers that are copied, never computed with. Fractional prices and `NaN` quantities are not modelled, so "falsy quantity" means zero.
- Quantities are JavaScript numbers in the source but unbounded integers here. A fractional quantity such as 0.5 is truthy and would be compared and subtracted as it is, and values beyond 2^53 lose precision; neither is modelled.
- Products.UpdatedRows: the rows updateQuantity returns are a map, so the database order of that array is not modelled.
- Products.Create: the database-generated UUID is a fresh id that the caller supplies, and the returned entity is not modelled separately.
- The customer and order repositories and the entity classes are not part of this model. A customer is its id, and an order is its customer plus its lines, with no generated id or timestamps.
