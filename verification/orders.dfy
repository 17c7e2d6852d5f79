/**
 * The order-creation workflow: customer check, unknown-product check,
 * stock check, order construction with the catalogue prices, then the stock
 * decrement — one pure transition over an abstract store.
 */
module Orders {
  import opened Wrappers
  import opened Products

  type CustomerId = string

  /** One persisted order line: the product, the quantity requested and the price captured from the catalogue. */
  datatype OrderLine = OrderLine(productId: ProductId, quantity: int, price: int)

  /** A created order: the customer who placed it and its lines in request order. */
  datatype Order = Order(customer: CustomerId, lines: seq<OrderLine>)

  /** What the workflow reads and writes: the customer registry, the product table and the orders created so far. */
  datatype Store = Store(customers: set<CustomerId>, products: Catalogue, orders: seq<Order>)

  /** The errors the workflow raises; the insufficient products are reported by id, each with its row (and so its name). */
  datatype OrderError =
    | InvalidCustomer
    | UnknownProducts(ids: seq<ProductId>)
    | InsufficientStock(products: Catalogue)

  /** The outcome of one request and the store after it. */
  datatype Placement = Placement(result: Result<Order, OrderError>, store: Store)

  /** Line `i` is the first line of the request naming product `id`. */
  predicate IsFirstLine(lines: seq<Line>, id: ProductId, i: int)
  {
    0 <= i < |lines| && lines[i].id == id && forall j :: 0 <= j < i ==> lines[j].id != id
  }

  /**
   * Reference statement of a shortage: the first line naming `id` asks for a
   * nonzero quantity larger than `stock`.
   */
  ghost predicate Exceeds(lines: seq<Line>, id: ProductId, stock: int)
  {
    exists i :: IsFirstLine(lines, id, i) && lines[i].quantity != 0 && lines[i].quantity > stock
  }

  /** The quantity on the first line naming `id`, if any line does: what `find(...)?.quantity` yields. */
  function FirstQuantity(lines: seq<Line>, id: ProductId): (q: Option<int>)
    ensures q.None? <==> !Mentions(lines, id)
    ensures q.Some? ==> exists i :: IsFirstLine(lines, id, i) && lines[i].quantity == q.value
    ensures q.Some? ==> forall i :: IsFirstLine(lines, id, i) ==> lines[i].quantity == q.value
    decreases |lines|
  {
    if |lines| == 0 then None
    else if lines[0].id == id then
      assert IsFirstLine(lines, id, 0);
      Some(lines[0].quantity)
    else
      var q := FirstQuantity(lines[1..], id);
      assert forall i :: 0 < i <= |lines[1..]| && IsFirstLine(lines, id, i) ==> IsFirstLine(lines[1..], id, i - 1);
      assert forall i :: IsFirstLine(lines[1..], id, i) ==> IsFirstLine(lines, id, i + 1) by {
        forall i | IsFirstLine(lines[1..], id, i)
          ensures IsFirstLine(lines, id, i + 1)
        {
          forall j | 0 <= j < i + 1
            ensures lines[j].id != id
          {
            if j > 0 { assert lines[j] == lines[1..][j - 1]; }
          }
        }
      }
      assert Mentions(lines, id) ==> Mentions(lines[1..], id) by {
        if Mentions(lines, id) {
          var k :| 0 <= k < |lines| && lines[k].id == id;
          assert lines[1..][k - 1] == lines[k];
        }
      }
      q
  }

  /**
   * Whether the stock check lists product `id`: the quantity found on its
   * first line is truthy (nonzero) and larger than the stored quantity.
   * This agrees with the reference statement `Exceeds`.
   */
  predicate IsShort(lines: seq<Line>, id: ProductId, p: Product)
    ensures IsShort(lines, id, p) <==> Exceeds(lines, id, p.quantity)
  {
    match FirstQuantity(lines, id)
    case None => false
    case Some(q) => q != 0 && q > p.quantity
  }

  /** The ids of the lines whose product was not found, in request order, repeats kept. */
  function Missing(found: Catalogue, lines: seq<Line>): (ids: seq<ProductId>)
    ensures |ids| <= |lines|
    ensures forall id :: id in ids <==> Mentions(lines, id) && id !in found
    decreases |lines|
  {
    if |lines| == 0 then []
    else
      var rest := Missing(found, lines[1..]);
      assert forall id :: Mentions(lines, id) <==> lines[0].id == id || Mentions(lines[1..], id) by {
        forall id | Mentions(lines, id)
          ensures lines[0].id == id || Mentions(lines[1..], id)
        {
          var k :| 0 <= k < |lines| && lines[k].id == id;
          if k > 0 { assert lines[1..][k - 1] == lines[k]; }
        }
        forall id | Mentions(lines[1..], id)
          ensures Mentions(lines, id)
        {
          var k :| 0 <= k < |lines[1..]| && lines[1..][k].id == id;
          assert lines[k + 1] == lines[1..][k];
        }
      }
      (if lines[0].id in found then [] else [lines[0].id]) + rest
  }

  /** The products the stock check reports, each with its stored row: the `insufficientProducts` reduce. */
  function Shortages(found: Catalogue, lines: seq<Line>): (short: Catalogue)
    ensures forall id :: id in short <==> id in found && Exceeds(lines, id, found[id].quantity)
    ensures forall id :: id in short ==> short[id] == found[id]
  {
    map id | id in found && IsShort(lines, id, found[id]) :: found[id]
  }

  /**
   * The order lines, built line by line as `products.map` does: each request
   * line's product and quantity with the price of the product found for it.
   */
  function PriceLines(found: Catalogue, lines: seq<Line>): (items: seq<OrderLine>)
    requires forall i :: 0 <= i < |lines| ==> lines[i].id in found
    ensures |items| == |lines|
    ensures forall i :: 0 <= i < |lines| ==> items[i] == OrderLine(lines[i].id, lines[i].quantity, found[lines[i].id].price)
    decreases |lines|
  {
    if |lines| == 0 then []
    else
      var rest := PriceLines(found, lines[1..]);
      assert forall i :: 0 < i < |lines| ==> lines[i] == lines[1..][i - 1];
      [OrderLine(lines[0].id, lines[0].quantity, found[lines[0].id].price)] + rest
  }

  /**
   * The prices read from the products found for the request are the
   * catalogue's prices: pricing against the lookup's answer gives the same
   * order lines as pricing against the whole catalogue.
   */
  lemma PriceLinesFound(c: Catalogue, lines: seq<Line>)
    requires forall i :: 0 <= i < |lines| ==> lines[i].id in c
    ensures PriceLines(FindAllById(c, lines), lines) == PriceLines(c, lines)
  {
    assert forall i :: 0 <= i < |lines| ==> Mentions(lines, lines[i].id);
  }

  /** The first line naming a product exists whenever some line names it. */
  lemma FirstLineExists(lines: seq<Line>, id: ProductId) returns (i: int)
    requires Mentions(lines, id)
    ensures IsFirstLine(lines, id, i)
  {
    var k :| 0 <= k < |lines| && lines[k].id == id;
    i := 0;
    while lines[i].id != id
      invariant 0 <= i <= k
      invariant forall j :: 0 <= j < i ==> lines[j].id != id
      decreases k - i
    {
      i := i + 1;
    }
  }

  /** The missing ids computed against the found products are those computed against the whole catalogue. */
  lemma {:induction false} MissingAgrees(found: Catalogue, c: Catalogue, lines: seq<Line>)
    requires forall i :: 0 <= i < |lines| ==> (lines[i].id in found <==> lines[i].id in c)
    ensures Missing(found, lines) == Missing(c, lines)
    decreases |lines|
  {
    if |lines| > 0 {
      assert forall i :: 0 <= i < |lines[1..]| ==> lines[1..][i] == lines[i + 1];
      MissingAgrees(found, c, lines[1..]);
    }
  }

  /** The missing ids keep request order: the missing ids of two concatenated requests are the concatenation of theirs. */
  lemma {:induction false} MissingAppend(found: Catalogue, a: seq<Line>, b: seq<Line>)
    ensures Missing(found, a + b) == Missing(found, a) + Missing(found, b)
    decreases |a|
  {
    if |a| > 0 {
      assert (a + b)[0] == a[0];
      assert (a + b)[1..] == a[1..] + b;
      MissingAppend(found, a[1..], b);
    } else {
      assert a + b == b;
    }
  }

  /** A single line contributes its id to the missing ids exactly when its product is not found. */
  lemma MissingSingle(found: Catalogue, line: Line)
    ensures Missing(found, [line]) == if line.id in found then [] else [line.id]
  {
    assert [line][1..] == [];
  }

  /** Checking for missing ids against the found products is the same as checking against the whole catalogue. */
  lemma MissingFound(c: Catalogue, lines: seq<Line>)
    ensures Missing(FindAllById(c, lines), lines) == Missing(c, lines)
    ensures Missing(c, lines) == [] <==> forall i :: 0 <= i < |lines| ==> lines[i].id in c
  {
    assert forall i :: 0 <= i < |lines| ==> Mentions(lines, lines[i].id);
    MissingAgrees(FindAllById(c, lines), c, lines);
    if Missing(c, lines) == [] {
      forall i | 0 <= i < |lines|
        ensures lines[i].id in c
      {
        assert lines[i].id !in Missing(c, lines);
      }
    } else {
      var id := Missing(c, lines)[0];
      assert Mentions(lines, id) && id !in c;
    }
  }

  /** The stock check over the found products reports exactly the stored products that the reference statement calls short. */
  lemma ShortagesExact(c: Catalogue, lines: seq<Line>)
    ensures forall id :: id in Shortages(FindAllById(c, lines), lines) <==> id in c && Exceeds(lines, id, c[id].quantity)
    ensures forall id :: id in Shortages(FindAllById(c, lines), lines) ==> Shortages(FindAllById(c, lines), lines)[id] == c[id]
  {
    var found := FindAllById(c, lines);
    forall id | id in c
      ensures id in Shortages(found, lines) <==> Exceeds(lines, id, c[id].quantity)
    {
      assert IsShort(lines, id, c[id]) <==> Exceeds(lines, id, c[id].quantity);
      if Exceeds(lines, id, c[id].quantity) {
        var i :| IsFirstLine(lines, id, i) && lines[i].quantity != 0 && lines[i].quantity > c[id].quantity;
        assert id in found;
      }
    }
  }

  /**
   * One request: creates the order and decrements the stock, or reports the
   * first failed check and leaves the store as it was.
   */
  function Execute(s: Store, customer: CustomerId, lines: seq<Line>): (p: Placement)
    ensures p.result.Failure? ==> p.store == s
    ensures customer !in s.customers ==> p.result == Failure(InvalidCustomer)
    ensures customer in s.customers && Missing(s.products, lines) != [] ==>
      p.result == Failure(UnknownProducts(Missing(s.products, lines)))
    ensures customer in s.customers && Missing(s.products, lines) == []
            && (exists id :: id in s.products && Exceeds(lines, id, s.products[id].quantity)) ==>
      && p.result.Failure? && p.result.error.InsufficientStock?
      && (forall id :: id in p.result.error.products <==>
            id in s.products && Exceeds(lines, id, s.products[id].quantity))
      && (forall id :: id in p.result.error.products ==> p.result.error.products[id] == s.products[id])
    ensures p.result.Success? <==>
      && customer in s.customers
      && Missing(s.products, lines) == []
      && (forall id :: id in s.products ==> !Exceeds(lines, id, s.products[id].quantity))
    ensures p.result.Success? ==>
      && p.result.value.customer == customer
      && |p.result.value.lines| == |lines|
      && (forall i :: 0 <= i < |lines| ==>
            && lines[i].id in s.products
            && p.result.value.lines[i] == OrderLine(lines[i].id, lines[i].quantity, s.products[lines[i].id].price))
      && p.store == Store(s.customers, UpdateQuantity(s.products, lines), s.orders + [p.result.value])
  {
    if customer !in s.customers then
      Placement(Failure(InvalidCustomer), s)
    else
      var found := FindAllById(s.products, lines);
      var missing := Missing(found, lines);
      MissingFound(s.products, lines);
      if |missing| > 0 then
        Placement(Failure(UnknownProducts(missing)), s)
      else
        var short := Shortages(found, lines);
        ShortagesExact(s.products, lines);
        if |short| > 0 then
          Placement(Failure(InsufficientStock(short)), s)
        else
          var order := Order(customer, PriceLines(found, lines));
          Placement(Success(order), Store(s.customers, UpdateQuantity(s.products, lines), s.orders + [order]))
  }
}
