/**
 * Properties of the order workflow that relate several facts or several
 * requests: the stock bound under distinct ids, what happens without it, a
 * repeated order, and an example store.
 */
module OrderProperties {
  import opened Wrappers
  import opened Products
  import opened Orders

  /**
   * With distinct product ids and no negative stock to begin with, a
   * successful order never drives a product's quantity below zero.
   * (Non-negative line quantities are not needed: a negative quantity passes
   * the stock check and only raises the stock.)
   */
  lemma StockStaysNonNegative(s: Store, customer: CustomerId, lines: seq<Line>)
    requires DistinctIds(lines)
    requires forall id :: id in s.products ==> s.products[id].quantity >= 0
    requires Execute(s, customer, lines).result.Success?
    ensures forall id :: id in Execute(s, customer, lines).store.products ==>
      Execute(s, customer, lines).store.products[id].quantity >= 0
  {
    var after := Execute(s, customer, lines).store.products;
    forall id | id in after
      ensures after[id].quantity >= 0
    {
      assert id in s.products;
      if Mentions(lines, id) {
        var i := FirstLineExists(lines, id);
        RequestedDistinct(lines, i);
        assert !Exceeds(lines, id, s.products[id].quantity);
      } else {
        RequestedUnmentioned(lines, id);
      }
    }
  }

  /** A store with one customer "c" and a single product "p" with five units in stock. */
  function OneProductStore(): Store
  {
    Store({"c"}, map["p" := Product("pen", 10, 5)], [])
  }

  /**
   * Repeated ids defeat the stock check: only the first line is compared with
   * the stock, but every line is subtracted, so two lines of three units each
   * succeed against five units and leave minus one.
   * The inputs are parameters pinned by `requires`, so that the calls to
   * `Execute` are not unfolded on literal arguments.
   */
  lemma RepeatedIdsOversell(s: Store, lines: seq<Line>)
    requires s == OneProductStore() && lines == [Line("p", 3), Line("p", 3)]
    ensures Execute(s, "c", lines).result.Success?
    ensures Execute(s, "c", lines).store.products["p"].quantity == -1
  {
    assert Missing(s.products, lines) == [] by {
      MissingFound(s.products, lines);
    }
    forall id | id in s.products
      ensures !Exceeds(lines, id, s.products[id].quantity)
    {
      assert FirstQuantity(lines, id) == Some(3);
      assert IsShort(lines, id, s.products[id]) <==> Exceeds(lines, id, s.products[id].quantity);
    }
    assert lines[1..] == [Line("p", 3)] && lines[1..][1..] == [];
    assert Requested(lines[1..][1..], "p") == 0;
    assert Requested(lines[1..], "p") == 3;
    assert Requested(lines, "p") == 6;
  }

  /**
   * A first line asking for zero units is skipped by the stock check, so a
   * later line for the same product is never compared with the stock.
   * The inputs are parameters pinned by `requires`, as above.
   */
  lemma ZeroFirstLineSkipsCheck(s: Store, lines: seq<Line>)
    requires s == OneProductStore() && lines == [Line("p", 0), Line("p", 9)]
    ensures Execute(s, "c", lines).result.Success?
    ensures Execute(s, "c", lines).store.products["p"].quantity == -4
  {
    assert Missing(s.products, lines) == [] by {
      MissingFound(s.products, lines);
    }
    forall id | id in s.products
      ensures !Exceeds(lines, id, s.products[id].quantity)
    {
      assert FirstQuantity(lines, id) == Some(0);
      assert IsShort(lines, id, s.products[id]) <==> Exceeds(lines, id, s.products[id].quantity);
    }
    assert lines[1..] == [Line("p", 9)] && lines[1..][1..] == [];
    assert Requested(lines[1..][1..], "p") == 0;
    assert Requested(lines[1..], "p") == 9;
    assert Requested(lines, "p") == 9;
  }

  /**
   * Validation reads the stock left by earlier orders: repeating a successful
   * order whose line for some product asks for more than half of that
   * product's stock fails the second time, reporting that product.
   */
  lemma RepeatOrderFails(s: Store, customer: CustomerId, lines: seq<Line>, i: int)
    requires DistinctIds(lines)
    requires 0 <= i < |lines|
    requires Execute(s, customer, lines).result.Success?
    requires lines[i].id in s.products
    requires lines[i].quantity > 0 && 2 * lines[i].quantity > s.products[lines[i].id].quantity
    ensures Execute(Execute(s, customer, lines).store, customer, lines).result.Failure?
    ensures Execute(Execute(s, customer, lines).store, customer, lines).result.error.InsufficientStock?
    ensures lines[i].id in Execute(Execute(s, customer, lines).store, customer, lines).result.error.products
  {
    var s' := Execute(s, customer, lines).store;
    var id := lines[i].id;
    MissingFound(s.products, lines);
    MissingFound(s'.products, lines);
    assert Missing(s'.products, lines) == [];
    RequestedDistinct(lines, i);
    assert IsFirstLine(lines, id, i);
    assert Exceeds(lines, id, s'.products[id].quantity);
  }

  /** An example store: customer "C1" and two products, p1 and p2, with prices 10 and 20 and stocks 5 and 2. */
  function ExampleStore(): Store
  {
    Store({"C1"}, map["p1" := Product("P1", 10, 5), "p2" := Product("P2", 20, 2)], [])
  }

  /**
   * For the example store and the request [p1:3, p2:3], both products exist and only p2 is short.
   * The request is a parameter pinned by `requires`, so that the calls are
   * not unfolded on literal arguments.
   */
  lemma ExampleInsufficientChecks(lines: seq<Line>)
    requires lines == [Line("p1", 3), Line("p2", 3)]
    ensures Missing(ExampleStore().products, lines) == []
    ensures forall id :: id in ExampleStore().products ==>
      (Exceeds(lines, id, ExampleStore().products[id].quantity) <==> id == "p2")
  {
    var c := ExampleStore().products;
    assert "p1" in c && "p2" in c;
    MissingFound(c, lines);
    assert IsFirstLine(lines, "p2", 1);
    assert Exceeds(lines, "p2", c["p2"].quantity);
    assert !Exceeds(lines, "p1", c["p1"].quantity) by {
      assert FirstQuantity(lines, "p1") == Some(3);
      assert IsShort(lines, "p1", c["p1"]) <==> Exceeds(lines, "p1", c["p1"].quantity);
    }
    assert c.Keys == {"p1", "p2"};
  }

  /**
   * In the example store, the request [p1:3, p2:3] asks for three units of p2,
   * which has two, and fails reporting p2 alone.
   * The inputs are parameters pinned by `requires`, so that the calls to
   * `Execute` are not unfolded on literal arguments.
   */
  lemma ExampleInsufficient(s: Store, lines: seq<Line>)
    requires s == ExampleStore() && lines == [Line("p1", 3), Line("p2", 3)]
    ensures Execute(s, "C1", lines).result == Failure(InsufficientStock(map["p2" := Product("P2", 20, 2)]))
  {
    ExampleInsufficientChecks(lines);
    assert "p2" in s.products && Exceeds(lines, "p2", s.products["p2"].quantity);
    var r := Execute(s, "C1", lines).result;
    assert r.Failure? && r.error.InsufficientStock?;
    var short := r.error.products;
    assert short.Keys == {"p2"};
    assert short["p2"] == Product("P2", 20, 2);
    assert short == map["p2" := Product("P2", 20, 2)];
  }

  /**
   * For the example store and the request [p1:3, p2:2], both products exist and neither is short.
   * The request is a parameter pinned by `requires`, so that the calls are
   * not unfolded on literal arguments.
   */
  lemma ExampleSuccessChecks(lines: seq<Line>)
    requires lines == [Line("p1", 3), Line("p2", 2)]
    ensures Missing(ExampleStore().products, lines) == []
    ensures forall id :: id in ExampleStore().products ==> !Exceeds(lines, id, ExampleStore().products[id].quantity)
  {
    var c := ExampleStore().products;
    assert "p1" in c && "p2" in c;
    MissingFound(c, lines);
    assert !Exceeds(lines, "p1", c["p1"].quantity) by {
      assert FirstQuantity(lines, "p1") == Some(3);
      assert IsShort(lines, "p1", c["p1"]) <==> Exceeds(lines, "p1", c["p1"].quantity);
    }
    assert !Exceeds(lines, "p2", c["p2"].quantity) by {
      assert FirstQuantity(lines, "p2") == Some(2);
      assert IsShort(lines, "p2", c["p2"]) <==> Exceeds(lines, "p2", c["p2"].quantity);
    }
    assert c.Keys == {"p1", "p2"};
  }

  /**
   * In the example store, the decrement for the request [p1:3, p2:2] leaves two units of p1 and none of p2.
   * The request is a parameter pinned by `requires`, so that the calls are
   * not unfolded on literal arguments.
   */
  lemma ExampleSuccessStock(lines: seq<Line>)
    requires lines == [Line("p1", 3), Line("p2", 2)]
    ensures UpdateQuantity(ExampleStore().products, lines) == map["p1" := Product("P1", 10, 2), "p2" := Product("P2", 20, 0)]
  {
    var c := ExampleStore().products;
    var after := UpdateQuantity(c, lines);
    assert "p1" != "p2" by { assert "p1"[1] != "p2"[1]; }
    assert DistinctIds(lines);
    RequestedDistinct(lines, 0);
    RequestedDistinct(lines, 1);
    assert Requested(lines, "p1") == 3 && Requested(lines, "p2") == 2;
    assert "p1" in c && "p2" in c && c.Keys == {"p1", "p2"};
    assert after["p1"] == Product("P1", 10, 2) && after["p2"] == Product("P2", 20, 0);
  }

  /**
   * In the example store, the request [p1:3, p2:2] is within stock: it yields
   * the priced lines and leaves stocks 2 and 0.
   * The inputs are parameters pinned by `requires`, so that the calls to
   * `Execute` are not unfolded on literal arguments.
   */
  lemma ExampleSuccess(s: Store, lines: seq<Line>)
    requires s == ExampleStore() && lines == [Line("p1", 3), Line("p2", 2)]
    ensures Execute(s, "C1", lines).result == Success(Order("C1", [OrderLine("p1", 3, 10), OrderLine("p2", 2, 20)]))
    ensures Execute(s, "C1", lines).store.products == map["p1" := Product("P1", 10, 2), "p2" := Product("P2", 20, 0)]
  {
    ExampleSuccessChecks(lines);
    ExampleSuccessStock(lines);
    var p := Execute(s, "C1", lines);
    assert p.result.Success?;
    var order := p.result.value;
    assert s.products["p1"].price == 10 && s.products["p2"].price == 20;
    assert lines[0].id == "p1" && lines[1].id == "p2";
    assert order.lines[0] == OrderLine("p1", 3, 10) && order.lines[1] == OrderLine("p2", 2, 20);
    assert order.lines == [OrderLine("p1", 3, 10), OrderLine("p2", 2, 20)];
  }

  /**
   * In the example store, the request [p1:1, p9:1] names the unknown product
   * p9, which is reported by id even beside a valid line.
   * The inputs are parameters pinned by `requires`, so that the calls to
   * `Execute` are not unfolded on literal arguments.
   */
  lemma ExampleUnknown(s: Store, lines: seq<Line>)
    requires s == ExampleStore() && lines == [Line("p1", 1), Line("p9", 1)]
    ensures Execute(s, "C1", lines).result == Failure(UnknownProducts(["p9"]))
  {
    assert "p1" in s.products;
    assert "p9" !in s.products;
    MissingAppend(s.products, [lines[0]], [lines[1]]);
    MissingSingle(s.products, lines[0]);
    MissingSingle(s.products, lines[1]);
    assert [lines[0]] + [lines[1]] == lines;
    assert Missing(s.products, lines) == ["p9"];
  }
}
