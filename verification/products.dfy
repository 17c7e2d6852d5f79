/**
 * The product repository: the product table seen as an immutable map from
 * product id to the stored row, and its four operations (create, findByName,
 * findAllById, updateQuantity) as pure operations on that map.
 */
module Products {
  import opened Wrappers

  type ProductId = string

  /** A stored product row. Its id is the key under which the catalogue holds it. */
  datatype Product = Product(name: string, price: int, quantity: int)

  /** The product table. */
  type Catalogue = map<ProductId, Product>

  /** One requested line `{ id, quantity }`, as passed to findAllById and updateQuantity. */
  datatype Line = Line(id: ProductId, quantity: int)

  /** Some line of the request names product `id`. */
  predicate Mentions(lines: seq<Line>, id: ProductId)
  {
    exists i :: 0 <= i < |lines| && lines[i].id == id
  }

  /** No two lines of the request name the same product. */
  predicate DistinctIds(lines: seq<Line>)
  {
    forall i, j :: 0 <= i < j < |lines| ==> lines[i].id != lines[j].id
  }

  /** The ids the request names. */
  function Ids(lines: seq<Line>): (ids: set<ProductId>)
    ensures forall id :: id in ids <==> Mentions(lines, id)
  {
    set i | 0 <= i < |lines| :: lines[i].id
  }

  /** The ids of the stored products whose name is `name`. */
  function Named(c: Catalogue, name: string): (ids: set<ProductId>)
    ensures forall id :: id in ids <==> id in c && c[id].name == name
  {
    set id | id in c && c[id].name == name
  }

  /**
   * Inserts a new product row. The id is the fresh one the database generates
   * for the row, supplied by the caller.
   */
  function Create(c: Catalogue, id: ProductId, name: string, price: int, quantity: int): (r: Catalogue)
    requires id !in c
    ensures r.Keys == c.Keys + {id}
    ensures r[id].name == name && r[id].price == price && r[id].quantity == quantity
    ensures forall k :: k in c ==> r[k] == c[k]
  {
    c[id := Product(name, price, quantity)]
  }

  /**
   * Looks a product up by name. When several rows share the name the database
   * returns one of them, so the choice among them is left open.
   */
  method FindByName(c: Catalogue, name: string) returns (r: Option<(ProductId, Product)>)
    ensures r.None? <==> forall id :: id in c ==> c[id].name != name
    ensures r.Some? ==> r.value.0 in c && c[r.value.0] == r.value.1 && r.value.1.name == name
  {
    var ids := Named(c, name);
    if ids == {} {
      r := None;
    } else {
      var id :| id in ids;
      r := Some((id, c[id]));
    }
  }

  /**
   * The stored products whose id some line names; ids that are not stored are
   * simply absent from the answer.
   */
  function FindAllById(c: Catalogue, lines: seq<Line>): (found: Catalogue)
    ensures forall id :: id in found <==> id in c && Mentions(lines, id)
    ensures forall id :: id in found ==> found[id] == c[id]
  {
    map id | id in c && id in Ids(lines) :: c[id]
  }

  /** The total quantity the lines request for product `id`. */
  function Requested(lines: seq<Line>, id: ProductId): int
  {
    if |lines| == 0 then 0
    else (if lines[0].id == id then lines[0].quantity else 0) + Requested(lines[1..], id)
  }

  /** One step of the update loop: subtract the line's quantity from its product, or skip it when the product is not stored. */
  function Decrement(c: Catalogue, line: Line): (r: Catalogue)
    ensures r.Keys == c.Keys
    ensures forall id :: id in c ==>
      r[id] == Product(c[id].name, c[id].price, c[id].quantity - Requested([line], id))
  {
    assert [line][1..] == [];
    if line.id in c then c[line.id := c[line.id].(quantity := c[line.id].quantity - line.quantity)]
    else c
  }

  /**
   * Subtracts every line's quantity from its product, line by line on the same
   * row, skipping lines whose product is not stored. No lower bound is checked.
   */
  function UpdateQuantity(c: Catalogue, lines: seq<Line>): (r: Catalogue)
    ensures r.Keys == c.Keys
    ensures forall id :: id in c ==>
      r[id] == Product(c[id].name, c[id].price, c[id].quantity - Requested(lines, id))
    decreases |lines|
  {
    if |lines| == 0 then c else UpdateQuantity(Decrement(c, lines[0]), lines[1..])
  }

  /**
   * What updateQuantity returns: the stored rows the lines name, after the
   * decrement; rows the lines do not name are not part of the answer.
   */
  function UpdatedRows(c: Catalogue, lines: seq<Line>): (rows: Catalogue)
    ensures forall id :: id in rows <==> id in c && Mentions(lines, id)
    ensures forall id :: id in rows ==>
      rows[id] == Product(c[id].name, c[id].price, c[id].quantity - Requested(lines, id))
  {
    FindAllById(UpdateQuantity(c, lines), lines)
  }

  /** A product no line names is requested in quantity zero. */
  lemma {:induction false} RequestedUnmentioned(lines: seq<Line>, id: ProductId)
    requires !Mentions(lines, id)
    ensures Requested(lines, id) == 0
    decreases |lines|
  {
    if |lines| > 0 {
      assert lines[0].id != id;
      forall i | 0 <= i < |lines[1..]|
        ensures lines[1..][i].id != id
      {
        assert lines[1..][i] == lines[i + 1];
      }
      RequestedUnmentioned(lines[1..], id);
    }
  }

  /** When the ids are distinct, the total requested for a product is the quantity on its one line. */
  lemma {:induction false} RequestedDistinct(lines: seq<Line>, i: int)
    requires DistinctIds(lines)
    requires 0 <= i < |lines|
    ensures Requested(lines, lines[i].id) == lines[i].quantity
    decreases |lines|
  {
    var id := lines[i].id;
    var rest := lines[1..];
    assert DistinctIds(rest) by {
      forall a, b | 0 <= a < b < |rest|
        ensures rest[a].id != rest[b].id
      {
        assert rest[a] == lines[a + 1] && rest[b] == lines[b + 1];
      }
    }
    if i == 0 {
      forall k | 0 <= k < |rest|
        ensures rest[k].id != id
      {
        assert rest[k] == lines[k + 1];
      }
      RequestedUnmentioned(rest, id);
    } else {
      assert lines[0].id != id;
      assert rest[i - 1] == lines[i];
      RequestedDistinct(rest, i - 1);
    }
  }

  /**
   * The update leaves every product that no line names exactly as it was, and
   * changes only the quantity of the products the lines name.
   */
  lemma UpdateQuantityFrame(c: Catalogue, lines: seq<Line>, id: ProductId)
    requires id in c
    ensures UpdateQuantity(c, lines)[id].name == c[id].name
    ensures UpdateQuantity(c, lines)[id].price == c[id].price
    ensures !Mentions(lines, id) ==> UpdateQuantity(c, lines)[id] == c[id]
  {
    if !Mentions(lines, id) {
      RequestedUnmentioned(lines, id);
    }
  }

  /** Lines naming products that are not stored change nothing and insert nothing. */
  lemma UpdateQuantitySkipsUnknown(c: Catalogue, lines: seq<Line>)
    requires forall i :: 0 <= i < |lines| ==> lines[i].id !in c
    ensures UpdateQuantity(c, lines) == c
  {
    var r := UpdateQuantity(c, lines);
    forall id | id in c
      ensures r[id] == c[id]
    {
      UpdateQuantityFrame(c, lines, id);
    }
  }

  /** The update performs no lower-bound check: requesting more than is stored leaves a negative quantity. */
  lemma UpdateQuantityCanGoNegative(c: Catalogue, id: ProductId, q: int)
    requires id in c
    requires q > c[id].quantity
    ensures UpdateQuantity(c, [Line(id, q)])[id].quantity < 0
  {
    assert Requested([Line(id, q)], id) == q;
  }

  /** A product created under a name nobody else uses is what a lookup by that name finds. */
  lemma CreateThenFindByName(c: Catalogue, id: ProductId, name: string, price: int, quantity: int)
    requires id !in c
    ensures Named(Create(c, id, name, price, quantity), name) == Named(c, name) + {id}
    ensures Named(c, name) == {} ==> Named(Create(c, id, name, price, quantity), name) == {id}
  {
  }
}
