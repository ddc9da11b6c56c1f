/** The stock repository: the `product` table keyed by product id and the `item` table keyed
    by product id and location code, with the save (update, else insert), add-quantity (add,
    else insert) and ordered query operations the stock logic uses. */
module StockStore {
  import opened Wrappers
  import opened Tables

  /** A row of `product`. */
  datatype ProductRow = ProductRow(id: string, name: string)

  /** A row of `item`. */
  datatype ItemRow = ItemRow(productId: string, locationCode: string, quantity: int)

  function ItemKey(r: ItemRow): (string, string)
  {
    (r.productId, r.locationCode)
  }

  /** Rows in ascending `(product_id, location_code)` order, each key once. */
  predicate ItemRowsSorted(rows: seq<ItemRow>)
  {
    forall i, j :: 0 <= i < j < |rows| ==> PairLess(ItemKey(rows[i]), ItemKey(rows[j]))
  }

  /** `rows` lists exactly the entries of `m` whose product is accepted by `keep`. */
  ghost predicate ListsItems(rows: seq<ItemRow>, m: map<(string, string), int>, keep: string -> bool)
  {
    && (forall i :: 0 <= i < |rows| ==>
          keep(rows[i].productId) && ItemKey(rows[i]) in m && m[ItemKey(rows[i])] == rows[i].quantity)
    && (forall k :: k in m && keep(k.0) ==> exists i :: 0 <= i < |rows| && ItemKey(rows[i]) == k)
  }

  function ProductRows(t: Table<string, string>): seq<ProductRow>
  {
    seq(|t|, i requires 0 <= i < |t| => ProductRow(t[i].0, t[i].1))
  }

  function ItemRows(t: Table<(string, string), int>): seq<ItemRow>
  {
    seq(|t|, i requires 0 <= i < |t| => ItemRow(t[i].0.0, t[i].0.1, t[i].1))
  }

  /** The rows whose product is one of `productIds`, in their order. */
  function Where(rows: seq<ItemRow>, productIds: seq<string>): (r: seq<ItemRow>)
    decreases |rows|
  {
    if rows == [] then []
    else if rows[0].productId in productIds then [rows[0]] + Where(rows[1..], productIds)
    else Where(rows[1..], productIds)
  }

  /** The value `addQuantity` leaves under `k`: the old quantity plus `delta`, or `delta` for a
      new row. */
  function Added(m: map<(string, string), int>, k: (string, string), delta: int): int
  {
    if k in m then m[k] + delta else delta
  }

  class StockRepository {
    var products: Table<string, string>
    var items: Table<(string, string), int>

    ghost predicate Valid()
      reads this
    {
      Sorted(StringLess, products) && Sorted(PairLess, items)
    }

    /** The `product` table as a map from id to name. */
    function ProductMap(): map<string, string>
      reads this
    {
      AsMap(products)
    }

    /** The `item` table as a map from `(productId, locationCode)` to quantity. */
    function ItemMap(): map<(string, string), int>
      reads this
    {
      AsMap(items)
    }

    constructor()
      ensures Valid() && ProductMap() == map[] && ItemMap() == map[]
    {
      products := [];
      items := [];
    }

    /** `save(Product)`: `update product set name = ? where id = ?`, and `insert` when no row
        was updated. */
    method SaveProduct(id: string, name: string)
      requires Valid()
      modifies this
      ensures Valid()
      ensures ProductMap() == old(ProductMap())[id := name]
      ensures items == old(items)
    {
      StringLessIsOrder();
      UpsertAsMap(StringLess, products, id, name);
      products := Upsert(StringLess, products, id, name);
    }

    /** `save(Item)`: set the quantity of the row, inserting it when there is none. */
    method SaveItem(productId: string, locationCode: string, quantity: int)
      requires Valid()
      modifies this
      ensures Valid()
      ensures ItemMap() == old(ItemMap())[(productId, locationCode) := quantity]
      ensures products == old(products)
    {
      PairLessIsOrder();
      UpsertAsMap(PairLess, items, (productId, locationCode), quantity);
      items := Upsert(PairLess, items, (productId, locationCode), quantity);
    }

    /** `addQuantity(Item)`: `update item set quantity = quantity + ?`, and `insert` with the
        given quantity when no row was updated; either way one row is affected. */
    method AddQuantity(productId: string, locationCode: string, delta: int) returns (count: int)
      requires Valid()
      modifies this
      ensures Valid()
      ensures ItemMap() == old(ItemMap())[(productId, locationCode) :=
                                          Added(old(ItemMap()), (productId, locationCode), delta)]
      ensures products == old(products)
      ensures count == 1
    {
      var key := (productId, locationCode);
      PairLessIsOrder();
      LookupAsMap(PairLess, items, key);
      var quantity := match Lookup(items, key) case Some(q) => q + delta case None => delta;
      UpsertAsMap(PairLess, items, key, quantity);
      items := Upsert(PairLess, items, key, quantity);
      count := 1;
    }

    /** `findAllProducts()`: `select * from product order by id`. */
    method FindAllProducts() returns (rows: seq<ProductRow>)
      requires Valid()
      ensures forall i, j :: 0 <= i < j < |rows| ==> StringLess(rows[i].id, rows[j].id)
      ensures forall i :: 0 <= i < |rows| ==>
                rows[i].id in ProductMap() && ProductMap()[rows[i].id] == rows[i].name
      ensures forall id :: id in ProductMap() ==> exists i :: 0 <= i < |rows| && rows[i].id == id
    {
      rows := ProductRows(products);
      StringLessIsOrder();
      AsMapSorted(StringLess, products);
      AsMapKeys(products);
      forall id | id in ProductMap() ensures exists i :: 0 <= i < |rows| && rows[i].id == id {
        var i :| 0 <= i < |products| && products[i].0 == id;
        assert rows[i].id == id;
      }
    }

    /** `findAllItems()`: `select * from item order by product_id, location_code`. */
    method FindAllItems() returns (rows: seq<ItemRow>)
      requires Valid()
      ensures ItemRowsSorted(rows)
      ensures ListsItems(rows, ItemMap(), _ => true)
    {
      rows := ItemRows(items);
      ItemRowsMeaning(items);
    }

    /** `findItems(productIds)`: the same query restricted to `product_id in (:productIds)`. */
    method FindItems(productIds: seq<string>) returns (rows: seq<ItemRow>)
      requires Valid()
      ensures ItemRowsSorted(rows)
      ensures ListsItems(rows, ItemMap(), id => id in productIds)
    {
      rows := Where(ItemRows(items), productIds);
      ItemRowsMeaning(items);
      WhereMeaning(ItemRows(items), productIds);
      var all := ItemRows(items);
      forall k | k in ItemMap() && k.0 in productIds
        ensures exists i :: 0 <= i < |rows| && ItemKey(rows[i]) == k
      {
        var j :| 0 <= j < |all| && ItemKey(all[j]) == k;
        assert all[j] in rows;
      }
    }
  }

  // ---------------------------------------------------------------------------------------

  /** The rows of a sorted item table are sorted and list the table's map. */
  lemma ItemRowsMeaning(t: Table<(string, string), int>)
    requires Sorted(PairLess, t)
    ensures ItemRowsSorted(ItemRows(t))
    ensures ListsItems(ItemRows(t), AsMap(t), _ => true)
  {
    var rows := ItemRows(t);
    assert forall i :: 0 <= i < |t| ==> ItemKey(rows[i]) == t[i].0;
    ItemRowsHold(t);
    ItemRowsCover(t);
  }

  lemma ItemRowsHold(t: Table<(string, string), int>)
    requires Sorted(PairLess, t)
    ensures forall i :: 0 <= i < |t| ==> t[i].0 in AsMap(t) && AsMap(t)[t[i].0] == ItemRows(t)[i].quantity
  {
    PairLessIsOrder();
    AsMapSorted(PairLess, t);
  }

  lemma ItemRowsCover(t: Table<(string, string), int>)
    ensures forall k :: k in AsMap(t) ==> exists i :: 0 <= i < |t| && ItemKey(ItemRows(t)[i]) == k
  {
    AsMapKeys(t);
    forall k | k in AsMap(t) ensures exists i :: 0 <= i < |t| && ItemKey(ItemRows(t)[i]) == k {
      var i :| 0 <= i < |t| && t[i].0 == k;
      assert ItemKey(ItemRows(t)[i]) == k;
    }
  }

  /** `Where` keeps exactly the rows of the listed products, in order. */
  lemma {:induction false} WhereMeaning(rows: seq<ItemRow>, productIds: seq<string>)
    ensures forall r :: r in Where(rows, productIds) <==> r in rows && r.productId in productIds
    ensures ItemRowsSorted(rows) ==> ItemRowsSorted(Where(rows, productIds))
    decreases |rows|
  {
    if rows != [] {
      WhereMeaning(rows[1..], productIds);
      assert forall r :: r in rows <==> r == rows[0] || r in rows[1..];
      if ItemRowsSorted(rows) {
        var rest := Where(rows[1..], productIds);
        assert ItemRowsSorted(rows[1..]);
        forall r | r in rest ensures PairLess(ItemKey(rows[0]), ItemKey(r)) {
          var j :| 0 <= j < |rows[1..]| && rows[1..][j] == r;
          assert rows[j + 1] == r;
        }
      }
    }
  }
}
