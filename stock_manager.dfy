/** `StockManager`: setting stock levels, adding deltas from a list or from the lines of an
    upload, and reading stock levels back with product names, over the stock repository. */
module StockLogic {
  import opened Wrappers
  import opened JavaLang
  import opened JavaSplit
  import opened Tables
  import opened StockStore

  /** `Stock`: a product, its name (`null` when the caller gives none), a location and a
      quantity. */
  datatype Stock = Stock(productId: string, productName: Option<string>, locationCode: string, quantity: int)

  function StockKey(s: Stock): (string, string)
  {
    (s.productId, s.locationCode)
  }

  /** The repository's contents as values. */
  datatype Contents = Contents(products: map<string, string>, items: map<(string, string), int>)

  function MissingNameMessage(id: string): string
  {
    "ProductID [" + id + "] is missing product name value"
  }

  function InvalidProductMessage(id: string): string
  {
    "ProductID [" + id + "] is invalid"
  }

  function FormatMessage(lineCount: int, line: string): string
  {
    "[Line#" + IntToString(lineCount) + "] line formatting is invalid [" + line + "]"
  }

  /** The message for a middle field that is not an `int`, as written: it shows the third
      field, the location code. */
  function QuantityMessage(lineCount: int, values: seq<string>, line: string): string
    requires |values| == 3
  {
    "[Line#" + IntToString(lineCount) + "] quantity [" + values[2] + "] is invalid [" + line + "]"
  }

  /** The same message showing the field that failed to parse. */
  function QuantityMessageFixed(lineCount: int, values: seq<string>, line: string): string
    requires |values| == 3
  {
    "[Line#" + IntToString(lineCount) + "] quantity [" + values[1] + "] is invalid [" + line + "]"
  }

  /** The name `getStockLevels` reports for a product. */
  function NameOf(productMap: map<string, string>, id: string): string
  {
    if id in productMap then productMap[id] else "missing"
  }

  // ---------------------------------------------------------------------------------------
  // Specifications of the loops

  /** A stock whose product is unknown and that carries no name. */
  predicate NameMissing(known: map<string, string>, s: Stock)
  {
    s.productId !in known && s.productName.None?
  }

  /** `setStockLevels` from `stocks` on, with the product map read before the loop. */
  function SetLevels(known: map<string, string>, stocks: seq<Stock>, c: Contents): (Outcome<string>, Contents)
    decreases |stocks|
  {
    if stocks == [] then (Pass, c)
    else
      var s := stocks[0];
      if NameMissing(known, s) then (Fail(MissingNameMessage(s.productId)), c)
      else
        var products := if s.productId in known then c.products else c.products[s.productId := s.productName.value];
        SetLevels(known, stocks[1..], Contents(products, c.items[StockKey(s) := s.quantity]))
  }

  /** `updateStockLevels(list)` from `stocks` on. */
  function UpdateLevels(known: map<string, string>, stocks: seq<Stock>, items: map<(string, string), int>)
    : (Outcome<string>, map<(string, string), int>)
    decreases |stocks|
  {
    if stocks == [] then (Pass, items)
    else
      var s := stocks[0];
      if s.productId !in known then (Fail(InvalidProductMessage(s.productId)), items)
      else UpdateLevels(known, stocks[1..], items[StockKey(s) := Added(items, StockKey(s), s.quantity)])
  }

  /** What a non-empty line does, when it fails: the message. */
  function LineError(lineCount: int, line: string): Option<string>
  {
    var values := Split(line);
    if |values| != 3 then Some(FormatMessage(lineCount, line))
    else if ParseInt(values[1]).None? then Some(QuantityMessage(lineCount, values, line))
    else None
  }

  /** `updateStockLevels(inputStream)` from `lines` on, with `count` non-empty lines read so
      far. */
  function ProcessLines(lines: seq<string>, count: int, items: map<(string, string), int>)
    : (Result<int, string>, map<(string, string), int>)
    decreases |lines|
  {
    if lines == [] then (Success(count), items)
    else
      var line := lines[0];
      if |line| == 0 then ProcessLines(lines[1..], count, items)
      else
        var values := Split(line);
        if |values| != 3 then (Failure(FormatMessage(count + 1, line)), items)
        else
          match ParseInt(values[1])
          case None => (Failure(QuantityMessage(count + 1, values, line)), items)
          case Some(q) =>
            var key := (values[0], values[2]);
            ProcessLines(lines[1..], count + 1, items[key := Added(items, key, q)])
  }

  /** The `Stock` reported for an item row. */
  function StockOf(productMap: map<string, string>, r: ItemRow): Stock
  {
    Stock(r.productId, Some(NameOf(productMap, r.productId)), r.locationCode, r.quantity)
  }

  // ---------------------------------------------------------------------------------------

  class StockManager {
    const repository: StockRepository

    constructor(repository: StockRepository)
      ensures this.repository == repository
    {
      this.repository := repository;
    }

    function Current(): Contents
      reads repository
    {
      Contents(repository.ProductMap(), repository.ItemMap())
    }

    /** `getProductMap()`: every product id with its name. */
    method GetProductMap() returns (productMap: map<string, string>)
      requires repository.Valid()
      ensures productMap == repository.ProductMap()
    {
      var products := repository.FindAllProducts();
      productMap := map[];
      var i := 0;
      while i < |products|
        invariant 0 <= i <= |products|
        invariant forall id :: id in productMap ==>
                    id in repository.ProductMap() && productMap[id] == repository.ProductMap()[id]
        invariant forall j :: 0 <= j < i ==> products[j].id in productMap
      {
        productMap := productMap[products[i].id := products[i].name];
        i := i + 1;
      }
    }

    /** `setStockLevels(stockLevels)`. */
    method SetStockLevels(stockLevels: seq<Stock>) returns (result: Outcome<string>)
      requires repository.Valid()
      modifies repository
      ensures repository.Valid()
      ensures (result, Current()) == SetLevels(old(repository.ProductMap()), stockLevels, old(Current()))
    {
      var productMap := GetProductMap();
      var i := 0;
      while i < |stockLevels|
        invariant 0 <= i <= |stockLevels|
        invariant repository.Valid()
        invariant SetLevels(productMap, stockLevels[i..], Current()) == SetLevels(productMap, stockLevels, old(Current()))
      {
        var stock := stockLevels[i];
        assert stockLevels[i..][1..] == stockLevels[i + 1..];
        if stock.productId !in productMap {
          if stock.productName == None {
            return Fail(MissingNameMessage(stock.productId));
          }
          repository.SaveProduct(stock.productId, stock.productName.value);
        }
        repository.SaveItem(stock.productId, stock.locationCode, stock.quantity);
        i := i + 1;
      }
      assert stockLevels[i..] == [];
      return Pass;
    }

    /** `updateStockLevels(stockLevels)`. */
    method UpdateStockLevels(stockLevels: seq<Stock>) returns (result: Outcome<string>)
      requires repository.Valid()
      modifies repository
      ensures repository.Valid()
      ensures repository.ProductMap() == old(repository.ProductMap())
      ensures (result, repository.ItemMap()) == UpdateLevels(old(repository.ProductMap()), stockLevels, old(repository.ItemMap()))
    {
      var productMap := GetProductMap();
      var i := 0;
      while i < |stockLevels|
        invariant 0 <= i <= |stockLevels|
        invariant repository.Valid()
        invariant repository.ProductMap() == productMap
        invariant UpdateLevels(productMap, stockLevels[i..], repository.ItemMap()) ==
                  UpdateLevels(productMap, stockLevels, old(repository.ItemMap()))
      {
        var stock := stockLevels[i];
        assert stockLevels[i..][1..] == stockLevels[i + 1..];
        if stock.productId !in productMap {
          return Fail(InvalidProductMessage(stock.productId));
        }
        var _ := repository.AddQuantity(stock.productId, stock.locationCode, stock.quantity);
        i := i + 1;
      }
      assert stockLevels[i..] == [];
      return Pass;
    }

    /** `updateStockLevels(inputStream)`, over the lines the scanner yields. */
    method UpdateStockLines(lines: seq<string>) returns (result: Result<int, string>)
      requires repository.Valid()
      modifies repository
      ensures repository.Valid()
      ensures repository.ProductMap() == old(repository.ProductMap())
      ensures (result, repository.ItemMap()) == ProcessLines(lines, 0, old(repository.ItemMap()))
    {
      var lineCount := 0;
      var i := 0;
      while i < |lines|
        invariant 0 <= i <= |lines|
        invariant repository.Valid()
        invariant repository.ProductMap() == old(repository.ProductMap())
        invariant ProcessLines(lines[i..], lineCount, repository.ItemMap()) ==
                  ProcessLines(lines, 0, old(repository.ItemMap()))
      {
        var line := lines[i];
        assert lines[i..][1..] == lines[i + 1..];
        i := i + 1;
        if |line| == 0 {
          continue;
        }
        lineCount := lineCount + 1;
        var values := Split(line);
        if |values| != 3 {
          return Failure(FormatMessage(lineCount, line));
        }
        var quantity := ParseInt(values[1]);
        if quantity == None {
          return Failure(QuantityMessage(lineCount, values, line));
        }
        var _ := repository.AddQuantity(values[0], values[2], quantity.value);
      }
      assert lines[i..] == [];
      return Success(lineCount);
    }

    /** `getStockLevels()`: one stock per item, in the repository's order. */
    method GetStockLevels() returns (stocks: seq<Stock>)
      requires repository.Valid()
      ensures |stocks| == |repository.ItemMap()|
      ensures forall i, j :: 0 <= i < j < |stocks| ==> PairLess(StockKey(stocks[i]), StockKey(stocks[j]))
      ensures forall i :: 0 <= i < |stocks| ==>
                StockKey(stocks[i]) in repository.ItemMap() &&
                stocks[i].quantity == repository.ItemMap()[StockKey(stocks[i])] &&
                stocks[i].productName == Some(NameOf(repository.ProductMap(), stocks[i].productId))
      ensures forall k :: k in repository.ItemMap() ==> exists i :: 0 <= i < |stocks| && StockKey(stocks[i]) == k
    {
      var productMap := GetProductMap();
      var items := repository.FindAllItems();
      stocks := StockLevels(productMap, items);
      ListingSize(items, repository.ItemMap());
    }

    /** `getStockLevels(productIds)`: the same, for the items of the listed products. */
    method GetStockLevelsOf(productIds: seq<string>) returns (stocks: seq<Stock>)
      requires repository.Valid()
      ensures forall i, j :: 0 <= i < j < |stocks| ==> PairLess(StockKey(stocks[i]), StockKey(stocks[j]))
      ensures forall i :: 0 <= i < |stocks| ==>
                stocks[i].productId in productIds &&
                StockKey(stocks[i]) in repository.ItemMap() &&
                stocks[i].quantity == repository.ItemMap()[StockKey(stocks[i])] &&
                stocks[i].productName == Some(NameOf(repository.ProductMap(), stocks[i].productId))
      ensures forall k :: k in repository.ItemMap() && k.0 in productIds ==>
                exists i :: 0 <= i < |stocks| && StockKey(stocks[i]) == k
    {
      var productMap := GetProductMap();
      var items := repository.FindItems(productIds);
      stocks := StockLevels(productMap, items);
    }
  }

  /** The loop both `getStockLevels` overloads run over the item rows. */
  method StockLevels(productMap: map<string, string>, items: seq<ItemRow>) returns (stocks: seq<Stock>)
    ensures |stocks| == |items|
    ensures forall i :: 0 <= i < |items| ==> stocks[i] == StockOf(productMap, items[i])
  {
    stocks := [];
    var i := 0;
    while i < |items|
      invariant 0 <= i <= |items|
      invariant |stocks| == i
      invariant forall j :: 0 <= j < i ==> stocks[j] == StockOf(productMap, items[j])
    {
      var item := items[i];
      var productName := if item.productId in productMap then productMap[item.productId] else "missing";
      stocks := stocks + [Stock(item.productId, Some(productName), item.locationCode, item.quantity)];
      i := i + 1;
    }
  }

  /** A sorted listing of every entry has one row per entry. */
  lemma ListingSize(rows: seq<ItemRow>, m: map<(string, string), int>)
    requires ItemRowsSorted(rows) && ListsItems(rows, m, _ => true)
    ensures |rows| == |m|
  {
    assert KeySet(rows) == m.Keys;
    PairLessIsOrder();
    DistinctKeysCount(rows);
  }

  function KeySet(rows: seq<ItemRow>): set<(string, string)>
  {
    set i | 0 <= i < |rows| :: ItemKey(rows[i])
  }

  lemma {:induction false} DistinctKeysCount(rows: seq<ItemRow>)
    requires StrictTotalOrder(PairLess) && ItemRowsSorted(rows)
    ensures |KeySet(rows)| == |rows|
    decreases |rows|
  {
    if rows != [] {
      var init := rows[..|rows| - 1];
      assert ItemRowsSorted(init);
      DistinctKeysCount(init);
      KeySetSnoc(rows);
      LastKeyIsNew(rows);
    }
  }

  lemma KeySetSnoc(rows: seq<ItemRow>)
    requires rows != []
    ensures KeySet(rows) == KeySet(rows[..|rows| - 1]) + {ItemKey(rows[|rows| - 1])}
  {
    var init := rows[..|rows| - 1];
    forall k | k in KeySet(rows) ensures k in KeySet(init) + {ItemKey(rows[|rows| - 1])} {
      var i :| 0 <= i < |rows| && ItemKey(rows[i]) == k;
      if i < |rows| - 1 { assert ItemKey(init[i]) == k; }
    }
    forall k | k in KeySet(init) ensures k in KeySet(rows) {
      var i :| 0 <= i < |init| && ItemKey(init[i]) == k;
      assert ItemKey(rows[i]) == k;
    }
  }

  lemma LastKeyIsNew(rows: seq<ItemRow>)
    requires StrictTotalOrder(PairLess) && ItemRowsSorted(rows) && rows != []
    ensures ItemKey(rows[|rows| - 1]) !in KeySet(rows[..|rows| - 1])
  {
    var init := rows[..|rows| - 1];
    var last := ItemKey(rows[|rows| - 1]);
    forall i | 0 <= i < |init| ensures ItemKey(init[i]) != last {
      assert PairLess(ItemKey(rows[i]), last);
    }
  }
}
