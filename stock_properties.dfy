/** What the stock operations promise, proved about their specifications. */
module StockProperties {
  import opened Wrappers
  import opened JavaLang
  import opened JavaSplit
  import opened StockStore
  import opened StockLogic

  // ---------------------------------------------------------------------------------------
  // setStockLevels

  /** `setStockLevels` fails exactly when some stock names an unknown product without a name,
      and the message names the first such stock's product. */
  lemma {:induction false} SetLevelsFailure(known: map<string, string>, stocks: seq<Stock>, c: Contents)
    ensures SetLevels(known, stocks, c).0.Fail? <==>
              exists i :: 0 <= i < |stocks| && NameMissing(known, stocks[i])
    ensures SetLevels(known, stocks, c).0.Fail? ==>
              exists i :: 0 <= i < |stocks| && NameMissing(known, stocks[i]) &&
                (forall j :: 0 <= j < i ==> !NameMissing(known, stocks[j])) &&
                SetLevels(known, stocks, c).0.error == MissingNameMessage(stocks[i].productId)
    decreases |stocks|
  {
    if stocks != [] && !NameMissing(known, stocks[0]) {
      var s := stocks[0];
      var products := if s.productId in known then c.products else c.products[s.productId := s.productName.value];
      var c' := Contents(products, c.items[StockKey(s) := s.quantity]);
      SetLevelsFailure(known, stocks[1..], c');
      assert forall i :: 0 < i < |stocks| ==> stocks[i] == stocks[1..][i - 1];
      if SetLevels(known, stocks, c).0.Fail? {
        var i :| 0 <= i < |stocks[1..]| && NameMissing(known, stocks[1..][i]) &&
          (forall j :: 0 <= j < i ==> !NameMissing(known, stocks[1..][j])) &&
          SetLevels(known, stocks[1..], c').0.error == MissingNameMessage(stocks[1..][i].productId);
        assert NameMissing(known, stocks[i + 1]);
      }
    }
  }

  /** No later stock has the key of `stocks[i]`. */
  predicate LastForKey(stocks: seq<Stock>, i: int)
    requires 0 <= i < |stocks|
  {
    forall j :: i < j < |stocks| ==> StockKey(stocks[j]) != StockKey(stocks[i])
  }

  /** After `setStockLevels` succeeds, each `(productId, locationCode)` in the input holds the
      quantity of the last stock for it ... */
  lemma {:induction false} SetLevelsItems(known: map<string, string>, stocks: seq<Stock>, c: Contents)
    requires SetLevels(known, stocks, c).0.Pass?
    ensures var items := SetLevels(known, stocks, c).1.items;
      forall i :: 0 <= i < |stocks| && LastForKey(stocks, i) ==>
        StockKey(stocks[i]) in items && items[StockKey(stocks[i])] == stocks[i].quantity
    decreases |stocks|
  {
    if stocks != [] {
      var s := stocks[0];
      var products := if s.productId in known then c.products else c.products[s.productId := s.productName.value];
      var c' := Contents(products, c.items[StockKey(s) := s.quantity]);
      SetLevelsItems(known, stocks[1..], c');
      SetLevelsOtherItems(known, stocks[1..], c');
      assert forall i :: 0 < i < |stocks| ==> stocks[i] == stocks[1..][i - 1];
    }
  }

  /** ... and every other item is untouched. */
  lemma {:induction false} SetLevelsOtherItems(known: map<string, string>, stocks: seq<Stock>, c: Contents)
    requires SetLevels(known, stocks, c).0.Pass?
    ensures var items := SetLevels(known, stocks, c).1.items;
      forall k :: (forall i :: 0 <= i < |stocks| ==> StockKey(stocks[i]) != k) ==>
        (k in items <==> k in c.items) && (k in c.items ==> items[k] == c.items[k])
    decreases |stocks|
  {
    if stocks != [] {
      var s := stocks[0];
      var products := if s.productId in known then c.products else c.products[s.productId := s.productName.value];
      var c' := Contents(products, c.items[StockKey(s) := s.quantity]);
      SetLevelsOtherItems(known, stocks[1..], c');
      assert forall i :: 0 < i < |stocks| ==> stocks[i] == stocks[1..][i - 1];
    }
  }

  /** No later stock names the product of `stocks[i]`. */
  predicate LastForProduct(stocks: seq<Stock>, i: int)
    requires 0 <= i < |stocks|
  {
    forall j :: i < j < |stocks| ==> stocks[j].productId != stocks[i].productId
  }

  /** After `setStockLevels` succeeds, a product that was not known before the call has the
      name of the last stock for it. */
  lemma {:induction false} SetLevelsNewProducts(known: map<string, string>, stocks: seq<Stock>, c: Contents)
    requires SetLevels(known, stocks, c).0.Pass?
    ensures var products := SetLevels(known, stocks, c).1.products;
      forall i :: 0 <= i < |stocks| && stocks[i].productId !in known && LastForProduct(stocks, i) ==>
        stocks[i].productName.Some? &&
        stocks[i].productId in products && products[stocks[i].productId] == stocks[i].productName.value
    decreases |stocks|
  {
    if stocks != [] {
      var s := stocks[0];
      var products := if s.productId in known then c.products else c.products[s.productId := s.productName.value];
      var c' := Contents(products, c.items[StockKey(s) := s.quantity]);
      SetLevelsNewProducts(known, stocks[1..], c');
      SetLevelsOtherProducts(known, stocks[1..], c');
      assert forall i :: 0 < i < |stocks| ==> stocks[i] == stocks[1..][i - 1];
    }
  }

  /** ... and every product that was known, or that no stock names, is untouched. */
  lemma {:induction false} SetLevelsOtherProducts(known: map<string, string>, stocks: seq<Stock>, c: Contents)
    requires SetLevels(known, stocks, c).0.Pass?
    ensures var products := SetLevels(known, stocks, c).1.products;
      forall id :: (id in known || forall i :: 0 <= i < |stocks| ==> stocks[i].productId != id) ==>
        (id in products <==> id in c.products) && (id in c.products ==> products[id] == c.products[id])
    decreases |stocks|
  {
    if stocks != [] {
      var s := stocks[0];
      var products := if s.productId in known then c.products else c.products[s.productId := s.productName.value];
      var c' := Contents(products, c.items[StockKey(s) := s.quantity]);
      SetLevelsOtherProducts(known, stocks[1..], c');
      assert forall i :: 0 < i < |stocks| ==> stocks[i] == stocks[1..][i - 1];
    }
  }

  /** The product map is read once, before the loop: a product created by one stock is still
      unknown to a later stock in the same call, so that stock must carry a name too. */
  lemma SetLevelsReadsProductsOnce()
    ensures var stocks := [Stock("P9", Some("Nine"), "S1", 5), Stock("P9", None, "S2", 1)];
      SetLevels(map[], stocks, Contents(map[], map[])).0 == Fail(MissingNameMessage("P9"))
  {
    var stocks := [Stock("P9", Some("Nine"), "S1", 5), Stock("P9", None, "S2", 1)];
    assert stocks[1..] == [Stock("P9", None, "S2", 1)];
  }

  // ---------------------------------------------------------------------------------------
  // updateStockLevels(list)

  /** `updateStockLevels` fails exactly when some stock names an unknown product, and the
      message names the first one. */
  lemma {:induction false} UpdateLevelsFailure(known: map<string, string>, stocks: seq<Stock>,
                                               items: map<(string, string), int>)
    ensures UpdateLevels(known, stocks, items).0.Fail? <==>
              exists i :: 0 <= i < |stocks| && stocks[i].productId !in known
    ensures UpdateLevels(known, stocks, items).0.Fail? ==>
              exists i :: 0 <= i < |stocks| && stocks[i].productId !in known &&
                (forall j :: 0 <= j < i ==> stocks[j].productId in known) &&
                UpdateLevels(known, stocks, items).0.error == InvalidProductMessage(stocks[i].productId)
    decreases |stocks|
  {
    if stocks != [] && stocks[0].productId in known {
      var s := stocks[0];
      var items' := items[StockKey(s) := Added(items, StockKey(s), s.quantity)];
      UpdateLevelsFailure(known, stocks[1..], items');
      assert forall i :: 0 < i < |stocks| ==> stocks[i] == stocks[1..][i - 1];
      if UpdateLevels(known, stocks, items).0.Fail? {
        var i :| 0 <= i < |stocks[1..]| && stocks[1..][i].productId !in known &&
          (forall j :: 0 <= j < i ==> stocks[1..][j].productId in known) &&
          UpdateLevels(known, stocks[1..], items').0.error == InvalidProductMessage(stocks[1..][i].productId);
        assert stocks[i + 1].productId !in known;
      }
    }
  }

  /** The sum of the quantities of the stocks for key `k`. */
  function Total(stocks: seq<Stock>, k: (string, string)): int
    decreases |stocks|
  {
    if stocks == [] then 0
    else (if StockKey(stocks[0]) == k then stocks[0].quantity else 0) + Total(stocks[1..], k)
  }

  /** The quantity stored under `k`, zero when there is no row. */
  function Stored(items: map<(string, string), int>, k: (string, string)): int
  {
    if k in items then items[k] else 0
  }

  /** After `updateStockLevels` succeeds, every item holds its old quantity (zero for a new
      one) plus the sum of the deltas given for it, and items get created only for pairs in
      the input. */
  lemma {:induction false} UpdateLevelsAdds(known: map<string, string>, stocks: seq<Stock>,
                                            items: map<(string, string), int>)
    requires UpdateLevels(known, stocks, items).0.Pass?
    ensures var r := UpdateLevels(known, stocks, items).1;
      && (forall k :: k in r <==> k in items || exists i :: 0 <= i < |stocks| && StockKey(stocks[i]) == k)
      && (forall k :: k in r ==> r[k] == Stored(items, k) + Total(stocks, k))
    decreases |stocks|
  {
    if stocks != [] {
      var s := stocks[0];
      var items' := items[StockKey(s) := Added(items, StockKey(s), s.quantity)];
      UpdateLevelsAdds(known, stocks[1..], items');
      assert forall i :: 0 < i < |stocks| ==> stocks[i] == stocks[1..][i - 1];
      var r := UpdateLevels(known, stocks, items).1;
      forall k | k in r ensures k in items || exists i :: 0 <= i < |stocks| && StockKey(stocks[i]) == k {
        if k !in items && k != StockKey(s) {
          var i :| 0 <= i < |stocks[1..]| && StockKey(stocks[1..][i]) == k;
          assert StockKey(stocks[i + 1]) == k;
        }
      }
    }
  }

  /** A stock whose product is unknown stops the list before anything is added for it. */
  lemma UpdateLevelsUnknownFirst(known: map<string, string>, s: Stock, rest: seq<Stock>,
                                 items: map<(string, string), int>)
    requires s.productId !in known
    ensures UpdateLevels(known, [s] + rest, items) == (Fail(InvalidProductMessage(s.productId)), items)
  {
  }

  // ---------------------------------------------------------------------------------------
  // updateStockLevels(inputStream)

  /** The non-empty lines. */
  function NonEmpty(lines: seq<string>): (r: seq<string>)
    decreases |lines|
  {
    if lines == [] then []
    else if |lines[0]| == 0 then NonEmpty(lines[1..])
    else [lines[0]] + NonEmpty(lines[1..])
  }

  /** Empty lines are skipped without counting: the upload behaves as its non-empty lines. */
  lemma {:induction false} LinesSkipEmpty(lines: seq<string>, count: int, items: map<(string, string), int>)
    ensures ProcessLines(lines, count, items) == ProcessLines(NonEmpty(lines), count, items)
    decreases |lines|
  {
    if lines != [] {
      if |lines[0]| == 0 {
        LinesSkipEmpty(lines[1..], count, items);
      } else {
        var ne := NonEmpty(lines);
        assert ne[0] == lines[0] && ne[1..] == NonEmpty(lines[1..]);
        var values := Split(lines[0]);
        if |values| == 3 && ParseInt(values[1]).Some? {
          var key := (values[0], values[2]);
          LinesSkipEmpty(lines[1..], count + 1, items[key := Added(items, key, ParseInt(values[1]).value)]);
        }
      }
    }
  }

  /** A line the upload rejects: not three fields, or a middle field that is not an `int`. */
  predicate BadLine(line: string)
  {
    |line| > 0 && LineError(0, line).Some?
  }

  /** The items after a line that passes. */
  function AfterLine(line: string, items: map<(string, string), int>): map<(string, string), int>
    requires !BadLine(line)
  {
    if |line| == 0 then items
    else
      var values := Split(line);
      items[(values[0], values[2]) := Added(items, (values[0], values[2]), ParseInt(values[1]).value)]
  }

  lemma ProcessGoodLine(lines: seq<string>, count: int, items: map<(string, string), int>)
    requires lines != [] && !BadLine(lines[0])
    ensures ProcessLines(lines, count, items) ==
            ProcessLines(lines[1..], if |lines[0]| == 0 then count else count + 1, AfterLine(lines[0], items))
  {
  }

  lemma ProcessBadLine(lines: seq<string>, count: int, items: map<(string, string), int>)
    requires lines != [] && BadLine(lines[0])
    ensures LineError(count + 1, lines[0]).Some?
    ensures ProcessLines(lines, count, items) == (Failure(LineError(count + 1, lines[0]).value), items)
  {
  }

  /** The upload succeeds exactly when no line is bad, and then it returns the number of
      non-empty lines. */
  lemma {:induction false} LinesSucceed(lines: seq<string>, count: int, items: map<(string, string), int>)
    ensures ProcessLines(lines, count, items).0.Success? <==> forall i :: 0 <= i < |lines| ==> !BadLine(lines[i])
    ensures ProcessLines(lines, count, items).0.Success? ==>
              ProcessLines(lines, count, items).0.value == count + |NonEmpty(lines)|
    decreases |lines|
  {
    if lines != [] {
      assert forall i :: 0 < i < |lines| ==> lines[i] == lines[1..][i - 1];
      if BadLine(lines[0]) {
        ProcessBadLine(lines, count, items);
      } else {
        var next := if |lines[0]| == 0 then count else count + 1;
        ProcessGoodLine(lines, count, items);
        LinesSucceed(lines[1..], next, AfterLine(lines[0], items));
      }
    }
  }

  /** Line `i` is the first bad line, and `err` is its message when `count` non-empty lines
      came before `lines`. */
  predicate FirstBadLine(lines: seq<string>, count: int, i: int, err: string)
  {
    && 0 <= i < |lines| && BadLine(lines[i])
    && (forall j :: 0 <= j < i ==> !BadLine(lines[j]))
    && Some(err) == LineError(count + |NonEmpty(lines[..i])| + 1, lines[i])
  }

  /** When the upload fails, the message is that of the first bad line, numbered among the
      non-empty lines. */
  lemma {:induction false} LinesFailure(lines: seq<string>, count: int, items: map<(string, string), int>)
    requires ProcessLines(lines, count, items).0.Failure?
    ensures exists i :: FirstBadLine(lines, count, i, ProcessLines(lines, count, items).0.error)
    decreases |lines|
  {
    var line := lines[0];
    if BadLine(line) {
      ProcessBadLine(lines, count, items);
      assert lines[..0] == [];
      assert FirstBadLine(lines, count, 0, ProcessLines(lines, count, items).0.error);
    } else {
      var next := if |line| == 0 then count else count + 1;
      var items' := AfterLine(line, items);
      ProcessGoodLine(lines, count, items);
      LinesFailure(lines[1..], next, items');
      var e := ProcessLines(lines[1..], next, items').0.error;
      var i :| FirstBadLine(lines[1..], next, i, e);
      FirstBadLineShift(lines, count, i, e);
    }
  }

  lemma FirstBadLineShift(lines: seq<string>, count: int, i: int, err: string)
    requires lines != [] && !BadLine(lines[0])
    requires FirstBadLine(lines[1..], if |lines[0]| == 0 then count else count + 1, i, err)
    ensures FirstBadLine(lines, count, i + 1, err)
  {
    NonEmptyPrefix(lines, i);
    assert lines[i + 1] == lines[1..][i];
    assert forall j :: 0 < j < i + 1 ==> lines[j] == lines[1..][j - 1];
  }

  lemma NonEmptyPrefix(lines: seq<string>, i: nat)
    requires i < |lines|
    ensures |NonEmpty(lines[..i + 1])| == (if |lines[0]| == 0 then 0 else 1) + |NonEmpty(lines[1..][..i])|
  {
    assert lines[..i + 1][0] == lines[0] && lines[..i + 1][1..] == lines[1..][..i];
  }

  /** A line `productId,delta,location` of plain fields adds `delta` to that product at that
      location: the fields are read in that order. */
  lemma LineAddsDelta(p: string, q: Int32, l: string, count: int, items: map<(string, string), int>)
    requires |p| > 0 && |l| > 0
    requires forall k :: 0 <= k < |p| ==> Plain(p[k])
    requires forall k :: 0 <= k < |l| ==> Plain(l[k])
    ensures ProcessLines([p + "," + IntToString(q) + "," + l], count, items) ==
            (Success(count + 1), items[(p, l) := Added(items, (p, l), q)])
  {
    var d := IntToString(q);
    IntToStringPlain(q);
    SplitThreeFields(p, d, l);
    IntToStringRoundTrip(q);
    var lines := [p + "," + d + "," + l];
    assert lines[1..] == [];
  }

  lemma IntToStringPlain(n: int)
    ensures |IntToString(n)| > 0
    ensures forall k :: 0 <= k < |IntToString(n)| ==> Plain(IntToString(n)[k])
  {
    var m: nat := if n < 0 then -n else n;
    DigitsPlain(m);
    if n < 0 {
      var s := IntToString(n);
      assert s == ['-'] + Digits(m);
      assert forall k :: 1 <= k < |s| ==> s[k] == Digits(m)[k - 1];
    }
  }

  lemma DigitsPlain(m: nat)
    ensures |Digits(m)| > 0 && forall k :: 0 <= k < |Digits(m)| ==> Plain(Digits(m)[k])
  {
    DigitsRoundTrip(m);
    var d := Digits(m);
    forall k | 0 <= k < |d| ensures Plain(d[k]) {
      assert '0' <= d[k] <= '9';
    }
  }

  /** As written, a middle field that is not an `int` is reported with the third field, the
      location code, in the brackets meant for the quantity. */
  lemma QuantityMessageNamesLocation(p: string, x: string, l: string, count: int, items: map<(string, string), int>)
    requires |p| > 0 && |x| > 0 && |l| > 0
    requires forall k :: 0 <= k < |p| ==> Plain(p[k])
    requires forall k :: 0 <= k < |x| ==> Plain(x[k])
    requires forall k :: 0 <= k < |l| ==> Plain(l[k])
    requires ParseInt(x) == None
    ensures var line := p + "," + x + "," + l;
      ProcessLines([line], count, items) ==
        (Failure("[Line#" + IntToString(count + 1) + "] quantity [" + l + "] is invalid [" + line + "]"), items)
  {
    SplitThreeFields(p, x, l);
  }

  /** The check of one non-empty line with the message showing the rejected quantity. */
  function LineErrorFixed(lineCount: int, line: string): Option<string>
  {
    var values := Split(line);
    if |values| != 3 then Some(FormatMessage(lineCount, line))
    else if ParseInt(values[1]).None? then Some(QuantityMessageFixed(lineCount, values, line))
    else None
  }

  /** With the corrected message, the brackets hold the text that failed to parse as an `int`,
      and the lines that pass or fail are the same as before. */
  lemma QuantityMessageFixedNamesQuantity(p: string, x: string, l: string, n: int)
    requires |p| > 0 && |x| > 0 && |l| > 0
    requires forall k :: 0 <= k < |p| ==> Plain(p[k])
    requires forall k :: 0 <= k < |x| ==> Plain(x[k])
    requires forall k :: 0 <= k < |l| ==> Plain(l[k])
    requires ParseInt(x) == None
    ensures var line := p + "," + x + "," + l;
      LineErrorFixed(n, line) == Some("[Line#" + IntToString(n) + "] quantity [" + x + "] is invalid [" + line + "]")
  {
    SplitThreeFields(p, x, l);
  }

  lemma LineErrorFixedSameVerdict(n: int, line: string)
    ensures LineErrorFixed(n, line).Some? <==> LineError(n, line).Some?
    ensures LineErrorFixed(n, line) != LineError(n, line) ==> Split(line)[1] != Split(line)[2]
  {
  }
}
