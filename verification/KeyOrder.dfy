/** `ORDER BY warehouse_id, sku_id`: the one order every statement that locks stock takes its rows in. */
module KeyOrder {
  import opened Rows

  predicate Before(a: Pair, b: Pair) {
    a.warehouse < b.warehouse || (a.warehouse == b.warehouse && a.sku < b.sku)
  }

  ghost predicate Ascending(keys: seq<Pair>) {
    forall i, j :: 0 <= i < j < |keys| ==> Before(keys[i], keys[j])
  }

  predicate First(key: Pair, keys: set<Pair>) {
    key in keys && forall k :: k in keys ==> k == key || Before(key, k)
  }

  lemma {:induction false} FirstExists(keys: set<Pair>)
    requires keys != {}
    ensures exists key :: First(key, keys)
    decreases keys
  {
    var any :| any in keys;
    if keys == {any} {
      assert First(any, keys);
    } else {
      var rest := keys - {any};
      FirstExists(rest);
      var least :| First(least, rest);
      var key := if Before(any, least) then any else least;
      forall k | k in keys ensures k == key || Before(key, k) {
        assert k == any || k in rest;
      }
      assert First(key, keys);
    }
  }

  /** The keys of a set in the order of the statement. */
  function Sorted(keys: set<Pair>): seq<Pair>
    decreases keys
  {
    if keys == {} then []
    else
      FirstExists(keys);
      var key :| First(key, keys);
      [key] + Sorted(keys - {key})
  }

  /** Each key once, nothing else, strictly ascending. */
  lemma {:induction false} SortedListsTheKeys(keys: set<Pair>)
    ensures Ascending(Sorted(keys))
    ensures forall k :: k in Sorted(keys) <==> k in keys
    ensures |Sorted(keys)| == |keys|
    decreases keys
  {
    if keys != {} {
      FirstExists(keys);
      var key :| First(key, keys) && Sorted(keys) == [key] + Sorted(keys - {key});
      SortedListsTheKeys(keys - {key});
    }
  }

  /** The query fragment `stock_to_take_from`: the rows of one warehouse an order takes from. */
  function StockToTakeFrom(stock: map<Pair, Stock>, warehouse: int, skus: set<int>): seq<Pair> {
    Sorted(set p | p in stock && p.warehouse == warehouse && p.sku in skus)
  }

  lemma TakesTheStockedSkus(stock: map<Pair, Stock>, warehouse: int, skus: set<int>)
    ensures Ascending(StockToTakeFrom(stock, warehouse, skus))
    ensures forall p ::
      p in StockToTakeFrom(stock, warehouse, skus) <==> p in stock && p.warehouse == warehouse && p.sku in skus
  {
    SortedListsTheKeys(set p | p in stock && p.warehouse == warehouse && p.sku in skus);
  }

  /** The query fragment `stock_for_pairs`, for a pick list that spans warehouses. */
  function StockForPairs(stock: map<Pair, Stock>, pairs: seq<Pair>): seq<Pair> {
    Sorted(set p | p in pairs && p in stock)
  }

  /** The pairs that were named and no other crossing of the two columns, in one global order. */
  lemma TakesTheNamedPairs(stock: map<Pair, Stock>, pairs: seq<Pair>)
    ensures Ascending(StockForPairs(stock, pairs))
    ensures forall p :: p in StockForPairs(stock, pairs) <==> p in stock && p in pairs
  {
    SortedListsTheKeys(set p | p in pairs && p in stock);
  }
}
