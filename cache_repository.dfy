/**
 * The in-memory stock cache. `set` replaces the whole list; `update`
 * overwrites, for each incoming stock, the first cached entry that matches
 * it (same symbol) and ignores stocks that match nothing, so the cache never
 * grows through `update`.
 */
module Cache {
  import opened StockModel

  /** One step of `update`: the first entry matching `stock` is replaced by it. */
  function ReplaceFirstMatch(cache: seq<StockRecord>, stock: StockRecord): (r: seq<StockRecord>)
    ensures |r| == |cache|
    ensures forall i | 0 <= i < |r| :: r[i].symbol == cache[i].symbol
  {
    match FirstIndexOf(cache, stock.symbol)
    case None => cache
    case Some(i) => cache[i := stock]
  }

  /** The cache contents after `update` has walked `stocks` in order. */
  function CacheUpdate(cache: seq<StockRecord>, stocks: seq<StockRecord>): (r: seq<StockRecord>)
    ensures |r| == |cache|
    ensures forall i | 0 <= i < |r| :: r[i].symbol == cache[i].symbol
    decreases |stocks|
  {
    if |stocks| == 0 then cache
    else ReplaceFirstMatch(CacheUpdate(cache, stocks[..|stocks| - 1]), stocks[|stocks| - 1])
  }

  /**
   * What `update` leaves at each position: the last incoming stock with that
   * entry's symbol when the entry is the first one carrying its symbol, the
   * old entry otherwise.
   */
  lemma {:induction false} CacheUpdateAt(cache: seq<StockRecord>, stocks: seq<StockRecord>, i: nat)
    requires i < |cache|
    ensures i < |CacheUpdate(cache, stocks)|
    ensures CacheUpdate(cache, stocks)[i] ==
      var sym := cache[i].symbol;
      if FirstIndexOf(cache, sym) == Some(i) && LastWith(stocks, sym).Some?
      then LastWith(stocks, sym).value
      else cache[i]
    decreases |stocks|
  {
    if |stocks| > 0 {
      var init, x := stocks[..|stocks| - 1], stocks[|stocks| - 1];
      CacheUpdateAt(cache, init, i);
      ReplaceFirstMatchAt(cache, CacheUpdate(cache, init), x, i);
    }
  }

  /** One step of `update` seen from position `i`. */
  lemma ReplaceFirstMatchAt(cache: seq<StockRecord>, before: seq<StockRecord>, stock: StockRecord, i: nat)
    requires |before| == |cache| && i < |cache|
    requires forall j | 0 <= j < |cache| :: before[j].symbol == cache[j].symbol
    ensures ReplaceFirstMatch(before, stock)[i] ==
      if stock.symbol == cache[i].symbol && FirstIndexOf(cache, stock.symbol) == Some(i) then stock
      else before[i]
  {
    FirstIndexOfSameSymbols(before, cache, stock.symbol);
  }

  /** An update none of whose stocks matches a cached entry changes nothing. */
  lemma CacheUpdateNoMatch(cache: seq<StockRecord>, stocks: seq<StockRecord>)
    requires forall k | 0 <= k < |stocks| :: FirstIndexOf(cache, stocks[k].symbol).None?
    ensures CacheUpdate(cache, stocks) == cache
  {
    var r := CacheUpdate(cache, stocks);
    forall i | 0 <= i < |cache| ensures r[i] == cache[i] {
      CacheUpdateAt(cache, stocks, i);
    }
  }

  /** After `update`, every entry is either the old entry at its place or one of the incoming stocks. */
  lemma CacheUpdateFromEither(cache: seq<StockRecord>, stocks: seq<StockRecord>, i: nat)
    requires i < |cache|
    ensures i < |CacheUpdate(cache, stocks)|
    ensures CacheUpdate(cache, stocks)[i] == cache[i] || CacheUpdate(cache, stocks)[i] in stocks
  {
    CacheUpdateAt(cache, stocks, i);
  }

  /** A position that is not the first match of any incoming stock keeps its entry. */
  lemma CacheUpdateUntouched(cache: seq<StockRecord>, stocks: seq<StockRecord>, i: nat)
    requires i < |cache|
    requires forall k | 0 <= k < |stocks| :: FirstIndexOf(cache, stocks[k].symbol) != Some(i)
    ensures i < |CacheUpdate(cache, stocks)| && CacheUpdate(cache, stocks)[i] == cache[i]
  {
    CacheUpdateAt(cache, stocks, i);
  }

  /**
   * An incoming stock that matches a cached entry is stored at that entry's
   * first matching position unless a later stock of the batch matches it too.
   */
  lemma CacheUpdateLastWins(cache: seq<StockRecord>, stocks: seq<StockRecord>, k: nat)
    requires k < |stocks| && FirstIndexOf(cache, stocks[k].symbol).Some?
    requires forall m | k < m < |stocks| :: stocks[m].symbol != stocks[k].symbol
    ensures var i := FirstIndexOf(cache, stocks[k].symbol).value;
            i < |CacheUpdate(cache, stocks)| && CacheUpdate(cache, stocks)[i] == stocks[k]
  {
    var sym := stocks[k].symbol;
    var i := FirstIndexOf(cache, sym).value;
    CacheUpdateAt(cache, stocks, i);
    LastWithIsLast(stocks, k);
  }

  /** The last element carrying a symbol is what `LastWith` returns. */
  lemma {:induction false} LastWithIsLast(batch: seq<StockRecord>, k: nat)
    requires k < |batch|
    requires forall m | k < m < |batch| :: batch[m].symbol != batch[k].symbol
    ensures LastWith(batch, batch[k].symbol) == Some(batch[k])
    decreases |batch|
  {
    var init := batch[..|batch| - 1];
    if k < |batch| - 1 {
      LastWithIsLast(init, k);
    }
  }

  class CacheRepository {
    var cachedStocks: seq<StockRecord>

    /** A fresh cache is empty. */
    constructor ()
      ensures cachedStocks == []
    {
      cachedStocks := [];
    }

    /** `set(stocks:)` overwrites the whole list. */
    method Set(stocks: seq<StockRecord>)
      modifies this
      ensures cachedStocks == stocks
    {
      cachedStocks := stocks;
    }

    /** `update(stocks:)` replaces matched entries in place and drops the rest. */
    method Update(stocks: seq<StockRecord>)
      modifies this
      ensures cachedStocks == CacheUpdate(old(cachedStocks), stocks)
      ensures |cachedStocks| == |old(cachedStocks)|
    {
      for k := 0 to |stocks|
        invariant cachedStocks == CacheUpdate(old(cachedStocks), stocks[..k])
      {
        assert stocks[..k + 1][..k] == stocks[..k];
        var stock := stocks[k];
        var index := FirstIndexOf(cachedStocks, stock.symbol);
        if index.Some? {
          cachedStocks := cachedStocks[index.value := stock];
        }
      }
      assert stocks[..|stocks|] == stocks;
    }
  }

  /** Setting the same list twice leaves the cache as setting it once does. */
  method SetIdempotent(cache: CacheRepository, stocks: seq<StockRecord>)
    modifies cache
    ensures cache.cachedStocks == stocks
  {
    cache.Set(stocks);
    cache.Set(stocks);
  }
}
