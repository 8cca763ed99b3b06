/**
 * The stock record that the cache holds and the persistent store saves.
 * `StockModel` and `StockPersistable` both carry these eleven fields; the
 * cache and the store identify a record by its `symbol`.
 */
module StockModel {

  datatype Option<T> = None | Some(value: T)

  /** The source's `Double` fields; nothing in the data layer does arithmetic on them. */
  type Double = real

  datatype StockRecord = StockRecord(
    symbol: string,
    name: Option<string>,
    price: Double,
    percentageChange: Double,
    changes: Double,
    lastDividend: Double,
    sector: Option<string>,
    industry: Option<string>,
    companyLogo: Option<string>,
    isFavorite: bool,
    hasProfileData: bool)

  /** The set of symbols that occur in `rows`. */
  function Symbols(rows: seq<StockRecord>): set<string>
  {
    set r | r in rows :: r.symbol
  }

  /** No two records share a symbol. */
  predicate UniqueSymbols(rows: seq<StockRecord>)
  {
    forall i, j | 0 <= i < j < |rows| :: rows[i].symbol != rows[j].symbol
  }

  /** The first position whose record has the given symbol, if any. */
  function FirstIndexOf(rows: seq<StockRecord>, symbol: string): (r: Option<nat>)
    ensures r.Some? ==> r.value < |rows| && rows[r.value].symbol == symbol
    ensures r.Some? ==> forall j | 0 <= j < r.value :: rows[j].symbol != symbol
    ensures r.None? <==> symbol !in Symbols(rows)
  {
    if |rows| == 0 then None
    else if rows[0].symbol == symbol then Some(0)
    else match FirstIndexOf(rows[1..], symbol)
      case None => None
      case Some(i) => Some(i + 1)
  }

  /** Two record sequences whose symbols agree position by position have the same first matches. */
  lemma {:induction false} FirstIndexOfSameSymbols(a: seq<StockRecord>, b: seq<StockRecord>, symbol: string)
    requires |a| == |b|
    requires forall i | 0 <= i < |a| :: a[i].symbol == b[i].symbol
    ensures FirstIndexOf(a, symbol) == FirstIndexOf(b, symbol)
  {
    if |a| > 0 && a[0].symbol != symbol {
      FirstIndexOfSameSymbols(a[1..], b[1..], symbol);
    }
  }

  /** The record stored first under `symbol`, if any. */
  function Lookup(rows: seq<StockRecord>, symbol: string): (r: Option<StockRecord>)
    ensures r.Some? ==> r.value in rows && r.value.symbol == symbol
    ensures r.None? <==> symbol !in Symbols(rows)
  {
    match FirstIndexOf(rows, symbol)
    case None => None
    case Some(i) => Some(rows[i])
  }

  /** The last element of `batch` that carries `symbol`, if any. */
  function LastWith(batch: seq<StockRecord>, symbol: string): (r: Option<StockRecord>)
    ensures r.None? <==> symbol !in Symbols(batch)
    ensures r.Some? ==> r.value.symbol == symbol
    ensures r.Some? ==> exists k | 0 <= k < |batch| :: batch[k] == r.value &&
                          forall m | k < m < |batch| :: batch[m].symbol != symbol
  {
    if |batch| == 0 then None
    else
      var last := batch[|batch| - 1];
      if last.symbol == symbol then Some(last)
      else
        var init := batch[..|batch| - 1];
        assert batch == init + [last];
        LastWith(init, symbol)
  }
}
