/**
 * The persistent store. Its committed rows form one table of stock records.
 * `save` works in a private background context that starts from the
 * committed rows: each record of the batch updates the row found under its
 * symbol, or is inserted when the lookup finds nothing; the context is then
 * committed, or, when the commit fails, reset with nothing written.
 * `fetchStocks` returns every row sorted by symbol, or nothing when the
 * fetch fails.
 */
module Persistence {
  import opened StockModel
  import opened SymbolOrder
  import opened StockEntity

  /** Every lookup of the batch ran without error. */
  predicate NoLookupFails(lookupFails: seq<bool>)
  {
    forall k | 0 <= k < |lookupFails| :: !lookupFails[k]
  }

  lemma SymbolsAppend(rows: seq<StockRecord>, row: StockRecord)
    ensures Symbols(rows + [row]) == Symbols(rows) + {row.symbol}
  {
    assert row in rows + [row];
    forall r | r in rows ensures r in rows + [row] { }
  }

  lemma SymbolsReplace(rows: seq<StockRecord>, i: nat, row: StockRecord)
    requires i < |rows| && rows[i].symbol == row.symbol
    ensures Symbols(rows[i := row]) == Symbols(rows)
  {
    var after := rows[i := row];
    forall r | r in rows ensures r.symbol in Symbols(after) {
      var j :| 0 <= j < |rows| && rows[j] == r;
      assert after[j].symbol == r.symbol;
    }
    forall r | r in after ensures r.symbol in Symbols(rows) {
      var j :| 0 <= j < |after| && after[j] == r;
      assert rows[j].symbol == r.symbol;
    }
  }

  /**
   * One record of a batch applied to the context: the row found under its
   * symbol takes the record's fields, or the record is inserted when the
   * lookup finds nothing or fails.
   */
  function Upsert(rows: seq<StockRecord>, stock: StockRecord, lookupFails: bool): (r: seq<StockRecord>)
    ensures |rows| <= |r| <= |rows| + 1
    ensures Symbols(r) == Symbols(rows) + {stock.symbol}
    ensures forall i | 0 <= i < |rows| && rows[i].symbol != stock.symbol :: r[i] == rows[i]
    ensures stock in r
  {
    var found := if lookupFails then None else FirstIndexOf(rows, stock.symbol);
    match found
    case None =>
      SymbolsAppend(rows, stock);
      rows + [stock]
    case Some(i) =>
      SymbolsReplace(rows, i, stock);
      assert rows[i := stock][i] == stock;
      rows[i := stock]
  }

  /** The context's rows after `save` has walked the batch in order. */
  function UpsertAll(rows: seq<StockRecord>, batch: seq<StockRecord>, lookupFails: seq<bool>): (r: seq<StockRecord>)
    requires |lookupFails| == |batch|
    ensures |rows| <= |r| <= |rows| + |batch|
    ensures Symbols(r) == Symbols(rows) + Symbols(batch)
    ensures forall i | 0 <= i < |rows| && rows[i].symbol !in Symbols(batch) :: r[i] == rows[i]
    decreases |batch|
  {
    if |batch| == 0 then rows
    else
      var n := |batch| - 1;
      var init := batch[..n];
      assert batch == init + [batch[n]];
      SymbolsAppend(init, batch[n]);
      Upsert(UpsertAll(rows, init, lookupFails[..n]), batch[n], lookupFails[n])
  }

  /** What a lookup by symbol finds after one upsert. */
  lemma UpsertLookup(rows: seq<StockRecord>, stock: StockRecord, symbol: string)
    ensures Lookup(Upsert(rows, stock, false), symbol) ==
      if symbol == stock.symbol then Some(stock) else Lookup(rows, symbol)
  {
    var r := Upsert(rows, stock, false);
    match FirstIndexOf(rows, stock.symbol)
    case None =>
      assert r == rows + [stock];
      if symbol == stock.symbol {
        assert r[|rows|].symbol == symbol;
      } else {
        var fr, fo := FirstIndexOf(r, symbol), FirstIndexOf(rows, symbol);
        if fo.Some? {
          assert r[fo.value].symbol == symbol;
        }
        if fr.Some? {
          assert rows[fr.value].symbol == symbol;
        }
      }
    case Some(i) =>
      assert r == rows[i := stock];
      if symbol == stock.symbol {
        assert r[i].symbol == symbol;
      } else {
        FirstIndexOfSameSymbols(r, rows, symbol);
      }
  }

  /**
   * After the batch, a lookup under a symbol of the batch finds the last
   * batch record with that symbol; under any other symbol it finds what it
   * found before. Holds when every lookup of the batch succeeded.
   */
  lemma {:induction false} UpsertAllLookup(rows: seq<StockRecord>, batch: seq<StockRecord>, lookupFails: seq<bool>, symbol: string)
    requires |lookupFails| == |batch| && NoLookupFails(lookupFails)
    ensures Lookup(UpsertAll(rows, batch, lookupFails), symbol) ==
      if LastWith(batch, symbol).Some? then LastWith(batch, symbol) else Lookup(rows, symbol)
    decreases |batch|
  {
    if |batch| > 0 {
      var n := |batch| - 1;
      var init := batch[..n];
      assert batch == init + [batch[n]];
      UpsertAllLookup(rows, init, lookupFails[..n], symbol);
      UpsertLookup(UpsertAll(rows, init, lookupFails[..n]), batch[n], symbol);
    }
  }

  /** The last step of `UpsertAll`, as a fact callers can use in a small context. */
  lemma UpsertAllLast(rows: seq<StockRecord>, batch: seq<StockRecord>, lookupFails: seq<bool>)
    requires |lookupFails| == |batch| > 0
    ensures UpsertAll(rows, batch, lookupFails) ==
            Upsert(UpsertAll(rows, batch[..|batch| - 1], lookupFails[..|batch| - 1]),
                   batch[|batch| - 1], lookupFails[|batch| - 1])
  {
  }

  /** A successful upsert keeps symbols unique. */
  lemma UpsertKeepsUnique(rows: seq<StockRecord>, stock: StockRecord)
    requires UniqueSymbols(rows)
    ensures UniqueSymbols(Upsert(rows, stock, false))
  {
    match FirstIndexOf(rows, stock.symbol)
    case None =>
      var after := rows + [stock];
      forall i, j | 0 <= i < j < |after| ensures after[i].symbol != after[j].symbol {
        if j == |rows| {
          assert after[i] in rows;
        }
      }
    case Some(k) =>
      var after := rows[k := stock];
      forall i, j | 0 <= i < j < |after| ensures after[i].symbol != after[j].symbol {
        assert after[i].symbol == rows[i].symbol && after[j].symbol == rows[j].symbol;
      }
  }

  /** Symbols unique before the batch stay unique after it, when every lookup succeeded. */
  lemma {:induction false} UpsertAllUnique(rows: seq<StockRecord>, batch: seq<StockRecord>, lookupFails: seq<bool>)
    requires |lookupFails| == |batch| && NoLookupFails(lookupFails)
    requires UniqueSymbols(rows)
    ensures UniqueSymbols(UpsertAll(rows, batch, lookupFails))
    decreases |batch|
  {
    if |batch| > 0 {
      var n := |batch| - 1;
      var before := UpsertAll(rows, batch[..n], lookupFails[..n]);
      assert UpsertAll(rows, batch, lookupFails) == Upsert(before, batch[n], false) by {
        UpsertAllLast(rows, batch, lookupFails);
        assert !lookupFails[n];
      }
      UpsertAllUnique(rows, batch[..n], lookupFails[..n]);
      UpsertKeepsUnique(before, batch[n]);
    }
  }

  /** One successful upsert adds a row exactly when its symbol was not stored yet. */
  lemma UpsertLength(rows: seq<StockRecord>, stock: StockRecord)
    ensures |Upsert(rows, stock, false)| == if stock.symbol in Symbols(rows) then |rows| else |rows| + 1
  {
  }

  /** The batch prefix-by-prefix step that `UpsertAll` is defined by. */
  lemma UpsertAllStep(rows: seq<StockRecord>, batch: seq<StockRecord>, lookupFails: seq<bool>, k: nat)
    requires |lookupFails| == |batch| && k < |batch|
    ensures UpsertAll(rows, batch[..k + 1], lookupFails[..k + 1]) ==
            Upsert(UpsertAll(rows, batch[..k], lookupFails[..k]), batch[k], lookupFails[k])
  {
    assert batch[..k + 1][..k] == batch[..k];
    assert lookupFails[..k + 1][..k] == lookupFails[..k];
  }

  /**
   * The batch grows the rows by exactly the number of its distinct symbols
   * that were not stored yet, when every lookup succeeded.
   */
  lemma {:induction false} UpsertAllGrowth(rows: seq<StockRecord>, batch: seq<StockRecord>, lookupFails: seq<bool>)
    requires |lookupFails| == |batch| && NoLookupFails(lookupFails)
    ensures |UpsertAll(rows, batch, lookupFails)| == |rows| + |Symbols(batch) - Symbols(rows)|
    decreases |batch|
  {
    if |batch| == 0 {
      assert Symbols(batch) == {};
    } else {
      var n := |batch| - 1;
      var init, stock := batch[..n], batch[n];
      var before := UpsertAll(rows, init, lookupFails[..n]);
      assert UpsertAll(rows, batch, lookupFails) == Upsert(before, stock, false) by {
        UpsertAllLast(rows, batch, lookupFails);
        assert !lookupFails[n];
      }
      assert NoLookupFails(lookupFails[..n]);
      UpsertAllGrowth(rows, init, lookupFails[..n]);
      GrowthStep(rows, batch, stock, before);
    }
  }

  lemma GrowthStep(rows: seq<StockRecord>, batch: seq<StockRecord>, stock: StockRecord, before: seq<StockRecord>)
    requires |batch| > 0 && batch[|batch| - 1] == stock
    requires |before| == |rows| + |Symbols(batch[..|batch| - 1]) - Symbols(rows)|
    requires Symbols(before) == Symbols(rows) + Symbols(batch[..|batch| - 1])
    ensures |Upsert(before, stock, false)| == |rows| + |Symbols(batch) - Symbols(rows)|
  {
    var init := batch[..|batch| - 1];
    assert batch == init + [stock];
    UpsertLength(before, stock);
    NewSymbolsAppend(rows, init, stock);
  }

  lemma NewSymbolsAppend(rows: seq<StockRecord>, init: seq<StockRecord>, stock: StockRecord)
    ensures |Symbols(init + [stock]) - Symbols(rows)| ==
            if stock.symbol in Symbols(rows) + Symbols(init) then |Symbols(init) - Symbols(rows)|
            else |Symbols(init) - Symbols(rows)| + 1
  {
    SymbolsAppend(init, stock);
    NewSymbolsStep(Symbols(rows), Symbols(init), stock.symbol);
  }

  /** Counting the new symbols of a batch one symbol at a time. */
  lemma NewSymbolsStep(stored: set<string>, seen: set<string>, symbol: string)
    ensures |(seen + {symbol}) - stored| ==
            if symbol in stored + seen then |seen - stored| else |seen - stored| + 1
  {
    if symbol in stored + seen {
      assert (seen + {symbol}) - stored == seen - stored;
    } else {
      assert (seen + {symbol}) - stored == (seen - stored) + {symbol};
    }
  }

  /**
   * A lookup that fails is taken for "not found": the record is inserted
   * again, and the store then holds its symbol twice.
   */
  lemma LookupFailureDuplicates(rows: seq<StockRecord>, stock: StockRecord)
    requires stock.symbol in Symbols(rows)
    ensures !UniqueSymbols(UpsertAll(rows, [stock], [true]))
  {
    var after := UpsertAll(rows, [stock], [true]);
    assert after == rows + [stock] by {
      UpsertAllLast(rows, [stock], [true]);
      assert [stock][..0] == [] && [true][..0] == [];
    }
    var j :| 0 <= j < |rows| && rows[j].symbol == stock.symbol;
    assert after[j].symbol == after[|rows|].symbol;
  }

  /**
   * The body of the loop in `save` for one persistable record: fetch the
   * object stored under its symbol and update it, or insert a new object
   * and update that one when the fetch finds nothing or throws.
   */
  method SaveOne(context: seq<StockRecord>, stockPersistable: StockRecord, lookupFails: bool)
    returns (updated: seq<StockRecord>)
    ensures updated == Upsert(context, stockPersistable, lookupFails)
  {
    var found := if lookupFails then None else FirstIndexOf(context, stockPersistable.symbol);
    if found.None? {
      var newStock := new Stock.Inserted();
      newStock.Update(stockPersistable);
      updated := context + [newStock.Record()];
    } else {
      var stock := new Stock.Fetched(context[found.value]);
      stock.Update(stockPersistable);
      updated := context[found.value := stock.Record()];
    }
  }

  class DataRepository {
    /** The committed rows of the persistent store. */
    var rows: seq<StockRecord>

    /** A repository over the rows already persisted by earlier runs. */
    constructor (persisted: seq<StockRecord>)
      ensures rows == persisted
    {
      rows := persisted;
    }

    /** `fetchStocks()`: all rows sorted by symbol ascending, or none when the fetch fails. */
    method FetchStocks(fetchFails: bool) returns (stocks: seq<StockRecord>)
      ensures fetchFails ==> stocks == []
      ensures !fetchFails ==> SortedBySymbol(stocks) && multiset(stocks) == multiset(rows)
      ensures !fetchFails ==> stocks == SortBySymbol(rows)
    {
      if fetchFails {
        return [];
      }
      stocks := SortBySymbol(rows);
    }

    /**
     * `save(_:)`: upsert every record of the batch by symbol in a fresh
     * context, then commit; a failed commit leaves the committed rows as
     * they were.
     */
    method Save(batch: seq<StockRecord>, lookupFails: seq<bool>, commitFails: bool)
      requires |lookupFails| == |batch|
      modifies this
      ensures commitFails ==> rows == old(rows)
      ensures !commitFails ==> rows == UpsertAll(old(rows), batch, lookupFails)
    {
      var committed := rows;
      var context := committed;
      var hasChanges := false;
      for k := 0 to |batch|
        invariant rows == committed
        invariant context == UpsertAll(committed, batch[..k], lookupFails[..k])
        invariant !hasChanges ==> context == committed
      {
        context := SaveOne(context, batch[k], lookupFails[k]);
        UpsertAllStep(committed, batch, lookupFails, k);
        hasChanges := true;
      }
      assert batch[..|batch|] == batch && lookupFails[..|batch|] == lookupFails;
      if hasChanges {
        if !commitFails {
          rows := context;
        }
      }
    }
  }
}
