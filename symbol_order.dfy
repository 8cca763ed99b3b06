/**
 * The order of the store's sort descriptor on `symbol`: ascending,
 * lexicographic by character.
 */
module SymbolOrder {
  import opened StockModel

  /** `a` sorts before or equal to `b`. */
  predicate SymbolLe(a: string, b: string)
    decreases |a|
  {
    |a| == 0 || (|b| > 0 && (a[0] < b[0] || (a[0] == b[0] && SymbolLe(a[1..], b[1..]))))
  }

  lemma {:induction false} SymbolLeTotal(a: string, b: string)
    ensures SymbolLe(a, b) || SymbolLe(b, a)
    decreases |a|
  {
    if |a| > 0 && |b| > 0 && a[0] == b[0] {
      SymbolLeTotal(a[1..], b[1..]);
    }
  }

  lemma {:induction false} SymbolLeTransitive(a: string, b: string, c: string)
    requires SymbolLe(a, b) && SymbolLe(b, c)
    ensures SymbolLe(a, c)
    decreases |a|
  {
    if |a| > 0 && a[0] == b[0] && b[0] == c[0] {
      SymbolLeTransitive(a[1..], b[1..], c[1..]);
    }
  }

  lemma {:induction false} SymbolLeAntisymmetric(a: string, b: string)
    requires SymbolLe(a, b) && SymbolLe(b, a)
    ensures a == b
    decreases |a|
  {
    if |a| > 0 {
      SymbolLeAntisymmetric(a[1..], b[1..]);
      assert a == [a[0]] + a[1..] && b == [b[0]] + b[1..];
    }
  }

  /** Records ordered by `symbol` ascending. */
  predicate SortedBySymbol(rows: seq<StockRecord>)
  {
    forall i, j | 0 <= i < j < |rows| :: SymbolLe(rows[i].symbol, rows[j].symbol)
  }

  /** `row` put in its place in a list already sorted by symbol. */
  function InsertBySymbol(row: StockRecord, rows: seq<StockRecord>): (r: seq<StockRecord>)
    requires SortedBySymbol(rows)
    ensures SortedBySymbol(r)
    ensures multiset(r) == multiset(rows) + multiset{row}
  {
    if |rows| == 0 then [row]
    else if SymbolLe(row.symbol, rows[0].symbol) then
      BelowSortedHead(row.symbol, rows);
      ConsSorted(row, rows);
      [row] + rows
    else
      SortedTail(rows);
      var tail := InsertBySymbol(row, rows[1..]);
      SymbolLeTotal(row.symbol, rows[0].symbol);
      BelowInserted(rows, row, tail);
      ConsSorted(rows[0], tail);
      assert rows == [rows[0]] + rows[1..];
      [rows[0]] + tail
  }

  /** A symbol at or below the head of a sorted list is at or below all of it. */
  lemma BelowSortedHead(symbol: string, rows: seq<StockRecord>)
    requires SortedBySymbol(rows) && |rows| > 0 && SymbolLe(symbol, rows[0].symbol)
    ensures forall j | 0 <= j < |rows| :: SymbolLe(symbol, rows[j].symbol)
  {
    forall j | 0 <= j < |rows| ensures SymbolLe(symbol, rows[j].symbol) {
      if j > 0 { SymbolLeTransitive(symbol, rows[0].symbol, rows[j].symbol); }
    }
  }

  /** The head of a sorted list is at or below everything inserted into its tail. */
  lemma BelowInserted(rows: seq<StockRecord>, row: StockRecord, tail: seq<StockRecord>)
    requires SortedBySymbol(rows) && |rows| > 0 && SymbolLe(rows[0].symbol, row.symbol)
    requires multiset(tail) == multiset(rows[1..]) + multiset{row}
    ensures forall j | 0 <= j < |tail| :: SymbolLe(rows[0].symbol, tail[j].symbol)
  {
    forall j | 0 <= j < |tail| ensures SymbolLe(rows[0].symbol, tail[j].symbol) {
      assert tail[j] in multiset(tail);
      if tail[j] != row {
        assert tail[j] in multiset(rows[1..]);
        var m :| 0 <= m < |rows[1..]| && rows[1..][m] == tail[j];
        assert rows[m + 1] == tail[j];
      }
    }
  }

  /** A record at or below every element of a sorted list may be put in front of it. */
  lemma ConsSorted(row: StockRecord, rows: seq<StockRecord>)
    requires SortedBySymbol(rows)
    requires forall j | 0 <= j < |rows| :: SymbolLe(row.symbol, rows[j].symbol)
    ensures SortedBySymbol([row] + rows)
  {
    var r := [row] + rows;
    forall i, j | 0 <= i < j < |r| ensures SymbolLe(r[i].symbol, r[j].symbol) {
      assert r[j] == rows[j - 1];
      if i > 0 { assert r[i] == rows[i - 1]; }
    }
  }

  /** The stored rows as a fetch sorted on `symbol` ascending returns them. */
  function SortBySymbol(rows: seq<StockRecord>): (r: seq<StockRecord>)
    ensures SortedBySymbol(r)
    ensures multiset(r) == multiset(rows)
    ensures |r| == |rows|
  {
    if |rows| == 0 then []
    else
      assert rows == [rows[0]] + rows[1..];
      InsertBySymbol(rows[0], SortBySymbol(rows[1..]))
  }

  /** Two sorted lists holding the same records, one with unique symbols, start with the same record. */
  lemma SortedSameHead(s: seq<StockRecord>, t: seq<StockRecord>)
    requires SortedBySymbol(s) && SortedBySymbol(t)
    requires UniqueSymbols(s)
    requires multiset(s) == multiset(t)
    requires |s| > 0 && |t| > 0
    ensures s[0] == t[0]
  {
    assert s[0] in multiset(t) && t[0] in multiset(s);
    var k :| 0 <= k < |t| && t[k] == s[0];
    var m :| 0 <= m < |s| && s[m] == t[0];
    SymbolLeTotal(s[0].symbol, t[0].symbol);
    assert SymbolLe(t[0].symbol, t[k].symbol) || k == 0;
    assert SymbolLe(s[0].symbol, s[m].symbol) || m == 0;
    if m != 0 {
      SymbolLeAntisymmetric(s[0].symbol, t[0].symbol);
    }
  }

  /**
   * With symbols unique, there is exactly one order of the rows sorted by
   * symbol: whichever sort the store uses returns the same sequence.
   */
  lemma {:induction false} SortedByUniqueSymbolIsUnique(s: seq<StockRecord>, t: seq<StockRecord>)
    requires SortedBySymbol(s) && SortedBySymbol(t)
    requires UniqueSymbols(s)
    requires multiset(s) == multiset(t)
    ensures s == t
    decreases |s|
  {
    assert |s| == |multiset(s)| == |multiset(t)| == |t|;
    if |s| > 0 {
      SortedSameHead(s, t);
      SameHeadTails(s, t);
      SortedByUniqueSymbolIsUnique(s[1..], t[1..]);
      assert s == [s[0]] + s[1..] && t == [t[0]] + t[1..];
    }
  }

  /** Dropping an equal head keeps sortedness, uniqueness and equal contents. */
  lemma SameHeadTails(s: seq<StockRecord>, t: seq<StockRecord>)
    requires SortedBySymbol(s) && SortedBySymbol(t) && UniqueSymbols(s)
    requires multiset(s) == multiset(t)
    requires |s| > 0 && |t| > 0 && s[0] == t[0]
    ensures SortedBySymbol(s[1..]) && SortedBySymbol(t[1..]) && UniqueSymbols(s[1..])
    ensures multiset(s[1..]) == multiset(t[1..])
  {
    SortedTail(s);
    SortedTail(t);
    assert UniqueSymbols(s[1..]) by {
      forall i, j | 0 <= i < j < |s| - 1 ensures s[1..][i].symbol != s[1..][j].symbol {
        assert s[1..][i] == s[i + 1] && s[1..][j] == s[j + 1];
      }
    }
    assert multiset(s[1..]) == multiset(t[1..]) by {
      MultisetTail(s);
      MultisetTail(t);
    }
  }

  lemma SortedTail(s: seq<StockRecord>)
    requires SortedBySymbol(s) && |s| > 0
    ensures SortedBySymbol(s[1..])
  {
    forall i, j | 0 <= i < j < |s| - 1 ensures SymbolLe(s[1..][i].symbol, s[1..][j].symbol) {
      assert s[1..][i] == s[i + 1] && s[1..][j] == s[j + 1];
    }
  }

  lemma MultisetTail(s: seq<StockRecord>)
    requires |s| > 0
    ensures multiset(s[1..]) == multiset(s) - multiset{s[0]}
  {
    assert s == [s[0]] + s[1..];
  }
}
