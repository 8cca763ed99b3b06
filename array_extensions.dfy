/**
 * `Array.toChunks(of:)`: the array cut into consecutive slices of `size`
 * elements, one slice per stride position `0, size, 2 * size, ...` below
 * `count`, the last slice holding whatever remains.
 */
module ArrayExtensions {

  function Min(a: int, b: int): int
  {
    if a <= b then a else b
  }

  /** The slices that start at the stride positions `start`, `start + size`, ... */
  function ChunksFrom<T>(a: seq<T>, size: nat, start: nat): (chunks: seq<seq<T>>)
    requires size > 0
    ensures forall i | 0 <= i < |chunks| :: 0 < |chunks[i]| <= size
    ensures forall i | 0 <= i < |chunks| - 1 :: |chunks[i]| == size
    decreases |a| - start
  {
    if start >= |a| then []
    else [a[start..Min(start + size, |a|)]] + ChunksFrom(a, size, start + size)
  }

  /**
   * `toChunks(of: size)`. A zero stride traps, so `size` may not be 0; a
   * negative stride from 0 never reaches `count`, so it yields no chunk.
   */
  function ToChunks<T>(a: seq<T>, size: int): (chunks: seq<seq<T>>)
    requires size != 0
    ensures size < 0 || |a| == 0 ==> chunks == []
    ensures 0 < |a| <= size ==> chunks == [a]
    ensures forall i | 0 <= i < |chunks| :: 0 < |chunks[i]| <= size
    ensures forall i | 0 <= i < |chunks| - 1 :: |chunks[i]| == size
  {
    if size < 0 then []
    else
      assert 0 < |a| <= size ==> a[0..Min(size, |a|)] == a && ChunksFrom(a, size, size) == [];
      ChunksFrom(a, size, 0)
  }

  /** The chunks laid end to end. */
  function Flatten<T>(chunks: seq<seq<T>>): seq<T>
  {
    if |chunks| == 0 then [] else chunks[0] + Flatten(chunks[1..])
  }

  lemma {:induction false} ChunksFromFlatten<T>(a: seq<T>, size: nat, start: nat)
    requires size > 0
    ensures Flatten(ChunksFrom(a, size, start)) == if start >= |a| then [] else a[start..]
    decreases |a| - start
  {
    if start < |a| {
      var end := Min(start + size, |a|);
      var rest := ChunksFrom(a, size, start + size);
      ChunksFromUnfold(a, size, start);
      FlattenCons(a[start..end], rest);
      ChunksFromFlatten(a, size, start + size);
      JoinSlices(a, start, end, Flatten(rest));
    }
  }

  lemma JoinSlices<T>(a: seq<T>, start: nat, end: nat, after: seq<T>)
    requires start <= end <= |a|
    requires after == if end == |a| then [] else a[end..]
    ensures a[start..end] + after == a[start..]
  {
  }

  lemma ChunksFromUnfold<T>(a: seq<T>, size: nat, start: nat)
    requires size > 0 && start < |a|
    ensures ChunksFrom(a, size, start) == [a[start..Min(start + size, |a|)]] + ChunksFrom(a, size, start + size)
  {
  }

  lemma SliceSplit<T>(a: seq<T>, i: nat, j: nat)
    requires i <= j <= |a|
    ensures a[i..] == a[i..j] + a[j..]
  {
  }

  lemma FlattenCons<T>(first: seq<T>, rest: seq<seq<T>>)
    ensures Flatten([first] + rest) == first + Flatten(rest)
  {
    assert ([first] + rest)[1..] == rest;
  }

  /** Concatenating the chunks in order gives back the array. */
  lemma ToChunksFlatten<T>(a: seq<T>, size: int)
    requires size > 0
    ensures Flatten(ToChunks(a, size)) == a
  {
    ChunksFromFlatten(a, size, 0);
  }

  lemma {:induction false} ChunksFromCount<T>(a: seq<T>, size: nat, start: nat)
    requires size > 0
    ensures |ChunksFrom(a, size, start)| == if start >= |a| then 0 else (|a| - start + size - 1) / size
    decreases |a| - start
  {
    if start < |a| {
      ChunksFromCount(a, size, start + size);
      var n := |a| - start - 1;
      DivStep(n, size);
      if start + size >= |a| {
        SmallDiv(n, size);
      }
    }
  }

  /** Adding the divisor once adds one to the quotient. */
  lemma DivStep(n: nat, size: nat)
    requires size > 0
    ensures (n + size) / size == n / size + 1
  {
    var q, r := n / size, n % size;
    var q', r' := (n + size) / size, (n + size) % size;
    var d := q' - q - 1;
    assert d * size == r - r' by {
      assert n == q * size + r && n + size == q' * size + r';
      assert d * size == q' * size - q * size - size;
    }
    if d >= 1 {
      MulAtLeast(d, size);
    } else if d <= -1 {
      MulAtLeast(-d, size);
    }
  }

  lemma MulAtLeast(d: int, size: nat)
    requires d >= 1
    ensures d * size >= size
  {
    assert d * size == (d - 1) * size + size;
  }

  lemma SmallDiv(n: nat, size: nat)
    requires n < size
    ensures n / size == 0
  {
  }

  /** There are `ceil(count / size)` chunks. */
  lemma ToChunksCount<T>(a: seq<T>, size: int)
    requires size > 0
    ensures |ToChunks(a, size)| == (|a| + size - 1) / size
  {
    ChunksFromCount(a, size, 0);
    if |a| == 0 {
      SmallDiv(size - 1, size);
    }
  }
}
