/** Work partitioning: `JSONPlaceholderTreadCommand.get_list_chunk_list`. */
module Chunks {
  import opened Wrappers

  /** The two exceptions the generator can raise on its first step. */
  datatype ChunkError =
    | ZeroDivision  // `len(lst) / number` with `number == 0`
    | ZeroStep      // `range(0, len(lst), 0)`

  /** `math.ceil(a / b)`, computed exactly on integers. */
  function CeilDiv(a: nat, b: int): (q: int)
    requires b != 0
    ensures b > 0 ==> (q - 1) * b < a <= q * b
    ensures b < 0 ==> q * b <= a < (q - 1) * b
  {
    if b > 0 then (a + b - 1) / b else -(a / -b)
  }

  /** The concatenation of a sequence of chunks. */
  function Flatten<T>(chunks: seq<seq<T>>): seq<T>
  {
    if chunks == [] then [] else chunks[0] + Flatten(chunks[1..])
  }

  /** The slices `lst[x:x+n]` for `x = 0, n, 2n, ... < len(lst)`, front to back. */
  function Split<T>(lst: seq<T>, n: nat): seq<seq<T>>
    requires n > 0
    decreases |lst|
  {
    if |lst| == 0 then []
    else if |lst| <= n then [lst]
    else [lst[..n]] + Split(lst[n..], n)
  }

  /** What iterating `get_list_chunk_list(lst, number)` yields, or the exception it raises. */
  function ChunkList<T>(lst: seq<T>, number: int): Result<seq<seq<T>>, ChunkError>
  {
    if number == 0 then Err(ZeroDivision)
    else
      var n := CeilDiv(|lst|, number);
      if n == 0 then Err(ZeroStep)
      else if n < 0 then Ok([])  // a negative step from 0 never reaches a non-negative stop
      else Ok(Split(lst, n))
  }

  /** The generator as a loop over `range(0, len(lst), n)` that collects every yielded slice. */
  method GetListChunkList<T>(lst: seq<T>, number: int) returns (r: Result<seq<seq<T>>, ChunkError>)
    ensures r == ChunkList(lst, number)
  {
    if number == 0 {
      return Err(ZeroDivision);
    }
    var n := CeilDiv(|lst|, number);
    if n == 0 {
      return Err(ZeroStep);
    }
    if n < 0 {
      return Ok([]);
    }
    var chunks := Slices(lst, n);
    r := Ok(chunks);
  }

  /** The `for x in range(0, len(lst), n)` loop for a positive step. */
  method Slices<T>(lst: seq<T>, n: nat) returns (chunks: seq<seq<T>>)
    requires n > 0
    ensures chunks == Split(lst, n)
  {
    chunks := [];
    var x := 0;
    while x < |lst|
      invariant 0 <= x
      invariant x < |lst| ==> Split(lst, n) == chunks + Split(lst[x..], n)
      invariant x >= |lst| ==> Split(lst, n) == chunks
      decreases |lst| - x
    {
      var hi := if x + n <= |lst| then x + n else |lst|;
      SplitStep(lst, n, x);
      var rest := if x + n < |lst| then Split(lst[x + n..], n) else [];
      assert chunks + Split(lst[x..], n) == (chunks + [lst[x..hi]]) + rest;
      chunks := chunks + [lst[x..hi]];
      x := x + n;
    }
  }

  /** One iteration of the generator: the slice at `x`, then the slices from `x + n`. */
  lemma SplitStep<T>(lst: seq<T>, n: nat, x: nat)
    requires n > 0 && x < |lst|
    ensures Split(lst[x..], n) ==
      [lst[x..if x + n <= |lst| then x + n else |lst|]]
      + (if x + n < |lst| then Split(lst[x + n..], n) else [])
  {
    var rest := lst[x..];
    if |rest| > n {
      assert rest[..n] == lst[x..x + n];
      assert rest[n..] == lst[x + n..];
    } else {
      assert rest == lst[x..|lst|];
    }
  }

  // ----- Properties of the partition -----

  /** Concatenating the chunks gives back the input list. */
  lemma {:induction false} SplitFlatten<T>(lst: seq<T>, n: nat)
    requires n > 0
    ensures Flatten(Split(lst, n)) == lst
    decreases |lst|
  {
    if |lst| == 0 {
    } else if |lst| <= n {
      assert Flatten([lst]) == lst + Flatten([]);
    } else {
      SplitFlatten(lst[n..], n);
      var r := [lst[..n]] + Split(lst[n..], n);
      assert r[1..] == Split(lst[n..], n);
      assert lst == lst[..n] + lst[n..];
    }
  }

  /** Every chunk but the last holds exactly `n` items; the last holds between 1 and `n`. */
  lemma {:induction false} SplitSizes<T>(lst: seq<T>, n: nat)
    requires n > 0
    ensures var r := Split(lst, n);
      && (|lst| == 0 <==> r == [])
      && (forall i :: 0 <= i < |r| - 1 ==> |r[i]| == n)
      && (r != [] ==> 1 <= |r[|r| - 1]| <= n)
    decreases |lst|
  {
    if |lst| > n {
      SplitSizes(lst[n..], n);
      var r := Split(lst, n);
      assert r == [lst[..n]] + Split(lst[n..], n);
      forall i | 0 <= i < |r| - 1 ensures |r[i]| == n {
        if i > 0 {
          assert r[i] == Split(lst[n..], n)[i - 1];
        }
      }
    }
  }

  /** The number of chunks is `ceil(len(lst) / n)`. */
  lemma {:induction false} SplitCount<T>(lst: seq<T>, n: nat)
    requires n > 0
    ensures |Split(lst, n)| == CeilDiv(|lst|, n)
    decreases |lst|
  {
    var q := CeilDiv(|lst|, n);
    if |lst| == 0 {
      CeilDivUnique(0, n, q, 0);
    } else if |lst| <= n {
      CeilDivUnique(|lst|, n, q, 1);
    } else {
      SplitCount(lst[n..], n);
      var q' := CeilDiv(|lst| - n, n);
      MulSucc(q' - 1, n);
      MulSucc(q', n);
      CeilDivUnique(|lst|, n, q, q' + 1);
    }
  }

  /** For a positive divisor the bounds of `CeilDiv` pin its value down. */
  lemma CeilDivUnique(a: nat, b: nat, q1: int, q2: int)
    requires b > 0
    requires (q1 - 1) * b < a <= q1 * b
    requires (q2 - 1) * b < a <= q2 * b
    ensures q1 == q2
  {
    if q1 < q2 {
      MulLe(q1, q2 - 1, b);
    } else if q2 < q1 {
      MulLe(q2, q1 - 1, b);
    }
  }

  lemma MulSucc(q: int, b: int)
    ensures (q + 1) * b == q * b + b
  {
  }

  lemma MulLe(a: int, b: int, c: nat)
    requires a <= b
    ensures a * c <= b * c
  {
  }

  /** With `n = ceil(N / K)` the partition never has more than `K` chunks. */
  lemma ChunkCountAtMostWorkers(len: nat, number: int)
    requires len >= 1 && number >= 1
    ensures CeilDiv(len, number) >= 1
    ensures CeilDiv(len, CeilDiv(len, number)) <= number
  {
    var n := CeilDiv(len, number);
    var c := CeilDiv(len, n);
    assert (c - 1) * n < len <= n * number;
    if c > number {
      MulLe(number, c - 1, n);
    }
  }

  /** The generator fails exactly for a zero worker count, an empty list, or a negative
      worker count larger in magnitude than the list. */
  lemma ChunkListFails<T>(lst: seq<T>, number: int)
    ensures ChunkList(lst, number).Err? <==>
      (number == 0 || |lst| == 0 || (number < 0 && |lst| < -number))
    ensures number == 0 ==> ChunkList(lst, number) == Err(ZeroDivision)
  {
    if number > 0 && |lst| > 0 {
      assert CeilDiv(|lst|, number) > 0;
    } else if number < 0 && |lst| >= -number {
      assert CeilDiv(|lst|, number) < 0;
    } else if number < 0 {
      assert CeilDiv(|lst|, number) == 0;
    } else if number > 0 {
      assert CeilDiv(|lst|, number) == 0;
    }
  }

  /** A negative worker count at least as large in magnitude as the list yields nothing. */
  lemma ChunkListNegative<T>(lst: seq<T>, number: int)
    requires number < 0 && |lst| >= -number
    ensures ChunkList(lst, number) == Ok([])
  {
    assert CeilDiv(|lst|, number) < 0;
  }

  /** The partition the callers rely on: for at least one worker and a non-empty list,
      the chunks are non-empty, concatenate to the input, all but the last have size
      `ceil(N/K)`, and there are `ceil(N / ceil(N/K))` of them, at most `K`. */
  lemma ChunkListPartition<T>(lst: seq<T>, number: int)
    requires number >= 1 && |lst| >= 1
    ensures ChunkList(lst, number).Ok?
    ensures var chunks := ChunkList(lst, number).value;
      var n := CeilDiv(|lst|, number);
      && Flatten(chunks) == lst
      && 1 <= |chunks| == CeilDiv(|lst|, n) <= number
      && (forall i :: 0 <= i < |chunks| - 1 ==> |chunks[i]| == n)
      && 1 <= |chunks[|chunks| - 1]| <= n
  {
    ChunkCountAtMostWorkers(|lst|, number);
    var n := CeilDiv(|lst|, number);
    SplitFlatten(lst, n);
    SplitSizes(lst, n);
    SplitCount(lst, n);
  }
}
