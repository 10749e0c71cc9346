/** The test driver (src/testNeuralNetwork.cpp): the flat token array read from the test
    file seen as an `ngram_size x test_data_size` column-major matrix, and its partition
    into minibatches of columns. */
module Minibatch {
  import opened Results

  /** C++ `/` on `int`: the quotient truncated toward zero (Dafny's `/` is Euclidean),
      so the remainder `a - q * b` takes the sign of the dividend and is smaller than the
      divisor in magnitude. Division by zero is undefined in C++, hence the precondition. */
  function CDiv(a: int, b: int): (q: int)
    requires b != 0
    ensures a >= 0 ==> 0 <= a - q * b < Abs(b)
    ensures a < 0 ==> 0 - Abs(b) < a - q * b <= 0
  {
    if b > 0 then TruncDiv(a, b)
    else
      var q := TruncDiv(a, -b);
      assert (0 - q) * b == q * -b;
      0 - q
  }

  /** Truncating division by a positive divisor. */
  function TruncDiv(a: int, b: int): (q: int)
    requires b > 0
    ensures a >= 0 ==> q * b <= a < q * b + b
    ensures a < 0 ==> q * b - b < a <= q * b
  {
    if a >= 0 then Quot(a, b) else 0 - Quot(-a, b)
  }

  function Abs(x: int): int {
    if x < 0 then -x else x
  }

  /** The quotient of a natural number, by repeated subtraction. */
  function Quot(a: nat, b: int): (q: nat)
    requires b > 0
    ensures q * b <= a < q * b + b
    decreases a
  {
    if a < b then 0 else 1 + Quot(a - b, b)
  }

  function Min(a: int, b: int): int {
    if a <= b then a else b
  }

  /** The integers `lo, lo + 1, ..., hi - 1`. */
  function Range(lo: int, hi: int): (r: seq<int>)
    requires lo <= hi
    ensures |r| == hi - lo && forall i :: 0 <= i < |r| ==> r[i] == lo + i
  {
    seq(hi - lo, i => lo + i)
  }

  lemma RangeSplit(lo: int, mid: int, hi: int)
    requires lo <= mid <= hi
    ensures Range(lo, mid) + Range(mid, hi) == Range(lo, hi)
  {
  }

  // The test data as a matrix.

  /** `test_data_size`: the number of whole n-grams in the file; a trailing partial
      n-gram is not scored. */
  function TestDataSize(flat: seq<int>, n: int): (size: nat)
    requires n >= 1
    ensures size * n <= |flat| < (size + 1) * n
  {
    |flat| / n
  }

  /** Column `j` of the `Map`ped matrix: in column-major order, entry `(i, j)` is
      `flat[j * n + i]`. */
  function Column(flat: seq<int>, n: int, j: int): (c: seq<int>)
    requires n >= 1 && 0 <= j < TestDataSize(flat, n)
    ensures |c| == n
  {
    seq(n, i requires 0 <= i < n => MulBound(flat, n, j, i); flat[j * n + i])
  }

  /** An entry of column `j` lies inside the flat array. */
  lemma MulBound(flat: seq<int>, n: int, j: int, i: int)
    requires n >= 1 && 0 <= j < TestDataSize(flat, n) && 0 <= i < n
    ensures 0 <= j * n + i < |flat|
  {
    assert (j + 1) * n <= TestDataSize(flat, n) * n;
  }

  /** Column `j` is the `j`-th run of `n` consecutive tokens. */
  lemma ColumnIsSlice(flat: seq<int>, n: int, j: int)
    requires n >= 1 && 0 <= j < TestDataSize(flat, n)
    ensures (j + 1) * n <= |flat|
    ensures Column(flat, n, j) == flat[j * n..(j + 1) * n]
  {
    MulBound(flat, n, j, n - 1);
  }

  /** `topRows(ngram_size - 1)`: the context words of an n-gram column. */
  function Context(column: seq<int>): (c: seq<int>)
    requires |column| >= 1
    ensures |c| == |column| - 1
  {
    column[..|column| - 1]
  }

  /** Row `ngram_size - 1`: the word being predicted. */
  function Target(column: seq<int>): int
    requires |column| >= 1
  {
    column[|column| - 1]
  }

  /** What the loop reads from column `j` of the test data: the context rows are the
      first `n - 1` tokens of the `j`-th run of `n`, and the predicted word is its last. */
  lemma ColumnContextAndTarget(flat: seq<int>, n: int, j: int)
    requires n >= 1 && 0 <= j < TestDataSize(flat, n)
    ensures j * n + n <= |flat|
    ensures Context(Column(flat, n, j)) == flat[j * n..j * n + n - 1]
    ensures Target(Column(flat, n, j)) == flat[j * n + n - 1]
  {
    ColumnIsSlice(flat, n, j);
    assert (j + 1) * n == j * n + n;
  }

  // Minibatches.

  /** Why the driver stops before scoring: `minibatch_size` comes from the command line
      unchecked. */
  datatype DriverError =
    | DivisionByZero                       // `num_batches` divides by a zero minibatch size
    | NegativeMinibatchSize(size: int)     // the score matrices get a negative column count

  /** The value of the `num_batches` expression for a non-zero minibatch size. */
  function BatchCount(size: int, mb: int): int
    requires mb != 0
  {
    CDiv(size - 1, mb) + 1
  }

  /** `num_batches = (test_data_size - 1) / minibatch_size + 1`, with C++ division;
      a zero minibatch size is a division by zero. */
  function NumBatches(size: int, mb: int): (r: Result<int, DriverError>)
    ensures r.Err? <==> mb == 0
  {
    if mb == 0 then Err(DivisionByZero) else Ok(BatchCount(size, mb))
  }

  /** For at least one test instance and a positive minibatch size, the number of batches
      is the ceiling of the size over the minibatch size: the batches before the last are
      full and the last is not empty. A zero minibatch size has no batch count. */
  lemma NumBatchesIsCeiling(size: int, mb: int)
    requires size >= 1
    ensures mb == 0 ==> NumBatches(size, mb) == Err(DivisionByZero)
    ensures mb >= 1 ==> NumBatches(size, mb).Ok? && NumBatches(size, mb).value >= 1
    ensures mb >= 1 ==>
      var n := NumBatches(size, mb).value;
      (n - 1) * mb < size <= n * mb
  {
    if mb >= 1 {
      var q := CDiv(size - 1, mb);
      assert (q + 1) * mb == q * mb + mb;
    }
  }

  /** An empty test file: truncating division makes `(0 - 1) / mb` zero for `mb >= 2`,
      giving one batch, of size 0; a minibatch size of 1 gives none, -1 gives two and
      any other negative size one. */
  lemma EmptyTestData(mb: int)
    ensures mb == 0 ==> NumBatches(0, mb) == Err(DivisionByZero)
    ensures mb >= 2 ==> NumBatches(0, mb) == Ok(1) && BatchSize(0, mb, 0) == 0
    ensures mb == 1 ==> NumBatches(0, mb) == Ok(0)
    ensures mb == -1 ==> NumBatches(0, mb) == Ok(2)
    ensures mb <= -2 ==> NumBatches(0, mb) == Ok(1)
  {
  }

  /** Where batch `b` starts: `b` minibatches further than the first column. */
  function BatchStart(mb: int, b: nat): int {
    if b == 0 then 0 else BatchStart(mb, b - 1) + mb
  }

  /** `minibatch_start_index = minibatch_size * batch`. */
  lemma {:induction false} BatchStartIsProduct(mb: int, b: nat)
    ensures BatchStart(mb, b) == mb * b
  {
    if b > 0 {
      BatchStartIsProduct(mb, b - 1);
    }
  }

  /** The last batch starts inside the test data and the batch after it would not. */
  lemma LastBatchEnds(size: int, mb: int)
    requires size >= 1 && mb >= 1
    ensures BatchCount(size, mb) >= 1
    ensures BatchStart(mb, BatchCount(size, mb) - 1) < size <= BatchStart(mb, BatchCount(size, mb))
  {
    NumBatchesIsCeiling(size, mb);
    BatchStartIsProduct(mb, BatchCount(size, mb) - 1);
    BatchStartIsProduct(mb, BatchCount(size, mb));
  }

  /** `current_minibatch_size`. */
  function BatchSize(size: int, mb: int, b: nat): int {
    Min(mb, size - BatchStart(mb, b))
  }

  /** Every batch the loop visits holds at least one and at most `minibatch_size` columns,
      and ends inside the test data. */
  lemma BatchSizeBounds(size: int, mb: int, b: nat)
    requires size >= 1 && mb >= 1 && 0 <= b < BatchCount(size, mb)
    ensures 1 <= BatchSize(size, mb, b) <= mb
    ensures BatchStart(mb, b) + BatchSize(size, mb, b) <= size
  {
    LastBatchEnds(size, mb);
    BatchStartMonotone(mb, b, BatchCount(size, mb) - 1);
  }

  lemma {:induction false} BatchStartMonotone(mb: int, a: nat, b: nat)
    requires mb >= 0 && a <= b
    ensures BatchStart(mb, a) <= BatchStart(mb, b)
    decreases b
  {
    if a < b {
      BatchStartMonotone(mb, a, b - 1);
    }
  }

  datatype Batch = Batch(start: int, len: int)

  /** The columns the batches cover, in order. */
  function Covered(batches: seq<Batch>): seq<int>
    requires forall k :: 0 <= k < |batches| ==> batches[k].len >= 0
  {
    if |batches| == 0 then []
    else
      var last := batches[|batches| - 1];
      Covered(batches[..|batches| - 1]) + Range(last.start, last.start + last.len)
  }

  /** The first `k` batches the loop of `main` visits. */
  function Schedule(size: int, mb: int, k: nat): (batches: seq<Batch>)
    ensures |batches| == k
  {
    seq(k, b requires 0 <= b < k => Batch(BatchStart(mb, b), BatchSize(size, mb, b)))
  }

  lemma ScheduleStep(size: int, mb: int, k: nat)
    ensures Schedule(size, mb, k + 1) == Schedule(size, mb, k) + [Batch(BatchStart(mb, k), BatchSize(size, mb, k))]
  {
  }

  /** `batches` are the first `k` batches, and they cover the columns before the next
      batch's start (or all of them). */
  ghost predicate Scheduled(size: int, mb: int, k: nat, batches: seq<Batch>) {
    && size >= 0 && BatchStart(mb, k) >= 0
    && batches == Schedule(size, mb, k)
    && (forall b :: 0 <= b < |batches| ==> batches[b].len >= 0)
    && Covered(batches) == Range(0, Min(BatchStart(mb, k), size))
  }

  /** Appending a batch appends its columns. */
  lemma CoveredAppend(batches: seq<Batch>, last: Batch)
    requires forall k :: 0 <= k < |batches| ==> batches[k].len >= 0
    requires last.len >= 0
    ensures Covered(batches + [last]) == Covered(batches) + Range(last.start, last.start + last.len)
  {
    assert (batches + [last])[..|batches|] == batches;
  }

  /** Batch `k` of the loop begins where the columns covered so far end and ends where
      the next batch begins, or at the end of the test data. */
  lemma BatchFollows(size: int, mb: int, k: nat)
    requires size >= 0 && mb >= 1 && k < BatchCount(size, mb)
    ensures 0 <= BatchStart(mb, k) <= BatchStart(mb, k + 1)
    ensures BatchSize(size, mb, k) >= 0
    ensures Min(BatchStart(mb, k), size) == BatchStart(mb, k)
    ensures BatchStart(mb, k) + BatchSize(size, mb, k) == Min(BatchStart(mb, k + 1), size)
  {
    BatchStartMonotone(mb, 0, k);
    if size >= 1 {
      BatchSizeBounds(size, mb, k);
    }
  }

  /** One more trip round the batch loop. */
  lemma ScheduledStep(size: int, mb: int, k: nat, batches: seq<Batch>)
    requires size >= 0 && mb >= 1 && k < BatchCount(size, mb)
    requires Scheduled(size, mb, k, batches)
    ensures Scheduled(size, mb, k + 1, batches + [Batch(BatchStart(mb, k), BatchSize(size, mb, k))])
  {
    var start := BatchStart(mb, k);
    var current := BatchSize(size, mb, k);
    BatchFollows(size, mb, k);
    CoveredAppend(batches, Batch(start, current));
    RangeSplit(0, start, start + current);
    ScheduleStep(size, mb, k);
  }

  /** The batch loop of `main`: the start and size of every minibatch. A zero minibatch
      size fails at the division, a negative one when the score matrices are allocated
      with it as their column count. Otherwise the batches follow one another without
      gap or overlap and cover the columns `0 .. test_data_size - 1` exactly once, in order. */
  method Partition(size: nat, mb: int) returns (r: Result<seq<Batch>, DriverError>)
    ensures mb == 0 ==> r == Err(DivisionByZero)
    ensures mb < 0 ==> r == Err(NegativeMinibatchSize(mb))
    ensures mb >= 1 ==> r.Ok? && NumBatches(size, mb).value >= 0
    ensures mb >= 1 ==> r.value == Schedule(size, mb, NumBatches(size, mb).value)
    ensures mb >= 1 ==> forall b :: 0 <= b < |r.value| ==> r.value[b].len >= 0
    ensures mb >= 1 ==> Covered(r.value) == Range(0, size)
  {
    if mb == 0 {
      return Err(DivisionByZero);
    }
    var numBatches := BatchCount(size, mb);
    if mb < 0 {
      return Err(NegativeMinibatchSize(mb));
    }
    ScheduleStart(size, mb);
    var batches := [];
    var batch := 0;
    var start := 0;
    while batch < numBatches
      invariant 0 <= batch <= numBatches
      invariant start == BatchStart(mb, batch)
      invariant Scheduled(size, mb, batch, batches)
    {
      var current := Min(mb, size - start);
      ScheduledStep(size, mb, batch, batches);
      batches := batches + [Batch(start, current)];
      batch := batch + 1;
      start := start + mb;
    }
    ScheduleComplete(size, mb, batches);
    r := Ok(batches);
  }

  /** Before the first batch nothing is covered, and the loop runs a non-negative number
      of times. */
  lemma ScheduleStart(size: int, mb: int)
    requires size >= 0 && mb >= 1
    ensures BatchCount(size, mb) >= 0
    ensures Scheduled(size, mb, 0, [])
  {
    if size >= 1 {
      LastBatchEnds(size, mb);
    }
  }

  /** After the last batch every column is covered. */
  lemma ScheduleComplete(size: int, mb: int, batches: seq<Batch>)
    requires mb >= 1 && BatchCount(size, mb) >= 0
    requires Scheduled(size, mb, BatchCount(size, mb), batches)
    ensures batches == Schedule(size, mb, BatchCount(size, mb))
    ensures forall b :: 0 <= b < |batches| ==> batches[b].len >= 0
    ensures Covered(batches) == Range(0, size)
  {
    if size >= 1 {
      LastBatchEnds(size, mb);
    }
  }

  /** Concrete partitions. */
  lemma PartitionExamples()
    ensures NumBatches(130, 64) == Ok(3)
    ensures BatchSize(130, 64, 0) == 64 && BatchSize(130, 64, 1) == 64 && BatchSize(130, 64, 2) == 2
  {
    assert CDiv(129, 64) == 2;
    assert BatchStart(64, 2) == 128;
  }
}
