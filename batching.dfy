/** How the load task groups converted rows into write batches: a batch is
    sent each time it reaches the batch size, and a non-empty remainder is
    sent at the end. */
module Batching {

  /** The batches sent during the row loop, and the rows still pending after it. */
  datatype Batches<T> = Batches(full: seq<seq<T>>, rest: seq<T>)

  /** The state of the batch list after the row loop has added every row,
      sending the batch whenever its size reaches m. */
  function Batch<T>(rows: seq<T>, m: nat): Batches<T>
    requires m >= 1
    decreases |rows|
  {
    if rows == [] then Batches([], [])
    else
      var b := Batch(rows[..|rows| - 1], m);
      var rest := b.rest + [rows[|rows| - 1]];
      if |rest| >= m then Batches(b.full + [rest], []) else Batches(b.full, rest)
  }

  /** Every submission: the batches sent in the loop, then the remainder if any. */
  function Submissions<T>(rows: seq<T>, m: nat): seq<seq<T>>
    requires m >= 1
  {
    var b := Batch(rows, m);
    b.full + (if b.rest != [] then [b.rest] else [])
  }

  function Flatten<T>(bs: seq<seq<T>>): seq<T>
  {
    if bs == [] then [] else Flatten(bs[..|bs| - 1]) + bs[|bs| - 1]
  }

  /** In-loop batches are exactly m rows, the remainder is shorter than m,
      and together they are the rows in their original order. */
  lemma {:induction false} BatchShape<T>(rows: seq<T>, m: nat)
    requires m >= 1
    ensures var b := Batch(rows, m);
      (forall i :: 0 <= i < |b.full| ==> |b.full[i]| == m) &&
      |b.rest| < m &&
      Flatten(b.full) + b.rest == rows &&
      |rows| == |b.full| * m + |b.rest|
    decreases |rows|
  {
    if rows != [] {
      var init := rows[..|rows| - 1];
      BatchShape(init, m);
      var b0 := Batch(init, m);
      var rest := b0.rest + [rows[|rows| - 1]];
      assert init + [rows[|rows| - 1]] == rows;
      if |rest| >= m {
        var full := b0.full + [rest];
        assert full[..|full| - 1] == b0.full;
        assert Flatten(full) == Flatten(b0.full) + rest;
        assert |full| * m == |b0.full| * m + m by { SuccMul(|b0.full|, m); }
      }
    }
  }

  /** Adding one row: it joins the pending batch, which is sent once it reaches m rows. */
  lemma BatchStep<T>(rows: seq<T>, x: T, m: nat)
    requires m >= 1
    ensures var b := Batch(rows, m);
      var rest := b.rest + [x];
      Batch(rows + [x], m) == if |rest| >= m then Batches(b.full + [rest], []) else Batches(b.full, rest)
  {
    assert (rows + [x])[..|rows|] == rows;
  }

  lemma SuccMul(k: int, m: int)
    ensures (k + 1) * m == k * m + m
  {
  }

  lemma DivModUnique(a: int, m: int, q: int, r: int)
    requires m >= 1 && 0 <= r < m && a == q * m + r
    ensures a / m == q && a % m == r
  {
    var q2, r2 := a / m, a % m;
    MulBounds(q2 - q, m);
    assert (q2 - q) * m == r - r2;
  }

  lemma MulBounds(k: int, m: int)
    requires m >= 1
    ensures k >= 1 ==> k * m >= m
    ensures k <= -1 ==> k * m <= -m
  {
    if k >= 1 {
      assert k * m == (k - 1) * m + m;
    } else if k <= -1 {
      assert k * m == (k + 1) * m - m;
    }
  }

  /** n rows in batches of m: n / m batches of m rows are sent in the loop, and
      one more of n % m rows when that is not zero. */
  lemma SubmissionCounts<T>(rows: seq<T>, m: nat)
    requires m >= 1
    ensures var b := Batch(rows, m);
      |b.full| == |rows| / m && |b.rest| == |rows| % m
    ensures |Submissions(rows, m)| == |rows| / m + (if |rows| % m != 0 then 1 else 0)
    ensures Flatten(Submissions(rows, m)) == rows
    ensures forall s :: s in Submissions(rows, m) ==> 1 <= |s| <= m
  {
    var b := Batch(rows, m);
    BatchShape(rows, m);
    DivModUnique(|rows|, m, |b.full|, |b.rest|);
    var subs := Submissions(rows, m);
    if b.rest != [] {
      assert subs[..|subs| - 1] == b.full;
    } else {
      assert subs == b.full;
    }
  }

  const EMPTY: seq<int> := []

  /** Five rows in batches of two go out as 2, 2 and 1; no rows, no batch. */
  lemma SubmissionExamples()
    ensures |Submissions([1, 2, 3, 4, 5], 2)| == 3
    ensures Submissions([1, 2, 3, 4, 5], 2) == [[1, 2], [3, 4], [5]]
    ensures Submissions(EMPTY, 2) == []
  {
    assert [1, 2][..1] == [1];
    assert Batch([1], 2) == Batches([], [1]);
    assert [1] + [2] == [1, 2];
    assert Batch([1, 2], 2) == Batches([[1, 2]], []);
    assert [1, 2, 3][..2] == [1, 2];
    assert Batch([1, 2, 3], 2) == Batches([[1, 2]], [3]);
    assert [1, 2, 3, 4][..3] == [1, 2, 3];
    assert [3] + [4] == [3, 4] && [[1, 2]] + [[3, 4]] == [[1, 2], [3, 4]];
    assert Batch([1, 2, 3, 4], 2) == Batches([[1, 2], [3, 4]], []);
    assert [1, 2, 3, 4, 5][..4] == [1, 2, 3, 4];
    assert Batch([1, 2, 3, 4, 5], 2) == Batches([[1, 2], [3, 4]], [5]);
  }
}
