/**
 * `buildCompatibilityDetail`: normalising the two stroke sequences to
 * digits, interleaving them, collapsing the result row by row with
 * adjacent-pair addition mod 10, and reading the score off the last row.
 */
module Pyramid {
  import opened JsNumber
  import opened Interleave

  /** What `norm` keeps: `typeof v === 'number' && v >= 0` (`NaN >= 0` is false). */
  predicate Kept(v: Option<int>) {
    v.Some? && v.value >= 0
  }

  /** The kept entries, unwrapped, in their order. */
  function KeptValues(arr: seq<Option<int>>): (r: seq<int>)
    ensures |r| <= |arr|
    ensures forall i :: 0 <= i < |r| ==> r[i] >= 0
  {
    if arr == [] then []
    else (if Kept(arr[0]) then [arr[0].value] else []) + KeptValues(arr[1..])
  }

  /** `norm`: the kept entries, each taken `% 10`. */
  function Norm(arr: seq<Option<int>>): (r: seq<int>)
    ensures |r| <= |arr|
    ensures Digits(r)
  {
    var kept := KeptValues(arr);
    seq(|kept|, i requires 0 <= i < |kept| => Rem(kept[i], 10))
  }

  /** Every entry is a decimal digit. */
  predicate Digits(s: seq<int>) {
    forall i :: 0 <= i < |s| ==> 0 <= s[i] < 10
  }

  /** `norm` works entry by entry: splitting the input splits the output the same way. */
  lemma {:induction false} NormAppend(x: seq<Option<int>>, y: seq<Option<int>>)
    ensures Norm(x + y) == Norm(x) + Norm(y)
  {
    KeptValuesAppend(x, y);
  }

  lemma {:induction false} KeptValuesAppend(x: seq<Option<int>>, y: seq<Option<int>>)
    ensures KeptValues(x + y) == KeptValues(x) + KeptValues(y)
  {
    if x == [] {
      assert x + y == y;
    } else {
      assert (x + y)[1..] == x[1..] + y;
      KeptValuesAppend(x[1..], y);
    }
  }

  /** A single entry: dropped when missing or negative, otherwise its last digit. */
  lemma NormSingle(v: Option<int>)
    ensures Norm([v]) == if Kept(v) then [v.value % 10] else []
  {
    assert [v][1..] == [];
  }

  /** Without `NaN` or negative entries nothing is dropped: entry `i` becomes its last digit. */
  lemma {:induction false} NormAllKept(arr: seq<Option<int>>)
    requires forall i :: 0 <= i < |arr| ==> arr[i].Some? && arr[i].value >= 0
    ensures |Norm(arr)| == |arr|
    ensures forall i :: 0 <= i < |arr| ==> Norm(arr)[i] == arr[i].value % 10
  {
    KeptValuesAll(arr);
  }

  lemma {:induction false} KeptValuesAll(arr: seq<Option<int>>)
    requires forall i :: 0 <= i < |arr| ==> arr[i].Some? && arr[i].value >= 0
    ensures |KeptValues(arr)| == |arr|
    ensures forall i :: 0 <= i < |arr| ==> KeptValues(arr)[i] == arr[i].value
  {
    if arr != [] {
      KeptValuesAll(arr[1..]);
    }
  }

  /** One collapse step: entry `i` is `(row[i] + row[i + 1]) % 10`. */
  function NextRow(row: seq<int>): (next: seq<int>)
    requires |row| >= 1
    ensures |next| == |row| - 1
  {
    seq(|row| - 1, i requires 0 <= i < |row| - 1 => Rem(row[i] + row[i + 1], 10))
  }

  /** The row itself, then the rows it collapses to, until a row of two remains. */
  function Collapse(row: seq<int>): (rows: seq<seq<int>>)
    requires |row| >= 2
    decreases |row|
  {
    [row] + (if |row| > 2 then Collapse(NextRow(row)) else [])
  }

  /** The ladder of rows: none for fewer than two entries. */
  function Ladder(interleaved: seq<int>): seq<seq<int>> {
    if |interleaved| >= 2 then Collapse(interleaved) else []
  }

  /**
   * The shape of the ladder of a sequence of length n >= 2: n - 1 rows, the
   * first the sequence itself, each next one its predecessor collapsed and one
   * entry shorter, the last of length 2.
   */
  lemma {:induction false} LadderShape(s: seq<int>)
    requires |s| >= 2
    ensures |Ladder(s)| == |s| - 1
    ensures Ladder(s)[0] == s
    ensures forall k :: 0 <= k < |Ladder(s)| ==> |Ladder(s)[k]| == |s| - k
    ensures forall k :: 0 <= k < |Ladder(s)| - 1 ==> Ladder(s)[k + 1] == NextRow(Ladder(s)[k])
    ensures |Ladder(s)[|Ladder(s)| - 1]| == 2
    decreases |s|
  {
    if |s| > 2 {
      var next := NextRow(s);
      LadderShape(next);
      assert Ladder(s) == [s] + Ladder(next);
    }
  }

  /** Fewer than two entries give no rows at all. */
  lemma LadderOfShort(s: seq<int>)
    requires |s| < 2
    ensures Ladder(s) == []
  {
  }

  /** Collapsing digits gives digits. */
  lemma NextRowDigits(row: seq<int>)
    requires |row| >= 1 && Digits(row)
    ensures Digits(NextRow(row))
  {
  }

  /** Every row of the ladder of a digit sequence holds digits only. */
  lemma {:induction false} LadderDigits(s: seq<int>)
    requires Digits(s)
    ensures forall k :: 0 <= k < |Ladder(s)| ==> Digits(Ladder(s)[k])
    decreases |s|
  {
    if |s| > 2 {
      var next := NextRow(s);
      NextRowDigits(s);
      LadderDigits(next);
      assert Ladder(s) == [s] + Ladder(next);
    }
  }

  /** `row[i] ?? 0`: a missing entry counts as 0. */
  function At(row: seq<int>, i: nat): int {
    if i < |row| then row[i] else 0
  }

  /** The score: the last row (or `[0, 0]` when there are none) read as two digits, capped at 100. */
  function Score(rows: seq<seq<int>>): (score: int)
    ensures rows == [] ==> score == 0
  {
    var last := if |rows| > 0 then rows[|rows| - 1] else [0, 0];
    Min(At(last, 0) * 10 + At(last, 1), 100)
  }

  /**
   * On the ladder of a digit sequence the score is 0 without rows and
   * otherwise the two digits of the last row, so it lies in [0, 99] and the
   * cap at 100 never applies.
   */
  lemma LadderScore(s: seq<int>)
    requires Digits(s)
    ensures Ladder(s) == [] ==> Score(Ladder(s)) == 0
    ensures Ladder(s) != [] ==>
              var last := Ladder(s)[|Ladder(s)| - 1];
              |last| == 2 && Score(Ladder(s)) == 10 * last[0] + last[1]
    ensures 0 <= Score(Ladder(s)) <= 99
  {
    if |s| >= 2 {
      LadderShape(s);
      LadderDigits(s);
      var last := Ladder(s)[|Ladder(s)| - 1];
      assert Digits(last);
    }
  }

  /** What the calculation hands to the display: both digit sequences, the merge, the rows and the score. */
  datatype CalcDetail = CalcDetail(a: seq<int>, b: seq<int>, interleaved: seq<int>, rows: seq<seq<int>>, score: int)

  /**
   * `buildCompatibilityDetail`: normalise both sides, interleave them, build
   * the rows and read the score off the last one.
   */
  method BuildCompatibilityDetail(stroke1: seq<Option<int>>, stroke2: seq<Option<int>>, startWithB: bool)
    returns (d: CalcDetail)
    ensures d.a == Norm(stroke1) && d.b == Norm(stroke2)
    ensures d.interleaved == if startWithB then Merge(d.b, d.a) else Merge(d.a, d.b)
    ensures |d.interleaved| == |d.a| + |d.b|
    ensures d.rows == Ladder(d.interleaved)
    ensures |d.rows| == if |d.interleaved| >= 2 then |d.interleaved| - 1 else 0
    ensures d.score == Score(d.rows) && 0 <= d.score <= 99
  {
    var a := Norm(stroke1);
    var b := Norm(stroke2);
    var interleaved := MakeInterleaved(a, b, startWithB);
    var rows := BuildRows(interleaved);
    var last := if |rows| > 0 then rows[|rows| - 1] else [0, 0];
    var score := Min(At(last, 0) * 10 + At(last, 1), 100);
    assert Digits(interleaved) by {
      MergeDigits(a, b);
      MergeDigits(b, a);
    }
    LadderScore(interleaved);
    d := CalcDetail(a, b, interleaved, rows, score);
  }

  /**
   * The row-building loop of `buildCompatibilityDetail`: starting from the
   * interleaved sequence, append the collapse of the current row while it
   * is longer than two.
   */
  method BuildRows(interleaved: seq<int>) returns (rows: seq<seq<int>>)
    ensures rows == Ladder(interleaved)
    ensures |rows| == if |interleaved| >= 2 then |interleaved| - 1 else 0
    ensures forall k :: 0 <= k < |rows| ==> |rows[k]| == |interleaved| - k
  {
    rows := [];
    if |interleaved| >= 2 {
      rows := [interleaved];
      var row := interleaved;
      while |row| > 2
        invariant |row| >= 2
        invariant rows + Collapse(row)[1..] == Collapse(interleaved)
        decreases |row|
      {
        var next := CollapseRow(row);
        assert Collapse(row)[1..] == [next] + Collapse(next)[1..];
        rows := rows + [next];
        row := next;
      }
      LadderShape(interleaved);
    }
  }

  /** The inner loop: push `(row[i] + row[i + 1]) % 10` for every adjacent pair. */
  method CollapseRow(row: seq<int>) returns (next: seq<int>)
    requires |row| >= 1
    ensures next == NextRow(row)
  {
    next := [];
    for i := 0 to |row| - 1
      invariant next == NextRow(row)[..i]
    {
      next := next + [Rem(row[i] + row[i + 1], 10)];
    }
  }

  /** Merging two digit sequences gives a digit sequence. */
  lemma MergeDigits(x: seq<int>, y: seq<int>)
    requires Digits(x) && Digits(y)
    ensures Digits(Merge(x, y))
  {
    MergeAt(x, y);
    forall j | 0 <= j < |Merge(x, y)|
      ensures 0 <= Merge(x, y)[j] < 10
    {
      var m := MinLen(|x|, |y|);
      if j < 2 * m {
        assert Merge(x, y)[2 * (j / 2)] == x[j / 2];
      } else if |y| <= |x| {
        assert Merge(x, y)[|y| + (j - |y|)] == x[j - |y|];
      } else {
        assert Merge(x, y)[|x| + (j - |x|)] == y[j - |x|];
      }
    }
  }

  /** The worked example: [1, 4, 2, 5, 3] collapses to [4, 8] and scores 48. */
  lemma WorkedExample()
    ensures Ladder([1, 4, 2, 5, 3]) == [[1, 4, 2, 5, 3], [5, 6, 7, 8], [1, 3, 5], [4, 8]]
    ensures Score(Ladder([1, 4, 2, 5, 3])) == 48
  {
    var r0: seq<int> := [1, 4, 2, 5, 3];
    var r1 := NextRow(r0);
    assert r1 == [5, 6, 7, 8] by {
      assert r1[0] == 5 && r1[1] == 6 && r1[2] == 7 && r1[3] == 8;
    }
    var r2 := NextRow(r1);
    assert r2 == [1, 3, 5] by {
      assert r2[0] == 1 && r2[1] == 3 && r2[2] == 5;
    }
    var r3 := NextRow(r2);
    assert r3 == [4, 8] by {
      assert r3[0] == 4 && r3[1] == 8;
    }
    assert Collapse(r2) == [r2, r3];
    assert Collapse(r1) == [r1, r2, r3];
    assert Ladder(r0) == [r0, r1, r2, r3];
  }
}
