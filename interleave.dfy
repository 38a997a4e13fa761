/**
 * `makeInterleaved`: merging two sequences position by position, the element
 * of the primary side first at every position.
 */
module Interleave {

  /**
   * The merge of `first` and `second`: their heads in that order, then the
   * merge of their tails; once one side runs out the rest of the other follows.
   */
  function Merge<T>(first: seq<T>, second: seq<T>): seq<T>
    decreases |first| + |second|
  {
    if first == [] then second
    else if second == [] then first
    else [first[0], second[0]] + Merge(first[1..], second[1..])
  }

  function MinLen(m: int, n: int): int { if m <= n then m else n }

  /**
   * Where every element of the merge comes from: below twice the shorter
   * length, even positions hold `first` and odd positions `second`; after
   * that the remainder of the longer side follows in order.
   */
  lemma {:induction false} MergeAt<T>(first: seq<T>, second: seq<T>)
    ensures |Merge(first, second)| == |first| + |second|
    ensures forall k :: 0 <= k < MinLen(|first|, |second|) ==>
              Merge(first, second)[2 * k] == first[k] && Merge(first, second)[2 * k + 1] == second[k]
    ensures forall k :: |second| <= k < |first| ==> Merge(first, second)[|second| + k] == first[k]
    ensures forall k :: |first| <= k < |second| ==> Merge(first, second)[|first| + k] == second[k]
  {
    MergeLength(first, second);
    forall k | 0 <= k < MinLen(|first|, |second|)
      ensures Merge(first, second)[2 * k] == first[k] && Merge(first, second)[2 * k + 1] == second[k]
    {
      MergePair(first, second, k);
    }
    forall k | |second| <= k < |first|
      ensures Merge(first, second)[|second| + k] == first[k]
    {
      MergeRestOfFirst(first, second, k);
    }
    forall k | |first| <= k < |second|
      ensures Merge(first, second)[|first| + k] == second[k]
    {
      MergeRestOfSecond(first, second, k);
    }
  }

  lemma {:induction false} MergeLength<T>(first: seq<T>, second: seq<T>)
    ensures |Merge(first, second)| == |first| + |second|
    decreases |first|
  {
    if first != [] && second != [] {
      MergeLength(first[1..], second[1..]);
    }
  }

  /** Position `k` of both sides sits at positions 2k and 2k+1 of the merge. */
  lemma {:induction false} MergePair<T>(first: seq<T>, second: seq<T>, k: nat)
    requires k < |first| && k < |second|
    ensures |Merge(first, second)| == |first| + |second|
    ensures Merge(first, second)[2 * k] == first[k] && Merge(first, second)[2 * k + 1] == second[k]
    decreases k
  {
    MergeLength(first, second);
    if k > 0 {
      var f, s := first[1..], second[1..];
      MergePair(f, s, k - 1);
      var m := Merge(first, second);
      assert m == [first[0], second[0]] + Merge(f, s);
      assert m[2 * k] == Merge(f, s)[2 * (k - 1)];
      assert m[2 * k + 1] == Merge(f, s)[2 * (k - 1) + 1];
    }
  }

  /** Past the end of `second`, the merge continues with the rest of `first`. */
  lemma {:induction false} MergeRestOfFirst<T>(first: seq<T>, second: seq<T>, k: nat)
    requires |second| <= k < |first|
    ensures |Merge(first, second)| == |first| + |second|
    ensures Merge(first, second)[|second| + k] == first[k]
    decreases |second|
  {
    MergeLength(first, second);
    if second != [] {
      var f, s := first[1..], second[1..];
      MergeRestOfFirst(f, s, k - 1);
      assert Merge(first, second) == [first[0], second[0]] + Merge(f, s);
    }
  }

  /** Past the end of `first`, the merge continues with the rest of `second`. */
  lemma {:induction false} MergeRestOfSecond<T>(first: seq<T>, second: seq<T>, k: nat)
    requires |first| <= k < |second|
    ensures |Merge(first, second)| == |first| + |second|
    ensures Merge(first, second)[|first| + k] == second[k]
    decreases |first|
  {
    MergeLength(first, second);
    if first != [] {
      var f, s := first[1..], second[1..];
      MergeRestOfSecond(f, s, k - 1);
      assert Merge(first, second) == [first[0], second[0]] + Merge(f, s);
    }
  }

  /** Appending one element to each side of two equally long sequences appends the pair. */
  lemma {:induction false} MergeSnocBoth<T>(first: seq<T>, second: seq<T>, x: T, y: T)
    requires |first| == |second|
    ensures Merge(first + [x], second + [y]) == Merge(first, second) + [x, y]
    decreases |first|
  {
    if first == [] {
      assert Merge([x], [y]) == [x, y] + Merge([], []);
    } else {
      assert (first + [x])[1..] == first[1..] + [x];
      assert (second + [y])[1..] == second[1..] + [y];
      MergeSnocBoth(first[1..], second[1..], x, y);
    }
  }

  /** Appending to the side that is at least as long as the other appends to the merge. */
  lemma {:induction false} MergeSnocFirst<T>(first: seq<T>, second: seq<T>, x: T)
    requires |first| >= |second|
    ensures Merge(first + [x], second) == Merge(first, second) + [x]
    decreases |second|
  {
    if second != [] {
      assert (first + [x])[1..] == first[1..] + [x];
      MergeSnocFirst(first[1..], second[1..], x);
    }
  }

  /** The mirror image of `MergeSnocFirst`. */
  lemma {:induction false} MergeSnocSecond<T>(first: seq<T>, second: seq<T>, y: T)
    requires |second| >= |first|
    ensures Merge(first, second + [y]) == Merge(first, second) + [y]
    decreases |first|
  {
    if first != [] {
      assert (second + [y])[1..] == second[1..] + [y];
      MergeSnocSecond(first[1..], second[1..], y);
    }
  }

  /** Each element marked with the side it came from (`true` for `first`). */
  function Mark<T>(s: seq<T>, side: bool): (r: seq<(bool, T)>)
    ensures |r| == |s|
    ensures forall i :: 0 <= i < |s| ==> r[i] == (side, s[i])
  {
    seq(|s|, i requires 0 <= i < |s| => (side, s[i]))
  }

  /** The elements marked with `side`, unmarked, in their order. */
  function Pick<T>(s: seq<(bool, T)>, side: bool): seq<T>
  {
    if s == [] then []
    else (if s[0].0 == side then [s[0].1] else []) + Pick(s[1..], side)
  }

  /**
   * Keeping only the elements that came from one side gives that side back,
   * in order: the merge loses, duplicates and reorders nothing.
   */
  lemma {:induction false} MergeKeepsEachSide<T>(first: seq<T>, second: seq<T>)
    ensures Pick(Merge(Mark(first, true), Mark(second, false)), true) == first
    ensures Pick(Merge(Mark(first, true), Mark(second, false)), false) == second
    decreases |first| + |second|
  {
    var mf, ms := Mark(first, true), Mark(second, false);
    if first == [] {
      assert mf == [];
      PickMarked(second, false, true);
    } else if second == [] {
      assert ms == [];
      PickMarked(first, true, false);
    } else {
      MergeKeepsEachSide(first[1..], second[1..]);
      assert mf[1..] == Mark(first[1..], true);
      assert ms[1..] == Mark(second[1..], false);
      var m := Merge(mf, ms);
      assert m == [mf[0], ms[0]] + Merge(mf[1..], ms[1..]);
      assert m[1..] == [ms[0]] + Merge(mf[1..], ms[1..]);
      assert m[1..][1..] == Merge(mf[1..], ms[1..]);
    }
  }

  /** Picking from one marked sequence: all of it for its own side, nothing for the other. */
  lemma {:induction false} PickMarked<T>(s: seq<T>, side: bool, other: bool)
    requires other != side
    ensures Pick(Mark(s, side), side) == s
    ensures Pick(Mark(s, side), other) == []
  {
    if s != [] {
      PickMarked(s[1..], side, other);
      assert Mark(s, side)[1..] == Mark(s[1..], side);
    }
  }

  /**
   * `makeInterleaved(a, b, startWithB)`: the primary side is `b` when
   * `startWithB`, otherwise `a`; for every position below the longer length
   * the primary element, then the other, is pushed when present.
   */
  method MakeInterleaved<T>(a: seq<T>, b: seq<T>, startWithB: bool) returns (result: seq<T>)
    ensures result == if startWithB then Merge(b, a) else Merge(a, b)
    ensures |result| == |a| + |b|
  {
    result := [];
    var maxLen := if |a| >= |b| then |a| else |b|;
    var first := if startWithB then b else a;
    var second := if startWithB then a else b;
    for i := 0 to maxLen
      invariant result == Merge(first[..MinLen(i, |first|)], second[..MinLen(i, |second|)])
    {
      MergePrefixStep(first, second, i);
      if i < |first| {
        result := result + [first[i]];
      }
      if i < |second| {
        result := result + [second[i]];
      }
    }
    assert first[..MinLen(maxLen, |first|)] == first;
    assert second[..MinLen(maxLen, |second|)] == second;
    MergeLength(first, second);
  }

  /**
   * One round of the loop: position `i` of `first`, then of `second`, each
   * when present, extends the merge of the prefixes of length `i`.
   */
  lemma MergePrefixStep<T>(first: seq<T>, second: seq<T>, i: nat)
    ensures Merge(first[..MinLen(i + 1, |first|)], second[..MinLen(i + 1, |second|)])
         == Merge(first[..MinLen(i, |first|)], second[..MinLen(i, |second|)])
            + (if i < |first| then [first[i]] else []) + (if i < |second| then [second[i]] else [])
  {
    var f, s := first[..MinLen(i, |first|)], second[..MinLen(i, |second|)];
    assert first[..MinLen(i + 1, |first|)] == if i < |first| then f + [first[i]] else f;
    assert second[..MinLen(i + 1, |second|)] == if i < |second| then s + [second[i]] else s;
    if i < |first| && i < |second| {
      MergeSnocBoth(f, s, first[i], second[i]);
    } else if i < |first| {
      MergeSnocFirst(f, s, first[i]);
    } else if i < |second| {
      MergeSnocSecond(f, s, second[i]);
    }
  }

  /** The two orders quoted for the inputs [1, 2, 3] and [4, 5]. */
  lemma MergeExamples()
    ensures Merge([1, 2, 3], [4, 5]) == [1, 4, 2, 5, 3]
    ensures Merge([4, 5], [1, 2, 3]) == [4, 1, 5, 2, 3]
  {
    assert Merge([3], []) == [3];
    assert Merge([2, 3], [5]) == [2, 5, 3];
    assert Merge([5], [2, 3]) == [5, 2, 3];
  }
}
