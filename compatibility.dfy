/**
 * The whole calculation as the page runs it whenever a name changes: the
 * checks decide whether the detail is built, from the stroke totals of both
 * names, with the longer second name going first.
 */
module Compatibility {
  import opened JsNumber
  import opened Hangul
  import opened Strokes
  import opened Interleave
  import opened Pyramid
  import opened Validation

  /**
   * The score and the detail shown: when the names pass the checks, the
   * detail built from their stroke totals and its score; otherwise 0 and no detail.
   */
  method Evaluate(name1: JsString, name2: JsString) returns (score: int, detail: Option<CalcDetail>)
    ensures detail.Some? <==> CanCompute(name1, name2)
    ensures detail.None? ==> score == 0
    ensures detail.Some? ==>
              var d := detail.value;
              && d.a == Norm(GetStroke(name1))
              && d.b == Norm(GetStroke(name2))
              && d.interleaved == (if |name2| > |name1| then Merge(d.b, d.a) else Merge(d.a, d.b))
              && |d.interleaved| == |name1| + |name2| - LastFinalCount(name1) - LastFinalCount(name2)
              && d.rows == Ladder(d.interleaved)
              && score == d.score == Score(d.rows)
    ensures 0 <= score <= 99
  {
    if CanCompute(name1, name2) {
      var startWithB := StartWithB(name1, name2);
      var d := BuildCompatibilityDetail(GetStroke(name1), GetStroke(name2), startWithB);
      NormStrokeLength(name1);
      NormStrokeLength(name2);
      score, detail := d.score, Some(d);
    } else {
      score, detail := 0, None;
    }
  }

  /**
   * For a name of syllables, `norm(getStroke(name))` keeps one digit per
   * syllable except those with final index 27, whose `NaN` totals are dropped.
   */
  lemma {:induction false} NormStrokeLength(name: JsString)
    requires AllSyllables(name)
    ensures |Norm(GetStroke(name))| == |name| - LastFinalCount(name)
  {
    if name != [] {
      var rest := name[1..];
      assert GetStroke(name) == [GetStroke(name)[0]] + GetStroke(rest);
      NormAppend([GetStroke(name)[0]], GetStroke(rest));
      NormSingle(GetStroke(name)[0]);
      SyllableStroke(name[0]);
      NormStrokeLength(rest);
    }
  }

  /**
   * Without syllables of final index 27, two names of lengths m and n that
   * pass the checks give m + n - 1 rows, the last of two digits.
   */
  lemma RowCount(name1: JsString, name2: JsString)
    requires CanCompute(name1, name2)
    requires LastFinalCount(name1) == 0 && LastFinalCount(name2) == 0
    ensures var a, b := Norm(GetStroke(name1)), Norm(GetStroke(name2));
            var s := if StartWithB(name1, name2) then Merge(b, a) else Merge(a, b);
            |Ladder(s)| == |name1| + |name2| - 1 && |Ladder(s)[|Ladder(s)| - 1]| == 2
  {
    var a, b := Norm(GetStroke(name1)), Norm(GetStroke(name2));
    NormStrokeLength(name1);
    NormStrokeLength(name2);
    MergeAt(a, b);
    MergeAt(b, a);
    var s := if StartWithB(name1, name2) then Merge(b, a) else Merge(a, b);
    LadderShape(s);
  }
}
