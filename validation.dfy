/**
 * The checks that decide whether a score is computed at all, and which
 * name is interleaved first.
 */
module Validation {
  import opened JsNumber
  import opened Hangul

  /** `minLenOk`: at least two code units. */
  predicate MinLenOk(name: JsString) {
    |name| >= 2
  }

  /** `/^[가-힣]+$/.test(name)`: one or more code units, each in U+AC00..U+D7A3. */
  predicate MatchesHangulSyllables(name: JsString) {
    |name| >= 1 && forall i :: 0 <= i < |name| ==> IsSyllable(name[i])
  }

  /** `charsetOk`: the empty name passes, any other must match the pattern. */
  predicate CharsetOk(name: JsString) {
    if |name| == 0 then true else MatchesHangulSyllables(name)
  }

  /** `diffOk`: when both names are long enough, their lengths differ by at most one. */
  predicate DiffOk(name1: JsString, name2: JsString) {
    if MinLenOk(name1) && MinLenOk(name2) then Abs(|name1| - |name2|) <= 1 else true
  }

  /** `canCompute`: the conjunction of all the checks. */
  predicate CanCompute(name1: JsString, name2: JsString) {
    MinLenOk(name1) && MinLenOk(name2) && CharsetOk(name1) && CharsetOk(name2) && DiffOk(name1, name2)
  }

  /** `startWithB`: the second name goes first when it is strictly longer. */
  predicate StartWithB(name1: JsString, name2: JsString) {
    |name2| > |name1|
  }

  /** All syllables of the composed block. */
  predicate AllSyllables(name: JsString) {
    forall i :: 0 <= i < |name| ==> IsSyllable(name[i])
  }

  /**
   * Scoring runs exactly when both names have at least two code units, all of
   * them syllables U+AC00..U+D7A3, and the lengths differ by at most one.
   */
  lemma CanComputeIff(name1: JsString, name2: JsString)
    ensures CanCompute(name1, name2) <==>
              |name1| >= 2 && |name2| >= 2 && AllSyllables(name1) && AllSyllables(name2) &&
              -1 <= |name1| - |name2| <= 1
  {
  }

  /**
   * When scoring runs, the second name goes first exactly when it is one
   * code unit longer; equal lengths start with the first name.
   */
  lemma StartWithBRule(name1: JsString, name2: JsString)
    requires CanCompute(name1, name2)
    ensures StartWithB(name1, name2) <==> |name2| == |name1| + 1
    ensures !StartWithB(name1, name2) <==> |name1| == |name2| || |name1| == |name2| + 1
  {
  }

  /** A one-syllable name, a digit inside a name, or lengths two apart block scoring; 2 against 3 passes. */
  lemma RejectedExamples()
    ensures !CanCompute([0xAE40], [0xAE40, 0xAE40])
    ensures !CanCompute([0xAE40, 0x31], [0xAE40, 0xAE40])
    ensures !CanCompute([0xAE40, 0xAE40], [0xAE40, 0xAE40, 0xAE40, 0xAE40])
    ensures CanCompute([0xAE40, 0xAE40], [0xAE40, 0xAE40, 0xAE40])
  {
    var digit: JsString := [0xAE40, 0x31];
    assert !IsSyllable(digit[1]);
  }
}
