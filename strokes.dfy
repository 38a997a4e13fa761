/**
 * The three stroke-count tables and the per-syllable stroke totals of a
 * name (`checkStroke`, `getStroke`). A lookup outside a table gives
 * `undefined`, and a sum involving it gives `NaN`; both are `None` here.
 */
module Strokes {
  import opened JsNumber
  import opened Hangul

  /** Strokes of the 19 initial consonants ㄱ ㄲ ㄴ ㄷ ㄸ ㄹ ㅁ ㅂ ㅃ ㅅ ㅆ ㅇ ㅈ ㅉ ㅊ ㅋ ㅌ ㅍ ㅎ. */
  const ChoStrokes: seq<int> := [1, 2, 1, 2, 4, 3, 3, 4, 8, 2, 4, 1, 2, 4, 3, 2, 3, 4, 3]

  /** Strokes of the 21 vowels ㅏ through ㅣ. */
  const JungStrokes: seq<int> := [2, 3, 3, 4, 2, 3, 3, 4, 2, 4, 5, 3, 3, 2, 4, 5, 3, 3, 1, 2, 1]

  /** Strokes of the final slots; only 27 entries for the 28 slots of the decomposition. */
  const JongStrokes: seq<int> := [0, 1, 2, 3, 1, 3, 4, 2, 3, 4, 7, 5, 6, 7, 6, 3, 4, 6, 2, 4, 1, 2, 3, 2, 3, 4, 3]

  /** `stroke[position]`: the table for part 0 (initial), 1 (vowel) or 2 (final). */
  function Table(position: nat): (table: seq<int>)
    requires position < 3
    ensures |table| == [19, 21, 27][position]
  {
    [ChoStrokes, JungStrokes, JongStrokes][position]
  }

  /** Smallest and largest entry of each table. */
  function Least(position: nat): int requires position < 3 { [1, 1, 0][position] }
  function Most(position: nat): int requires position < 3 { [8, 5, 7][position] }

  /**
   * `checkStroke`: the entry at `num` of the table for `position`, or
   * `undefined` when `num` is not an index of that table (negative, or too large).
   */
  function CheckStroke(num: int, position: nat): (r: Option<int>)
    requires position < 3
    ensures r.Some? <==> 0 <= num < |Table(position)|
    ensures r.Some? ==> Least(position) <= r.value <= Most(position)
  {
    var table := Table(position);
    if 0 <= num < |table| then Some(table[num]) else None
  }

  /**
   * The reducer of `getStroke` over one triple: `0 + cho + jung + jong`,
   * which is `NaN` as soon as one lookup is `undefined`.
   */
  function StrokeTotal(t: Indices): (r: Option<int>)
    ensures r.Some? <==> 0 <= t.cho < 19 && 0 <= t.jung < 21 && 0 <= t.jong < 27
    ensures r.Some? ==> r.value == ChoStrokes[t.cho] + JungStrokes[t.jung] + JongStrokes[t.jong]
    ensures r.Some? ==> 2 <= r.value <= 20
  {
    Add(Add(Add(Some(0), CheckStroke(t.cho, 0)), CheckStroke(t.jung, 1)), CheckStroke(t.jong, 2))
  }

  /** `getStroke`: the stroke total of every code unit of the name, in order. */
  function GetStroke(name: JsString): (r: seq<Option<int>>)
    ensures |r| == |name|
    ensures forall i :: 0 <= i < |name| ==> r[i] == StrokeTotal(ConvKorToNum([name[i]]))
  {
    if |name| == 0 then []
    else
      var triples := ConvNameToNum(name);
      seq(|triples|, i requires 0 <= i < |triples| => StrokeTotal(triples[i]))
  }

  /** A syllable whose final index is 27 (the last final, ㅎ). */
  predicate HasLastFinal(c: int) {
    IsSyllable(c) && (c - SBase) % TCount == TCount - 1
  }

  /** How many code units of the name are syllables with final index 27. */
  function LastFinalCount(name: JsString): (n: nat)
    ensures n <= |name|
  {
    if name == [] then 0 else (if HasLastFinal(name[0]) then 1 else 0) + LastFinalCount(name[1..])
  }

  /**
   * For a syllable, the stroke total is defined, and then between 2 and 20,
   * exactly when its final index is below 27; 힣-like syllables give `NaN`.
   */
  lemma SyllableStroke(c: CodeUnit)
    requires IsSyllable(c)
    ensures StrokeTotal(ConvKorToNum([c])).Some? <==> ConvKorToNum([c]).jong < 27
    ensures StrokeTotal(ConvKorToNum([c])).None? <==> HasLastFinal(c)
    ensures StrokeTotal(ConvKorToNum([c])).Some? ==> 2 <= StrokeTotal(ConvKorToNum([c])).value <= 20
  {
    var t := ConvKorToNum([c]);
    assert t.jong == (c - SBase) % TCount;
  }

  /** The sentinel triple never has a stroke total. */
  lemma SentinelHasNoStroke()
    ensures StrokeTotal(Sentinel).None?
  {
  }

  /** Every entry of `getStroke` is either `NaN` or a total between 2 and 20. */
  lemma GetStrokeBounds(name: JsString)
    ensures forall i :: 0 <= i < |name| && GetStroke(name)[i].Some? ==>
              2 <= GetStroke(name)[i].value <= 20
  {
  }

  /** 힣 (U+D7A3) is the last syllable; its final index is 27 and its total is `NaN`. */
  lemma LastSyllableHasNoStroke()
    ensures ConvKorToNum([0xD7A3]) == Indices(18, 20, 27)
    ensures GetStroke([0xD7A3]) == [None]
  {
  }

  /**
   * 김 (U+AE40) splits into ㄱ, ㅣ and final ㅁ (index 16). The final table's
   * entry 16 is 4, although ㅁ weighs 3 as an initial consonant.
   */
  lemma KimStroke()
    ensures ConvKorToNum([0xAE40]) == Indices(0, 20, 16)
    ensures GetStroke([0xAE40]) == [Some(6)]
  {
  }
}
