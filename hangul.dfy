/**
 * Splitting a precomposed Hangul syllable into the indices of its initial
 * consonant (choseong), vowel (jungseong) and final consonant (jongseong),
 * by the arithmetic of section 3.12 of the Unicode Standard, "Conjoining
 * Jamo Behavior".
 */
module Hangul {
  import opened JsNumber

  /** First precomposed syllable, U+AC00. */
  const SBase: int := 0xAC00
  /** Number of initial consonants. */
  const LCount: int := 19
  /** Number of vowels. */
  const VCount: int := 21
  /** Number of final slots, including "no final consonant" at index 0. */
  const TCount: int := 28
  /** Syllables per initial consonant, VCount * TCount. */
  const NCount: int := 588
  /** Number of precomposed syllables, LCount * NCount. */
  const SCount: int := 11172

  /** The code units U+AC00..U+D7A3 (가..힣), the range the name checks accept. */
  predicate IsSyllable(c: int) {
    SBase <= c < SBase + SCount
  }

  /** The three indices the decomposition returns, as the source's `[cho, jung, jong]` array. */
  datatype Indices = Indices(cho: int, jung: int, jong: int)

  /** `[-1, -1, -1]`, returned for an input that is not a single code unit. */
  const Sentinel: Indices := Indices(-1, -1, -1)

  /** Each index lies within the jamo counts of the Unicode composition scheme. */
  predicate InRange(t: Indices) {
    0 <= t.cho < LCount && 0 <= t.jung < VCount && 0 <= t.jong < TCount
  }

  /** The syllable whose components are `t` (the inverse of the decomposition). */
  function Recompose(t: Indices): int {
    SBase + NCount * t.cho + TCount * t.jung + t.jong
  }

  /**
   * `convKorToNum`: a one-unit string is split by floor division and
   * JavaScript's `%` on its offset from U+AC00; any other length gives the
   * sentinel.
   */
  function ConvKorToNum(s: JsString): (t: Indices)
    ensures |s| != 1 ==> t == Sentinel
    ensures |s| == 1 && IsSyllable(s[0]) ==> InRange(t) && Recompose(t) == s[0]
  {
    if |s| != 1 then Sentinel
    else
      var num := s[0] - SBase;
      Indices(FloorDiv(num, NCount), FloorDiv(Rem(num, NCount), TCount), Rem(num, TCount))
  }

  /** `convNameToNum`: one index triple per code unit of the name, in order. */
  function ConvNameToNum(name: JsString): (r: seq<Indices>)
    ensures |r| == |name|
    ensures forall i :: 0 <= i < |name| ==> r[i] == ConvKorToNum([name[i]])
    ensures forall i :: 0 <= i < |name| && IsSyllable(name[i]) ==>
              InRange(r[i]) && Recompose(r[i]) == name[i]
  {
    if |name| == 0 then []
    else seq(|name|, i requires 0 <= i < |name| => ConvKorToNum([name[i]]))
  }

  /** Composing in-range indices and decomposing the syllable gives the indices back. */
  lemma RecomposeRoundTrip(t: Indices)
    requires InRange(t)
    ensures IsSyllable(Recompose(t))
    ensures ConvKorToNum([Recompose(t)]) == t
  {
    var num := NCount * t.cho + TCount * t.jung + t.jong;
    var rest := TCount * t.jung + t.jong;
    assert 0 <= rest < NCount;
    assert num / NCount == t.cho && num % NCount == rest;
    assert rest / TCount == t.jung && rest % TCount == t.jong;
    assert num % TCount == t.jong by {
      assert num == TCount * (21 * t.cho + t.jung) + t.jong;
    }
  }

  /** Two syllables with the same decomposition are the same syllable. */
  lemma DecompositionInjective(c: int, d: int)
    requires IsSyllable(c) && IsSyllable(d)
    ensures ConvKorToNum([c]) == ConvKorToNum([d]) ==> c == d
  {
  }

  /**
   * The sentinel comes back exactly for inputs that are not one code unit,
   * and for the one unit U+ABFF, whose offset -1 floors to -1 in every part.
   */
  lemma SentinelExactly(s: JsString)
    ensures ConvKorToNum(s) == Sentinel <==> |s| != 1 || s[0] == SBase - 1
  {
    if |s| == 1 {
      var num := s[0] - SBase;
      var t := ConvKorToNum(s);
      if num >= 0 {
        assert t.cho >= 0;
      } else if t == Sentinel {
        assert -NCount <= num by {
          assert FloorDiv(num, NCount) == -1;
        }
        assert Rem(num, NCount) == num || num == -NCount;
        assert -TCount <= num;
        assert Rem(num, TCount) == num || num == -TCount;
      }
    }
  }

  /** A name of syllables never yields the sentinel for any of its characters. */
  lemma SyllablesNeverSentinel(name: JsString)
    requires forall i :: 0 <= i < |name| ==> IsSyllable(name[i])
    ensures forall i :: 0 <= i < |name| ==> ConvNameToNum(name)[i] != Sentinel
  {
  }
}
