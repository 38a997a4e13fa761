# Name compatibility score, modelled in Dafny

The page computes a "compatibility score" for two Hangul names. Each
syllable is split into initial consonant, vowel and final consonant by the
arithmetic of section 3.12 of the Unicode Standard ("Conjoining Jamo
Behavior"). Each part is weighed with a fixed stroke-count table, and the
three weights are summed per syllable. The two sequences of totals are
reduced to digits and interleaved. The result is then collapsed row by row,
by adding adjacent pairs mod 10, until two digits remain. Those two digits
are the score.

The model follows `src/App.tsx` in these modules:

- `JsNumber` (`js_number.dfy`): JavaScript strings as sequences of UTF-16
  code units, `undefined`/`NaN` as `None`, and JavaScript's truncating `%`
  and `Math.floor(a / b)` written out exactly.
- `Hangul` (`hangul.dfy`): `convKorToNum` and `convNameToNum`. The
  decomposition is proved to invert composition in both directions. It is
  modelled on every code unit, not only on syllables.
- `Strokes` (`strokes.dfy`): the three tables, `checkStroke` and `getStroke`.
  It proves when a syllable's total is defined and how large it can be.
- `Interleave` (`interleave.dfy`): `makeInterleaved` as a loop. The loop is
  proved equal to a recursive merge, whose positions, length and per-side
  order are proved as lemmas.
- `Pyramid` (`pyramid.dfy`): `norm`, the row-collapsing loops and the score
  of `buildCompatibilityDetail`, proved against the recursive ladder
  `Ladder`. It proves the shape of the ladder and that the score lies in
  [0, 99].
- `Validation` (`validation.dfy`): the checks `minLenOk`, `charsetOk`,
  `diffOk`, `canCompute` and the `startWithB` rule.
- `Compatibility` (`compatibility.dfy`): the decision the page's effect makes
  on every change. It relates the length of the interleaved sequence to the
  syllables whose totals are `NaN`.

Observations on the code that the model keeps as written:

- The decomposition uses 28 final slots (divisors 588 and 28). The final
  table has 27 entries, so a syllable with final index 27 (ㅎ, for example
  힣) has an undefined stroke total. `norm` then drops it, which shortens the
  interleaved sequence (`Strokes.SyllableStroke`,
  `Compatibility.NormStrokeLength`).
- Compare the final table with the initial-consonant table: compound finals
  weigh the sum of their parts. By that pattern, the entry for ㄻ (index 10)
  looks missing, and every later entry sits one slot early. Final ㅁ weighs 4
  while initial ㅁ weighs 3, so 김 totals 6 (`Strokes.KimStroke`). The model
  keeps the table exactly as written.
- `convKorToNum` returns `[-1, -1, -1]` for every input whose length is not
  1. It also returns it for the one code unit U+ABFF, whose offset −1 floors
  to −1 in all three parts (`Hangul.SentinelExactly`). The checks never let
  that unit reach scoring.

## Model

| member | source | states |
|---|---|---|
| `JsNumber.Rem` | src/App.tsx:254 | JavaScript `%`: the remainder has the dividend's sign, lies strictly within the divisor, and pairs with the quotient truncated toward zero |
| `JsNumber.FloorDiv` | src/App.tsx:254 | `Math.floor(a / b)` is the q with q·b ≤ a < q·b + b |
| `JsNumber.Abs` | src/App.tsx:31 | `Math.abs` is a non-negative value equal to a or −a |
| `JsNumber.Min` | src/App.tsx:241 | `Math.min` is one of its arguments and no larger than either |
| `Hangul.ConvKorToNum` | src/App.tsx:251-255 | any length other than 1 gives `[-1,-1,-1]`; for a syllable U+AC00..U+D7A3 the indices lie in [0,18], [0,20], [0,27] and 588·cho + 28·jung + jong equals the offset from U+AC00 |
| `Hangul.RecomposeRoundTrip` | src/App.tsx:251-255 | composing in-range indices gives a syllable, and decomposing it gives the same indices back |
| `Hangul.DecompositionInjective` | src/App.tsx:251-255 | two syllables with equal decompositions are equal |
| `Hangul.SentinelExactly` | src/App.tsx:251-255 | the sentinel is returned exactly when the length is not 1 or the unit is U+ABFF |
| `Hangul.ConvNameToNum` | src/App.tsx:246-249 | one triple per code unit, in order, with the empty name giving none; each syllable's triple is in range and recomposes to it |
| `Hangul.SyllablesNeverSentinel` | src/App.tsx:246-255 | a name of syllables has no sentinel triple |
| `Strokes.Table` | src/App.tsx:258-261 | the three tables have 19, 21 and 27 entries |
| `Strokes.CheckStroke` | src/App.tsx:257-263 | a lookup is defined exactly for indices inside the table, and then lies in the table's range (1..8, 1..5, 0..7) |
| `Strokes.StrokeTotal` | src/App.tsx:267-268 | a triple's total is defined exactly when cho < 19, jung < 21 and jong < 27, and then it is the sum of the three table entries and lies in [2, 20] |
| `Strokes.GetStroke` | src/App.tsx:265-270 | one total per code unit (none for the empty name), each the total of that unit's decomposition |
| `Strokes.SyllableStroke` | src/App.tsx:251-268 | for a syllable, the total is defined (and in [2, 20]) exactly when its final index is below 27, and `NaN` exactly when the offset is 27 mod 28 |
| `Strokes.SentinelHasNoStroke` | src/App.tsx:252-262 | the sentinel triple has no total |
| `Strokes.GetStrokeBounds` | src/App.tsx:257-270 | every defined entry of `getStroke` is in [2, 20] |
| `Strokes.LastSyllableHasNoStroke` | src/App.tsx:253-262 | 힣 splits into (18, 20, 27) and its total is `NaN` |
| `Strokes.KimStroke` | src/App.tsx:253-268 | 김 splits into (0, 20, 16) and totals 6 with the table as written |
| `Interleave.MergeAt` | src/App.tsx:171-181 | the merge is as long as both sides together; below twice the shorter length, position 2k holds first[k] and position 2k+1 holds second[k]; the rest of the longer side follows in order |
| `Interleave.MergeLength` | src/App.tsx:171-181 | the merge is as long as both sides together |
| `Interleave.MergePair` | src/App.tsx:176-178 | position k of both sides sits at positions 2k and 2k+1 of the merge |
| `Interleave.MergeRestOfFirst` | src/App.tsx:176-177 | past the end of the second side, the merge continues with the rest of the first |
| `Interleave.MergeRestOfSecond` | src/App.tsx:176-178 | past the end of the first side, the merge continues with the rest of the second |
| `Interleave.MergePrefixStep` | src/App.tsx:176-179 | one loop round appends position i of the primary side, then of the other, each when present |
| `Interleave.MergeKeepsEachSide` | src/App.tsx:171-181 | keeping only the elements from one side gives that side back, in order |
| `Interleave.MergeSnocBoth` | src/App.tsx:176-179 | a loop step that pushes from both sides appends the pair to the merge |
| `Interleave.MergeSnocFirst` | src/App.tsx:176-177 | a step that pushes only from the side that is at least as long appends that element |
| `Interleave.MergeSnocSecond` | src/App.tsx:176-178 | the same for the second side |
| `Interleave.MakeInterleaved` | src/App.tsx:171-181 | the loop's result is the merge with b first when `startWithB`, otherwise a first, and is as long as a and b together |
| `Interleave.MergeExamples` | src/App.tsx:171-181 | [1,2,3] with [4,5] merges to [1,4,2,5,3], and to [4,1,5,2,3] with the second side first |
| `Pyramid.KeptValues` | src/App.tsx:220 | the filter keeps non-negative values only, never more than the input has |
| `Pyramid.Norm` | src/App.tsx:220 | the result is never longer than the input, and every entry is a digit 0..9 |
| `Pyramid.NormAppend` | src/App.tsx:220 | `norm` of a concatenation is the concatenation of the `norm`s, so order is kept |
| `Pyramid.NormSingle` | src/App.tsx:220 | one entry is dropped when `NaN` or negative, otherwise kept as its value mod 10 |
| `Pyramid.NormAllKept` | src/App.tsx:220 | without `NaN` or negative entries nothing is dropped, and entry i becomes its value mod 10 |
| `Pyramid.KeptValuesAppend` | src/App.tsx:220 | the filter distributes over concatenation |
| `Pyramid.KeptValuesAll` | src/App.tsx:220 | when every entry passes, the filter keeps all of them in place |
| `Pyramid.NextRow` | src/App.tsx:232-234 | a collapsed row is one entry shorter |
| `Pyramid.NextRowDigits` | src/App.tsx:233 | collapsing a row of digits gives digits |
| `Pyramid.LadderShape` | src/App.tsx:226-238 | for length n ≥ 2: n − 1 rows, row 0 is the input, row k has length n − k, each row is the collapse of the one before, the last has length 2 |
| `Pyramid.LadderOfShort` | src/App.tsx:226-227 | fewer than two entries give no rows |
| `Pyramid.LadderDigits` | src/App.tsx:226-238 | every row of a digit sequence's ladder holds digits |
| `Pyramid.Score` | src/App.tsx:240-241 | no rows score 0 |
| `Pyramid.LadderScore` | src/App.tsx:240-241 | on a digit ladder, the score is 0 without rows and otherwise 10·last[0] + last[1] of a two-entry last row; it lies in [0, 99], so the cap at 100 never applies |
| `Pyramid.MergeDigits` | src/App.tsx:220-224 | interleaving digit sequences gives a digit sequence |
| `Pyramid.BuildCompatibilityDetail` | src/App.tsx:219-244 | a and b are the `norm`s of the inputs; interleaved is their merge in the chosen order, as long as a and b together; rows is the ladder, with length − 1 rows or none; the score is the ladder's score and lies in [0, 99] |
| `Pyramid.BuildRows` | src/App.tsx:226-238 | the while loop builds exactly the ladder: length − 1 rows or none, row k of length n − k |
| `Pyramid.CollapseRow` | src/App.tsx:231-234 | the inner loop builds exactly the collapse of the row |
| `Pyramid.WorkedExample` | src/App.tsx:226-241 | [1,4,2,5,3] gives rows [5,6,7,8], [1,3,5], [4,8] and scores 48 |
| `Validation.CanComputeIff` | src/App.tsx:27-32 | scoring runs exactly when both names have at least 2 code units, all in U+AC00..U+D7A3, and their lengths differ by at most 1 |
| `Validation.StartWithBRule` | src/App.tsx:37 | when scoring runs, the second name goes first exactly when it is one unit longer; equal lengths start with the first name |
| `Validation.RejectedExamples` | src/App.tsx:27-32 | one-syllable names, digits, and lengths two apart are rejected; 2 against 3 passes |
| `Compatibility.Evaluate` | src/App.tsx:35-45 | the detail exists exactly when the checks pass, and otherwise the score is 0; the detail is built from both names' stroke totals with the longer second name first; its interleaved length is the syllable count minus the syllables with final index 27; the score lies in [0, 99] |
| `Compatibility.NormStrokeLength` | src/App.tsx:220-221 | for a name of syllables, `norm(getStroke(name))` has one digit per syllable, minus those with final index 27 |
| `Compatibility.RowCount` | src/App.tsx:224-238 | when the checks pass and no syllable has final index 27, names of lengths m and n give m + n − 1 rows, the last of two digits |

## Left out

- The React component is not modelled: state hooks, the effect's scheduling, event handlers, hints and JSX (src/App.tsx:13-168). Only the decision the effect makes (lines 35-45) is modelled, as `Compatibility.Evaluate`.
- The display interleaving of the names' characters (lines 47-53) is not modelled as a separate call. It uses the same generic `makeInterleaved`, which is modelled.
- Pyramid layout arithmetic (`DOT`, `GAP`, widths, indent) is not modelled. It is pixel presentation and uses fractional division.
- `debugLogDecomposition` is not modelled. It only writes to the console.
- `normalizeName`'s `trim` is not modelled, because it depends on JavaScript's Unicode whitespace set. Names are taken as already trimmed.
- The regular-expression engine is not modelled. `/^[가-힣]+$/` has no `u` flag, so it is modelled as "one or more code units, each in U+AC00..U+D7A3".
- `Interleave.MakeInterleaved`: the source's test `first[i] !== undefined` (lines 177-178) also skips elements whose value is `undefined`; the model pushes every element within the lengths. No caller passes such an element: `norm` returns numbers and `split('')` returns characters.
- Floating point is not modelled: all values here are integers. `undefined` and `NaN` are both `None`, and the model does not distinguish them.
- `Strokes.CheckStroke`: requires a position below 3. `stroke[position]` would be `undefined` for a larger position, and the following index would throw. Both callers, the reduce in `getStroke` (line 268) and `debugLogDecomposition` (lines 190-192), pass positions 0, 1 and 2.
