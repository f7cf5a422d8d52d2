# Workout text parser — Dafny model

The "write workout" page of this swimming app (`src/app/write-workout/page.tsx`)
lets a coach type a workout as free text. On every edit it recomputes a
summary:

- the total distance;
- the distance per stroke (freestyle, backstroke, breaststroke, butterfly,
  individual medley, choice);
- the distance per intensity label (`HR 165`, `Easy`, `Grey`, ...).

This project models that engine and proves properties of it:

- **Classifiers** (`classifiers.dfy`): `getStroke`, `getStrokeType` and
  `getIntensity` test keywords in a fixed priority order on the lower-cased
  text. `getIntensity` takes the selected colour system (Polar or
  international) as a parameter. `getIntensityDisplayName` gives the label
  under which an intensity's distance is summed.
- **Distances** (`distances.dfy`): the three repeat patterns built on one head
  `^(\d+)\s*[x×*]\s*`. `parseLine` and `parseBracketContent` split text into
  parts and sum the parts `N×M` and `N`. Both are methods with the source's
  loop, proved to compute the functions `SetDistance` and `GroupDistance`,
  whose properties are proved separately.
- **Summary** (`summary.dfy`): the `WorkoutSummary` record and the update that
  both scoring sites make.
- **Scanner** (`scanner.dfy`): the line loop of `updateWorkoutSummary`.
  - It is a state machine over four variables: the pending repeat count, the
    group text, the bracket count and the "collecting a group" flag.
  - It scores plain lines and closed bracket groups.
  - `UpdateWorkoutSummary` runs the loop and is proved equal to `ParseWorkout`.
    `ParseWorkout` is the fold of `ScanLine` over the lines, followed by
    `Aggregate`.
- **Text** (`text.dfy`): the JavaScript string operations the engine relies
  on: `toLowerCase`, `trim`, `includes`, `split('\n')`, `split(/[+\s]+/)`,
  `parseInt` and template strings.
- **IntensityCases** (`intensity_cases.dfy`): worked instances of
  `getIntensity`.

Behaviour of the code that the model keeps, and that the lemmas make explicit:

- The line that opens a bracket group is never tested for balance.
  - Both opening branches end in `continue` (page.tsx:299 and 309) before
    the balance test at page.tsx:322 is reached.
  - So a group opened and closed on one line, such as `(100 fly + 100 free)`
    or `4x (100 fly + 100 free)`, stays open.
  - A reader might expect `4x (100 fly + 100 free)` to give 800. As the last
    line of a text it gives 0, because the group is dropped
    (`TrailingGroupIsDropped`).
  - Otherwise the open group takes in the next non-blank line
    (`OneLineGroupAbsorbsNextLine`).
- A closed group is scored as one unit, with one stroke and one intensity
  for the whole group text (page.tsx:332 and 338). `(100 fly + 100 free)` is
  all freestyle, because `fr` is tested first.
- The pending repeat count is reset to 1 only in two places:
  - after a plain line with a positive distance, because the reset at
    page.tsx:372 sits inside `if (parsed.distance > 0)`;
  - when a group closes (page.tsx:348).
  A plain line worth nothing, such as `Main Set:`, keeps the count.
- The heart-rate patterns are not global, so only their leftmost match is
  read.
  - A three-digit rate that is not in the list, such as `hr250`, falls back
    to the two-digit match at the same place: `HR 25`.
  - A listed rate later in the text is never seen, so `hr250 hr165` is
    `HR 25`.

## Model

| member | source | states |
|---|---|---|
| Text.Lower | src/app/write-workout/page.tsx:65 | lower-casing keeps the length and maps each character to its lower-case letter (ASCII) |
| Text.Trim | src/app/write-workout/page.tsx:274 | `trim` leaves the slice of the line between its leading and trailing white space, and that slice neither starts nor ends with white space |
| Text.SplitLines | src/app/write-workout/page.tsx:252 | `split('\n')` yields at least one line, and no line holds a newline |
| Text.JoinSplitLines | src/app/write-workout/page.tsx:252 | splitting into lines loses nothing: joining the lines with newlines gives the text back |
| Text.SplitJoinLines | src/app/write-workout/page.tsx:252 | splitting a newline-join of newline-free lines gives exactly those lines back |
| Text.Tokens | src/app/write-workout/page.tsx:158 | the parts of a text are non-empty and hold no white space and no `+` |
| Text.TokensTrim | src/app/write-workout/page.tsx:188-192 | trimming a line before splitting it never changes its parts |
| Text.TokensSplitAt | src/app/write-workout/page.tsx:192 | the parts of two texts joined by a separator are the parts of the first followed by those of the second |
| Text.TokensJoinParts | src/app/write-workout/page.tsx:158 | splitting a space-join of non-empty separator-free parts gives the parts back |
| Text.Contains | src/app/write-workout/page.tsx:66 | `includes`: the word occurs at some position of the text; a predicate whose contract is its body |
| Text.NatToDecimal | src/app/write-workout/page.tsx:233 | the template string of a number is a digit string with no leading zero, and `parseInt` reads the number back from it |
| Text.DigitsValue | src/app/write-workout/page.tsx:91 | `parseInt` of a digit string, read most significant digit first; its contract is its body, and `NatToDecimal` states its meaning: it reads back every number from the digits `${n}` prints |
| Classifiers.GetStroke | src/app/write-workout/page.tsx:64-73 | `getStroke`, branch for branch; its contract is its body, and `GetStrokeIsFirstHit` and `StrokeLongKeywordsRedundant` state its meaning |
| Classifiers.GetStrokeType | src/app/write-workout/page.tsx:76-82 | `getStrokeType`, branch for branch; its contract is its body, and `GetStrokeTypeIsFirstHit` states its meaning |
| Classifiers.FirstHit | src/app/write-workout/page.tsx:64-82 | a first-match keyword test returns the first row hit, and no earlier row is hit; with no row hit, no keyword of any row occurs |
| Classifiers.GetStrokeIsFirstHit | src/app/write-workout/page.tsx:64-73 | `getStroke` is the stroke of the first row of its keyword table that the lower-cased text hits, freestyle when none is hit |
| Classifiers.StrokeLongKeywordsRedundant | src/app/write-workout/page.tsx:66-71 | `free`, `breast`, `fly`, `butterfly` and `choice` never decide the stroke: dropping them gives the same result for every text |
| Classifiers.GetStrokeTypeIsFirstHit | src/app/write-workout/page.tsx:76-82 | `getStrokeType` is the first-hit type of its table, and equals the test on `dr`, then `k`, then `scull` alone |
| Classifiers.LeftmostHr | src/app/write-workout/page.tsx:89-98 | the match of `/hr(\d{n})/i` is the leftmost position where `hr` and `n` digits occur, and there is none exactly when no position has them |
| Classifiers.FirstWord | src/app/write-workout/page.tsx:107-126 | the word chosen is the first of its list that the text contains, and none when the text contains no word of the list |
| Classifiers.GetIntensity | src/app/write-workout/page.tsx:85-130 | the intensity found belongs to the selected system (listed rates, 24 to 30, standard words, that system's colours), and a word intensity's word occurs in the text; `GetIntensityRules` states which rule gives each result |
| Classifiers.GetIntensityRules | src/app/write-workout/page.tsx:89-129 | the five rules in order: a heart rate comes from the leftmost three-digit `hr` match when it is listed; a rate by ten from the leftmost two-digit match when the first rule did not fire; a word from the first standard word, and a colour from the first colour of the system, only when neither heart-rate rule fired; and null exactly when no rule fires |
| Classifiers.HrThreeDigitFallback | src/app/write-workout/page.tsx:89-104 | whenever `hr` with three digits matches, `hr` with two digits matches at or before it; at the same position its value is the first two digits |
| Classifiers.DisplayName | src/app/write-workout/page.tsx:228-244 | an intensity has a display name exactly when it is not null |
| Classifiers.Capitalize | src/app/write-workout/page.tsx:237 | `charAt(0).toUpperCase() + slice(1)`; its contract is its body, and `CapitalizedWord` and `WordNameRoundTrip` state that it loses nothing |
| Classifiers.DisplayNameRoundTrip | src/app/write-workout/page.tsx:228-244 | every intensity of a system is read back from its display name, so two intensities never share a summary label |
| Classifiers.HeartRateNameRoundTrip | src/app/write-workout/page.tsx:232-235 | `HR <value>` reads back as the heart rate or the rate by ten it names |
| Classifiers.WordNameRoundTrip | src/app/write-workout/page.tsx:236-240 | a capitalised word of the vocabulary reads back as the standard word or the colour of the selected system |
| Classifiers.CapitalizedWord | src/app/write-workout/page.tsx:237 | capitalising a vocabulary word is undone by lower-casing, and never gives a label starting `HR ` |
| IntensityCases.Hr250 | src/app/write-workout/page.tsx:89-104 | `hr250` is not a listed rate, so the intensity is the rate by ten 25, under either system |
| IntensityCases.Hr250First | src/app/write-workout/page.tsx:89-102 | whatever follows `hr250`, the intensity is the rate by ten 25, because only the leftmost three-digit match is read |
| IntensityCases.Hr250BeforeHr165 | src/app/write-workout/page.tsx:89-102 | `hr250 hr165` is the rate by ten 25, never the listed heart rate 165 |
| IntensityCases.GreyUnderPolar | src/app/write-workout/page.tsx:113-114 | with the Polar system `grey` is the grey Polar zone |
| IntensityCases.GreyUnderInternational | src/app/write-workout/page.tsx:119-129 | with the international system `grey` yields no intensity |
| Distances.MatchRepeatHead | src/app/write-workout/page.tsx:282 | the leading `(\d+)\s*[x×*]\s*` that the repeat patterns at lines 203, 282 and 290 share; its contract is its body, and `MatchRepeatHeadSound` and `RepeatHeadComplete` state its meaning |
| Distances.IsNumeral | src/app/write-workout/page.tsx:211 | `/^\d+$/`: a non-empty text of digits only; a predicate whose contract is its body, used by `NumeralPartDistance` and `DigitFreePartDistance` |
| Distances.MatchRepeatHeadSound | src/app/write-workout/page.tsx:282 | what the repeat-head matcher finds is digits, white space, an operator `x`, `×` or `*`, and white space, and cannot be extended |
| Distances.RepeatHeadComplete | src/app/write-workout/page.tsx:290 | every maximal repeat head at the start of a text is the one the matcher finds: the match is unique |
| Distances.StandaloneMultiplier | src/app/write-workout/page.tsx:282 | a line matching `^(\d+)\s*[x×*]\s*$` yields the value of its digits |
| Distances.StandaloneMultiplierComplete | src/app/write-workout/page.tsx:282-284 | every line of that shape is recognised, with the value of its digits |
| Distances.MultiplierBracket | src/app/write-workout/page.tsx:290-295 | a line matching `^(\d+)\s*[x×*]\s*[\(\[\{]` yields the count and the index of the opening bracket that ends the match |
| Distances.MultiplierBracketComplete | src/app/write-workout/page.tsx:290-292 | every line of that shape is recognised, with its count and its bracket index |
| Distances.ProductOperands | src/app/write-workout/page.tsx:203-204 | a part matching `^\d+\s*[x×*]\s*\d+$` yields two non-empty numerals: the digits before the operator and those after it |
| Distances.ProductOperandsComplete | src/app/write-workout/page.tsx:203 | every part of that shape is recognised, with its two numerals |
| Distances.ProductPartDistance | src/app/write-workout/page.tsx:203-206 | a part `a×b` (any of the three operators) is worth a times b |
| Distances.NumeralPartDistance | src/app/write-workout/page.tsx:211-212 | a numeral part is worth its value |
| Distances.DigitFreePartDistance | src/app/write-workout/page.tsx:214-215 | a part without a digit is worth nothing |
| Distances.RemoveBrackets | src/app/write-workout/page.tsx:143-144 | the cleaned group text holds no bracket of either kind and is no longer than the original |
| Distances.NewlinesToSpaces | src/app/write-workout/page.tsx:145 | every newline becomes a space and every other character is kept in place |
| Distances.PartDistance | src/app/write-workout/page.tsx:203-216 | what one part adds: `a×b` for a product part, its value for a numeral, else 0; its contract is its body, and `ProductPartDistance`, `NumeralPartDistance` and `DigitFreePartDistance` state each case |
| Distances.SetDistance | src/app/write-workout/page.tsx:188-217 | the sum over the parts of the lower-cased text; its contract is its body, and `SetDistanceSplit` and `DigitFreeSetDistance` state its meaning |
| Distances.GroupDistance | src/app/write-workout/page.tsx:142-180 | the distance of the group text with its brackets deleted; its contract is its body, and `DigitFreeGroupDistance` and `GroupDistanceWithoutBrackets` state its meaning |
| Distances.RemoveBracketsChar | src/app/write-workout/page.tsx:143-144 | a single character is deleted when it is a bracket and kept otherwise |
| Distances.RemoveBracketsAppend | src/app/write-workout/page.tsx:143-144 | deleting brackets from a concatenation concatenates the results, so every other character is kept, in order |
| Distances.ParseLine | src/app/write-workout/page.tsx:187-225 | the distance is the sum over the parts of the line; an empty line gives 0, freestyle, normal, no intensity; otherwise the stroke, type and intensity are those of the lower-cased trimmed line |
| Distances.ParseBracketContent | src/app/write-workout/page.tsx:139-184 | the distance of a group is the sum over the parts of its text with the brackets deleted |
| Distances.BracketTextParts | src/app/write-workout/page.tsx:142-158 | turning newlines into spaces and trimming leave the parts of the group text unchanged |
| Distances.SetDistanceSplit | src/app/write-workout/page.tsx:192-217 | the distance is additive: two texts joined by white space or `+` are worth the sum of their distances |
| Distances.DigitFreeSetDistance | src/app/write-workout/page.tsx:187-217 | a line without digits has distance 0 |
| Distances.DigitFreeGroupDistance | src/app/write-workout/page.tsx:139-184 | a group without digits has distance 0 |
| Distances.GroupDistanceWithoutBrackets | src/app/write-workout/page.tsx:142-144 | on text without brackets, the group parser and the line parser agree on the distance |
| Summary.StrokeDistances.Add | src/app/write-workout/page.tsx:333-335 | adding to one stroke grows that counter by the amount, leaves the other five unchanged and grows their sum by the amount |
| Summary.Lookup | src/app/write-workout/page.tsx:342 | `intensityDistances[name] \|\| 0`: the value under a label, 0 when the label is absent; its contract is its body, and `AddTo` states how a scoring changes it |
| Summary.EmptySummary | src/app/write-workout/page.tsx:254-265 | the zeroed summary every parse starts from: total 0, six stroke counters at 0, no labels; a constant, and `AggregateConsistent` and `DigitFreeTextIsEmpty` state what follows from it |
| Summary.AddTo | src/app/write-workout/page.tsx:340-344 | adding to a label grows it by the amount, or appends it with the amount when new; other labels keep their value; the values' sum grows by the amount; labels stay unique |
| Summary.Recorded | src/app/write-workout/page.tsx:327-344 | the summary after one scoring: the amount added to the total, to the stroke's counter and to the label when there is one; its contract is its body, and `RecordedConsistent` states the invariant it keeps |
| Summary.AddUnit | src/app/write-workout/page.tsx:326-344 | scores a unit at distance times repeat count, under the stroke and label of its text; its contract is its body |
| Summary.Aggregate | src/app/write-workout/page.tsx:254-371 | the summary of a sequence of units, added in order to the zeroed summary; its contract is its body, and `AggregateConsistent`, `AggregateTotal` and `AggregateLabelsFromUnits` state its meaning |
| Summary.RecordedConsistent | src/app/write-workout/page.tsx:326-344 | scoring a unit keeps the summary's invariant: total equal to the sum of the stroke counters, labels summing to at most the total, no label repeated |
| Summary.Record | src/app/write-workout/page.tsx:359-371 | the in-place update adds the amount to the total, to the stroke's counter and to the intensity label when there is one |
| Summary.AggregateConsistent | src/app/write-workout/page.tsx:254-371 | every summary built from the zeroed summary keeps the invariant |
| Summary.AggregateTotal | src/app/write-workout/page.tsx:327-361 | the total is the sum over the scored units of distance times repeat count |
| Summary.AggregateLabelsFromUnits | src/app/write-workout/page.tsx:338-371 | every intensity label in a summary is the display name of one of the scored units |
| Scanner.InitialState | src/app/write-workout/page.tsx:267-270 | the scan starts with pending count 1, empty group text, bracket count 0 and no group open; a constant, and `ScanCountIsBalance` and `MultiplierChangesOnlyOnEvents` state what the scan keeps from it |
| Scanner.OpenCount | src/app/write-workout/page.tsx:296 | the number of `(`, `[` and `{`, as the length of the global match; its contract is its body |
| Scanner.CloseCount | src/app/write-workout/page.tsx:296 | the number of `)`, `]` and `}`; its contract is its body |
| Scanner.Balance | src/app/write-workout/page.tsx:306 | opening minus closing brackets; its contract is its body, and `BalanceJoin` and `ScanCountIsBalance` state its meaning |
| Scanner.BalanceJoin | src/app/write-workout/page.tsx:314-317 | the balance of two texts joined by a newline is the sum of their balances, so adding each line's count keeps the balance of the joined group |
| Scanner.ScanLine | src/app/write-workout/page.tsx:274-373 | one turn of the loop: a blank line changes nothing; otherwise the line is read inside or outside a group; its contract is its body |
| Scanner.OutsideLine | src/app/write-workout/page.tsx:281-310 | a non-blank line outside a group: standalone count, count with bracket, bracket start, else plain line, in that order; its contract is its body |
| Scanner.PlainLine | src/app/write-workout/page.tsx:354-373 | a plain line is scored, and the count reset, only when its distance is positive; its contract is its body |
| Scanner.GroupLine | src/app/write-workout/page.tsx:313-351 | a line inside a group is appended and its balance added; at count 0 the group is scored when positive and left; its contract is its body |
| Scanner.ParseWorkout | src/app/write-workout/page.tsx:247-374 | the summary of a text: the units the scan of its lines scores, aggregated; its contract is its body, and `UpdateWorkoutSummary`, `ParseWorkoutConsistent` and the scan lemmas state its meaning |
| Scanner.Scan | src/app/write-workout/page.tsx:273-374 | every unit the scan scores has a positive distance |
| Scanner.ParseWorkoutConsistent | src/app/write-workout/page.tsx:247-374 | the summary of every text keeps the summary's invariant |
| Scanner.UpdateWorkoutSummary | src/app/write-workout/page.tsx:247-374 | the loop over the lines computes the summary of the text, and that summary keeps the invariant |
| Scanner.ReadOutsideLine | src/app/write-workout/page.tsx:281-310 | a line outside a group sets the repeat count, opens a group, or is scored as a plain line, in the order of the source |
| Scanner.ReadPlainLine | src/app/write-workout/page.tsx:354-373 | a plain line is scored at distance times the pending count when its distance is positive, which resets the count; otherwise nothing changes |
| Scanner.ReadGroupLine | src/app/write-workout/page.tsx:312-352 | a line inside a group is appended; once the bracket count is 0 the group is scored when positive, and the scan leaves it with the count reset |
| Scanner.HeadingLineKeepsState | src/app/write-workout/page.tsx:282-373 | outside a group, a line without digits that does not open a group changes nothing |
| Scanner.RepeatCountLine | src/app/write-workout/page.tsx:282-287 | outside a group, a line `N x` sets the pending count to N and scores nothing |
| Scanner.RepeatCountGroupLine | src/app/write-workout/page.tsx:290-300 | outside a group, `N x (...` opens a group from the bracket on, with count N and that text's own balance |
| Scanner.BracketLineOpensGroup | src/app/write-workout/page.tsx:303-310 | outside a group, a line starting with a bracket opens a group holding the whole line and keeps the pending count |
| Scanner.OneLineGroupAbsorbsNextLine | src/app/write-workout/page.tsx:303-350 | a group balanced on its opening line stays open and takes in the next line; it is scored only if that line is balanced, at the count pending before the group |
| Scanner.GroupOpeningScoresNothing | src/app/write-workout/page.tsx:290-310 | outside a group, a line opening a group scores nothing and leaves the group open, even when it closes on that line |
| Scanner.TrailingGroupIsDropped | src/app/write-workout/page.tsx:290-310 | a group opened on the last line adds nothing to the summary, so `4x (100 fly + 100 free)` at the end of a text is dropped |
| Scanner.OpenGroupScoresNothing | src/app/write-workout/page.tsx:313-352 | while a group stays open, the lines read score nothing, so a group never closed adds nothing |
| Scanner.CountIsBalance | src/app/write-workout/page.tsx:296-317 | one line keeps this fact: while a group is open, the running bracket count equals the balance of the group text |
| Scanner.ScanCountIsBalance | src/app/write-workout/page.tsx:267-352 | after any prefix of the text, an open group's running count is the balance of the text collected, so the count kept line by line never drifts from a full recount |
| Scanner.MultiplierChangesOnlyOnEvents | src/app/write-workout/page.tsx:267-372 | the pending count changes only on a repeat line outside a group, on a scored line, or when a group closes |
| Scanner.ScanLineDigitFree | src/app/write-workout/page.tsx:274-373 | a line without digits scores nothing and keeps the group text digit-free |
| Scanner.ScanDigitFree | src/app/write-workout/page.tsx:273-374 | scanning lines without digits scores nothing |
| Scanner.DigitFreeTextIsEmpty | src/app/write-workout/page.tsx:247-374 | a text without digits has the zeroed summary, whatever its words and brackets |
| Scanner.ParseWorkoutLabels | src/app/write-workout/page.tsx:338-371 | every intensity label of a summary comes from a scored unit with a positive distance whose text has that intensity |

## Left out

- The React page is not modelled: rendering, state hooks (`useState`,
  `setWorkoutSummary`, `setParseError`), `console.log` output, and the
  `try`/`catch` around the loop. The loop cannot throw on any input the model
  accepts. The selected colour system is a parameter rather than page state.
- `parseDistance` (lines 133-136) is defined but never called, so it is not
  modelled.
- The stroke type of a line is computed by `parseLine` but never added to the
  summary. The model computes it and does not aggregate it either.
- Text.Lower: `toLowerCase` is modelled on ASCII letters only, and this
  changes results.
  - Some non-ASCII characters lower-case to ASCII letters in JavaScript. For
    example, U+212A KELVIN SIGN lower-cases to `k`, and U+0130 lower-cases to
    `i` followed by a combining dot.
  - So `100 b\u212A` is backstroke in the source and freestyle in the model.
  - `pin\u212A` is the international colour pink in the source and no
    intensity in the model.
- `parseInt` and the products are exact on unbounded naturals. JavaScript
  numbers lose precision above 2^53. Rounding and `NaN` are not modelled.
- In the bracket-and-repeat line, the source takes the bracket position from
  `indexOf` of the matched prefix. The prefix is anchored at the start, so the
  first occurrence is at 0; the model uses the bracket index directly.
- JavaScript's `split(/[+\s]+/)` can yield an empty first or last part. Both
  callers discard empty parts (`continue` in `parseLine`, `filter` in
  `parseBracketContent`), so `Tokens` never produces them.
- Stroke names are a datatype. Because every stroke `getStroke` returns is a
  key of `strokeDistances`, the test `stroke in newSummary.strokeDistances` is
  always true and is not modelled.
- The summary is a value that the loop reassigns; in the source it is one
  object mutated in place. `intensityDistances` is an ordered list of pairs
  with unique labels, standing for the object's keys in insertion order.
- The loop body is split into the methods `ReadOutsideLine`, `ReadPlainLine`,
  `ReadGroupLine` and `Summary.Record`. They keep the branches and their order
  from the source.
- The page's placeholder workout (lines 511-519) is not stated as a lemma
  about its literal text. Its outcome follows from the general lemmas: 2600
  in all, 2000 freestyle, 400 backstroke and 200 choice.
  - `Scanner.HeadingLineKeepsState` covers the heading lines.
  - `Distances.ProductPartDistance` covers the `4x100` and `4x50` parts.
  - `Scanner.RepeatCountGroupLine` and `Scanner.ReadGroupLine` cover the last
    two lines. `4x (100 fly + 100 free)` opens a group that
    `2x[100 breast]` closes. The whole group is worth 400, times 4, all
    freestyle.
