# Emoji mirror: expression classifier

A Dafny model of the logic of the emoji-mirror web page: a face-landmark
model reports, for each detected face, a list of blendshape categories
(`{categoryName, score}`); the page turns the first face's list into a
name-to-score map (`blendMap`) and classifies that map into one of five
expression labels, each shown as an emoji glyph (`pickEmoji`).

- `Tables` (`tables.dfy`): the label type, the glyph table `EMOJI_SET`, the
  threshold table `EMOTION_THRESHOLDS`, the neutral baseline 0.15 and the
  order smile, surprise, frown, cheeky in which candidates are considered.
- `Normalizer` (`normalizer.dfy`): `blendMap` as a method with a loop that
  writes entries into a map in list order, proved equal to `LastWrites`, a
  declarative map in which each name holds the score of its last occurrence.
- `Classifier` (`classifier.dfy`): the accessor `get` (missing key reads 0),
  the four score formulas, and `pickEmoji` as a method whose loop updates
  `best` and `bestScore`. Its result is proved to be the best label in the
  sense of `IsBest`: neutral exactly when no candidate clears its own
  threshold, otherwise a qualifying candidate with the largest score, the
  earliest one winning an exact tie.
- `RenderLoop` (`render_loop.dfy`): the data flow of one cycle of `loop`:
  first face, then `blendMap`, then `pickEmoji`, then draw; stopping when
  `running` is false.
- `Wrappers` (`wrappers.dfy`): an `Option` type standing for JavaScript's
  optional values (`?.` and `??`).

Scores are modelled as `real`. In app.js:29-33 the glyphs are stored
garbled: their UTF-8 bytes were read as Windows-1252 and saved again. The
model decodes them back to the emoji with code points U+1F642 (smile),
U+1F62E (surprise), U+1F621 (frown) and U+1F61C (cheeky). The neutral entry
at app.js:29 keeps only three of its four bytes (F0 9F 98), because the
fourth has no Windows-1252 character. Its code point U+1F610 is therefore
inferred, not read from the file. No proved property depends on the exact
code points; they rest only on the five glyphs being distinct. `pickEmoji` returns early
only when the map is absent (app.js:50). An empty map is an object, so it is
not absent and goes through the formulas. Every formula then reads 0, and
the result is neutral anyway (`EmptyMapIsNeutral`).

## Model

| member | source | states |
|---|---|---|
| `Tables.Glyph` | app.js:28-34 | every label, neutral included, has an entry in the glyph table, and the glyph is one of the table's values |
| `Tables.Threshold` | app.js:35-40 | every non-neutral label has a threshold entry, and every threshold is strictly above the 0.15 baseline |
| `Tables.LabelOf` | app.js:28-34 | a string is read back as a label exactly when it is one of the five glyphs, and that label's glyph is the string |
| `Tables.GlyphRoundTrip` | app.js:28-34 | the glyph table is one-to-one: reading a label's glyph back gives that label |
| `Tables.TablesComplete` | app.js:28-40 | the glyph table has exactly the five labels with five distinct glyphs; the threshold table has exactly the four candidates |
| `Tables.Rank` | app.js:53-59 | each candidate's position in the order smile, surprise, frown, cheeky in which the object literal lists them and the loop visits them |
| `Normalizer.Entries` | app.js:45 | an absent result or an absent `categories` list gives no entries; otherwise the list itself |
| `Normalizer.LastIndex` | app.js:45 | the index of the last entry with a given name, or -1 exactly when the name does not occur |
| `Normalizer.LastWrites` | app.js:44-46 | the keys of the normalized map are exactly the names that occur in the list |
| `Normalizer.NamesAppend` | app.js:45 | the names after one more entry are the old names plus that entry's name |
| `Normalizer.LastIndexAppend` | app.js:45 | after one more entry, its name's last occurrence is the new entry; every other name's is unchanged |
| `Normalizer.LastWritesAppend` | app.js:45 | writing one more entry sets its name to its score and leaves every other name as it was |
| `Normalizer.LastWritesAt` | app.js:45 | an entry not followed by another of the same name is present in the map with its own score (last write wins) |
| `Normalizer.BlendMap` | app.js:43-47 | the loop builds exactly the last-write map of the entries, and the empty map when the result or its list is absent |
| `Classifier.Get` | app.js:51 | a present key reads its stored score unchanged (no clamping); a missing key reads 0 |
| `Classifier.Max` | app.js:54 | `Math.max` returns one of its two arguments, and it is at least as large as both |
| `Classifier.ExpressionScores` | app.js:53-59 | the four candidate formulas; it has no contract of its own, and its facts are stated by `ClassifyReadsOnlyFormulaKeys` and `EmptyMapIsNeutral` |
| `Classifier.Consider` | app.js:64-68 | one loop step: the running best changes only to the candidate with its own score, and only when that score is strictly above both its threshold and the running best; the best score never drops |
| `Classifier.SelectUpTo` | app.js:61-69 | the running best after a prefix of the order: neutral at the 0.15 baseline, or a qualifying candidate of that prefix carrying its own score, never below the baseline |
| `Classifier.Classify` | app.js:61-69 | the final label is neutral or a candidate whose score is strictly above its own threshold |
| `Classifier.Emotion` | app.js:49-70 | an absent map gives neutral; a non-neutral label clears its own threshold on the map's scores |
| `Classifier.SelectUpToIsBest` | app.js:61-69 | after each prefix of the candidate order, the running best is the best label among that prefix, and `bestScore` is its score (0.15 for neutral) |
| `Classifier.ClassifyIsBest` | app.js:61-70 | the selection ends with the best label: the argmax of the qualifying candidates, with ties going to the earlier one |
| `Classifier.BestUnique` | app.js:61-69 | at most one label is best, so the best-label property fixes the result |
| `Classifier.NeutralIffNoneQualifies` | app.js:61-69 | the result is neutral if and only if no candidate's score is strictly above its own threshold |
| `Classifier.NonNeutralClearsBars` | app.js:62-65 | a non-neutral result has a score strictly above its own threshold and strictly above 0.15 |
| `Classifier.EmptyMapIsNeutral` | app.js:51-62 | on the empty map every candidate score is 0 and the label is neutral |
| `Classifier.ClassifyReadsOnlyFormulaKeys` | app.js:51-59 | two maps that read the same on the nine blendshape names get the same label; no other key matters |
| `Classifier.UnclampedSmile` | app.js:51-54 | a smile score above 0.25, however large, gives the smile label: scores are not clamped |
| `Classifier.EarlierWinsTie` | app.js:63-68 | of two qualifying candidates with exactly equal scores, the later one in the order is never the result |
| `Classifier.StrictMaximumWins` | app.js:63-68 | a qualifying candidate whose score is strictly above every other qualifying candidate's is the result |
| `Classifier.SmileBeatsEqualFrown` | app.js:53-68 | a left smile and a left frown both at 0.3 give smile |
| `Classifier.JawAndPuckerIsSurprise` | app.js:55-65 | a jaw opening of 0.3 and a pucker of 0.1 give surprise |
| `Classifier.SmallCheekyIsNeutral` | app.js:57-65 | a cheek puff of 0.1 and a tongue-out of 0.1 give neutral, since 0.2 is not above 0.22 |
| `Classifier.PickEmoji` | app.js:49-71 | the result is always one of the five glyphs; an absent map gives neutral; otherwise the result's label is the best label of the map's candidate scores |
| `RenderLoop.FirstFace` | app.js:166 | the first face's result when there is at least one face, and absent otherwise |
| `RenderLoop.FaceEmotion` | app.js:166-167 | the label for one face's result after normalizing and classifying; a non-neutral label clears its own threshold on the normalized map |
| `RenderLoop.NoCategoriesIsNeutral` | app.js:166-167 | a frame with no first face, or whose first face has no categories, shows neutral |
| `RenderLoop.OnlyFirstFaceMatters` | app.js:166 | faces after the first do not change the label shown |
| `RenderLoop.Loop` | app.js:156-171 | a cycle does nothing and schedules nothing when not running; when a video and a landmarker exist and detection throws, it draws no glyph, propagates the exception and schedules nothing; otherwise it draws the first face's glyph exactly when a video and a landmarker exist, and schedules the next cycle |

## Left out

- Model and camera setup (`setupModel`, `setupCamera`): asynchronous calls into the vendored face-landmark library and the browser's media API.
- Scheduling in `loop`: `requestAnimationFrame`, `performance.now` and `detectForVideo` are host and library calls. `RenderLoop.Loop` takes `running`, whether a video and a landmarker exist, and the outcome of the frame's detection call as parameters. That outcome is a result or a thrown exception.
- What happens to an exception that `detectForVideo` throws after the cycle ends is not modelled. Outside the start handler it goes uncaught. On the first cycle, which the start handler calls inside its `try`, it reaches the handler's `catch` (app.js:184-187), which shows the failure alert and re-enables the start button while `running` stays true. The model records only that the cycle threw.
- The module-level `video`, `landmarker` and `running` variables are not modelled as state. `RenderLoop.Loop` receives them as parameters.
- Canvas sizing and drawing (`resizeCanvasToContainer`, `drawVideoContained`, `drawEmoji`): DOM and floating-point presentation geometry. Drawing is modelled only as the glyph a cycle hands to the canvas.
- The start and fullscreen button handlers and the resize and fullscreen listeners: DOM events, alerts and the fullscreen API.
- The boot fingerprint log line and `nowMs`: console output and the clock.
- IEEE-754 doubles: scores are exact reals, so results that depend on rounding at a threshold boundary are not captured. `NaN` scores are not modelled either.
- JavaScript object quirks in `blendMap`: a category named `__proto__` is dropped by a plain object but kept by the model's map. A `null` or `undefined` score, which `get` would read as 0, cannot be written, because every model score is a real.
- `Tables.Glyph`: the neutral glyph's code point U+1F610 is inferred, because its entry in app.js:29 lost its last byte. The other four glyphs are decoded from complete byte sequences.
- Key order of the object `blendMap` builds: the model's map has no order, and no caller reads one.
