# Vocabulary quiz bot: the quiz engine

`bot.py` is a Telegram bot that quizzes users on word translations. A user sends
`/quiz`. The bot picks a (word, translation) row from the shared `global_words` table
together with the user's own `user_words` rows. It then pulls three other
translations from the same pool as distractors and shows four buttons in random
order. The correct translation is remembered for that user in the in-memory `state`
dict. Pressing a button runs `check_answer`. The stop button clears the pending
entry. An answer button is compared, case-insensitively, with the pending
translation. The answer is counted in `user_stats` through an upsert, and the next
question follows at once.

This project models that engine in Dafny:

- `words.dfy` (module `Words`): the word rows, the `UNION ALL` pool, the
  `translation != correct` distractor filter, and the ten seeded rows.
- `question.dfy` (module `Question`): question construction. `ORDER BY RANDOM()
  LIMIT k` and `random.shuffle` are nondeterministic choices (`:|`). They are
  specified by what every possible result satisfies: a sub-multiset of the right
  size, and a permutation.
- `grading.dfy` (module `Grading`): the case-insensitive verdict and the stats
  upsert, plus what a run of answers adds up to.
- `callback.dfy` (module `Callback`): the `"answer_" + translation` and `"stop_quiz"`
  callback strings, Python's `str.split`, and reading the translation back.
- `bot.dfy` (module `Bot`): class `QuizBot`. Its `state` and `stats` map fields are
  changed by `AskQuestion`, `Stop`, `Answer` and `HandleCallback`. Its invariant is
  that every pending answer is a translation from that user's pool. Two client
  methods run whole sessions on concrete tables.

Three behaviours of the code are easy to miss; the model keeps them:

- `check_answer` does not remove the answered entry. When the follow-up
  `ask_question` fails, the entry stays pending (`Bot.QuizBot.Answer`).
- The distractor query may return duplicate translations: it takes any three rows
  whose translation differs from the correct one (`Question.IsChoiceList`).
- Only the correct translation is guaranteed to occur once among the four buttons
  (`Question.ChoicesShape`).

## Model

| member | source | states |
|---|---|---|
| `Words.Pool` | bot.py:108-113 | the pool is the global rows followed by the user's rows, duplicates kept: its multiset is the sum of both tables' multisets |
| `Words.Distractors` | bot.py:125-133 | the candidate distractor rows hold every pool translation other than the correct one, each as often as it occurs in the pool, and never the correct one; their count is the pool size minus the occurrences of the correct translation |
| `Words.DistractorsAreOtherTranslations` | bot.py:125-134 | every distractor differs from the correct translation under exact comparison and is the translation of some row of the pool |
| `Words.RowTranslationListed` | bot.py:109-112 | the translation of any pool row is in the pool's translation column and its set of distinct translations |
| `Words.SmallPoolLacksDistractors` | bot.py:125-138 | with at most three rows, any target leaves fewer than three distractors |
| `Words.EnoughDistinctTranslations` | bot.py:125-138 | with at least four distinct translations in the pool, any target leaves at least three distractors |
| `Question.ShortSampleIffFewRows` | bot.py:132-136 | a `LIMIT 3` result is shorter than three exactly when fewer than three rows qualify |
| `Question.SampleExists` | bot.py:132 | `LIMIT k` can always be met: min(k, n) of the n rows form a valid result |
| `Question.ShuffledChoices` | bot.py:141-142 | shuffling the correct translation in among three sampled distractors gives four buttons with the correct one exactly once and the rest drawn from the distractor rows |
| `Question.Generate` | bot.py:104-122 | an empty pool, and only an empty pool, gives the "no words" outcome; every outcome is one the specification `Generated` allows: the target is a row of the pool, a failure has a target with fewer than three distractors, a question has a valid choice list |
| `Question.AskAbout` | bot.py:122-142 | with the target fixed: "not enough words" exactly when fewer than three distractor rows exist; otherwise the prompt is the target's word, the stored answer its translation, and the four choices hold it once and three distractors |
| `Question.ChoicesShape` | bot.py:134-142 | in any generated question the correct translation sits on exactly one button and every other button is some pool translation that differs from it |
| `Question.RichPoolAlwaysAsks` | bot.py:108-142 | a pool with at least four distinct translations always yields a question |
| `Question.PoorPoolNeverAsks` | bot.py:125-138 | a pool of at most three rows never yields a question |
| `Grading.Lower` | bot.py:173 | `str.lower()` on the ASCII and Cyrillic capitals: the result has no such capital left, and (for these letters, see Left out) keeps the length |
| `Grading.IsCorrect` | bot.py:173 | the verdict `selected.lower() == correct.lower()`: the stored translation itself always passes; under the modelled fold only an answer of the same length can pass (`Grading.StoredTranslationIsCorrect` adds its lower-cased form) |
| `Grading.LowerIdempotent` | bot.py:173 | lower-casing twice equals lower-casing once |
| `Grading.StoredTranslationIsCorrect` | bot.py:173 | selecting the stored translation, or its lower-cased form, is always judged correct |
| `Grading.Record` | bot.py:174-186 | the upsert inserts an absent user as (1, 0) or (0, 1); for a present user it raises one counter and leaves the other alone; either way the user's total grows by exactly one and every other user's row is unchanged |
| `Grading.CountCorrect` | bot.py:173 | the number of correct verdicts is at most the number of answers, and equals it exactly when every answer was correct |
| `Grading.RecordAllCounts` | bot.py:174-186 | after N recorded answers of a user without a row, k of them correct, the row reads (k, N - k) and no other row changed |
| `Callback.AnswerData` | bot.py:90 | an answer button's data is `"answer_"` followed by exactly its translation; it always passes the handler filter and never equals the stop data |
| `Callback.Routed` | bot.py:156 | the handler filter; any data it admits other than `"stop_quiz"` starts with `"answer_"` and splits into at least two pieces, so the index at bot.py:165 always exists |
| `Callback.Keyboard` | bot.py:88-95 | one answer button per translation, in order, each carrying `"answer_"` followed by exactly its translation, then the single stop button |
| `Callback.KeyboardIsRouted` | bot.py:90-93 | every button of the keyboard passes the filter of `check_answer` (bot.py:156), and no answer button equals the stop data |
| `Callback.Split` | bot.py:165 | `str.split` yields at least one piece, and no piece contains the separator |
| `Callback.JoinSplit` | bot.py:165 | joining the pieces of a split with the separator restores the string |
| `Callback.SplitJoin` | bot.py:165 | splitting a join of separator-free pieces restores the pieces |
| `Callback.Decode` | bot.py:165 | `split("_")[1]` on admitted answer data returns the longest underscore-free prefix of the text after `"answer_"` (`Callback.DecodeAnswerData` applies it to a button) |
| `Callback.DecodeAnswerData` | bot.py:165 | `split("_")[1]` of an answer button's data is its translation exactly when the translation has no underscore; otherwise it is the part before the first underscore |
| `Callback.UnderscoreAnswerJudgedWrong` | bot.py:165-173 | the button for "ice_cream" decodes to "ice", so pressing the correct answer is judged wrong |
| `Callback.DecodeAll` | bot.py:165 | the intended reading returns the one translation whose answer data is the given data |
| `Callback.DecodeAllRoundTrip` | bot.py:90-173 | with the intended reading every button decodes to its own translation, and pressing the correct button is judged correct |
| `Bot.QuizBot.constructor` | bot.py:81 | the process starts with no pending questions and the stored stats |
| `Bot.QuizBot.AskQuestion` | bot.py:104-145 | the outcome is one `Generated` allows for the user's pool; only a successful question writes `state`, overwriting the user's entry and no one else's; a failure leaves `state`, including a stale entry, unchanged; the invariant is kept |
| `Bot.QuizBot.Stop` | bot.py:160-163 | the user's pending entry is removed, if any, and nothing else changes |
| `Bot.QuizBot.Answer` | bot.py:165-190 | no pending entry: nothing changes; otherwise exactly one counter is raised by the case-insensitive verdict against the pending translation, the next question is asked, and the old entry survives if that fails; since the pending entry comes from the user's pool, that next question is never "no words" |
| `Bot.QuizBot.HandleCallback` | bot.py:156-192 | the stop data leads to `Stop` and an unchanged stats table; answer data leads to `Answer` with the translation it carries, and with a pending question the follow-up is never "no words" |
| `Bot.DefaultWordsAreRich` | bot.py:60-71 | the ten seeded rows hold at least four distinct translations |
| `Bot.SeededButtonsDecode` | bot.py:60-71 | on every seeded row, the code's `split("_")[1]` reads the answer button's data back as the whole translation |
| `Bot.SeededSession` | bot.py:98-192 | on the seeded tables a quiz starts; pressing the correct button, read back with the code's own `split("_")[1]`, is judged correct, stored as (1, 0) and followed by a new question; after the stop button an answer finds no pending question |
| `Bot.TwoWordSession` | bot.py:104-138 | with only two rows the quiz fails with "not enough words" and stores nothing |

## Left out

- Transport: the aiogram bot, the dispatcher, handler registration, message texts,
  the keyboard objects beyond their callback strings, and polling. Handler results
  are datatypes (`Question.Outcome`, `Bot.Reply`) instead of sent messages.
- Database plumbing: the connection, `CREATE TABLE`, cursors and commits. The tables
  are sequences and maps. The seeding condition of `initialize_db` is not modelled;
  only its ten rows are kept, as `Words.DefaultWords`. A failing query or commit is
  not modelled.
- Concurrency: each handler is one atomic step. Interleavings of `async` handlers for
  the same user are not modelled.
- Randomness: row choice and shuffling are nondeterministic choices. Their uniform
  distribution is not modelled.
- Grading.Lower: folds only the ASCII capitals and the Cyrillic capitals U+0400 to
  U+042F, each to one small letter. Python's `str.lower` folds the rest of Unicode too,
  so the model judges fewer mixed-case answers correct in other scripts. The special
  cases where `str.lower` changes the length (U+0130 becomes two code points) are not
  modelled. `Grading.LowerIdempotent` and `Grading.StoredTranslationIsCorrect` rely on
  lower-casing being idempotent, which `str.lower` also is.
- Grading.IsCorrect: its clause that only an answer of the same length can pass relies
  on the length-preserving fold of `Grading.Lower`. It does not hold for Python's
  `str.lower`: "İ" and "i̇" (i with a combining dot) pass with lengths 1 and 2.
- Grading.Record: counters are unbounded `nat`. The 32-bit `INTEGER` columns could
  overflow after 2^31 answers.
- The word tables never change in the model. Nothing in `bot.py` writes them after
  seeding, and word management commands are not part of this model.
- `is_admin` and the configuration import are unused by the engine.
- Bot.QuizBot.HandleCallback: reads the translation with `Callback.DecodeAll`, not with
  the code's `split("_")[1]` (`Callback.Decode`). The two differ only for translations
  that contain `_`; see Findings.

## Findings

| source | as written | input that shows it | evidently intended | confidence | as-written member | corrected member |
|---|---|---|---|---|---|---|
| bot.py:165 | `query.data.split("_")[1]` keeps only the part of the translation before its first underscore | a row whose translation is "ice_cream": its button data "answer_ice_cream" decodes to "ice", and pressing it is counted as wrong | the whole text after `"answer_"`, so that every button decodes to its own translation | not executed | `Callback.Decode`, `Callback.UnderscoreAnswerJudgedWrong` | `Callback.DecodeAllRoundTrip` |
