/**
 Question construction of `ask_question` (bot.py): pick a target row from the pool,
 take up to three distractor translations, fail when the pool is empty or when fewer
 than three distractors come back, otherwise shuffle the correct translation in among
 them. `ORDER BY RANDOM() LIMIT k` and `random.shuffle` are nondeterministic choices,
 specified by what every outcome of them satisfies.
 */
module Question {
  import opened Words

  /** A question as shown to the user: the word to translate, the translation stored as
      the correct answer, and the four buttons in display order. */
  datatype Quiz = Quiz(prompt: string, correct: string, choices: seq<string>)

  /** What one call of `ask_question` produces: the "no words yet" message, the "not
      enough words" message, or a question. */
  datatype Outcome = NoWords | NotEnoughWords | Asked(quiz: Quiz)

  function Min(a: nat, b: nat): nat { if a <= b then a else b }

  /** `picked` is a possible result of `ORDER BY RANDOM() LIMIT limit` over the rows
      `rows`: exactly min(limit, |rows|) of them, in any order, each row used at most once. */
  predicate IsSample(picked: seq<string>, rows: seq<string>, limit: nat)
  {
    |picked| == Min(limit, |rows|) && multiset(picked) <= multiset(rows)
  }

  /** `shuffled` is a possible result of `random.shuffle` on `list`. */
  predicate IsPermutation(shuffled: seq<string>, list: seq<string>)
  {
    multiset(shuffled) == multiset(list)
  }

  /** The buttons of a successful question: four entries, among them the correct
      translation, the other three drawn (with repetition only as far as the rows
      repeat) from the distractor rows. */
  ghost predicate IsChoiceList(choices: seq<string>, correct: string, distractors: seq<string>)
  {
    |choices| == 4 && correct in choices
    && multiset(choices) - multiset{correct} <= multiset(distractors)
  }

  /** Every outcome `ask_question` can produce from the pool `pool`. */
  ghost predicate Generated(pool: seq<Entry>, out: Outcome)
  {
    match out
    case NoWords => pool == []
    case NotEnoughWords => exists e :: e in pool && |Distractors(pool, e.translation)| < 3
    case Asked(q) =>
      Entry(q.prompt, q.correct) in pool && IsChoiceList(q.choices, q.correct, Distractors(pool, q.correct))
  }

  /** A sample of limit 3 is short exactly when the rows it is drawn from are fewer than 3. */
  lemma ShortSampleIffFewRows(picked: seq<string>, rows: seq<string>)
    requires IsSample(picked, rows, 3)
    ensures |picked| < 3 <==> |rows| < 3
  {
  }

  /** `ask_question` on the pool `pool`: fail on an empty pool, otherwise pick the target
      row (`ORDER BY RANDOM() LIMIT 1`) and build the question around it. */
  method Generate(pool: seq<Entry>) returns (out: Outcome)
    ensures Generated(pool, out)
    ensures out.NoWords? <==> pool == []
  {
    if pool == [] {
      return NoWords;
    }
    var i :| 0 <= i < |pool|;
    out := AskAbout(pool, pool[i]);
  }

  /** The rest of `ask_question` once the target row is fixed: run the distractor query,
      reject fewer than three rows, shuffle the correct translation in among them. */
  method AskAbout(pool: seq<Entry>, target: Entry) returns (out: Outcome)
    requires target in pool
    ensures out.NotEnoughWords? <==> |Distractors(pool, target.translation)| < 3
    ensures out.NoWords? == false
    ensures out.Asked? ==> out.quiz.prompt == target.word && out.quiz.correct == target.translation
    ensures out.Asked? ==> IsChoiceList(out.quiz.choices, target.translation, Distractors(pool, target.translation))
    ensures out.Asked? ==> multiset(out.quiz.choices)[target.translation] == 1
  {
    var rows := Distractors(pool, target.translation);
    SampleExists(rows, 3);
    var fakes :| IsSample(fakes, rows, 3);
    ShortSampleIffFewRows(fakes, rows);
    if |fakes| < 3 {
      return NotEnoughWords;
    }
    assert IsPermutation([target.translation] + fakes, [target.translation] + fakes);
    var shuffled :| IsPermutation(shuffled, [target.translation] + fakes);
    ShuffledChoices(pool, target.translation, fakes, shuffled);
    out := Asked(Quiz(target.word, target.translation, shuffled));
  }

  /** `LIMIT limit` can always be met: the first min(limit, |rows|) rows are one sample. */
  lemma SampleExists(rows: seq<string>, limit: nat)
    ensures IsSample(rows[..Min(limit, |rows|)], rows, limit)
  {
    assert rows == rows[..Min(limit, |rows|)] + rows[Min(limit, |rows|)..];
  }

  /** Shuffling the correct translation together with three sampled distractors gives
      a valid list of buttons holding the correct translation once. */
  lemma ShuffledChoices(pool: seq<Entry>, correct: string, fakes: seq<string>, shuffled: seq<string>)
    requires IsSample(fakes, Distractors(pool, correct), 3) && |fakes| == 3
    requires IsPermutation(shuffled, [correct] + fakes)
    ensures IsChoiceList(shuffled, correct, Distractors(pool, correct))
    ensures multiset(shuffled)[correct] == 1
  {
    var ds := Distractors(pool, correct);
    assert multiset(ds)[correct] == 0;
    assert multiset(fakes)[correct] == 0;
    assert multiset(shuffled) == multiset{correct} + multiset(fakes);
    assert multiset(shuffled) - multiset{correct} == multiset(fakes);
    assert |shuffled| == |multiset(shuffled)| == 4;
  }

  /** The correct translation sits on exactly one of the four buttons, and each of the
      other three is a translation of the pool that differs from it. */
  lemma ChoicesShape(pool: seq<Entry>, q: Quiz, k: nat)
    requires Generated(pool, Asked(q))
    requires k < |q.choices| && q.choices[k] != q.correct
    ensures multiset(q.choices)[q.correct] == 1
    ensures exists e :: e in pool && e.translation == q.choices[k]
  {
    var ds := Distractors(pool, q.correct);
    assert multiset(ds)[q.correct] == 0;
    assert (multiset(q.choices) - multiset{q.correct})[q.correct] == 0;
    assert q.choices[k] in multiset(q.choices) - multiset{q.correct};
    assert q.choices[k] in ds;
    DistractorsAreOtherTranslations(pool, q.correct, q.choices[k]);
  }

  /** With four or more distinct translations in the pool, `ask_question` always asks. */
  lemma RichPoolAlwaysAsks(pool: seq<Entry>, out: Outcome)
    requires |TranslationSet(pool)| >= 4
    requires Generated(pool, out)
    ensures out.Asked?
  {
    match out
    case NoWords =>
    case NotEnoughWords =>
      var e :| e in pool && |Distractors(pool, e.translation)| < 3;
      EnoughDistinctTranslations(pool, e);
    case Asked(_) =>
  }

  /** With three rows or fewer in the pool, `ask_question` never asks. */
  lemma PoorPoolNeverAsks(pool: seq<Entry>, out: Outcome)
    requires |pool| <= 3
    requires Generated(pool, out)
    ensures !out.Asked?
  {
    if out.Asked? {
      var q := out.quiz;
      var ds := Distractors(pool, q.correct);
      SmallPoolLacksDistractors(pool, Entry(q.prompt, q.correct));
      assert |multiset(q.choices) - multiset{q.correct}| == 3;
      MultisetSubsetSize(multiset(q.choices) - multiset{q.correct}, multiset(ds));
    }
  }

  /** A sub-multiset is no larger than its super-multiset. */
  lemma {:induction false} MultisetSubsetSize(a: multiset<string>, b: multiset<string>)
    requires a <= b
    ensures |a| <= |b|
  {
    if a != multiset{} {
      var x :| x in a;
      MultisetSubsetSize(a - multiset{x}, b - multiset{x});
    }
  }
}
