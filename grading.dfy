/**
 Judging an answer and counting it (bot.py `check_answer`): the case-insensitive
 comparison of the selected translation with the stored one, and the `user_stats`
 upsert that adds one to exactly one of the two counters.
 */
module Grading {

  /** A capital letter the model folds: the ASCII capitals and the Cyrillic capitals
      U+0400 to U+042F. */
  predicate IsUpper(c: char)
  {
    'A' <= c <= 'Z' || 0x0400 <= c as int <= 0x042F
  }

  /** Lower-case one character: a folded capital becomes its small letter (U+0410 to
      U+042F move by 0x20, U+0400 to U+040F by 0x50, as in Unicode); every other
      character is kept. See README for the letters left out. */
  function LowerChar(c: char): (d: char)
    ensures !IsUpper(d)
    ensures !IsUpper(c) ==> d == c
  {
    if 'A' <= c <= 'Z' then (c as int + ('a' as int - 'A' as int)) as char
    else if 0x0410 <= c as int <= 0x042F then (c as int + 0x20) as char
    else if 0x0400 <= c as int <= 0x040F then (c as int + 0x50) as char
    else c
  }

  /** `str.lower()` on the folded letters: the string character by character, with no
      folded capital left in the result. */
  function Lower(s: string): (r: string)
    ensures |r| == |s|
    ensures forall i :: 0 <= i < |r| ==> !IsUpper(r[i])
  {
    if s == [] then [] else [LowerChar(s[0])] + Lower(s[1..])
  }

  /** Lower-casing twice is lower-casing once. */
  lemma {:induction false} LowerIdempotent(s: string)
    ensures Lower(Lower(s)) == Lower(s)
  {
    if s != [] {
      LowerIdempotent(s[1..]);
      assert Lower(s)[1..] == Lower(s[1..]);
    }
  }

  /** The branch condition of `check_answer`: `selected.lower() == correct.lower()`. */
  predicate IsCorrect(selected: string, correct: string): (r: bool)
    ensures selected == correct ==> r
    ensures r ==> |selected| == |correct|
  {
    Lower(selected) == Lower(correct)
  }

  /** Selecting the stored translation is judged correct, and so is selecting its
      lower-cased spelling. */
  lemma StoredTranslationIsCorrect(correct: string)
    ensures IsCorrect(correct, correct)
    ensures IsCorrect(Lower(correct), correct)
  {
    LowerIdempotent(correct);
  }

  /** One row of `user_stats`. */
  datatype Tally = Tally(correct: nat, wrong: nat)

  function Total(t: Tally): nat { t.correct + t.wrong }

  /** The `user_stats` upsert for one answer: an absent row is inserted as (1, 0) or
      (0, 1), a present row has `correct_answers` or `wrong_answers` raised by one. */
  function Record(stats: map<int, Tally>, user: int, correct: bool): (m: map<int, Tally>)
    ensures m.Keys == stats.Keys + {user}
    ensures forall u :: u in stats && u != user ==> m[u] == stats[u]
    ensures user !in stats ==> m[user] == if correct then Tally(1, 0) else Tally(0, 1)
    ensures Total(m[user]) == (if user in stats then Total(stats[user]) else 0) + 1
    ensures user in stats && correct ==> m[user].wrong == stats[user].wrong
    ensures user in stats && !correct ==> m[user].correct == stats[user].correct
  {
    var prev := if user in stats then stats[user] else Tally(0, 0);
    stats[user := if correct then Tally(prev.correct + 1, prev.wrong)
                  else Tally(prev.correct, prev.wrong + 1)]
  }

  /** How many of a user's judgements were correct. */
  function CountCorrect(judgements: seq<bool>): (k: nat)
    ensures k <= |judgements|
    ensures k == |judgements| <==> forall i :: 0 <= i < |judgements| ==> judgements[i]
  {
    if judgements == [] then 0
    else CountCorrect(judgements[..|judgements| - 1]) + if judgements[|judgements| - 1] then 1 else 0
  }

  /** The stats table after a user's answers were recorded one after another. */
  function RecordAll(stats: map<int, Tally>, user: int, judgements: seq<bool>): map<int, Tally>
  {
    if judgements == [] then stats
    else Record(RecordAll(stats, user, judgements[..|judgements| - 1]), user, judgements[|judgements| - 1])
  }

  /** After N answers from a user without a stats row, k of them correct, the row reads
      (k, N - k); other users' rows are untouched. */
  lemma {:induction false} RecordAllCounts(stats: map<int, Tally>, user: int, judgements: seq<bool>)
    requires user !in stats
    requires judgements != []
    ensures user in RecordAll(stats, user, judgements)
    ensures RecordAll(stats, user, judgements)[user]
            == Tally(CountCorrect(judgements), |judgements| - CountCorrect(judgements))
    ensures forall u :: u in stats ==> u in RecordAll(stats, user, judgements)
                                        && RecordAll(stats, user, judgements)[u] == stats[u]
  {
    var n := |judgements|;
    if n > 1 {
      var prefix := judgements[..n - 1];
      RecordAllCounts(stats, user, prefix);
    }
  }
}
