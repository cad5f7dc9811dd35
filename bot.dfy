/**
 The quiz bot's mutable state (bot.py): the in-memory `state` dict from user id to the
 pending correct translation, and the `user_stats` table from user id to its two
 counters, with the three handlers that change them: `ask_question`, the stop branch
 of `check_answer`, and the answer branch of `check_answer`. Each handler runs as one
 atomic step. The word tables are read, never written, by these handlers.
 */
module Bot {
  import opened Words
  import opened Question
  import opened Grading
  import opened Callback

  /** What `check_answer` reports: the goodbye of the stop button, the "use /quiz"
      message when no question is pending, or the verdict followed by the next
      `ask_question`. */
  datatype Reply = Stopped | NoSession | Judged(correct: bool, next: Outcome)

  /** The effect of answering `selected` on the pending map `state0` and stats table
      `stats0`, giving `state1`, `stats1` and `reply`: no pending question changes
      nothing; otherwise exactly one counter of the user goes up, by the case-insensitive
      verdict, and the next question replaces the entry only when one is asked. */
  ghost predicate Answered(pool: seq<Entry>, user: int, selected: string,
                           state0: map<int, string>, stats0: map<int, Tally>,
                           state1: map<int, string>, stats1: map<int, Tally>, reply: Reply)
  {
    if user !in state0 then
      reply == NoSession && state1 == state0 && stats1 == stats0
    else
      && reply.Judged?
      && reply.correct == IsCorrect(selected, state0[user])
      && stats1 == Record(stats0, user, reply.correct)
      && Generated(pool, reply.next)
      && state1 == if reply.next.Asked? then state0[user := reply.next.quiz.correct] else state0
  }

  class QuizBot {
    /** The `global_words` rows. */
    const globalWords: seq<Entry>
    /** The `user_words` rows of each user. */
    const userWords: map<int, seq<Entry>>
    /** `state`: the translation each user's pending question expects. */
    var state: map<int, string>
    /** `user_stats`: each user's (correct_answers, wrong_answers). */
    var stats: map<int, Tally>

    /** The rows `ask_question` draws from for `user`. */
    function PoolOf(user: int): seq<Entry>
    {
      Pool(globalWords, if user in userWords then userWords[user] else [])
    }

    /** Every pending answer is a translation from that user's own pool. */
    ghost predicate Valid()
      reads this
    {
      forall u :: u in state ==> state[u] in Translations(PoolOf(u))
    }

    /** A freshly started process: no pending questions, the stats table as stored. */
    constructor (globalWords: seq<Entry>, userWords: map<int, seq<Entry>>, stats: map<int, Tally>)
      ensures Valid()
      ensures this.globalWords == globalWords && this.userWords == userWords
      ensures this.state == map[] && this.stats == stats
    {
      this.globalWords := globalWords;
      this.userWords := userWords;
      this.state := map[];
      this.stats := stats;
    }

    /** `ask_question`: generate a question from the user's pool and, only when one is
        asked, store its correct translation for the user, replacing any earlier one.
        A failed attempt writes nothing, so an earlier entry stays in place. */
    method AskQuestion(user: int) returns (out: Outcome)
      requires Valid()
      modifies this`state
      ensures Valid()
      ensures Generated(PoolOf(user), out)
      ensures out.NoWords? <==> PoolOf(user) == []
      ensures out.Asked? ==> state == old(state)[user := out.quiz.correct]
      ensures !out.Asked? ==> state == old(state)
    {
      out := Generate(PoolOf(user));
      if out.Asked? {
        RowTranslationListed(PoolOf(user), Entry(out.quiz.prompt, out.quiz.correct));
        state := state[user := out.quiz.correct];
      }
    }

    /** The stop branch of `check_answer`: `state.pop(user_id, None)`. */
    method Stop(user: int)
      requires Valid()
      modifies this`state
      ensures Valid()
      ensures state == old(state) - {user}
    {
      state := state - {user};
    }

    /** The answer branch of `check_answer`, given the selected translation read from the
        button: without a pending question nothing changes; otherwise the answer is
        judged case-insensitively, counted in the stats table, and the next question is
        asked. The judged entry is not removed first, so when the next question cannot
        be generated it stays pending. */
    method Answer(user: int, selected: string) returns (reply: Reply)
      requires Valid()
      modifies this`state, this`stats
      ensures Valid()
      ensures Answered(PoolOf(user), user, selected, old(state), old(stats), state, stats, reply)
      ensures old(user in state) ==> reply.Judged? && !reply.next.NoWords?
    {
      if user !in state {
        return NoSession;
      }
      assert |Translations(PoolOf(user))| > 0;
      var correct := IsCorrect(selected, state[user]);
      stats := Record(stats, user, correct);
      var next := AskQuestion(user);
      reply := Judged(correct, next);
    }

    /** `check_answer` on callback data that passed its filter: the stop button removes
        the pending entry and leaves the stats alone; an answer button is answered with
        the translation it carries (read back whole, see README). */
    method HandleCallback(user: int, data: string) returns (reply: Reply)
      requires Valid()
      requires Routed(data)
      modifies this`state, this`stats
      ensures Valid()
      ensures data == StopData ==> reply == Stopped && state == old(state) - {user} && stats == old(stats)
      ensures data != StopData ==>
        Answered(PoolOf(user), user, DecodeAll(data), old(state), old(stats), state, stats, reply)
      ensures data != StopData && old(user in state) ==> reply.Judged? && !reply.next.NoWords?
    {
      if data == StopData {
        Stop(user);
        return Stopped;
      }
      reply := Answer(user, DecodeAll(data));
    }
  }

  /** The seeded table alone holds at least four distinct translations. */
  lemma DefaultWordsAreRich()
    ensures |TranslationSet(DefaultWords)| >= 4
  {
    var w := DefaultWords;
    RowTranslationListed(w, w[0]);
    RowTranslationListed(w, w[1]);
    RowTranslationListed(w, w[2]);
    RowTranslationListed(w, w[3]);
    var a, b, c, d := w[0].translation, w[1].translation, w[2].translation, w[3].translation;
    assert a[0] != b[0] && a[0] != c[0] && a[0] != d[0];
    assert b[0] != c[0] && b[0] != d[0] && c[0] != d[0];
    FourTranslations(TranslationSet(w), a, b, c, d);
  }

  /** On the seeded table the code's own reading, `split("_")[1]`, gives every answer
      button its whole translation back: no seeded translation contains `_`. */
  lemma SeededButtonsDecode(e: Entry)
    requires e in DefaultWords
    ensures Decode(AnswerData(e.translation)) == e.translation
  {
    var i :| 0 <= i < |DefaultWords| && DefaultWords[i] == e;
    DecodeAnswerData(DefaultWords[i].translation);
  }

  /** A session on the seeded tables for a user with no words and no stats, driven
      through `check_answer` as written (the answer read back with `Callback.Decode`):
      the quiz starts, the correct button is judged correct and counted as (1, 0), the
      next question follows, and after a stop an answer finds no pending question. */
  method SeededSession(user: int) returns (first: Outcome, judged: Reply, row: Tally, stopped: Reply, afterStop: Reply)
    ensures first.Asked?
    ensures judged.Judged? && judged.correct && judged.next.Asked?
    ensures row == Tally(1, 0)
    ensures stopped == Stopped && afterStop == NoSession
  {
    var bot := new QuizBot(DefaultWords, map[], map[]);
    SeededPoolIsRich(bot, user);
    first := bot.AskQuestion(user);
    RichPoolAlwaysAsks(bot.PoolOf(user), first);
    var pressed := AnswerData(first.quiz.correct);
    SeededButtonsDecode(Entry(first.quiz.prompt, first.quiz.correct));
    StoredTranslationIsCorrect(first.quiz.correct);
    judged := bot.Answer(user, Decode(pressed));
    RichPoolAlwaysAsks(bot.PoolOf(user), judged.next);
    row := bot.stats[user];
    stopped := bot.HandleCallback(user, StopData);
    afterStop := bot.Answer(user, Decode(pressed));
  }

  /** The pool of a user of the seeded bot is the seeded table. */
  lemma SeededPoolIsRich(bot: QuizBot, user: int)
    requires bot.globalWords == DefaultWords && bot.userWords == map[]
    ensures |TranslationSet(bot.PoolOf(user))| >= 4
  {
    assert bot.PoolOf(user) == DefaultWords;
    DefaultWordsAreRich();
  }

  /** With only two rows in all, the quiz cannot start and nothing is stored. */
  method TwoWordSession(user: int) returns (out: Outcome, pending: bool)
    ensures out == NotEnoughWords
    ensures !pending
  {
    var bot := new QuizBot([Entry("red", "красный"), Entry("green", "зелёный")], map[], map[]);
    out := bot.AskQuestion(user);
    PoorPoolNeverAsks(bot.PoolOf(user), out);
    pending := user in bot.state;
  }
}
