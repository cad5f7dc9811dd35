/**
 The word tables a quiz draws from (bot.py): the shared `global_words` table and
 the per-user `user_words` table, both rows of (word, translation), and the two
 queries of `ask_question` over their `UNION ALL`, without the random ordering.
 */
module Words {

  /** One row of `global_words` or `user_words`: a word and its translation. */
  datatype Entry = Entry(word: string, translation: string)

  /** The ten rows `initialize_db` seeds into an empty `global_words` table. */
  const DefaultWords: seq<Entry> := [
    Entry("red", "красный"), Entry("green", "зелёный"), Entry("blue", "синий"),
    Entry("yellow", "жёлтый"), Entry("he", "он"), Entry("she", "она"), Entry("it", "оно"),
    Entry("we", "мы"), Entry("you", "вы"), Entry("they", "они")
  ]

  /** The quiz pool of one user: every global row followed by every row the user owns.
      `UNION ALL` keeps duplicates, so the pool is a concatenation, not a union of sets. */
  function Pool(globalWords: seq<Entry>, userWords: seq<Entry>): (p: seq<Entry>)
    ensures |p| == |globalWords| + |userWords|
    ensures multiset(p) == multiset(globalWords) + multiset(userWords)
    ensures forall e :: e in p <==> e in globalWords || e in userWords
  {
    globalWords + userWords
  }

  /** The `translation` column of a list of rows, row by row. */
  function Translations(pool: seq<Entry>): (ts: seq<string>)
    ensures |ts| == |pool|
  {
    if pool == [] then [] else [pool[0].translation] + Translations(pool[1..])
  }

  /** Row `i` of the column is the translation of row `i` of the table. */
  lemma {:induction false} TranslationAt(pool: seq<Entry>, i: nat)
    requires i < |pool|
    ensures Translations(pool)[i] == pool[i].translation
  {
    if i > 0 {
      TranslationAt(pool[1..], i - 1);
    }
  }

  /** The rows of the second query of `ask_question` before `ORDER BY RANDOM() LIMIT 3`:
      every translation of the pool that differs from `correct` under exact comparison
      (`translation != %s`), each kept as often as it occurs in the pool. */
  function Distractors(pool: seq<Entry>, correct: string): (ds: seq<string>)
    ensures forall t :: multiset(ds)[t] == if t == correct then 0 else multiset(Translations(pool))[t]
    ensures |ds| + multiset(Translations(pool))[correct] == |pool|
  {
    if pool == [] then []
    else
      var rest := Distractors(pool[1..], correct);
      assert Translations(pool) == [pool[0].translation] + Translations(pool[1..]);
      if pool[0].translation == correct then rest else [pool[0].translation] + rest
  }

  /** The translation of every row of the pool is in its translation column. */
  lemma RowTranslationListed(pool: seq<Entry>, e: Entry)
    requires e in pool
    ensures e.translation in Translations(pool)
    ensures e.translation in TranslationSet(pool)
  {
    var i :| 0 <= i < |pool| && pool[i] == e;
    TranslationAt(pool, i);
  }

  /** Every distractor is a translation of the pool and differs from the correct one. */
  lemma DistractorsAreOtherTranslations(pool: seq<Entry>, correct: string, d: string)
    requires d in Distractors(pool, correct)
    ensures d != correct
    ensures exists e :: e in pool && e.translation == d
  {
    var ds := Distractors(pool, correct);
    assert multiset(ds)[d] > 0;
    assert d in Translations(pool);
    var i :| 0 <= i < |pool| && Translations(pool)[i] == d;
    TranslationAt(pool, i);
    assert pool[i] in pool;
  }

  /** A pool of at most three rows never yields three distractors: the target's own
      translation is always excluded, so at most |pool| - 1 rows remain. */
  lemma SmallPoolLacksDistractors(pool: seq<Entry>, target: Entry)
    requires |pool| <= 3
    requires target in pool
    ensures |Distractors(pool, target.translation)| < 3
  {
    var i :| 0 <= i < |pool| && pool[i] == target;
    TranslationAt(pool, i);
    assert target.translation in Translations(pool);
  }

  /** The distinct translations of a list of rows. */
  function TranslationSet(pool: seq<Entry>): set<string>
  {
    set e | e in pool :: e.translation
  }

  /** A sequence holds at least as many elements as it has distinct ones. */
  lemma {:induction false} DistinctAtMostLength(s: seq<string>)
    ensures |set x | x in s| <= |s|
  {
    if s != [] {
      DistinctAtMostLength(s[1..]);
      assert (set x | x in s) == (set x | x in s[1..]) + {s[0]};
    }
  }

  /** Whenever the pool holds at least four distinct translations, every choice of
      target leaves at least three distractors. */
  lemma EnoughDistinctTranslations(pool: seq<Entry>, target: Entry)
    requires |TranslationSet(pool)| >= 4
    ensures |Distractors(pool, target.translation)| >= 3
  {
    var ds := Distractors(pool, target.translation);
    var others := TranslationSet(pool) - {target.translation};
    assert |others| >= 3;
    forall t | t in others
      ensures t in ds
    {
      var e :| e in pool && e.translation == t;
      var i :| 0 <= i < |pool| && pool[i] == e;
      TranslationAt(pool, i);
      assert multiset(ds)[t] > 0;
    }
    assert others <= set x | x in ds;
    SubsetSize(others, set x | x in ds);
    DistinctAtMostLength(ds);
  }

  /** A subset is no larger than its superset. */
  lemma {:induction false} SubsetSize(a: set<string>, b: set<string>)
    requires a <= b
    ensures |a| <= |b|
  {
    if a != {} {
      var x :| x in a;
      SubsetSize(a - {x}, b - {x});
    }
  }

  /** Four distinct members make a set of at least four. */
  lemma FourTranslations(ts: set<string>, a: string, b: string, c: string, d: string)
    requires a in ts && b in ts && c in ts && d in ts
    requires a != b && a != c && a != d && b != c && b != d && c != d
    ensures |ts| >= 4
  {
    var four := {a, b, c, d};
    assert |four| == 4;
    SubsetSize(four, ts);
  }
}
