/**
 The callback strings of the quiz keyboard (bot.py): `get_answer_keyboard` gives every
 answer button the data `"answer_" + translation` and the stop button `"stop_quiz"`;
 `check_answer` is registered for data that starts with `"answer_"` or equals
 `"stop_quiz"`, and reads the selected translation back with `data.split("_")[1]`.
 */
module Callback {
  import opened Grading

  const Separator: char := '_'
  const AnswerPrefix: string := "answer_"
  const StopData: string := "stop_quiz"

  /** The callback data of the answer button for `translation`. */
  function AnswerData(translation: string): (data: string)
    ensures Routed(data) && data != StopData
    ensures AnswerPrefix <= data && data[|AnswerPrefix|..] == translation
  {
    assert (AnswerPrefix + translation)[1] == 'n' != StopData[1];
    AnswerPrefix + translation
  }

  /** The callback data of the two keyboard rows: one answer button per translation, in
      the order given, then the stop button. */
  function Keyboard(translations: seq<string>): (rows: seq<seq<string>>)
    ensures |rows| == 2 && |rows[0]| == |translations| && rows[1] == [StopData]
    ensures forall i :: 0 <= i < |translations| ==> AnswerPrefix <= rows[0][i]
    ensures forall i :: 0 <= i < |translations| ==> rows[0][i][|AnswerPrefix|..] == translations[i]
  {
    [seq(|translations|, i requires 0 <= i < |translations| => AnswerData(translations[i])), [StopData]]
  }

  /** The filter under which `check_answer` receives a callback. Data it lets through
      other than the stop button splits into at least two pieces on `_`, so the index
      `[1]` of `check_answer` always exists. */
  predicate Routed(data: string): (r: bool)
    ensures r && data != StopData ==> AnswerPrefix <= data && |Split(data, Separator)| >= 2
  {
    if AnswerPrefix <= data then
      SplitField("answer", Separator, data[|AnswerPrefix|..]);
      assert data == "answer" + [Separator] + data[|AnswerPrefix|..];
      true
    else
      data == StopData
  }

  /** Every button of the keyboard reaches `check_answer`, and no answer button is
      mistaken for the stop button, whatever its translation. */
  lemma KeyboardIsRouted(translations: seq<string>, i: nat)
    requires i < |translations|
    ensures Routed(Keyboard(translations)[0][i]) && Routed(Keyboard(translations)[1][0])
    ensures Keyboard(translations)[0][i] != StopData
  {
    assert Keyboard(translations)[0][i] == AnswerData(translations[i]);
  }

  /** Python's `s.split(sep)`: the pieces of `s` between occurrences of `sep`, empty
      pieces included, so there is always at least one. */
  function Split(s: string, sep: char): (parts: seq<string>)
    ensures |parts| >= 1
    ensures forall i :: 0 <= i < |parts| ==> sep !in parts[i]
  {
    if s == [] then [[]]
    else
      var rest := Split(s[1..], sep);
      if s[0] == sep then [[]] + rest else [[s[0]] + rest[0]] + rest[1..]
  }

  /** `sep.join(parts)`. */
  function Join(parts: seq<string>, sep: char): string
    requires |parts| >= 1
  {
    if |parts| == 1 then parts[0] else parts[0] + [sep] + Join(parts[1..], sep)
  }

  /** Splitting and joining again gives the string back. */
  lemma {:induction false} JoinSplit(s: string, sep: char)
    ensures Join(Split(s, sep), sep) == s
  {
    if s != [] {
      JoinSplit(s[1..], sep);
      var rest := Split(s[1..], sep);
      if s[0] != sep && |rest| > 1 {
        assert Join(rest, sep) == rest[0] + [sep] + Join(rest[1..], sep);
      }
    }
  }

  /** Joining pieces that do not contain the separator and splitting again gives the
      pieces back. */
  lemma {:induction false} SplitJoin(parts: seq<string>, sep: char)
    requires |parts| >= 1
    requires forall i :: 0 <= i < |parts| ==> sep !in parts[i]
    ensures Split(Join(parts, sep), sep) == parts
  {
    if |parts| == 1 {
      SplitFieldOnly(parts[0], sep);
    } else {
      SplitJoin(parts[1..], sep);
      SplitField(parts[0], sep, Join(parts[1..], sep));
    }
  }

  /** A string without the separator is a single piece. */
  lemma {:induction false} SplitFieldOnly(w: string, sep: char)
    requires sep !in w
    ensures Split(w, sep) == [w]
  {
    if w != [] {
      SplitFieldOnly(w[1..], sep);
      assert [w[0]] + w[1..] == w;
    }
  }

  /** A separator-free piece followed by the separator splits off as the first piece. */
  lemma {:induction false} SplitField(w: string, sep: char, t: string)
    requires sep !in w
    ensures Split(w + [sep] + t, sep) == [w] + Split(t, sep)
  {
    if w == [] {
      assert ([sep] + t)[1..] == t;
    } else {
      assert (w + [sep] + t)[1..] == w[1..] + [sep] + t;
      SplitField(w[1..], sep, t);
      assert [w[0]] + w[1..] == w;
    }
  }

  /** The first piece of a split is the longest separator-free prefix. */
  lemma {:induction false} SplitHead(s: string, sep: char)
    ensures Split(s, sep)[0] <= s
    ensures |Split(s, sep)[0]| < |s| ==> s[|Split(s, sep)[0]|] == sep
  {
    if s != [] {
      SplitHead(s[1..], sep);
    }
  }

  /** `query.data.split("_")[1]` on data that passed the filter and is not the stop
      button: the longest underscore-free prefix of what follows `"answer_"`. */
  function Decode(data: string): (r: string)
    requires Routed(data) && data != StopData
    ensures var rest := data[|AnswerPrefix|..];
      && r <= rest && Separator !in r
      && (|r| < |rest| ==> rest[|r|] == Separator)
  {
    var rest := data[|AnswerPrefix|..];
    SplitField("answer", Separator, rest);
    assert data == "answer" + [Separator] + rest;
    SplitHead(rest, Separator);
    Split(data, Separator)[1]
  }

  /** Decoding an answer button gives back its translation exactly when the translation
      has no underscore; otherwise it gives the part before the first underscore. */
  lemma DecodeAnswerData(translation: string)
    ensures var r := Decode(AnswerData(translation));
      && r <= translation && Separator !in r
      && (|r| < |translation| ==> translation[|r|] == Separator)
      && (r == translation <==> Separator !in translation)
  {
    var r := Decode(AnswerData(translation));
    if r == translation {
      assert Separator !in translation;
    }
  }

  /** A translation with an underscore, pressed as the correct answer, is judged wrong. */
  lemma UnderscoreAnswerJudgedWrong()
    ensures Decode(AnswerData("ice_cream")) == "ice"
    ensures !IsCorrect(Decode(AnswerData("ice_cream")), "ice_cream")
  {
    DecodeAnswerData("ice_cream");
    assert "ice_cream"[3] == Separator;
    assert Lower("ice") != Lower("ice_cream");
  }

  /** The intended reading of the answer data: everything after the prefix
      (what `data.split("_", 1)[1]` returns). */
  function DecodeAll(data: string): (translation: string)
    requires Routed(data) && data != StopData
    ensures AnswerData(translation) == data
  {
    data[|AnswerPrefix|..]
  }

  /** With the intended reading, every answer button decodes to its own translation and
      pressing the correct button is judged correct. */
  lemma DecodeAllRoundTrip(translation: string)
    ensures DecodeAll(AnswerData(translation)) == translation
    ensures IsCorrect(DecodeAll(AnswerData(translation)), translation)
  {
    assert AnswerData(translation)[|AnswerPrefix|..] == translation;
  }
}
