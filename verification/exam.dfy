/**
 * The online examination system: a static question bank that the admin step
 * appends to, and a static score that every attempt adds to and nothing
 * resets. Console input is replaced by parameters: the records the admin types
 * and the answers a student types.
 */
module Exam {
  /** A question: its text, its options, and the correct option number as entered. */
  datatype Question = Question(questionText: string, options: seq<string>, correctOption: int)

  /** What the admin types for one question: the text, four option lines, the correct number. */
  datatype Entry = Entry(
    questionText: string,
    option1: string, option2: string, option3: string, option4: string,
    correctOption: int)

  /** How an attempt ends: no questions yet, the final-score report, or an uncaught exception. */
  datatype Attempt = NoExam | Finished(score: int, outOf: nat) | Crashed(score: int)

  /** The question built from one entry: the options array filled in entry order. */
  function MakeQuestion(e: Entry): (q: Question)
    ensures q.questionText == e.questionText && q.correctOption == e.correctOption
    ensures q.options == [e.option1, e.option2, e.option3, e.option4]
  {
    Question(e.questionText, [e.option1, e.option2, e.option3, e.option4], e.correctOption)
  }

  /**
   * The questions one admin session builds, in input order: each has exactly
   * the four option lines typed and the correct option as typed.
   */
  function MakeQuestions(entries: seq<Entry>): (qs: seq<Question>)
    ensures |qs| == |entries|
    ensures forall i :: 0 <= i < |entries| ==>
      && qs[i].questionText == entries[i].questionText
      && qs[i].options == [entries[i].option1, entries[i].option2, entries[i].option3, entries[i].option4]
      && qs[i].correctOption == entries[i].correctOption
  {
    if entries == [] then []
    else MakeQuestions(entries[..|entries| - 1]) + [MakeQuestion(entries[|entries| - 1])]
  }

  /** The number of positions where the answer is that question's `correctOption`. */
  function CorrectCount(qs: seq<Question>, answers: seq<int>): (n: nat)
    requires |answers| == |qs|
    ensures n <= |qs|
  {
    if qs == [] then 0
    else (if answers[0] == qs[0].correctOption then 1 else 0) + CorrectCount(qs[1..], answers[1..])
  }

  /**
   * Full marks exactly when every answer is right, and zero exactly when
   * every answer is wrong.
   */
  lemma {:induction false} CorrectCountExtremes(qs: seq<Question>, answers: seq<int>)
    requires |answers| == |qs|
    ensures CorrectCount(qs, answers) == |qs| <==> forall i :: 0 <= i < |qs| ==> answers[i] == qs[i].correctOption
    ensures CorrectCount(qs, answers) == 0 <==> forall i :: 0 <= i < |qs| ==> answers[i] != qs[i].correctOption
  {
    if qs != [] {
      CorrectCountExtremes(qs[1..], answers[1..]);
      assert forall i :: 1 <= i < |qs| ==> qs[i] == qs[1..][i - 1] && answers[i] == answers[1..][i - 1];
    }
  }

  /** Counting one more question adds one exactly when its answer is right. */
  lemma {:induction false} CorrectCountAppend(qs: seq<Question>, answers: seq<int>, q: Question, a: int)
    requires |answers| == |qs|
    ensures CorrectCount(qs + [q], answers + [a])
         == CorrectCount(qs, answers) + (if a == q.correctOption then 1 else 0)
  {
    if qs != [] {
      assert (qs + [q])[1..] == qs[1..] + [q];
      assert (answers + [a])[1..] == answers[1..] + [a];
      CorrectCountAppend(qs[1..], answers[1..], q, a);
    }
  }

  /**
   * `studentMenu` as written, from the question the iterator is at: the timer
   * was cancelled at the end of the previous question, so scheduling this
   * question's task on it throws IllegalStateException and the attempt ends
   * there, with the score as it stood.
   */
  function AskAsWritten(qs: seq<Question>, answers: seq<int>, score: int, timerCancelled: bool, outOf: nat): (r: Attempt)
    requires |answers| == |qs|
    ensures !r.NoExam?
    ensures r.Crashed? <==> if timerCancelled then qs != [] else |qs| >= 2
  {
    if qs == [] then Finished(score, outOf)
    else if timerCancelled then Crashed(score)
    else
      var gained := if answers[0] == qs[0].correctOption then 1 else 0;
      AskAsWritten(qs[1..], answers[1..], score + gained, true, outOf)
  }

  /** A whole attempt as written: every exam of two or more questions ends in the exception. */
  function AttemptAsWritten(qs: seq<Question>, answers: seq<int>, score: int): (r: Attempt)
    requires |answers| == |qs|
    ensures r.NoExam? <==> qs == []
    ensures r.Crashed? <==> |qs| >= 2
  {
    if qs == [] then NoExam else AskAsWritten(qs, answers, score, false, |qs|)
  }

  /**
   * As written, a one-question bank never crashes, so attempt after attempt
   * adds to the static score: a right answer reports one more than before,
   * out of 1, and from the second attempt on the score exceeds the bank size.
   */
  lemma AsWrittenSingleQuestionAccumulates(q: Question, score: int)
    ensures AttemptAsWritten([q], [q.correctOption], score) == Finished(score + 1, 1)
    ensures AttemptAsWritten([q], [q.correctOption], score + 1) == Finished(score + 2, 1)
  {
    assert [q][1..] == [] && [q.correctOption][1..] == [];
    assert AskAsWritten([], [], score + 1, true, 1) == Finished(score + 1, 1);
    assert AskAsWritten([], [], score + 2, true, 1) == Finished(score + 2, 1);
    assert AttemptAsWritten([q], [q.correctOption], score) == AskAsWritten([], [], score + 1, true, 1);
    assert AttemptAsWritten([q], [q.correctOption], score + 1) == AskAsWritten([], [], score + 2, true, 1);
  }

  /** As written, only the first answer is ever scored. */
  lemma AsWrittenScoresOnlyFirst(qs: seq<Question>, answers: seq<int>, score: int)
    requires |answers| == |qs| && |qs| >= 2
    ensures AttemptAsWritten(qs, answers, score)
         == Crashed(score + if answers[0] == qs[0].correctOption then 1 else 0)
  {
    var gained := if answers[0] == qs[0].correctOption then 1 else 0;
    assert AskAsWritten(qs[1..], answers[1..], score + gained, true, |qs|) == Crashed(score + gained);
  }

  /** With a single question the timer is never reused, and the attempt as written scores it fully. */
  lemma AsWrittenAgreesOnSingleQuestion(qs: seq<Question>, answers: seq<int>, score: int)
    requires |answers| == |qs| == 1
    ensures AttemptAsWritten(qs, answers, score) == Finished(score + CorrectCount(qs, answers), 1)
  {
    var gained := if answers[0] == qs[0].correctOption then 1 else 0;
    assert qs[1..] == [] && answers[1..] == [];
    assert CorrectCount(qs, answers) == gained + CorrectCount(qs[1..], answers[1..]);
    assert AskAsWritten(qs[1..], answers[1..], score + gained, true, 1) == Finished(score + gained, 1);
  }

  /** Two questions, both answered right: as written the attempt crashes with one point, not two. */
  lemma AsWrittenLosesSecondAnswer()
    ensures var qs := [Question("Q1", ["a", "b", "c", "d"], 1), Question("Q2", ["a", "b", "c", "d"], 2)];
      && AttemptAsWritten(qs, [1, 2], 0) == Crashed(1)
      && CorrectCount(qs, [1, 2]) == 2
  {
  }

  /** The score after a run of attempts on the same questions, one answer sheet each. */
  function ScoreAfter(score: int, qs: seq<Question>, sheets: seq<seq<int>>): int
    requires forall k :: 0 <= k < |sheets| ==> |sheets[k]| == |qs|
    decreases |sheets|
  {
    if sheets == [] then score
    else ScoreAfter(score + CorrectCount(qs, sheets[0]), qs, sheets[1..])
  }

  /** The answer sheet that gets every question right. */
  function PerfectSheet(qs: seq<Question>): (a: seq<int>)
    ensures |a| == |qs| && CorrectCount(qs, a) == |qs|
  {
    var a := seq(|qs|, i requires 0 <= i < |qs| => qs[i].correctOption);
    CorrectCountExtremes(qs, a);
    a
  }

  /**
   * The score is never reset: `k` perfect attempts starting from `score` add
   * `k` times the number of questions, so from two attempts on the reported
   * score exceeds `questions.size()`.
   */
  lemma {:induction false} ScoreAccumulates(score: int, qs: seq<Question>, k: nat)
    ensures ScoreAfter(score, qs, seq(k, _ => PerfectSheet(qs))) == score + k * |qs|
    decreases k
  {
    var sheets := seq(k, _ => PerfectSheet(qs));
    if k > 0 {
      assert sheets[1..] == seq(k - 1, _ => PerfectSheet(qs));
      ScoreAccumulates(score + |qs|, qs, k - 1);
      assert score + |qs| + (k - 1) * |qs| == score + k * |qs|;
    }
  }

  /** The static `questions` list and `score` counter. */
  class ExamSystem {
    var questions: seq<Question>
    var score: int

    constructor ()
      ensures questions == [] && score == 0
    {
      questions := [];
      score := 0;
    }

    /**
     * `adminMenu`: append one question per entry, in input order, after the
     * existing ones. The correct option is stored as typed, with no 1-4 check.
     */
    method AdminMenu(entries: seq<Entry>)
      modifies this
      ensures score == old(score)
      ensures questions == old(questions) + MakeQuestions(entries)
    {
      for i := 0 to |entries|
        invariant score == old(score)
        invariant questions == old(questions) + MakeQuestions(entries[..i])
      {
        assert entries[..i + 1][..i] == entries[..i];
        questions := questions + [MakeQuestion(entries[i])];
      }
      assert entries[..|entries|] == entries;
    }

    /**
     * `studentMenu` with the timer cancelled once the attempt is over, so that
     * every question is asked: the score grows by the number of right answers,
     * and the question list is not touched.
     */
    method StudentMenu(answers: seq<int>) returns (result: Attempt)
      requires |answers| == |questions|
      modifies this
      ensures questions == old(questions)
      ensures score == old(score) + CorrectCount(questions, answers)
      ensures result == if questions == [] then NoExam else Finished(score, |questions|)
    {
      if questions == [] {
        return NoExam;
      }
      var qs := questions;
      var i := 0;
      while i < |qs|
        invariant 0 <= i <= |qs| && questions == qs
        invariant score == old(score) + CorrectCount(qs[..i], answers[..i])
      {
        var q, a := qs[i], answers[i];
        CorrectCountAppend(qs[..i], answers[..i], q, a);
        assert qs[..i + 1] == qs[..i] + [q];
        assert answers[..i + 1] == answers[..i] + [a];
        if a == q.correctOption {
          score := score + 1;
        }
        i := i + 1;
      }
      assert qs[..i] == qs && answers[..i] == answers;
      result := Finished(score, |questions|);
    }
  }
}
