/**
 * The quiz screen: a cursor over the questions and one answer slot per
 * question, with the navigation and submission rules of its buttons.
 */
module Quiz {
  import opened Wrappers
  import Strings

  /** The screen's state: the current question and the answers typed so far. */
  datatype Cursor = Cursor(index: nat, answers: seq<string>)

  /** The cursor fits a quiz of `n` questions. */
  predicate Valid(c: Cursor, n: nat)
  {
    |c.answers| == n && (if n == 0 then c.index == 0 else c.index < n)
  }

  /** The state when the screen opens: first question, every answer empty. */
  function Init(n: nat): (c: Cursor)
    ensures Valid(c, n)
    ensures c.index == 0
    ensures forall i :: 0 <= i < n ==> c.answers[i] == ""
  {
    Cursor(0, seq(n, _ => ""))
  }

  /** Typing into the answer box replaces the current answer and nothing else. */
  function ChangeAnswer(c: Cursor, text: string): (r: Cursor)
    requires c.index < |c.answers|
    ensures r.index == c.index && |r.answers| == |c.answers|
    ensures r.answers[c.index] == text
    ensures forall i :: 0 <= i < |c.answers| && i != c.index ==> r.answers[i] == c.answers[i]
  {
    c.(answers := c.answers[c.index := text])
  }

  /** `handleNext`: moves forward unless already on the last question. */
  function Next(c: Cursor, n: nat): (r: Cursor)
    ensures r.answers == c.answers
    ensures c.index + 1 < n ==> r.index == c.index + 1
    ensures c.index + 1 >= n ==> r.index == c.index
  {
    if c.index < n - 1 then c.(index := c.index + 1) else c
  }

  /** `handlePrev`: moves back unless already on the first question. */
  function Prev(c: Cursor): (r: Cursor)
    ensures r.answers == c.answers
    ensures c.index > 0 ==> r.index == c.index - 1
    ensures c.index == 0 ==> r == c
  {
    if c.index > 0 then c.(index := c.index - 1) else c
  }

  /** Navigation and typing keep the cursor inside the quiz and the answers at one per question. */
  lemma StepsPreserveValid(c: Cursor, n: nat, text: string)
    requires Valid(c, n)
    ensures Valid(Next(c, n), n)
    ensures Valid(Prev(c), n)
    ensures n > 0 ==> Valid(ChangeAnswer(c, text), n)
  {
  }

  /** Going forward then back returns to the same place, unless forward was blocked. */
  lemma PrevUndoesNext(c: Cursor, n: nat)
    requires c.index + 1 < n
    ensures Prev(Next(c, n)) == c
  {
  }

  predicate IsLastQuestion(c: Cursor, n: nat)
  {
    c.index == n - 1
  }

  /** The current answer, trimmed, is non-empty (a missing slot counts as empty). */
  predicate HasAnswer(c: Cursor)
  {
    c.index < |c.answers| && Strings.Trim(c.answers[c.index]) != ""
  }

  /** Next is shown before the last question and enabled once the current answer has content. */
  predicate NextEnabled(c: Cursor, n: nat)
  {
    !IsLastQuestion(c, n) && HasAnswer(c)
  }

  /** Submit is shown on the last question and enabled once the current answer has content. */
  predicate SubmitEnabled(c: Cursor, n: nat)
  {
    IsLastQuestion(c, n) && HasAnswer(c)
  }

  /**
   * Pressing Submit: when the button is enabled, the whole answers array is
   * handed on; otherwise nothing happens.
   */
  function Submit(c: Cursor, n: nat): (r: Option<seq<string>>)
    ensures r.Some? <==> IsLastQuestion(c, n) && c.index < |c.answers| && !Strings.AllWhiteSpace(c.answers[c.index])
    ensures r.Some? ==> r.value == c.answers
  {
    if SubmitEnabled(c, n) then Some(c.answers) else None
  }

  /** Next and Submit are never offered together, and an answer of spaces enables neither. */
  lemma ButtonsExclusive(c: Cursor, n: nat)
    ensures !(NextEnabled(c, n) && SubmitEnabled(c, n))
    ensures c.index < |c.answers| && Strings.AllWhiteSpace(c.answers[c.index]) ==>
              !NextEnabled(c, n) && !SubmitEnabled(c, n)
  {
  }

  /** On a fresh quiz nothing can be pressed until something is typed. */
  lemma FreshQuizBlocked(n: nat)
    ensures !NextEnabled(Init(n), n) && Submit(Init(n), n).None?
  {
    assert Strings.AllWhiteSpace("");
  }

  /** A submitted answers array always has one entry per question. */
  lemma SubmittedAnswersComplete(c: Cursor, n: nat)
    requires Valid(c, n)
    requires Submit(c, n).Some?
    ensures |Submit(c, n).value| == n && n > 0
  {
  }
}
