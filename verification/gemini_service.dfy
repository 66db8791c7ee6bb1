/**
 * The quiz service: picking ten questions for a role from the tagged offline
 * bank, and the parts of answer evaluation that do not depend on the remote
 * model (the question/answer text sent to it and the shape check on its reply).
 */
module GeminiService {
  import opened Wrappers
  import opened Types
  import Strings
  import Seqs

  /** A question of the offline bank, with the role and category tags it is filed under. */
  datatype BankItem = BankItem(question: string, tags: seq<string>)

  /** The number of questions in a quiz. */
  const QuizSize: nat := 10

  /** The tag roles that contain "developer" fall back to. */
  const FallbackTag: string := "engineering"

  const QuizLoadFailure: string :=
    "Failed to load the skill quiz. Please select another role or try again later."

  /** The bank items whose tags contain `tag` exactly, in bank order. */
  function Tagged(bank: seq<BankItem>, tag: string): seq<BankItem>
  {
    Seqs.Filter(bank, (q: BankItem) => tag in q.tags)
  }

  /** The items filed under the lowercased role. */
  function PrimaryPool(bank: seq<BankItem>, role: string): seq<BankItem>
  {
    Tagged(bank, Strings.ToLower(role))
  }

  /** A quiz can be built: enough direct matches, or a developer role with enough engineering items. */
  predicate CanBuildQuiz(bank: seq<BankItem>, role: string)
  {
    || |PrimaryPool(bank, role)| >= QuizSize
    || (Strings.Contains(Strings.ToLower(role), "developer") && |Tagged(bank, FallbackTag)| >= QuizSize)
  }

  /** The pool the questions are drawn from: the direct matches when there are enough, else the fallback. */
  function PoolFor(bank: seq<BankItem>, role: string): seq<BankItem>
  {
    if |PrimaryPool(bank, role)| >= QuizSize then PrimaryPool(bank, role) else Tagged(bank, FallbackTag)
  }

  /**
   * The draw itself: shuffle the pool and keep the first ten. `draws` stands
   * for the random choices of the shuffle.
   */
  function SelectFrom(pool: seq<BankItem>, draws: seq<nat>): (r: seq<BankItem>)
    requires |pool| >= QuizSize
    ensures |r| == QuizSize
    ensures multiset(r) <= multiset(pool)
  {
    var shuffled := Seqs.Shuffle(pool, draws);
    Seqs.PrefixSubMultiset(shuffled, QuizSize);
    shuffled[..QuizSize]
  }

  /**
   * The selection step of `generateQuiz`: draw from the chosen pool (a fresh
   * filtered copy; the bank is a value and is never reordered).
   */
  function SelectItems(bank: seq<BankItem>, role: string, draws: seq<nat>): (r: Result<seq<BankItem>, string>)
    ensures r.Success? <==> CanBuildQuiz(bank, role)
    ensures r.Failure? ==> r.error == QuizLoadFailure
    ensures r.Success? ==> |r.value| == QuizSize && multiset(r.value) <= multiset(PoolFor(bank, role))
    ensures r.Success? && |PrimaryPool(bank, role)| >= QuizSize ==>
              forall i :: 0 <= i < |r.value| ==> Strings.ToLower(role) in r.value[i].tags
    ensures r.Success? && |PrimaryPool(bank, role)| < QuizSize ==>
              forall i :: 0 <= i < |r.value| ==> FallbackTag in r.value[i].tags
  {
    if !CanBuildQuiz(bank, role) then Failure(QuizLoadFailure)
    else
      var pool := PoolFor(bank, role);
      var chosen := SelectFrom(pool, draws);
      if |PrimaryPool(bank, role)| >= QuizSize then
        ChosenFromPool(pool, Strings.ToLower(role), chosen);
        Success(chosen)
      else
        ChosenFromPool(pool, FallbackTag, chosen);
        Success(chosen)
  }

  /** Whatever is drawn from a pool whose items all carry `tag` carries `tag`. */
  lemma ChosenFromPool(pool: seq<BankItem>, tag: string, chosen: seq<BankItem>)
    requires forall i :: 0 <= i < |pool| ==> tag in pool[i].tags
    requires multiset(chosen) <= multiset(pool)
    ensures forall i :: 0 <= i < |chosen| ==> tag in chosen[i].tags
  {
    forall i | 0 <= i < |chosen|
      ensures chosen[i] in pool
    {
      assert chosen[i] in multiset(chosen);
    }
  }

  /** The questions without their tags. */
  function StripTags(items: seq<BankItem>): (r: seq<QuizQuestion>)
    ensures |r| == |items|
    ensures forall i :: 0 <= i < |items| ==> r[i].question == items[i].question
  {
    seq(|items|, i requires 0 <= i < |items| => QuizQuestion(items[i].question))
  }

  /**
   * `generateQuiz`: ten questions for the role, or the one generic error
   * whatever went wrong.
   */
  function GenerateQuiz(bank: seq<BankItem>, role: string, draws: seq<nat>): (r: Result<seq<QuizQuestion>, string>)
    ensures r.Success? <==> CanBuildQuiz(bank, role)
    ensures r.Failure? ==> r.error == QuizLoadFailure
    ensures r.Success? ==> |r.value| == QuizSize
    ensures r.Success? ==>
              exists chosen ::
                && |chosen| == QuizSize
                && multiset(chosen) <= multiset(PoolFor(bank, role))
                && r.value == StripTags(chosen)
  {
    match SelectItems(bank, role, draws)
    case Failure(e) => Failure(e)
    case Success(items) => Success(StripTags(items))
  }

  /** A sequence listing the elements of a multiset. */
  lemma SeqOfMultiset<T>(m: multiset<T>) returns (s: seq<T>)
    ensures multiset(s) == m
    decreases |m|
  {
    if m == multiset{} {
      s := [];
    } else {
      var x :| x in m;
      var rest := SeqOfMultiset(m - multiset{x});
      s := [x] + rest;
      assert m == multiset{x} + (m - multiset{x});
    }
  }

  /**
   * Every choice of ten items from a pool is the outcome of some random
   * draws: the selection is as arbitrary as the shuffle allows.
   */
  lemma {:induction false} EverySelectionReachable(pool: seq<BankItem>, chosen: seq<BankItem>)
    returns (draws: seq<nat>)
    requires |chosen| == QuizSize && multiset(chosen) <= multiset(pool)
    ensures |pool| >= QuizSize && SelectFrom(pool, draws) == chosen
  {
    var others := SeqOfMultiset(multiset(pool) - multiset(chosen));
    var arranged := chosen + others;
    assert multiset(arranged) == multiset(pool);
    assert |pool| == |multiset(pool)| == |arranged|;
    draws := Seqs.ShuffleReachesEveryPermutation(pool, arranged);
    assert arranged[..QuizSize] == chosen;
  }

  /** Direct matches win: with ten or more of them, the fallback is never used. */
  lemma PrimaryPoolWins(bank: seq<BankItem>, role: string, draws: seq<nat>)
    requires |PrimaryPool(bank, role)| >= QuizSize
    ensures GenerateQuiz(bank, role, draws).Success?
    ensures forall i :: 0 <= i < |SelectItems(bank, role, draws).value| ==>
              Strings.ToLower(role) in SelectItems(bank, role, draws).value[i].tags
  {
  }

  /** A role without enough direct matches and without "developer" in it gets no quiz. */
  lemma NoFallbackWithoutDeveloper(bank: seq<BankItem>, role: string, draws: seq<nat>)
    requires |PrimaryPool(bank, role)| < QuizSize
    requires !Strings.Contains(Strings.ToLower(role), "developer")
    ensures GenerateQuiz(bank, role, draws) == Failure(QuizLoadFailure)
  {
  }

  // ---------------------------------------------------------------------
  // Answer evaluation

  const NoAnswer: string := "No answer provided."

  const EvaluationFailure: string := "Failed to evaluate answers. Please try again."

  /** The answer text for question `i`: the answer, or the placeholder when it is missing or empty. */
  function AnswerText(answers: seq<string>, i: nat): (r: string)
    ensures r != ""
    ensures i < |answers| && answers[i] != "" ==> r == answers[i]
    ensures i >= |answers| || answers[i] == "" ==> r == NoAnswer
  {
    if i < |answers| && answers[i] != "" then answers[i] else NoAnswer
  }

  /** The block for question number `n` (counted from 1). */
  function QABlock(n: nat, question: string, answer: string): string
  {
    var d := Strings.NatToString(n);
    "Question " + (d + (": " + (question + ("\nAnswer " + (d + (": " + answer))))))
  }

  /** The number a block is labelled with: the digits after "Question ". */
  function BlockNumber(block: string): nat
  {
    if Strings.IsPrefix("Question ", block) then Strings.ParseDecimal(Strings.LeadingDigits(block[9..])) else 0
  }

  /** A label "Question <numeral>" followed by a non-digit reads back as its number. */
  lemma LabelReadsBack(n: nat, after: string)
    requires |after| > 0 && !Strings.IsDigit(after[0])
    ensures BlockNumber("Question " + (Strings.NatToString(n) + after)) == n
  {
    var d := Strings.NatToString(n);
    var b := "Question " + (d + after);
    assert b[..9] == "Question ";
    assert b[9..] == d + after;
    Strings.LeadingDigitsOfNumeral(d, after);
    Strings.ParseNatToString(n);
  }

  /** What a block shows: its number in the label, the question after the label, the answer at the end. */
  predicate ShowsBlock(b: string, n: nat, question: string, answer: string)
  {
    && BlockNumber(b) == n
    && Strings.OccursAt(b, question, 11 + |Strings.NatToString(n)|)
    && Strings.OccursAt(b, answer, |b| - |answer|)
  }

  /** The label of a block reads back as its number. */
  lemma QABlockNumber(n: nat, question: string, answer: string)
    ensures BlockNumber(QABlock(n, question, answer)) == n
  {
    var d := Strings.NatToString(n);
    var t0 := ": " + (question + ("\nAnswer " + (d + (": " + answer))));
    assert QABlock(n, question, answer) == "Question " + (d + t0);
    LabelReadsBack(n, t0);
  }

  /** The question follows the label. */
  lemma QABlockQuestion(n: nat, question: string, answer: string)
    ensures Strings.OccursAt(QABlock(n, question, answer), question, 11 + |Strings.NatToString(n)|)
  {
    var d := Strings.NatToString(n);
    var t1 := question + ("\nAnswer " + (d + (": " + answer)));
    var t0 := ": " + t1;
    assert QABlock(n, question, answer) == "Question " + (d + t0);
    assert Strings.OccursAt(t1, question, 0);
    Strings.OccursAfter(": ", t1, question, 0);
    Strings.OccursAfter(d, t0, question, 2);
    Strings.OccursAfter("Question ", d + t0, question, |d| + 2);
  }

  /** The block ends with the answer. */
  lemma QABlockAnswer(n: nat, question: string, answer: string)
    ensures Strings.OccursAt(QABlock(n, question, answer), answer, |QABlock(n, question, answer)| - |answer|)
  {
    var d := Strings.NatToString(n);
    var b := QABlock(n, question, answer);
    var t3 := ": " + answer;
    var t2 := "\nAnswer " + (d + t3);
    var t1 := question + t2;
    var t0 := ": " + t1;
    assert b == "Question " + (d + t0);
    assert Strings.OccursAt(answer, answer, 0);
    Strings.OccursAfter(": ", answer, answer, 0);
    Strings.OccursAfter(d, t3, answer, 2);
    Strings.OccursAfter("\nAnswer ", d + t3, answer, |d| + 2);
    Strings.OccursAfter(question, t2, answer, 8 + |d| + 2);
    Strings.OccursAfter(": ", t1, answer, |question| + 8 + |d| + 2);
    Strings.OccursAfter(d, t0, answer, 2 + |question| + 8 + |d| + 2);
    Strings.OccursAfter("Question ", d + t0, answer, |d| + 2 + |question| + 8 + |d| + 2);
    assert |b| - |answer| == 9 + |d| + 2 + |question| + 8 + |d| + 2;
  }

  /**
   * A block can be taken apart again: its label reads back as its number,
   * the question follows the label, and the block ends with the answer.
   */
  lemma QABlockParts(n: nat, question: string, answer: string)
    ensures ShowsBlock(QABlock(n, question, answer), n, question, answer)
  {
    QABlockNumber(n, question, answer);
    QABlockQuestion(n, question, answer);
    QABlockAnswer(n, question, answer);
  }

  /**
   * One block per question, in question order: block `i` is labelled with
   * the number `i + 1`, carries question `i` after the label, and ends with
   * answer `i` or the placeholder.
   */
  function QABlocks(questions: seq<QuizQuestion>, answers: seq<string>): (r: seq<string>)
    ensures |r| == |questions|
    ensures forall i :: 0 <= i < |r| ==> ShowsBlock(r[i], i + 1, questions[i].question, AnswerText(answers, i))
  {
    var r := seq(|questions|, i requires 0 <= i < |questions| => QABlock(i + 1, questions[i].question, AnswerText(answers, i)));
    assert forall i :: 0 <= i < |r| ==> ShowsBlock(r[i], i + 1, questions[i].question, AnswerText(answers, i)) by {
      forall i | 0 <= i < |r|
        ensures ShowsBlock(r[i], i + 1, questions[i].question, AnswerText(answers, i))
      {
        QABlockParts(i + 1, questions[i].question, AnswerText(answers, i));
      }
    }
    r
  }

  /**
   * The question/answer text embedded in the evaluation prompt: the blocks
   * in question order, a blank line between neighbours, and nothing else.
   */
  function QuestionsAndAnswers(questions: seq<QuizQuestion>, answers: seq<string>): (r: string)
    ensures Strings.IsJoin(r, QABlocks(questions, answers), "\n\n")
    ensures |questions| == 0 ==> r == ""
    ensures forall i :: 0 <= i < |questions| ==> Strings.Contains(r, QABlocks(questions, answers)[i])
  {
    var blocks := QABlocks(questions, answers);
    Strings.JoinLayout(blocks, "\n\n");
    Strings.JoinContainsAll(blocks, "\n\n");
    Strings.Join(blocks, "\n\n")
  }

  /** Answers past the last question never reach the text. */
  lemma ExtraAnswersIgnored(questions: seq<QuizQuestion>, answers: seq<string>)
    requires |answers| >= |questions|
    ensures QuestionsAndAnswers(questions, answers) == QuestionsAndAnswers(questions, answers[..|questions|])
  {
    assert QABlocks(questions, answers) == QABlocks(questions, answers[..|questions|]);
  }

  /** A missing answer and an empty answer read the same. */
  lemma MissingAnswersReadAsEmpty(questions: seq<QuizQuestion>, answers: seq<string>, k: nat)
    ensures QuestionsAndAnswers(questions, answers)
         == QuestionsAndAnswers(questions, answers + seq(k, _ => ""))
  {
    var padded := answers + seq(k, _ => "");
    forall i | 0 <= i < |questions|
      ensures AnswerText(answers, i) == AnswerText(padded, i)
    {
      if i < |answers| {
        assert padded[i] == answers[i];
      } else if i < |padded| {
        assert padded[i] == "";
      }
    }
    assert QABlocks(questions, answers) == QABlocks(questions, padded);
  }

  /** No two blocks are the same: they carry different numbers. */
  lemma BlockNumbersDistinct(questions: seq<QuizQuestion>, answers: seq<string>, i: nat, j: nat)
    requires i < |questions| && j < |questions| && i != j
    ensures QABlocks(questions, answers)[i] != QABlocks(questions, answers)[j]
  {
    var blocks := QABlocks(questions, answers);
    assert BlockNumber(blocks[i]) != BlockNumber(blocks[j]);
  }

  /** What the evaluation prompt is parameterised by. */
  datatype EvaluationRequest = EvaluationRequest(role: string, questionsAndAnswers: string)

  /** The fields of a parsed reply object; a field is absent or holds some JSON value. */
  datatype ReplyObject = ReplyObject(
    score: Option<Json>,
    summary: Option<Json>,
    improvementAreas: Option<Json>,
    interviewProbability: Option<Json>,
    suggestedJobTitles: Option<Json>)

  /** What the remote call yields. */
  datatype ServiceReply =
    | CallFailed           // network, authentication or quota failure
    | NotJson              // the reply text does not parse
    | NotAnObject          // it parses to something other than an object
    | Parsed(obj: ReplyObject)

  /** The reply's shape check: a numeric score, a string summary and an array of improvement areas. */
  predicate WellShaped(o: ReplyObject)
  {
    && o.score.Some? && o.score.value.JNumber?
    && o.summary.Some? && o.summary.value.JString?
    && o.improvementAreas.Some? && o.improvementAreas.value.JArray?
  }

  /**
   * Accepts a reply exactly when it is a well-shaped object, returning its
   * fields unchanged; the interview probability and the suggested titles
   * are passed through unchecked. Every failure is the same generic error.
   */
  function CheckReply(reply: ServiceReply): (r: Result<QuizEvaluation, string>)
    ensures r.Success? <==> reply.Parsed? && WellShaped(reply.obj)
    ensures r.Failure? ==> r.error == EvaluationFailure
    ensures r.Success? ==>
              && Some(JNumber(r.value.score)) == reply.obj.score
              && Some(JString(r.value.summary)) == reply.obj.summary
              && Some(JArray(r.value.improvementAreas)) == reply.obj.improvementAreas
              && r.value.interviewProbability == reply.obj.interviewProbability
              && r.value.suggestedJobTitles == reply.obj.suggestedJobTitles
  {
    match reply
    case Parsed(o) =>
      if WellShaped(o) then
        Success(QuizEvaluation(o.score.value.n, o.summary.value.s, o.improvementAreas.value.items,
                               o.interviewProbability, o.suggestedJobTitles))
      else Failure(EvaluationFailure)
    case _ => Failure(EvaluationFailure)
  }

  /**
   * Acceptance looks only at the score, the summary and the improvement
   * areas: the interview probability and the suggested titles may be
   * anything or absent, and are handed on as they came.
   */
  lemma ProbabilityAndTitlesUnchecked(o: ReplyObject, prob: Option<Json>, titles: Option<Json>)
    ensures var o' := o.(interviewProbability := prob, suggestedJobTitles := titles);
            && (CheckReply(Parsed(o)).Success? <==> CheckReply(Parsed(o')).Success?)
            && (CheckReply(Parsed(o')).Success? ==>
                  CheckReply(Parsed(o')).value
                  == CheckReply(Parsed(o)).value.(interviewProbability := prob, suggestedJobTitles := titles))
  {
  }

  /**
   * `evaluateAnswers`: sends the role and the question/answer text to the
   * remote evaluator (`service`) and hands back its reply when the reply
   * passes the shape check.
   */
  function EvaluateAnswers(role: string, questions: seq<QuizQuestion>, answers: seq<string>,
                           service: EvaluationRequest -> ServiceReply): (r: Result<QuizEvaluation, string>)
    ensures var reply := service(EvaluationRequest(role, QuestionsAndAnswers(questions, answers)));
            && (r.Success? <==> reply.Parsed? && WellShaped(reply.obj))
            && (r.Failure? ==> r.error == EvaluationFailure)
            && (r.Success? ==>
                  && Some(JNumber(r.value.score)) == reply.obj.score
                  && Some(JString(r.value.summary)) == reply.obj.summary
                  && Some(JArray(r.value.improvementAreas)) == reply.obj.improvementAreas
                  && r.value.interviewProbability == reply.obj.interviewProbability
                  && r.value.suggestedJobTitles == reply.obj.suggestedJobTitles)
  {
    CheckReply(service(EvaluationRequest(role, QuestionsAndAnswers(questions, answers))))
  }

  /** The evaluator is asked the same thing, and so answers the same, whatever follows the last answer. */
  lemma EvaluationIgnoresExtraAnswers(role: string, questions: seq<QuizQuestion>, answers: seq<string>,
                                      service: EvaluationRequest -> ServiceReply)
    requires |answers| >= |questions|
    ensures EvaluateAnswers(role, questions, answers, service)
         == EvaluateAnswers(role, questions, answers[..|questions|], service)
  {
    ExtraAnswersIgnored(questions, answers);
  }
}
