/**
 * The quiz flow around the quiz screen: fetch the questions, let the
 * candidate answer, send the answers for evaluation, show the result.
 */
module QuizFlow {
  import W = Wrappers
  import opened Types
  import Strings
  import GeminiService

  /** The five screens of the flow. */
  datatype QuizState = Loading | Taking | Evaluating | Result | Error

  datatype FlowState = FlowState(
    role: string,
    state: QuizState,
    questions: seq<QuizQuestion>,
    error: W.Option<string>,
    evaluation: W.Option<QuizEvaluation>)

  const NoQuestionsMessage: string := "The AI failed to generate questions. Please try another role."

  /** The flow as it mounts: loading, nothing fetched, no error, no evaluation. */
  function Start(role: string): (r: FlowState)
    ensures r.role == role && r.state == Loading
    ensures r.questions == [] && r.error == W.None && r.evaluation == W.None
  {
    FlowState(role, Loading, [], W.None, W.None)
  }

  /**
   * The end of `fetchQuiz`: a non-empty list of questions opens the quiz; an
   * empty list or a failure shows the error screen with its message.
   */
  function FetchDone(s: FlowState, fetched: W.Result<seq<QuizQuestion>, string>): (r: FlowState)
    ensures r.role == s.role && r.evaluation == s.evaluation
    ensures r.state == Taking <==> fetched.Success? && |fetched.value| > 0
    ensures r.state == Taking ==> r.questions == fetched.value
    ensures r.state != Taking ==> r.state == Error && r.questions == s.questions
    ensures fetched.Failure? ==> r.error == W.Some(fetched.error)
    ensures fetched.Success? && |fetched.value| == 0 ==> r.error == W.Some(NoQuestionsMessage)
  {
    match fetched
    case Success(qs) =>
      if |qs| == 0 then s.(error := W.Some(NoQuestionsMessage), state := Error)
      else s.(questions := qs, state := Taking)
    case Failure(msg) => s.(error := W.Some(msg), state := Error)
  }

  /**
   * Fetching from the offline bank, the whole of `fetchQuiz` in one step:
   * the quiz with ten questions exactly when one can be built for the role,
   * otherwise the error screen with the service's generic message; the
   * "no questions" branch is never taken.
   */
  function FetchQuiz(s: FlowState, bank: seq<GeminiService.BankItem>, draws: seq<nat>): (r: FlowState)
    ensures r.role == s.role && r.evaluation == s.evaluation
    ensures r.state == Taking <==> GeminiService.CanBuildQuiz(bank, s.role)
    ensures r.state == Taking ==> |r.questions| == GeminiService.QuizSize
    ensures r.state != Taking ==> r.state == Error && r.error == W.Some(GeminiService.QuizLoadFailure)
  {
    FetchDone(s.(state := Loading), GeminiService.GenerateQuiz(bank, s.role, draws))
  }

  /**
   * What the candidate sees once the mounting fetch is done: the quiz with
   * ten questions when one can be built for the role, otherwise the error
   * panel with the generic load message.
   */
  lemma FetchQuizOutcome(role: string, bank: seq<GeminiService.BankItem>, draws: seq<nat>)
    ensures var screen := Render(FetchQuiz(Start(role), bank, draws));
            && (screen.QuizPanel? <==> GeminiService.CanBuildQuiz(bank, role))
            && (screen.QuizPanel? ==> |screen.questions| == GeminiService.QuizSize)
            && (!screen.QuizPanel? ==> screen == ErrorPanel(W.Some(GeminiService.QuizLoadFailure)))
  {
  }

  /** The first half of `handleSubmit`: the evaluating screen, which offers no quiz to resubmit. */
  function BeginSubmit(s: FlowState): (r: FlowState)
    ensures r.state == Evaluating && Render(r) == EvaluatingSpinner
    ensures r.role == s.role && r.questions == s.questions && r.error == s.error && r.evaluation == s.evaluation
  {
    s.(state := Evaluating)
  }

  /** The second half of `handleSubmit`: the result screen with the evaluation, or the error screen. */
  function SubmitDone(s: FlowState, outcome: W.Result<QuizEvaluation, string>): (r: FlowState)
    ensures r.role == s.role && r.questions == s.questions
    ensures outcome.Success? ==> r.state == Result && r.evaluation == W.Some(outcome.value) && r.error == s.error
    ensures outcome.Failure? ==> r.state == Error && r.error == W.Some(outcome.error) && r.evaluation == s.evaluation
  {
    match outcome
    case Success(e) => s.(evaluation := W.Some(e), state := Result)
    case Failure(msg) => s.(error := W.Some(msg), state := Error)
  }

  /**
   * `handleSubmit` with the remote evaluator `service`: the result state
   * holding the evaluator's reply exactly when the reply passes the shape
   * check, otherwise the error state with the generic evaluation message.
   */
  function HandleSubmit(s: FlowState, answers: seq<string>,
                        service: GeminiService.EvaluationRequest -> GeminiService.ServiceReply): (r: FlowState)
    ensures r.role == s.role && r.questions == s.questions
    ensures var reply := service(GeminiService.EvaluationRequest(s.role, GeminiService.QuestionsAndAnswers(s.questions, answers)));
            && (r.state == Result <==> reply.Parsed? && GeminiService.WellShaped(reply.obj))
            && (r.state == Result ==>
                  && r.evaluation.Some?
                  && W.Some(JNumber(r.evaluation.value.score)) == reply.obj.score
                  && W.Some(JString(r.evaluation.value.summary)) == reply.obj.summary
                  && W.Some(JArray(r.evaluation.value.improvementAreas)) == reply.obj.improvementAreas
                  && r.evaluation.value.interviewProbability == reply.obj.interviewProbability
                  && r.evaluation.value.suggestedJobTitles == reply.obj.suggestedJobTitles)
            && (r.state != Result ==> r.state == Error && r.error == W.Some(GeminiService.EvaluationFailure))
  {
    SubmitDone(BeginSubmit(s), GeminiService.EvaluateAnswers(s.role, s.questions, answers, service))
  }

  /** What `handleFinish` reports to the dashboard: role, score and summary. */
  datatype Completion = Completion(role: string, score: int, summary: string)

  /** `handleFinish`: reports completion only when there is an evaluation. */
  function HandleFinish(s: FlowState): (r: W.Option<Completion>)
    ensures r.Some? <==> s.evaluation.Some?
    ensures r.Some? ==> r.value == Completion(s.role, s.evaluation.value.score, s.evaluation.value.summary)
  {
    match s.evaluation
    case Some(e) => W.Some(Completion(s.role, e.score, e.summary))
    case None => W.None
  }

  /** The colour class of the interview outlook badge. */
  datatype Outlook = Green | Amber | Red

  /**
   * The badge colour: "high" green, "medium" amber, compared after
   * lowercasing; anything else, including a missing or null value, red. A
   * value that is neither a string nor null has no `toLowerCase`, and the
   * result screen throws (`None`).
   */
  function ProbabilityClass(p: W.Option<Json>): (r: W.Option<Outlook>)
    ensures r == W.Some(Green) <==> p.Some? && p.value.JString? && Strings.ToLower(p.value.s) == "high"
    ensures r == W.Some(Amber) <==> p.Some? && p.value.JString? && Strings.ToLower(p.value.s) == "medium"
    ensures r.None? <==> p.Some? && !p.value.JString? && !p.value.JNull?
  {
    match p
    case None => W.Some(Red)
    case Some(JNull) => W.Some(Red)
    case Some(JString(s)) =>
      var prob := Strings.ToLower(s);
      if prob == "high" then W.Some(Green) else if prob == "medium" then W.Some(Amber) else W.Some(Red)
    case Some(_) => W.None
  }

  /** The colour does not depend on letter case. */
  lemma ProbabilityClassIgnoresCase(s: string)
    ensures ProbabilityClass(W.Some(JString(s))) == ProbabilityClass(W.Some(JString(Strings.ToLower(s))))
  {
    Strings.ToLowerIdempotent(s);
  }

  /**
   * What the flow renders. `Crashed` is the result screen throwing while it
   * renders: a probability without `toLowerCase`, or suggested titles
   * without `map`.
   */
  datatype Screen =
    | LoadingSpinner
    | EvaluatingSpinner
    | ErrorPanel(message: W.Option<string>)
    | ResultPanel(evaluation: QuizEvaluation, outlook: Outlook)
    | Crashed
    | QuizPanel(questions: seq<QuizQuestion>)
    | Nothing

  /** The render order of the component: loading, evaluating, error, result with an evaluation, taking. */
  function Render(s: FlowState): (r: Screen)
    ensures r.ResultPanel? <==>
              && s.state == Result && s.evaluation.Some?
              && var e := s.evaluation.value;
                 && (e.interviewProbability.None? || e.interviewProbability.value.JString?
                     || e.interviewProbability.value.JNull?)
                 && e.suggestedJobTitles.Some? && e.suggestedJobTitles.value.JArray?
    ensures r.ResultPanel? ==>
              r.evaluation == s.evaluation.value && W.Some(r.outlook) == ProbabilityClass(r.evaluation.interviewProbability)
    ensures r.Crashed? <==> s.state == Result && s.evaluation.Some? && !r.ResultPanel?
    ensures r.QuizPanel? <==> s.state == Taking
    ensures r.Nothing? <==> s.state == Result && s.evaluation.None?
  {
    match s.state
    case Loading => LoadingSpinner
    case Evaluating => EvaluatingSpinner
    case Error => ErrorPanel(s.error)
    case Result =>
      if s.evaluation.None? then Nothing
      else
        var e := s.evaluation.value;
        (match ProbabilityClass(e.interviewProbability)
         case None => Crashed
         case Some(outlook) =>
           if e.suggestedJobTitles.Some? && e.suggestedJobTitles.value.JArray? then ResultPanel(e, outlook) else Crashed)
    case Taking => QuizPanel(s.questions)
  }

  /**
   * The shape check lets through a reply without suggested titles; the flow
   * then enters the result state and the result screen throws.
   */
  lemma ReplyWithoutTitlesCrashes(s: FlowState, answers: seq<string>,
                                  service: GeminiService.EvaluationRequest -> GeminiService.ServiceReply,
                                  o: GeminiService.ReplyObject)
    requires service(GeminiService.EvaluationRequest(s.role, GeminiService.QuestionsAndAnswers(s.questions, answers)))
             == GeminiService.Parsed(o)
    requires GeminiService.WellShaped(o) && o.suggestedJobTitles.None?
    ensures HandleSubmit(s, answers, service).state == Result
    ensures Render(HandleSubmit(s, answers, service)) == Crashed
  {
  }

  /** What holds of every state the flow reaches: a result has an evaluation, a quiz has questions. */
  predicate Consistent(s: FlowState)
  {
    (s.state == Result ==> s.evaluation.Some?) && (s.state == Taking ==> |s.questions| > 0)
  }

  /** Every transition keeps the flow consistent, so the component never falls through to rendering nothing. */
  lemma TransitionsPreserveConsistent(s: FlowState, fetched: W.Result<seq<QuizQuestion>, string>,
                                      outcome: W.Result<QuizEvaluation, string>)
    requires Consistent(s)
    ensures Consistent(FetchDone(s, fetched))
    ensures Consistent(BeginSubmit(s))
    ensures Consistent(SubmitDone(s, outcome))
    ensures Render(s) != Nothing
  {
  }

  /** The mounting state is consistent. */
  lemma StartConsistent(role: string)
    ensures Consistent(Start(role)) && Render(Start(role)) == LoadingSpinner
  {
  }
}
