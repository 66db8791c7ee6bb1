/** The records the application passes between its components. */
module Types {
  import opened Wrappers

  /** The two kinds of account. */
  datatype UserRole = Seeker | Employer

  /** The string a role is stored as. */
  function RoleName(r: UserRole): string
  {
    match r
    case Seeker => "seeker"
    case Employer => "employer"
  }

  /**
   * An account. The role is kept as the stored string: a session read back
   * from storage may carry a role other than the two above.
   */
  datatype User = User(id: string, name: string, email: string, password: string, role: string)

  /** One quiz question as shown to the candidate (the bank's tags dropped). */
  datatype QuizQuestion = QuizQuestion(question: string)

  /** A parsed JSON value, as far as the evaluation reply needs one. */
  datatype Json =
    | JNull
    | JBool(b: bool)
    | JNumber(n: int)
    | JString(s: string)
    | JArray(items: seq<Json>)
    | JObject

  /**
   * The evaluation the external service returns, after the shape check: the
   * three checked fields have their promised shapes, the other two are
   * whatever the reply held.
   */
  datatype QuizEvaluation = QuizEvaluation(
    score: int,
    summary: string,
    improvementAreas: seq<Json>,
    interviewProbability: Option<Json>,
    suggestedJobTitles: Option<Json>)

  /** A shortlisted candidate shown to an employer. */
  datatype Candidate = Candidate(id: string, name: string, role: string, score: int, summary: string)
}
