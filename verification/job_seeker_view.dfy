/** The job seeker's dashboard: the searchable role list, quiz launching and scorecards. */
module JobSeekerView {
  import opened Wrappers
  import opened Types
  import Strings
  import Seqs
  import GeminiService
  import QuizFlow

  /** A role a seeker can take a quiz for. */
  datatype RoleCard = RoleCard(title: string, category: string, description: string)

  const Roles: seq<RoleCard> := [
    RoleCard("Frontend Developer", "Engineering",
      "Assess your skills in React, TypeScript, and modern CSS frameworks to build beautiful and performant user interfaces."),
    RoleCard("Data Scientist", "Data Science",
      "Test your knowledge in Python, SQL, machine learning algorithms, and statistical analysis to solve complex data problems."),
    RoleCard("Product Manager", "Product",
      "Demonstrate your expertise in product strategy, user research, roadmap planning, and agile methodologies."),
    RoleCard("UI/UX Designer", "Design",
      "Showcase your design thinking, wireframing, prototyping, and user testing skills with industry-standard tools."),
    RoleCard("Backend Engineer", "Engineering",
      "Prove your proficiency in server-side languages, database management, and API design for scalable applications."),
    RoleCard("DevOps Engineer", "Engineering",
      "Validate your skills in CI/CD, cloud infrastructure, containerization, and automation tools like Docker and Kubernetes.")
  ]

  const AllCategories: string := "All"

  /** The category tabs above the role list. */
  const Categories: seq<string> := [AllCategories, "Engineering", "Design", "Product", "Data Science"]


  /** The category matches (or is "All") and the title contains the search term, ignoring case. */
  predicate RoleMatches(r: RoleCard, searchTerm: string, category: string)
  {
    (category == AllCategories || r.category == category)
    && Strings.Contains(Strings.ToLower(r.title), Strings.ToLower(searchTerm))
  }

  /** `filteredRoles`: the matching roles, in list order. */
  function FilteredRoles(roles: seq<RoleCard>, searchTerm: string, category: string): (r: seq<RoleCard>)
    ensures forall i :: 0 <= i < |r| ==> r[i] in roles && RoleMatches(r[i], searchTerm, category)
    ensures forall i :: 0 <= i < |roles| && RoleMatches(roles[i], searchTerm, category) ==> roles[i] in r
    ensures forall c :: multiset(r)[c] == if RoleMatches(c, searchTerm, category) then multiset(roles)[c] else 0
  {
    Seqs.Filter(roles, (c: RoleCard) => RoleMatches(c, searchTerm, category))
  }

  /** Every role belongs to one of the tabs, so each role is listed under some tab. */
  lemma EveryRoleHasATab(i: nat)
    requires i < |Roles|
    ensures Roles[i].category in Categories
    ensures Roles[i] in FilteredRoles(Roles, "", Roles[i].category)
  {
    var c := Roles[i];
    assert c.category in {"Engineering", "Data Science", "Product", "Design"} by {
      assert i == 0 || i == 1 || i == 2 || i == 3 || i == 4 || i == 5;
    }
    Strings.ContainsEmpty(Strings.ToLower(c.title));
    assert RoleMatches(c, "", c.category);
  }

  /** The filtered list is the role list with some entries deleted, the rest in order. */
  lemma FilteredRolesKeepOrder(roles: seq<RoleCard>, searchTerm: string, category: string)
    ensures Seqs.IsSubsequence(FilteredRoles(roles, searchTerm, category), roles)
  {
    Seqs.FilterIsSubsequence(roles, (c: RoleCard) => RoleMatches(c, searchTerm, category));
  }

  /** With no search term and the "All" category, every role is listed. */
  lemma UnfilteredShowsAll(roles: seq<RoleCard>)
    ensures FilteredRoles(roles, "", AllCategories) == roles
  {
    forall i | 0 <= i < |roles|
      ensures RoleMatches(roles[i], "", AllCategories)
    {
      Strings.ContainsEmpty(Strings.ToLower(roles[i].title));
    }
    Seqs.FilterKeepsAll(roles, (c: RoleCard) => RoleMatches(c, "", AllCategories));
  }

  /** A completed quiz, as listed in the sidebar. */
  datatype Scorecard = Scorecard(role: string, score: int, date: string)

  datatype SeekerState = SeekerState(
    searchTerm: string,
    activeCategory: string,
    activeQuizRole: Option<string>,
    scorecards: seq<Scorecard>)

  const InitialScorecards: seq<Scorecard> := [
    Scorecard("DevOps Engineer", 92, "May 12"),
    Scorecard("Mobile Developer", 85, "Apr 28")
  ]

  /** The dashboard as it mounts: no search, the "All" tab, no quiz open, the two sample scorecards, every role listed. */
  function Init(): (r: SeekerState)
    ensures !ShowsQuiz(r) && r.scorecards == InitialScorecards
    ensures FilteredRoles(Roles, r.searchTerm, r.activeCategory) == Roles
  {
    UnfilteredShowsAll(Roles);
    SeekerState("", AllCategories, None, InitialScorecards)
  }

  /** The quiz flow replaces the dashboard exactly when the active quiz role is a non-empty string. */
  predicate ShowsQuiz(s: SeekerState)
  {
    s.activeQuizRole.Some? && s.activeQuizRole.value != ""
  }

  /** `handleStartQuiz`. */
  function StartQuiz(s: SeekerState, title: string): (r: SeekerState)
    ensures r.activeQuizRole == Some(title)
    ensures r.scorecards == s.scorecards
    ensures ShowsQuiz(r) <==> title != ""
  {
    s.(activeQuizRole := Some(title))
  }

  /**
   * `handleQuizComplete`: one new scorecard at the front, the earlier ones
   * after it unchanged, and back to the dashboard. `today` is the formatted
   * current date.
   */
  function QuizComplete(s: SeekerState, role: string, score: int, summary: string, today: string): (r: SeekerState)
    ensures |r.scorecards| == |s.scorecards| + 1
    ensures r.scorecards[0] == Scorecard(role, score, today)
    ensures r.scorecards[1..] == s.scorecards
    ensures r.activeQuizRole == None && !ShowsQuiz(r)
    ensures r.searchTerm == s.searchTerm && r.activeCategory == s.activeCategory
  {
    s.(scorecards := [Scorecard(role, score, today)] + s.scorecards, activeQuizRole := None)
  }

  /** The flow's Back button. */
  function Back(s: SeekerState): (r: SeekerState)
    ensures r.activeQuizRole == None && !ShowsQuiz(r)
    ensures r.scorecards == s.scorecards
  {
    s.(activeQuizRole := None)
  }

  /** Every role card offers a quiz that the dashboard will show. */
  lemma EveryListedRoleStartsAQuiz(s: SeekerState, i: nat)
    requires i < |Roles|
    ensures ShowsQuiz(StartQuiz(s, Roles[i].title))
  {
  }

  /**
   * A quiz whose answers the evaluator accepts ends, once the candidate
   * returns to the dashboard, with one new scorecard at the front carrying
   * the flow's role and the score from the evaluator's reply.
   */
  lemma SubmittedQuizAddsScorecard(seeker: SeekerState, flow: QuizFlow.FlowState, answers: seq<string>,
                                   service: GeminiService.EvaluationRequest -> GeminiService.ServiceReply,
                                   today: string)
    requires var reply := service(GeminiService.EvaluationRequest(flow.role,
                                    GeminiService.QuestionsAndAnswers(flow.questions, answers)));
             reply.Parsed? && GeminiService.WellShaped(reply.obj)
    ensures var reply := service(GeminiService.EvaluationRequest(flow.role,
                                   GeminiService.QuestionsAndAnswers(flow.questions, answers)));
            var finished := QuizFlow.HandleFinish(QuizFlow.HandleSubmit(flow, answers, service));
            && finished.Some?
            && var after := QuizComplete(seeker, finished.value.role, finished.value.score, finished.value.summary, today);
               && after.scorecards == [Scorecard(flow.role, reply.obj.score.value.n, today)] + seeker.scorecards
               && !ShowsQuiz(after)
  {
  }
}
