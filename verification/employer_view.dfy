/** The employer's dashboard: ask for a job role, then list the mocked top candidates for it. */
module EmployerView {
  import opened Wrappers
  import opened Types
  import Strings

  /** A pooled candidate before it is tagged with the searched role. */
  datatype PoolEntry = PoolEntry(id: string, name: string, score: int, summary: string)

  const MockCandidates: seq<PoolEntry> := [
    PoolEntry("c1", "Alex Doe", 95,
      "Exceptional problem-solver with deep knowledge of React hooks and state management. Answers demonstrate a strong understanding of performance optimization and component architecture. A clear senior-level candidate."),
    PoolEntry("c2", "Brenda Smith", 91,
      "Strong grasp of core JavaScript and React principles. Effectively explained complex topics like the virtual DOM. Shows great potential and a solid foundation for a mid-to-senior role."),
    PoolEntry("c3", "Charlie Brown", 88,
      "Solid technical skills, particularly in API integration and asynchronous JavaScript. Could improve on explaining architectural choices, but clearly capable and experienced."),
    PoolEntry("c4", "Diana Prince", 82,
      "Good understanding of UI/UX principles and CSS-in-JS. Answers were practical and user-focused. A strong contender for a frontend-focused role.")
  ]

  const RoleRequired: string := "Job role is required."

  datatype EmployerState = EmployerState(
    jobRole: string,
    jobDescription: string,
    matchedCandidates: seq<Candidate>,
    isLoading: bool,
    error: Option<string>,
    showCandidates: bool)

  /** The dashboard as it mounts: empty form, no candidates, nothing loading, no error, the list hidden. */
  function Init(): (r: EmployerState)
    ensures r.jobRole == "" && r.jobDescription == "" && r.matchedCandidates == []
    ensures !r.isLoading && r.error == None && !r.showCandidates
    ensures Strings.AllWhiteSpace(r.jobRole)
  {
    EmployerState("", "", [], false, None, false)
  }

  /** Tags every pooled candidate with the role, keeping order, ids, names, scores and summaries. */
  function WithRole(pool: seq<PoolEntry>, role: string): (r: seq<Candidate>)
    ensures |r| == |pool|
    ensures forall i :: 0 <= i < |pool| ==> r[i].role == role
  {
    seq(|pool|, i requires 0 <= i < |pool| =>
      Candidate(pool[i].id, pool[i].name, role, pool[i].score, pool[i].summary))
  }

  /** Forgetting the role gives the pool back. */
  function DropRole(cs: seq<Candidate>): seq<PoolEntry>
  {
    seq(|cs|, i requires 0 <= i < |cs| => PoolEntry(cs[i].id, cs[i].name, cs[i].score, cs[i].summary))
  }

  /** Tagging changes only the role: dropping it again recovers the pool exactly. */
  lemma WithRoleRoundTrip(pool: seq<PoolEntry>, role: string)
    ensures DropRole(WithRole(pool, role)) == pool
  {
  }

  /**
   * The click handler of `findCandidates`: a blank job role sets the error
   * and changes nothing else; otherwise the error is cleared and the loading
   * panel shown.
   */
  function FindCandidates(s: EmployerState): (r: EmployerState)
    ensures Strings.AllWhiteSpace(s.jobRole) ==> r == s.(error := Some(RoleRequired))
    ensures !Strings.AllWhiteSpace(s.jobRole) ==>
              r == s.(error := None, isLoading := true, showCandidates := true)
  {
    if Strings.Trim(s.jobRole) == "" then s.(error := Some(RoleRequired))
    else s.(error := None, isLoading := true, showCandidates := true)
  }

  /**
   * The delayed completion of `findCandidates`: the mocked pool tagged with
   * `role`, the job role as it was when the search was started.
   */
  function CandidatesArrived(s: EmployerState, role: string): (r: EmployerState)
    ensures r.matchedCandidates == WithRole(MockCandidates, role)
    ensures !r.isLoading
    ensures r.jobRole == s.jobRole && r.error == s.error && r.showCandidates == s.showCandidates
  {
    s.(matchedCandidates := WithRole(MockCandidates, role), isLoading := false)
  }

  /**
   * A whole search: the click, then (for a valid role) the delayed
   * completion. A blank role only raises the error; any other role ends
   * with the pool tagged with the role, shown, not loading and no error.
   */
  function Search(s: EmployerState): (r: EmployerState)
    ensures Strings.AllWhiteSpace(s.jobRole) ==> r == s.(error := Some(RoleRequired))
    ensures !Strings.AllWhiteSpace(s.jobRole) ==>
              && r.matchedCandidates == WithRole(MockCandidates, s.jobRole)
              && r.jobRole == s.jobRole && r.jobDescription == s.jobDescription
              && !r.isLoading && r.showCandidates && r.error == None
  {
    var clicked := FindCandidates(s);
    if Strings.Trim(s.jobRole) == "" then clicked else CandidatesArrived(clicked, s.jobRole)
  }

  /**
   * A search with a non-blank role ends with the four pooled candidates, in
   * pool order, each tagged with the role exactly as typed (untrimmed), no
   * error and the list shown.
   */
  lemma SearchOutcome(s: EmployerState)
    ensures Strings.AllWhiteSpace(s.jobRole) ==> Search(s) == s.(error := Some(RoleRequired))
    ensures !Strings.AllWhiteSpace(s.jobRole) ==>
              var r := Search(s);
              && |r.matchedCandidates| == |MockCandidates|
              && DropRole(r.matchedCandidates) == MockCandidates
              && (forall i :: 0 <= i < |r.matchedCandidates| ==> r.matchedCandidates[i].role == s.jobRole)
              && !r.isLoading && r.showCandidates && r.error == None
  {
    WithRoleRoundTrip(MockCandidates, s.jobRole);
  }
}
