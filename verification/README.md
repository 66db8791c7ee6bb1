# SkillMatch core, modelled in Dafny

SkillMatch is a hiring-assessment web application. Job seekers take ten-question
skill quizzes that a remote AI service scores. Employers browse a mocked
candidate shortlist. This project models the sequential logic behind the
screens as immutable datatypes and pure transition functions, and proves
properties of them:

- **Account store** (`auth_service.dfy`): the users collection and the single
  session, kept under two keys of local storage. Covers `signup`, `login`,
  `logout` and the self-healing `getCurrentUser`.
- **Quiz service** (`gemini_service.dfy`): `generateQuiz` picks ten questions
  from a tagged offline bank. It uses the role's own tag, and falls back to the
  "engineering" tag for roles containing "developer". The module also has the
  question/answer text that `evaluateAnswers` sends, and the shape check it
  applies to the reply.
- **Quiz screen** (`quiz.dfy`): a cursor over the questions plus one answer
  slot per question. Covers Next, Previous and Submit and when they are
  enabled.
- **Quiz flow** (`quiz_flow.dfy`): the five-state machine loading → taking →
  evaluating → result / error. Also the completion callback and the colour
  class of the interview outlook.
- **Job seeker dashboard** (`job_seeker_view.dfy`): role filtering by category
  and case-insensitive search, starting a quiz, and prepending a scorecard.
- **Employer dashboard** (`employer_view.dfy`): job-role validation and tagging
  the mocked candidates with the role.
- **Controller** (`app.dfy`): which page is shown, from the view, the user and
  the role. Also the login, signup, logout and modal transitions. The
  invariant: at most one modal is open, and the in-memory user is exactly
  what a fresh read of the stored session would return.

Shared pieces:
- `wrappers.dfy`: `Option` and `Result`.
- `strings.dfy`: `toLowerCase`, `includes`, `trim`, decimal formatting and
  `join`.
- `seqs.dfy`: `filter`, `find`, and a shuffle driven by random draws.
- `types.dfy`: the records the components share.

Where the external world enters, the model takes it as a parameter:
- the clock's id for a new account (`freshId`);
- the shuffle's random choices (`draws`);
- the offline question bank (`bank`);
- the remote evaluator (`service`, a function from the request to its reply);
- today's date for a scorecard (`today`).

The bank is an immutable value, so the shuffle never reorders it. The source
sorts a fresh `filter` result, which has the same effect.

Behaviour of the code worth noting:
- The reply check looks only at `score`, `summary` and `improvementAreas`. A
  reply without `interviewProbability` or `suggestedJobTitles`, or with either
  of any shape, is accepted (`GeminiService.ProbabilityAndTitlesUnchecked`).
  The result screen later calls `.map` on the suggested titles and
  `toLowerCase` on the probability. So an accepted reply can make the result
  screen throw: `QuizFlow.Render` returns `Crashed` for it, and
  `QuizFlow.ReplyWithoutTitlesCrashes` shows a reply without titles getting
  there.
- A quiz that cannot be built fails with the one generic "Failed to load the
  skill quiz…" message, not an error that names the role.
- The quiz flow is shown when `activeQuizRole` is truthy. An empty role title
  therefore shows the dashboard, not the quiz.

## Model

| member | source | states |
|---|---|---|
| AuthService.Signup | services/authService.ts:21-42 | fails with the duplicate-email error exactly when some stored user has the same email (exact comparison), and then leaves users and session unchanged; otherwise appends exactly the new record {id, name, email, password, role} after the unchanged earlier records, stores it as the session and returns it |
| AuthService.SignupPreservesDistinctEmails | services/authService.ts:22-36 | signup keeps all stored emails distinct |
| AuthService.SignupPreservesDistinctIds | services/authService.ts:27-35 | when the new id is not already used, signup keeps all ids distinct (the clock-based id alone does not guarantee this) |
| AuthService.Login | services/authService.ts:48-58 | succeeds exactly when some stored user matches both email and password; returns the first such user and stores it as the session; never changes the users list; on failure returns the single invalid-credentials error and changes nothing |
| AuthService.LoginPreservesDistinctEmails | services/authService.ts:48-58 | login keeps the distinct-email invariant |
| AuthService.SignupThenLogin | services/authService.ts:21-58 | after a successful signup, logging in with the same email and password returns the record just created, with the same id |
| AuthService.FailedOperationsKeepUsers | services/authService.ts:21-58 | a failed signup or login leaves the whole store as it was |
| AuthService.Logout | services/authService.ts:63-65 | leaves the session absent and the users untouched |
| AuthService.LogoutIdempotent | services/authService.ts:63-65 | logging out twice equals logging out once |
| AuthService.LogoutThenNoUser | services/authService.ts:63-75 | after logout, reading the session returns no user and changes nothing |
| AuthService.GetCurrentUser | services/authService.ts:71-92 | absent or empty session: no user, nothing changes; a record with non-empty id, email, role and name: returned unchanged, store untouched; anything else: no user and the session is cleared |
| AuthService.GetCurrentUserIdempotent | services/authService.ts:71-92 | a second read returns the same user and store as the first |
| AuthService.MalformedSessionSelfHeals | services/authService.ts:77-91 | unparseable text, a non-record, or a record with an empty field reads as no user, clears the session, and every later read also finds no user |
| GeminiService.SelectItems | services/geminiService.ts:9-33 | succeeds exactly when the lowercased role's tag has at least ten items, or the role contains "developer" and the engineering tag has at least ten; picks ten distinct items (a sub-multiset) of the pool it uses; each carries that pool's tag; any failure is the one generic message |
| GeminiService.SelectFrom | services/geminiService.ts:19-20 | shuffling a pool of at least ten and slicing the first ten yields exactly ten items, a sub-multiset of the pool (no item twice unless it is in the pool twice) |
| GeminiService.ChosenFromPool | services/geminiService.ts:12-20 | when every item of a filtered pool carries the filter's tag, so does every item drawn from it |
| GeminiService.GenerateQuiz | services/geminiService.ts:9-33 | same success condition and generic error; on success exactly ten questions, the question texts of ten distinct pool items with tags dropped |
| GeminiService.EverySelectionReachable | services/geminiService.ts:19-26 | any ten items forming a sub-multiset of the pool are the outcome of some random draws of the shuffle-and-slice |
| GeminiService.PrimaryPoolWins | services/geminiService.ts:11-28 | with ten or more direct matches, the quiz succeeds and every chosen item carries the role's own tag (the fallback is not used) |
| GeminiService.NoFallbackWithoutDeveloper | services/geminiService.ts:14-22 | fewer than ten direct matches and no "developer" in the role always fail with the generic message |
| GeminiService.AnswerText | services/geminiService.ts:37-39 | the answer for question i is the given answer when present and non-empty, otherwise "No answer provided."; never empty |
| GeminiService.ExtraAnswersIgnored | services/geminiService.ts:37-39 | answers beyond the last question do not change the question/answer text |
| GeminiService.MissingAnswersReadAsEmpty | services/geminiService.ts:37-39 | a missing answer and an empty answer produce the same text |
| GeminiService.LabelReadsBack | services/geminiService.ts:38 | the label "Question " followed by a number's decimal numeral and a non-digit reads back as that number |
| GeminiService.QABlockParts | services/geminiService.ts:38 | a block can be taken apart: its label reads back as its number, the question text follows the label, and the block ends with the answer |
| GeminiService.QABlocks | services/geminiService.ts:37-38 | one block per question, in order: block i reads back as number i + 1, carries question i after its label, and ends with answer i or "No answer provided." |
| GeminiService.QuestionsAndAnswers | services/geminiService.ts:37-39 | the text is exactly the blocks in question order with a blank line between neighbours: block i at its offset, "\n\n" right after every block but the last, and the text ending where the last block ends; with no questions it is empty |
| GeminiService.BlockNumbersDistinct | services/geminiService.ts:37-38 | no two blocks of the text are equal, because their numbers differ |
| GeminiService.CheckReply | services/geminiService.ts:78-89 | accepts exactly a parsed object whose score is a number, summary a string and improvementAreas an array; copies those fields and passes interviewProbability and suggestedJobTitles through unchecked; every failure is the one generic error |
| GeminiService.ProbabilityAndTitlesUnchecked | services/geminiService.ts:82-84 | for every reply object, replacing or removing interviewProbability and suggestedJobTitles does not change whether it is accepted; an accepted reply carries the new values |
| GeminiService.EvaluateAnswers | services/geminiService.ts:36-90 | the evaluator is asked with the role and the question/answer text; the call succeeds exactly when its reply is well shaped and then returns that reply's five fields; otherwise the generic error |
| GeminiService.EvaluationIgnoresExtraAnswers | services/geminiService.ts:36-39 | answers past the last question change neither the request nor the outcome |
| Seqs.Filter | services/geminiService.ts:12 | every element satisfying the predicate is kept as many times as it occurs in the input, and no other element is kept |
| Seqs.FindFirst | services/authService.ts:50 | returns the position of the first element satisfying the predicate, or none when no element does |
| Seqs.Shuffle | services/geminiService.ts:25 | whatever the random draws, the result is a permutation of the input |
| Seqs.ShuffleReachesEveryPermutation | services/geminiService.ts:25 | every permutation of the input is produced by some draws |
| Seqs.FilterEmbeds | components/JobSeekerView.tsx:69 | the filtered elements appear in the input at strictly increasing positions |
| Strings.ToLower | services/geminiService.ts:11 | same length as the input, each ASCII capital replaced by its small letter and every other character kept |
| Strings.Trim | components/Quiz.tsx:38 | the result is a slice of the input with only white space cut from either end; it is empty exactly when the input is all white space |
| Strings.ContainsIff | components/JobSeekerView.tsx:71 | the left-to-right substring scan succeeds exactly when the substring occurs at some position |
| Strings.LeadingDigits | services/geminiService.ts:38 | the longest prefix made of decimal digits: the next character, if any, is not a digit |
| Strings.LeadingDigitsOfNumeral | services/geminiService.ts:38 | a numeral followed by a non-digit is read off exactly |
| Strings.JoinContainsParts | services/geminiService.ts:39 | every part occurs in the joined string at some position |
| Strings.JoinLength | services/geminiService.ts:39 | the joined string ends where the last part ends |
| Strings.JoinPartAt | services/geminiService.ts:39 | part i sits at its offset: after every earlier part and one separator per earlier part |
| Strings.JoinSepAt | services/geminiService.ts:39 | a separator follows every part but the last |
| Strings.JoinLayout | services/geminiService.ts:39 | `join` lays out its parts in order, separated by the separator, with nothing else |
| Strings.JoinContainsAll | services/geminiService.ts:39 | `join` of no parts is empty, and the joined string includes every part |
| Strings.ParseNatToString | services/geminiService.ts:38 | the decimal numeral of a question number reads back as that number |
| Quiz.Init | components/Quiz.tsx:12-13 | starts on the first question with one empty answer per question |
| Quiz.ChangeAnswer | components/Quiz.tsx:15-19 | replaces only the current answer; the length and every other answer stay the same |
| Quiz.Next | components/Quiz.tsx:21-25 | advances only when the current question is not the last; the answers stay the same |
| Quiz.Prev | components/Quiz.tsx:27-31 | goes back only when the current question is not the first |
| Quiz.StepsPreserveValid | components/Quiz.tsx:12-31 | navigation and typing keep the index within 0 to n-1 and the answers at length n |
| Quiz.PrevUndoesNext | components/Quiz.tsx:21-31 | before the last question, Previous undoes Next |
| Quiz.Submit | components/Quiz.tsx:77-85 | Submit hands on the whole answers array exactly when on the last question with a current answer that is not all white space |
| Quiz.ButtonsExclusive | components/Quiz.tsx:68-85 | Next and Submit are never both enabled, and a white-space answer enables neither |
| Quiz.FreshQuizBlocked | components/Quiz.tsx:13-38 | on a fresh quiz neither Next nor Submit can be pressed |
| Quiz.SubmittedAnswersComplete | components/Quiz.tsx:33-35 | a submitted answers array has one entry per question |
| QuizFlow.FetchDone | components/QuizFlow.tsx:23-33 | a non-empty question list moves to taking with those questions; an empty list or a failure moves to error with its message |
| QuizFlow.FetchQuiz | components/QuizFlow.tsx:23-33 | on the offline bank the flow reaches taking with ten questions exactly when a quiz can be built for the role, else error with the generic load message; the empty-list branch is never taken |
| QuizFlow.FetchQuizOutcome | components/QuizFlow.tsx:17-33 | once the mounting fetch is done the candidate sees the ten-question quiz when one can be built, else the error panel with the generic load message |
| QuizFlow.BeginSubmit | components/QuizFlow.tsx:40 | moves to evaluating, which renders the evaluating spinner, and keeps everything else |
| QuizFlow.SubmitDone | components/QuizFlow.tsx:38-48 | a successful evaluation moves to result with the evaluation stored; a failure moves to error with its message |
| QuizFlow.HandleSubmit | components/QuizFlow.tsx:38-48 | reaches the result state exactly when the evaluator's reply passes the shape check, holding that reply's five fields; otherwise the error state with the generic evaluation message |
| QuizFlow.HandleFinish | components/QuizFlow.tsx:50-54 | reports (role, score, summary) exactly when an evaluation exists |
| QuizFlow.ProbabilityClass | components/QuizFlow.tsx:89-90 | "high" in any letter case is green, "medium" amber, any other string, null or missing value red; other values make the screen throw |
| QuizFlow.ProbabilityClassIgnoresCase | components/QuizFlow.tsx:89-90 | the colour does not depend on letter case |
| QuizFlow.Render | components/QuizFlow.tsx:56-153 | in the result state with an evaluation, the result panel renders exactly when the probability is missing, null or a string and the suggested titles are an array, with the badge colour of the probability; otherwise rendering throws; the quiz renders exactly in the taking state |
| QuizFlow.ReplyWithoutTitlesCrashes | components/QuizFlow.tsx:88-126 | a reply that passes the shape check without suggested titles puts the flow in the result state, whose screen then throws |
| QuizFlow.TransitionsPreserveConsistent | components/QuizFlow.tsx:17-48 | every transition keeps "result has an evaluation, taking has questions", so the final `return null` is never reached |
| QuizFlow.Start | components/QuizFlow.tsx:17-20 | the flow mounts loading, with no questions, no error and no evaluation |
| QuizFlow.StartConsistent | components/QuizFlow.tsx:17-20 | the flow starts consistent, in the loading state |
| JobSeekerView.FilteredRoles | components/JobSeekerView.tsx:68-74 | a role is listed exactly when its category matches (or the category is "All") and its lowercased title contains the lowercased search term, as many times as it occurs in the role list |
| JobSeekerView.EveryRoleHasATab | components/JobSeekerView.tsx:16-49 | every role's category is one of the tabs, and the role is listed under its own tab with an empty search |
| JobSeekerView.Init | components/JobSeekerView.tsx:52-66 | the dashboard mounts with no quiz open, the two sample scorecards, and every role listed |
| JobSeekerView.FilteredRolesKeepOrder | components/JobSeekerView.tsx:68-74 | the listed roles are an order-preserving subsequence of the role list |
| JobSeekerView.UnfilteredShowsAll | components/JobSeekerView.tsx:68-74 | with an empty search and "All", every role is listed |
| JobSeekerView.StartQuiz | components/JobSeekerView.tsx:76-78 | records the chosen role; the quiz is shown exactly when the title is non-empty |
| JobSeekerView.QuizComplete | components/JobSeekerView.tsx:80-88 | prepends exactly one scorecard {role, score, date}, keeps the earlier ones after it unchanged, and closes the quiz |
| JobSeekerView.Back | components/JobSeekerView.tsx:90-98 | closes the quiz and keeps the scorecards |
| JobSeekerView.SubmittedQuizAddsScorecard | components/JobSeekerView.tsx:80-97 | when the evaluator accepts the answers, finishing the flow reports a completion and the dashboard gains one scorecard at the front with the flow's role and the reply's score, the earlier cards after it, and the quiz closed |
| JobSeekerView.EveryListedRoleStartsAQuiz | components/JobSeekerView.tsx:16-47 | starting any listed role shows the quiz flow |
| EmployerView.Init | components/EmployerView.tsx:18-23 | the dashboard mounts with an empty form, no candidates, nothing loading, no error and the list hidden |
| EmployerView.WithRole | components/EmployerView.tsx:36 | one candidate per pool entry, each with the given role |
| EmployerView.WithRoleRoundTrip | components/EmployerView.tsx:36 | tagging changes only the role: dropping it recovers the pool in order |
| EmployerView.FindCandidates | components/EmployerView.tsx:25-32 | an all-white-space job role sets "Job role is required." and changes nothing else; otherwise clears the error and sets loading and show-candidates |
| EmployerView.CandidatesArrived | components/EmployerView.tsx:35-39 | sets the matched list to the pool tagged with the role and turns loading off |
| EmployerView.Search | components/EmployerView.tsx:25-40 | a blank role only sets the error; any other role ends with the pool tagged with that role, the list shown, no error and not loading |
| EmployerView.SearchOutcome | components/EmployerView.tsx:25-40 | a search with a non-blank role ends with the four pooled candidates in order, each tagged with the untrimmed role, no error and not loading |
| App.Start | App.tsx:15-19 | the initial user is whatever reading the session returns; no modal open, no error, main view |
| App.RenderContent | App.tsx:67-83 | pricing view gives the pricing page whatever the login state; otherwise seeker and employer roles give their dashboards, and no user or any other role gives the landing page |
| App.HandleLogout | App.tsx:21-25 | clears the session and the user and resets the view to main |
| App.OpenSignupModal | App.tsx:27-31 | opens signup, closes login, clears the error |
| App.OpenLoginModal | App.tsx:33-37 | opens login, closes signup, clears the error |
| App.HandleLogin | App.tsx:39-51 | success sets the user, closes the login modal, clears the error, shows main and answers true; failure records the message, leaves user and store alone and answers false |
| App.HandleSignup | App.tsx:53-65 | the same for signup and the signup modal |
| App.StartCoherent | App.tsx:15 | on a store of complete users the mounted controller is coherent |
| App.EventPreservesCoherent | App.tsx:14-122 | every user action keeps at most one modal open and keeps the in-memory user equal to what a fresh session read returns, given a signup with non-empty id, name and email (the form's required fields and the clock id guarantee these) |
| App.Apply | App.tsx:98-127 | only login, signup and logout change the store or the user; a re-render may clear a malformed session but keeps the controller state; navigation sets only the view |
| App.RerenderChangesNothing | App.tsx:15 | on a coherent controller, the session read that every render repeats returns the user in memory and changes nothing |
| App.LogoutShowsLanding | App.tsx:21-25 | after logout the landing page is shown |
| App.LoginShowsDashboard | App.tsx:39-80 | after a successful login the dashboard for the stored role is shown |
| App.SignupShowsDashboard | App.tsx:53-80 | after a successful signup the dashboard for the chosen role is shown |

## Left out

- Local storage and `JSON.parse`/`JSON.stringify` are an abstract two-key store. The users key holds an already-parsed list (an absent key is the empty list). A users value that fails to parse would make `signup` and `login` throw a parse error; that is not modelled.
- AuthService.GetCurrentUser: session fields are strings, and a missing field reads as `""`. Both are falsy in the source's check. Non-string field values, such as a numeric id, are not modelled.
- Account ids come from the clock in the source. The model takes them as the `freshId` parameter, and id uniqueness is proved only for a fresh id.
- The shuffle in the source is an array sort with a random comparator. The model replaces it with a shuffle driven by arbitrary draws, which is proved to reach every permutation. The probability distribution is not modelled.
- The offline question bank is a separate module that is not part of this model. It is the `bank` parameter.
- The remote AI call is the `service` parameter. The fixed instruction text of the prompt is not modelled. The prompt is represented by the role and the question/answer text. The model receives the reply already parsed. Scores are integers; fractional and NaN numbers are not modelled.
- Strings.ToLower: lowercases only ASCII A–Z, while `toLowerCase` handles all of Unicode. The comparisons against "high", "medium", "developer" and "engineering" are unaffected. A role, role title or search term with non-ASCII capitals is not modelled: the source lowercases "ÉLECTRICIEN" to "électricien" and finds a tag "électricien", while the model keeps the "É" and finds no direct match.
- React hooks, `useEffect` and `setTimeout` become sequential transitions. The employer search is two steps, and the second step uses the job role captured at the click. A quiz flow that refetches after a role change is not modelled.
- The quiz screen with zero questions (the source would throw while rendering) is not modelled. The flow never shows an empty quiz (`QuizFlow.TransitionsPreserveConsistent`).
- Logging, the unused `navigateTo` helper, progress bars, score colour thresholds, date formatting, first-name display, avatars, and the markup-only components (landing, header, pricing, the two modals, candidate card) are left out.
- QuizFlow.Render: React refuses a JSON object as a list item, so an improvement area or suggested title that is an object would also make the result screen throw. The model still renders those lists. Only the shapes of the two fields themselves are modelled.
- Concurrent writers from several browser tabs are out of scope.
