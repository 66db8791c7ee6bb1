/**
 * The account store: registered users and the single session, kept under two
 * keys of the browser's local storage.
 */
module AuthService {
  import opened Wrappers
  import opened Types
  import Seqs

  /**
   * What the session key holds, as the reader sees it after `JSON.parse`.
   * A field missing from a parsed record reads as the empty string, which the
   * reader's truthiness check treats the same way.
   */
  datatype StoredSession =
    | EmptyText          // the key holds "", which the reader does not parse
    | Unparseable        // the text is not JSON
    | NotARecord         // the text parses to null, a number, a string, ...
    | Record(user: User) // the text parses to an object

  /** The two storage keys: the users collection and the session. */
  datatype Store = Store(users: seq<User>, session: Option<StoredSession>)

  datatype AuthError = DuplicateEmail | InvalidCredentials

  function Message(e: AuthError): string
  {
    match e
    case DuplicateEmail => "An account with this email already exists."
    case InvalidCredentials => "Invalid email or password."
  }

  /** The store after an operation, and what the operation returned or threw. */
  datatype Step<T> = Step(store: Store, result: Result<T, AuthError>)

  /** Some stored user has this email (exact, case-sensitive comparison). */
  ghost predicate EmailTaken(users: seq<User>, email: string)
  {
    exists i :: 0 <= i < |users| && users[i].email == email
  }

  /** The store's invariant: no two users share an email. */
  ghost predicate DistinctEmails(users: seq<User>)
  {
    forall i, j :: 0 <= i < j < |users| ==> users[i].email != users[j].email
  }

  ghost predicate DistinctIds(users: seq<User>)
  {
    forall i, j :: 0 <= i < j < |users| ==> users[i].id != users[j].id
  }

  /**
   * What `JSON.stringify` followed by `JSON.parse` makes of a user: a record
   * of strings survives the round trip unchanged, so this is the session
   * entry for `u`. Named so that both writes of the session read as in the
   * service.
   */
  function Serialize(u: User): StoredSession
  {
    Record(u)
  }

  /**
   * `signup`: refuses an email already in use before writing anything;
   * otherwise appends the new user and logs them in. The id (a timestamp in
   * the application) is supplied by the caller.
   */
  function Signup(st: Store, freshId: string, name: string, email: string, password: string, role: UserRole): (r: Step<User>)
    ensures r.result.Failure? <==> EmailTaken(st.users, email)
    ensures r.result.Failure? ==> r.store == st && r.result.error == DuplicateEmail
    ensures r.result.Success? ==>
              && r.result.value == User(freshId, name, email, password, RoleName(role))
              && r.store.users == st.users + [r.result.value]
              && r.store.session == Some(Serialize(r.result.value))
  {
    if Seqs.FindFirst(st.users, (u: User) => u.email == email).Some? then
      Step(st, Failure(DuplicateEmail))
    else
      var newUser := User(freshId, name, email, password, RoleName(role));
      Step(Store(st.users + [newUser], Some(Serialize(newUser))), Success(newUser))
  }

  predicate MatchesCredentials(u: User, email: string, password: string)
  {
    u.email == email && u.password == password
  }

  /** Position `i` holds the first user whose email and password both match. */
  ghost predicate IsFirstMatch(users: seq<User>, i: int, email: string, password: string)
  {
    && 0 <= i < |users|
    && MatchesCredentials(users[i], email, password)
    && forall j :: 0 <= j < i ==> !MatchesCredentials(users[j], email, password)
  }

  /**
   * `login`: succeeds exactly when some stored user matches both email and
   * password, returns and logs in the first such user, and never touches
   * the users collection. Unknown email and wrong password fail alike.
   */
  function Login(st: Store, email: string, password: string): (r: Step<User>)
    ensures r.store.users == st.users
    ensures r.result.Success? <==>
              exists i :: 0 <= i < |st.users| && MatchesCredentials(st.users[i], email, password)
    ensures r.result.Success? ==>
              && (exists i :: IsFirstMatch(st.users, i, email, password) && st.users[i] == r.result.value)
              && r.store.session == Some(Serialize(r.result.value))
    ensures r.result.Failure? ==> r.store == st && r.result.error == InvalidCredentials
  {
    match Seqs.FindFirst(st.users, (u: User) => MatchesCredentials(u, email, password))
    case None => Step(st, Failure(InvalidCredentials))
    case Some(i) =>
      assert IsFirstMatch(st.users, i, email, password);
      Step(st.(session := Some(Serialize(st.users[i]))), Success(st.users[i]))
  }

  /** `logout`: removes the session key, whatever it held. */
  function Logout(st: Store): (r: Store)
    ensures r.session == None
    ensures r.users == st.users
  {
    st.(session := None)
  }

  /** Logging out twice is logging out once. */
  lemma LogoutIdempotent(st: Store)
    ensures Logout(Logout(st)) == Logout(st)
  {
  }

  /** The reader's truthiness check: id, email, role and name are all non-empty. */
  predicate IsComplete(u: User)
  {
    u.id != "" && u.email != "" && u.role != "" && u.name != ""
  }

  /** The store after a read of the session, and the user the read returned. */
  datatype SessionRead = SessionRead(store: Store, user: Option<User>)

  /**
   * `getCurrentUser`: an absent or empty session reads as no user and changes
   * nothing; a complete record is returned as it is; anything else (text
   * that does not parse, a non-record, a record with an empty or missing
   * field) is cleared from storage and reads as no user.
   */
  function GetCurrentUser(st: Store): (r: SessionRead)
    ensures r.store.users == st.users
    ensures (st.session.None? || st.session == Some(EmptyText)) ==> r == SessionRead(st, None)
    ensures r.user.Some? <==> st.session.Some? && st.session.value.Record? && IsComplete(st.session.value.user)
    ensures r.user.Some? ==> r.store == st && st.session == Some(Record(r.user.value))
    ensures r.user.None? && st.session.Some? && st.session.value != EmptyText ==> r.store.session == None
  {
    match st.session
    case None => SessionRead(st, None)
    case Some(EmptyText) => SessionRead(st, None)
    case Some(Unparseable) => SessionRead(Logout(st), None)
    case Some(NotARecord) => SessionRead(Logout(st), None)
    case Some(Record(u)) =>
      if IsComplete(u) then SessionRead(st, Some(u)) else SessionRead(Logout(st), None)
  }

  /** Reading the session twice gives the same answer and the same store as reading it once. */
  lemma GetCurrentUserIdempotent(st: Store)
    ensures var first := GetCurrentUser(st);
            GetCurrentUser(first.store) == first
  {
  }

  /** A malformed session is cleared by the first read, so every later read finds nothing. */
  lemma MalformedSessionSelfHeals(st: Store)
    requires st.session == Some(Unparseable) || st.session == Some(NotARecord)
             || (st.session.Some? && st.session.value.Record? && !IsComplete(st.session.value.user))
    ensures GetCurrentUser(st).user == None
    ensures GetCurrentUser(st).store == Logout(st)
    ensures GetCurrentUser(GetCurrentUser(st).store) == SessionRead(Logout(st), None)
  {
  }

  /** After logging out, the session reads as no user. */
  lemma LogoutThenNoUser(st: Store)
    ensures GetCurrentUser(Logout(st)) == SessionRead(Logout(st), None)
  {
  }

  /** Signing up keeps emails distinct. */
  lemma {:induction false} SignupPreservesDistinctEmails(st: Store, freshId: string, name: string, email: string, password: string, role: UserRole)
    requires DistinctEmails(st.users)
    ensures DistinctEmails(Signup(st, freshId, name, email, password, role).store.users)
  {
    var r := Signup(st, freshId, name, email, password, role);
    if r.result.Success? {
      var us := r.store.users;
      forall i, j | 0 <= i < j < |us|
        ensures us[i].email != us[j].email
      {
        if j == |st.users| {
          assert us[i] == st.users[i];
          assert !EmailTaken(st.users, email);
        } else {
          assert us[i] == st.users[i] && us[j] == st.users[j];
        }
      }
    }
  }

  /** Signing up with an id no stored user has keeps ids distinct. */
  lemma SignupPreservesDistinctIds(st: Store, freshId: string, name: string, email: string, password: string, role: UserRole)
    requires DistinctIds(st.users)
    requires forall i :: 0 <= i < |st.users| ==> st.users[i].id != freshId
    ensures DistinctIds(Signup(st, freshId, name, email, password, role).store.users)
  {
    var r := Signup(st, freshId, name, email, password, role);
    if r.result.Success? {
      var us := r.store.users;
      forall i, j | 0 <= i < j < |us|
        ensures us[i].id != us[j].id
      {
        assert us[i] == st.users[i];
      }
    }
  }

  /** Logging in never breaks the store invariant. */
  lemma LoginPreservesDistinctEmails(st: Store, email: string, password: string)
    requires DistinctEmails(st.users)
    ensures DistinctEmails(Login(st, email, password).store.users)
  {
  }

  /**
   * A successful signup followed by a login with the same email and password
   * logs in the record just created: same id, same fields.
   */
  lemma {:induction false} SignupThenLogin(st: Store, freshId: string, name: string, email: string, password: string, role: UserRole)
    requires Signup(st, freshId, name, email, password, role).result.Success?
    ensures var s := Signup(st, freshId, name, email, password, role);
            var l := Login(s.store, email, password);
            l.result == Success(s.result.value) && l.result.value.id == freshId
  {
    var s := Signup(st, freshId, name, email, password, role);
    var u := s.result.value;
    var us := s.store.users;
    assert us[|st.users|] == u;
    assert MatchesCredentials(us[|st.users|], email, password);
    forall j | 0 <= j < |st.users|
      ensures !MatchesCredentials(us[j], email, password)
    {
      assert us[j] == st.users[j];
    }
  }

  /** Failed operations leave the users collection alone. */
  lemma FailedOperationsKeepUsers(st: Store, freshId: string, name: string, email: string, password: string, role: UserRole)
    ensures Signup(st, freshId, name, email, password, role).result.Failure? ==>
              Signup(st, freshId, name, email, password, role).store == st
    ensures Login(st, email, password).result.Failure? ==> Login(st, email, password).store == st
  {
  }
}
