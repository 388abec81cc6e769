/**
 * The mock session store of `AuthProvider`: the email format check, the
 * three ordered login guards, login, logout and the restore effect that
 * runs when the provider mounts. Login consults no user list: any pair
 * that passes the guards is signed in.
 */
module Auth {
  import opened Wrappers
  import opened JsText
  import opened Storage

  const MsgRequired: string := "Email and password are required"
  const MsgInvalidEmail: string := "Invalid email format"
  const MsgShortPassword: string := "Password must be at least 6 characters"
  const MinPasswordLength: nat := 6

  // ---------------------------------------------------------------------
  // The email regex /^[^\s@]+@[^\s@]+\.[^\s@]+$/

  /** A character of the class `[^\s@]`. */
  predicate SegmentChar(c: char) {
    !IsJsWhitespace(c) && c != '@'
  }

  /** A match of `[^\s@]+`. */
  predicate Segment(t: string) {
    |t| > 0 && forall k :: 0 <= k < |t| ==> SegmentChar(t[k])
  }

  /**
   * The language of the anchored regex: `s` splits at an `@` (index i) and
   * a later `.` (index j) into three non-empty runs of `[^\s@]`.
   */
  predicate EmailPattern(s: string)
    ensures EmailPattern(s) ==> 5 <= |s| && SegmentChar(s[0]) && SegmentChar(s[|s| - 1])
  {
    exists i, j :: 0 <= i < j < |s| && s[i] == '@' && s[j] == '.'
      && Segment(s[..i]) && Segment(s[i + 1..j]) && Segment(s[j + 1..])
  }

  predicate NoWhitespace(s: string) {
    forall k :: 0 <= k < |s| ==> !IsJsWhitespace(s[k])
  }

  /** Index i holds the one and only `@` of `s`. */
  predicate OnlyAtSignAt(s: string, i: int) {
    0 <= i < |s| && s[i] == '@' && forall k :: 0 <= k < |s| && k != i ==> s[k] != '@'
  }

  /** `d` has a `.` that is neither its first nor its last character. */
  predicate InteriorDot(d: string) {
    exists j :: 0 < j < |d| - 1 && d[j] == '.'
  }

  /**
   * The shape of an address accepted by the regex, stated without the
   * regex: no whitespace, exactly one `@` with something before it, and a
   * domain with an interior dot.
   */
  ghost predicate EmailShape(s: string) {
    NoWhitespace(s) && exists i :: 0 < i && OnlyAtSignAt(s, i) && InteriorDot(s[i + 1..])
  }

  /** Every address the regex accepts has the shape. */
  lemma PatternGivesShape(s: string)
    requires EmailPattern(s)
    ensures EmailShape(s)
  {
    var i, j :| 0 <= i < j < |s| && s[i] == '@' && s[j] == '.'
      && Segment(s[..i]) && Segment(s[i + 1..j]) && Segment(s[j + 1..]);
    var a, b, c := s[..i], s[i + 1..j], s[j + 1..];
    forall k | 0 <= k < |s|
      ensures !IsJsWhitespace(s[k]) && (k != i ==> s[k] != '@')
    {
      if k < i {
        assert s[k] == a[k];
      } else if i < k < j {
        assert s[k] == b[k - i - 1];
      } else if j < k {
        assert s[k] == c[k - j - 1];
      }
    }
    var d := s[i + 1..];
    assert d[j - i - 1] == '.';
    assert InteriorDot(d);
    assert OnlyAtSignAt(s, i);
  }

  /** Every address of that shape is accepted by the regex. */
  lemma ShapeGivesPattern(s: string)
    requires EmailShape(s)
    ensures EmailPattern(s)
  {
    var i :| 0 < i && OnlyAtSignAt(s, i) && InteriorDot(s[i + 1..]);
    var d := s[i + 1..];
    var j' :| 0 < j' < |d| - 1 && d[j'] == '.';
    var j := i + 1 + j';
    assert s[j] == '.';
    var a, b, c := s[..i], s[i + 1..j], s[j + 1..];
    assert Segment(a) by {
      forall k | 0 <= k < |a| ensures SegmentChar(a[k]) {
        assert a[k] == s[k];
      }
    }
    assert Segment(b) by {
      forall k | 0 <= k < |b| ensures SegmentChar(b[k]) {
        assert b[k] == s[i + 1 + k];
      }
    }
    assert Segment(c) by {
      forall k | 0 <= k < |c| ensures SegmentChar(c[k]) {
        assert c[k] == s[j + 1 + k];
      }
    }
  }

  /** The regex accepts exactly the addresses of that shape. */
  lemma EmailPatternIsShape(s: string)
    ensures EmailPattern(s) <==> EmailShape(s)
  {
    if EmailPattern(s) {
      PatternGivesShape(s);
    }
    if EmailShape(s) {
      ShapeGivesPattern(s);
    }
  }

  // ---------------------------------------------------------------------
  // Login guards

  /**
   * The three early returns of `login`, in order: both fields present
   * (JavaScript's `!email || !password` on strings), the email regex, then
   * a minimum password length. `None` means every guard passed.
   */
  function LoginGuard(email: string, password: string): (err: Option<string>)
    ensures err.None? <==> EmailShape(email) && JsLength(password) >= MinPasswordLength
    ensures err.Some? ==> err.value in {MsgRequired, MsgInvalidEmail, MsgShortPassword}
  {
    EmailPatternIsShape(email);
    if email == [] || password == [] then Some(MsgRequired)
    else if !EmailPattern(email) then Some(MsgInvalidEmail)
    else if JsLength(password) < MinPasswordLength then Some(MsgShortPassword)
    else None
  }

  /**
   * The guards run in order: a missing field wins over everything, and a
   * malformed email wins over a short password.
   */
  lemma LoginGuardOrder(email: string, password: string)
    ensures email == [] || password == [] ==> LoginGuard(email, password) == Some(MsgRequired)
    ensures email != [] && password != [] && !EmailShape(email)
            ==> LoginGuard(email, password) == Some(MsgInvalidEmail)
    ensures EmailShape(email) && password != [] && JsLength(password) < MinPasswordLength
            ==> LoginGuard(email, password) == Some(MsgShortPassword)
  {
    EmailPatternIsShape(email);
  }

  /** Six code units is the shortest password the length guard lets through. */
  lemma PasswordLengthBoundary(email: string, password: string)
    requires EmailShape(email) && password != []
    ensures LoginGuard(email, password).None? <==> JsLength(password) >= 6
    ensures JsLength(password) == 6 ==> LoginGuard(email, password) == None
    ensures JsLength(password) == 5 ==> LoginGuard(email, password) == Some(MsgShortPassword)
  {
    EmailPatternIsShape(email);
  }

  /**
   * Any well-formed pair signs in, whatever the session and storage hold:
   * no user list is consulted.
   */
  lemma AnyWellFormedPairPasses(s: SessionState, email: string, password: string)
    requires EmailShape(email) && JsLength(password) >= MinPasswordLength
    ensures LoginStep(s, email, password).0.success
  {
  }

  /** For example, a password nobody registered passes the guards. */
  lemma UnregisteredExamplePasses()
    ensures LoginGuard("ann@example.com", "wrong123") == None
  {
    var s := "ann@example.com";
    assert s[3] == '@' && s[11] == '.';
    assert Segment(s[..3]) && Segment(s[4..11]) && Segment(s[12..]);
    assert EmailPattern(s);
    EmailPatternIsShape(s);
  }

  // ---------------------------------------------------------------------
  // Session state and its transitions

  /** `login`'s return value `{ success, error? }`. */
  datatype LoginResponse = LoginResponse(success: bool, error: Option<string>)

  /** The provider's two state variables together with the browser storage. */
  datatype SessionState = SessionState(isAuthenticated: bool, user: Option<SessionUser>, store: map<string, Stored>)

  /** What every reachable session state satisfies. */
  predicate Consistent(s: SessionState) {
    WellFormed(s.store) && (s.isAuthenticated <==> s.user.Some?)
  }

  /** `useState(false)` and `useState(null)` over whatever storage holds. */
  function InitialSession(store: map<string, Stored>): (s: SessionState)
    ensures !s.isAuthenticated && s.user == None && s.store == store
  {
    SessionState(false, None, store)
  }

  /**
   * The mount effect: a stored session is adopted; without one the state
   * is left as it was. Storage is only read.
   */
  function RestoreStep(s: SessionState): (t: SessionState)
    requires WellFormed(s.store)
    ensures t.store == s.store
    ensures AuthKey in s.store ==> t.isAuthenticated && t.user == Some(s.store[AuthKey].user)
    ensures AuthKey !in s.store ==> t == s
    ensures Consistent(s) ==> Consistent(t)
  {
    if AuthKey in s.store then
      s.(isAuthenticated := true, user := Some(s.store[AuthKey].user))
    else s
  }

  /**
   * `login`: a guard that fails returns its message and changes nothing; on
   * success the session holds `{ email }`, under `auth` in storage too, and
   * no other key of storage is touched.
   */
  function LoginStep(s: SessionState, email: string, password: string): (r: (LoginResponse, SessionState))
    ensures r.0.success <==> LoginGuard(email, password).None?
    ensures !r.0.success ==> r.0.error == LoginGuard(email, password) && r.1 == s
    ensures r.0.success ==> r.0.error == None
    ensures r.0.success ==> && r.1.isAuthenticated && r.1.user == Some(SessionUser(email))
                            && AuthKey in r.1.store && r.1.store[AuthKey] == AuthData(SessionUser(email))
                            && SameExcept(s.store, r.1.store, AuthKey)
    ensures Consistent(s) ==> Consistent(r.1)
  {
    var err := LoginGuard(email, password);
    if err.Some? then (LoginResponse(false, err), s)
    else
      var user := SessionUser(email);
      (LoginResponse(true, None), SessionState(true, Some(user), s.store[AuthKey := AuthData(user)]))
  }

  /** `logout`: signed out in memory and in storage, other keys untouched. */
  function LogoutStep(s: SessionState): (t: SessionState)
    ensures !t.isAuthenticated && t.user == None
    ensures AuthKey !in t.store && SameExcept(s.store, t.store, AuthKey)
    ensures WellFormed(s.store) ==> Consistent(t)
  {
    SessionState(false, None, s.store - {AuthKey})
  }

  /** Logging out twice is logging out once. */
  lemma LogoutIdempotent(s: SessionState)
    ensures LogoutStep(LogoutStep(s)) == LogoutStep(s)
  {
  }

  /** After a successful login, a reload restores the same user. */
  lemma LoginThenReload(s: SessionState, email: string, password: string)
    requires WellFormed(s.store)
    requires LoginStep(s, email, password).0.success
    ensures var after := LoginStep(s, email, password).1;
            var reloaded := RestoreStep(InitialSession(after.store));
            reloaded.isAuthenticated && reloaded.user == after.user == Some(SessionUser(email))
  {
  }

  /** After logout, a reload starts signed out. */
  lemma LogoutThenReload(s: SessionState)
    requires WellFormed(s.store)
    ensures var after := LogoutStep(s);
            RestoreStep(InitialSession(after.store)) == InitialSession(after.store)
  {
  }

  // ---------------------------------------------------------------------
  // The provider object

  class AuthProvider {
    var isAuthenticated: bool
    var user: Option<SessionUser>
    const storage: LocalStorage

    function State(): SessionState
      reads this, storage
    {
      SessionState(isAuthenticated, user, storage.items)
    }

    ghost predicate Valid()
      reads this, storage
    {
      Consistent(State())
    }

    /** The provider's initial render, before the mount effect has run. */
    constructor (storage: LocalStorage)
      requires storage.Valid()
      ensures this.storage == storage
      ensures State() == InitialSession(storage.items) && Valid()
    {
      this.storage := storage;
      isAuthenticated := false;
      user := None;
    }

    /** The mount effect that reads `auth`. */
    method Restore()
      requires Valid()
      modifies this
      ensures Valid() && State() == RestoreStep(old(State()))
    {
      var stored := storage.GetItem(AuthKey);
      if stored.Some? {
        isAuthenticated := true;
        user := Some(stored.value.user);
      }
    }

    method Login(email: string, password: string) returns (r: LoginResponse)
      requires Valid()
      modifies this, storage
      ensures Valid() && (r, State()) == LoginStep(old(State()), email, password)
    {
      var err := LoginGuard(email, password);
      if err.Some? {
        return LoginResponse(false, err);
      }
      var authUser := SessionUser(email);
      storage.SetItem(AuthKey, AuthData(authUser));
      isAuthenticated := true;
      user := Some(authUser);
      r := LoginResponse(true, None);
    }

    method Logout()
      requires Valid()
      modifies this, storage
      ensures Valid() && State() == LogoutStep(old(State()))
    {
      storage.RemoveItem(AuthKey);
      isAuthenticated := false;
      user := None;
    }
  }
}
