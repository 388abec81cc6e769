/**
 * The signup page: the `signupSchema` rules, the per-field error map built
 * from the schema's issues, the case-sensitive duplicate-email check and
 * the append to the stored `users` array.
 *
 * zod's `.email()` check is a regular expression inside the library; it is
 * a parameter `isEmail` here. Ids and timestamps (`Date.now()`,
 * `toISOString()`) are parameters too.
 */
module Signup {
  import opened Wrappers
  import opened JsText
  import opened Storage
  import Auth

  datatype Field = Name | Email | Password | ConfirmPassword

  /** One zod issue: the field in its path and its message. */
  datatype Issue = Issue(path: Field, message: string)

  datatype SignupForm = SignupForm(name: string, email: string, password: string, confirmPassword: string)
  {
    function Get(f: Field): string {
      match f
      case Name => name
      case Email => email
      case Password => password
      case ConfirmPassword => confirmPassword
    }

    /** `{ ...prev, [field]: value }` */
    function With(f: Field, value: string): (r: SignupForm)
      ensures r.Get(f) == value
      ensures forall g :: g != f ==> r.Get(g) == Get(g)
    {
      match f
      case Name => this.(name := value)
      case Email => this.(email := value)
      case Password => this.(password := value)
      case ConfirmPassword => this.(confirmPassword := value)
    }
  }

  /** The parsed form: name and email trimmed, passwords as typed. */
  datatype ValidatedSignup = ValidatedSignup(name: string, email: string, password: string, confirmPassword: string)

  /** The form as `signupSchema.parse` returns it when every rule holds. */
  function Validated(form: SignupForm): ValidatedSignup {
    ValidatedSignup(Trim(form.name), Trim(form.email), form.password, form.confirmPassword)
  }

  const MsgNameShort: string := "Name must be at least 2 characters"
  const MsgNameLong: string := "Name must be less than 50 characters"
  const MsgEmailInvalid: string := "Invalid email address"
  const MsgEmailLong: string := "Email must be less than 255 characters"
  const MsgPasswordShort: string := "Password must be at least 8 characters"
  const MsgPasswordLong: string := "Password must be less than 100 characters"
  const MsgNoUpper: string := "Password must contain at least one uppercase letter"
  const MsgNoLower: string := "Password must contain at least one lowercase letter"
  const MsgNoDigit: string := "Password must contain at least one number"
  const MsgMismatch: string := "Passwords don't match"

  // ---------------------------------------------------------------------
  // The rules, stated declaratively

  predicate HasUpper(p: string) { exists k :: 0 <= k < |p| && 'A' <= p[k] <= 'Z' }
  predicate HasLower(p: string) { exists k :: 0 <= k < |p| && 'a' <= p[k] <= 'z' }
  predicate HasDigit(p: string) { exists k :: 0 <= k < |p| && '0' <= p[k] <= '9' }

  predicate NameRule(name: string) {
    2 <= JsLength(Trim(name)) <= 50
  }

  predicate EmailRule(email: string, isEmail: string -> bool) {
    isEmail(Trim(email)) && JsLength(Trim(email)) <= 255
  }

  predicate PasswordRule(password: string) {
    8 <= JsLength(password) <= 100 && HasUpper(password) && HasLower(password) && HasDigit(password)
  }

  predicate FieldRule(form: SignupForm, f: Field, isEmail: string -> bool) {
    match f
    case Name => NameRule(form.name)
    case Email => EmailRule(form.email, isEmail)
    case Password => PasswordRule(form.password)
    case ConfirmPassword => form.password == form.confirmPassword
  }

  predicate AllRules(form: SignupForm, isEmail: string -> bool) {
    forall f :: FieldRule(form, f, isEmail)
  }

  // ---------------------------------------------------------------------
  // The issues zod reports, in its order: the fields in schema order, each
  // field's checks in declaration order, then the object-level refinement.

  predicate HasIssue(issues: seq<Issue>, f: Field) {
    exists k :: 0 <= k < |issues| && issues[k].path == f
  }

  /** Every issue of `issues` is about field `f`. */
  predicate AllAbout(issues: seq<Issue>, f: Field) {
    forall k :: 0 <= k < |issues| ==> issues[k].path == f
  }

  function Check(ok: bool, f: Field, message: string): (r: seq<Issue>)
    ensures AllAbout(r, f) && (r == [] <==> ok)
  {
    if ok then [] else [Issue(f, message)]
  }

  lemma AllAboutAppend(a: seq<Issue>, b: seq<Issue>, f: Field)
    requires AllAbout(a, f) && AllAbout(b, f)
    ensures AllAbout(a + b, f) && (a + b == [] <==> a == [] && b == [])
  {
    forall k | 0 <= k < |a + b| ensures (a + b)[k].path == f {
      if k >= |a| {
        assert (a + b)[k] == b[k - |a|];
      }
    }
  }

  function NameIssues(name: string): (r: seq<Issue>)
    ensures AllAbout(r, Name) && (r == [] <==> NameRule(name))
  {
    var n := JsLength(Trim(name));
    var short, long := Check(n >= 2, Name, MsgNameShort), Check(n <= 50, Name, MsgNameLong);
    AllAboutAppend(short, long, Name);
    short + long
  }

  function EmailIssues(email: string, isEmail: string -> bool): (r: seq<Issue>)
    ensures AllAbout(r, Email) && (r == [] <==> EmailRule(email, isEmail))
  {
    var e := Trim(email);
    var invalid, long := Check(isEmail(e), Email, MsgEmailInvalid), Check(JsLength(e) <= 255, Email, MsgEmailLong);
    AllAboutAppend(invalid, long, Email);
    invalid + long
  }

  function PasswordIssues(password: string): (r: seq<Issue>)
    ensures AllAbout(r, Password) && (r == [] <==> PasswordRule(password))
  {
    var n := JsLength(password);
    var short, long := Check(n >= 8, Password, MsgPasswordShort), Check(n <= 100, Password, MsgPasswordLong);
    var upper, lower := Check(HasUpper(password), Password, MsgNoUpper), Check(HasLower(password), Password, MsgNoLower);
    var digit := Check(HasDigit(password), Password, MsgNoDigit);
    AllAboutAppend(short, long, Password);
    AllAboutAppend(short + long, upper, Password);
    AllAboutAppend(short + long + upper, lower, Password);
    AllAboutAppend(short + long + upper + lower, digit, Password);
    short + long + upper + lower + digit
  }

  function ConfirmIssues(password: string, confirmPassword: string): (r: seq<Issue>)
    ensures AllAbout(r, ConfirmPassword) && (r == [] <==> password == confirmPassword)
  {
    Check(password == confirmPassword, ConfirmPassword, MsgMismatch)
  }

  /** All issues `signupSchema.parse` reports for `form`. */
  function SchemaIssues(form: SignupForm, isEmail: string -> bool): (r: seq<Issue>)
    ensures r == [] <==> && NameRule(form.name) && EmailRule(form.email, isEmail)
                         && PasswordRule(form.password) && form.password == form.confirmPassword
  {
    NameIssues(form.name) + EmailIssues(form.email, isEmail)
    + PasswordIssues(form.password) + ConfirmIssues(form.password, form.confirmPassword)
  }

  lemma HasIssueAppend(a: seq<Issue>, b: seq<Issue>, f: Field)
    ensures HasIssue(a + b, f) <==> HasIssue(a, f) || HasIssue(b, f)
  {
    if HasIssue(a + b, f) {
      var k :| 0 <= k < |a + b| && (a + b)[k].path == f;
      if k >= |a| {
        assert b[k - |a|].path == f;
      }
    }
    if HasIssue(a, f) {
      var k :| 0 <= k < |a| && a[k].path == f;
      assert (a + b)[k].path == f;
    }
    if HasIssue(b, f) {
      var k :| 0 <= k < |b| && b[k].path == f;
      assert (a + b)[|a| + k].path == f;
    }
  }

  lemma HasIssueAllAbout(issues: seq<Issue>, g: Field, f: Field)
    requires AllAbout(issues, g)
    ensures HasIssue(issues, f) <==> issues != [] && f == g
  {
    if issues != [] && f == g {
      assert issues[0].path == f;
    }
  }

  /** A field gets an issue exactly when its rule fails. */
  lemma {:induction false} SchemaIssuesPerField(form: SignupForm, isEmail: string -> bool, f: Field)
    ensures HasIssue(SchemaIssues(form, isEmail), f) <==> !FieldRule(form, f, isEmail)
  {
    var n, e, p, c := NameIssues(form.name), EmailIssues(form.email, isEmail),
                      PasswordIssues(form.password), ConfirmIssues(form.password, form.confirmPassword);
    HasIssueAppend(n, e, f);
    HasIssueAppend(n + e, p, f);
    HasIssueAppend(n + e + p, c, f);
    HasIssueAllAbout(n, Name, f);
    HasIssueAllAbout(e, Email, f);
    HasIssueAllAbout(p, Password, f);
    HasIssueAllAbout(c, ConfirmPassword, f);
  }

  /**
   * The name bound is inclusive: a trimmed name of 50 code units gets no
   * error although the message speaks of "less than 50"; 51 does.
   */
  lemma NameBoundIsInclusive(form: SignupForm, isEmail: string -> bool)
    ensures JsLength(Trim(form.name)) == 50 ==> Name !in FieldErrors(SchemaIssues(form, isEmail))
    ensures JsLength(Trim(form.name)) == 51 ==>
              Name in FieldErrors(SchemaIssues(form, isEmail))
              && FieldErrors(SchemaIssues(form, isEmail))[Name] == MsgNameLong
  {
    var issues := SchemaIssues(form, isEmail);
    SchemaIssuesPerField(form, isEmail, Name);
    FieldErrorsLastWins(issues, Name);
    var n, e, p, c := NameIssues(form.name), EmailIssues(form.email, isEmail),
                      PasswordIssues(form.password), ConfirmIssues(form.password, form.confirmPassword);
    HasIssueAllAbout(e, Email, Name);
    HasIssueAllAbout(p, Password, Name);
    HasIssueAllAbout(c, ConfirmPassword, Name);
    FieldErrorsIgnoresOthers(n, e, Name);
    FieldErrorsIgnoresOthers(n + e, p, Name);
    FieldErrorsIgnoresOthers(n + e + p, c, Name);
    if JsLength(Trim(form.name)) == 51 {
      assert n == [Issue(Name, MsgNameLong)];
      assert FieldErrors(n) == map[Name := MsgNameLong];
    }
  }

  /** `signupSchema.parse`: the validated data, or the issues (a `ZodError`). */
  function ParseSignup(form: SignupForm, isEmail: string -> bool): (r: Result<ValidatedSignup, seq<Issue>>)
    ensures r.Ok? <==> AllRules(form, isEmail)
    ensures r.Ok? ==> r.value == Validated(form)
    ensures r.Err? ==> r.error != [] && forall f :: HasIssue(r.error, f) <==> !FieldRule(form, f, isEmail)
  {
    var issues := SchemaIssues(form, isEmail);
    forall f ensures HasIssue(issues, f) <==> !FieldRule(form, f, isEmail) {
      SchemaIssuesPerField(form, isEmail, f);
    }
    if issues == [] then
      Ok(Validated(form))
    else
      assert HasIssue(issues, issues[0].path);
      Err(issues)
  }

  // ---------------------------------------------------------------------
  // Field errors: one message per field, the last issue about it wins

  /** `fieldErrors[err.path[0]] = err.message` for each issue in turn. */
  function FieldErrors(issues: seq<Issue>): (r: map<Field, string>)
    ensures |r| <= |issues|
  {
    if issues == [] then map[]
    else
      var last := issues[|issues| - 1];
      FieldErrors(issues[..|issues| - 1])[last.path := last.message]
  }

  /** Index k holds the last issue about field f. */
  predicate LastIssueAt(issues: seq<Issue>, f: Field, k: int) {
    0 <= k < |issues| && issues[k].path == f && forall k' :: k < k' < |issues| ==> issues[k'].path != f
  }

  /**
   * A field has an entry exactly when some issue is about it, and the entry
   * is the message of the last such issue.
   */
  lemma {:induction false} FieldErrorsLastWins(issues: seq<Issue>, f: Field)
    ensures f in FieldErrors(issues) <==> HasIssue(issues, f)
    ensures f in FieldErrors(issues) ==>
              exists k :: LastIssueAt(issues, f, k) && FieldErrors(issues)[f] == issues[k].message
  {
    if issues != [] {
      var n := |issues| - 1;
      var init := issues[..n];
      FieldErrorsLastWins(init, f);
      if issues[n].path == f {
        assert LastIssueAt(issues, f, n);
      } else {
        if HasIssue(issues, f) {
          var k :| 0 <= k < |issues| && issues[k].path == f;
          assert init[k].path == f;
        }
        if HasIssue(init, f) {
          var k :| 0 <= k < |init| && init[k].path == f;
          assert issues[k].path == f;
        }
        if f in FieldErrors(init) {
          var k :| LastIssueAt(init, f, k) && FieldErrors(init)[f] == init[k].message;
          assert LastIssueAt(issues, f, k);
        }
      }
    }
  }

  /** Issues about other fields appended later leave field f's entry alone. */
  lemma {:induction false} FieldErrorsIgnoresOthers(a: seq<Issue>, b: seq<Issue>, f: Field)
    requires !HasIssue(b, f)
    ensures f in FieldErrors(a + b) <==> f in FieldErrors(a)
    ensures f in FieldErrors(a) ==> FieldErrors(a + b)[f] == FieldErrors(a)[f]
    decreases |b|
  {
    if b == [] {
      assert a + b == a;
    } else {
      var b' := b[..|b| - 1];
      assert (a + b)[..|a + b| - 1] == a + b';
      assert b[|b| - 1].path != f;
      FieldErrorsIgnoresOthers(a, b', f);
    }
  }

  /** The `forEach` loop of the `ZodError` handler. */
  method CollectFieldErrors(issues: seq<Issue>) returns (fieldErrors: map<Field, string>)
    ensures fieldErrors == FieldErrors(issues)
  {
    fieldErrors := map[];
    for i := 0 to |issues|
      invariant fieldErrors == FieldErrors(issues[..i])
    {
      assert issues[..i + 1][..i] == issues[..i];
      fieldErrors := fieldErrors[issues[i].path := issues[i].message];
    }
    assert issues[..|issues|] == issues;
  }

  /** `handleChange`'s error clearing: only the edited field loses its error. */
  function ClearFieldError(errors: map<Field, string>, f: Field): (r: map<Field, string>)
    ensures r.Keys == errors.Keys - {f}
    ensures forall g :: g in r ==> r[g] == errors[g]
  {
    if f in errors then errors - {f} else errors
  }

  // ---------------------------------------------------------------------
  // The user list

  /** `existingUsers.some(user => user.email === email)`. */
  function EmailTaken(users: seq<UserRecord>, email: string): (taken: bool)
    ensures taken <==> exists k :: 0 <= k < |users| && users[k].email == email
  {
    if users == [] then false else users[0].email == email || EmailTaken(users[1..], email)
  }

  ghost predicate EmailsDistinct(users: seq<UserRecord>) {
    forall i, j :: 0 <= i < j < |users| ==> users[i].email != users[j].email
  }

  /**
   * The duplicate check followed by `push`: refused when some stored record
   * has the same email (case-sensitive); otherwise the record is appended
   * at the end, every earlier record is kept and emails stay distinct.
   */
  function AppendUser(users: seq<UserRecord>, record: UserRecord): (r: Option<seq<UserRecord>>)
    ensures r.None? <==> exists k :: 0 <= k < |users| && users[k].email == record.email
    ensures r.Some? ==> |r.value| == |users| + 1 && r.value[..|users|] == users && r.value[|users|] == record
    ensures r.Some? && EmailsDistinct(users) ==> EmailsDistinct(r.value)
  {
    if EmailTaken(users, record.email) then None else Some(users + [record])
  }

  // ---------------------------------------------------------------------
  // handleSubmit

  datatype SubmitOutcome = Created | DuplicateAccount | Invalid

  /** The page's error map and the storage after a submit. */
  datatype SubmitResult = SubmitResult(outcome: SubmitOutcome, errors: map<Field, string>, store: map<string, Stored>)

  function NewUser(data: ValidatedSignup, id: string, createdAt: string): UserRecord {
    UserRecord(id, data.name, data.email, data.password, createdAt)
  }

  /**
   * The part of a submit after validation succeeded: the duplicate check
   * and the append. A duplicate leaves storage alone; otherwise `users`
   * gains the new record at its end, no other key changes and distinct
   * emails stay distinct. No field error is shown either way.
   */
  function SubmitValid(data: ValidatedSignup, store: map<string, Stored>, id: string, createdAt: string): (r: SubmitResult)
    requires WellFormed(store)
    ensures WellFormed(r.store) && r.outcome != Invalid && r.errors == map[]
    ensures r.outcome == DuplicateAccount <==>
              exists k :: 0 <= k < |StoredUsers(store)| && StoredUsers(store)[k].email == data.email
    ensures r.outcome == DuplicateAccount ==> r.store == store
    ensures r.outcome == Created ==>
              && StoredUsers(r.store) == StoredUsers(store) + [NewUser(data, id, createdAt)]
              && SameExcept(store, r.store, UsersKey)
    ensures r.outcome == Created && EmailsDistinct(StoredUsers(store)) ==> EmailsDistinct(StoredUsers(r.store))
  {
    match AppendUser(StoredUsers(store), NewUser(data, id, createdAt))
    case None => SubmitResult(DuplicateAccount, map[], store)
    case Some(grown) => SubmitResult(Created, map[], store[UsersKey := UserList(grown)])
  }

  /** One submit, from the form and the storage it starts from. */
  function SubmitStep(form: SignupForm, store: map<string, Stored>, id: string, createdAt: string,
                      isEmail: string -> bool): (r: SubmitResult)
    requires WellFormed(store)
    ensures WellFormed(r.store)
    ensures r.outcome == Invalid <==> !AllRules(form, isEmail)
    ensures AllRules(form, isEmail) ==> r == SubmitValid(Validated(form), store, id, createdAt)
  {
    match ParseSignup(form, isEmail)
    case Err(issues) => SubmitResult(Invalid, FieldErrors(issues), store)
    case Ok(data) => SubmitValid(data, store, id, createdAt)
  }

  /**
   * Invalid input leaves storage alone, and the error map has an entry for
   * exactly the fields whose rule fails.
   */
  lemma SubmitRejectsInvalid(form: SignupForm, store: map<string, Stored>, id: string, createdAt: string,
                             isEmail: string -> bool)
    requires WellFormed(store) && !AllRules(form, isEmail)
    ensures var r := SubmitStep(form, store, id, createdAt, isEmail);
            r.outcome == Invalid && r.store == store
            && forall f :: f in r.errors <==> !FieldRule(form, f, isEmail)
  {
    var issues := ParseSignup(form, isEmail).error;
    forall f ensures f in FieldErrors(issues) <==> !FieldRule(form, f, isEmail) {
      FieldErrorsLastWins(issues, f);
    }
  }

  /**
   * Valid input whose trimmed email some stored user already has (exact,
   * case-sensitive comparison) leaves storage alone and clears the errors.
   */
  lemma SubmitRejectsDuplicate(form: SignupForm, store: map<string, Stored>, id: string, createdAt: string,
                               isEmail: string -> bool)
    requires WellFormed(store) && AllRules(form, isEmail)
    requires exists k :: 0 <= k < |StoredUsers(store)| && StoredUsers(store)[k].email == Trim(form.email)
    ensures var r := SubmitStep(form, store, id, createdAt, isEmail);
            r.outcome == DuplicateAccount && r.store == store && r.errors == map[]
  {
    assert Validated(form).email == Trim(form.email);
  }

  /**
   * Valid input with a new email appends exactly one record, built from the
   * trimmed name and email and the raw password, at the end of `users`;
   * every earlier record and every other key of storage is unchanged.
   */
  lemma SubmitAppendsUser(form: SignupForm, store: map<string, Stored>, id: string, createdAt: string,
                          isEmail: string -> bool)
    requires WellFormed(store) && AllRules(form, isEmail)
    requires forall k :: 0 <= k < |StoredUsers(store)| ==> StoredUsers(store)[k].email != Trim(form.email)
    ensures var r := SubmitStep(form, store, id, createdAt, isEmail);
            && r.outcome == Created && r.errors == map[]
            && StoredUsers(r.store) == StoredUsers(store) + [UserRecord(id, Trim(form.name), Trim(form.email), form.password, createdAt)]
            && SameExcept(store, r.store, UsersKey)
  {
    var data := Validated(form);
    assert NewUser(data, id, createdAt) == UserRecord(id, Trim(form.name), Trim(form.email), form.password, createdAt);
    var r := SubmitValid(data, store, id, createdAt);
    assert r.outcome != DuplicateAccount;
  }

  /** A submit never makes two stored users share an email. */
  lemma SubmitKeepsEmailsDistinct(form: SignupForm, store: map<string, Stored>, id: string, createdAt: string,
                                  isEmail: string -> bool)
    requires WellFormed(store) && EmailsDistinct(StoredUsers(store))
    ensures EmailsDistinct(StoredUsers(SubmitStep(form, store, id, createdAt, isEmail).store))
  {
    if AllRules(form, isEmail) {
      var r := SubmitValid(Validated(form), store, id, createdAt);
      assert r.outcome == DuplicateAccount ==> r.store == store;
    }
  }

  /** Mismatched passwords always fail, with the mismatch message on `confirmPassword`. */
  lemma MismatchAlwaysReported(form: SignupForm, store: map<string, Stored>, id: string, createdAt: string,
                               isEmail: string -> bool)
    requires WellFormed(store) && form.password != form.confirmPassword
    ensures var r := SubmitStep(form, store, id, createdAt, isEmail);
            r.outcome == Invalid && r.store == store
            && ConfirmPassword in r.errors && r.errors[ConfirmPassword] == MsgMismatch
  {
    var issues := SchemaIssues(form, isEmail);
    assert !FieldRule(form, ConfirmPassword, isEmail);
    FieldErrorsLastWins(issues, ConfirmPassword);
    var c := ConfirmIssues(form.password, form.confirmPassword);
    var front := issues[..|issues| - 1];
    assert issues == front + c;
  }

  /**
   * When several password checks fail, the last one wins: a password with
   * no digit is always reported with the "number" message, whatever else
   * is wrong with it.
   */
  lemma MissingDigitReportedLast(form: SignupForm, isEmail: string -> bool)
    requires !HasDigit(form.password)
    ensures var errors := FieldErrors(SchemaIssues(form, isEmail));
            Password in errors && errors[Password] == MsgNoDigit
  {
    var n, e, p, c := NameIssues(form.name), EmailIssues(form.email, isEmail),
                      PasswordIssues(form.password), ConfirmIssues(form.password, form.confirmPassword);
    var front := n + e + p;
    assert front[|front| - 1] == Issue(Password, MsgNoDigit);
    assert FieldErrors(front)[Password] == MsgNoDigit;
    HasIssueAllAbout(c, ConfirmPassword, Password);
    FieldErrorsIgnoresOthers(front, c, Password);
  }

  /**
   * An account that signup created can log in with the stored email and
   * password, provided zod's email check only accepts addresses the login
   * regex also accepts. (Login never looks at the user list.)
   */
  lemma SignupThenLogin(form: SignupForm, store: map<string, Stored>, id: string, createdAt: string,
                        isEmail: string -> bool, session: Auth.SessionState)
    requires WellFormed(store)
    requires forall e :: isEmail(e) ==> Auth.EmailPattern(e)
    requires SubmitStep(form, store, id, createdAt, isEmail).outcome == Created
    ensures Auth.LoginStep(session, Trim(form.email), form.password).0.success
  {
    var e := Trim(form.email);
    assert FieldRule(form, Email, isEmail) && FieldRule(form, Password, isEmail);
    Auth.EmailPatternIsShape(e);
  }

  // ---------------------------------------------------------------------
  // The page object

  class SignupPage {
    var formData: SignupForm
    var errors: map<Field, string>
    const storage: LocalStorage

    constructor (storage: LocalStorage)
      ensures this.storage == storage
      ensures formData == SignupForm("", "", "", "") && errors == map[]
    {
      this.storage := storage;
      formData := SignupForm("", "", "", "");
      errors := map[];
    }

    method HandleChange(field: Field, value: string)
      modifies this
      ensures formData == old(formData).With(field, value)
      ensures errors == ClearFieldError(old(errors), field)
    {
      formData := formData.With(field, value);
      if field in errors {
        errors := errors - {field};
      }
    }

    method HandleSubmit(id: string, createdAt: string, isEmail: string -> bool) returns (outcome: SubmitOutcome)
      requires storage.Valid()
      modifies this, storage
      ensures storage.Valid() && formData == old(formData)
      ensures SubmitResult(outcome, errors, storage.items)
              == SubmitStep(formData, old(storage.items), id, createdAt, isEmail)
    {
      errors := map[];
      var parsed := ParseSignup(formData, isEmail);
      if parsed.Err? {
        errors := CollectFieldErrors(parsed.error);
        return Invalid;
      }
      var data := parsed.value;
      var existingUsers := StoredUsers(storage.items);
      if EmailTaken(existingUsers, data.email) {
        return DuplicateAccount;
      }
      existingUsers := existingUsers + [NewUser(data, id, createdAt)];
      storage.SetItem(UsersKey, UserList(existingUsers));
      outcome := Created;
    }
  }
}
