/** The two tables, their insert shapes, and the zod schemas derived from them
    (shared/schema.ts). */
module Schema {
  import opened Wrappers
  import opened Text
  import opened Json

  /** A row of `users`: `username` is unique and non-null, `isAdmin` defaults to false. */
  datatype User = User(id: nat, username: string, password: string, isAdmin: bool)

  /** A row of `loan_leads`. `mobileNumber`, `occupationType`, `status` and
      `createdAt` are NOT NULL; the rest are nullable (`None`). `createdAt` is a
      millisecond timestamp. */
  datatype LoanLead = LoanLead(
    id: nat,
    fullName: Option<string>,
    mobileNumber: string,
    email: Option<string>,
    panCard: Option<string>,
    occupationType: string,
    companyName: Option<string>,
    monthlySalary: Option<int>,
    status: string,
    createdAt: int)

  /** What the application hands to the insert: the seven pickable columns and
      nothing else, so `id`, `status` and `createdAt` cannot be supplied. Values
      are as the driver receives them; `None` is NULL or undefined, and NOT NULL
      and integer-column checks happen in the store. */
  datatype InsertLead = InsertLead(
    fullName: Option<string>,
    mobileNumber: Option<string>,
    email: Option<string>,
    panCard: Option<string>,
    occupationType: Option<string>,
    companyName: Option<string>,
    monthlySalary: Option<Num>)

  /** `insertUserSchema`: username, password and an optional admin flag. */
  datatype InsertUser = InsertUser(username: string, password: string, isAdmin: Option<bool>)

  /** What the login responses and the auth status expose: no password. */
  datatype PublicUser = PublicUser(id: nat, username: string, isAdmin: bool)

  datatype Credentials = Credentials(username: string, password: string)

  /** The default status of a new lead. */
  const NewStatus: string := "new"

  /** The body keys `insertLoanLeadSchema` keeps, in column order; zod drops all others. */
  const InsertLeadKeys: seq<string> :=
    ["fullName", "mobileNumber", "email", "panCard", "occupationType", "companyName", "monthlySalary"]

  function Project(u: User): (p: PublicUser)
    ensures p.id == u.id && p.username == u.username && p.isAdmin == u.isAdmin
  {
    PublicUser(u.id, u.username, u.isAdmin)
  }

  /** Two users look the same from outside exactly when they differ at most in
      their password: the password is the one column never exposed. */
  lemma ProjectIgnoresPassword(u: User, v: User)
    ensures Project(u) == Project(v) <==> u.(password := v.password) == v
  {
    if Project(u) == Project(v) {
      assert u.id == v.id && u.username == v.username && u.isAdmin == v.isAdmin;
    }
  }

  /** A nullable text column as the body carries it: a string is kept, null and
      undefined become NULL. */
  predicate TextCarried(v: Option<Value>, column: Option<string>) {
    && (v.Some? && v.value.Str? ==> column == Some(v.value.s))
    && (v.None? || v.value.Null? ==> column.None?)
  }

  /** A nullable number column as the body carries it. */
  predicate NumberCarried(v: Option<Value>, column: Option<Num>) {
    && (v.Some? && v.value.Number? ==> column == Some(Int(v.value.n)))
    && (v.None? || v.value.Null? ==> column.None?)
  }

  /** The zod message for a value of the wrong type (`undefined` reads "Required"). */
  function TypeIssue(expected: string, v: Option<Value>): string {
    if v.None? then "Required" else "Expected " + expected + ", received " + TypeName(v.value)
  }

  /** `z.string()`: a string, and nothing else. */
  function RequiredText(v: Option<Value>): (r: Result<string, string>)
    ensures r.Success? <==> v.Some? && v.value.Str?
    ensures r.Success? ==> r.value == v.value.s
  {
    if v.Some? && v.value.Str? then Success(v.value.s) else Failure(TypeIssue("string", v))
  }

  /** `z.string().nullable().optional()`: a string, null or undefined. */
  function NullableText(v: Option<Value>): (r: Result<Option<string>, string>)
    ensures r.Success? <==> v.None? || v.value.Null? || v.value.Str?
    ensures r.Success? ==> (r.value.Some? <==> v.Some? && v.value.Str?)
    ensures r.Success? && r.value.Some? ==> r.value.value == v.value.s
  {
    match v
    case None => Success(None)
    case Some(Null) => Success(None)
    case Some(Str(s)) => Success(Some(s))
    case Some(_) => Failure(TypeIssue("string", v))
  }

  /** `z.number().nullable().optional()`: a number, null or undefined. */
  function NullableNumber(v: Option<Value>): (r: Result<Option<Num>, string>)
    ensures r.Success? <==> v.None? || v.value.Null? || v.value.Number?
    ensures r.Success? ==> (r.value.Some? <==> v.Some? && v.value.Number?)
    ensures r.Success? && r.value.Some? ==> r.value.value == Int(v.value.n)
  {
    match v
    case None => Success(None)
    case Some(Null) => Success(None)
    case Some(Number(n)) => Success(Some(Int(n)))
    case Some(_) => Failure(TypeIssue("number", v))
  }

  /** The messages of the failed results, in order. */
  function Issues<T>(r: Result<T, string>): seq<string> {
    if r.Failure? then [r.error] else []
  }

  /** `insertLoanLeadSchema.parse(body)`: each of the seven picked fields is
      checked in column order, every issue is collected, and the keys not picked
      are dropped. */
  function ParseInsertLead(body: Object): (r: Result<InsertLead, seq<string>>)
    ensures r.Failure? ==> |r.error| > 0
    ensures r.Success? <==>
      && Get(body, "mobileNumber").Some? && Get(body, "mobileNumber").value.Str?
      && Get(body, "occupationType").Some? && Get(body, "occupationType").value.Str?
      && NullableText(Get(body, "fullName")).Success?
      && NullableText(Get(body, "email")).Success?
      && NullableText(Get(body, "panCard")).Success?
      && NullableText(Get(body, "companyName")).Success?
      && NullableNumber(Get(body, "monthlySalary")).Success?
    ensures r.Success? ==>
      && r.value.mobileNumber == Some(body["mobileNumber"].s)
      && r.value.occupationType == Some(body["occupationType"].s)
      && TextCarried(Get(body, "fullName"), r.value.fullName)
      && TextCarried(Get(body, "email"), r.value.email)
      && TextCarried(Get(body, "panCard"), r.value.panCard)
      && TextCarried(Get(body, "companyName"), r.value.companyName)
      && NumberCarried(Get(body, "monthlySalary"), r.value.monthlySalary)
  {
    var fullName := NullableText(Get(body, "fullName"));
    var mobile := RequiredText(Get(body, "mobileNumber"));
    var email := NullableText(Get(body, "email"));
    var pan := NullableText(Get(body, "panCard"));
    var occupation := RequiredText(Get(body, "occupationType"));
    var company := NullableText(Get(body, "companyName"));
    var salary := NullableNumber(Get(body, "monthlySalary"));
    var issues := Issues(fullName) + Issues(mobile) + Issues(email) + Issues(pan)
      + Issues(occupation) + Issues(company) + Issues(salary);
    if |issues| > 0 then Failure(issues)
    else
      Success(InsertLead(fullName.value, Some(mobile.value), email.value, pan.value,
                         Some(occupation.value), company.value, salary.value))
  }

  /** Two bodies that agree on the seven picked keys parse alike: nothing else
      in a body (an `id`, a `status`, a `createdAt`) reaches the insert. */
  lemma ParseInsertLeadOnlyPicked(a: Object, b: Object)
    requires forall k :: k in InsertLeadKeys ==> Get(a, k) == Get(b, k)
    ensures ParseInsertLead(a) == ParseInsertLead(b)
  {
    assert "fullName" in InsertLeadKeys && "mobileNumber" in InsertLeadKeys && "email" in InsertLeadKeys;
    assert "panCard" in InsertLeadKeys && "occupationType" in InsertLeadKeys;
    assert "companyName" in InsertLeadKeys && "monthlySalary" in InsertLeadKeys;
  }

  /** `z.string().min(1, message)`. */
  function NonEmptyText(v: Option<Value>, message: string): (r: Result<string, string>)
    ensures r.Success? <==> v.Some? && v.value.Str? && v.value.s != ""
    ensures r.Failure? && v.Some? && v.value.Str? ==> r.error == message
  {
    match RequiredText(v)
    case Failure(e) => Failure(e)
    case Success(s) => if |s| >= 1 then Success(s) else Failure(message)
  }

  /** The server's `loginSchema`: both fields non-empty strings, issues in field order. */
  function ParseLogin(body: Object): (r: Result<Credentials, seq<string>>)
    ensures r.Success? <==>
      && Get(body, "username").Some? && Get(body, "username").value.Str? && body["username"].s != ""
      && Get(body, "password").Some? && Get(body, "password").value.Str? && body["password"].s != ""
    ensures r.Success? ==> r.value == Credentials(body["username"].s, body["password"].s)
    ensures r.Failure? ==> |r.error| > 0
    ensures r.Failure? && Get(body, "username") == Some(Str("")) ==> r.error[0] == "Username is required"
  {
    var user := NonEmptyText(Get(body, "username"), "Username is required");
    var pass := NonEmptyText(Get(body, "password"), "Password is required");
    var issues := Issues(user) + Issues(pass);
    if |issues| > 0 then Failure(issues) else Success(Credentials(user.value, pass.value))
  }
}
