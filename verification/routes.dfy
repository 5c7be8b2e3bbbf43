/** The Express routes of server/routes.ts as pure functions from the request,
    the session and the store to the response and the new store or session.
    The session is the deserialised user, or none; cookie handling and expiry
    are outside the model. A database failure reaches Express's error handler,
    which answers 500. */
module Routes {
  import opened Wrappers
  import opened Text
  import opened Json
  import opened Schema
  import opened Storage
  import opened LeadFilter
  import CsvExport
  import opened Http

  type Session = Option<User>

  /** The LocalStrategy verify callback: the user when the name exists and the
      stored password equals the supplied one exactly; otherwise a message that
      says which of the two was wrong. */
  function CheckCredentials(s: Store, username: string, password: string): (r: Result<User, string>)
    requires Valid(s)
    ensures r.Success? <==> username in s.users && s.users[username].password == password
    ensures r.Success? ==> r.value == s.users[username]
    ensures r.Failure? ==> (r.error == "Incorrect username." <==> username !in s.users)
    ensures r.Failure? ==> (r.error == "Incorrect password." <==> username in s.users)
  {
    match GetUserByUsername(s, username)
    case None => Failure("Incorrect username.")
    case Some(user) =>
      if user.password != password then Failure("Incorrect password.") else Success(user)
  }

  /** POST /api/login: 400 with the first schema message, 401 with the
      strategy's message, or 200 with the public fields and a new session. */
  function Login(s: Store, session: Session, body: Object): (r: (Response, Session))
    requires Valid(s)
    ensures r.0.status in {200, 400, 401}
    ensures r.0.status == 400 <==> ParseLogin(body).Failure?
    ensures r.0.status == 400 ==> r.0.payload == Message(ParseLogin(body).error[0]) && r.1 == session
    ensures r.0.status == 401 ==> r.1 == session
    ensures r.0.status == 401 ==>
      && ParseLogin(body).Success?
      && var c := ParseLogin(body).value;
      && CheckCredentials(s, c.username, c.password).Failure?
      && r.0.payload == Message(CheckCredentials(s, c.username, c.password).error)
    ensures r.0.status == 401 ==>
      && (r.0.payload == Message("Incorrect username.") <==> body["username"].s !in s.users)
      && (r.0.payload == Message("Incorrect password.") <==> body["username"].s in s.users)
    ensures r.0.status == 200 <==>
      ParseLogin(body).Success? && body["username"].s in s.users
      && s.users[body["username"].s].password == body["password"].s
    ensures r.0.status == 200 ==>
      var user := s.users[body["username"].s];
      r.1 == Some(user) && r.0.payload == Account(Project(user))
  {
    match ParseLogin(body)
    case Failure(issues) => (Reply(400, Message(issues[0])), session)
    case Success(c) =>
      match CheckCredentials(s, c.username, c.password)
      case Failure(message) => (Reply(401, Message(message)), session)
      case Success(user) => (Reply(200, Account(Project(user))), Some(user))
  }

  /** POST /api/logout: the session ends. */
  function Logout(session: Session): (r: (Response, Session))
    ensures r.0.status == 200 && r.1.None?
  {
    (Reply(200, Message("Logged out successfully")), None)
  }

  /** GET /api/auth/status: whether there is a session and, if so, its public fields. */
  function AuthStatus(session: Session): (r: Response)
    ensures r.status == 200
    ensures r.payload.AuthState?
    ensures r.payload.authenticated <==> session.Some?
    ensures session.Some? ==> r.payload.current == Some(Project(session.value))
    ensures session.None? ==> r.payload.current.None?
  {
    match session
    case None => Reply(200, AuthState(false, None))
    case Some(u) => Reply(200, AuthState(true, Some(Project(u))))
  }

  /** The `isAdmin` middleware: an authenticated user whose flag is set. */
  predicate IsAdmin(session: Session) {
    session.Some? && session.value.isAdmin
  }

  const AccessDenied: Response := Reply(403, Message("Access denied"))

  /** A salary the body carries as a number outside the int4 range: the schema
      lets it through and the database refuses it. */
  predicate SalaryOverflows(body: Object) {
    Get(body, "monthlySalary").Some? && Get(body, "monthlySalary").value.Number?
    && !InInt4(body["monthlySalary"].n)
  }

  /** A text value holding U+0000, which the database refuses to store. */
  predicate HasNul(v: Option<Value>) {
    v.Some? && v.value.Str? && !NulFree(v.value.s)
  }

  /** Some text field of the body holds U+0000. */
  predicate BodyHasNul(body: Object) {
    || HasNul(Get(body, "fullName")) || HasNul(Get(body, "mobileNumber")) || HasNul(Get(body, "email"))
    || HasNul(Get(body, "panCard")) || HasNul(Get(body, "occupationType")) || HasNul(Get(body, "companyName"))
  }

  /** Once the schema has passed, the insert's texts are the body's strings, so
      they are free of U+0000 exactly when the body's are. */
  lemma ParsedTextsNulFree(body: Object)
    requires ParseInsertLead(body).Success?
    ensures TextsNulFree(ParseInsertLead(body).value) <==> !BodyHasNul(body)
  {
    var ins := ParseInsertLead(body).value;
    assert NulFreeColumn(ins.fullName) <==> !HasNul(Get(body, "fullName"));
    assert NulFreeColumn(ins.mobileNumber) <==> !HasNul(Get(body, "mobileNumber"));
    assert NulFreeColumn(ins.email) <==> !HasNul(Get(body, "email"));
    assert NulFreeColumn(ins.panCard) <==> !HasNul(Get(body, "panCard"));
    assert NulFreeColumn(ins.occupationType) <==> !HasNul(Get(body, "occupationType"));
    assert NulFreeColumn(ins.companyName) <==> !HasNul(Get(body, "companyName"));
  }

  /** POST /api/leads: 400 with the first schema message and no insert, 201 with
      the stored lead, or 500 when the database refuses the row. Once the schema
      has passed, the database refuses a text holding U+0000 and a salary
      beyond int4, the text first. */
  function CreateLead(s: Store, body: Object, now: int): (r: (Response, Store))
    requires Valid(s)
    ensures Valid(r.1)
    ensures r.0.status in {201, 400, 500}
    ensures r.0.status == 400 <==> ParseInsertLead(body).Failure?
    ensures r.0.status == 400 ==> r.1 == s && r.0.payload == Message(ParseInsertLead(body).error[0])
    ensures r.0.status == 500 <==> ParseInsertLead(body).Success? && (BodyHasNul(body) || SalaryOverflows(body))
    ensures r.0.status == 500 ==> r.1 == s && r.0.payload.DbFailure?
    ensures r.0.status == 500 && BodyHasNul(body) ==> r.0.payload.error.NulInText?
    ensures r.0.status == 500 && !BodyHasNul(body) ==> r.0.payload == DbFailure(IntegerOutOfRange("monthly_salary"))
    ensures r.0.status == 201 <==> ParseInsertLead(body).Success? && !BodyHasNul(body) && !SalaryOverflows(body)
    ensures r.0.status == 201 ==>
      && r.0.payload.LeadBody?
      && var lead := r.0.payload.lead;
      && r.1.leads == s.leads + [lead] && r.1.users == s.users
      && lead.id == s.nextLeadId
      && StoredFrom(lead, ParseInsertLead(body).value, now)
      && lead.mobileNumber == body["mobileNumber"].s
      && lead.occupationType == body["occupationType"].s
  {
    match ParseInsertLead(body)
    case Failure(issues) => (Reply(400, Message(issues[0])), s)
    case Success(ins) =>
      ParsedTextsNulFree(body);
      match CreateLoanLead(s, ins, now)
      case Failure(e) => (Reply(500, DbFailure(e)), s)
      case Success((s', lead)) => (Reply(201, LeadBody(lead)), s')
  }

  /** GET /api/admin/leads: every lead, for an admin only. */
  function AdminLeads(s: Store, session: Session): (r: Response)
    ensures !IsAdmin(session) ==> r == AccessDenied
    ensures IsAdmin(session) ==> r.status == 200 && r.payload == LeadList(s.leads)
  {
    if !IsAdmin(session) then AccessDenied else Reply(200, LeadList(GetAllLoanLeads(s)))
  }

  /** GET /api/admin/leads/filter: the filter precedence, for an admin only. */
  function FilterLeads(s: Store, session: Session, q: Query, parseDate: string -> Timestamp): (r: Response)
    ensures !IsAdmin(session) ==> r == AccessDenied
    ensures IsAdmin(session) ==> r.status in {200, 500}
    ensures IsAdmin(session) && r.status == 200 ==>
      r.payload.LeadList? && SelectLeads(s, q, parseDate) == Success(r.payload.leads)
    ensures IsAdmin(session) && r.status == 500 ==> SelectLeads(s, q, parseDate).Failure?
  {
    if !IsAdmin(session) then AccessDenied
    else
      match SelectLeads(s, q, parseDate)
      case Success(leads) => Reply(200, LeadList(leads))
      case Failure(e) => Reply(500, DbFailure(e))
  }

  /** `!status || typeof status !== 'string'`, negated: a non-empty string. */
  predicate UsableStatus(v: Option<Value>) {
    v.Some? && v.value.Str? && v.value.s != ""
  }

  /** PATCH /api/admin/leads/:id/status, for an admin only: 400 before any store
      access when the status is missing, empty or not a string; 404 when no lead
      has the id; otherwise 200 with the updated lead. The id is
      `parseInt(param, 10)`; one the database cannot bind (NaN, beyond int4)
      fails with 500. */
  function PatchStatus(s: Store, session: Session, idParam: string, body: Object): (r: (Response, Store))
    requires Valid(s)
    ensures Valid(r.1)
    ensures !IsAdmin(session) ==> r == (AccessDenied, s)
    ensures IsAdmin(session) && !UsableStatus(Get(body, "status")) ==>
      r == (Reply(400, Message("Status is required")), s)
    ensures r.0.status == 404 ==> r.1 == s && r.0.payload == Message("Lead not found")
    ensures IsAdmin(session) && UsableStatus(Get(body, "status")) && BindInt(ParseInt(idParam), "id").Failure? ==>
      r.0.status == 500 && r.1 == s && r.0.payload == DbFailure(BindInt(ParseInt(idParam), "id").error)
    ensures IsAdmin(session) && UsableStatus(Get(body, "status")) && BindInt(ParseInt(idParam), "id").Success? ==>
      var id := ParseInt(idParam).value;
      && (r.0.status == 404 <==> GetLoanLead(s, id).None?)
      && (r.0.status == 200 <==> GetLoanLead(s, id).Some?)
    ensures r.0.status != 200 ==> r.1 == s
    ensures r.0.status == 200 ==>
      && r.0.payload.LeadBody?
      && r.0.payload.lead.status == body["status"].s
      && ParseInt(idParam).Int? && r.0.payload.lead.id == ParseInt(idParam).value
      && r.0.payload.lead in r.1.leads
    ensures r.1.users == s.users && r.1.nextLeadId == s.nextLeadId && |r.1.leads| == |s.leads|
    ensures forall i :: 0 <= i < |s.leads| ==> SameExceptStatus(r.1.leads[i], s.leads[i])
    ensures r.0.status == 200 ==>
      forall i :: 0 <= i < |s.leads| && s.leads[i].id != r.0.payload.lead.id ==> r.1.leads[i] == s.leads[i]
  {
    if !IsAdmin(session) then (AccessDenied, s)
    else if !UsableStatus(Get(body, "status")) then (Reply(400, Message("Status is required")), s)
    else
      match BindInt(ParseInt(idParam), "id")
      case Failure(e) => (Reply(500, DbFailure(e)), s)
      case Success(id) =>
        match UpdateLoanLeadStatus(s, id, body["status"].s)
        case (None, s') => (Reply(404, Message("Lead not found")), s')
        case (Some(lead), s') => (Reply(200, LeadBody(lead)), s')
  }

  /** GET /api/admin/leads/export, for an admin only: the CSV of every lead as
      the attachment loan-leads.csv. */
  function ExportCsv(s: Store, session: Session, showDate: int -> string): (r: Response)
    ensures !IsAdmin(session) ==> r == AccessDenied
    ensures IsAdmin(session) ==>
      && r.status == 200
      && r.payload == CsvAttachment("loan-leads.csv", CsvExport.Export(s.leads, showDate))
  {
    if !IsAdmin(session) then AccessDenied
    else Reply(200, CsvAttachment("loan-leads.csv", CsvExport.Export(GetAllLoanLeads(s), showDate)))
  }

  /** A successful login is reported by the next status call as an
      authenticated session with that user's public fields. */
  lemma LoginThenStatus(s: Store, session: Session, body: Object)
    requires Valid(s)
    requires Login(s, session, body).0.status == 200
    ensures
      var user := s.users[body["username"].s];
      AuthStatus(Login(s, session, body).1) == Reply(200, AuthState(true, Some(Project(user))))
  {
  }

  /** A refused login leaves an unauthenticated caller unauthenticated. */
  lemma FailedLoginNoSession(s: Store, body: Object)
    requires Valid(s)
    requires Login(s, None, body).0.status != 200
    ensures AuthStatus(Login(s, None, body).1).payload.authenticated == false
  {
  }

  /** After logout the status call reports no session. */
  lemma LogoutThenStatus(session: Session)
    ensures AuthStatus(Logout(session).1) == Reply(200, AuthState(false, None))
  {
  }

  /** The sample submission: a mobile number and an occupation type only. */
  const SampleBody: Object := map["mobileNumber" := Str("9876543210"), "occupationType" := Str("salaried")]

  lemma SampleIntake(s: Store, now: int)
    requires Valid(s)
    ensures
      var (created, s1) := CreateLead(s, SampleBody, now);
      && created.status == 201 && created.payload.lead.status == "new"
      && created.payload.lead.occupationType == "salaried"
      && created.payload.lead in s1.leads
  {
    var body := SampleBody;
    SampleBodyAccepted();
    var (created, s1) := CreateLead(s, body, now);
    assert s1.leads[|s.leads|] == created.payload.lead;
  }

  lemma SampleBodyAccepted()
    ensures ParseInsertLead(SampleBody).Success?
    ensures !BodyHasNul(SampleBody) && !SalaryOverflows(SampleBody)
  {
    var body := SampleBody;
    assert Get(body, "fullName") == None && Get(body, "email") == None && Get(body, "panCard") == None;
    assert Get(body, "companyName") == None && Get(body, "monthlySalary") == None;
    assert NulFree("9876543210") && NulFree("salaried");
  }

  /** A stored lead is listed by the admin occupation filter for its own occupation type. */
  lemma OccupationFilterFinds(s: Store, admin: User, lead: LoanLead, parseDate: string -> Timestamp)
    requires admin.isAdmin && lead in s.leads && lead.occupationType != ""
    ensures
      var found := FilterLeads(s, Some(admin), Query(None, None, Some(lead.occupationType)), parseDate);
      found.status == 200 && lead in found.payload.leads
  {
  }

  /** A 201 from POST /api/leads is read back by id as the lead it returned,
      holding the submitted mobile number and occupation type. */
  lemma CreateLeadThenGet(s: Store, body: Object, now: int)
    requires Valid(s)
    requires CreateLead(s, body, now).0.status == 201
    ensures
      var (created, s') := CreateLead(s, body, now);
      var lead := created.payload.lead;
      && GetLoanLead(s', lead.id) == Some(lead)
      && lead.mobileNumber == body["mobileNumber"].s
      && lead.occupationType == body["occupationType"].s
      && lead.status == NewStatus && lead.createdAt == now
      && |s'.leads| == |s.leads| + 1
  {
    var (created, s') := CreateLead(s, body, now);
    assert s'.leads[|s.leads|] == created.payload.lead;
  }

  /** A 200 from the status route is read back by id as the lead it returned,
      which differs from the lead before the call only in its status. */
  lemma PatchThenGet(s: Store, session: Session, idParam: string, body: Object)
    requires Valid(s)
    requires PatchStatus(s, session, idParam, body).0.status == 200
    ensures
      var (patched, s') := PatchStatus(s, session, idParam, body);
      var lead := patched.payload.lead;
      && GetLoanLead(s, lead.id).Some?
      && SameExceptStatus(lead, GetLoanLead(s, lead.id).value)
      && GetLoanLead(s', lead.id) == Some(lead)
  {
    var (patched, s') := PatchStatus(s, session, idParam, body);
    var lead := patched.payload.lead;
    var j :| 0 <= j < |s'.leads| && s'.leads[j] == lead;
    assert SameExceptStatus(s'.leads[j], s.leads[j]);
    assert s.leads[j].id == lead.id;
    assert GetLoanLead(s, lead.id) == Some(s.leads[j]);
  }

  /** The admin can move a stored lead to a new status through its decimal id. */
  lemma PatchByDecimalId(s: Store, admin: User, lead: LoanLead, status: string)
    requires Valid(s) && admin.isAdmin && lead in s.leads && status != "" && InInt4(lead.id)
    ensures
      var (patched, s') := PatchStatus(s, Some(admin), NatToDecimal(lead.id), map["status" := Str(status)]);
      patched.status == 200 && patched.payload.lead.status == status && patched.payload.lead.id == lead.id
  {
    var text := NatToDecimal(lead.id);
    ParseIntOfDigits(text);
    assert BindInt(ParseInt(text), "id") == Success(lead.id);
    var body := map["status" := Str(status)];
    assert Get(body, "status") == Some(Str(status));
    assert UsableStatus(Get(body, "status"));
    var i :| 0 <= i < |s.leads| && s.leads[i] == lead;
    assert GetLoanLead(s, lead.id) == Some(lead);
  }
}
