/** `DatabaseStorage` (server/storage.ts) over an in-memory value standing for the
    two tables: the leads in insertion order with the next serial id, and the
    users keyed by their unique username. A statement the database refuses is a
    `Failure` and leaves the store as it was. */
module Storage {
  import opened Wrappers
  import opened Text
  import opened Schema

  /** Why PostgreSQL refuses a statement. */
  datatype DbError =
    | NotNullViolation(column: string)
    | InvalidInteger(column: string)
    | IntegerOutOfRange(column: string)
    | InvalidTimestamp
    | UniqueViolation(column: string)
    | NulInText(column: string)

  datatype Store = Store(leads: seq<LoanLead>, nextLeadId: nat, users: map<string, User>, nextUserId: nat)

  /** Both tables empty, both serials at 1. */
  const Empty: Store := Store([], 1, map[], 1)

  /** The `integer` (int4) column range. */
  const Int4Min: int := -0x8000_0000
  const Int4Max: int := 0x7FFF_FFFF

  predicate InInt4(n: int) { Int4Min <= n <= Int4Max }

  /** The store's integrity: lead ids are distinct and below the serial, and
      every user sits under its own username with an id below its serial. */
  predicate Valid(s: Store) {
    && 1 <= s.nextLeadId && 1 <= s.nextUserId
    && (forall i :: 0 <= i < |s.leads| ==> 1 <= s.leads[i].id < s.nextLeadId)
    && (forall i, j :: 0 <= i < j < |s.leads| ==> s.leads[i].id != s.leads[j].id)
    && (forall name :: name in s.users ==> s.users[name].username == name && 1 <= s.users[name].id < s.nextUserId)
  }

  /** Binding a JavaScript number to an `integer` parameter: NaN and values
      outside int4 are refused. */
  function BindInt(n: Num, column: string): (r: Result<int, DbError>)
    ensures r.Success? <==> n.Int? && InInt4(n.value)
    ensures r.Success? ==> r.value == n.value
  {
    match n
    case NaN => Failure(InvalidInteger(column))
    case Int(v) => if InInt4(v) then Success(v) else Failure(IntegerOutOfRange(column))
  }

  /** PostgreSQL text cannot hold U+0000; a parameter containing it is refused. */
  predicate NulFree(t: string) {
    forall i :: 0 <= i < |t| ==> t[i] != 0 as char
  }

  predicate NulFreeColumn(c: Option<string>) {
    c.None? || NulFree(c.value)
  }

  /** The six text columns of an insert, each NULL or free of U+0000. */
  predicate TextsNulFree(ins: InsertLead) {
    && NulFreeColumn(ins.fullName) && NulFreeColumn(ins.mobileNumber) && NulFreeColumn(ins.email)
    && NulFreeColumn(ins.panCard) && NulFreeColumn(ins.occupationType) && NulFreeColumn(ins.companyName)
  }

  /** The first text column, in column order, holding U+0000. */
  function FirstNulColumn(ins: InsertLead): (column: string)
    requires !TextsNulFree(ins)
  {
    if !NulFreeColumn(ins.fullName) then "full_name"
    else if !NulFreeColumn(ins.mobileNumber) then "mobile_number"
    else if !NulFreeColumn(ins.email) then "email"
    else if !NulFreeColumn(ins.panCard) then "pan_card"
    else if !NulFreeColumn(ins.occupationType) then "occupation_type"
    else "company_name"
  }

  /** Every field but `status` agrees. */
  predicate SameExceptStatus(a: LoanLead, b: LoanLead) {
    a.(status := b.status) == b
  }

  /** The row the store keeps for an insert made at `now`: every supplied column
      as given (NULL where the insert had none), `status = "new"` and
      `createdAt = now`. */
  predicate StoredFrom(lead: LoanLead, ins: InsertLead, now: int) {
    && lead.status == NewStatus && lead.createdAt == now
    && lead.fullName == ins.fullName && Some(lead.mobileNumber) == ins.mobileNumber
    && lead.email == ins.email && lead.panCard == ins.panCard
    && Some(lead.occupationType) == ins.occupationType && lead.companyName == ins.companyName
    && (lead.monthlySalary.Some? <==> ins.monthlySalary.Some?)
    && (lead.monthlySalary.Some? ==> ins.monthlySalary.value == Int(lead.monthlySalary.value))
  }

  /** `createLoanLead`: the row gets the next serial id, `status = "new"` and
      `createdAt = now` whatever the caller had; the supplied columns are kept.
      The database refuses, in this order, a text parameter holding U+0000
      (the parameters are bound in column order, and every text column comes
      before the salary), a salary that is not an int4, and a NULL mobile
      number or occupation type. */
  function CreateLoanLead(s: Store, ins: InsertLead, now: int): (r: Result<(Store, LoanLead), DbError>)
    requires Valid(s)
    ensures r.Success? <==>
      && TextsNulFree(ins)
      && ins.mobileNumber.Some? && ins.occupationType.Some?
      && (ins.monthlySalary.Some? ==> ins.monthlySalary.value.Int? && InInt4(ins.monthlySalary.value.value))
    ensures !TextsNulFree(ins) ==> r == Failure(NulInText(FirstNulColumn(ins)))
    ensures TextsNulFree(ins) && ins.monthlySalary.Some? && ins.monthlySalary.value.Int? && !InInt4(ins.monthlySalary.value.value) ==>
      r == Failure(IntegerOutOfRange("monthly_salary"))
    ensures r.Success? ==>
      var (s', lead) := r.value;
      && Valid(s')
      && s'.leads == s.leads + [lead]
      && s'.users == s.users
      && lead.id == s.nextLeadId && s'.nextLeadId == s.nextLeadId + 1
      && (forall i :: 0 <= i < |s.leads| ==> s.leads[i].id != lead.id)
      && StoredFrom(lead, ins, now)
  {
    var salary: Result<Option<int>, DbError> :=
      match ins.monthlySalary
      case None => Success(None)
      case Some(n) =>
        (match BindInt(n, "monthly_salary")
         case Success(v) => Success(Some(v))
         case Failure(e) => Failure(e));
    if !TextsNulFree(ins) then Failure(NulInText(FirstNulColumn(ins)))
    else if salary.Failure? then Failure(salary.error)
    else if ins.mobileNumber.None? then Failure(NotNullViolation("mobile_number"))
    else if ins.occupationType.None? then Failure(NotNullViolation("occupation_type"))
    else
      var lead := LoanLead(s.nextLeadId, ins.fullName, ins.mobileNumber.value, ins.email, ins.panCard,
                           ins.occupationType.value, ins.companyName, salary.value, NewStatus, now);
      Success((Store(s.leads + [lead], s.nextLeadId + 1, s.users, s.nextUserId), lead))
  }

  /** The first lead with the given id. */
  function FindLead(leads: seq<LoanLead>, id: int): (r: Option<LoanLead>)
    ensures r.None? <==> forall i :: 0 <= i < |leads| ==> leads[i].id != id
    ensures r.Some? ==> r.value in leads && r.value.id == id
  {
    if |leads| == 0 then None
    else if leads[0].id == id then Some(leads[0])
    else FindLead(leads[1..], id)
  }

  /** `getLoanLead`: the lead with that id, or none. */
  function GetLoanLead(s: Store, id: int): (r: Option<LoanLead>)
    requires Valid(s)
    ensures r.None? <==> forall i :: 0 <= i < |s.leads| ==> s.leads[i].id != id
    ensures forall i :: 0 <= i < |s.leads| && s.leads[i].id == id ==> r == Some(s.leads[i])
  {
    FindLead(s.leads, id)
  }

  /** `getAllLoanLeads`: every stored lead, each exactly as often as it is stored. */
  function GetAllLoanLeads(s: Store): (r: seq<LoanLead>)
    ensures forall l :: l in r <==> l in s.leads
    ensures multiset(r) == multiset(s.leads)
    ensures |r| == |s.leads|
  {
    s.leads
  }

  /** The leads satisfying `keep`, in their stored order (a SQL `WHERE`). */
  function Where(leads: seq<LoanLead>, keep: LoanLead -> bool): (r: seq<LoanLead>)
    ensures |r| <= |leads|
    ensures multiset(r) <= multiset(leads)
    ensures forall l :: l in r <==> l in leads && keep(l)
  {
    if |leads| == 0 then []
    else
      var rest := Where(leads[1..], keep);
      assert leads == [leads[0]] + leads[1..];
      assert forall l :: l in leads <==> l == leads[0] || l in leads[1..];
      if keep(leads[0]) then [leads[0]] + rest else rest
  }

  /** `createdAt` within [start, end], both ends included (`gte` and `lte`). */
  predicate CreatedWithin(l: LoanLead, start: int, end: int) {
    start <= l.createdAt <= end
  }

  /** `getLoanLeadsByDateRange`: exactly the stored leads created within the
      closed range, none more often than it is stored. */
  function GetLoanLeadsByDateRange(s: Store, start: int, end: int): (r: seq<LoanLead>)
    ensures multiset(r) <= multiset(s.leads)
    ensures forall l :: l in r <==> l in s.leads && CreatedWithin(l, start, end)
  {
    Where(s.leads, (l: LoanLead) => CreatedWithin(l, start, end))
  }

  /** `getLoanLeadsByOccupationType`: exactly the stored leads with that
      occupation, none more often than it is stored. */
  function GetLoanLeadsByOccupationType(s: Store, occupation: string): (r: seq<LoanLead>)
    ensures multiset(r) <= multiset(s.leads)
    ensures forall l :: l in r <==> l in s.leads && l.occupationType == occupation
  {
    Where(s.leads, (l: LoanLead) => l.occupationType == occupation)
  }

  /** Every row with the given id gets the new status; nothing else changes. */
  function SetStatus(leads: seq<LoanLead>, id: int, status: string): (r: seq<LoanLead>)
    ensures |r| == |leads|
    ensures forall i :: 0 <= i < |leads| ==> SameExceptStatus(r[i], leads[i])
    ensures forall i :: 0 <= i < |leads| && leads[i].id == id ==> r[i].status == status
    ensures forall i :: 0 <= i < |leads| && leads[i].id != id ==> r[i] == leads[i]
  {
    if |leads| == 0 then []
    else
      var head := if leads[0].id == id then leads[0].(status := status) else leads[0];
      [head] + SetStatus(leads[1..], id, status)
  }

  /** Changing statuses keeps every id, so the store stays valid. */
  lemma SetStatusKeepsValid(s: Store, id: int, status: string)
    requires Valid(s)
    ensures Valid(s.(leads := SetStatus(s.leads, id, status)))
  {
    var r := SetStatus(s.leads, id, status);
    forall i | 0 <= i < |s.leads|
      ensures r[i].id == s.leads[i].id
    {
      assert r[i].(status := s.leads[i].status) == s.leads[i];
    }
  }

  /** `updateLoanLeadStatus`: an unknown id gives none and no change; a known id
      gets the new status, every other field and every other lead kept, and the
      updated row is returned. */
  function UpdateLoanLeadStatus(s: Store, id: int, status: string): (r: (Option<LoanLead>, Store))
    requires Valid(s)
    ensures Valid(r.1)
    ensures r.0.None? <==> forall i :: 0 <= i < |s.leads| ==> s.leads[i].id != id
    ensures r.0.None? ==> r.1 == s
    ensures r.0.Some? ==> r.0.value.id == id && r.0.value.status == status && r.0.value in r.1.leads
    ensures r.0.Some? ==> exists i :: 0 <= i < |s.leads| && s.leads[i].id == id && SameExceptStatus(r.0.value, s.leads[i])
    ensures r.1.users == s.users && r.1.nextLeadId == s.nextLeadId && |r.1.leads| == |s.leads|
    ensures forall i :: 0 <= i < |s.leads| ==> SameExceptStatus(r.1.leads[i], s.leads[i])
    ensures forall i :: 0 <= i < |s.leads| && s.leads[i].id != id ==> r.1.leads[i] == s.leads[i]
  {
    match FindLead(s.leads, id)
    case None => (None, s)
    case Some(found) =>
      var leads' := SetStatus(s.leads, id, status);
      SetStatusKeepsValid(s, id, status);
      var i :| 0 <= i < |s.leads| && s.leads[i] == found;
      assert leads'[i] == found.(status := status);
      (Some(found.(status := status)), s.(leads := leads'))
  }

  /** `getUserByUsername`. */
  function GetUserByUsername(s: Store, username: string): (r: Option<User>)
    requires Valid(s)
    ensures r.Some? <==> username in s.users
    ensures r.Some? ==> r.value.username == username && r.value == s.users[username]
  {
    if username in s.users then Some(s.users[username]) else None
  }

  /** `createUser`: a taken username violates the unique constraint; otherwise the
      user gets the next serial id and `isAdmin` defaults to false. */
  function CreateUser(s: Store, u: InsertUser): (r: Result<(Store, User), DbError>)
    requires Valid(s)
    ensures r.Failure? <==> u.username in s.users
    ensures r.Failure? ==> r.error == UniqueViolation("username")
    ensures r.Success? ==>
      var (s', user) := r.value;
      && Valid(s')
      && user.username == u.username && user.password == u.password
      && user.isAdmin == u.isAdmin.GetOr(false)
      && s'.users == s.users[u.username := user]
      && s'.leads == s.leads
      && (forall name :: name in s.users ==> s.users[name].id != user.id)
  {
    if u.username in s.users then Failure(UniqueViolation("username"))
    else
      var user := User(s.nextUserId, u.username, u.password, u.isAdmin.GetOr(false));
      Success((s.(users := s.users[u.username := user], nextUserId := s.nextUserId + 1), user))
  }

  /** The account `initialize` seeds. */
  const AdminSeed: InsertUser := InsertUser("admin", "adminpass", Some(true))

  /** `initialize`: creates admin/adminpass with `isAdmin = true` unless a user
      named "admin" already exists, in which case nothing changes. */
  function Initialize(s: Store): (r: Store)
    requires Valid(s)
    ensures Valid(r)
    ensures "admin" in r.users
    ensures "admin" in s.users ==> r == s
    ensures "admin" !in s.users ==>
      && r.users["admin"].password == "adminpass" && r.users["admin"].isAdmin
      && r.users.Keys == s.users.Keys + {"admin"}
      && (forall name :: name in s.users ==> r.users[name] == s.users[name])
    ensures r.leads == s.leads
  {
    if GetUserByUsername(s, "admin").Some? then s
    else CreateUser(s, AdminSeed).value.0
  }

  /** Running `initialize` twice is the same as running it once. */
  lemma InitializeIdempotent(s: Store)
    requires Valid(s)
    ensures Initialize(Initialize(s)) == Initialize(s)
  {
  }

  /** A freshly created lead is found again by its id, with status "new". */
  lemma CreatedLeadIsFound(s: Store, ins: InsertLead, now: int)
    requires Valid(s)
    requires CreateLoanLead(s, ins, now).Success?
    ensures
      var (s', lead) := CreateLoanLead(s, ins, now).value;
      GetLoanLead(s', lead.id) == Some(lead) && lead.status == NewStatus
  {
    var (s', lead) := CreateLoanLead(s, ins, now).value;
    assert s'.leads[|s.leads|] == lead;
  }

  /** After a status update the lead reads back with the new status, and its
      `createdAt` and `mobileNumber` are unchanged. */
  lemma UpdateThenGet(s: Store, id: int, status: string)
    requires Valid(s)
    requires GetLoanLead(s, id).Some?
    ensures
      var (updated, s') := UpdateLoanLeadStatus(s, id, status);
      var before := GetLoanLead(s, id).value;
      && updated.Some?
      && GetLoanLead(s', id) == updated
      && updated.value.status == status
      && updated.value.createdAt == before.createdAt
      && updated.value.mobileNumber == before.mobileNumber
  {
    var (updated, s') := UpdateLoanLeadStatus(s, id, status);
    var i :| 0 <= i < |s.leads| && s.leads[i].id == id && SameExceptStatus(updated.value, s.leads[i]);
    assert s'.leads[i].id == id;
    var j :| 0 <= j < |s'.leads| && s'.leads[j] == updated.value;
    assert s'.leads[j].id == s.leads[j].id;
  }

  /** Both filters return subsets of what `getAllLoanLeads` returns. */
  lemma FiltersWithinAll(s: Store, start: int, end: int, occupation: string)
    ensures forall l :: l in GetLoanLeadsByDateRange(s, start, end) ==> l in GetAllLoanLeads(s)
    ensures forall l :: l in GetLoanLeadsByOccupationType(s, occupation) ==> l in GetAllLoanLeads(s)
  {
  }

  /** Every operation keeps `mobileNumber` and `occupationType` of the stored
      leads as they were inserted: a status update cannot null or change them. */
  lemma UpdateKeepsRequiredColumns(s: Store, id: int, status: string)
    requires Valid(s)
    ensures
      var s' := UpdateLoanLeadStatus(s, id, status).1;
      forall i :: 0 <= i < |s.leads| ==>
        && s'.leads[i].mobileNumber == s.leads[i].mobileNumber
        && s'.leads[i].occupationType == s.leads[i].occupationType
        && s'.leads[i].createdAt == s.leads[i].createdAt
        && s'.leads[i].id == s.leads[i].id
  {
  }
}
