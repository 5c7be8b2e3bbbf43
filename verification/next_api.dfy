/** pages/api/leads.ts: POST stores a lead with its own defaulting and no
    validation, GET lists leads with the shared filter precedence and no
    authentication, anything else is 405. */
module NextLeads {
  import opened Wrappers
  import opened Text
  import opened Json
  import opened Schema
  import opened Storage
  import opened LeadFilter
  import opened Http
  import Routes

  /** `body.x || ''`: a falsy value becomes "", a truthy one is sent as is
      (the driver sends a scalar as its string form). */
  function OrEmpty(v: Option<Value>): (r: string)
    ensures !TruthyField(v) ==> r == ""
    ensures v.Some? && v.value.Str? && v.value.s != "" ==> r == v.value.s
  {
    if TruthyField(v) then ToJsString(v.value) else ""
  }

  /** A value passed straight to a column: undefined and null become NULL. */
  function AsIs(v: Option<Value>): (r: Option<string>)
    ensures r.None? <==> v.None? || v.value.Null?
    ensures v.Some? && v.value.Str? ==> r == Some(v.value.s)
  {
    if v.None? || v.value.Null? then None else Some(ToJsString(v.value))
  }

  /** `body.monthlySalary ? parseInt(body.monthlySalary) : 0`, where `parseInt`
      has no radix and reads its argument's `String` form: a falsy salary is 0; a
      number below 10^21 in magnitude is itself, a larger one only its sign and
      leading digit ("1e+21" reads as 1); a string is read in base 10 unless it
      starts (after blanks and a sign) with "0x" or "0X". */
  function SalaryOrZero(v: Option<Value>): (r: Num)
    ensures !TruthyField(v) ==> r == Int(0)
    ensures v.Some? && v.value.Number? && PrintsPlain(v.value.n) ==> r == Int(v.value.n)
    ensures v.Some? && v.value.Number? && !PrintsPlain(v.value.n) ==> r == Int(SignedLeadingDigit(v.value.n))
    ensures v.Some? && v.value.Str? && v.value.s != "" && !HexPrefixed(v.value.s) ==> r == ParseInt(v.value.s)
    ensures v.Some? && v.value.Str? && HexPrefixed(v.value.s) ==> r == ParseIntNoRadix(v.value.s)
  {
    if !TruthyField(v) then Int(0)
    else if v.value.Number? then
      NoRadixOfNumber(v.value.n);
      ParseIntNoRadix(NumberToString(v.value.n))
    else ParseIntNoRadix(ToJsString(v.value))
  }

  /** A salary sent as a string of digits is stored as the number it denotes. */
  lemma SalaryFromDigits(text: string)
    requires |text| > 0 && AllDigits(text)
    ensures SalaryOrZero(Some(Str(text))) == Int(DecimalValue(text))
  {
    ParseIntOfDigits(text);
  }

  /** A salary sent as the string "0x10" is read in base 16 and stored as 16,
      where `parseInt(s, 10)` would have stopped at the "x" and given 0. */
  lemma SalaryFromHex()
    ensures SalaryOrZero(Some(Str("0x10"))) == Int(16)
    ensures ParseInt("0x10") == Int(0)
  {
    HexTen();
    NoRadixReadsHex("10");
    assert "0x" + "10" == "0x10";
    DecimalStopsAtX();
  }

  lemma HexTen()
    ensures AllHex("10") && HexValue("10") == 16
  {
    var h := "10";
    assert h[..1] == "1" && h[..1][..0] == "";
  }

  lemma DecimalStopsAtX()
    ensures ParseInt("0x10") == Int(0)
  {
    var t := "0x10";
    assert !IsJsSpace(t[0]) && TrimStart(t) == t;
    assert !IsDigit(t[1]) && DigitPrefixLength(t[1..]) == 0;
    assert t[0] != '-' && t[0] != '+';
    assert DigitPrefixLength(t) == 1 && t[..1] == "0";
    assert "0"[..0] == "" && DecimalValue("0") == 0;
  }

  /** A salary sent as the number 10^21 is written "1e+21" by `String` and
      stored as 1; Express refuses the same number as beyond int4. */
  lemma SalaryFromExponent()
    ensures SalaryOrZero(Some(Number(ExponentThreshold))) == Int(1)
    ensures !InInt4(ExponentThreshold)
  {
    ThresholdLeadsWithOne();
  }

  lemma ThresholdLeadsWithOne()
    ensures SignedLeadingDigit(ExponentThreshold) == 1
  {
    assert Pow10(5) == 100_000;
    assert Pow10(10) == 10_000_000_000;
    assert Pow10(15) == 1_000_000_000_000_000;
    assert Pow10(20) == 100_000_000_000_000_000_000;
    assert Pow10(21) == ExponentThreshold;
    LeadingDigitOfPow10(21);
  }

  /** A salary of `true` has no leading digits and becomes NaN, which the
      integer column refuses. */
  lemma SalaryFromTrue()
    ensures SalaryOrZero(Some(Bool(true))) == NaN
  {
    var t := "true";
    assert !IsJsSpace(t[0]);
    assert TrimStart(t) == t;
    assert !IsDigit(t[0]);
    assert DigitPrefixLength(t) == 0;
  }

  /** An optional text column after `|| ''`: never NULL; "" for a falsy value,
      a non-empty string as sent, a non-zero number as `String` writes it. */
  predicate Defaulted(v: Option<Value>, column: Option<string>) {
    && column.Some?
    && (!TruthyField(v) ==> column == Some(""))
    && (v.Some? && v.value.Str? && v.value.s != "" ==> column == Some(v.value.s))
    && (v.Some? && v.value.Number? && v.value.n != 0 ==> column == Some(NumberToString(v.value.n)))
  }

  /** The record the POST branch builds. The `status` and `createdAt` it also
      sets are overwritten by the store, so they are not carried here. */
  function Normalise(body: Object): (ins: InsertLead)
    ensures Defaulted(Get(body, "fullName"), ins.fullName)
    ensures Defaulted(Get(body, "email"), ins.email)
    ensures Defaulted(Get(body, "panCard"), ins.panCard)
    ensures Defaulted(Get(body, "companyName"), ins.companyName)
    ensures TextCarried(Get(body, "mobileNumber"), ins.mobileNumber)
    ensures TextCarried(Get(body, "occupationType"), ins.occupationType)
    ensures ins.mobileNumber.None? <==> Get(body, "mobileNumber") in {None, Some(Null)}
    ensures ins.occupationType.None? <==> Get(body, "occupationType") in {None, Some(Null)}
    ensures ins.monthlySalary == Some(SalaryOrZero(Get(body, "monthlySalary")))
  {
    InsertLead(
      Some(OrEmpty(Get(body, "fullName"))),
      AsIs(Get(body, "mobileNumber")),
      Some(OrEmpty(Get(body, "email"))),
      Some(OrEmpty(Get(body, "panCard"))),
      AsIs(Get(body, "occupationType")),
      Some(OrEmpty(Get(body, "companyName"))),
      Some(SalaryOrZero(Get(body, "monthlySalary"))))
  }

  /** The POST branch: 201 `{success: true, data}` or, when the database
      refuses the row, 500 `{success: false, error}`. Never 400. */
  function Post(s: Store, body: Object, now: int): (r: (Response, Store))
    requires Valid(s)
    ensures Valid(r.1)
    ensures r.0.status in {201, 500}
    ensures r.0.status == 500 ==> r.1 == s && r.0.payload.Envelope? && !r.0.payload.success
    ensures r.0.status == 201 <==>
      && AsIs(Get(body, "mobileNumber")).Some? && AsIs(Get(body, "occupationType")).Some?
      && SalaryOrZero(Get(body, "monthlySalary")).Int?
      && InInt4(SalaryOrZero(Get(body, "monthlySalary")).value)
      && TextsNulFree(Normalise(body))
    ensures r.0.status == 201 ==>
      && r.0.payload.Envelope? && r.0.payload.success && r.0.payload.data.LeadBody?
      && var lead := r.0.payload.data.lead;
      && r.1.leads == s.leads + [lead] && r.1.users == s.users
      && lead.id == s.nextLeadId
      && StoredFrom(lead, Normalise(body), now)
      && lead.fullName.Some? && lead.email.Some? && lead.panCard.Some? && lead.companyName.Some?
      && lead.monthlySalary.Some?
  {
    var ins := Normalise(body);
    assert ins.monthlySalary == Some(SalaryOrZero(Get(body, "monthlySalary")));
    match CreateLoanLead(s, ins, now)
    case Failure(e) => (Reply(500, Envelope(false, DbFailure(e))), s)
    case Success((s', lead)) => (Reply(201, Envelope(true, LeadBody(lead))), s')
  }

  /** The GET branch: the filter precedence, open to anyone. */
  function List(s: Store, q: Query, parseDate: string -> Timestamp): (r: Response)
    ensures r.status in {200, 500}
    ensures r.status == 200 <==> SelectLeads(s, q, parseDate).Success?
    ensures r.status == 200 ==> r.payload == Envelope(true, LeadList(SelectLeads(s, q, parseDate).value))
  {
    match SelectLeads(s, q, parseDate)
    case Success(leads) => Reply(200, Envelope(true, LeadList(leads)))
    case Failure(e) => Reply(500, Envelope(false, DbFailure(e)))
  }

  /** The handler: POST and GET are dispatched, every other method is 405 with
      `Allow: GET, POST` and leaves the store alone. */
  function Handle(s: Store, verb: Option<string>, body: Object, q: Query, now: int, parseDate: string -> Timestamp)
    : (r: (Response, Store))
    requires Valid(s)
    ensures Valid(r.1)
    ensures verb == Some("POST") ==> r == Post(s, body, now)
    ensures verb == Some("GET") ==> r == (List(s, q, parseDate), s)
    ensures verb != Some("POST") && verb != Some("GET") ==>
      r.0.status == 405 && r.0.allow == ["GET", "POST"] && r.1 == s
  {
    if verb == Some("POST") then Post(s, body, now)
    else if verb == Some("GET") then (List(s, q, parseDate), s)
    else (MethodNotAllowed(verb, ["GET", "POST"]), s)
  }

  /** The key is present and holds a string. */
  predicate HasText(body: Object, key: string) {
    key in body && body[key].Str?
  }

  /** A body of the shape the Express schema expects: every text key a string
      and the salary a number. */
  predicate WellTyped(body: Object) {
    && HasText(body, "fullName") && HasText(body, "mobileNumber") && HasText(body, "email")
    && HasText(body, "panCard") && HasText(body, "occupationType") && HasText(body, "companyName")
    && "monthlySalary" in body && body["monthlySalary"].Number?
  }

  /** On a well-typed body the two POST handlers build the same insert except
      for the salary, and that too exactly when it is below 10^21 in magnitude. */
  lemma NormaliseAgreesWithSchema(body: Object)
    requires WellTyped(body)
    ensures ParseInsertLead(body) == Success(Normalise(body).(monthlySalary := Some(Int(body["monthlySalary"].n))))
    ensures ParseInsertLead(body) == Success(Normalise(body)) <==> PrintsPlain(body["monthlySalary"].n)
  {
    assert NullableText(Get(body, "fullName")).Success?;
    assert NullableText(Get(body, "email")).Success?;
    assert NullableText(Get(body, "panCard")).Success?;
    assert NullableText(Get(body, "companyName")).Success?;
    assert NullableNumber(Get(body, "monthlySalary")).Success?;
    var p := ParseInsertLead(body);
    var n := Normalise(body);
    assert p.Success?;
    assert p.value.fullName == n.fullName;
    assert p.value.mobileNumber == n.mobileNumber;
    assert p.value.email == n.email;
    assert p.value.panCard == n.panCard;
    assert p.value.occupationType == n.occupationType;
    assert p.value.companyName == n.companyName;
    assert p.value.monthlySalary == Some(Int(body["monthlySalary"].n));
    assert p.value == n.(monthlySalary := Some(Int(body["monthlySalary"].n)));
    var salary := body["monthlySalary"].n;
    assert PrintsPlain(salary) ==> n.monthlySalary == Some(Int(salary));
    assert !PrintsPlain(salary) ==> n.monthlySalary != Some(Int(salary));
  }

  /** On a well-typed body with a salary below 10^21 in magnitude the Next.js
      and the Express POST store the same row and succeed together. From 10^21
      on, Express refuses the salary while Next.js stores its leading digit. */
  lemma PostAgreesWithExpress(s: Store, body: Object, now: int)
    requires Valid(s) && WellTyped(body)
    ensures PrintsPlain(body["monthlySalary"].n) ==>
      && Post(s, body, now).1 == Routes.CreateLead(s, body, now).1
      && (Post(s, body, now).0.status == 201 <==> Routes.CreateLead(s, body, now).0.status == 201)
    ensures !PrintsPlain(body["monthlySalary"].n) ==>
      && Routes.CreateLead(s, body, now).0.status == 500
      && Routes.CreateLead(s, body, now).1 == s
      && (Post(s, body, now).0.status == 201 <==> TextsNulFree(Normalise(body)))
  {
    NormaliseAgreesWithSchema(body);
  }

  /** A submission without a salary is stored with salary 0 here, while the
      Express route stores NULL for the same body. */
  lemma SalaryDefaultsDiffer(s: Store, body: Object, now: int)
    requires Valid(s)
    requires "monthlySalary" !in body
    requires Post(s, body, now).0.status == 201
    ensures Post(s, body, now).0.payload.data.lead.monthlySalary == Some(0)
    ensures ParseInsertLead(body).Success? ==> ParseInsertLead(body).value.monthlySalary.None?
  {
    assert Get(body, "monthlySalary") == None;
  }
}

/** pages/api/auth/login.ts: a credential check that creates no session and
    gives the same answer for an unknown user and a wrong password. */
module NextLogin {
  import opened Wrappers
  import opened Json
  import opened Schema
  import opened Storage
  import opened Http

  const InvalidCredentials: Response := Reply(401, Refusal(false, "Invalid credentials", []))

  /** The handler. It reads the store and returns a response; it has no store or
      session to change. */
  function Handle(s: Store, verb: Option<string>, body: Object): (r: Response)
    requires Valid(s)
    ensures verb != Some("POST") ==> r.status == 405 && r.allow == ["POST"]
    ensures verb == Some("POST") ==> r.status in {200, 400, 401}
    ensures verb == Some("POST") ==> (r.status == 400 <==> ParseLogin(body).Failure?)
    ensures verb == Some("POST") && ParseLogin(body).Failure? ==>
      r == Reply(400, Refusal(false, "Invalid input", ParseLogin(body).error))
    ensures verb == Some("POST") && ParseLogin(body).Success? ==>
      var c := ParseLogin(body).value;
      && (r.status == 200 <==> c.username in s.users && s.users[c.username].password == c.password)
      && (r.status == 401 ==> r == InvalidCredentials)
      && (r.status == 200 ==> r.payload == Envelope(true, Account(Project(s.users[c.username]))))
  {
    if verb != Some("POST") then MethodNotAllowed(verb, ["POST"])
    else
      match ParseLogin(body)
      case Failure(issues) => Reply(400, Refusal(false, "Invalid input", issues))
      case Success(c) =>
        match GetUserByUsername(s, c.username)
        case None => InvalidCredentials
        case Some(user) =>
          if user.password != c.password then InvalidCredentials
          else Reply(200, Envelope(true, Account(Project(user))))
  }

  /** An unknown username and a wrong password for a known one get identical
      responses, so the answer does not disclose which accounts exist. */
  lemma FailuresIndistinguishable(s: Store, unknown: Object, wrong: Object)
    requires Valid(s)
    requires ParseLogin(unknown).Success? && ParseLogin(unknown).value.username !in s.users
    requires ParseLogin(wrong).Success? && ParseLogin(wrong).value.username in s.users
    requires s.users[ParseLogin(wrong).value.username].password != ParseLogin(wrong).value.password
    ensures Handle(s, Some("POST"), unknown) == Handle(s, Some("POST"), wrong)
  {
  }
}
