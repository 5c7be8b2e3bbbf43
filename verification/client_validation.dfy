/** The zod schemas of client/src/lib/validationSchema.ts, which the
    react-hook-form lead form and the login page validate with. Each field
    yields its issue messages; a form parses when no field has any. Email
    syntax is library-defined and enters as the predicate `isEmail`. */
module ClientValidation {
  import opened Wrappers
  import opened Text
  import Json
  import Schema

  /** The form's fields as zod sees them; `None` is `undefined`. */
  datatype FormInput = FormInput(
    fullName: Option<string>,
    mobileNumber: Option<string>,
    email: Option<string>,
    panCard: Option<string>,
    occupationType: Option<string>,
    companyName: Option<string>,
    monthlySalary: Option<string>)

  /** What `loanFormSchema.parse` returns: the salary transformed to a number. */
  datatype LoanFormOutput = LoanFormOutput(
    fullName: Option<string>,
    mobileNumber: string,
    email: Option<string>,
    panCard: Option<string>,
    occupationType: string,
    companyName: Option<string>,
    monthlySalary: Option<Num>)

  /** One character of the class `[0-9+\s-]`. */
  predicate MobileChar(c: char) {
    IsDigit(c) || c == '+' || IsJsSpace(c) || c == '-'
  }

  /** `/^[0-9+\s-]+$/`: non-empty, every character in the class. */
  predicate MobilePattern(s: string) {
    |s| > 0 && forall i :: 0 <= i < |s| ==> MobileChar(s[i])
  }

  /** A character class of the PAN pattern. */
  datatype CharClass = Upper | Digit

  predicate InClass(c: char, k: CharClass) {
    match k
    case Upper => IsUpperLatin(c)
    case Digit => IsDigit(c)
  }

  /** `/^[A-Z]{5}[0-9]{4}[A-Z]{1}$/` as a sequence of single-character classes. */
  const PanClasses: seq<CharClass> := [Upper, Upper, Upper, Upper, Upper, Digit, Digit, Digit, Digit, Upper]

  /** A string matched by a sequence of single-character classes, read left to right. */
  predicate MatchClasses(s: string, p: seq<CharClass>)
    decreases |p|
  {
    if |p| == 0 then |s| == 0
    else |s| > 0 && InClass(s[0], p[0]) && MatchClasses(s[1..], p[1..])
  }

  predicate PanPattern(s: string) {
    MatchClasses(s, PanClasses)
  }

  /** Matching a class sequence is matching position by position at equal length. */
  lemma {:induction false} MatchClassesPointwise(s: string, p: seq<CharClass>)
    ensures MatchClasses(s, p) <==> |s| == |p| && forall i :: 0 <= i < |p| ==> InClass(s[i], p[i])
    decreases |p|
  {
    if |p| > 0 && |s| > 0 {
      MatchClassesPointwise(s[1..], p[1..]);
      assert forall i :: 1 <= i < |p| && i < |s| ==> s[1..][i - 1] == s[i] && p[1..][i - 1] == p[i];
    }
  }

  /** A PAN is five capital letters, four digits and a capital letter, so ten characters. */
  lemma PanShape(s: string)
    ensures PanPattern(s) <==>
      && |s| == 10
      && (forall i :: 0 <= i < 5 ==> IsUpperLatin(s[i]))
      && (forall i :: 5 <= i < 9 ==> IsDigit(s[i]))
      && IsUpperLatin(s[9])
  {
    MatchClassesPointwise(s, PanClasses);
    assert forall i :: 0 <= i < 5 ==> PanClasses[i] == Upper;
    assert forall i :: 5 <= i < 9 ==> PanClasses[i] == Digit;
  }

  /** `z.string().min(10).max(15).regex(...)`: every failed check adds its message. */
  function MobileIssues(v: Option<string>): (r: seq<string>)
    ensures v.None? ==> r == ["Required"]
    ensures v.Some? && |v.value| < 10 ==> "Mobile number must be at least 10 digits" in r
    ensures v.Some? && |v.value| > 15 ==> "Mobile number must not exceed 15 digits" in r
    ensures v.Some? && !MobilePattern(v.value) ==> "Invalid mobile number format" in r
    ensures r == [] <==> v.Some? && 10 <= |v.value| <= 15 && MobilePattern(v.value)
  {
    match v
    case None => ["Required"]
    case Some(s) =>
      (if |s| < 10 then ["Mobile number must be at least 10 digits"] else [])
      + (if |s| > 15 then ["Mobile number must not exceed 15 digits"] else [])
      + (if !MobilePattern(s) then ["Invalid mobile number format"] else [])
  }

  /** An accepted mobile number has 10 to 15 characters, each a digit, '+', '-' or whitespace. */
  lemma AcceptedMobileShape(s: string)
    requires MobileIssues(Some(s)) == []
    ensures 10 <= |s| <= 15
    ensures forall i :: 0 <= i < |s| ==> IsDigit(s[i]) || s[i] == '+' || s[i] == '-' || IsJsSpace(s[i])
  {
  }

  /** `z.string().email().optional().or(z.literal(""))`. */
  function EmailIssues(v: Option<string>, isEmail: string -> bool): (r: seq<string>)
    ensures r == [] <==> v.None? || v.value == "" || isEmail(v.value)
  {
    if v.None? || v.value == "" || isEmail(v.value) then [] else ["Invalid email address"]
  }

  /** `z.string().regex(PAN).optional().or(z.literal(""))`. */
  function PanIssues(v: Option<string>): (r: seq<string>)
    ensures r == [] <==> v.None? || v.value == "" || PanPattern(v.value)
    ensures r != [] ==> v.Some? && v.value != "" && r == ["Invalid PAN card format (e.g., ABCDE1234F)"]
  {
    if v.None? || v.value == "" || PanPattern(v.value) then []
    else ["Invalid PAN card format (e.g., ABCDE1234F)"]
  }

  /** `z.string({required_error})`: any string is accepted, the empty one included;
      there is no check against the list of occupation types. */
  function OccupationIssues(v: Option<string>): (r: seq<string>)
    ensures r == [] <==> v.Some?
  {
    if v.None? then ["Please select an occupation type"] else []
  }

  /** The salary transform: absent or "" becomes undefined, anything else `parseInt(val, 10)`. */
  function SalaryTransform(v: Option<string>): (r: Option<Num>)
    ensures r.None? <==> v.None? || v.value == ""
    ensures r.Some? ==> r.value == ParseInt(v.value)
  {
    if v.None? || v.value == "" then None else Some(ParseInt(v.value))
  }

  /** The refine `!val || val > 0`: undefined, NaN and 0 are falsy and pass. */
  predicate SalaryRefine(t: Option<Num>) {
    t.None? || !NumTruthy(t.value) || t.value.value > 0
  }

  function SalaryIssues(v: Option<string>): seq<string> {
    if SalaryRefine(SalaryTransform(v)) then [] else ["Monthly salary must be a positive number"]
  }

  /** The refine rejects exactly the salaries that parse to a negative integer. */
  lemma SalaryRejectsOnlyNegatives(v: Option<string>)
    ensures SalaryIssues(v) != [] <==>
      var t := SalaryTransform(v);
      t.Some? && t.value.Int? && t.value.value < 0
  {
  }

  /** "0" passes the refine and parses to 0. */
  lemma SalaryZeroAccepted()
    ensures SalaryIssues(Some("0")) == [] && SalaryTransform(Some("0")) == Some(Int(0))
  {
    ParseIntOfDigits("0");
  }

  /** "-5" parses to -5 and fails the refine. */
  lemma NegativeSalaryRejected()
    ensures SalaryTransform(Some("-5")) == Some(Int(-5))
    ensures SalaryIssues(Some("-5")) != []
  {
    var t := "-5";
    assert !IsJsSpace(t[0]);
    assert TrimStart(t) == t;
    assert t[1..] == "5";
    DigitPrefixOfDigits("5");
    assert "5"[..1] == "5";
  }

  /** `loanFormSchema.parse`: issues of every field in field order; on success
      the parsed values with the salary transformed. */
  function ParseLoanForm(input: FormInput, isEmail: string -> bool): (r: Result<LoanFormOutput, seq<string>>)
    ensures r.Success? <==>
      && MobileIssues(input.mobileNumber) == [] && EmailIssues(input.email, isEmail) == []
      && PanIssues(input.panCard) == [] && OccupationIssues(input.occupationType) == []
      && SalaryIssues(input.monthlySalary) == []
    ensures r.Failure? ==> |r.error| > 0
    ensures r.Failure? ==>
      && (forall m :: m in MobileIssues(input.mobileNumber) ==> m in r.error)
      && (forall m :: m in EmailIssues(input.email, isEmail) ==> m in r.error)
      && (forall m :: m in PanIssues(input.panCard) ==> m in r.error)
      && (forall m :: m in OccupationIssues(input.occupationType) ==> m in r.error)
      && (forall m :: m in SalaryIssues(input.monthlySalary) ==> m in r.error)
    ensures r.Failure? && MobileIssues(input.mobileNumber) != [] ==> r.error[0] == MobileIssues(input.mobileNumber)[0]
    ensures r.Success? ==>
      && Some(r.value.mobileNumber) == input.mobileNumber
      && Some(r.value.occupationType) == input.occupationType
      && r.value.monthlySalary == SalaryTransform(input.monthlySalary)
      && r.value.fullName == input.fullName && r.value.companyName == input.companyName
      && r.value.email == input.email && r.value.panCard == input.panCard
  {
    var issues := MobileIssues(input.mobileNumber) + EmailIssues(input.email, isEmail)
      + PanIssues(input.panCard) + OccupationIssues(input.occupationType)
      + SalaryIssues(input.monthlySalary);
    if |issues| > 0 then Failure(issues)
    else
      Success(LoanFormOutput(input.fullName, input.mobileNumber.value, input.email, input.panCard,
                             input.occupationType.value, input.companyName, SalaryTransform(input.monthlySalary)))
  }

  /** A key set to the value when there is one, and left out otherwise (as
      `JSON.stringify` leaves out an `undefined` property). */
  function Put(m: Json.Object, key: string, v: Option<Json.Value>): (r: Json.Object)
    ensures Json.Get(r, key) == if v.Some? then v else Json.Get(m, key)
    ensures forall k :: k != key ==> Json.Get(r, k) == Json.Get(m, k)
  {
    if v.Some? then m[key := v.value] else m
  }

  /** A number as `JSON.stringify` writes it: NaN becomes null. */
  function NumJson(n: Num): Json.Value {
    match n
    case NaN => Json.Null
    case Int(v) => Json.Number(v)
  }

  function TextJson(v: Option<string>): Option<Json.Value> {
    if v.Some? then Some(Json.Str(v.value)) else None
  }

  function SalaryJson(v: Option<Num>): Option<Json.Value> {
    if v.Some? then Some(NumJson(v.value)) else None
  }

  /** The two required fields, which every parsed output has. */
  function RequiredBody(o: LoanFormOutput): (m: Json.Object)
    ensures Json.Get(m, "mobileNumber") == Some(Json.Str(o.mobileNumber))
    ensures Json.Get(m, "occupationType") == Some(Json.Str(o.occupationType))
    ensures forall k :: k != "mobileNumber" && k != "occupationType" ==> Json.Get(m, k).None?
  {
    map["mobileNumber" := Json.Str(o.mobileNumber), "occupationType" := Json.Str(o.occupationType)]
  }

  /** The request body the lead form posts: the parsed output as JSON, absent
      fields left out and a NaN salary as null. */
  function OutputBody(o: LoanFormOutput): Json.Object {
    var m := Put(RequiredBody(o), "fullName", TextJson(o.fullName));
    var m := Put(m, "email", TextJson(o.email));
    var m := Put(m, "panCard", TextJson(o.panCard));
    var m := Put(m, "companyName", TextJson(o.companyName));
    Put(m, "monthlySalary", SalaryJson(o.monthlySalary))
  }

  /** Each field of the output is found under its own key of the body. */
  lemma OutputBodyFields(o: LoanFormOutput)
    ensures
      var body := OutputBody(o);
      && Json.Get(body, "mobileNumber") == Some(Json.Str(o.mobileNumber))
      && Json.Get(body, "occupationType") == Some(Json.Str(o.occupationType))
      && Json.Get(body, "fullName") == TextJson(o.fullName)
      && Json.Get(body, "email") == TextJson(o.email)
      && Json.Get(body, "panCard") == TextJson(o.panCard)
      && Json.Get(body, "companyName") == TextJson(o.companyName)
      && Json.Get(body, "monthlySalary") == SalaryJson(o.monthlySalary)
  {
    var m0 := RequiredBody(o);
    var m1 := Put(m0, "fullName", TextJson(o.fullName));
    var m2 := Put(m1, "email", TextJson(o.email));
    var m3 := Put(m2, "panCard", TextJson(o.panCard));
    var m4 := Put(m3, "companyName", TextJson(o.companyName));
    var m5 := Put(m4, "monthlySalary", SalaryJson(o.monthlySalary));
    assert OutputBody(o) == m5;
  }

  /** Whatever the lead form posts passes the server's insert schema, with the
      same mobile number, occupation type and optional texts; a salary that
      parsed to NaN arrives as null and is stored as NULL. */
  lemma ClientAcceptedIsServerAccepted(input: FormInput, isEmail: string -> bool)
    requires ParseLoanForm(input, isEmail).Success?
    ensures
      var out := ParseLoanForm(input, isEmail).value;
      var parsed := Schema.ParseInsertLead(OutputBody(out));
      && parsed.Success?
      && parsed.value.mobileNumber == input.mobileNumber
      && parsed.value.occupationType == input.occupationType
      && parsed.value.fullName == input.fullName && parsed.value.email == input.email
      && parsed.value.panCard == input.panCard && parsed.value.companyName == input.companyName
      && parsed.value.monthlySalary ==
           (match out.monthlySalary case Some(Int(n)) => Some(Int(n)) case _ => None)
  {
    var out := ParseLoanForm(input, isEmail).value;
    var body := OutputBody(out);
    OutputBodyFields(out);
    var parsed := Schema.ParseInsertLead(body);
    assert parsed.Success?;
  }

  /** The client `loginSchema`: both fields `min(1)`. */
  function LoginIssues(username: string, password: string): (r: seq<string>)
    ensures r == [] <==> username != "" && password != ""
    ensures username == "" ==> r[0] == "Username is required"
  {
    (if |username| < 1 then ["Username is required"] else [])
    + (if |password| < 1 then ["Password is required"] else [])
  }

  /** The client and server login schemas accept the same string pairs. */
  lemma LoginSchemasAgree(username: string, password: string)
    ensures
      var body := map["username" := Json.Str(username), "password" := Json.Str(password)];
      Schema.ParseLogin(body).Success? <==> LoginIssues(username, password) == []
  {
    var body := map["username" := Json.Str(username), "password" := Json.Str(password)];
    assert Json.Get(body, "username") == Some(Json.Str(username));
    assert Json.Get(body, "password") == Some(Json.Str(password));
  }
}
