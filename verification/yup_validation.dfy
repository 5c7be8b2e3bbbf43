/** The Yup schema of client/src/components/FormikLoanForm.tsx. The form holds
    every field as a string, so the schema is a predicate over those strings.
    Email syntax is library-defined and enters as the predicate `isEmail`. */
module YupValidation {
  import opened Wrappers
  import opened Text
  import opened LeadForm
  import ClientValidation

  /** `string().required().min(10).max(15).matches(/^[0-9+\s-]+$/)`. */
  predicate MobileOk(s: string) {
    s != "" && 10 <= |s| <= 15 && ClientValidation.MobilePattern(s)
  }

  /** `string().nullable().matches(PAN, {excludeEmptyString: true})`. */
  predicate PanOk(s: string) {
    s == "" || ClientValidation.PanPattern(s)
  }

  /** `string().required()`: the empty string is refused. */
  predicate OccupationOk(s: string) {
    s != ""
  }

  /** The sign of what Yup's number cast makes of a string, which is all the
      `positive()` test looks at. */
  datatype Sign = NotANumber | Negative | Zero | Positive

  /** The string with every whitespace character removed (`replace(/\s/g, '')`). */
  function StripSpaces(s: string): (r: string)
    ensures |r| <= |s|
    ensures forall i :: 0 <= i < |r| ==> !IsJsSpace(r[i])
    ensures (forall i :: 0 <= i < |s| ==> !IsJsSpace(s[i])) ==> r == s
  {
    if |s| == 0 then ""
    else if IsJsSpace(s[0]) then StripSpaces(s[1..])
    else
      var rest := StripSpaces(s[1..]);
      assert forall i :: 1 <= i < |[s[0]] + rest| ==> ([s[0]] + rest)[i] == rest[i - 1];
      [s[0]] + rest
  }

  /** Decimal digits with at most one '.', and at least one digit. */
  predicate DecimalMantissa(b: string) {
    match IndexOf(b, '.')
    case None => |b| > 0 && AllDigits(b)
    case Some(i) => |b| > 1 && AllDigits(b[..i]) && AllDigits(b[i + 1..])
  }

  /** A mantissa with no non-zero digit. */
  predicate ZeroMantissa(b: string) {
    forall i :: 0 <= i < |b| ==> b[i] == '0' || b[i] == '.'
  }

  /** The cast: whitespace stripped, "" is NaN, otherwise `+text` read as an
      optional sign and a decimal mantissa. */
  function NumberSign(s: string): Sign {
    var t := StripSpaces(s);
    var negative := |t| > 0 && t[0] == '-';
    var body := if |t| > 0 && (t[0] == '-' || t[0] == '+') then t[1..] else t;
    if !DecimalMantissa(body) then NotANumber
    else if ZeroMantissa(body) then Zero
    else if negative then Negative
    else Positive
  }

  /** `number().transform(NaN -> undefined).nullable().positive()`: text that is
      not a number passes as undefined; a number must be greater than 0. */
  predicate SalaryOk(s: string) {
    NumberSign(s) != Negative && NumberSign(s) != Zero
  }

  /** The whole schema, as Formik checks it before calling `handleSubmit`. */
  predicate Valid(v: FormValues, isEmail: string -> bool) {
    && MobileOk(v.mobileNumber)
    && (v.email == "" || isEmail(v.email))
    && PanOk(v.panCard)
    && OccupationOk(v.occupationType)
    && SalaryOk(v.monthlySalary)
  }

  /** The two mobile rules agree on every string. */
  lemma MobileRulesAgree(s: string)
    ensures MobileOk(s) <==> ClientValidation.MobileIssues(Some(s)) == []
  {
  }

  /** The two PAN rules agree on every string. */
  lemma PanRulesAgree(s: string)
    ensures PanOk(s) <==> ClientValidation.PanIssues(Some(s)) == []
  {
  }

  /** The occupation rules differ on "": zod lets it through, Yup refuses it. */
  lemma OccupationRulesDiffer()
    ensures ClientValidation.OccupationIssues(Some("")) == [] && !OccupationOk("")
  {
  }

  lemma SignOfDigits(s: string)
    requires |s| > 0 && AllDigits(s)
    ensures NumberSign(s) == (if DecimalValue(s) == 0 then Zero else Positive)
  {
    assert forall i :: 0 <= i < |s| ==> !IsJsSpace(s[i]);
    assert StripSpaces(s) == s;
    assert s[0] != '-' && s[0] != '+';
    assert forall i :: 0 <= i < |s| ==> s[i] != '.';
    IndexOfAbsent(s, '.');
    assert DecimalMantissa(s);
    AllZeroIffValueZero(s);
    assert ZeroMantissa(s) <==> DecimalValue(s) == 0;
  }

  lemma {:induction false} AllZeroIffValueZero(s: string)
    requires AllDigits(s)
    ensures (forall i :: 0 <= i < |s| ==> s[i] == '0') <==> DecimalValue(s) == 0
  {
    if |s| > 0 {
      var front := s[..|s| - 1];
      assert AllDigits(front);
      AllZeroIffValueZero(front);
      assert forall i :: 0 <= i < |front| ==> front[i] == s[i];
    }
  }

  /** On a plain string of digits the two salary rules differ exactly at zero:
      zod accepts every such string, Yup only those denoting a positive number. */
  lemma SalaryRulesDifferOnlyAtZero(s: string)
    requires |s| > 0 && AllDigits(s)
    ensures ClientValidation.SalaryIssues(Some(s)) == []
    ensures SalaryOk(s) <==> DecimalValue(s) > 0
  {
    ParseIntOfDigits(s);
    SignOfDigits(s);
  }

  /** "0" itself: accepted by the zod schema, refused by the Yup schema. */
  lemma SalaryZeroDisagreement()
    ensures ClientValidation.SalaryIssues(Some("0")) == []
    ensures !SalaryOk("0")
  {
    SalaryRulesDifferOnlyAtZero("0");
  }

  /** Text with no number in it passes Yup (it becomes undefined); "abc" is one. */
  lemma SalaryTextPasses()
    ensures SalaryOk("abc")
  {
    var s := "abc";
    assert forall i :: 0 <= i < |s| ==> !IsJsSpace(s[i]);
    assert StripSpaces(s) == s;
    assert !IsDigit(s[0]);
    assert "." !in ["abc"];
    IndexOfAbsent(s, '.');
  }
}
