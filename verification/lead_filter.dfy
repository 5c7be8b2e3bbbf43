/** The filter precedence both lead-listing handlers share (server/routes.ts and
    pages/api/leads.ts): both dates present selects the date range, else an
    occupation type selects by equality, else every lead is returned. A lone
    date bound is ignored. */
module LeadFilter {
  import opened Wrappers
  import opened Schema
  import opened Storage

  /** `new Date(text)`: a timestamp in milliseconds, or an Invalid Date. */
  datatype Timestamp = InvalidDate | At(ms: int)

  /** The query string: each parameter absent or a string. */
  datatype Query = Query(startDate: Option<string>, endDate: Option<string>, occupationType: Option<string>)

  /** JavaScript truthiness of a query parameter: absent and "" are falsy. */
  predicate Present(p: Option<string>) {
    p.Some? && p.value != ""
  }

  /** Which of the three store queries a request selects. */
  datatype Selection = ByDateRange(start: string, end: string) | ByOccupation(occupation: string) | All

  function Select(q: Query): (r: Selection)
    ensures r.ByDateRange? <==> Present(q.startDate) && Present(q.endDate)
    ensures r.ByOccupation? <==> !(Present(q.startDate) && Present(q.endDate)) && Present(q.occupationType)
    ensures r.ByDateRange? ==> r.start == q.startDate.value && r.end == q.endDate.value
    ensures r.ByOccupation? ==> r.occupation == q.occupationType.value
  {
    if Present(q.startDate) && Present(q.endDate) then ByDateRange(q.startDate.value, q.endDate.value)
    else if Present(q.occupationType) then ByOccupation(q.occupationType.value)
    else All
  }

  /** The leads a query returns. An invalid date cannot be sent to the
      database (serialising it throws), so it is a failure. */
  function SelectLeads(s: Store, q: Query, parseDate: string -> Timestamp): (r: Result<seq<LoanLead>, DbError>)
    ensures r.Failure? <==> Select(q).ByDateRange? && (parseDate(q.startDate.value).InvalidDate? || parseDate(q.endDate.value).InvalidDate?)
    ensures r.Success? && Select(q).ByDateRange? ==>
      var start := parseDate(q.startDate.value).ms;
      var end := parseDate(q.endDate.value).ms;
      forall l :: l in r.value <==> l in s.leads && start <= l.createdAt <= end
    ensures r.Success? && Select(q).ByOccupation? ==>
      forall l :: l in r.value <==> l in s.leads && l.occupationType == q.occupationType.value
    ensures r.Success? && Select(q).All? ==> r.value == s.leads
    ensures r.Success? ==> forall l :: l in r.value ==> l in s.leads
    ensures r.Success? ==> multiset(r.value) <= multiset(s.leads)
  {
    match Select(q)
    case ByDateRange(start, end) =>
      (match (parseDate(start), parseDate(end))
       case (At(a), At(b)) => Success(GetLoanLeadsByDateRange(s, a, b))
       case _ => Failure(InvalidTimestamp))
    case ByOccupation(o) => Success(GetLoanLeadsByOccupationType(s, o))
    case All => Success(GetAllLoanLeads(s))
  }

  /** A single date bound changes nothing: the request behaves as if neither
      date had been sent. */
  lemma LoneDateIgnored(s: Store, q: Query, parseDate: string -> Timestamp)
    requires Present(q.startDate) != Present(q.endDate)
    ensures SelectLeads(s, q, parseDate) == SelectLeads(s, q.(startDate := None, endDate := None), parseDate)
  {
  }
}
