/** The responses the handlers send: a status code, the `Allow` header when one
    is set, and the body. */
module Http {
  import opened Wrappers
  import opened Schema
  import opened Storage

  datatype Payload =
    | Message(text: string)                                   // { message }
    | LeadBody(lead: LoanLead)                                // a lead as JSON
    | LeadList(leads: seq<LoanLead>)                          // an array of leads
    | Account(user: PublicUser)                               // { id, username, isAdmin }
    | AuthState(authenticated: bool, current: Option<PublicUser>) // /api/auth/status
    | CsvAttachment(filename: string, text: string)           // text/csv download
    | Envelope(success: bool, data: Payload)                  // { success, data }
    | Refusal(success: bool, message: string, issues: seq<string>) // { success: false, message, errors? }
    | DbFailure(error: DbError)                               // a database error surfaced as 500
    | PlainText(text: string)                                 // res.end(text)

  datatype Response = Response(status: int, allow: seq<string>, payload: Payload)

  function Reply(status: int, payload: Payload): Response {
    Response(status, [], payload)
  }

  /** "Method X Not Allowed" with the `Allow` header; an absent method shows as "undefined". */
  function MethodNotAllowed(verb: Option<string>, allow: seq<string>): (r: Response)
    ensures r.status == 405 && r.allow == allow
  {
    Response(405, allow, PlainText("Method " + verb.GetOr("undefined") + " Not Allowed"))
  }
}
