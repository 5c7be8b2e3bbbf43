# LoanChaiye lead capture, modelled in Dafny

LoanChaiye is a lead-capture site for loans. A visitor fills in a three-step
form (mobile number, occupation, optional personal and salary details, terms
checkbox). The lead is posted to an API that stores it with status `"new"`.
Staff log in to an admin panel. There they list leads, filter them by a
creation-date range or an occupation type, change a lead's status and export
every lead as CSV.

This project models the sequential core of that system as pure functions over
immutable values:

- **Validators.** The zod schemas of the react-hook-form lead form and login
  page (`ClientValidation`), and the Yup schema of the Formik form
  (`YupValidation`).
- **Table schema.** The shapes of both tables and the zod schemas derived from
  them (`Schema`). Request bodies are maps from key to JSON value (`Json`).
- **Store.** `DatabaseStorage` over an in-memory `Store` (`Storage`). The store
  holds the leads in insertion order with a serial counter, and the users keyed
  by their unique username. A statement PostgreSQL would refuse is a `Failure`
  and leaves the store unchanged.
- **Filter precedence.** Both lead-listing handlers use it (`LeadFilter`).
- **CSV export.** The writer, plus a reader used to state what the format can
  and cannot carry (`CsvExport`).
- **Express routes** (`Routes`) and the **Next.js API handlers** (`NextLeads`,
  `NextLogin`). Each handler maps request, session and store to a response
  (`Http`) and the new store or session.
- **Form step machines** of both form components (`LeadForm`, `LoanFormSteps`,
  `FormikSteps`).

Clocks and library-defined parsing are parameters:

- `now` is the insert time.
- `parseDate` stands for `new Date(text)`.
- `showDate` stands for `Date#toString`.
- `isEmail` is the email-syntax check.

Some consequences of the code as written:

- `occupationType` is not checked to be non-empty at intake. The Express
  route's insert schema accepts any string, `""` included, and so does the zod
  client schema. Only the Yup schema refuses `""`.
- `monthlySalary` is not always a positive integer. The Next.js POST stores
  `0` for a missing salary. The zod client schema accepts `"0"`, and text with
  no digits parses to NaN. The Next.js POST calls `parseInt` without a radix,
  so `"0x10"` is stored as 16. It also reads the number's `String` form, so a
  number of magnitude 10^21 or more (written "1e+21" and so on) is stored as
  its signed leading digit, where the Express route refuses it as beyond int4.
- The CSV text is the header and `"\n"`, followed by the rows joined by
  `"\n"`. So an empty store still ends in a line feed
  (`CsvExport.ExportLines`).

## Model

| member | source | states |
|---|---|---|
| Schema.ParseInsertLead | shared/schema.ts:34-42 | parses iff mobileNumber and occupationType are strings, the other text fields are string, null or absent, and the salary is a number, null or absent; a failure carries at least one issue; on success every picked field is the body's value, with null and absent read as NULL |
| Schema.ParseInsertLeadOnlyPicked | shared/schema.ts:34-42 | only the seven picked keys influence the parse, so id, status and createdAt in a body never reach the insert |
| Schema.ParseLogin | shared/schema.ts:47-50 | accepts iff username and password are both non-empty strings; an empty username yields "Username is required" first |
| Schema.ProjectIgnoresPassword | server/routes.ts:79-83 | two users have the same public view exactly when they differ at most in their password |
| Storage.BindInt | shared/schema.ts:29 | an integer parameter binds iff it is a number within the int4 range, and then binds to that value |
| Storage.CreateLoanLead | server/storage.ts:36-46 | succeeds iff no text column holds U+0000, mobile and occupation are non-null and the salary is absent or an int4; a U+0000 text is refused first, naming the first such column, then an out-of-range salary; the new lead takes the next serial id, is appended with status "new", createdAt = now and every supplied column kept; users and validity are preserved |
| Storage.GetLoanLead | server/storage.ts:48-51 | none iff no stored lead has the id; otherwise the stored lead with that id |
| Storage.GetAllLoanLeads | server/storage.ts:53-55 | returns the stored leads, each exactly as often as it is stored |
| Storage.GetLoanLeadsByDateRange | server/storage.ts:57-67 | returns exactly the stored leads with start <= createdAt <= end, none more often than it is stored |
| Storage.GetLoanLeadsByOccupationType | server/storage.ts:69-74 | returns exactly the stored leads whose occupationType equals the argument, none more often than it is stored |
| Storage.FiltersWithinAll | server/storage.ts:53-74 | both filter results are contained in getAllLoanLeads |
| Storage.UpdateLoanLeadStatus | server/storage.ts:76-83 | unknown id: none and the store unchanged; known id: the lead with the new status and all other fields kept is returned and stored, every other lead untouched |
| Storage.UpdateThenGet | server/storage.ts:76-83 | after an update the lead reads back with the new status and its createdAt and mobileNumber unchanged |
| Storage.UpdateKeepsRequiredColumns | server/storage.ts:76-83 | an update never changes any lead's id, mobileNumber, occupationType or createdAt |
| Storage.CreatedLeadIsFound | server/storage.ts:36-51 | a created lead is found by getLoanLead under its id, with status "new" |
| Storage.GetUserByUsername | server/storage.ts:23-26 | the user stored under that username, or none when the name is unknown |
| Storage.CreateUser | server/storage.ts:28-34 | fails with a unique violation iff the username is taken; otherwise adds the user with a fresh id, isAdmin defaulting to false, and no other user changed |
| Storage.Initialize | server/storage.ts:86-96 | afterwards "admin" exists; an existing admin leaves the store unchanged; otherwise admin/adminpass with isAdmin = true is added and no other user changes |
| Storage.InitializeIdempotent | server/storage.ts:86-96 | running initialize twice equals running it once |
| LeadFilter.Select | server/routes.ts:156-165 | a date range iff both dates are non-empty; else the occupation filter iff it is non-empty; else all |
| LeadFilter.SelectLeads | server/routes.ts:156-165 | the date branch returns exactly the leads within the inclusive range and fails only on an invalid date; the occupation branch returns exactly the equal ones; otherwise every lead; no lead is returned more often than it is stored |
| LeadFilter.LoneDateIgnored | server/routes.ts:156 | with only one date bound the result equals that with no dates at all |
| CsvExport.Export | server/routes.ts:200-205 | the document starts with the fixed header and a line feed; an empty store yields exactly that |
| CsvExport.ExportLines | server/routes.ts:200-205 | when no field holds a line feed, the document splits into the header and one line per lead in store order, or the header and an empty line for an empty store |
| CsvExport.SalaryText | server/routes.ts:202 | the salary is written as "" iff it is NULL or 0, otherwise as a decimal that parses back to it |
| CsvExport.RowReadsBack | server/routes.ts:202 | when no field holds a double quote, the line reads back as the unquoted id followed by the nine quoted fields in header order |
| CsvExport.ExportIsAmbiguous | server/routes.ts:202 | embedded quotes are not escaped, so a lead whose name is `p","q` exports the same line as a different lead named `p` whose mobile number is `q","` followed by the first one's |
| Text.SplitJoin | server/routes.ts:203 | joining lines with a separator none of them contains and splitting again gives the lines back |
| Text.ParseIntOfDecimal | client/src/lib/validationSchema.ts:20 | parseInt of the decimal text of n is n |
| Text.ParseIntIgnoresTrailing | client/src/lib/validationSchema.ts:20 | parseInt reads the leading digits and ignores the rest |
| Text.NoRadixReadsHex | pages/api/leads.ts:15 | parseInt without a radix reads "0x" followed by hexadecimal digits as the number they denote in base 16 |
| Text.NoRadixOfNumber | pages/api/leads.ts:15 | parseInt without a radix of String(n) is n below 10^21 in magnitude, and the sign with the leading digit from 10^21 on |
| Text.NoRadixOfDecimal | pages/api/leads.ts:15 | parseInt without a radix of the decimal text of n is n |
| Text.NoRadixOfDigits | pages/api/leads.ts:15 | on a string of decimal digits parseInt reads the same with or without radix 10 |
| Text.NatToDecimal | server/routes.ts:202 | the id's text is a non-empty digit string denoting the id, without leading zeros |
| Routes.CheckCredentials | server/routes.ts:38-51 | succeeds iff the user exists and its stored password equals the supplied one; the message is "Incorrect username." iff the user is unknown and "Incorrect password." iff it exists |
| Routes.Login | server/routes.ts:68-92 | 400 with the first schema message iff the schema fails; 200 with the public fields and a new session iff the credentials match; otherwise 401 carrying the strategy's message, "Incorrect username." iff the name is unknown and "Incorrect password." iff it is known; the session changes only on 200 |
| Routes.Logout | server/routes.ts:94-101 | 200 and no session afterwards |
| Routes.AuthStatus | server/routes.ts:104-117 | authenticated iff there is a session, exposing only its id, username and isAdmin |
| Routes.CreateLead | server/routes.ts:128-139 | 400 with the first issue and no insert iff the insert schema fails; once it passes, 500 with the store unchanged iff some text holds U+0000 or the salary is a number beyond int4 (the text refusal reported first), and 201 otherwise; on 201 the lead with the next id, status "new" and every parsed field is appended and the users are unchanged |
| Routes.ParsedTextsNulFree | server/routes.ts:128-139 | for a body the insert schema accepts, the parsed texts are free of U+0000 iff no text field of the body holds one |
| Routes.CreateLeadThenGet | server/routes.ts:128-139 | a lead returned with 201 is found again by its id with the body's mobile number and occupation type, status "new" and createdAt = now |
| Routes.AdminLeads | server/routes.ts:142-149 | 403 "Access denied" unless the session is an admin's; otherwise every lead |
| Routes.FilterLeads | server/routes.ts:151-171 | 403 unless admin; otherwise 200 with the precedence result, or 500 on an invalid date |
| Routes.PatchStatus | server/routes.ts:173-192 | 403 unless admin and 400 for a missing, empty or non-string status, both before any store access; 500 when the parsed id does not bind to an int4; 404 iff no lead has the id; 200 with the updated lead otherwise; only a 200 changes the store, and then only the status of the lead with that id |
| Routes.PatchThenGet | server/routes.ts:173-192 | a lead returned with 200 is found again by its id and differs from the stored lead before the call only in its status |
| Routes.ExportCsv | server/routes.ts:195-213 | 403 unless admin; otherwise 200 with loan-leads.csv holding the export of every lead |
| Routes.LoginThenStatus | server/routes.ts:68-117 | after a successful login the status call reports an authenticated session with that user's public fields |
| Routes.FailedLoginNoSession | server/routes.ts:72-76 | a refused login leaves an unauthenticated caller unauthenticated |
| Routes.LogoutThenStatus | server/routes.ts:94-117 | after logout the status call reports no session |
| Routes.SampleIntake | server/routes.ts:128-132 | a body with only a mobile number and an occupation type is stored with 201 and status "new" |
| Routes.OccupationFilterFinds | server/routes.ts:161-162 | the admin occupation filter lists a stored lead under its own occupation type |
| Routes.PatchByDecimalId | server/routes.ts:173-188 | patching a stored lead through its decimal id answers 200 with the new status |
| NextLeads.OrEmpty | pages/api/leads.ts:9-14 | a falsy field becomes "", a non-empty string is kept |
| NextLeads.AsIs | pages/api/leads.ts:10-13 | mobileNumber and occupationType pass through unvalidated; undefined and null become NULL |
| NextLeads.SalaryOrZero | pages/api/leads.ts:15 | a falsy salary becomes 0; a number below 10^21 in magnitude stays itself and a larger one becomes its signed leading digit, because parseInt reads String(n); a string is read in base 10, or in base 16 after a "0x" or "0X" prefix, since parseInt is called without a radix |
| NextLeads.SalaryFromDigits | pages/api/leads.ts:15 | a digit-string salary is stored as the number it denotes |
| NextLeads.SalaryFromExponent | pages/api/leads.ts:15 | the number 10^21 is stored as 1, while it is beyond the int4 range Express checks |
| NextLeads.SalaryFromHex | pages/api/leads.ts:15 | the string "0x10" is stored as 16, where parseInt with radix 10 would read 0 |
| NextLeads.SalaryFromTrue | pages/api/leads.ts:15 | a salary of true becomes NaN |
| NextLeads.Normalise | pages/api/leads.ts:8-18 | each optional text is "" when falsy, the sent string for a string and String(n) for a number, never NULL; mobile and occupation pass through with undefined and null read as NULL; the salary is the defaulted parseInt |
| NextLeads.NormaliseAgreesWithSchema | pages/api/leads.ts:8-18 | on a body whose text fields are strings and whose salary is a number, this handler builds the Express schema's insert except for the salary, and the two inserts are equal iff the salary is below 10^21 in magnitude |
| NextLeads.PostAgreesWithExpress | pages/api/leads.ts:8-25 | on such a body with a salary below 10^21 in magnitude the Next.js and Express POST store the same row and succeed together; with a larger salary Express answers 500 and leaves the store alone, while Next.js answers 201 iff no text holds U+0000 |
| NextLeads.Post | pages/api/leads.ts:5-33 | never 400; 201 with success iff mobile and occupation are non-null, no defaulted text holds U+0000 and the salary is an int4, storing under the next id a "new" lead with createdAt = now and the defaulted fields; otherwise 500 with success false and the store unchanged |
| NextLeads.List | pages/api/leads.ts:34-60 | 200 with the precedence result and no authentication, or 500 on an invalid date |
| NextLeads.Handle | pages/api/leads.ts:4-65 | POST and GET are dispatched; any other method is 405 with Allow GET, POST and no store change |
| NextLeads.SalaryDefaultsDiffer | pages/api/leads.ts:15 | without a salary this path stores 0 where the Express route stores NULL |
| NextLogin.Handle | pages/api/auth/login.ts:6-59 | non-POST is 405 with Allow POST; 400 iff the login schema fails; 200 with the public fields iff the credentials match; otherwise the one 401 'Invalid credentials' response |
| NextLogin.FailuresIndistinguishable | pages/api/auth/login.ts:19-32 | an unknown username and a wrong password yield identical responses |
| ClientValidation.MobileIssues | client/src/lib/validationSchema.ts:5-8 | no issue iff the length is 10..15 and every character is a digit, '+', whitespace or '-'; each failed check contributes its message |
| ClientValidation.AcceptedMobileShape | client/src/lib/validationSchema.ts:5-8 | an accepted mobile number has 10 to 15 characters from the allowed class |
| ClientValidation.EmailIssues | client/src/lib/validationSchema.ts:9 | absent, "" or a valid address passes |
| ClientValidation.PanShape | client/src/lib/validationSchema.ts:11 | the PAN pattern holds iff the text is five A-Z letters, four digits and one A-Z letter, hence ten characters |
| ClientValidation.PanIssues | client/src/lib/validationSchema.ts:10-12 | passes iff absent, "" or matching the PAN pattern |
| ClientValidation.OccupationIssues | client/src/lib/validationSchema.ts:13-15 | passes iff present; any string including "" is accepted |
| ClientValidation.SalaryTransform | client/src/lib/validationSchema.ts:17-20 | absent or "" becomes undefined, anything else parseInt of it |
| ClientValidation.SalaryRejectsOnlyNegatives | client/src/lib/validationSchema.ts:20-23 | the refine fails exactly when the salary parses to a negative integer |
| ClientValidation.SalaryZeroAccepted | client/src/lib/validationSchema.ts:20-23 | "0" passes and becomes 0 |
| ClientValidation.NegativeSalaryRejected | client/src/lib/validationSchema.ts:20-23 | "-5" becomes -5 and fails the refine |
| ClientValidation.ParseLoanForm | client/src/lib/validationSchema.ts:3-24 | parses iff every field passes; a failure lists every field's issues, the mobile number's first; the output keeps every text as given and carries the transformed salary |
| ClientValidation.OutputBodyFields | client/src/components/LoanForm.tsx:53-56 | the posted body holds each output field under its key, absent ones left out and a NaN salary as null |
| ClientValidation.ClientAcceptedIsServerAccepted | client/src/components/LoanForm.tsx:53-56 | every body the lead form posts passes the server's insert schema with the same texts; a NaN salary arrives as NULL |
| ClientValidation.LoginIssues | client/src/lib/validationSchema.ts:26-29 | no issue iff username and password are both non-empty |
| ClientValidation.LoginSchemasAgree | client/src/lib/validationSchema.ts:26-29 | the client and server login schemas accept the same string pairs |
| YupValidation.StripSpaces | client/src/components/FormikLoanForm.tsx:38-39 | the salary text without whitespace, unchanged when it had none |
| YupValidation.MobileRulesAgree | client/src/components/FormikLoanForm.tsx:24-28 | the Yup mobile rule accepts exactly what the zod rule accepts |
| YupValidation.PanRulesAgree | client/src/components/FormikLoanForm.tsx:30-35 | the Yup PAN rule accepts exactly "" and the pattern, as zod does |
| YupValidation.OccupationRulesDiffer | client/src/components/FormikLoanForm.tsx:36 | Yup refuses an empty occupation type that zod accepts |
| YupValidation.SignOfDigits | client/src/components/FormikLoanForm.tsx:38-41 | a digit string casts to zero iff it denotes 0, otherwise to a positive number |
| YupValidation.SalaryRulesDifferOnlyAtZero | client/src/components/FormikLoanForm.tsx:38-41 | on digit strings zod accepts all while Yup accepts exactly the positive ones |
| YupValidation.SalaryZeroDisagreement | client/src/components/FormikLoanForm.tsx:38-41 | "0" is accepted by zod and refused by Yup |
| YupValidation.SalaryTextPasses | client/src/components/FormikLoanForm.tsx:39 | text that is not a number becomes undefined and passes |
| LeadForm.Back | client/src/components/LoanForm.tsx:314 | Back moves step 2 to 1 and step 3 to 2 and keeps the step within 1..3 |
| LoanFormSteps.OnSubmit | client/src/components/LoanForm.tsx:77-110 | posts the schema's output iff on step 3 with terms accepted; a field error iff the held mobile is empty on step 1 or the held occupation is empty on step 2, and the step stays; otherwise below step 3 advances by one; without terms on step 3 the state is unchanged |
| LoanFormSteps.HandleSubmit | client/src/components/LoanForm.tsx:39-41 | the handler runs only when the zod schema accepts the whole form; the step-1 guard can never fire; whatever is posted passes the server's insert schema with the form's mobile and occupation |
| LeadForm.StepStaysInRange | client/src/components/LoanForm.tsx:33 | a transition that keeps the step in 1..3 keeps it there over every sequence of events |
| LoanFormSteps.ThreeSubmitsPost | client/src/components/LoanForm.tsx:77-110 | a form the schema accepts, with an occupation chosen, reaches step 3 in two submits and, with terms ticked, the next submit posts the schema's output |
| FormikSteps.OnSubmit | client/src/components/FormikLoanForm.tsx:96-111 | below step 3 always advances by one; posts the held strings iff on step 3 with terms, clearing the values at once; without terms nothing changes |
| FormikSteps.HandleSubmit | client/src/components/FormikLoanForm.tsx:96-111 | the handler runs only when the Yup schema accepts the whole form; a refused submit changes nothing; an accepted one below step 3 advances, and on step 3 with terms posts the held strings and clears them |
| FormikSteps.EmptyOccupationHoldsForm | client/src/components/FormikLoanForm.tsx:36 | an empty occupation type, asked for only on step 2, makes every submit a refusal, so the form cannot leave step 1 |
| FormikSteps.StepsStayInRange | client/src/components/FormikLoanForm.tsx:67 | in both forms every sequence of events keeps the step in 1..3 |
| FormikSteps.BothFormsRestartAfterSuccess | client/src/components/FormikLoanForm.tsx:78-86 | after a posted submit and its success both forms are back at step 1, terms cleared, every field empty |
| FormikSteps.FormikPostRefusedByExpress | client/src/components/FormikLoanForm.tsx:74-77 | the Formik body carries the salary as a string, which the Express insert schema refuses |
| FormikSteps.FailedPostKeepsValuesOnlyInLoanForm | client/src/components/FormikLoanForm.tsx:108-109 | after a failed post the react-hook-form version still holds the values; the Formik version has cleared them |

## Left out

- Rendering, styling, theme handling, animated counters and the marketing pages: they hold no logic that can be stated.
- Sessions: cookie signing, the memory store, its 24-hour expiry and pruning, and passport's serialise/deserialise are not modelled. A session is the logged-in user or none. `getUser` (server/storage.ts:18-21) exists only to deserialise sessions and is left out with them.
- Logout's error path (500 "Logout failed") is not modelled; logout always succeeds.
- PostgreSQL itself: the store is an in-memory value, and the database's checks are modelled only where the code relies on them. These are NOT NULL, int4 range, NaN refused by an integer column, U+0000 refused in an inserted lead's text, the username uniqueness, and the refusal of an invalid Date.
- Routes.PatchStatus, Storage.GetUserByUsername, Storage.GetLoanLeadsByOccupationType and Storage.CreateUser: PostgreSQL also refuses U+0000 in these statements' text parameters; only the lead insert models that refusal.
- Storage.CreateLoanLead: a serial value consumed by a refused insert is not modelled; the counter advances only on success. Ids stay unique either way. The serial's own 2^31 limit is not modelled.
- Schema.ParseInsertLead: the integer column is assumed to map to an unbounded zod number, as in drizzle-zod releases before 0.6. An out-of-range salary is refused by the database (500), not by the schema (400).
- Schema.ParseInsertLead: zod's message for a wrong type is modelled as "Required" or "Expected T, received U". Arrays, objects and fractional numbers in a body are not modelled.
- Text.ParseInt: JavaScript numbers are NaN or integers here. Fractions, infinities and precision loss beyond 2^53 are not represented. Text.NumberToString writes the exact integer's digits in exponent notation, where JavaScript writes the shortest digits that identify the double.
- YupValidation.NumberSign: exponent, hexadecimal, binary, octal and Infinity spellings cast to NaN in the model, whereas JavaScript reads them as numbers.
- LeadFilter.SelectLeads, Storage.GetAllLoanLeads, CsvExport.Export and NextLeads.List: a SELECT without ORDER BY gives no ordering guarantee. The model returns leads in insertion order, which is one of the orders the database may produce; the CSV row order inherits this.
- LeadFilter.SelectLeads: query values are modelled as single strings. A repeated key (such as ?occupationType=a&occupationType=b) arrives in Express and Next.js as an array, which is truthy and reaches new Date(array) or eq(column, array); that input is not modelled.
- Date handling: `new Date(text)` and `Date#toString` are the parameters `parseDate` and `showDate`. Time-zone behaviour belongs to them.
- Email syntax (zod and Yup `.email()`) is the parameter `isEmail`.
- Both forms run their schema over the whole form on every submit before the handler (`LoanFormSteps.HandleSubmit`, `FormikSteps.HandleSubmit`). Field-level validation on blur and change, and which messages are displayed, are not modelled; a refused submit is the single effect `Invalid`.
- `apiRequest` (client/src/lib/queryClient) is not part of this model. The posted body is assumed to be `JSON.stringify` of the values: undefined properties left out, NaN written as null (`ClientValidation.OutputBody`).
- ClientValidation.MobileIssues: lengths count Unicode scalar values, while JavaScript counts UTF-16 code units. The two differ only for characters outside the Basic Multilingual Plane, none of which the mobile pattern accepts, so acceptance is unaffected; only which length messages accompany a refusal can differ.
- The terms checkbox and field edits are modelled as plain setters (`CheckTerms`, `Edit` events).
- pages/api/leads/[id]/status.ts, the admin and login pages, and the unused `filterSchema` are not part of this model.
- Logging (`console`), the toasts' wording, and the 500 bodies' library error text are left out. A database failure carries a `DbError` kind.
