# Gestão de Viagens — the travel-request rules, in Dafny

This project models the rules underneath the travel-request screens of a
state finance department's travel management system, and proves what they
guarantee. A request is created as a `Rascunho` (draft) through a four-step
wizard or a single-page form. An approver approves it or returns it for
correction. After the trip, the traveller sends the accountability
documents ("prestação de contas") within a seven-day window. A daily job
reminds travellers whose window is running out. An authorization document
(the "portaria") is generated from a stored template.

The hosted database is an in-memory `Database.Store` with three tables as
sequences, in table order: `travel_requests`, `approval_workflow` and
`notifications`. Each client call is one method of the store. An
`update ... eq('id', x)` rewrites every row carrying that id
(`Domain.WithStatus`). Dates are whole day numbers. The accountability
count works on millisecond instants, as the screen does. Every screen is
a class whose fields are the component's state. Its handlers are
methods with `modifies` clauses.

Modules, one per source file plus shared ones:

- `Domain` (domain.dfy): rows, statuses, `Option`, `substring`, the query
  filter and the status update.
- `Database` (store.dfy): the in-memory tables.
- `Text` (text.dfy): JavaScript `trim()` and upper-casing.
- `Accountability` (accountability.dfy): `src/pages/AccountabilityForm.tsx`.
- `Approval` (approver.dfy): `src/pages/ApproverDashboard.tsx`.
- `Wizard` (wizard.dfy): `src/pages/WizardTravelRequest.tsx`.
- `NewRequest` (new_request.dfy): `src/pages/NewTravelRequest.tsx`.
- `Portaria` (portaria.dfy): `generatePortariaText` in `src/utils/portariaGenerator.ts`.
- `Alerts` (alerts.dfy): `supabase/functions/alert-overdue-accountability/index.ts`.

Inputs stand for what the code cannot see or does not check. These are
the result of a query, whether a write failed, the id the database
assigns, the template lookup, today's date and the already formatted
dates.

Three places where the code does not do what its own comments, messages
or names lead one to expect. The model follows the code in each:

- The alert job's comment (`supabase/functions/alert-overdue-accountability/index.ts:15-16`)
  counts a 5-day deadline: three days after the return, 2 days remain, and
  its message tells the traveller so. The accountability screen counts a
  7-day window, 7 minus the day distance rounded up. On the alert day it
  shows 4 days left at midnight and 3 for the rest of the day, with a
  green badge throughout (`Accountability.BadgeScenarios`,
  `Alerts.AlertDayOnScreen`, `Alerts.AlertDayAfterMidnight`).
- The statuses name a chain of approval stages (`Aguardando Chefia`,
  `Aguardando Subsecretario`, `Aguardando DAD`). The comment at
  `src/pages/ApproverDashboard.tsx:74` admits that `handleAction` skips it.
  It writes `Aprovado` or `Rejeitado` straight from any of the three
  (`Approval.DecisionSkipsStages`).
- The reminder job has no duplicate guard. A second run on the same day
  stores the same notifications again (`Alerts.RunTwiceSameDay`).

The wizard's form values follow the form library: an input that has never
been shown has no value at all, and the schema's date-order refinement
only runs when no value is missing. On the first pass through step 1 the
date order is therefore not checked. A return before the departure
reaches the last step and is only reported on the final submission
(`Wizard.ReturnBeforeDepartureReachesLastStep`).

## Model

| member | source | states |
|---|---|---|
| Domain.Take | src/utils/portariaGenerator.ts:39 | `substring(0, n)`: the result is a prefix of the text, of length min(n, length) |
| Domain.Filter | src/pages/ApproverDashboard.tsx:39-45 | a query's rows are exactly the table rows meeting its condition, each kept as often as the table holds it and none added |
| Domain.FilterAppend | src/pages/ApproverDashboard.tsx:39-45 | filtering a table made of two parts is filtering each part, in order |
| Domain.WithStatus | src/pages/ApproverDashboard.tsx:77-79 | `update({status}).eq('id', x)`: same number of rows; rows with that id get the new status and keep every other field; all other rows are unchanged |
| Domain.WithStatusMissingId | src/pages/AccountabilityForm.tsx:90-93 | an update on an id no row carries changes nothing |
| Domain.WithStatusSets | src/pages/ApproverDashboard.tsx:77-79 | every row of the updated table with that id has the new status |
| Database.Store.constructor | supabase/functions/alert-overdue-accountability/index.ts:7 | the store stands for the hosted tables the client reaches; it starts with the given requests and empty workflow and notification tables |
| Database.Store.InsertRequest | src/pages/NewTravelRequest.tsx:33-41 | an insert appends the row and touches no other table |
| Database.Store.UpdateStatus | src/pages/AccountabilityForm.tsx:90-93 | the requests become `WithStatus` of the old ones; other tables unchanged |
| Database.Store.AppendWorkflow | src/pages/ApproverDashboard.tsx:66-72 | appends one workflow entry; other tables unchanged |
| Database.Store.InsertNotification | supabase/functions/alert-overdue-accountability/index.ts:51-54 | appends one notification; other tables unchanged |
| Text.TrimStart | src/pages/ApproverDashboard.tsx:58 | drops exactly the leading JavaScript whitespace: the result is a suffix that starts with a non-whitespace character, or is empty |
| Text.TrimEnd | src/pages/ApproverDashboard.tsx:58 | drops exactly the trailing whitespace: the result is a prefix that ends with a non-whitespace character, or is empty |
| Text.Trim | src/pages/ApproverDashboard.tsx:58 | `trim()`: the slice of the text left once the whitespace at both ends is cut off; it neither starts nor ends with whitespace |
| Text.TrimEmptyIffBlank | src/pages/ApproverDashboard.tsx:58 | `comment.trim()` is empty exactly when every character of the comment is whitespace |
| Text.UpperCases | src/utils/portariaGenerator.ts:39 | `a`..`z` map to `A`..`Z` and `à`..`þ` (but `÷`) to `À`..`Þ`, each letter to the one at the same place in its alphabet; every other character is kept |
| Text.UpperString | src/utils/portariaGenerator.ts:39 | `toUpperCase()`: same length, each character upper-cased |
| Accountability.CeilDays | src/pages/AccountabilityForm.tsx:64 | `Math.ceil(ms / day)`: the least number of whole days covering the duration |
| Accountability.DaysLeft | src/pages/AccountabilityForm.tsx:60-67 | never more than 7, and exactly 7 only at the return instant |
| Accountability.DaysLeftOnWholeDays | src/pages/AccountabilityForm.tsx:60-67 | at midnight instants the count is 7 minus the distance in days |
| Accountability.DaysLeftDuringReturnDay | src/pages/AccountabilityForm.tsx:63-66 | any instant later on the return day already shows 6 |
| Accountability.DaysLeftSymmetric | src/pages/AccountabilityForm.tsx:63 | the same distance before or after the return costs the same |
| Accountability.DaysLeftDecreasesAfterReturn | src/pages/AccountabilityForm.tsx:63-66 | after the return the count never goes up as time passes |
| Accountability.DaysLeftIncreasesBeforeReturn | src/pages/AccountabilityForm.tsx:63-66 | before the return the count goes up as time passes |
| Accountability.IsLate | src/pages/AccountabilityForm.tsx:133 | a trip is late when its status is `Em Atraso` or its count is negative; the badge rows below state what follows from it |
| Accountability.BadgeFor | src/pages/AccountabilityForm.tsx:133-145 | red exactly when the status is `Em Atraso` or the count is negative; amber only with 0 to 2 days left; green only with more than 2 |
| Accountability.BadgeByDistance | src/pages/AccountabilityForm.tsx:132-145 | for a trip not marked late: red past 7 days from the return, amber past 4 and up to 7, green up to 4 |
| Accountability.BadgeScenarios | src/pages/AccountabilityForm.tsx:60-67 | 3 days after the return the screen shows 4 and green; 10 days after, -3 and red |
| Accountability.ListedFor | src/pages/AccountabilityForm.tsx:38-42 | the list holds exactly the user's trips in `Aguardando Prestacao de Contas` or `Em Atraso`; it is a `Domain.Filter` of the table, so each such row appears as often as there, in table order |
| Accountability.CheckSubmission | src/pages/AccountabilityForm.tsx:72-82 | ready exactly with a non-empty selection, both mandatory checklist items and at least one file |
| Accountability.WithItem | src/pages/AccountabilityForm.tsx:165-181 | `{ ...checklist, item: checked }`: the clicked box takes the new state and the other two keep theirs |
| Accountability.RefundReceiptNeverRequired | src/pages/AccountabilityForm.tsx:20-24 | the `devolucao` item never changes the verdict |
| Accountability.SubmissionTouchesOnlySelected | src/pages/AccountabilityForm.tsx:90-93 | the submitted trip's rows become `Concluido`; every other row is unchanged |
| Accountability.AccountabilityForm.constructor | src/pages/AccountabilityForm.tsx:16-27 | empty list, no selection, all checklist items false, no files, loading |
| Accountability.AccountabilityForm.FetchRequests | src/pages/AccountabilityForm.tsx:35-52 | the list becomes the query's rows; a single row is auto-selected; a failed query keeps the old list and selection; loading ends either way |
| Accountability.AccountabilityForm.SelectRequest | src/pages/AccountabilityForm.tsx:139 | clicking a trip selects it and changes nothing else |
| Accountability.AccountabilityForm.AddFiles | src/pages/AccountabilityForm.tsx:54-58 | picked files are appended after those already chosen |
| Accountability.AccountabilityForm.RemoveFile | src/pages/AccountabilityForm.tsx:213 | only the i-th file is removed |
| Accountability.AccountabilityForm.ToggleItem | src/pages/AccountabilityForm.tsx:165-181 | a checkbox click sets that box to the new state and changes nothing else on the screen |
| Accountability.AccountabilityForm.Submit | src/pages/AccountabilityForm.tsx:70-110 | a failed guard or failed update changes nothing; success sets the selected id's rows to `Concluido` and clears selection, checklist and files |
| Accountability.TickedChecklistSubmits | src/pages/AccountabilityForm.tsx:70-110 | selecting a trip, attaching files and ticking the two mandatory boxes lets the submission through |
| Approval.PendingApproval | src/pages/ApproverDashboard.tsx:39-45 | exactly the rows in `Aguardando Chefia`, `Aguardando Subsecretario` or `Aguardando DAD`; a `Domain.Filter` of the table, so each appears as often as there, in table order |
| Approval.NewStatus | src/pages/ApproverDashboard.tsx:75 | approval writes `Aprovado`, a return writes `Rejeitado`, never an intermediate stage |
| Approval.CheckAction | src/pages/ApproverDashboard.tsx:57-61 | ignored without a selection or a profile; a return with a blank comment is refused; an approval needs no comment |
| Approval.ApproverDashboard.constructor | src/pages/ApproverDashboard.tsx:24-30 | empty list, loading, no selection, empty comment |
| Approval.ApproverDashboard.FetchRequests | src/pages/ApproverDashboard.tsx:36-54 | the list becomes the pending rows; a failed query keeps it; loading ends |
| Approval.ApproverDashboard.SelectRequest | src/pages/ApproverDashboard.tsx:106 | opening a request selects it and changes nothing else |
| Approval.ApproverDashboard.CloseModal | src/pages/ApproverDashboard.tsx:135 | the backdrop (and the cancel button at line 203) close the modal and keep the comment, so it shows again on the next request opened |
| Approval.ApproverDashboard.SetComment | src/pages/ApproverDashboard.tsx:155 | typing sets the comment and changes nothing else |
| Approval.ApproverDashboard.HandleAction | src/pages/ApproverDashboard.tsx:56-90 | a refused click changes nothing; an accepted one appends one entry with the request id, approver id and role, decision and comment, rewrites only that id's status, and clears selection and comment; write failures are not checked |
| Approval.DecisionSkipsStages | src/pages/ApproverDashboard.tsx:74-79 | after a decision the request is `Aprovado` or `Rejeitado`, whatever stage it was at |
| Wizard.FieldErrors | src/pages/WizardTravelRequest.tsx:11-18 | the fields whose own rule fails: minimum lengths, a picked date, the funding-source enumeration, and any value that is still undefined |
| Wizard.SchemaErrors | src/pages/WizardTravelRequest.tsx:10-22 | a field is flagged exactly when its own rule fails, and `dataRetorno` also when the refinement runs (no value undefined, funding source in the enumeration) and the dates are not in order |
| Wizard.ValidIff | src/pages/WizardTravelRequest.tsx:10-22 | the form is valid exactly when every value is defined, every length bound and the funding-source enumeration hold, and the dates are in order |
| Wizard.DateOrderRule | src/pages/WizardTravelRequest.tsx:19-22 | once the refinement runs and both dates are picked, `dataRetorno` is flagged exactly when the return is before the departure; equal dates pass |
| Wizard.DateOrderSkippedBeforeLaterSteps | src/pages/WizardTravelRequest.tsx:15-22 | while an input of step 2 or 3 has never been shown, `dataRetorno` is flagged only when empty, whatever the date order |
| Wizard.StepFields | src/pages/WizardTravelRequest.tsx:48-51 | the fields each step validates; `FirstPassStepOne` and `StepsCoverSchema` state what checking them amounts to |
| Wizard.StepValid | src/pages/WizardTravelRequest.tsx:53 | `trigger(fields)`: the whole schema runs and none of the step's fields may be flagged; see the two lemmas below |
| Wizard.FirstPassStepOne | src/pages/WizardTravelRequest.tsx:47-53 | before step 2 has been shown, step 1 passes exactly when origin and destination have 2 characters and both dates are picked, in any order |
| Wizard.StepsCoverSchema | src/pages/WizardTravelRequest.tsx:47-53 | once every input has been shown, passing steps 1, 2 and 3 is the same as passing the whole schema |
| Wizard.Mounted | src/pages/WizardTravelRequest.tsx:173 | an input that mounts for the first time gets the empty string; one that already had a value keeps it |
| Wizard.ShowStep | src/pages/WizardTravelRequest.tsx:168-202 | showing step 2 mounts `justificativa` and `tipoTransporte` only, showing step 3 mounts `roteiro` only; every other value, defined or not, stays as it was |
| Wizard.CombinedJustificativa | src/pages/WizardTravelRequest.tsx:77 | the stored text is, piece by piece at the stated positions: the justification, " \| Transporte: ", the transport, " \| Origem: ", the origin, " \| Roteiro: ", the itinerary |
| Wizard.DraftFromForm | src/pages/WizardTravelRequest.tsx:72-80 | a valid form yields a `Rascunho` row with the given id and user, the form's destination, dates in order, funding source and combined justification |
| Wizard.WizardTravelRequest.constructor | src/pages/WizardTravelRequest.tsx:36-45 | step 1; the step-1 values empty, the later steps' values undefined, funding source `Tesouro`; no files |
| Wizard.WizardTravelRequest.EditForm | src/pages/WizardTravelRequest.tsx:145-202 | typing replaces values of inputs that exist and changes nothing else; the wizard's invariant is kept |
| Wizard.WizardTravelRequest.NextStep | src/pages/WizardTravelRequest.tsx:47-57 | the step stays in 1..4; it advances by one (capped at 4) exactly when the step's fields validate, and the step shown next defines its inputs' values; every step reached has defined its inputs |
| Wizard.WizardTravelRequest.PrevStep | src/pages/WizardTravelRequest.tsx:59 | the step stays in 1..4, going back by one and never below 1 |
| Wizard.WizardTravelRequest.HandleFileUpload | src/pages/WizardTravelRequest.tsx:62-66 | the picked files replace the previous ones; step, form and the wizard's invariant are kept |
| Wizard.WizardTravelRequest.Submit | src/pages/WizardTravelRequest.tsx:68-97 | an invalid form reports its errors and inserts nothing; a valid one appends the draft unless the insert fails |
| Wizard.EarlyReturnFormErrors | src/pages/WizardTravelRequest.tsx:10-22 | a fully filled form whose return is before its departure is flagged on `dataRetorno` only |
| Wizard.ReturnBeforeDepartureReachesLastStep | src/pages/WizardTravelRequest.tsx:47-57 | origin "ab", destination "cd", departure day 10, return day 5: the user reaches step 4, and the final submission reports `dataRetorno` and inserts nothing |
| NewRequest.ReturnBeforeDeparture | src/pages/NewTravelRequest.tsx:26 | the page's date check; `DateRulesAgree` relates it to the wizard's rule |
| NewRequest.DateRulesAgree | src/pages/NewTravelRequest.tsx:26 | this page refuses exactly the date pairs the wizard's final validation flags |
| NewRequest.InsertErrorMessage | src/pages/NewTravelRequest.tsx:49 | the error's own message when non-empty, otherwise the fallback text; never empty |
| NewRequest.DraftRecord | src/pages/NewTravelRequest.tsx:33-41 | a `Rascunho` row with the given id and user, and the typed destination, dates (in order), justification and funding source |
| NewRequest.NewTravelRequest.constructor | src/pages/NewTravelRequest.tsx:11-18 | empty inputs, funding source `Tesouro`, not loading, no error |
| NewRequest.NewTravelRequest.HandleSubmit | src/pages/NewTravelRequest.tsx:20-53 | a return before the departure sets the date error and inserts nothing; otherwise the draft is appended, or the insert error is shown; loading is false on every way out |
| Portaria.ChooseTemplate | src/utils/portariaGenerator.ts:29-35 | the stored template when the lookup returned one, the built-in one otherwise |
| Portaria.Matricula | src/utils/portariaGenerator.ts:39 | the id's first 8 characters (all of a shorter id), each upper-cased |
| Portaria.LocalPart | src/utils/portariaGenerator.ts:40 | `split('@')[0]`: a prefix of the address without `@`, stopping at the first `@` |
| Portaria.ServerName | src/utils/portariaGenerator.ts:40 | the name if non-empty, else the e-mail's local part if non-empty, else the fixed placeholder name; never empty |
| Portaria.ReplaceAll | src/utils/portariaGenerator.ts:46-51 | `replace(/pat/gi, value)`; its behaviour is stated by the lemmas below |
| Portaria.MatchShift | src/utils/portariaGenerator.ts:46-51 | dropping the first character shifts every occurrence by one |
| Portaria.ReplaceNoMatch | src/utils/portariaGenerator.ts:46-53 | a text with no occurrence of the placeholder comes back unchanged |
| Portaria.ReplaceFirstMatch | src/utils/portariaGenerator.ts:46-51 | the text before the first occurrence is kept, that occurrence becomes the value, and replacement continues after it |
| Portaria.StepAt | src/utils/portariaGenerator.ts:46-51 | an occurrence at the start becomes the value and the scan resumes after it |
| Portaria.StepOver | src/utils/portariaGenerator.ts:46-51 | with no occurrence at the start the first character is kept |
| Portaria.SkipPlain | src/utils/portariaGenerator.ts:46-51 | text without `[` in front is kept and the replacement goes on after it |
| Portaria.ReplaceAtStart | src/utils/portariaGenerator.ts:46-51 | the placeholder itself at the start becomes the value |
| Portaria.SkipOtherPlaceholder | src/utils/portariaGenerator.ts:46-51 | another bracketed placeholder, differing ignoring case, is kept whole |
| Portaria.PassOverJoin | src/utils/portariaGenerator.ts:46-51 | one pass over pieces and holes replaces exactly the holes equal to the placeholder |
| Portaria.PlaceholderShapes | src/utils/portariaGenerator.ts:46-51 | each placeholder opens with its only `[` and differs, ignoring case, from every one replaced before it |
| Portaria.GeneratePortariaText | src/utils/portariaGenerator.ts:21-54 | the template, then the six passes in order; stated by `TemplateFilled`, `FallbackFilled`, `TemplateWithoutPlaceholders` and `EarlierValueIsRescanned` |
| Portaria.GenerateIsPasses | src/utils/portariaGenerator.ts:46-51 | the generator is the six replacement passes in their order |
| Portaria.PassK | src/utils/portariaGenerator.ts:46-51 | pass k turns the k-th placeholder into the k-th value and keeps the rest |
| Portaria.TemplateFilled | src/utils/portariaGenerator.ts:37-53 | a stored template of six placeholders between pieces without `[` comes out as the same pieces with name, registration number, destination, dates and funding source in place, when no value holds `[` |
| Portaria.FallbackFilled | src/utils/portariaGenerator.ts:29-53 | when the lookup fails, the document is the built-in sentence with those six values in place |
| Portaria.TemplateWithoutPlaceholders | src/utils/portariaGenerator.ts:46-53 | a stored template with no placeholder in any letter case is returned as it is |
| Portaria.NoBracketNoPlaceholders | src/utils/portariaGenerator.ts:46-51 | every placeholder starts with `[`, so a text without `[` holds none |
| Portaria.MatriculaExample | src/utils/portariaGenerator.ts:39 | the id "abcdefghij" gives the registration number "ABCDEFGH" |
| Portaria.EarlierValueIsRescanned | src/utils/portariaGenerator.ts:46-51 | a name reading "[Id]" inserted for "[NOME]" is then replaced by the registration number, because the passes run in order and ignore case |
| Alerts.TargetDay | supabase/functions/alert-overdue-accountability/index.ts:17-22 | the target return date is three days before today |
| Alerts.SelectForAlert | supabase/functions/alert-overdue-accountability/index.ts:24-28 | exactly the rows in `Aguardando Prestacao de Contas` whose return date is today minus 3; a `Domain.Filter` of the table, so each appears as often as there, in table order |
| Alerts.AlertMessage | supabase/functions/alert-overdue-accountability/index.ts:43-45 | the message text; stated by `AlertMessageShape` |
| Alerts.AlertMessageShape | supabase/functions/alert-overdue-accountability/index.ts:43-45 | the message is the greeting, `ID-` and the first 8 characters of the user id (all of a shorter one), then the "2 days left" sentence |
| Alerts.Notice | supabase/functions/alert-overdue-accountability/index.ts:51-56 | the notification for a trip goes to its traveller with that traveller's message; see `NoticesAddressSelection` |
| Alerts.Notices | supabase/functions/alert-overdue-accountability/index.ts:41-56 | one alert per selected trip, in selection order, for its user |
| Alerts.Delivered | supabase/functions/alert-overdue-accountability/index.ts:51-54 | the stored notices are at most one per loop round |
| Alerts.DeliveredMembers | supabase/functions/alert-overdue-accountability/index.ts:41-57 | the table receives the notice of every round whose insert did not fail, and no other |
| Alerts.SendAlerts | supabase/functions/alert-overdue-accountability/index.ts:41-57 | the loop reports every selected trip's alert and stores the alerts whose insert did not fail, in order |
| Alerts.RunAlertBatch | supabase/functions/alert-overdue-accountability/index.ts:9-70 | a query error gives the error result and stores nothing; an empty selection gives "no alerts"; otherwise the count is the number of selected trips, whatever inserts failed |
| Alerts.DeliveredWithoutFailures | supabase/functions/alert-overdue-accountability/index.ts:51-56 | with no failed insert the table receives exactly the reported alerts |
| Alerts.DeliveredAllFailing | supabase/functions/alert-overdue-accountability/index.ts:51-61 | when every insert fails nothing is stored, though the count still covers every trip |
| Alerts.NoticesAddressSelection | supabase/functions/alert-overdue-accountability/index.ts:41-56 | every selected traveller gets an alert, and every alert goes to a selected traveller with that traveller's message |
| Alerts.TwoRunsDuplicate | supabase/functions/alert-overdue-accountability/index.ts:51-54 | two runs without failures store every alert at least twice more: there is no duplicate guard |
| Alerts.AlertDayOnScreen | supabase/functions/alert-overdue-accountability/index.ts:15-16 | at midnight of the alert day the accountability screen shows 4 days left and green, while the message says 2 |
| Alerts.AlertDayAfterMidnight | src/pages/AccountabilityForm.tsx:60-67 | for the rest of the alert day the screen shows 3 days left, still green, while the message says 2 |
| Alerts.RunTwiceSameDay | supabase/functions/alert-overdue-accountability/index.ts:41-57 | two runs of the job on the same day report the same result, and every notice of the day is stored at least twice more than before |

## Left out

- Login, session handling, routing and page layout (`AuthContext`, `ProtectedRoute`, `App`, `Layout`, `Dashboard`): I/O and presentation, not rules.
- The AI prompt constant (`src/lib/aiPrompt.ts`) and `exportPortariaPDF` (PDF rendering and browser download).
- The database client and its row-level security rules. A query is its filter over the in-memory table. A failed query or write is a boolean input, and so is the alert job's set of failing inserts.
- JavaScript `Date` behaviour: time of day, local versus UTC, and `toLocaleDateString`. Stored dates are day numbers and formatted dates are opaque strings.
- Accountability.CeilDays: works on exact integers, not on the floating-point division `Math.ceil` receives.
- File contents and uploads, which the code only logs. Files are a list of names.
- The `submitting`, `isSubmitting` and `actionLoading` flags, `alert()` pop-ups and `navigate` calls. The flags disable the buttons while a write is in flight; a second click during that time is not modelled.
- The list refresh that `handleSubmit` and `handleAction` start after a write without waiting for it. It is the separate `FetchRequests` call.
- Approval.ApproverDashboard.CloseModal: closing is not blocked while an action is in progress, since the `actionLoading` flag is left out.
- Wizard.SchemaErrors: a date string the browser would not parse is not modelled; a picked date is a day number.
- Wizard.WizardTravelRequest.EditForm: input events are one assignment of the whole form; which inputs exist is fixed by the steps shown.
- NewRequest.NewTravelRequest.HandleSubmit: requires the inputs marked `required` to be filled, because the browser does not submit the form otherwise.
- Text.UpperCases: upper-cases ASCII and Latin-1 letters only; other scripts, `ß`, `ÿ` and `µ` are kept as they are.
- Portaria.ReplaceAll: the value is inserted literally; `$` replacement patterns are not interpreted.
- Domain.Take: counts characters, not UTF-16 code units. The same holds for every length in the model: the `.min(n)` rules of `Wizard.FieldOk` and `Wizard.SchemaErrors`, the id prefix in `Alerts.AlertMessage` and in `Portaria.Matricula`.
- Nothing in the code walks a request through the stages of an approval chain, checks the approver's role per stage, moves trips to `Aguardando Prestacao de Contas` or `Em Atraso`, or guards against two approvers acting at once. None of these is modelled.
- The `console.log` of the simulated message sending and the JSON response bodies; the result datatypes carry the count and the alerts.
