# Onboarding checklist: a Dafny model of its rules

The application collects an employee onboarding checklist. It has:

- an identity block;
- twelve questions: eleven single-choice ones and the multi-select q6;
- comments and a drawn signature.

It stores the record in a hosted table and gives administrators a dashboard, a filtered and searchable list, a user panel and a PDF export. This project models the rules under those screens as pure Dafny functions over immutable data, and proves what they promise.

The record and its derived fields:

- **Types** is the record. Every optional or possibly-empty string is `Absent | Present(text)`, so JavaScript truthiness is explicit (`Filled`). The closed answer sets come with parsers, and `Conforms` is what the typed interface demands.
- **Validation** is the form validator and the status classifier.
- **Mappers** holds the topic-flag mapper and the completion score. Percentages are exact reals.

The data layer and counting:

- **Api** is the row-level logic of the data layer, with the table as a sequence of rows and every query's answer as a parameter. It covers:
  - the insert payload;
  - the filter predicate;
  - the dashboard figures;
  - the department, question and trend counts.
- **GroupBy** is a JavaScript object used as an insertion-ordered counter.

Views and forms:

- **Pagination** is the page-number strip and the Previous and Next buttons.
- **Formatters** holds the truncation and status-label helpers.
- **ErrorHandler** is the error class and the error-to-reply mapping.
- **UseForm**, **ChecklistForm**, **Settings** and **Submissions** are React state handlers. Each is written as one sequential transition on a state record.

Output and demonstration data:

- **Pdf** is the PDF layout. The document is the log of writes (page, y, content), and the y cursor and page breaks are modelled exactly.
- **SampleData** is the demonstration data, with every random draw a parameter in its range.

## Model

| member | source | states |
|---|---|---|
| Types.TextOr | src/utils/pdfGenerator.ts:33-37 | `field \|\| default`: the text when filled, the default when absent or empty |
| Types.ParseStatus | src/types/index.ts:10 | A status text is accepted exactly when it is complete, incomplete or pending, and parses back to a status with that text |
| Types.StatusRoundTrip | src/types/index.ts:10 | Every status parses back from its text, so there are exactly three |
| Types.ParseYesNo | src/types/index.ts:27-38 | Only "Yes" and "No" are accepted for the ten yes/no questions |
| Types.YesNoRoundTrip | src/types/index.ts:27-38 | Both yes/no answers survive printing and parsing |
| Types.ParseDevice | src/types/index.ts:36 | q10 accepts exactly "Yes", "No" and the personal-device opt-out text |
| Types.DeviceRoundTrip | src/types/index.ts:36 | All three q10 answers survive printing and parsing |
| Types.KeyNameInjective | src/types/index.ts:1-41 | Different record fields have different property names |
| Types.ConformingAnswers | src/types/index.ts:27-38 | In a record the interface accepts, every single-choice answer is present and drawn from its closed set; only q10 may opt out |
| Types.OptionalParts | src/types/index.ts:1-41 | id, comments, the flags, the timestamps and q6's length are unconstrained: any values keep a record conforming |
| Validation.CheckFilled | src/utils/validation.ts:15-41 | One pass of the validator: the keys reported are the earlier ones plus exactly the unfilled keys of the pass, each with its message |
| Validation.RequiredEntry | src/utils/validation.ts:15-29 | Each identity or signature field is reported, as "<Label> is required", exactly when it is absent or empty |
| Validation.QuestionEntry | src/utils/validation.ts:32-41 | Each single-choice question is reported, as "Question i must be answered", exactly when unanswered |
| Validation.Q6Entry | src/utils/validation.ts:44-46 | q6 is reported exactly when it is absent or has fewer than three entries |
| Validation.KnownEntry | src/utils/validation.ts:8-52 | Nothing outside the six fields, the eleven questions and q6 is ever reported |
| Validation.ValidateChecklistForm | src/utils/validation.ts:8-52 | isValid holds exactly when the error map is empty; the map has one entry per failed rule, with its message, and none otherwise |
| Validation.ValidIff | src/utils/validation.ts:15-51 | A form is valid exactly when the six fields and eleven answers are filled and q6 has at least three entries |
| Validation.SortedKeysCount | src/utils/validation.ts:15-46 | A list of keys in strictly increasing rank has no repeats |
| Validation.AllKeysCount | src/utils/validation.ts:15-46 | The validator can report 18 distinct keys |
| Validation.NothingFilledErrors | src/utils/validation.ts:15-46 | A form with nothing filled reports every one of the 18 keys |
| Validation.ReportsAll | src/utils/validation.ts:15-46 | An error map with all six fields, all eleven questions and q6 has exactly the 18 keys |
| Validation.EmptyFormErrors | src/utils/validation.ts:15-51 | An empty form is invalid, with 18 errors under 18 distinct property names |
| Validation.InjectiveImageSize | src/utils/validation.ts:15-46 | Keys with distinct names give as many names as keys |
| Validation.DetermineSubmissionStatus | src/utils/validation.ts:59-67 | Total three-way split: complete only at exactly 100; pending for every other value of at least 50, including above 100; incomplete below 50 |
| Mappers.MapSubmissionResponses | src/utils/mappers.ts:7-30 | A missing record stays missing; otherwise every field but the flags is copied and the flags are always set |
| Mappers.FlagsFollowTable | src/utils/mappers.ts:14-27 | Each of the twelve flags is set, and is true exactly when its source question was answered "Yes" |
| Mappers.Question12Twins | src/utils/mappers.ts:25-26 | job_description_review and manager_checkin always agree |
| Mappers.FlagsIgnoreQ6 | src/utils/mappers.ts:14-27 | q6 and any earlier flags have no influence on the flags |
| Mappers.OptOutNoSoftwareAccess | src/utils/mappers.ts:23 | The q10 opt-out sets software_access to false |
| Mappers.FalseFlagMeansNo | src/utils/mappers.ts:14-27 | On a conforming record a false flag means the answer was "No", or for q10 "No" or the opt-out |
| Mappers.FilledKeys | src/utils/mappers.ts:44-47 | The counted keys are exactly the listed keys whose field is filled; all are counted exactly when all are filled |
| Mappers.JsRound | src/utils/mappers.ts:53 | `Math.round`: the integer within half of the value, halves rounded up |
| Mappers.CalculateCompletionPercentage | src/utils/mappers.ts:35-54 | A missing record scores 0; every score lies in [0, 100]; 100 is reached exactly when all 17 fields are filled and q6 has three entries |
| Mappers.ShareBounds | src/utils/mappers.ts:53 | The rounded share of 17 stays in [0, 100] and is 100 only for 17 of 17 |
| Mappers.ShortQ6Scores90 | src/utils/mappers.ts:50-53 | All 17 fields filled with a short q6 scores exactly 90 |
| Mappers.NonIntegerScore | src/utils/mappers.ts:50-53 | 16 of 17 fields with a short q6 scores 84.6 in exact arithmetic, which is not an integer |
| Mappers.CompletionFieldsAreValidated | src/utils/mappers.ts:38-42 | The 17 counted fields are exactly the validator's six fields and eleven questions |
| Mappers.CountedIffValidated | src/utils/mappers.ts:38-47 | All counted fields are filled exactly when all validated fields and answers are filled |
| Mappers.ValidIffFullScore | src/utils/mappers.ts:35-54 | The validator accepts a record exactly when its completion score is 100 |
| Api.FormatSubmission | src/utils/api.ts:10-33 | The payload says complete at 100 whatever the input says. An empty signature becomes "No signature provided". Empty comments are dropped. Identity, dates, answers and q6 pass through |
| Api.FormatKeepsConformance | src/utils/api.ts:10-33 | Normalising keeps a conforming record conforming and is idempotent |
| Api.SubmitChecklist | src/utils/api.ts:5-51 | The submit fails exactly when the store answers with an error, with its message; the signature check can never fail |
| Api.GetFilteredSubmissions | src/utils/api.ts:83-119 | A failure carries the store's message. On success the rows are exactly those that match the filter, in table order, each matching row as often as it occurs in the table |
| Api.AllMeansAnything | src/utils/api.ts:96-102 | An absent, empty or "all" department or status imposes no constraint |
| Api.NoParamsKeepsAll | src/utils/api.ts:83-119 | With no parameters every row is returned |
| Api.BoundsInclusive | src/utils/api.ts:104-110 | A row dated exactly on both bounds matches: both date bounds are inclusive |
| Api.GetDashboardStats | src/utils/api.ts:122-179 | The first failing query's message is reported. On success the completion rate is 0 for an empty or absent total, else complete / total × 100. The average is 0 with no completed rows, else the mean of their day counts |
| Api.PercentBounds | src/utils/api.ts:171 | A share of a positive total lies in [0, 100] and is 100 exactly when part equals whole |
| Api.AllStatuses | src/utils/api.ts:132-136 | Every status in the column equals a value exactly when every row has that status |
| Api.RateFromRows | src/utils/api.ts:122-179 | Counted from one table, the rate lies in [0, 100] and is 100 exactly when the table is non-empty and every row is complete |
| Api.GetDepartmentBreakdown | src/utils/api.ts:182-201 | One entry per distinct department, in order of first appearance, each with its number of rows; failures carry the store's message |
| Api.DepartmentsDistinct | src/utils/api.ts:191-200 | No department is listed twice and every listed one counts at least one row |
| Api.DepartmentListed | src/utils/api.ts:191-200 | Every row's department is listed |
| Api.DepartmentCountsSum | src/utils/api.ts:191-200 | The department counts add up to the number of rows |
| Api.Window | src/utils/api.ts:275-278 | The trend query keeps exactly the rows on or after the window start, in table order, each as often as it occurs in the table |
| Api.GetTrendData | src/utils/api.ts:255-297 | One entry per distinct day in the window, in order of first appearance, each with its number of rows; failures carry the store's message |
| Api.TrendDaysDistinct | src/utils/api.ts:285-296 | Days are listed once each, carry no time part, and count at least one row |
| Api.TrendDayListed | src/utils/api.ts:285-296 | Every row in the window has its day listed |
| Api.TrendCountsSum | src/utils/api.ts:285-296 | The day counts add up to the number of rows in the window |
| Api.AnalysisTotals | src/utils/api.ts:216-249 | Yes, no and other counts together never exceed the row count; on conforming rows they account for every row |
| Api.GetQuestionAnalysis | src/utils/api.ts:204-252 | Eleven entries "Question i" for i = 1 to 12 skipping 6, in order, each with that question's counts; only Question 10 has an other count |
| GroupBy.SumIncrement | src/utils/api.ts:193-194 | Raising one count by one raises the total by one |
| GroupBy.FirstOccurrences | src/utils/api.ts:191-200 | The distinct keys of a list, each once, and no others |
| GroupBy.Bump | src/utils/api.ts:193-194 | `counts[k] = (counts[k] \|\| 0) + 1`: a known key goes up by one, a new key enters last at 1, and nothing else changes |
| GroupBy.BumpTotal | src/utils/api.ts:193-194 | Counting one more key adds exactly one to the total |
| GroupBy.BumpExisting | src/utils/api.ts:193-194 | A known key keeps its place and goes up by one |
| GroupBy.BumpNew | src/utils/api.ts:193-194 | A new key enters last at 1 |
| GroupBy.CountKeys | src/utils/api.ts:191-200 | After counting a list, the keys are its distinct elements in order of first occurrence, each with its number of occurrences |
| GroupBy.CountKeysTotal | src/utils/api.ts:191-200 | Every entry counts at least one, and the counts add up to the list's length |
| Pagination.Range | src/components/ui/Pagination.tsx:21-25 | The pages lo to hi in order, or nothing when hi < lo |
| Pagination.WindowBounds | src/components/ui/Pagination.tsx:29-35 | With more than five pages the window is five consecutive pages within [1, total], containing any valid current page |
| Pagination.GetPageNumbers | src/components/ui/Pagination.tsx:17-60 | The two loops and the head and tail pushes build exactly the strip `PageWindow` describes |
| Pagination.PushHead | src/components/ui/Pagination.tsx:38-43 | Page 1, then an ellipsis if pages are skipped, when the window starts after page 1 |
| Pagination.PushTail | src/components/ui/Pagination.tsx:51-56 | An ellipsis if pages are skipped, then the last page, when the window ends before it |
| Pagination.PushPages | src/components/ui/Pagination.tsx:21-48 | The loop appends the pages lo to hi in order |
| Pagination.FewPagesAllShown | src/components/ui/Pagination.tsx:21-25 | At most five pages gives exactly 1 to total with no ellipsis |
| Pagination.ManyPagesShape | src/components/ui/Pagination.tsx:29-56 | More than five pages: the strip starts at page 1, ends at the last page and holds five consecutive pages |
| Pagination.PagesInRange | src/components/ui/Pagination.tsx:17-60 | Every page shown lies in [1, total] |
| Pagination.PagesIncrease | src/components/ui/Pagination.tsx:17-60 | Page numbers strictly increase along the strip |
| Pagination.EllipsisMarksGap | src/components/ui/Pagination.tsx:38-56 | Every ellipsis stands between two pages more than one apart |
| Pagination.NeighboursConsecutive | src/components/ui/Pagination.tsx:17-60 | Two adjacent pages with no ellipsis between them are one apart |
| Pagination.CurrentShown | src/components/ui/Pagination.tsx:29-30 | A valid current page always appears |
| Pagination.Render | src/components/ui/Pagination.tsx:62-103 | Nothing renders for at most one page. Otherwise Previous is disabled exactly on page 1 and Next exactly on the last page |
| Pagination.NavigationStaysInRange | src/components/ui/Pagination.tsx:62-103 | An enabled Previous or Next leads to a page in range, and they are never both disabled |
| Formatters.TruncateString | src/utils/formatters.ts:41-46 | "" stays "". A string within the limit is kept. A longer one becomes its first `length` characters followed by "..." |
| Formatters.TruncatedIsPrefix | src/utils/formatters.ts:41-46 | A result is a prefix of the input, possibly followed by "...", and at most three longer than the limit |
| Formatters.TruncateIdempotent | src/utils/formatters.ts:41-46 | Truncating twice with one limit equals truncating once |
| Formatters.DefaultLimit | src/utils/formatters.ts:41 | The default limit is 50: up to 50 characters are kept, longer strings become 53 characters |
| Formatters.FormatStatus | src/utils/formatters.ts:53-58 | Only the first character is upper-cased; length and the rest are kept, and "" stays "" |
| Formatters.FormatStatusIdempotent | src/utils/formatters.ts:53-58 | Formatting a formatted status changes nothing |
| Formatters.StatusDisplay | src/utils/formatters.ts:53-58 | The three statuses display as Complete, Incomplete and Pending, and distinct statuses display differently |
| ErrorHandler.NewAppError | src/utils/errorHandler.ts:6-17 | An application error keeps its message and status and is always operational |
| ErrorHandler.DefaultStatus | src/utils/errorHandler.ts:10-13 | The default status is 500 |
| ErrorHandler.StatusFromCode | src/utils/errorHandler.ts:55-69 | The table only produces 400, 403, 404, 409 or 500 |
| ErrorHandler.StatusTable | src/utils/errorHandler.ts:55-69 | The table in both directions: PGRST116 gives 404, PGRST109 409, PGRST104 400, PGRST301 and 42501 403, and exactly every other code 500 |
| ErrorHandler.HandleApiError | src/utils/errorHandler.ts:24-48 | An application error reports its own message and status. Anything else gets a table status. Without a code and message the status is 500, and a non-error gets the generic message |
| ErrorHandler.AppErrorFirst | src/utils/errorHandler.ts:27-32 | The application-error check comes first, even when the error also carries a code |
| ErrorHandler.CodedErrorsMapped | src/utils/errorHandler.ts:35-41 | Any value with a code and a message, Error or plain object, reports that message with the mapped status |
| ErrorHandler.UncodedErrors | src/utils/errorHandler.ts:44-47 | Without a code an Error keeps its message with 500, and anything else reads "An unexpected error occurred" with 500 |
| ErrorHandler.Non500NeedsKnownCode | src/utils/errorHandler.ts:35-69 | Outside application errors, a status other than 500 requires a code and message whose code is in the table |
| UseForm.Init | src/hooks/useForm.ts:8-11 | The hook starts from its initial values with no errors and nothing touched |
| UseForm.ClearAndTouch | src/hooks/useForm.ts:26-37 | A truthy error under the field is deleted and other errors are kept; the field is marked touched and other marks are kept |
| UseForm.HandleChange | src/hooks/useForm.ts:14-38 | A checkbox stores its checked state, any other input its text; other values are unchanged, then the shared error and touched bookkeeping |
| UseForm.HandleCheckboxArrayChange | src/hooks/useForm.ts:41-65 | Checking appends to the list (a non-list counts as empty). Unchecking removes every occurrence of the value and keeps the rest in order. Other values are unchanged |
| UseForm.SetFormErrors | src/hooks/useForm.ts:68-70 | The error map is replaced wholesale and nothing else changes |
| UseForm.ResetForm | src/hooks/useForm.ts:73-77 | Back to the initial values with no errors and nothing touched |
| UseForm.CheckThenUncheck | src/hooks/useForm.ts:41-65 | Checking a value the list lacks and then unchecking it restores the list |
| UseForm.UncheckIdempotent | src/hooks/useForm.ts:47-48 | Unchecking twice gives the same values as unchecking once |
| UseForm.ArrayChangeValues | src/hooks/useForm.ts:41-48 | Only the list under the changed name is replaced |
| UseForm.HandlersKeepInvariants | src/hooks/useForm.ts:14-77 | No handler sets a touched mark to false, and the change handlers never add an error |
| UseForm.ResetForgetsChanges | src/hooks/useForm.ts:14-77 | Whatever any handler did, a reset afterwards gives the same state, and resetting is idempotent |
| ChecklistForm.BlankForm | src/components/ChecklistForm.tsx:9-35 | The initial record: empty identity fields, no answers, empty q6, status incomplete at 0 and today's signature date |
| ChecklistForm.BlankFormInvalid | src/components/ChecklistForm.tsx:9-35 | A blank form does not validate, and q6 is among its errors |
| ChecklistForm.HandleCheckboxChange | src/components/ChecklistForm.tsx:47-71 | q6 checking appends and unchecking removes every occurrence. The message is empty exactly when the old length ±1 is at least 3, and counts that number otherwise. Other names change nothing |
| ChecklistForm.RemoveFromDistinct | src/components/ChecklistForm.tsx:55-56 | Removing an option from a list without repeats removes exactly one entry when present and keeps no repeats |
| ChecklistForm.ToggleCountIsLength | src/components/ChecklistForm.tsx:47-71 | Used as the page uses it, q6 keeps no repeats, the message counts the new length, and it is empty exactly when the validator's q6 rule holds |
| ChecklistForm.UncheckFromEmpty | src/components/ChecklistForm.tsx:55-69 | Unchecking with nothing selected keeps q6 empty and reports "-1/3 selected" |
| ChecklistForm.Payload | src/components/ChecklistForm.tsx:95-101 | The payload is complete at 100 with the signature and submission date set; every other form field is kept |
| ChecklistForm.HandleSubmit | src/components/ChecklistForm.tsx:77-110 | An empty pad aborts with "Please sign the form" and sends nothing. Otherwise the payload is sent; success marks the form submitted, and a failure shows its message or a fixed one |
| ChecklistForm.FormCompletion | src/components/ChecklistForm.tsx:74 | The form's own completion figure is always 100 |
| ChecklistForm.SubmitDoesNotValidate | src/components/ChecklistForm.tsx:77-110 | A signed blank form is stored as complete at 100, although the validator rejects it and its computed score is below 100 |
| ChecklistForm.StoredSignature | src/components/ChecklistForm.tsx:84-101 | The stored row keeps a drawn signature, or records that none was provided when there is no pad |
| ChecklistForm.HandleNewForm | src/components/ChecklistForm.tsx:120-147 | A blank record, both messages cleared and the thank-you view closed |
| ChecklistForm.NewFormAfterSubmit | src/components/ChecklistForm.tsx:77-147 | After a successful submit, a new form is exactly the initial form |
| Settings.AddUser | src/components/admin/Settings.tsx:58-79 | An empty name or email changes nothing. Otherwise one user numbered length + 1, never logged in, is appended and the form resets to "", "", viewer |
| Settings.RemoveUser | src/components/admin/Settings.tsx:82-87 | Unconfirmed, nothing changes. Confirmed, exactly the users with another id stay, in order and each as many times as it was listed, and the form is untouched |
| Settings.AddKeepsExisting | src/components/admin/Settings.tsx:66-74 | Adding keeps every listed user in place and adds exactly one, never logged in |
| Settings.RemoveIdempotent | src/components/admin/Settings.tsx:83-84 | Removing an id twice is removing it once |
| Settings.DuplicateIdAfterRemoval | src/components/admin/Settings.tsx:28-87 | Removing user 1 and adding one issues id 3 a second time; removing id 3 then drops both users |
| Settings.NextId | src/components/admin/Settings.tsx:67 | A number above every id in the list |
| Settings.AddUserFresh | src/components/admin/Settings.tsx:58-79 | The add with the new user numbered above every existing id |
| Settings.FreshIdsStayUnique | src/components/admin/Settings.tsx:58-87 | With fresh numbering, unique ids stay unique through adds and removes, and a removal drops at most one user |
| Settings.SubsequenceKeepsUnique | src/components/admin/Settings.tsx:83-84 | Deleting users keeps ids unique |
| Settings.FilterDropsAtMostOne | src/components/admin/Settings.tsx:83-84 | With unique ids, a removal by id drops at most one user |
| Settings.NumberingsAgreeWithoutRemoval | src/components/admin/Settings.tsx:28-67 | While the ids are 1 to n, both numberings pick n + 1 |
| Settings.InitialIds | src/components/admin/Settings.tsx:28-32 | The initial users have unique ids 1 to 3 |
| Util.FilterCount | src/components/admin/Submissions.tsx:27-31 | `array.filter` keeps each kept element as many times as it occurs and drops every occurrence of the others |
| Submissions.ApplySearchFilter | src/components/admin/Submissions.tsx:23-32 | An empty query keeps every row. Otherwise the kept rows are exactly those whose name, employee ID or department contains the query, ignoring case, in order and with their multiplicity |
| Submissions.SearchIgnoresCase | src/components/admin/Submissions.tsx:26 | Queries differing only in ASCII letter case find the same rows |
| Submissions.HandleSearchChange | src/components/admin/Submissions.tsx:35-42 | The shown rows are the new query applied to every fetched row |
| Submissions.SearchesDoNotCompound | src/components/admin/Submissions.tsx:40-41 | The last search alone decides what is shown |
| Submissions.ClearingShowsAll | src/components/admin/Submissions.tsx:23-42 | Clearing the search shows every fetched row again |
| Submissions.BuildFilters | src/components/admin/Submissions.tsx:52-88 | Department and status are sent exactly when not "all". A today, week or month range sets a start and ends today; any other range sets no bounds |
| Submissions.LoadSubmissions | src/components/admin/Submissions.tsx:46-100 | A failed load shows an error and keeps the rows. A successful one lists exactly the matching fetched rows and re-applies the search |
| Submissions.ShownRowsMatch | src/components/admin/Submissions.tsx:46-100 | Every row shown after a load was fetched, matches the drop-downs and matches the search |
| Submissions.AllSelectionsKeepAll | src/components/admin/Submissions.tsx:52-96 | With every drop-down on "all" every fetched row is listed |
| Pdf.BreakAbove | src/utils/pdfGenerator.ts:67-70 | Below the limit nothing changes; past it a new page starts at the top |
| Pdf.PutKeepsReady | src/utils/pdfGenerator.ts:81-84 | A write that moves the cursor down keeps the log ordered with the cursor below it |
| Pdf.OrderedAppend | src/utils/pdfGenerator.ts:26-137 | A write below everything keeps the log ordered |
| Pdf.NewPagesAppend | src/utils/pdfGenerator.ts:67-70 | A write on the same page, or at the top of the next one, keeps new pages starting at the top |
| Pdf.BreakKeepsReady | src/utils/pdfGenerator.ts:67-70 | A page break keeps the cursor ready |
| Pdf.Header | src/utils/pdfGenerator.ts:18-46 | Page 1 holds, from y = 20 down to y = 81, the title, "Employee Information", the name, employee ID, department and start date lines (empty text for a missing field) and the checklist heading; the questions start at y = 91 |
| Pdf.ResponseText | src/utils/pdfGenerator.ts:72-79 | q6 reads as its entries joined by ", " (an empty list gives ""). A missing q6, or any other missing or empty answer, reads "N/A" |
| Pdf.Responses | src/utils/pdfGenerator.ts:72-83 | The twelve response lines, in order |
| Pdf.QuestionAt | src/utils/pdfGenerator.ts:64-85 | Question j's numbered item and response line sit side by side, in question order |
| Pdf.AskOne | src/utils/pdfGenerator.ts:65-84 | Past y = 250 a new page starts first. The item is written at y ≤ 250 and the response 7 lower, and y advances 17 |
| Pdf.AskFrom | src/utils/pdfGenerator.ts:64-85 | The questions only append two writes each to the log |
| Pdf.AskFromContents | src/utils/pdfGenerator.ts:64-85 | The questions are written in order, each item followed by its response line |
| Pdf.AskFromItemsHigh | src/utils/pdfGenerator.ts:67-70 | Every question item is written at y ≤ 250 |
| Pdf.AskFromKeepsLog | src/utils/pdfGenerator.ts:64-85 | The questions leave earlier writes untouched |
| Pdf.AskFromReady | src/utils/pdfGenerator.ts:64-85 | The questions keep the log ordered and the cursor below it |
| Pdf.QuestionEntries | src/utils/pdfGenerator.ts:64-85 | After the header, question j's item and response sit at fixed positions |
| Pdf.EntriesAfterHeader | src/utils/pdfGenerator.ts:64-85 | A log holding the header and then the questions has question j at positions 5 + 2j and 6 + 2j |
| Pdf.AskOneLayout | src/utils/pdfGenerator.ts:65-84 | Each question lands in its fixed slot and leaves the cursor at the next slot |
| Pdf.AskFromLayout | src/utils/pdfGenerator.ts:64-85 | After the header, every question lands in its slot, and the questions end at y = 54 on page 2 |
| Pdf.CommentsBlock | src/utils/pdfGenerator.ts:87-104 | Only non-empty comments write anything: the heading at the cursor, or at the top of a new page when y > 230, then the lines; y advances by 7 per line plus 20 |
| Pdf.SignatureMark | src/utils/pdfGenerator.ts:121-134 | The 60×30 image advances 35. A failed image or no signature writes one placeholder line and advances 10 |
| Pdf.Acknowledgment | src/utils/pdfGenerator.ts:106-137 | The heading moves to the top of a new page when y > 200, the statement follows 10 lower, and the signature 30 below the heading (so at y ≤ 230) is the 60 × 30 image, the error line or the no-signature line; the date line comes last on the same page |
| Pdf.CommentsKeepReady | src/utils/pdfGenerator.ts:87-104 | The comments block keeps the log ordered |
| Pdf.AcknowledgmentKeepsOrder | src/utils/pdfGenerator.ts:106-137 | The acknowledgment section keeps the log ordered and new pages starting at the top |
| Pdf.GenerateChecklistPdf | src/utils/pdfGenerator.ts:11-141 | The document has 37 writes with comments and 35 without |
| Pdf.TailAppends | src/utils/pdfGenerator.ts:87-137 | The comments and acknowledgment only append |
| Pdf.QuestionsPrefix | src/utils/pdfGenerator.ts:11-85 | The first 31 writes are the header and the questions |
| Pdf.HeaderReady | src/utils/pdfGenerator.ts:18-46 | The header leaves the log ordered with the cursor below it |
| Pdf.QuestionsReady | src/utils/pdfGenerator.ts:18-85 | So do the header and the questions together |
| Pdf.DocumentOrdered | src/utils/pdfGenerator.ts:26-137 | y never decreases except when a new page restarts at the top |
| Pdf.QuestionsInOrder | src/utils/pdfGenerator.ts:49-85 | Questions 1 to 12 appear in order, numbered, each followed by its response |
| Pdf.QuestionLayout | src/utils/pdfGenerator.ts:26-85 | Questions 1 to 10 are on page 1 from y = 91 in steps of 17; 11 and 12 are on page 2 from the top |
| Pdf.TailLayout | src/utils/pdfGenerator.ts:87-120 | After questions ending at y = 54 on page 2, the comments heading is written there, and the acknowledgment heading lands on page 2 or, after more than 18 comment lines, at the top of page 3 |
| Pdf.SectionsAfterQuestions | src/utils/pdfGenerator.ts:87-120 | Comments start at y = 54 on page 2. The acknowledgment follows them on page 2, or moves to page 3 after more than 18 comment lines |
| SampleData.GenerateSampleDepartmentData | src/utils/sampleData.ts:25-33 | The five departments, in the generator's order |
| SampleData.GenerateSampleQuestionData | src/utils/sampleData.ts:39-54 | Twelve entries "Question 1" to "Question 12"; only Question 10 has an other count |
| SampleData.SampleFiguresAgree | src/utils/sampleData.ts:12-54 | The department counts add up to the 157 submissions, each question's yes and no add up to 157, and the departments are the five the generator draws from |
| SampleData.GenerateSampleTrendData | src/utils/sampleData.ts:60-82 | 31 entries on consecutive days ending today, oldest first, each count in 0 to 8 |
| SampleData.Percent | src/utils/sampleData.ts:109-116 | Complete is 100, pending 50 to 90, incomplete 0 to 49 |
| SampleData.StatusMatchesPercent | src/utils/sampleData.ts:104-116 | Each record's percentage classifies back to its own status |
| SampleData.SampleConforms | src/utils/sampleData.ts:119-147 | Every record conforms. Its answers are Yes or No, never the opt-out. q6 has three entries, and the department is one of the five |
| SampleData.SampleDates | src/utils/sampleData.ts:97-133 | The signature date is the submission date, 0 to 4 days after a start within the last 60 days |
| SampleData.SubmittedInFuture | src/utils/sampleData.ts:98-102 | A record is dated after today exactly when its drawn delay exceeds how many days back it started, and never more than four days ahead |
| SampleData.SampleIdentityFilled | src/utils/sampleData.ts:125-133 | Given a clock that writes days as non-empty dates, the six identity and signature fields are filled |
| SampleData.SampleAnswersFilled | src/utils/sampleData.ts:136-147 | Every answer is filled and q6 meets the three-entry rule |
| SampleData.SampleValid | src/utils/sampleData.ts:89-168 | Every record validates and scores 100, although only complete ones store 100 |
| SampleData.PrefixedNumbersDiffer | src/utils/sampleData.ts:126-128 | Different numbers after a common prefix give different texts |
| SampleData.SampleIds | src/utils/sampleData.ts:126-128 | Record i is "sample-i" and "EMP-(1000+i)", so differently numbered records share neither |
| SampleData.NumberedIds | src/utils/sampleData.ts:96-128 | Records built with numbers from 1 carry those numbers in their ids |
| SampleData.NumberedIdsUnique | src/utils/sampleData.ts:96-128 | Numbered ids and employee ids are unique |
| SampleData.GenerateSampleSubmissions | src/utils/sampleData.ts:89-168 | n records numbered 1 to n, each built from its own draws, with unique ids and employee ids |

## Left out

- The hosted database, its client and the network are out of scope. Each query's answer (rows or an error) is a parameter, and rows are in the table's order. The `order by submission_date` of the listing is not modelled.
- `getAllSubmissions` and `getSubmissionById` are not modelled. They only forward a query.
- Logging and alerts are out of scope: console output, `logError`, `alert` calls and the success notices.
- Dates and times are out of scope:
  - `formatDate` and the ISO date renderings are inputs: formatted strings, or a day-number-to-text function in the sample data.
  - The date-window arithmetic of the submissions page and of `getTrendData` is out of scope. Its results (today, a week ago, a month ago, the window start) are parameters.
  - Dates are compared as strings, as the store compares ISO dates. The trend window start is the day the store compares against: the source sends a full `toISOString()` timestamp, which the store casts to the date of the `DATE` column, so the model takes that day, not the timestamp, as `windowStart`.
- Api.GetDashboardStats: the per-row day counts of the average completion time are inputs. The millisecond difference and `Math.ceil` are not modelled; the zero guard and the mean are.
- Floating point is replaced by exact reals. `formatPercentage` and `toFixed` are not modelled.
- The JavaScript object ordering of integer-like keys in the department and trend counters is not modelled. Keys are kept in order of first insertion. A missing department is counted under the key "null".
- Submissions.ApplySearchFilter: case folding is ASCII-only, where `toLowerCase` folds every cased letter; Submissions.SearchIgnoresCase is stated for the same ASCII folding.
- Formatters.FormatStatus: only ASCII letters are upper-cased, where `toUpperCase` maps every cased letter and can lengthen the text ("ß" becomes "SS"); its length-preservation clause holds for this ASCII model, not for the source on arbitrary text.
- Formatters.TruncateString: lengths count characters, where JavaScript's `length` and `substring` count UTF-16 code units, so a cut inside a surrogate pair is not modelled; Formatters.DefaultLimit and Formatters.TruncatedIsPrefix share this.
- Api.GetDepartmentBreakdown: the counter is a plain object, so a department named like an inherited property ("constructor", "toString", "__proto__") starts from that property, not from 0; the model (GroupBy.Bump) counts every department from 0.
- Text handling:
  - `null` and `undefined` are one absent value.
  - Pdf.CommentsBlock: `splitTextToSize` is an opaque line count. `addImage` is a success flag. x coordinates, fonts and alignment are not modelled.
- `generatePDFFromElement` and html2canvas are not modelled, nor are the signature canvas internals: `isEmpty` and `toDataURL` are inputs.
- React scheduling is not modelled. Each handler is one sequential transition from its pre-state.
- Outside inputs:
  - The confirmation dialog of the user removal is a boolean parameter.
  - The record's `created_at` and `updated_at` stamps come from a stamp function of the day.
- UseForm.ClearAndTouch keeps an error entry whose message is "": the hook deletes an entry only when its message is truthy. This is modelled as the code does it, so "no entry after a change" holds only for non-empty messages.
- Not modelled: the checklist form's plain text input handler, the clear-signature button, and the settings page's other settings (company details, notifications, form options). They only store an input.
- SampleData.GenerateSampleStats is the fixed figures of `generateSampleStats`; it has no contract of its own, and its figures are related to the other sample data by SampleData.SampleFiguresAgree.
- The authentication hooks, middleware, database setup script, SharePoint service and presentation-only components are outside this model.

## Findings

| source | as written | input that shows it | evidently intended | confidence | as-written member | corrected member |
|---|---|---|---|---|---|---|
| src/components/admin/Settings.tsx:67 | a new user's id is the list length plus one | remove user 1 from the three initial users, then add a user: the new user gets id 3, which user 3 already has, and removing id 3 then removes both | a new user gets an id no listed user has, so a removal drops at most one user | not executed | Settings.DuplicateIdAfterRemoval | Settings.FreshIdsStayUnique |
