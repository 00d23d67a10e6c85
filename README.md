# Quiz-App proctored-quiz backend in Dafny

This project models the server side of the Quiz-App proctored-quiz backend and proves properties of the model. An instructor creates quizzes, imports questions and a student roster from CSV, and sends one-time codes. A student starts an attempt with a code, answers, sends monitoring events and webcam snapshots, may connect a second camera, and finishes. The instructor watches a dashboard and can close a quiz, extend it, end or delete an attempt, and delete a quiz.

The model has one module per source file of the core, plus `Common` for the JavaScript string and array built-ins the code relies on:

- `Models`: the records and schema defaults.
- `Storage`: the database, as the class `Store`.
- `AttemptService`: the attempt lifecycle.
- `AttemptRoutes`: the routes under `/attempts`.
- `OtpService`: the code check that starts an attempt.
- `InvitationService`: issuing and resending codes.
- `Otp`: code generation and verification.
- `RateLimit`: the fixed-window limiter, as the class `RateLimiter`.
- `QuizService`: quiz settings, listing with auto-close, creation and update.
- `QuizRoutes`: the public view and the start route, with shuffling.
- `QuizAdminRoutes`: the dashboard, terminate, extend and delete.
- `QuestionImport`: the question CSV import.
- `StudentImport` and `LegacyStudentImport`: the two roster imports.
- `ExportCsv`: the CSV export.
- `Mailer`: the SMTP configuration check.
- `ApiUrl`: the frontend's URL joining.

The database is a `Store` object. It has one sequence per collection, in storage order, and a map for the second-camera sessions keyed by attempt. It also keeps the set of every id ever issued.

`Store.Valid()` states the integrity the code relies on:
- ids are unique and were issued;
- there is one invitation per (quiz, student);
- there is one phase snapshot per (attempt, phase);
- each attempt's suspicious-event counter equals the number of its events.

Every state-changing operation is a method that keeps `Valid()`. Its postcondition gives the whole new state as a function of the old one.

What lies outside the program becomes a parameter:
- the current time `now`, in milliseconds;
- the SHA-256 hash, as the store's `hash` function;
- random draws (`crypto.randomInt`, `Math.random`), as oracle values;
- JWT signing and verification, as `sign` and `decode` functions;
- CSV parsing, as a `parse` function from text to rows;
- the e-mail regular expression, as an `isEmail` predicate;
- the process environment the mailer and the invitation service read (SMTP settings, `SMTP_FROM`, `APP_BASE_URL`, the development flag), as a record.

The roster import exists twice. The current one is `apps/backend/src/server/quizzes/studentService.ts`, modelled as `StudentImport`. The older one is `src/server/quizzes/studentService.ts`. It checks less and numbers generated ids differently, and it is modelled as `LegacyStudentImport`.

## Model

| member | source | states |
|---|---|---|
| ApiUrl.DropTrailingSlash | apps/frontend/src/lib/api.ts:25 | the base loses at most one trailing slash: the result is the base itself or the base minus a final "/" |
| ApiUrl.ResolveUrl | apps/frontend/src/lib/api.ts:18-26 | absolute http(s) URLs and every path under an empty base are returned unchanged; otherwise the base without its trailing slash is joined to the path with exactly one "/" |
| ApiUrl.LeadingSlashIrrelevant | apps/frontend/src/lib/api.ts:25 | a relative path resolves to the same URL with or without a leading slash |
| ApiUrl.SlashPathNotAbsolute | apps/frontend/src/lib/api.ts:19 | a path beginning with "/" is never taken for an absolute URL |
| ApiUrl.TrailingSlashIrrelevant | apps/frontend/src/lib/api.ts:25 | a base with one trailing slash resolves every path like the same base without it |
| Otp.GenerateOtp | apps/backend/src/server/security/otp.ts:3-7 | a code is all decimal digits and has exactly `digits` characters (one when `digits` is 0) |
| Otp.GeneratedCodeValue | apps/backend/src/server/security/otp.ts:5-6 | the padded code denotes the drawn value, so distinct draws give distinct codes |
| Otp.PaddedDecimal | apps/backend/src/server/security/otp.ts:6 | left-padding the decimal form with zeros keeps its value and gives max(digits, 1) digits |
| Otp.VerifyOtp | apps/backend/src/server/security/otp.ts:13-16 | the check throws exactly when the digests differ in length and accepts exactly when the stored digest equals the candidate's digest |
| Otp.VerifyIssuedCode | apps/backend/src/server/security/otp.ts:9-16 | the digest stored for a code accepts that code |
| Otp.VerifyNeverThrows | apps/backend/src/server/security/otp.ts:13-16 | with fixed-length digests the comparison never throws, and it rejects every candidate whose digest differs |
| RateLimit.Decide | apps/backend/src/server/security/rateLimit.ts:5-18 | a missing or expired entry opens a new window of count 1; inside a window the call is admitted exactly when fewer than `limit` calls were admitted, the count then grows by one, and the window end never moves |
| RateLimit.WindowBound | apps/backend/src/server/security/rateLimit.ts:12-17 | inside one window at most `limit - count` further calls are admitted |
| RateLimit.FreshWindowBound | apps/backend/src/server/security/rateLimit.ts:8-17 | a window opened by a call admits at most max(limit, 1) calls before it ends |
| RateLimit.RateLimiter.constructor | apps/backend/src/server/security/rateLimit.ts:3 | the store starts empty |
| RateLimit.RateLimiter.Admit | apps/backend/src/server/security/rateLimit.ts:5-18 | the call's verdict and the key's new entry are those of `Decide`; the entries of every other key are unchanged |
| Mailer.NameInjective | apps/backend/src/server/mail/mailer.ts:19-22 | distinct settings are reported under distinct names |
| Mailer.Rank | apps/backend/src/server/mail/mailer.ts:19-22 | every setting has a position in the reporting order |
| Mailer.MissingSettingsExact | apps/backend/src/server/mail/mailer.ts:18-22 | the missing list holds exactly the absent settings, in the order host, port, user, password, once each |
| Mailer.MissingNamesExact | apps/backend/src/server/mail/mailer.ts:18-23 | a setting's name is listed exactly when it is absent; the list is empty exactly when all four are present |
| Mailer.GetMailerConfigError | apps/backend/src/server/mail/mailer.ts:17-25 | no error exactly when all four settings are present; otherwise "Missing SMTP configuration: " followed by the absent names joined with ", " |
| ExportCsv.IntText | apps/backend/src/server/quizzes/exportService.ts:10 | a number's text holds no comma and no line break |
| ExportCsv.Fields | apps/backend/src/server/quizzes/exportService.ts:7-10 | every attempt gives six fields |
| ExportCsv.Rows | apps/backend/src/server/quizzes/exportService.ts:6-11 | one row per attempt, in order |
| ExportCsv.AttemptsOf | apps/backend/src/server/quizzes/exportService.ts:4 | exactly the stored attempts of the requested quiz are exported: each exported attempt is stored and belongs to the quiz, and each stored attempt of the quiz is exported |
| ExportCsv.AttemptsOfOrder | apps/backend/src/server/quizzes/exportService.ts:4 | the export keeps storage order: the attempts stored earlier come first, and a single stored attempt is exported exactly when it belongs to the quiz |
| ExportCsv.JoinAvoids | apps/backend/src/server/quizzes/exportService.ts:10-12 | joining never introduces a character absent from the parts and the separator |
| ExportCsv.FieldsAvoid | apps/backend/src/server/quizzes/exportService.ts:7-10 | fields hold no comma (or line break) when the name, email and date hold none |
| ExportCsv.ExportLines | apps/backend/src/server/quizzes/exportService.ts:3-13 | without line breaks in the data the export is the header line followed by one line per attempt of the quiz |
| ExportCsv.HeaderLine | apps/backend/src/server/quizzes/exportService.ts:5 | the header is one line and splits into the six column names |
| ExportCsv.ColumnNamesPlain | apps/backend/src/server/quizzes/exportService.ts:5 | no column name holds a comma or a line break |
| ExportCsv.RowAvoidsNewline | apps/backend/src/server/quizzes/exportService.ts:10 | a row is one line when the name, email and date have no line break |
| ExportCsv.RowColumns | apps/backend/src/server/quizzes/exportService.ts:10 | a row splits back into its six fields when the name, email and date hold no comma |
| ExportCsv.CommaInNameShiftsColumns | apps/backend/src/server/quizzes/exportService.ts:10 | nothing is escaped: a comma in a name yields seven columns and shifts the rest |
| Models.ParseStatus | apps/backend/src/server/quizzes/quizService.ts:83-88 | a status stored from request text reads back as that text, and lies outside the enum exactly when the text is not draft, published or closed |
| Models.ParsePhase | apps/backend/src/routes/attempts.ts:82-83 | a phase is accepted exactly when it is "start", "middle" or "end", and the accepted phase has that name |
| Models.MergeEmpty | apps/backend/src/server/quizzes/quizService.ts:62 | spreading an empty settings patch over the stored settings changes nothing |
| Models.MergeFull | apps/backend/src/server/quizzes/quizService.ts:62 | a patch supplying every key replaces the stored settings entirely |
| Models.MergeIdempotent | apps/backend/src/server/quizzes/quizService.ts:62 | spreading the same patch twice is spreading it once |
| Models.SettingsDefaults | apps/backend/src/server/models/Quiz.ts:38-53 | the quiz settings defaults are the ones the schema declares: 35-second questions, no total time, start or end, shuffling, event logging and mobile use on, every other switch off |
| Models.AttemptDefaults | src/server/models/Attempt.ts:43-52 | a new attempt is in progress, not submitted, with a zero score, no details, no suspicious events and no end reason |
| Models.InvitationDefaults | src/server/models/Invitation.ts:24-27 | a new invitation allows five code attempts, has used none, is not verified and records no send time |
| QuizService.NormalizeDate | apps/backend/src/server/quizzes/quizService.ts:8-15 | an absent date stays absent, a date given as text is replaced by its parsed instant or null, any other value is kept |
| QuizService.NormalizeSettings | apps/backend/src/server/quizzes/quizService.ts:5-17 | absent settings stay absent; otherwise only the two dates change and no date is left as text |
| QuizService.NormalizeIdempotent | apps/backend/src/server/quizzes/quizService.ts:5-17 | normalizing twice is normalizing once |
| QuizService.NormalizedDateStored | apps/backend/src/server/quizzes/quizService.ts:12-15 | an end date given as text is stored as its parsed instant, or null when it does not parse |
| QuizService.AutoCloseAll | apps/backend/src/server/quizzes/quizService.ts:21-24 | the close-overdue update visits every quiz in place |
| QuizService.QuizzesOf | apps/backend/src/server/quizzes/quizService.ts:25 | the listing holds exactly the instructor's quizzes |
| QuizService.AutoCloseExactly | apps/backend/src/server/quizzes/quizService.ts:21-24 | only the status of the instructor's published quizzes whose end has passed changes, and a second pass changes nothing |
| QuizService.ListedNotOverdue | apps/backend/src/server/quizzes/quizService.ts:19-26 | no listed quiz is still published past its end |
| QuizService.ListQuizzes | apps/backend/src/server/quizzes/quizService.ts:19-26 | the store is closed-over as AutoCloseAll says and the result is the instructor's quizzes afterwards |
| QuizService.GetQuiz | apps/backend/src/server/quizzes/quizService.ts:28-34 | the result is a stored quiz with that id owned by that instructor; 404 "Quiz not found" exactly when there is none |
| QuizService.AssertQuizOwnership | apps/backend/src/server/quizzes/quizService.ts:36-41 | passes exactly when the quiz would be found, otherwise 404 |
| QuizService.NewQuizSettings | apps/backend/src/server/quizzes/quizService.ts:43-54 | a quiz created without settings gets exactly the schema defaults, a supplied key overrides its default, and the status is draft |
| QuizService.CreateQuiz | apps/backend/src/server/quizzes/quizService.ts:43-54 | a missing or empty title fails with 500 and stores nothing; otherwise one quiz under a fresh id is appended and returned |
| QuizService.UpdatedStatus | apps/backend/src/server/quizzes/quizService.ts:64-79 | the status is the requested one (any text), except that a closed quiz whose payload supplies a truthy end date now in the future, and keeps its owner, is published again (and only then) |
| QuizService.InvalidEndNeverReopens | apps/backend/src/server/quizzes/quizService.ts:12-15 | an end date that does not parse is stored as null and never reopens the quiz |
| QuizService.UpdateFrame | apps/backend/src/server/quizzes/quizService.ts:61-66 | the id never changes; the owner changes exactly when the payload names one, to that one; without settings in the payload the settings are kept and nothing reopens |
| QuizService.MovedQuizNotReopened | apps/backend/src/server/quizzes/quizService.ts:64-80 | an update that hands the quiz to another owner and moves its end into the future leaves it closed under the new owner, and returns null because the reopening lookup filters on the old owner |
| QuizService.UpdateQuiz | apps/backend/src/server/quizzes/quizService.ts:56-81 | 404 and no change for a quiz the instructor does not own; otherwise that quiz alone is replaced by its update (owner, fields, merged settings and unvalidated status), and the reply is the stored quiz or null when the update moved it away before reopening |
| QuizService.UpdateQuizStatus | apps/backend/src/server/quizzes/quizService.ts:83-93 | 404 and no change for a quiz the instructor does not own; otherwise only that quiz's status changes, to whatever text the request gives, which reads back unchanged |
| Storage.IndexOfKey | apps/backend/src/routes/attempts.ts:36 | the first stored record with the key, and none exactly when no record has it |
| Storage.IndexOfUnique | src/server/models/AttemptSnapshot.ts:33 | with unique keys the lookup finds the one record holding the key |
| Storage.QuestionsOf | apps/backend/src/routes/quizzes.ts:110 | exactly the quiz's questions, in storage order |
| Storage.QuestionsOfUnique | apps/backend/src/routes/quizzes.ts:110 | the quiz's questions keep distinct ids |
| Storage.StudentsOf | apps/backend/src/server/quizzes/invitationService.ts:14 | exactly the quiz's roster, in storage order |
| Storage.StudentsOfUnique | apps/backend/src/server/quizzes/invitationService.ts:14 | the roster keeps distinct ids |
| Storage.OwnedKept | apps/backend/src/routes/quizzes.ts:205-215 | an event keeps its owning attempt in any collection that keeps that attempt |
| Storage.OwnedSameKeys | src/server/attempts/attemptService.ts:15-24 | an event keeps its owner when every attempt keeps its id and quiz |
| Storage.EventCountAppend | src/server/attempts/attemptService.ts:15-23 | appending an event adds one to its attempt's count and nothing to any other |
| Storage.ReplaceAttemptKeepsValid | src/server/attempts/attemptService.ts:55-60 | rewriting an attempt that keeps its id, quiz and counter keeps the store's integrity |
| Storage.EventCountNone | apps/backend/src/server/quizzes/otpService.ts:63-73 | an attempt no event refers to has no events |
| Storage.AppendAttemptKeepsValid | apps/backend/src/server/quizzes/otpService.ts:63-73 | a new attempt under a fresh id with a zero counter keeps the store's integrity |
| Storage.ReissueKeepsValid | apps/backend/src/server/quizzes/invitationService.ts:37-50 | invitations with one record per (quiz, student) slot, and any audit trail, keep the store's integrity |
| Storage.AppendQuizKeepsValid | apps/backend/src/server/quizzes/quizService.ts:45-52 | a new quiz under a fresh id keeps the store's integrity |
| Storage.UniqueSlotsByKey | src/server/models/Invitation.ts:19-20 | one invitation per slot is uniqueness of the (quiz, student) key |
| Storage.UniquePhasesByKey | src/server/models/AttemptSnapshot.ts:33 | one snapshot per phase is uniqueness of the (attempt, phase) key |
| Storage.EventsWithout | apps/backend/src/routes/attempts.ts:320 | exactly the events of other attempts remain, in order |
| Storage.EventCountWithout | apps/backend/src/routes/attempts.ts:320 | deleting one attempt's events zeroes its count and keeps every other attempt's |
| Storage.EventsOutside | apps/backend/src/routes/quizzes.ts:211 | exactly the events of other quizzes remain, in order |
| Storage.EventCountOutside | apps/backend/src/routes/quizzes.ts:211 | deleting a quiz's events keeps the count of every attempt of another quiz |
| Storage.AuditKeepsValid | apps/backend/src/routes/quizzes.ts:487-491 | the audit trail takes no part in the store's integrity |
| Storage.QuizzesKeepIdsValid | apps/backend/src/server/quizzes/quizService.ts:64-78 | quizzes rewritten in place, each keeping its id, keep the store's integrity |
| Storage.ReplaceInvitationKeepsValid | apps/backend/src/server/quizzes/otpService.ts:42-43 | rewriting an invitation within its slot keeps the store's integrity |
| Storage.Store.constructor | apps/backend/src/server/db.ts:1-22 | an empty, valid store |
| Storage.Store.Commit | apps/backend/src/routes/quizzes.ts:205-215 | every collection is replaced at once by the given state |
| Storage.Store.Audit | apps/backend/src/routes/attempts.ts:297-302 | exactly one audit entry is appended and nothing else changes |
| Storage.Store.FreshId | apps/backend/src/server/quizzes/otpService.ts:63 | the new id was never issued, and only the issued set grows |
| Storage.Store.AttemptIndex | apps/backend/src/routes/attempts.ts:36 | the position of the attempt with that id, none exactly when there is no such attempt |
| Storage.Store.QuizIndex | apps/backend/src/routes/quizzes.ts:40 | the position of the quiz with that id, none exactly when there is no such quiz |
| Storage.Store.OwnedQuizIndex | apps/backend/src/server/quizzes/quizService.ts:29 | a quiz with that id owned by that instructor; none only when there is no such quiz |
| Storage.Store.StudentByEmail | apps/backend/src/server/quizzes/otpService.ts:47 | the first student of the quiz with that email; none exactly when there is none |
| Storage.Store.InvitationIndex | apps/backend/src/server/quizzes/invitationService.ts:37-38 | the invitation of the slot; none exactly when the slot is empty |
| Storage.FindStudent | apps/backend/src/server/quizzes/invitationService.ts:85 | the first student of the quiz with that email; none exactly when there is none |
| Storage.FindSlot | apps/backend/src/server/quizzes/invitationService.ts:37-38 | the invitation of the slot; none exactly when the slot is empty |
| Storage.FindQuizByIdOrCode | apps/backend/src/server/quizzes/otpService.ts:9 | the first quiz whose id or code is the given text; none exactly when no quiz matches either way |
| Storage.FindInvitationByEmail | apps/backend/src/server/quizzes/otpService.ts:20 | the first invitation of the quiz for that email; none exactly when there is none |
| InvitationService.ConfigErrorExact | apps/backend/src/server/quizzes/invitationService.ts:18-29 | sending is configured exactly in dev mode or when the sender, the four transport settings and the link base are all set; every configuration error is a 500 |
| InvitationService.CheckMailConfig | apps/backend/src/server/quizzes/invitationService.ts:18-29 | the checks run in order: missing sender (outside dev mode), then the transport's message, then the missing link base |
| InvitationService.CodeFrom | apps/backend/src/server/quizzes/invitationService.ts:35 | every issued code is six decimal digits |
| InvitationService.Upsert | apps/backend/src/server/quizzes/invitationService.ts:37-50 | one invitation per slot is kept, and the slot afterwards holds the new address, digest, expiry and send time with no verification |
| InvitationService.UpsertFrame | apps/backend/src/server/quizzes/invitationService.ts:37-50 | other slots are untouched; an existing invitation keeps its attempt counter and ceiling; the collection grows by one new default invitation exactly when the slot was empty |
| InvitationService.UpsertUpdate | apps/backend/src/server/quizzes/invitationService.ts:40-46 | rewriting the slot's existing invitation issues the new code in the slot |
| InvitationService.ReissueKeepsLockout | apps/backend/src/server/quizzes/invitationService.ts:40-47 | a slot whose attempts are used up still answers 429 after a new code is issued, even inside the window and before the new expiry |
| InvitationService.UpsertKeepsOtherSlot | apps/backend/src/server/quizzes/invitationService.ts:37-38 | issuing to one slot leaves the code issued to any other slot in place |
| InvitationService.IssueAll | apps/backend/src/server/quizzes/invitationService.ts:34-50 | issuing to a roster keeps one invitation per slot |
| InvitationService.IssueAllIssuesEach | apps/backend/src/server/quizzes/invitationService.ts:34-50 | after a roster send every student's slot holds the code drawn for that student, at the student's address, with the shared expiry |
| InvitationService.IssueAllKeepsOthers | apps/backend/src/server/quizzes/invitationService.ts:34-50 | invitations of slots outside the roster are left as they were |
| InvitationService.SentLogs | apps/backend/src/server/quizzes/invitationService.ts:71-76 | one audit entry per student of the roster |
| InvitationService.SendInvitations | apps/backend/src/server/quizzes/invitationService.ts:13-78 | an empty roster gives 400 and a configuration error its 500, both with no write; otherwise every student's slot is issued a code expiring in 15 minutes and one otp_sent entry per student is appended |
| InvitationService.IssueLoop | apps/backend/src/server/quizzes/invitationService.ts:34-77 | the loop computes exactly the roster issue and the roster's audit entries |
| InvitationService.IssueStep | apps/backend/src/server/quizzes/invitationService.ts:34-50 | each pass of the loop issues to one more student |
| InvitationService.SentLogsStep | apps/backend/src/server/quizzes/invitationService.ts:71-76 | each pass of the loop adds that student's audit entry |
| InvitationService.ResendInvitation | apps/backend/src/server/quizzes/invitationService.ts:80-145 | the limiter is consulted first (3 per 10 minutes per quiz and address); a refused call is 429 with no store change; an admitted one behaves as IssueToOne with otp_resend |
| InvitationService.SendInvitationToStudent | apps/backend/src/server/quizzes/invitationService.ts:147-208 | behaves as IssueToOne with otp_sent, without any rate limit |
| InvitationService.IssueToOne | apps/backend/src/server/quizzes/invitationService.ts:147-208 | 404 with no change for an unknown address, the configuration error with no change, otherwise the student's slot is issued a code expiring in 15 minutes and exactly one audit entry is appended |
| OtpService.Gate | apps/backend/src/server/quizzes/otpService.ts:9-39 | the guards pass exactly when the quiz exists and is neither closed nor a draft, the invitation exists, the window is open, the code has not expired and the ceiling is not reached; a closed or draft quiz always gives 403, a reached ceiling always fails |
| OtpService.UnlistedStatusAdmits | apps/backend/src/server/quizzes/otpService.ts:13-18 | a quiz whose status text is outside the enum passes the guards exactly as a published one does |
| OtpService.WindowIsInclusive | apps/backend/src/server/quizzes/otpService.ts:26-33 | a start exactly at startAt, exactly at endAt, or exactly at the code's expiry is admitted |
| OtpService.ExpiryReportedBeforeCeiling | apps/backend/src/server/quizzes/otpService.ts:33-39 | an expired code is reported as 400 expired even when the ceiling is also reached |
| OtpService.AfterWrongCode | apps/backend/src/server/quizzes/otpService.ts:41-45 | a wrong code raises the counter by exactly one when it reaches the comparison and changes nothing else |
| OtpService.GuessBound | apps/backend/src/server/quizzes/otpService.ts:37-45 | however calls are spread in time, at most maxOtpAttempts - otpAttempts wrong codes are ever compared |
| OtpService.CodeStaysUsable | apps/backend/src/server/quizzes/otpService.ts:59-61 | a successful start resets the counter, and the same code still passes the guards |
| OtpService.Eligibility | apps/backend/src/server/quizzes/otpService.ts:47-57 | passes exactly when the student is on the roster (if the quiz requires it) and, unless several attempts are allowed, no completed attempt by the address exists; only completed attempts block |
| OtpService.SlotOf | apps/backend/src/server/quizzes/otpService.ts:20 | the invitation found lies in the store |
| OtpService.StartedAttempt | apps/backend/src/server/quizzes/otpService.ts:63-73 | a new attempt is in progress with a zero score and no events, for the quiz and address, started now, linked to the invitation; it names a student exactly when one is on the roster, falling back to the address |
| OtpService.Admit | apps/backend/src/server/quizzes/otpService.ts:9-39 | fails exactly when the guards fail, with the first failing guard's error; otherwise returns the quiz and invitation the lookups found |
| OtpService.CheckEligibility | apps/backend/src/server/quizzes/otpService.ts:47-57 | the roster and completed-attempt checks, in that order |
| OtpService.RecordWrongCode | apps/backend/src/server/quizzes/otpService.ts:41-43 | only the invitation's counter changes, by one |
| OtpService.BeginAttempt | apps/backend/src/server/quizzes/otpService.ts:59-73 | the invitation is marked verified with its counter reset to 0, and exactly one new attempt under a fresh id is appended |
| OtpService.VerifyOtpAndStart | apps/backend/src/server/quizzes/otpService.ts:8-76 | a failing guard's error with no change; a digest-length mismatch is 500 with no change; a wrong code is 400 with the counter raised; a failing eligibility check its 403 with no change; otherwise the invitation is verified, its counter reset and one new attempt stored |
| AttemptService.Details | src/server/attempts/attemptService.ts:38-50 | one detail per submitted answer, in submission order, each judged by the chosen rule |
| AttemptService.CorrectCountBound | src/server/attempts/attemptService.ts:52 | the correct count is at most the number of details, and zero when none is correct |
| AttemptService.ScoreShape | src/server/attempts/attemptService.ts:38-53 | one detail per answer copying its selected index; a missing selection never scores; the total is the quiz's question count whatever was sent; the correct count is at most the number of answers |
| AttemptService.IntendedCorrectness | src/server/attempts/attemptService.ts:39-41 | under the corrected rule an answer scores exactly when it names one of the quiz's questions and selects that question's correct index |
| AttemptService.UnknownQuestionScoresAsWritten | src/server/attempts/attemptService.ts:39-41 | as written, an unknown question answered with -1 scores, giving one correct answer out of zero questions |
| AttemptService.RulesAgreeElsewhere | src/server/attempts/attemptService.ts:39-41 | the written and corrected rules agree on every submission with no -1 answer to an unknown question |
| AttemptService.IdSetSize | src/server/attempts/attemptService.ts:53 | a quiz has at most as many question ids as questions |
| AttemptService.ScoringIdsStep | src/server/attempts/attemptService.ts:52 | the ids that score grow by the last answer's id exactly when it scores |
| AttemptService.LastIdIsNew | src/server/attempts/attemptService.ts:38-50 | with distinct answer ids, the last id is not among those that scored earlier |
| AttemptService.CountsDistinctIds | src/server/attempts/attemptService.ts:52 | with distinct answer ids the corrected count is the number of distinct ids that score |
| AttemptService.ScoreWithinQuestions | src/server/attempts/attemptService.ts:52-53 | under the corrected rule, with no question answered twice, the correct count never exceeds the question count |
| AttemptService.RecordEvent | src/server/attempts/attemptService.ts:7-25 | 404 with no change for an unknown attempt; no change for an attempt not in progress; a missing or empty type fails the schema's required check with 500 and no change; otherwise exactly one event with the attempt's id, quiz and type is appended and the counter rises by exactly one |
| AttemptService.RecordEventKeepsValid | src/server/attempts/attemptService.ts:15-24 | appending the event together with the counter increase keeps every counter equal to its attempt's number of events |
| AttemptService.FinishAttempt | src/server/attempts/attemptService.ts:27-61 | 404 for an unknown attempt and 403 for one not in progress, both with no change; otherwise the attempt is completed with the corrected score and submittedAt, and the returned tally equals the stored score |
| AttemptRoutes.VerifySecondCamToken | apps/backend/src/routes/attempts.ts:19-30 | true exactly when the token and the secret are non-empty and the token verifies to claims of type second_cam naming this attempt |
| AttemptRoutes.TokenBindsAttempt | apps/backend/src/routes/attempts.ts:25-26 | a token accepted for one attempt is refused for every other attempt |
| AttemptRoutes.QuizOf | apps/backend/src/routes/attempts.ts:74 | the stored quiz with that id; none exactly when there is no such quiz |
| AttemptRoutes.AttemptStatusOf | apps/backend/src/routes/attempts.ts:33-44 | 404 exactly when no attempt has the id; otherwise the stored attempt's status |
| AttemptRoutes.Dimension | apps/backend/src/routes/attempts.ts:109-110 | a missing, zero or non-numeric dimension falls back to the default; any other number is kept |
| AttemptRoutes.SnapshotCheck | apps/backend/src/routes/attempts.ts:77-97 | admitted exactly when webcam or face-centering snapshots are on, the phase is start, middle or end, and the image has data and an image/ mime type; the errors come in that order (403, then 400 for the phase, then 400 for the data) |
| AttemptRoutes.AppendSnapshotKeepsValid | src/server/models/AttemptSnapshot.ts:33 | adding a snapshot for a phase the attempt has none for keeps one snapshot per (attempt, phase) |
| AttemptRoutes.SaveSnapshot | apps/backend/src/routes/attempts.ts:67-116 | 404 for an unknown attempt, the admission error otherwise; a phase already taken answers exists and writes nothing; otherwise exactly one snapshot (320 by 240 by default) is stored; the attempt's status is never consulted |
| AttemptRoutes.Touch | apps/backend/src/routes/attempts.ts:137-149 | the session upsert: connectedAt is written only when the session is created, lastSeenAt on every call, other attempts' sessions are unchanged |
| AttemptRoutes.TouchThenLive | apps/backend/src/routes/attempts.ts:171-172 | after a connect or upload at t the camera reads as connected exactly until 20 seconds have passed, and no other attempt's liveness changes |
| AttemptRoutes.ConnectCheck | apps/backend/src/routes/attempts.ts:125-135 | passes exactly when the attempt is in progress, the second camera is on and the token is valid; the errors come in that order (403, 403, 401) |
| AttemptRoutes.CamConnect | apps/backend/src/routes/attempts.ts:118-154 | 404 for an unknown attempt; a failed check changes nothing; a pass upserts the attempt's session |
| AttemptRoutes.CamStatus | apps/backend/src/routes/attempts.ts:156-177 | 404 for an unknown attempt, 403 when it is not in progress; otherwise true exactly when the second camera is on and the session was seen under 20 seconds ago |
| AttemptRoutes.CamUploadCheck | apps/backend/src/routes/attempts.ts:186-198 | passes exactly when the second camera is on, the token is valid and the image has data and an image/ type; the attempt's status is not checked |
| AttemptRoutes.CamSnapshot | apps/backend/src/routes/attempts.ts:179-226 | 404 for an unknown attempt; a failed check changes nothing; an accepted upload refreshes the session and appends one more snapshot, with no deduplication |
| AttemptRoutes.FinishAndPurge | apps/backend/src/routes/attempts.ts:56-65 | 404 and no change for an unknown attempt, 403 "Attempt already ended" and no change for one not in progress; otherwise the attempt is completed with its score and submittedAt, the tally is returned and its second-camera session is deleted |
| AttemptRoutes.TerminateAttempt | apps/backend/src/routes/attempts.ts:284-307 | 404 for an unknown attempt and 404 for another instructor's quiz, with no change; otherwise the attempt is forcibly ended with submittedAt whatever its status, and one attempt_ended entry is appended per call |
| AttemptRoutes.AttemptsWithout | apps/backend/src/routes/attempts.ts:319 | exactly the other attempts remain, in order, with unique ids |
| AttemptRoutes.SnapshotsWithout | apps/backend/src/routes/attempts.ts:321 | exactly the other attempts' phase snapshots remain, one per (attempt, phase) |
| AttemptRoutes.WithoutAttemptRemoves | apps/backend/src/routes/attempts.ts:318-324 | nothing recorded for the attempt survives, everything recorded for other attempts does, the other collections are unchanged |
| AttemptRoutes.WithoutAttemptKeepsValid | apps/backend/src/routes/attempts.ts:318-324 | the cascade keeps the store's integrity |
| AttemptRoutes.WithoutAttemptAgrees | apps/backend/src/routes/attempts.ts:319-320 | the remaining events still agree with the remaining attempts |
| AttemptRoutes.WithoutAttemptIds | apps/backend/src/routes/attempts.ts:319 | every remaining attempt id was issued |
| AttemptRoutes.WithoutAttemptCounts | apps/backend/src/routes/attempts.ts:319-320 | each remaining attempt keeps all of its events |
| AttemptRoutes.WithoutAttemptEventsOwned | apps/backend/src/routes/attempts.ts:319-320 | each remaining event still belongs to a remaining attempt of its quiz |
| AttemptRoutes.RemoveAttemptRecords | apps/backend/src/routes/attempts.ts:318-324 | the store becomes the store without the attempt and everything recorded for it |
| AttemptRoutes.DeleteAttempt | apps/backend/src/routes/attempts.ts:309-335 | 404 for an unknown attempt or another instructor's quiz, with no change; otherwise the cascade runs and one attempt_removed entry is appended |
| QuizAdminRoutes.StatusesPartition | apps/backend/src/routes/quizzes.ts:459-465 | the in-progress, completed, forcibly ended and expired counts of a quiz add up to its total attempts |
| QuizAdminRoutes.AverageWithin | apps/backend/src/routes/quizzes.ts:459-462 | when each completed attempt scored between 0 and m correct answers, the score sum lies between 0 and m times the completed count, so the average lies in [0, m] |
| QuizAdminRoutes.NoneCompletedSumsZero | apps/backend/src/routes/quizzes.ts:459-462 | with no completed attempt the score sum is 0, so the average reads 0 |
| QuizAdminRoutes.RemainingSeconds | apps/backend/src/routes/quizzes.ts:456-458 | none exactly when there is no end time; otherwise the whole seconds left until the end, 0 once it has passed |
| QuizAdminRoutes.DashboardOf | apps/backend/src/routes/quizzes.ts:449-475 | 404 exactly when the quiz is missing or not the instructor's; otherwise active plus completed never exceed the total, no completed attempt means a zero score sum, the remaining time is present exactly when an end time is, and the status shown is never empty |
| QuizAdminRoutes.ShownStatus | apps/backend/src/routes/quizzes.ts:470 | the status shown is the stored status text, or draft when that text is empty |
| QuizAdminRoutes.ForceEndAll | apps/backend/src/routes/quizzes.ts:483-486 | the attempt list keeps its length, and each attempt is the result of the per-attempt update |
| QuizAdminRoutes.ForceEndAllEffect | apps/backend/src/routes/quizzes.ts:483-486 | afterwards no attempt of the quiz is in progress; those that were are forcibly ended at the closing instant; all other attempts are unchanged, and ids, quizzes and counters are kept |
| QuizAdminRoutes.TerminatedDashboard | apps/backend/src/routes/quizzes.ts:483-486 | after the terminate the quiz shows no active attempt, with the same total, completed count and score sum as before |
| QuizAdminRoutes.AttemptsKeepIdsValid | apps/backend/src/routes/quizzes.ts:483-486 | rewriting attempts in place, with each keeping its id, quiz and counter, keeps the store's integrity |
| QuizAdminRoutes.ForceEndAttempts | apps/backend/src/routes/quizzes.ts:483-486 | the loop leaves the attempts equal to the force-ended list and changes nothing else |
| QuizAdminRoutes.TerminateQuiz | apps/backend/src/routes/quizzes.ts:477-496 | 404 with no change when the quiz is not the instructor's; otherwise the quiz is closed, its in-progress attempts are force-ended and one quiz_closed entry is appended |
| QuizAdminRoutes.ExtendedEnd | apps/backend/src/routes/quizzes.ts:511-512 | the new end lies the given number of minutes after the old end time, or after now when there was none |
| QuizAdminRoutes.ExtendQuiz | apps/backend/src/routes/quizzes.ts:498-518 | missing, non-numeric or zero minutes give 400 and 404 for a foreign quiz, both with no change; otherwise only the quiz's end time changes, and it is returned |
| QuizAdminRoutes.ExtendedClosedStaysClosed | apps/backend/src/routes/quizzes.ts:511-513 | extending a closed quiz does not reopen it: the start gate still answers 403 "Quiz is closed" |
| QuizAdminRoutes.ExtendedNotOverdue | apps/backend/src/routes/quizzes.ts:511-513 | an extension by a positive amount from an end time not yet passed is not closed by the next listing |
| QuizAdminRoutes.QuizzesWithout | apps/backend/src/routes/quizzes.ts:206 | exactly the other quizzes remain, with unique ids |
| QuizAdminRoutes.QuestionsOutside | apps/backend/src/routes/quizzes.ts:207 | exactly the other quizzes' questions remain, with unique ids |
| QuizAdminRoutes.StudentsOutside | apps/backend/src/routes/quizzes.ts:208 | exactly the other quizzes' students remain, with unique ids |
| QuizAdminRoutes.InvitationsOutside | apps/backend/src/routes/quizzes.ts:209 | exactly the other quizzes' invitations remain, one per (quiz, student) |
| QuizAdminRoutes.AttemptsOutside | apps/backend/src/routes/quizzes.ts:210 | exactly the other quizzes' attempts remain, with unique ids |
| QuizAdminRoutes.SnapshotsOutside | apps/backend/src/routes/quizzes.ts:212 | exactly the other quizzes' phase snapshots remain, one per (attempt, phase) |
| QuizAdminRoutes.CamSnapshotsOutside | apps/backend/src/routes/quizzes.ts:213 | exactly the other quizzes' second-camera snapshots remain |
| QuizAdminRoutes.SessionsOutside | apps/backend/src/routes/quizzes.ts:214 | a session remains exactly when it belongs to another quiz, and it is unchanged |
| QuizAdminRoutes.WithoutQuizRemoves | apps/backend/src/routes/quizzes.ts:205-215 | nothing filed under the deleted quiz survives, everything filed under other quizzes does, and the audit trail is kept whole |
| QuizAdminRoutes.WithoutQuizKeepsValid | apps/backend/src/routes/quizzes.ts:205-215 | the cascade keeps the store's integrity |
| QuizAdminRoutes.WithoutQuizIds | apps/backend/src/routes/quizzes.ts:205-215 | every remaining record carries an issued id |
| QuizAdminRoutes.WithoutQuizAgrees | apps/backend/src/routes/quizzes.ts:210-211 | the remaining events still agree with the remaining attempts |
| QuizAdminRoutes.WithoutQuizCounts | apps/backend/src/routes/quizzes.ts:210-211 | each remaining attempt keeps all of its events, because events are filed under their attempt's quiz |
| QuizAdminRoutes.WithoutQuizEventsOwned | apps/backend/src/routes/quizzes.ts:210-211 | each remaining event belongs to a remaining attempt of its quiz |
| QuizAdminRoutes.RemoveQuizRecords | apps/backend/src/routes/quizzes.ts:205-215 | the store becomes the store without the quiz and everything filed under it |
| QuizAdminRoutes.DeleteQuiz | apps/backend/src/routes/quizzes.ts:197-220 | 404 with no change unless the instructor owns the quiz; otherwise the quiz is removed along with its questions, roster, invitations, attempts and monitoring records |
| QuizRoutes.ShuffleArray | apps/backend/src/routes/quizzes.ts:25-32 | the result is a permutation of the input (same length, same multiset of items), and it is the input unchanged when every draw picks the current position |
| QuizRoutes.SwapPermutes | apps/backend/src/routes/quizzes.ts:29 | one swap keeps the length and the multiset of items, and swapping a position with itself changes nothing |
| QuizRoutes.ShownQuestionTime | apps/backend/src/routes/quizzes.ts:46 | never zero: an unset (zero) question time reads as 35 seconds, any other value is shown as stored |
| QuizRoutes.PublicView | apps/backend/src/routes/quizzes.ts:37-55 | 404 exactly when no quiz has the id; otherwise the title, the shown question time and the camera and mobile flags of that quiz |
| QuizRoutes.NewQuizPublicDefaults | apps/backend/src/routes/quizzes.ts:44-51 | a quiz created without settings shows 35 seconds per question, mobile devices allowed and every camera off |
| QuizRoutes.PlayerSettingsOf | apps/backend/src/routes/quizzes.ts:127-137 | the settings are copied through, and a missing or zero total time means no overall limit |
| QuizRoutes.SecondCamToken | apps/backend/src/routes/quizzes.ts:115-123 | a token is handed out exactly when the second camera is on and a signing secret is configured |
| QuizRoutes.IssuedTokenOpensCamera | apps/backend/src/routes/quizzes.ts:117-121 | when signing and verifying agree, a token handed out with an attempt opens that attempt's second camera |
| QuizRoutes.PresentQuestions | apps/backend/src/routes/quizzes.ts:139-143 | each question keeps its id and text and gets a permutation of its options, unchanged when options are not shuffled; no correct answer is shown |
| QuizRoutes.VerifyOtpRoute | apps/backend/src/routes/quizzes.ts:101-148 | a rejected request fails with no new attempt; an admitted one appends one in-progress attempt with a fresh id, and then answers 400 while keeping the attempt when the quiz has no questions, or otherwise returns the attempt id, the title, the player settings, the token and every stored question once, in stored order unless shuffling is on |
| QuizRoutes.StartResponseFor | apps/backend/src/routes/quizzes.ts:110-144 | 400 when the quiz has no questions; otherwise the response serves exactly the stored questions, reordered only when the quiz shuffles questions |
| QuizRoutes.ServedOnce | apps/backend/src/routes/quizzes.ts:114 | the served questions are as many as the stored ones, and an id is served exactly when it is stored |
| QuestionImport.MeaningfulRows | apps/backend/src/server/quizzes/questionService.ts:24-27 | exactly the rows with at least one non-blank cell are kept |
| QuestionImport.Options | apps/backend/src/server/quizzes/questionService.ts:33-35 | at most four options, each a non-blank one of the four cells, and every non-blank cell among them |
| QuestionImport.RowOf | apps/backend/src/server/quizzes/questionService.ts:32-35 | a row yields at most four options |
| QuestionImport.Extracted | apps/backend/src/server/quizzes/questionService.ts:31-35 | one extracted question per kept row, in row order |
| QuestionImport.CorrectIndexOf | apps/backend/src/server/quizzes/questionService.ts:42-43 | the index is at most 3 and is 1, 2 or 3 exactly when the letter, upper-cased, is B, C or D; anything else gives 0 |
| QuestionImport.FirstInvalid | apps/backend/src/server/quizzes/questionService.ts:36-41 | every row before the returned position is valid, and the row at it, if any, is not |
| QuestionImport.BuildDocs | apps/backend/src/server/quizzes/questionService.ts:31-51 | succeeds exactly when every row has text and at least two options; otherwise the error names the first invalid row, counting from 1; on success the k-th document comes from the k-th row with order k+1 |
| QuestionImport.ImportQuestions | apps/backend/src/server/quizzes/questionService.ts:5-51 | a blank upload gives "CSV is empty", a parse failure "CSV parse error", no meaningful row "No questions found"; otherwise the result is the documents built from the meaningful rows |
| QuestionImport.DocsShape | apps/backend/src/server/quizzes/questionService.ts:44-50 | each accepted document has its 1-based position, its quiz, trimmed non-empty text, two to four options and a correct index at most 3 |
| QuestionImport.CorrectIndexMayExceedOptions | apps/backend/src/server/quizzes/questionService.ts:42-48 | a row with two options and letter D is accepted with correct index 3, which names no option |
| QuestionImport.InsertQuestions | apps/backend/src/server/quizzes/questionService.ts:52 | each document is stored under a new, unused id, in order, after the existing questions, and nothing else changes |
| QuestionImport.UploadQuestions | apps/backend/src/server/quizzes/questionService.ts:5-53 | a rejected upload returns its error and stores nothing; an accepted one stores exactly its documents, in row order, under fresh ids |
| QuestionImport.AppendQuestionsKeepValid | apps/backend/src/server/quizzes/questionService.ts:52 | appending questions with distinct unused ids keeps the store's integrity |
| QuestionImport.InsertByOrder | apps/backend/src/server/quizzes/questionService.ts:56 | inserting into a list sorted by order keeps it sorted and adds exactly that question |
| QuestionImport.InsertBehindFirst | apps/backend/src/server/quizzes/questionService.ts:56 | a question not before the first element stays behind it: the list stays sorted and has the right items |
| QuestionImport.ConsByOrder | apps/backend/src/server/quizzes/questionService.ts:56 | putting a question no later than all others in front keeps the list sorted |
| QuestionImport.SortByOrder | apps/backend/src/server/quizzes/questionService.ts:56 | the result is sorted by order and is a permutation of the input |
| QuestionImport.ListQuestions | apps/backend/src/server/quizzes/questionService.ts:55-57 | exactly the quiz's stored questions (as a multiset), sorted by order |
| StudentImport.SuppliedId | apps/backend/src/server/quizzes/studentService.ts:17-18 | none exactly when the cell is blank; otherwise the trimmed, non-empty id |
| StudentImport.FieldsOfAll | apps/backend/src/server/quizzes/studentService.ts:14-18 | one set of read fields per parsed row, in row order |
| StudentImport.RowError | apps/backend/src/server/quizzes/studentService.ts:19-24 | a missing name or e-mail is reported before a malformed e-mail, and the malformed address is named |
| StudentImport.ReadRows | apps/backend/src/server/quizzes/studentService.ts:14-37 | succeeds exactly when every row has a name, an e-mail and a well-formed e-mail; then it yields one document per row, in order |
| StudentImport.ReadRowsRejectsFirst | apps/backend/src/server/quizzes/studentService.ts:19-24 | a rejected upload has a row that fails validation |
| StudentImport.ReadRowsKeepsError | apps/backend/src/server/quizzes/studentService.ts:19-24 | once a prefix of the rows is rejected, the whole upload is rejected with the same error: later rows do not matter |
| StudentImport.EmailSetMembers | apps/backend/src/server/quizzes/studentService.ts:25-29 | an address is in the recorded set exactly when some row normalises to it |
| StudentImport.SuppliedIdsMembers | apps/backend/src/server/quizzes/studentService.ts:30-35 | an id is recorded exactly when some row supplies it, and each is recorded once |
| StudentImport.DistinctSplits | apps/backend/src/server/quizzes/studentService.ts:25-35 | when no two rows repeat an e-mail or id, the same holds without the last row, and the last row is new |
| StudentImport.DistinctJoins | apps/backend/src/server/quizzes/studentService.ts:25-35 | rows without repeats followed by a new row have no repeats |
| StudentImport.NoDuplicatesIffDistinct | apps/backend/src/server/quizzes/studentService.ts:25-40 | the upload reports no duplicates exactly when no two rows share a normalised e-mail or a supplied id |
| StudentImport.ReadUpload | apps/backend/src/server/quizzes/studentService.ts:11-37 | the row loop stops at the first rejected row with its error; otherwise it yields the documents, the e-mail set, the supplied ids and the duplicates list |
| StudentImport.SidRoundTrip | apps/backend/src/server/quizzes/studentService.ts:59-69 | reading a generated SID-n id back with the SID pattern gives n |
| StudentImport.SidInjective | apps/backend/src/server/quizzes/studentService.ts:69 | different numbers give different generated ids |
| StudentImport.MaxSidUnique | apps/backend/src/server/quizzes/studentService.ts:57-63 | the largest SID number of a set of ids is unique |
| StudentImport.MaxSid | apps/backend/src/server/quizzes/studentService.ts:57-63 | the result is the largest number among the ids of the form SID-n, or 0 when there is none |
| StudentImport.NextSid | apps/backend/src/server/quizzes/studentService.ts:66-70 | the first number above the counter whose id is not taken: it is free, and every number between them is taken |
| StudentImport.AssignIds | apps/backend/src/server/quizzes/studentService.ts:64-73 | one document out per document in |
| StudentImport.AssignIdsKeeps | apps/backend/src/server/quizzes/studentService.ts:64-73 | every document keeps its quiz, name and e-mail and ends with an id; a supplied id is kept |
| StudentImport.AssignIdsFresh | apps/backend/src/server/quizzes/studentService.ts:64-73 | every generated id has the SID form, a number above the starting counter, and is not among the ids taken at the start |
| StudentImport.GeneratedCons | apps/backend/src/server/quizzes/studentService.ts:64-73 | ids generated later, against a larger taken set and counter, are still fresh for the earlier state |
| StudentImport.AssignIdsAbove | apps/backend/src/server/quizzes/studentService.ts:64-73 | every generated number lies above the starting counter |
| StudentImport.AssignIdsIncreasing | apps/backend/src/server/quizzes/studentService.ts:64-73 | the generated numbers increase in row order |
| StudentImport.IncreasingCons | apps/backend/src/server/quizzes/studentService.ts:64-73 | a number below all later generated numbers, put in front, keeps them increasing |
| StudentImport.AssignedIdsDistinct | apps/backend/src/server/quizzes/studentService.ts:64-73 | when the supplied ids are distinct and all taken, every document ends with its own id |
| StudentImport.NextGeneratedId | apps/backend/src/server/quizzes/studentService.ts:66-70 | the do-while loop stops at the first free number above its start and returns that number's id |
| StudentImport.FirstFreeIsNextSid | apps/backend/src/server/quizzes/studentService.ts:66-70 | the first free number above the counter is the one the loop finds |
| StudentImport.AssignIdsFirst | apps/backend/src/server/quizzes/studentService.ts:64-73 | the first document keeps a supplied id, or takes the next free SID, which is then taken for the rest |
| StudentImport.GenerateIds | apps/backend/src/server/quizzes/studentService.ts:64-73 | the generation loop assigns exactly the ids of the specification |
| StudentImport.LargestSid | apps/backend/src/server/quizzes/studentService.ts:57-63 | the loop finds the largest SID number among the quiz's ids, or 0 |
| StudentImport.FirstExisting | apps/backend/src/server/quizzes/studentService.ts:46-50 | none exactly when no supplied id is in use; otherwise an id that is supplied and in use |
| StudentImport.FindExisting | apps/backend/src/server/quizzes/studentService.ts:46-50 | the loop stops at the first supplied id that is in use, or finds none |
| StudentImport.EmailsTaken | apps/backend/src/server/quizzes/studentService.ts:51-56 | empty exactly when no stored student of the quiz has one of the upload's e-mails, comparing normalised forms |
| StudentImport.EmailsTakenAsWritten | apps/backend/src/server/quizzes/studentService.ts:51-56 | as written: empty exactly when no stored e-mail, as stored, is one of the upload's normalised e-mails |
| StudentImport.ExistingEmailMissedAsWritten | apps/backend/src/server/quizzes/studentService.ts:51-56 | a student stored as A@b.c is missed by the query as written and caught by the corrected one |
| StudentImport.SuppliedInTaken | apps/backend/src/server/quizzes/studentService.ts:70 | every supplied id is among the ids the generation loop avoids |
| StudentImport.AppendStudentKeepsValid | apps/backend/src/server/quizzes/studentService.ts:74 | appending a student under an unused id keeps the store's integrity |
| StudentImport.InsertStudents | apps/backend/src/server/quizzes/studentService.ts:74 | each document is stored, in order and after the existing students, under an id not used before; nothing else changes |
| StudentImport.ImportStudents | apps/backend/src/server/quizzes/studentService.ts:5-76 | a parse failure or a refused upload changes nothing and returns its error; an accepted upload appends exactly the planned students, in row order, and returns the quiz's roster |
| StudentImport.NoIdClashIff | apps/backend/src/server/quizzes/studentService.ts:46-50 | no supplied id is reported as in use exactly when none is among the quiz's ids |
| StudentImport.NoEmailClashIff | apps/backend/src/server/quizzes/studentService.ts:51-56 | no e-mail is reported as taken exactly when no row's e-mail normalises like a stored e-mail of the quiz |
| StudentImport.PlanAccepts | apps/backend/src/server/quizzes/studentService.ts:5-76 | the upload is accepted exactly when it has rows, every row is valid, nothing repeats, no supplied id is in use and no e-mail is taken |
| StudentImport.PlanKeepsRows | apps/backend/src/server/quizzes/studentService.ts:14-73 | an accepted upload stores one student per row, in row order, with the row's name and e-mail and its supplied id if any |
| StudentImport.PlanIdsFresh | apps/backend/src/server/quizzes/studentService.ts:57-73 | in an accepted upload each generated id has the SID form with a number above every SID in the quiz and above earlier generated ones, and no student id is in use or repeated |
| StudentImport.AssignedIdsFresh | apps/backend/src/server/quizzes/studentService.ts:57-73 | the generation step of an upload without repeats or clashes gives ids fresh in that sense |
| LegacyStudentImport.LegacyFieldsOfAll | src/server/quizzes/studentService.ts:13-16 | one set of read fields per parsed row, in row order |
| LegacyStudentImport.LegacyIdUntrimmed | src/server/quizzes/studentService.ts:16 | a supplied id is kept exactly as written, surrounding spaces included; only an empty cell means none |
| LegacyStudentImport.NoEmailDuplicatesIffDistinct | src/server/quizzes/studentService.ts:23-32 | the older upload reports no duplicates exactly when no two rows share a normalised e-mail |
| LegacyStudentImport.DistinctSnoc | src/server/quizzes/studentService.ts:23-32 | the rows are distinct exactly when the earlier rows are and the last row's normalised e-mail is not among theirs (the check the row loop makes for each row) |
| LegacyStudentImport.ReadLegacyUpload | src/server/quizzes/studentService.ts:11-29 | the row loop stops at the first rejected row with its error; otherwise it yields the documents, the e-mail set and the duplicates list |
| LegacyStudentImport.LegacyIds | src/server/quizzes/studentService.ts:40-46 | as written: a document without an id gets SID- plus its 1-based position in the batch, whatever ids the batch or the quiz already hold; other fields are kept |
| LegacyStudentImport.LegacyIdsCollide | src/server/quizzes/studentService.ts:40-46 | a batch whose first row supplies SID-0002 and whose second supplies none ends with two students holding SID-0002 |
| LegacyStudentImport.LegacyPlanAccepts | src/server/quizzes/studentService.ts:5-38 | the older upload is accepted exactly when it has rows, every row is valid, no e-mail repeats and no e-mail is taken |
| LegacyStudentImport.LegacyPlanIds | src/server/quizzes/studentService.ts:39-46 | an accepted older upload stores one student per row, in order, with a supplied id as read or SID- plus the 1-based position |
| LegacyStudentImport.SameIdsKeepValid | src/server/quizzes/studentService.ts:45 | changing students without changing their ids keeps the store's integrity |
| LegacyStudentImport.WithLegacyIds | src/server/quizzes/studentService.ts:40-46 | the per-position updates keep the number of inserted students |
| LegacyStudentImport.LegacyIdsStored | src/server/quizzes/studentService.ts:39-46 | updating the stored batch gives the same students as updating the documents before storing them |
| LegacyStudentImport.AssignLegacyIds | src/server/quizzes/studentService.ts:40-47 | the update loop leaves the older students untouched and the batch with the position-based ids |
| LegacyStudentImport.UpdateBatch | src/server/quizzes/studentService.ts:40-47 | the loop over the stored students replaces the batch, from its first position on, by the batch with the position-based ids and keeps the older students |
| LegacyStudentImport.LegacyImportStudents | src/server/quizzes/studentService.ts:5-49 | a parse failure or a refused upload changes nothing and returns its error; an accepted one appends the planned students with the as-written ids and returns the quiz's roster |
| Common.Trim | apps/backend/src/server/quizzes/questionService.ts:32 | the result is no longer than the text and neither starts nor ends with whitespace (whitespace as in ECMA-262, including the Unicode space separators and line terminators) |
| Common.TrimRemovesBlankEnds | apps/backend/src/server/quizzes/questionService.ts:32 | trimming removes the blank ends and nothing else: the result is a contiguous part of the text with only whitespace before and after it |
| Common.TrimStart | apps/backend/src/server/quizzes/questionService.ts:32 | the result is a suffix of the text that does not start with whitespace, and everything dropped before it is whitespace |
| Common.TrimEnd | apps/backend/src/server/quizzes/questionService.ts:32 | the result is a prefix of the text that does not end with whitespace, and everything dropped after it is whitespace |
| Common.TrimIdempotent | apps/backend/src/server/quizzes/questionService.ts:32 | trimming twice gives the same as trimming once |
| Common.TrimEmptyIffBlank | apps/backend/src/server/quizzes/questionService.ts:6 | a text trims to the empty string exactly when it is all whitespace |
| Common.ToLower | apps/backend/src/server/quizzes/studentService.ts:25 | the result has the same length as the text; every character that is not an ASCII capital is kept, and every ASCII capital becomes the same letter in lower case, so no ASCII capital remains |
| Common.ToUpper | apps/backend/src/server/quizzes/questionService.ts:42 | the result has the same length as the text; every character that is not an ASCII small letter is kept, and every ASCII small letter becomes the same letter in upper case, so no ASCII small letter remains |
| Common.NatToDecimal | apps/backend/src/server/security/otp.ts:6 | the decimal text of a number is non-empty, all digits, and has no leading zero |
| Common.DecimalRoundTrip | apps/backend/src/server/security/otp.ts:6 | reading back the decimal text of a number gives the number |
| Common.PadStart | apps/backend/src/server/security/otp.ts:6 | the result has the larger of the text's length and the width, ends with the text, and is padded in front with the pad character |
| Common.Split | apps/backend/src/server/quizzes/exportService.ts:12 | splitting always yields at least one piece |
| Common.SplitJoin | apps/backend/src/server/quizzes/exportService.ts:12 | splitting pieces joined by a separator they do not contain gives the pieces back |
| Common.Filter | apps/backend/src/server/quizzes/questionService.ts:24-27 | the elements kept are exactly those of the input satisfying the predicate |
| Common.FilterKeepsUnique | apps/backend/src/routes/quizzes.ts:205-215 | filtering a sequence whose keys are unique leaves them unique |

## Left out

- Sending mail and console logging: a send is a no-op, and no log line is produced. This covers the invitation service and the `snapshot_rejected` warnings of the snapshot route (apps/backend/src/routes/attempts.ts:79, 84 and 90); the rejections themselves are modelled. Of the invitation service, only its configuration checks and the invitation and audit writes are modelled.
- The mail transport itself (nodemailer) and everything in `mailer.ts` besides `getMailerConfigError`.
- JWT signing, verification and the six-hour token lifetime: these lie inside the `sign` and `decode` parameters. Authentication middleware is not part of this model, so the instructor's id is a parameter.
- SHA-256 and `timingSafeEqual`: the hash is an uninterpreted function. Constant-time comparison cannot be stated. A length mismatch, which makes `timingSafeEqual` throw, is modelled as the 500 answer it produces.
- `QuizAdminRoutes.DashboardOf`: the average score is a floating-point division. The model keeps it as the pair (sum of correct answers, number of completed attempts).
- `QuizAdminRoutes.DashboardOf`: `lastSubmissionAt` depends on sorting dates and is not modelled. The contract also states how the counts relate to each other, not their values; the values are the counting functions `TotalOf`, `CountOf` and `ScoreSumOf`.
- CSV parsing (`csv-parse`) is the parameter `parse`. The e-mail regular expression is the predicate `isEmail`.
- Common.ToLower, Common.ToUpper: only ASCII letters change case. Other cased letters (accented Latin, Greek, Cyrillic) are kept as they are, whereas JavaScript maps them too.
- `StudentImport.LargestSid`: SID numbers are read exactly. `Number()` rounds numbers above 2^53, so ids with more than fifteen digits behave differently in the source.
- `AttemptRoutes.Dimension`: a width or height is an integer or absent. Fractional numbers are not modelled.
- `QuizAdminRoutes.ExtendQuiz` accepts negative minutes, as the source does: only zero and non-numbers are refused. Fractional minutes are not modelled.
- Invalid object ids: a malformed id in a route parameter makes the database driver throw. In the model an id is any string, and a malformed one matches nothing. In a finished attempt, an answer whose question id is not valid object-id text gets a freshly generated id. The model records that as `None`.
- Concurrency: `Promise.all` cascades, races between finish and terminate, and unique-index races. Every operation is one sequential step on the store.
- Expiry by the database: the 5-day index on webcam snapshots and the 24-hour index on second-camera sessions delete records in the background, on the database's own clock. They are not modelled.
- `enableSecondCam` is read by the routes but declared in neither the settings type nor the schema. The model treats it as a setting that defaults to false. Whether Mongoose's strict mode would strip it on save is not modelled.
- Routes outside the core:
  - the roster search at `/:quizId/students/public`;
  - the public invitation lookup;
  - the quiz preview;
  - editing and deleting single questions and students, and clearing all of them;
  - the attempt list, the audit list and the attempt detail;
  - the export route's headers (the CSV body is modelled).
- The frontend, apart from `resolveUrl`: the token helpers and `apiFetch` in `api.ts` are browser storage and fetch plumbing.
- StudentImport.ImportStudents, StudentImport.Plan, LegacyStudentImport.LegacyImportStudents, LegacyStudentImport.LegacyPlan: use the corrected existing-e-mail check (StudentImport.EmailsTaken), not the query as written (StudentImport.EmailsTakenAsWritten). For a quiz already holding `A@b.c` and an upload of `A@b.c`, the code finds no existing e-mail and stores the student a second time; the model refuses the upload with 400 "Emails already exist: a@b.c". See "Findings".
- Storage.FindQuizByIdOrCode, OtpService.VerifyOtpAndStart: the lookup `findOne({ $or: [{ _id: x }, { quizCode: x }] })` is modelled as matching either field. Mongoose casts each `$or` branch against the schema, so a value that is not object-id text, such as the quiz code `"ABC123"`, plausibly makes the `_id` cast throw, and the source answers 500 where the model finds the quiz by its code.
- QuizService.UpdateQuiz: the payload carries the keys the quiz schema declares (`instructorId`, `title`, `description`, `quizCode`, `settings`, `status`). Keys outside the schema, which strict mode drops, are not modelled, and neither are `_id` and the timestamps (setting `_id` fails in the database) or values of the wrong type, which fail the cast.
- QuizService.UpdateQuizStatus: a request without a `status` is not modelled; the status is always request text.
- AttemptService.FinishAttempt: stores the corrected score (AttemptService.ScoreOf), not the score the code as written computes (AttemptService.ScoreAsWritten). They differ only when an answer selects -1 for a question the quiz does not have: for a quiz with no questions and the answers `[{ questionId: "x", selectedIndex: -1 }]` the code stores 1 correct of 0, the model 0 of 0. AttemptService.RulesAgreeElsewhere proves the two agree on every other input. See "Findings".
- AttemptRoutes.FinishAndPurge: finishes the attempt through AttemptService.FinishAttempt, so it stores the corrected score too and departs from the code as written on the same input (a quiz with no questions, one answer to an unknown question with selected index -1: 1 of 0 in the code, 0 of 0 in the model).

## Findings

| source | as written | input that shows it | evidently intended | confidence | as-written member | corrected member |
|---|---|---|---|---|---|---|
| src/server/attempts/attemptService.ts:39-41 | an answer to a question the quiz does not have is compared with -1, so selecting -1 scores as correct | a quiz with no questions and one answer (unknown id, selected index -1): one correct answer out of zero questions | an answer scores only when it names one of the quiz's questions and selects its correct index | medium, not executed | AttemptService.ScoreAsWritten, shown by AttemptService.UnknownQuestionScoresAsWritten | AttemptService.ScoreOf, with AttemptService.IntendedCorrectness and AttemptService.ScoreWithinQuestions; AttemptService.FinishAttempt uses it |
| src/server/quizzes/studentService.ts:40-46 | a student without an id gets SID- plus its position in the batch, whatever ids the batch or the quiz already hold | a batch whose first row supplies SID-0002 and whose second row supplies none: both students end with SID-0002 (and every upload restarts at SID-0001) | generated ids avoid every id in use, as the current import does | high, not executed | LegacyStudentImport.LegacyIds, shown by LegacyStudentImport.LegacyIdsCollide | StudentImport.AssignIds, with StudentImport.AssignedIdsDistinct and StudentImport.PlanIdsFresh |
| apps/backend/src/server/quizzes/studentService.ts:51-56 | the query for e-mails already in the quiz compares the upload's lower-cased e-mails with the stored ones as uploaded | a quiz holding A@b.c and an upload of A@b.c: the query finds nothing, so the student is stored twice | an e-mail counts as taken when its normalised form matches a stored student's normalised e-mail | medium, not executed | StudentImport.EmailsTakenAsWritten, shown by StudentImport.ExistingEmailMissedAsWritten | StudentImport.EmailsTaken, with StudentImport.NoEmailClashIff and StudentImport.PlanAccepts; both imports use it |
