# Conference registration: a verified model

This project models the business rules of a conference-registration system.
The public side is a form. It computes the fee from the attendance option
and the companions' bed types, checks its own fields, and posts a
registration to the backend. The backend validates the ID card, phone and
email, refuses a second registration with the same ID card, and stores it.
An admin side lists registrations (filtered, newest first, paged), shows,
updates and deletes them, and reads aggregate statistics.

Modules, one file each:

- `Wrappers` (`wrappers.dfy`): `Option`, `Result` (`Ok`/`Err`) and `Null`.
- `Validator` (`validator.dfy`): the three format validators. Each one is
  transcribed segment by segment from its regular expression. Lemmas then
  characterise the strings each one accepts, in plain terms.
- `Response` (`response.dfy`): the `{code, message, data}` envelope and the
  HTTP status it is sent with.
- `RegistrationTypes` (`types.dfy`): the records — a registration, a companion,
  an update patch, a list query, a page, the statistics, and the `{url}` image
  entry that both the upload component and the form's uploader hold.
- `RegistrationStore` (`registration_service.dfy`): the table as a sequence of
  rows, with pure functions and lemmas for each query. The class
  `RegistrationService` holds the rows and the next auto-increment id. Its
  methods change them in place.
- `RegistrationController` (`registration_controller.dfy`): the HTTP handlers.
  It covers the guard chain of `create`, JavaScript's `parseInt` on request
  parameters, and the error middleware's 500 reply.
- `RegistrationForm` (`registration_form.dfy`): the fee effect, the companion
  list, the checks before submitting, the payload, and the form's ID-card rule.
- `ImageUpload` (`image_upload.dfy`): the image list of the upload widget, and
  a class for the component's `loading` state and its `onChange` calls.

Modelling choices:

- Timestamps are integers in milliseconds. "Now" is a parameter.
- A missing string field of a request body is modelled as `""`. Both are falsy
  and every guard treats them alike; what the database then does with an
  absent column is listed under "Left out".
- Companions are stored as a sequence. The JSON encoding is an identity round
  trip and is not modelled.
- The store's failures (a negative `skip`, or an absent id on update or
  delete) are `Err` values. The controller turns them into the error
  middleware's code-500 reply.
- `\s` in the validators is the exact ECMAScript whitespace set.

Behaviours of the code worth knowing:

- The email pattern needs a `.` after the `@`, so `a@b` is rejected
  (`Validator.EmailExamples`).
- The backend stores the client's `totalFee` as sent and never recomputes it
  (`RegistrationController.PassThroughUnchecked`,
  `RegistrationStore.CreateThenFindById`).
- `Payload` forwards `plusOnesCount` whatever `hasPlusOnes` is, and
  `StatisticsOf` sums the stored counts into `totalPlusOnes` without looking
  at `hasPlusOnes` (`RegistrationForm.Payload`,
  `RegistrationStore.StatisticsFigures`). The toggle that switches companions
  off is not modelled.
- A not-found reply carries envelope code 404 but HTTP status 400
  (`Response.NotFoundTravelsAs400`).

## Model

| member | source | states |
|---|---|---|
| Validator.ValidateIdCardByNumbers | backend/src/utils/validator.ts:5-13 | an ID card is accepted iff it has 18 characters, the first 17 are digits with a non-zero first one, the year starts 18/19/20, the month is 1..12, the day is 1..31, and the last character is a digit, X or x |
| Validator.IdCardWrongLengthRejected | backend/src/utils/validator.ts:6-8 | every string whose length is not 18, the empty one included, is rejected |
| Validator.IdCardChecksumIgnored | backend/src/utils/validator.ts:11 | two candidates that differ only in a last character that is a digit, X or x get the same verdict: the checksum is not validated |
| Validator.IdCardExample | backend/src/utils/validator.ts:11 | a regular number is accepted, both with a digit and with X as the last character |
| Validator.IdCardDayIgnoresMonth | backend/src/utils/validator.ts:11 | day 31 is accepted with month 02: the day check does not depend on the month |
| Validator.ValidatePhoneByNumbers | backend/src/utils/validator.ts:18-20 | a phone number is accepted iff it is 11 digits whose first two read as 13..19 |
| Validator.PhoneExamples | backend/src/utils/validator.ts:19 | 13800138000 is accepted; 23800138000 and the 10-digit 1380013800 are rejected |
| Validator.ValidateEmailShape | backend/src/utils/validator.ts:25-27 | an email is accepted iff it has no whitespace, exactly one '@' with something before it, and after it a '.' that is neither the first nor the last character of that part |
| Validator.EmailExamples | backend/src/utils/validator.ts:26 | a@b.com is accepted and a@b is rejected |
| Response.Success | backend/src/utils/response.ts:4-11 | status 200 and envelope code 200 with the given data; the message defaults to 操作成功 |
| Response.Error | backend/src/utils/response.ts:13-19 | an envelope without data, carrying the caller's code (default 400) and message (default 操作失败); the status is always 400 or 500, and it is 500 exactly when the code is at least 500 |
| Response.NotFoundTravelsAs400 | backend/src/utils/response.ts:18 | an envelope with code 404 goes out under HTTP status 400 |
| RegistrationStore.Lookup | backend/src/services/registrationService.ts:79-93 | the row found is stored under that id; none is found exactly when no stored row has the id |
| RegistrationStore.LookupAppended | backend/src/services/registrationService.ts:10-16 | after appending a row with an id larger than every stored one, that id finds the new row and every other id finds what it found before |
| RegistrationStore.CreateThenFindById | backend/src/services/registrationService.ts:10-16 | findById on a freshly created id returns the submitted fields unchanged, the client's totalFee included, and the companions exactly as supplied (none when none were sent) |
| RegistrationStore.CountIdCard | backend/src/services/registrationService.ts:161-166 | the count of rows with the ID card is positive iff some row carries it |
| RegistrationStore.RemoveId | backend/src/services/registrationService.ts:111-115 | after delete, a row is in the table iff it was there before and has another id |
| RegistrationStore.RemoveKeepsIdsIncreasing | backend/src/services/registrationService.ts:111-115 | deleting keeps the ids increasing along the table |
| RegistrationStore.DeleteForgets | backend/src/services/registrationService.ts:111-115 | after delete, findById on that id finds nothing, and an ID card is still seen iff a row with another id carries it |
| RegistrationStore.ApplyPatch | backend/src/services/registrationService.ts:98-106 | an update keeps the id and the creation time, sets the update time to now, and keeps the stored companions unless new ones are supplied |
| RegistrationStore.PatchLaws | backend/src/services/registrationService.ts:98-106 | an empty patch changes only the update time; applying a patch twice equals applying it once |
| RegistrationStore.PatchOverwritesOnlySupplied | backend/src/services/registrationService.ts:98-105 | each supplied field is overwritten and each field left out keeps its stored value |
| RegistrationStore.UpdateId | backend/src/services/registrationService.ts:98-106 | an update keeps the number of rows |
| RegistrationStore.UpdateIdAt | backend/src/services/registrationService.ts:98-106 | after update, the row at each position is patched if it has the updated id and otherwise unchanged |
| RegistrationStore.UpdateKeepsIds | backend/src/services/registrationService.ts:98-106 | an update changes no id and keeps the ids increasing |
| RegistrationStore.UpdateFindsPatched | backend/src/services/registrationService.ts:98-106 | after update, findById on the updated id returns the patched row |
| RegistrationStore.UpdateKeepsOthers | backend/src/services/registrationService.ts:98-106 | after update, findById on every other id returns what it returned before |
| RegistrationStore.UpdateThenLookup | backend/src/services/registrationService.ts:98-106 | the two facts above together, with the ids still increasing |
| RegistrationStore.LookupUnique | backend/src/services/registrationService.ts:79-82 | with increasing ids, the id of any row finds exactly that row |
| RegistrationStore.FilterRows | backend/src/services/registrationService.ts:27-58 | a row is kept iff it is stored and meets every condition of the built where (keyword substring of name, phone or ID card; equal type; created in the date range), and each matching row is kept exactly as often as the table holds it, so its length is `count({where})` |
| RegistrationStore.WhereOfAdmits | backend/src/services/registrationService.ts:27-49 | the where built for a query keeps exactly the rows the query's filters admit, and an absent or empty filter imposes nothing |
| RegistrationStore.SortedCons | backend/src/services/registrationService.ts:56 | a newest-first list behind a row no older than any of its rows stays newest first |
| RegistrationStore.SortedTail | backend/src/services/registrationService.ts:56 | the tail of a newest-first list is newest first and no newer than its head |
| RegistrationStore.InsertDescPerm | backend/src/services/registrationService.ts:56 | inserting a row into a list adds exactly that row |
| RegistrationStore.InsertDescSorted | backend/src/services/registrationService.ts:56 | inserting into a newest-first list keeps it newest first |
| RegistrationStore.SortDesc | backend/src/services/registrationService.ts:56 | the ordered rows are newest first and are a permutation of the matching rows |
| RegistrationStore.Window | backend/src/services/registrationService.ts:54-55 | skip/take gives min(take, rows left after skip) rows, the i-th being the row at position skip + i |
| RegistrationStore.CeilDiv | backend/src/services/registrationService.ts:72 | totalPages is 0 for no rows, and otherwise the least n with total <= n * pageSize |
| RegistrationStore.SkipSign | backend/src/services/registrationService.ts:25 | with both defaults applied, skip or take is negative exactly when page or pageSize is below 1 |
| RegistrationStore.WindowRows | backend/src/services/registrationService.ts:52-57 | a window holds rows of the list only, in the list's order |
| RegistrationStore.PageRows | backend/src/services/registrationService.ts:51-57 | a page holds at most pageSize rows of the listing, newest first |
| RegistrationStore.OrderedRows | backend/src/services/registrationService.ts:29-58 | the ordered listing holds exactly the stored rows the query admits, each as often as the table holds it, newest first |
| RegistrationStore.ListedRowsAdmitted | backend/src/services/registrationService.ts:22-74 | every listed row is stored and satisfies every supplied filter; a page holds at most pageSize rows, newest first |
| RegistrationStore.ListResultMeaning | backend/src/services/registrationService.ts:22-74 | the whole list contract: page 1 and size 10 stand in for absent or zero values; paging fails only for a negative page or size; a page holds at most pageSize admitted rows, newest first; total is the length of the ordered listing, which holds every admitted row exactly as often as the table does, whatever the page; totalPages is ceil(total / pageSize) |
| RegistrationStore.FirstPageNewest | backend/src/services/registrationService.ts:23-25 | with the defaults and 15 matching rows, the list is the first ten of the fixed newest-first listing, total is 15 and totalPages 2 |
| RegistrationStore.WindowExtends | backend/src/services/registrationService.ts:54-55 | the rows before position a, followed by the window at a, are the rows before a + take |
| RegistrationStore.PagesPrefix | backend/src/services/registrationService.ts:25 | pages 1..n laid end to end are the first n * pageSize rows of the listing |
| RegistrationStore.PagesCoverListing | backend/src/services/registrationService.ts:51-72 | pages 1..totalPages of one fixed listing laid end to end give it back whole: paging neither repeats nor skips a row, as long as every query orders tied createdAt values the same way |
| RegistrationStore.OptionCountsWithinTotal | backend/src/services/registrationService.ts:123-133 | the three option counts add up to at most the number of rows |
| RegistrationStore.StatisticsFigures | backend/src/services/registrationService.ts:120-156 | total is the row count; the option counts add up to at most total; the recent count is at most total; an empty table has totalPlusOnes 0 |
| RegistrationStore.CountsAppend | backend/src/services/registrationService.ts:120-146 | one more row adds one to its type's count and to the recent count when recent, and adds its plusOnesCount to the sum |
| RegistrationStore.StatisticsAfterCreate | backend/src/services/registrationService.ts:120-156 | creating one option2 registration adds one to total, option2Count and recentRegistrations, adds its plusOnesCount to totalPlusOnes, and leaves the other counts alone |
| RegistrationStore.RegistrationService.constructor | backend/src/services/registrationService.ts:4-6 | the store starts empty, with the first id to hand out being 1 |
| RegistrationStore.RegistrationService.Create | backend/src/services/registrationService.ts:10-16 | create appends exactly one row under the next id, with the submitted fields, the supplied companions (or none) and both timestamps set to now |
| RegistrationStore.RegistrationService.FindAll | backend/src/services/registrationService.ts:22-74 | building where key by key, then counting, ordering, skipping and taking, gives the list result whose meaning is stated in ListResultMeaning |
| RegistrationStore.RegistrationService.FindById | backend/src/services/registrationService.ts:79-93 | findById returns the stored row of that id, or none |
| RegistrationStore.RegistrationService.Update | backend/src/services/registrationService.ts:98-106 | update fails iff the id is absent, and then changes nothing; otherwise it returns the patched row and the table has that row patched and every other row unchanged |
| RegistrationStore.RegistrationService.Delete | backend/src/services/registrationService.ts:111-115 | delete fails iff the id is absent, and then changes nothing; otherwise it returns the deleted row and removes it |
| RegistrationStore.RegistrationService.GetStatistics | backend/src/services/registrationService.ts:120-156 | the figures of StatisticsOf, with totalPlusOnes 0 for an empty table and the recent window starting seven days before now |
| RegistrationStore.RegistrationService.CheckIdCardExists | backend/src/services/registrationService.ts:161-166 | true iff some stored row carries the ID card |
| RegistrationController.GuardOrder | backend/src/controllers/registrationController.ts:17-48 | each of the six messages is sent exactly when every earlier guard passes and its own fails; requests are admitted exactly when all pass; required fields are checked before any format check; the type must be option1, option2 or option3 |
| RegistrationController.PassThroughUnchecked | backend/src/controllers/registrationController.ts:15-50 | totalFee, plusOnesCount and companions never influence admission |
| RegistrationController.AdmittedInsertKeepsInvariants | backend/src/controllers/registrationController.ts:43-50 | an admitted insert keeps the ID cards of the table unique and every row well formed |
| RegistrationController.SecondSubmissionRefused | backend/src/controllers/registrationController.ts:44-48 | once a registration is stored, a second well-formed one with the same ID card is refused as a duplicate |
| RegistrationController.TrimStart | backend/src/controllers/registrationController.ts:63 | parseInt skips exactly the leading whitespace |
| RegistrationController.LeadingDigits | backend/src/controllers/registrationController.ts:63 | parseInt reads the longest run of decimal digits at the front |
| RegistrationController.LeadingHexDigits | backend/src/controllers/registrationController.ts:63 | after 0x, parseInt reads the longest run of hexadecimal digits |
| RegistrationController.LeadingDigitsAll | backend/src/controllers/registrationController.ts:63 | a string of digits is read whole |
| RegistrationController.ParseIntDigits | backend/src/controllers/registrationController.ts:63 | a non-empty string of decimal digits parses to its decimal value |
| RegistrationController.ParseIntTrailingText | backend/src/controllers/registrationController.ts:83 | text after the digits is ignored: "12abc" parses to 12 |
| RegistrationController.ParseIntNaN | backend/src/controllers/registrationController.ts:83 | "abc" and "" parse to NaN |
| RegistrationController.NumberParamMeaning | backend/src/controllers/registrationController.ts:63-64 | `parseInt(x) \|\| d` is d for a missing, non-numeric or zero parameter and the number read otherwise, and it is never 0 for a non-zero default |
| RegistrationController.ListDefaults | backend/src/controllers/registrationController.ts:62-69 | a missing, non-numeric or zero page falls back to 1 and pageSize to 10; a numeric page is kept; the service never sees page or size 0 |
| RegistrationController.Thrown | backend/src/middlewares/errorHandler.ts:4-12 | an error passed on to the middleware goes out with status and code 500, no data, and its own message, or 服务器内部错误 when it has none |
| RegistrationController.RegistrationController.constructor | backend/src/controllers/registrationController.ts:7 | the controller works on the one service it is given |
| RegistrationController.RegistrationController.Create | backend/src/controllers/registrationController.ts:13-55 | a refused request changes nothing and replies with the first failing guard's message; an admitted one inserts exactly one row and replies 报名成功 with it |
| RegistrationController.RegistrationController.List | backend/src/controllers/registrationController.ts:60-76 | list replies with the service's page for the query with its defaults, or with a 500 when the store refuses the paging |
| RegistrationController.RegistrationController.Detail | backend/src/controllers/registrationController.ts:81-95 | an unknown id gets code 404 with 报名记录不存在; a known one gets its row; a non-numeric id gets the store's 500 |
| RegistrationController.RegistrationController.Update | backend/src/controllers/registrationController.ts:100-110 | a known id is patched and replied with 更新成功; an unknown or non-numeric id gets a 500 and changes nothing |
| RegistrationController.RegistrationController.Delete | backend/src/controllers/registrationController.ts:115-123 | a known id is removed and replied with 删除成功 and data null; an unknown or non-numeric id gets a 500 and changes nothing |
| RegistrationController.RegistrationController.Statistics | backend/src/controllers/registrationController.ts:128-135 | statistics replies with the store's figures at now |
| RegistrationController.DeleteTwice | backend/src/controllers/registrationController.ts:115-123 | deleting the same id a second time always fails with a 500 |
| RegistrationForm.CalculateFee | frontend/src/pages/RegistrationForm.tsx:73-102 | the loop's fee is the base fee plus, when companions are on and present, each companion's surcharge |
| RegistrationForm.Sharing | frontend/src/pages/RegistrationForm.tsx:86-99 | the number of companions who share a bed is at most the number of companions |
| RegistrationForm.SurchargeByTable | frontend/src/pages/RegistrationForm.tsx:86-99 | the surcharges equal the shared-bed rate times the companions who share plus the own-bed rate times the others (option2 1600/1800, option3 1800/2000, option1 and unknown 0) |
| RegistrationForm.FeeOfBaseOnly | frontend/src/pages/RegistrationForm.tsx:77-99 | with companions off or absent, or for option1 or an unknown option, the fee is the base fee; the fee is always between the base fee and the base fee plus 2000 per companion |
| RegistrationForm.FeeExamples | frontend/src/pages/RegistrationForm.tsx:77-99 | option1 alone 1000; option2 with a shared bed 3400; option3 with single and shared beds 5800; option1 with a companion 1000; no option 0 |
| RegistrationForm.BlankCompanions | frontend/src/pages/RegistrationForm.tsx:128-140 | the new list has exactly count entries (none for a count that is not positive), each with empty name and ID card, bed type share and no permit images |
| RegistrationForm.PlusOnesCountChange | frontend/src/pages/RegistrationForm.tsx:128-140 | the handler sets plusOnesCount to count and the companions to that many blank entries, changes nothing else, and for a count of 0 or more leaves the count equal to the list length |
| RegistrationForm.CountMatchesSent | frontend/src/pages/RegistrationForm.tsx:59-66 | the form mounts with count 0 and no companions, so count and list agree; while they agree with companions on, the count sent equals the number of companions sent |
| RegistrationForm.EditedOnlyThatField | frontend/src/pages/RegistrationForm.tsx:145 | an edit changes only the field it names |
| RegistrationForm.UpdateCompanion | frontend/src/pages/RegistrationForm.tsx:143-147 | the list keeps its length and every other entry, and entry i gets the edited field |
| RegistrationForm.FirstIncomplete | frontend/src/pages/RegistrationForm.tsx:162-170 | the first companion with an empty name or ID card, with every companion before it complete; none iff all are complete |
| RegistrationForm.SubmittedAll | frontend/src/pages/RegistrationForm.tsx:191-194 | every companion is sent, in order |
| RegistrationForm.Payload | frontend/src/pages/RegistrationForm.tsx:185-196 | companions are [] when switched off, otherwise all of them, each with its first permit image url or ''; paymentImageUrl is the first payment image url or ''; totalFee, hasPlusOnes and plusOnesCount come from the component state |
| RegistrationForm.SubmittedFeeFromTable | frontend/src/pages/RegistrationForm.tsx:185-196 | with the fee state current, the submitted fee is the base fee plus the table's rate for each companion |
| RegistrationForm.OnFinish | frontend/src/pages/RegistrationForm.tsx:150-196 | the checks run in order (payment image, then the first incomplete companion counted from 1 when companions are on, then the notice); it submits iff all pass, and then sends Payload |
| RegistrationForm.FormIdCardLooser | frontend/src/pages/RegistrationForm.tsx:749 | every ID card the backend accepts passes the form's rule, but the form also lets through 15-digit numbers and 18-digit numbers the backend refuses |
| ImageUpload.SelectedWithinRoom | frontend/src/components/ImageUpload.tsx:27 | while the list is within its maximum, at most maxCount - value.length files are uploaded, the first ones in selection order |
| ImageUpload.AllUploaded | frontend/src/components/ImageUpload.tsx:28 | the uploads yield every URL in file order, or nothing as soon as one fails |
| ImageUpload.Appended | frontend/src/components/ImageUpload.tsx:29-30 | the new list is the old list followed by one image per URL, in order |
| ImageUpload.UploadedListWithinMax | frontend/src/components/ImageUpload.tsx:27-30 | after successful uploads the new list keeps the old images first, adds the uploaded URLs in file order, and is never longer than maxCount |
| ImageUpload.KeepOthersOutside | frontend/src/components/ImageUpload.tsx:39 | the filter keeps every image when the index is not a position of the list |
| ImageUpload.SpliceHead | frontend/src/components/ImageUpload.tsx:39 | dropping a position past the head is keeping the head and dropping the previous position of the tail |
| ImageUpload.KeepOthersInside | frontend/src/components/ImageUpload.tsx:39 | the filter drops exactly the image at the index |
| ImageUpload.RemoveAtMeaning | frontend/src/components/ImageUpload.tsx:38-40 | handleRemove gives the list without image i, the others in order, one shorter; an out-of-range i gives the same list |
| ImageUpload.ImageUploadView.constructor | frontend/src/components/ImageUpload.tsx:12-19 | value defaults to [] and maxCount to 1; loading starts off |
| ImageUpload.ImageUploadView.HandleFileChange | frontend/src/components/ImageUpload.tsx:21-36 | with no files nothing happens; otherwise loading goes on and then off in every case, and onChange gets the appended list only if every upload succeeded |
| ImageUpload.ImageUploadView.HandleRemove | frontend/src/components/ImageUpload.tsx:38-40 | onChange gets the list without image i, and loading is untouched |
| ImageUpload.DefaultTileRule | frontend/src/components/ImageUpload.tsx:71 | with the default maximum of 1, `ShowsAddTile` (`value.length < maxCount`) holds exactly while the list is empty |
| ImageUpload.AddTileMeaning | frontend/src/components/ImageUpload.tsx:27 | while `ShowsAddTile` (the condition at line 71) holds, a non-empty selection uploads at least one file; on a full list a selection uploads nothing |

## Left out

- Prisma and SQL: the table is an in-memory sequence. Ids come from a counter in the service. Failures are generic `Err` values whose texts stand in for Prisma's messages. `create` spreads the body into the insert, so a column the guards do not check (gender, city, position) can reach the database absent, and the database may then refuse the row with a 500; the model stores `""` instead.
- Database collation: `contains` is modelled as case-sensitive substring search.
- The order of rows created at the same instant is left to the database. The model assumes every query orders tied rows the same way: each page is cut from one fixed listing. A database that orders ties differently from one `skip` to the next can show a tied row on two pages or on none. RegistrationStore.PagesCoverListing and RegistrationStore.FirstPageNewest rely on this assumption. The other lemmas state only newest-first order and permutation.
- RegistrationStore.ListResult: a negative `take` (negative pageSize) is modelled as a refused query. It is weaker than Prisma, which would read it as taking rows backwards.
- RegistrationController.RegistrationController.Update and Delete: the reply to an unknown id is stated only as status 500, because Prisma's exact error text is not modelled.
- `new Date(...)` parsing of the list's date filters: startDate and endDate arrive as integer timestamps.
- `setDate(getDate() - 7)` is modelled as exactly seven days of milliseconds, so daylight-saving shifts are left out.
- JSON.stringify and JSON.parse of companions: the sequence is stored as it is. `create` and `update` return the raw row, so their replies carry `companions` as JSON text or null, while `findAll` and `findById` decode it; the model's replies carry the decoded sequence on every path.
- The extra `permitImages` key that the form's spread copies into each companion: `create` and `update` stringify the whole companion array into the column, so the stored JSON keeps that key and `findAll`/`findById` return it on read. The model's `Companion` drops it.
- Concurrency: the check-then-insert race on the ID card and the ordering of async calls (`Promise.all`, awaits) are left out. Each handler runs as one step.
- Body keys beyond the registration fields, and non-string values in string fields, are not modelled.
- parseInt results past 2^53, where JavaScript numbers lose precision, are not modelled.
- `parseInt(val[0] || '0')` in the plus-ones selector is not modelled. The count reaches `PlusOnesCountChange` as an integer.
- RegistrationForm.UpdateCompanion: requires an index within the list. The form only calls it for rendered entries, so writes past the end are not modelled.
- The form's `type: 'email'` rule and its required-field rules are antd presentation and are not modelled. The phone rule at line 908 is the backend's own pattern, `Validator.ValidatePhone`.
- Toast texts, navigation after a successful submission, and the 10 MB size check in `beforeUpload` are UI feedback and are not modelled.
- The `multiple` file input and the upload call itself: upload outcomes are a parameter of `HandleFileChange`.
- The error middleware's console logging, and the upload handler, admin login and server wiring in backend/src/index.ts and uploadController.ts, are not part of this model.
- AdminDashboard, AdminLogin, the success pages, App, main, the theme, the axios client and device detection are presentation and are not part of this model.
