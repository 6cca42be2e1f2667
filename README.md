# Course-authoring app: routes, stores and schemas in Dafny

This project models the server-side core of a course-authoring web application (a Next.js app backed by MongoDB through Mongoose) and proves properties of that model. The core consists of:

- **Upload**: the instructor upload route, which gates on the caller's token, accepts a document by MIME type or by extension, sanitises the file name and builds the stored name and public URL (`upload.dfy`).
- **Public catalogue**: the published-course listing, which filters, sorts newest first, pages with skip/limit and counts (`public_courses.dfy`, over the query pieces in `query.dfy`).
- **Registration**: the ordered validation, role normalisation and creation of one user in a user store (`register.dfy`, `users.dfy`).
- **Instructor stores**: the instructor's course and category routes. GET lists the caller's own records newest first. POST validates, checks ownership, applies defaults and inserts (`instructor_courses.dfy`, `instructor_categories.dfy`).
- **Statistics**: the instructor statistics route, which counts the caller's courses with its own token reading and role check (`statistics.dfy`).
- **Confirm dialog**: the `useConfirmDialog` hook, a single piece of state that showing, confirming and closing overwrite (`confirm_dialog.dfy`).
- **Schemas**: the Course, Category, Module, Section, Quiz, Question and Answer schemas. Each is a datatype plus a `New…` function that trims, fills defaults and refuses missing required paths and out-of-enum values (`models.dfy`).

Shared pieces:

- `auth.dfy`: reading the bearer token and the instructor gate. JWT verification is a function parameter (`Verifier`) that either decodes claims or throws a named error.
- `text.dfy`: string helpers, including the JavaScript replace-first, the ECMAScript whitespace trim, ASCII lower-casing and decimal rendering.
- `http.dfy`: responses.
- `wrappers.dfy`: Option and Result.

The database is modelled as sequences of records. The clock (`Date.now()`), fresh document ids, the outcome of filesystem writes and the token signer are parameters. A document whose `_id` is already taken fails like a duplicate-key error (code 11000). Each route that stores a document is a method of a store class (`UserStore`, `CourseStore`, `CategoryStore`) whose `seq` field the method extends. The route's response is the method's out-parameter. The routes that only read are functions or read-only methods.

Two behaviours of the code worth knowing:

- `models/Quiz.ts:28-35` declares both parent references of a quiz optional and checks neither. `Models.QuizParentsUnconstrained` shows that a quiz with both parents, and a quiz with neither, validate.
- A `limit` of 0 means "no limit" in the store, and the model keeps that case.

## Model

| member | source | states |
|---|---|---|
| Auth.ReplacedToken | app/api/instructor/upload/route.ts:8-11 | the token is present iff the header is present and removing its first `Bearer ` leaves a non-empty string, and then it is that string |
| Auth.ReplacedTokenOfBearerHeader | app/api/instructor/courses/route.ts:12-15 | for a header `Bearer t` with non-empty t, the token is t |
| Auth.BarePrefixHasNoToken | app/api/instructor/upload/route.ts:8-11 | a header of exactly `Bearer ` yields no token, so the route answers 401 |
| Auth.FirstPrefixRemoved | app/api/instructor/categories/route.ts:11-14 | when the first `Bearer ` starts at index i, wherever that is, the token is the header with those seven characters cut out, or none when nothing is left |
| Auth.HeaderWithoutPrefixPassedWhole | app/api/instructor/categories/route.ts:11-14 | a header containing no `Bearer ` is the token as it stands, or none when it is empty |
| Auth.OtherSchemeReachesVerifier | app/api/instructor/upload/route.ts:8-13 | a `Basic abc` header is not refused with 401: it goes to verification, whose failure gives 500 |
| Auth.PrefixRemovedAnywhere | app/api/instructor/categories/route.ts:11-14 | `xBearer t` yields the token `xt` |
| Auth.InstructorGate | app/api/instructor/courses/route.ts:12-20 | 401 iff there is no token; 500 iff verification throws; 403 iff the decoded role is not `instructor`; otherwise the decoded claims |
| Auth.PrefixedToken | app/api/instructor/statistics/route.ts:12-17 | a token exists iff the header starts with `Bearer `, and then the header is the prefix followed by the token |
| Auth.TokenReadingsAgree | app/api/instructor/statistics/route.ts:12-17 | on a header that starts with the prefix and has something after it, the statistics route and the replace-based routes read the same token |
| Auth.BarePrefixReadingsDiffer | app/api/instructor/statistics/route.ts:13-17 | on a header that is exactly `Bearer ` the replace-based routes find no token, while the statistics route reads an empty one and passes it to verification |
| Auth.TokenReadingsDiffer | app/api/instructor/statistics/route.ts:13 | on `xBearer t` the replace-based routes find a token and the statistics route does not |
| Upload.ListedExtensionIsChecked | app/api/instructor/upload/route.ts:31-35 | a name ending in any listed extension passes the route's five `endsWith` tests |
| Upload.CheckedExtensionIsListed | app/api/instructor/upload/route.ts:31-35 | a name passing one of the five tests ends in a listed extension |
| Upload.IsValidType | app/api/instructor/upload/route.ts:26-35 | a file is accepted iff its MIME type is one of the five listed or its lower-cased name ends in one of the listed extensions |
| Upload.ExtensionTestsMatchList | app/api/instructor/upload/route.ts:31-35 | the route's five written-out `endsWith` tests accept exactly the names that end in a listed extension |
| Upload.ValidTypeIgnoresCase | app/api/instructor/upload/route.ts:31-35 | acceptance depends on the name only through its lower-cased form |
| Upload.UpperCasePdfAccepted | app/api/instructor/upload/route.ts:30-35 | any name ending in `.PDF`, such as `REPORT.PDF`, is accepted whatever its MIME type |
| Upload.PlainTextRefused | app/api/instructor/upload/route.ts:30-39 | a `notes.txt` file of type `text/plain` is refused |
| Upload.Sanitize | app/api/instructor/upload/route.ts:46 | same length as the name; each `[A-Za-z0-9.-]` character kept at its position, each other one replaced by `_` |
| Upload.SanitizedAlphabet | app/api/instructor/upload/route.ts:46 | every character of a sanitised name is in `[A-Za-z0-9.-]` or is `_` |
| Upload.SanitizeKeepsSafeName | app/api/instructor/upload/route.ts:46 | a name made only of kept characters is unchanged |
| Upload.SanitizeIdempotent | app/api/instructor/upload/route.ts:46 | sanitising twice equals sanitising once |
| Upload.StoredFilename | app/api/instructor/upload/route.ts:45-47 | the stored name `<timestamp>_<sanitised>` parses back into the timestamp and the sanitised name, and is exactly as long as the timestamp's digits, the underscore and the name |
| Upload.StoredFilenameInjective | app/api/instructor/upload/route.ts:45-47 | two uploads get the same stored name only with the same timestamp and the same sanitised name |
| Upload.FileUrl | app/api/instructor/upload/route.ts:68 | the URL starts with `/uploads/` and the rest of it is the stored file name |
| Upload.Post | app/api/instructor/upload/route.ts:6-79 | checks in order: 401 iff no token, 403 iff wrong role, 400 iff missing entry or disallowed type; 200 iff accepted and written, with URL `/uploads/<timestamp>_<sanitised>` and the original name, size and type echoed; every other path 500 |
| Upload.UploadedUrlDecodes | app/api/instructor/upload/route.ts:45-68 | the URL of an accepted upload starts with `/uploads/`, and its file part decodes to the upload's timestamp and sanitised name |
| Text.IndexFrom | app/api/instructor/upload/route.ts:8 | the first occurrence of the pattern at or after a position, and none before it (the search `replace` uses) |
| Text.ToLower | app/api/instructor/upload/route.ts:31 | same length; ASCII upper-case letters are lowered pointwise and everything else is kept |
| Text.ToLowerIdempotent | app/api/instructor/upload/route.ts:31-35 | lower-casing twice equals lower-casing once |
| Text.TrimEdges | models/Course.ts:19-28 | a trimmed string neither starts nor ends with whitespace |
| Text.TrimInfix | models/Course.ts:19-28 | a trimmed string is the original with only whitespace removed before and after it |
| Text.TrimIdempotent | models/Category.ts:13-17 | trimming twice equals trimming once |
| Text.BlankIffAllSpace | models/Course.ts:19-23 | trimming gives "" iff every character is whitespace, so such a required value is refused |
| Text.Decimal | app/api/instructor/upload/route.ts:47 | a timestamp is written as decimal digits with no leading zero (except 0 itself) |
| Text.DecimalRoundTrip | app/api/instructor/upload/route.ts:45-47 | the decimal digits of a timestamp read back to the same number |
| Query.Filter | app/api/courses/route.ts:19-33 | the selected documents are those of the collection that match, each exactly as often as it is stored, in store order (a subsequence of the collection) |
| Query.FindFirst | app/api/instructor/courses/route.ts:56 | `findOne`: none iff no document matches; otherwise a matching document of the collection, the first that the filter selects |
| Query.FindByKey | app/api/auth/register/route.ts:48 | `findById(id)` / `findOne({ email })`: a stored document whose key is the one asked for, or none iff no stored document has it |
| Query.FilterCountMonotone | app/api/instructor/statistics/route.ts:28-34 | a stronger filter never counts more documents |
| Query.FilterCountSplit | app/api/instructor/statistics/route.ts:28-45 | a filter that is the exclusive union of two others counts their sum |
| Query.InsertByKey | app/api/courses/route.ts:27 | inserting into a newest-first sequence keeps it newest first and adds exactly the element |
| Query.SortByKeyDesc | app/api/courses/route.ts:27 | the sort is a permutation and its `createdAt` keys do not increase |
| Query.SortSameMembers | app/api/instructor/categories/route.ts:21 | sorting neither adds nor drops a record |
| Query.Window | app/api/courses/route.ts:28-29 | the page is the contiguous run of the sequence from `skip`, of length `limit` (all the rest when `limit` is 0), clipped at the end |
| Query.WindowNonIncreasing | app/api/courses/route.ts:27-29 | a page of a newest-first sequence is newest first |
| Query.ConsecutivePagesTile | app/api/courses/route.ts:28-29 | two consecutive pages of size n are the page of size 2n: pages neither overlap nor leave gaps |
| PublicCourses.List | app/api/courses/route.ts:13-40 | limit defaults to 12 and skip to 0, and both are echoed; only published courses, of the given category when one is given; newest first; the page is the window at `skip` of the sorted matches, of full length when enough matches remain; `total` is the number of matches |
| PublicCourses.Matches | app/api/courses/route.ts:19-22 | without a non-empty category the query selects exactly the published courses; with one, exactly the published courses of that category |
| PublicCourses.CategoryNarrowsTotal | app/api/courses/route.ts:19-33 | naming a category never raises `total` above the count of all published courses |
| PublicCourses.TotalIgnoresPaging | app/api/courses/route.ts:33 | the total is the same whatever `skip` and `limit` are |
| PublicCourses.NewestMatchOnFirstPage | app/api/courses/route.ts:19-29 | the newest matching course is on the default first page |
| Users.NormaliseRole | app/api/auth/register/route.ts:64-65 | the stored role is one of `student`, `instructor` or `admin`; a listed role is kept (including `admin`), anything else becomes `student` |
| Users.NormaliseRoleName | app/api/auth/register/route.ts:64-65 | the name of a normalised role is the given role when that is listed, `student` otherwise |
| Register.Validate | app/api/auth/register/route.ts:32-44 | "All fields are required" iff a field is missing or empty; then the password-length error iff the password has fewer than 6 characters; nothing iff both checks pass |
| Register.CreateFailed | app/api/auth/register/route.ts:85-88 | a failed insert answers 500 with its own message when that is non-empty, and with "Failed to create user" when it is empty |
| Register.Public | app/api/auth/register/route.ts:111-117 | the response's user carries the id, email, names and role, and has no password field |
| Register.NewUser | app/api/auth/register/route.ts:70-76 | the user asked for carries the given id, email, password and names, and the given role when it is listed, `student` otherwise |
| Register.UserStore.Register | app/api/auth/register/route.ts:28-120 | validation errors first; then a lookup failure gives 500 and an existing email gives 400 with the store unchanged; an insert error gives 500 with its message and a duplicate key 400; otherwise exactly one user with the given fields and normalised role is appended, other users untouched; a signing failure then gives 500 with the user kept; success gives 201 with the public user and a token signed over its id, email and role |
| Models.RequiredText | models/Course.ts:19-28 | a required trimmed path accepts exactly the values that are non-blank after trimming, and stores the trimmed value |
| Models.RequiredRef | models/Course.ts:29-38 | a required reference accepts exactly a given id |
| Models.ParseCourseStatus | models/Course.ts:46-50 | the status enum accepts exactly `draft` and `published` |
| Models.NewCourse | models/Course.ts:17-63 | valid iff title and description are non-blank, both references are given and the status is in its enum; the course has trimmed texts, price default 0, status default draft, no modules, no final exam and timestamps `now` |
| Models.CourseRevalidates | models/Course.ts:17-63 | a valid stored course's values validate again to the same course |
| Models.NewCategory | models/Category.ts:11-31 | valid iff the name is non-blank and the owner is given; the name is trimmed, the description optional and trimmed |
| Models.CategoryNamesNotUnique | models/Category.ts:11-31 | two categories of one owner with the same name both validate: the schema has no unique index on the name |
| Models.NewModule | models/Module.ts:14-47 | valid iff the title is non-blank and the parent course is given; order defaults to 0; no sections and no quiz yet |
| Models.ParseSectionType | models/Section.ts:37-41 | the section type enum accepts exactly `file` and `youtube` |
| Models.ParseFileType | models/Section.ts:53-56 | the file type enum accepts exactly `pdf`, `word` and `ppt` |
| Models.NewSection | models/Section.ts:21-64 | valid iff the title is non-blank, the parent module is given, the type is given and in its enum, and any file type is in its enum; order defaults to 0; payload fields stored as given |
| Models.SectionPayloadNotTiedToType | models/Section.ts:47-59 | a YouTube section with file fields and no URL validates |
| Models.NewQuiz | models/Quiz.ts:17-59 | valid iff the title is non-blank; both parents optional; not a final exam, 0 total points and passing score 60 by default; the time limit is optional |
| Models.QuizParentsUnconstrained | models/Quiz.ts:28-35 | a quiz with both parents validates, and so does one with neither |
| Models.ParseQuestionType | models/Question.ts:23-27 | the question type enum accepts exactly `qcm`, `true_false` and `multiple_correct` |
| Models.NewQuestion | models/Question.ts:16-51 | valid iff the text is non-blank, the type is in its enum and the parent quiz is given; order defaults to 0 and points to 1; no answers yet |
| Models.NewAnswer | models/Answer.ts:12-38 | valid iff the text is non-blank and the parent question is given; not correct and order 0 by default |
| InstructorCategories.OwnCategoriesNewestFirst | app/api/instructor/categories/route.ts:21 | exactly the caller's categories, each as often as stored, newest first |
| InstructorCategories.CategoryStore.List | app/api/instructor/categories/route.ts:7-27 | 401, 403, or 500 when verification throws, exactly as the gate answers; otherwise 200 with exactly the caller's categories, newest first |
| InstructorCategories.CategoryStore.Create | app/api/instructor/categories/route.ts:30-66 | the gate's answer (401, 403, or 500 when verification throws) whenever the gate fails; 400 "Category name is required" iff the gate passes and the name is missing or empty; a whitespace-only name fails validation (500); 400 "Category name already exists" iff the name is valid and the id is taken; otherwise exactly the new category (trimmed name, the caller as owner, both timestamps `now`) is appended and returned with 201, and nothing changes on any error |
| InstructorCategories.SameNameTwice | app/api/instructor/categories/route.ts:51-58 | two categories with the same name by one owner are both created |
| InstructorCourses.OwnCoursesNewestFirst | app/api/instructor/courses/route.ts:22-24 | exactly the caller's courses, each as often as stored, newest first |
| InstructorCourses.PriceOrZero | app/api/instructor/courses/route.ts:66 | a missing or zero price becomes 0; any other price is kept |
| InstructorCourses.StatusOrDraft | app/api/instructor/courses/route.ts:68 | a missing or empty status becomes `draft`; any other status is passed on to validation |
| InstructorCourses.BuildCourse | app/api/instructor/courses/route.ts:61-70 | the build succeeds iff title and description are non-blank, a category is given and any given status is in the enum; the course is then owned by the caller, trimmed, with price `price \|\| 0`, status draft when none was given, no modules and both timestamps `now` |
| InstructorCourses.FindOwnedCategory | app/api/instructor/courses/route.ts:56 | `findOne({ _id, instructorId })`: a stored category with that id and owner, or none iff there is no such category |
| InstructorCourses.BuiltCourseDefaults | app/api/instructor/courses/route.ts:61-70 | a built course belongs to the caller, has no modules, price 0 when none was given, status draft when none was given, and is valid |
| InstructorCourses.UnknownStatusRefused | app/api/instructor/courses/route.ts:68-72 | any non-empty status outside `draft` and `published` makes the build fail, so the route answers 500 |
| InstructorCourses.CourseStore.List | app/api/instructor/courses/route.ts:8-31 | 401, 403, or 500 when verification throws, exactly as the gate answers; otherwise 200 with exactly the caller's courses, newest first |
| InstructorCourses.CourseStore.Create | app/api/instructor/courses/route.ts:34-78 | the gate's answer (401, 403, or 500 when verification throws) whenever the gate fails; then 400 iff title, description or category is missing; 404 iff the category is not the caller's; 500 when the built course fails validation or its id is taken; 201 iff the course validates and its id is free, and then exactly that course (owned by the caller, in a category the caller owns) is appended; nothing changes otherwise |
| Statistics.OwnedSplitsIntoPublishedAndDraft | app/api/instructor/statistics/route.ts:28-45 | the caller's course count is the published count plus the draft count |
| Statistics.CountsFor | app/api/instructor/statistics/route.ts:27-48 | total counts the caller's courses and published the caller's published ones; published ≤ total; draft = total − published is the number of the caller's drafts; students and enrollments are 0 |
| Statistics.Get | app/api/instructor/statistics/route.ts:7-56 | 401 iff the header lacks the prefix or the user is missing or not an instructor; 401 "Invalid token" iff verification throws `JsonWebTokenError`; 500 iff it throws anything else; 200 iff the token decodes to a stored instructor, and then exactly `CountsFor` the caller: the counts, with `totalStudents` and `totalEnrollments` 0 |
| Statistics.TokenRoleIgnored | app/api/instructor/statistics/route.ts:18-25 | the answer depends on the token's user id and not on the role inside the token |
| Statistics.TotalIsOwnListLength | app/api/instructor/statistics/route.ts:28 | `totalCourses` equals the length of the instructor's own course list |
| ConfirmDialog.Or | app/hooks/useConfirmDialog.ts:32-35 | `given \|\| fallback` on a label: a non-empty given label is kept, an absent or empty one falls back, and the result is never empty |
| ConfirmDialog.Opened | app/hooks/useConfirmDialog.ts:30-41 | the record shown is open, carries the message and the callback, and takes the defaults "Confirm", "OK", "Cancel" and blue for every missing or empty option |
| ConfirmDialog.EmptyOptionsAreDefaults | app/hooks/useConfirmDialog.ts:32-36 | options whose fields are all absent or empty give the same dialog as no options |
| ConfirmDialog.ConfirmDialogState.constructor | app/hooks/useConfirmDialog.ts:14-22 | the initial state has no dialog |
| ConfirmDialog.ConfirmDialogState.ShowConfirm | app/hooks/useConfirmDialog.ts:24-44 | the state becomes the new open dialog, replacing any open one, and no callback runs |
| ConfirmDialog.ConfirmDialogState.Confirm | app/hooks/useConfirmDialog.ts:37-40 | the caller's callback runs once, then the state has no dialog |
| ConfirmDialog.ConfirmDialogState.CloseDialog | app/hooks/useConfirmDialog.ts:46-48 | the state has no dialog and no callback runs |
| ConfirmDialog.ConfirmRunsCallbackOnce | app/hooks/useConfirmDialog.ts:24-40 | show then confirm runs exactly the given callback, once, and closes |
| ConfirmDialog.CancelRunsNothing | app/hooks/useConfirmDialog.ts:24-48 | show then close runs nothing and closes |
| ConfirmDialog.SecondShowReplacesFirst | app/hooks/useConfirmDialog.ts:24-44 | after two shows, the second dialog is shown and confirming it runs only the second callback |

## Left out

- Database connection and configuration checks (`connectDB`, the `MONGODB_URI` checks): I/O. A failing connection would answer 500 in every route that connects, which is all of them but upload.
- Mongoose `populate` of the category and instructor names: the model returns the stored references.
- Store errors other than a duplicate `_id`, and cast errors for malformed ObjectId strings: both would answer 500 and are not modelled. Ids are plain strings.
- The file write and directory creation in the upload route: a boolean parameter `written`. Reading the request body is modelled only by its outcome: a form entry that is absent, text, or a file. A form body that fails to parse is left out.
- JWT signing and verification: a foreign library. Verification is the `Verifier` parameter and signing the `Signer` parameter.
- The User schema and password hashing: that source is not part of this model. A user is the record the registration route creates, and the stored password is the given one.
- `parseInt` on the query string (NaN, negatives, trailing junk): `limit` and `skip` are natural numbers or absent.
- Concurrency: two requests interleaving their read and insert steps is not modelled.
- The nested resource routes (modules, sections, quizzes, questions, answers) and their ownership walks: those sources are not part of this model. Only the schemas' parent references are.
- The React pages and components: rendering and navigation.
- Request bodies are typed: each field is an optional string (a price an optional number), not an arbitrary JSON value. So the model does not capture a numeric `password`, which has no `length` and so passes the length check; an object `email` such as `{"$ne": null}`, which becomes a query operator in the email lookup; or a body that is not JSON, on which every POST route answers 500.
- Text.ToLower: lowers ASCII letters only. JavaScript's `toLowerCase` is full Unicode, so a non-ASCII name could be lowered differently.
- Upload.Sanitize: works on characters, not UTF-16 code units. A name with characters outside the Basic Multilingual Plane gets one `_` per character, where the route writes two.
- Register.Validate: the password length counts characters, not UTF-16 code units.
- Query.SortByKeyDesc: courses with equal `createdAt` keep their store order. The database guarantees no order among ties, so the model fixes one of the orders the route may return.
- Models.NewCourse: only the first failing path is reported, where Mongoose collects every failing path. Every route maps any validation failure to the same 500, so only the success condition matters.
- Models.NewCourse: prices are real numbers and orders, points and timestamps are integers. JavaScript numbers (IEEE doubles, NaN) are not modelled.
- ConfirmDialog.ConfirmDialogState.Confirm: the caller's callback is named by an action id and recorded when run. What it does is outside the hook. React's batching of state updates and a callback that throws (which would leave the dialog open) are not modelled.
