# Job portal: user handlers, job filter and job card

This project models three parts of a job-board web application in Dafny.

- The backend handlers for user accounts: `register`, `login`, `logout` and `updateProfile`. The model covers the guarded early returns of each handler and the exact status codes and messages. It also covers the single insert or save each handler makes and which record fields change. Each handler's outcome is tied to the store as it was before.
- The jobs page: the effect that recomputes the shown jobs from all jobs and the searched query. A query that is one of four salary bands filters by salary. Any other query is a case-insensitive text search. The page shows "Job not found" when nothing is left.
- The job card: how many days ago a job was posted, and the label for it. It also covers whether the signed-in user has already applied, and the state change `applyJobHandler` makes.

Files:

- `wrappers.dfy`: the `Option` type (`undefined`/`null` next to a value).
- `js_strings.dfy`: the JavaScript string built-ins the code relies on. These are `startsWith`, `includes`, ASCII `toLowerCase`, `split`/`join` on one character, `parseInt` without a radix, and `${n}` for an integer.
- `user_controller.dfy`: the user handlers. `UserStore` holds the user collection, with `Register` and `UpdateProfile` as methods that change it. `Login` and `Logout` are functions, since they never write. `RegisterOutcome` and `UpdateProfileOutcome` specify the two methods, and the lemmas beside them prove their properties.
- `jobs_filter.dfy`: the job-list filter, and the effect as written (see Findings).
- `job_card.dfy`: the day count, the label, the applied check and the `Card` class with `isApplied` and `singleJob`.

Modelling choices:

- The user collection is a sequence in insertion order, and a record's `_id` is its position. `User.findOne({ email })` gives the first record with that email.
- bcrypt is a `Hasher` value holding a `hash` and a `compare` function. The only law assumed of it is `Sound`: a password matches every digest made from it, and a digest is never the password itself. The random salt is an input.
- The asset host's answer to an upload is an input: `Uploaded(url)` or `UploadFailed`.
- `req.id`, the user id that the authentication middleware sets, is an input.
- The signed token is its payload: the user id and the `expiresIn` option. The signature and the secret are not modelled.
- A request-body field is `Option<string>`. It is truthy when present and not "".
- The current time and `createdAt` are integer milliseconds, and the current time is a parameter.

Behaviour of the handlers worth knowing, as the code has it:

- `login` answers with the whole stored user document, including the password digest. `Login` puts the stored record in `user`.
- `register` accepts any truthy role string and stores it. No set of allowed roles is checked.
- In `register`, a failed upload of an image is caught by the handler's catch-all. The answer is then 500 "Internal Server Error", not a dedicated upload error.
- In `updateProfile`, the failed-upload answer `{ message, error }` has no `success` key. It is modelled as `success: false`.

## Model

| member | source | states |
|---|---|---|
| `UserController.FindIndexByEmail` | backend/controllers/user.controller.js:19 | The lookup by email finds a record with that email, and none before it. It finds nothing exactly when no record has that email. |
| `UserController.FindIndexByEmailAppend` | backend/controllers/user.controller.js:19-27 | After one record is appended, the lookup finds the earlier match if there is one. Otherwise it finds the new record exactly when its email matches. |
| `UserController.RegisterOutcome` | backend/controllers/user.controller.js:10-69 | On every error the collection stays as it was. The refusals come in order: a missing or empty field (400 "All fields are required."), then an existing email (400 "User already exists with this email."), then a non-image file (400 "Unsupported file type", with the upload never consulted). A failed upload of an image gives 500 "Internal Server Error". Success happens exactly when all fields are present, the email is new, and any attached file is an uploaded image. Success gives 201 "Account created successfully." with no user and no cookie in the answer, and appends exactly one record. That record has the given fields and role, the bcrypt digest as its password, null resume fields, and the upload URL as its photo (null without a file). |
| `UserController.RegisterKeepsIds` | backend/controllers/user.controller.js:54-65 | After register, every record is still at the position its id names. |
| `UserController.RegisterKeepsEmailsUnique` | backend/controllers/user.controller.js:18-27 | If no two records shared an email before register, none do after. |
| `UserController.RegisterStoresNoPlaintext` | backend/controllers/user.controller.js:29 | On success the stored password is not the password as typed. This follows from the digest stored by `RegisterOutcome` and the assumed law `Sound`. |
| `UserController.RegisterTwiceSameEmail` | backend/controllers/user.controller.js:19-27 | After a successful register, a second register with the same email gets 400 "User already exists with this email." and leaves the collection unchanged. |
| `UserController.Login` | backend/controllers/user.controller.js:81-122 | A missing field gives 400 "All fields are required.". An unknown email gives 400 "Incorrect email or password.", and so does a wrong password for a known email. A correct email and password with another role gives 400 "Account doesn't exist with the specified role.". Success happens exactly when all fields are present, the email exists, the password matches the stored digest, and the role equals the stored role. A role-mismatch refusal happens only after a correct password. Every refusal is 400, with no cookie and no user. Success is 200 with "Welcome back " and the full name. The answer carries the found user and a `token` cookie holding that user's id, `expiresIn` "1d", `maxAge` 86400000, httpOnly and sameSite "strict". |
| `UserController.LoginMessagesDistinct` | backend/controllers/user.controller.js:85-106 | The three login refusal messages are pairwise different. |
| `UserController.LoginHidesWhichCredentialFailed` | backend/controllers/user.controller.js:88-100 | An unknown email and a wrong password get identical answers: 400 "Incorrect email or password.". |
| `UserController.RegisterThenLogin` | backend/controllers/user.controller.js:29-122 | After a successful register, logging in with the same email and password and the same role succeeds, and the cookie is for the new record. With another role the answer is the role-mismatch refusal. |
| `UserController.SessionCookieMatchesToken` | backend/controllers/user.controller.js:111-121 | The cookie's `maxAge` is 24·60·60·1000 ms. That equals the token lifetime "1d" read in milliseconds. |
| `UserController.Logout` | backend/controllers/user.controller.js:134-137 | Logout always gives 200 "Logged out successfully." and sets the `token` cookie to the empty value with `maxAge` 0. |
| `UserController.MergeFields` | backend/controllers/user.controller.js:203-207 | The full name, email, phone number and bio are each overwritten exactly when the supplied value is truthy, and kept otherwise. Truthy skills become one or more pieces, none containing ",", that join back with "," to the supplied string; by `SplitJoin` these are exactly the comma-split pieces. Otherwise the skills are kept. The id, digest, role and file fields stay the same. |
| `UserController.RouteFile` | backend/controllers/user.controller.js:159-199 | With no file, all three file fields keep their values. "application/pdf" sets the resume URL and original name and keeps the photo. An "image/" type sets the photo and keeps both resume fields. Any other type is refused with 400 "Unsupported file type". A failed upload is refused with 500 "File upload failed". |
| `UserController.UpdateProfileOutcome` | backend/controllers/user.controller.js:149-218 | On every error the collection stays as it was. An unknown id gives 400 "User not found.". A refused file step answers with that step's own response: 400 "Unsupported file type" or 500 "File upload failed". Success happens exactly when the id exists and the file step is not refused. Success gives 200 and changes only the one record, as the merge and the file step say. It answers with the saved record and sets no cookie. |
| `UserController.UpdateProfileKeepsIdentity` | backend/controllers/user.controller.js:203-214 | updateProfile keeps the number of records and keeps ids at their positions. It changes no record's password digest or role. |
| `UserController.UpdateProfileEmptyRequest` | backend/controllers/user.controller.js:203-212 | A request whose fields are all empty or absent, with no file, saves the record unchanged. |
| `UserController.UpdateProfileIdempotent` | backend/controllers/user.controller.js:203-214 | Repeating a successful update leaves what the first update saved. |
| `UserController.UpdateProfileMayDuplicateEmail` | backend/controllers/user.controller.js:204 | No uniqueness check is made: some update gives two records the same email. |
| `UserController.UserStore.Register` | backend/controllers/user.controller.js:10-69 | The response and the new collection are those of `RegisterOutcome`, and ids stay at their positions. |
| `UserController.UserStore.UpdateProfile` | backend/controllers/user.controller.js:149-218 | The response and the new collection are those of `UpdateProfileOutcome`, and ids stay at their positions. |
| `JsStrings.ToLower` | frontend/src/components/Jobs.jsx:29-33 | Lower-casing keeps the length and lower-cases each ASCII capital, leaving every other character as it was. |
| `JsStrings.Split` | backend/controllers/user.controller.js:207 | A split gives at least one piece, and no piece contains the separator. |
| `JsStrings.JoinSplit` | backend/controllers/user.controller.js:207 | Joining the pieces of `s.split(",")` with "," gives back `s`. |
| `JsStrings.SplitJoin` | backend/controllers/user.controller.js:207 | Splitting a join of one or more pieces without a comma gives back the pieces. |
| `JsStrings.ParseInt` | frontend/src/components/Jobs.jsx:22 | A text that is empty or only white space reads as `NaN`. |
| `JsStrings.ParseIntOfNonNumeric` | frontend/src/components/Jobs.jsx:22 | A text whose first character is not white space, a sign or a decimal digit reads as `NaN`. |
| `JsStrings.ParseIntOfIntToString` | frontend/src/components/Jobs.jsx:22 | `parseInt` reads back an integer written in decimal, whatever non-digit (other than `x`) follows it. |
| `JobsFilter.Filter` | frontend/src/components/Jobs.jsx:21-24 | The result keeps every copy of each element that passes the test, as many times as the input has it, and no copy of any other element. It is no longer than the input. |
| `JobsFilter.FilterIsSubsequence` | frontend/src/components/Jobs.jsx:21-35 | A filtered list is the input with some jobs left out, in the same order. |
| `JobsFilter.FilterIdempotent` | frontend/src/components/Jobs.jsx:21-35 | Filtering a filtered list again with the same test changes nothing. |
| `JobsFilter.FilterJobs` | frontend/src/components/Jobs.jsx:17-40 | The result is always an order-preserving subsequence of all jobs. An absent or empty query gives all jobs. For a salary-band key, a job is kept exactly when its parsed salary lies in the band, both ends included. For any other query, a job is kept exactly when the lower-cased query occurs in its lower-cased title, description or location. In both query branches, each kept job appears as many times as in all jobs. |
| `JobsFilter.FilterJobsIdempotent` | frontend/src/components/Jobs.jsx:17-40 | Filtering the result again with the same query gives it back. |
| `JobsFilter.UnparsableSalaryInNoBand` | frontend/src/components/Jobs.jsx:22-23 | A salary that does not parse (`NaN`) keeps a job out of every salary band. |
| `JobsFilter.BoundariesInTwoBands` | frontend/src/components/Jobs.jsx:12-15 | A salary of 30000, 60000 or 100000 is kept by both bands it bounds. |
| `JobsFilter.TopBandUnbounded` | frontend/src/components/Jobs.jsx:15 | "1LPA above" keeps every salary of at least 100000. |
| `JobsFilter.RenderedSalaryInBand` | frontend/src/components/Jobs.jsx:22-23 | A job whose salary text is a decimal integer in a band is kept by that band. |
| `JobsFilter.SalaryRangesTable` | frontend/src/components/Jobs.jsx:11-16 | The table maps "0-30k" to 0..30000, "30-60k" to 30000..60000, "60k-1LPA" to 60000..100000, and "1LPA above" to 100000 with no upper bound. |
| `JobsFilter.ShowsJobNotFound` | frontend/src/components/Jobs.jsx:52-53 | "Job not found" is shown exactly when the filtered list is empty. |
| `JobsFilter.InheritedNamesAreNoBands` | frontend/src/components/Jobs.jsx:11-16 | No name inherited from `Object.prototype` is a salary-band key. |
| `JobsFilter.FilterEffectAsWritten` | frontend/src/components/Jobs.jsx:17-40 | The effect as written throws exactly when the query is truthy and is a name inherited from `Object.prototype`. An absent or empty query publishes all jobs. Any published list is an order-preserving subsequence of all jobs. |
| `JobsFilter.AsWrittenThrowsOnInheritedName` | frontend/src/components/Jobs.jsx:19-20 | As written, the effect throws for the query "constructor" instead of publishing a list. |
| `JobsFilter.InheritedNameIsSearchedAsText` | frontend/src/components/Jobs.jsx:26-35 | The corrected filter searches an inherited name such as "toString" as text. |
| `JobsFilter.AsWrittenAgreesElsewhere` | frontend/src/components/Jobs.jsx:17-40 | For every query that is not an inherited name, the effect as written publishes exactly the corrected filter's result. |
| `JobCard.DaysAgo` | frontend/src/components/Job.jsx:26-31 | The day count d is the floor: d·86400000 ≤ now − createdAt < (d+1)·86400000. |
| `JobCard.DaysAgoIsTheFloor` | frontend/src/components/Job.jsx:30 | Only one day count satisfies the floor bounds. |
| `JobCard.DaysAgoLabel` | frontend/src/components/Job.jsx:58 | The label is "Today" exactly when the day count is 0. Any other count n gives n in decimal followed by " days ago". |
| `JobCard.DaysAgoLabelReadsBack` | frontend/src/components/Job.jsx:58 | For a count other than 0, `parseInt` of the label gives the count back. |
| `JobCard.TodayWithinADay` | frontend/src/components/Job.jsx:26-31 | The label is "Today" exactly when the job was created less than a day ago, and not in the future. |
| `JobCard.SomeApplicant` | frontend/src/components/Job.jsx:18 | The check holds exactly when some application's applicant equals the given id. |
| `JobCard.IsInitiallyApplied` | frontend/src/components/Job.jsx:18 | The initial applied flag holds exactly when applications exist and one of them has the user's id as applicant. |
| `JobCard.NoUserNotApplied` | frontend/src/components/Job.jsx:18 | With no signed-in user, and every application naming an applicant, the card is not shown as applied. |
| `JobCard.AppendedApplicantFound` | frontend/src/components/Job.jsx:44 | After `{applicant: userId}` is appended, the membership check for userId holds. |
| `JobCard.WithApplication` | frontend/src/components/Job.jsx:42-45 | The updated job keeps its other fields and gains exactly one entry. Its earlier entries are unchanged, the new last entry is `{applicant: userId}`, and the membership check holds. |
| `JobCard.Card.constructor` | frontend/src/components/Job.jsx:18-21 | A new card takes the job's applications, the user id and `singleJob` as given. `isApplied` starts as `IsInitiallyApplied` of the applications and the user id. |
| `JobCard.Card.ApplyJobHandler` | frontend/src/components/Job.jsx:33-53 | A successful answer sets `isApplied` and replaces `singleJob` with the job plus one appended application. Any other outcome changes neither. The handler completes unless `singleJob` is missing after a success, or the request fails without a response. |
| `JobCard.Card.Click` | frontend/src/components/Job.jsx:86-87 | The button is disabled while applied, so a click reaches the handler exactly when not applied, and nothing changes while applied. A success sets `isApplied`, and appends the application to `singleJob` when it is there, leaving a missing `singleJob` missing. Any other outcome changes neither. |

## Findings

| source | as written | input that shows it | evidently intended | confidence | as-written member | corrected member |
|---|---|---|---|---|---|---|
| frontend/src/components/Jobs.jsx:19-20 | `searchedQuery in salaryRanges` is also true for names the object literal inherits from `Object.prototype`. `salaryRanges[searchedQuery]` is then a function or `Object.prototype`, which is not iterable, so `const [minSalary, maxSalary] = …` throws a TypeError inside the effect. | the searched query "constructor" (or "toString", "valueOf", …) | only the four own keys select a salary band, and every other query is searched as text | not executed; high | `JobsFilter.FilterEffectAsWritten`, shown by `JobsFilter.AsWrittenThrowsOnInheritedName` | `JobsFilter.FilterJobs`, proved by `JobsFilter.InheritedNameIsSearchedAsText` and `JobsFilter.AsWrittenAgreesElsewhere` |

## Left out

- UserController.Login: the clause about the role-mismatch message is stated for refusals only (`!r.success`). A success message starts with "Welcome back " and so never equals it, but the model does not prove that.
- JobCard.Card.Click: the handler runs as one atomic step. A second click while the first request is still pending, before `isApplied` is set, is not modelled.
- JSON Web Token signing and verification, and the signing secret: the token is its payload (user id and "1d"). No verification code is part of this model.
- bcrypt's algorithm, cost and timing: `Hasher` with the single law `Sound`. `Sound` is far weaker than a real hash (two passwords may share a digest).
- `getDataUri`, base64 encoding and the Cloudinary upload: an external service. Its answer is an input.
- Mongoose persistence and the user schema (defaults, a role enum, a unique index on email): the schema file is not part of this model. A new record's bio is taken as absent and its skills as empty.
- The catch-all 500 answers for database exceptions, including a malformed id passed to `findById`.
- The race between register's existence check and its insert: requests are modelled one at a time.
- The authentication middleware that sets `req.id`: the id is an input.
- Request-body values other than strings or absence (numbers, arrays, objects): fields are `Option<string>`.
- The `error` object echoed in updateProfile's failed-upload answer.
- Logging, toasts, navigation, Redux dispatch (modelled as replacing `singleJob`), React rendering and framer-motion.
- Dates: `new Date(...)` parsing and the clock. An invalid date, which would give "NaN days ago", is not modelled.
- Full Unicode `toLowerCase`: only ASCII capitals are lowered.
- `parseInt` of a salary stored as a number: the text the number turns into (exponent forms such as "1e+21") is not modelled, and neither is precision loss beyond 2^53. `salary` is the text `parseInt` receives.
- `Infinity` as a floating-point value: "no upper bound" stands for it.
- The mount effect at frontend/src/components/Job.jsx:23-25: it recomputes the same applied flag, and throws when `job.applications` is missing. The `Card` constructor gives the state after mounting.
- The first render of the jobs page, before the effect runs, shows all jobs (`useState(allJobs)`). Only the effect is modelled.
- A job whose title, description or location is missing makes the text search throw. The model has strings for all three.
- frontend/src/utils/constant.js: URL constants that depend on the environment, with no behaviour to verify.
