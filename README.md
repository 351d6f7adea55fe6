# Posyandu elder-health backend — a verified model

This project models the core of a REST backend for a *posyandu lansia*. That is an Indonesian community health post where staff keep records of elderly residents (*lansia*) and their periodic checkups (*pemeriksaan*). The backend has two kinds of staff accounts (`ADMIN` and `PETUGAS`). It signs staff in with a bearer token, and it serves:

- elders with a QR code that identifies each one;
- checkups with free-text measurements: blood pressure (`tekanan_darah`), weight (`berat_badan`), blood sugar (`gula_darah`) and cholesterol (`kolesterol`);
- dashboard reports: counts for the current month and for yesterday, average health metrics, a monthly trend, and a date-range report of checkups.

The model covers:

- the services of the five modules (`auth`, `users`, `lansia`, `pemeriksaan`, `laporan`);
- the request validation schemas of those modules;
- the authentication, role and error middlewares;
- the error hierarchy;
- the JSON response envelopes;
- the path handling and error wrapping of the QR helper.

How it is built:

- **The database** is the class `Store.Db`. It holds three tables in insertion order and keeps the schema's constraints as its `Valid()` invariant: unique ids, `nik` and `email`, and foreign keys from each checkup to its elder and its author. A write that breaks a constraint fails with the database client's error code (P2002, P2025 or P2003) and changes nothing.
- **Services** that change the database are methods on a `Db`. Each states the new tables as a function of the old ones, and lemmas about those functions say what the source promises. Services that only read are functions, or methods whose `ensures` ties the answer to a specification function.
- **Validation schemas** are data: a list of field chains of validators and sanitizers, interpreted by module `Validator`. The schema of each module is then proved to accept and refuse what its rules say.
- **Outside effects are parameters:** the clock, identifier generation, bcrypt hashing, JWT signing and verifying, the `validator` library's format checks, JavaScript `Date` parsing, `path.join`, and file-system and QR rendering calls. No function in the model is left without a body.

Time stamps are integers (milliseconds). Calendar arithmetic (module `Calendar`) works on the server's local time axis.

In `getDashboardStats` the month window is the whole current calendar month, so it also contains yesterday on every day except the first of a month (`Laporan.YesterdayCountedInMonth`).

## Model

Paths are relative to the repository root. A `Db` argument is the database as the service reads it; `old(...)` is the database before the call.

| member | source | states |
|---|---|---|
| Laporan.ParseTekananDarah | src/modules/laporan/laporan.service.ts:21-31 | A blood-pressure text with no `/`, or with more than one, gives no reading |
| Laporan.ParseTekananDarahAt | src/modules/laporan/laporan.service.ts:21-31 | With exactly one `/`, the reading is `parseInt` of each side, and it is null when either side is NaN |
| Laporan.ParseTekananDarahOfDigits | src/modules/laporan/laporan.service.ts:21-31 | `digits/digits` reads as the two decimal values |
| Laporan.ParseTekananDarahDigitsThen | src/modules/laporan/laporan.service.ts:25-26 | Text after the second number that holds no `/` and does not continue the number (it starts with neither a digit nor `x`) leaves the reading unchanged |
| Laporan.ParseTekananDarahTrailingText | src/modules/laporan/laporan.service.ts:25-30 | `"120/80mmHg"` reads as 120 over 80, because `parseInt` stops at the first non-digit |
| Laporan.ParseTekananDarahNeedsTwoParts | src/modules/laporan/laporan.service.ts:22-23 | A text without `/` (such as `""` or `"120"`) and one with two or more `/` give `null` |
| Laporan.ParseTekananDarahNaNPart | src/modules/laporan/laporan.service.ts:25-28 | A side without any digit is NaN, so the reading is `null` |
| Laporan.ParseTekananDarahNeedsNumbers | src/modules/laporan/laporan.service.ts:25-28 | `"abc/80"` and `"120/"` give `null` |
| Laporan.ParseReadingText | src/modules/laporan/laporan.service.ts:21-31 | A reading rendered as `"<systolic>/<diastolic>"` (negative values included) parses back to itself |
| Laporan.TallyCountsParsedValues | src/modules/laporan/laporan.service.ts:130-152 | After any prefix of the rows, each metric's count is the number of rows whose cell parses, and its sum adds exactly those values; a bad cell in one column does not affect the others |
| Laporan.AccumulateMetrics | src/modules/laporan/laporan.service.ts:122-152 | The `forEach` loop ends with each metric's count and sum equal to those of the values its own column parses to |
| Laporan.AllRowsParsed | src/modules/laporan/laporan.service.ts:130-152 | When every row's cell parses, every row counts, in row order |
| Laporan.MathRoundDiv | src/modules/laporan/laporan.service.ts:155-166 | `Math.round(sum / n)` is the integer within half of the mean, with halves rounded up |
| Laporan.MathRoundDivUnique | src/modules/laporan/laporan.service.ts:155-166 | Only one integer is within half of the mean, so that rounding has one answer |
| Laporan.Average | src/modules/laporan/laporan.service.ts:155-166 | An average is 0 when no value parsed; otherwise it is the rounded mean of the values that did parse (the denominator is the valid count, not the row count) |
| Laporan.AverageWithin | src/modules/laporan/laporan.service.ts:155-166 | The average of readings that all lie in `[lo, hi]` lies in `[lo, hi]` |
| Laporan.CountInWindowIsSelection | src/modules/laporan/laporan.service.ts:87-104 | A `count` over an inclusive `tanggal` range equals the number of rows a `findMany` with the same `where` lists |
| Laporan.CountInWindowBounds | src/modules/laporan/laporan.service.ts:87-104 | A count is at most the number of rows, and it is zero exactly when no row's date lies in the range |
| Laporan.CountInWindowMonotone | src/modules/laporan/laporan.service.ts:87-104 | A range inside another never counts more rows |
| Laporan.MonthLabelShape | src/modules/laporan/laporan.service.ts:212 | A label ends with a dash and two digits whose value is the month number 1..12 |
| Laporan.MonthLabelInjective | src/modules/laporan/laporan.service.ts:212 | Different months have different labels |
| Laporan.MonthCountInWindow | src/modules/laporan/laporan.service.ts:197-209 | A month's count is the count over that month's window, from its first millisecond to 23:59:59.999 on its last day |
| Laporan.TrendOfMonths | src/modules/laporan/laporan.service.ts:196-215 | Point `k` of the trend is the month `n - 1 - k` months before the current one, so the points run oldest first |
| Laporan.MonthPoint | src/modules/laporan/laporan.service.ts:197-214 | One loop iteration yields the month's label and its count |
| Laporan.GetMonthlyTrends | src/modules/laporan/laporan.service.ts:191-218 | `getMonthlyTrends(months)` returns exactly `months` points (none when `months` is not positive); point `k` is the label and count of the month `months - 1 - k` months back, ending with the current month |
| Laporan.TrendMonthsConsecutive | src/modules/laporan/laporan.service.ts:196-199 | Consecutive trend points cover consecutive months with no gap: each window ends one millisecond before the next starts |
| Laporan.TrendEndsAtNow | src/modules/laporan/laporan.service.ts:196-199 | The last trend point is the month that contains the current instant |
| Laporan.TrendLabelsDistinct | src/modules/laporan/laporan.service.ts:196-212 | No two points of a trend carry the same label |
| Laporan.GetDashboardStats | src/modules/laporan/laporan.service.ts:68-181 | The dashboard reports the number of elders and of `PETUGAS` accounts, and the checkup counts over the current month's window and over yesterday's. It reports each metric's rounded average over this month's cells that parse, rendered as `sys/dia` or as an integer, and a six-month trend ending with the current month |
| Laporan.YesterdayCountedInMonth | src/modules/laporan/laporan.service.ts:70-104 | Except on the first of a month, yesterday's count is part of this month's count, so the two windows are not disjoint |
| Laporan.WithLansia | src/modules/laporan/laporan.service.ts:255-263 | Each listed checkup is joined with the elder it belongs to, one item per row, in order |
| Laporan.GetPemeriksaanReport | src/modules/laporan/laporan.service.ts:228-278 | An elder named in the filter must exist, otherwise 404 `Lansia tidak ditemukan`. Otherwise the answer lists the matching checkups newest first with their elders, counts them, and echoes the requested range as sent |
| Laporan.ReportExact | src/modules/laporan/laporan.service.ts:234-263 | A checkup is in the report exactly when it is stored, its date lies in the inclusive range, and it belongs to the named elder when there is one |
| Laporan.RenderedReadingsParse | src/modules/laporan/laporan.service.ts:130-137 | Rows holding rendered readings parse back to exactly those readings, in order |
| Laporan.RenderedNumbersParse | src/modules/laporan/laporan.service.ts:139-151 | Rows holding rendered integers parse back to exactly those integers, in order |
| Laporan.SeedSums | prisma/seed.ts:128-252 | The sums of the ten seeded checkups' readings |
| Laporan.SeedRenderings | src/modules/laporan/laporan.service.ts:176-178 | The seeded sums render as `"136/87"`, `"130"` and `"214"` (the cholesterol mean 213.5 rounds up) |
| Laporan.SeedAverages | prisma/seed.ts:128-252 | A month holding exactly the seeded checkups has dashboard averages `"136/87"`, `"130"` and `"214"` |
| Calendar.DaysInMonth | src/modules/laporan/laporan.service.ts:43-45 | Day 0 of the next month is the last day of this one: a month has 28 to 31 days, and February has 29 exactly in a leap year |
| Calendar.YearLength | src/modules/laporan/laporan.service.ts:36-45 | The day count used for dates gives 366 days to a leap year and 365 to any other |
| Calendar.FromMonthIndex | src/modules/laporan/laporan.service.ts:197 | Every month index names one calendar month |
| Calendar.MonthIndexRoundTrip | src/modules/laporan/laporan.service.ts:197 | A month's index reads back as that month |
| Calendar.AddMonths | src/modules/laporan/laporan.service.ts:197 | `new Date(y, m - i, 1)` lands `i` months earlier: the month index moves by exactly `-i` |
| Calendar.AddMonthsCarry | src/modules/laporan/laporan.service.ts:197 | Month overflow carries into the year, and month underflow borrows from it |
| Calendar.PrevDay | src/modules/laporan/laporan.service.ts:73-74 | `setDate(getDate() - 1)` gives a valid date |
| Calendar.PrevDayNumber | src/modules/laporan/laporan.service.ts:73-74 | The day before is one day number earlier, also across a month or year boundary |
| Calendar.DayInMonthIff | src/modules/laporan/laporan.service.ts:36-45 | A day lies between a month's first and last day exactly when it is a day of that month |
| Calendar.InMonthWindowIff | src/modules/laporan/laporan.service.ts:36-45 | An instant is in a month's window exactly when it falls in that calendar month: 23:59:59.999 on the last day is in, and the first instant of the next month is out |
| Calendar.MonthWindowsAdjacent | src/modules/laporan/laporan.service.ts:36-45 | A month's window ends one millisecond before the next month's starts |
| Calendar.YesterdayAdjacent | src/modules/laporan/laporan.service.ts:50-59 | Yesterday's window ends one millisecond before today starts |
| Calendar.YesterdayVersusMonth | src/modules/laporan/laporan.service.ts:70-76 | Yesterday's window lies inside the current month's window unless today is the first of the month; on the first, it ends before the month starts |
| LansiaService.Matching | src/modules/lansia/lansia.service.ts:38-61 | The rows pages are cut from: exactly the elders whose `nama` or `nik` contains the search text, ignoring case (every elder when the search is absent or empty), each once, in the requested order |
| LansiaService.LansiaPage | src/modules/lansia/lansia.service.ts:36-61 | A page holds at most `limit` elders, all stored and matching the search, in the requested order |
| LansiaService.GetAllLansia | src/modules/lansia/lansia.service.ts:27-72 | `getAllLansia` answers the requested page of the matching elders, with defaults page 1, 10 per page, newest `createdAt` first. Its pagination echoes page and limit and gives the number of matches and `ceil(total / limit)` pages |
| LansiaService.MatchListedOnSomePage | src/modules/lansia/lansia.service.ts:36-70 | Every matching elder is on some page from 1 to `totalPages`: paging loses no row |
| LansiaService.History | src/modules/lansia/lansia.service.ts:86-91 | The history holds the elder's checkups newest first: all of them when fewer than ten, otherwise exactly ten |
| LansiaService.HistoryIsNewest | src/modules/lansia/lansia.service.ts:86-91 | A checkup of the elder left out of the history means the history is full and every checkup shown is at least as recent |
| LansiaService.WithAuthors | src/modules/lansia/lansia.service.ts:92-100 | Each history entry carries its checkup and the id, name, e-mail and role of the account that recorded it |
| LansiaService.GetLansiaById | src/modules/lansia/lansia.service.ts:83-111 | `getLansiaById` answers 404 `Lansia tidak ditemukan` for an unknown id; otherwise the stored elder with that id, its history and the history's authors |
| LansiaService.Created | src/modules/lansia/lansia.service.ts:138-147 | The created row has the new id and the sent `nik`, and no QR address yet |
| LansiaService.Stored | src/modules/lansia/lansia.service.ts:149-167 | The row `createLansia` leaves carries the generated QR address when generation succeeded, and none when it failed |
| LansiaService.CreateLansia | src/modules/lansia/lansia.service.ts:122-168 | `createLansia` refuses a taken NIK with 409 `NIK sudah terdaftar` and writes nothing. Otherwise it appends the new elder, with its QR address when the generator succeeded, and a generator failure does not undo the insert. No other table changes, and the schema's constraints still hold |
| LansiaService.CreatedQrCodeServed | src/modules/lansia/lansia.service.ts:150-159 | After a create whose generator gave a non-empty address, `getQRCodeUrl` for the new id answers that address |
| LansiaService.UpdateData | src/modules/lansia/lansia.service.ts:206-217 | The update writes name, NIK, address, illnesses and family contact as sent. It writes the birth date only when a non-empty one was sent, and never the QR address |
| LansiaService.UpdateLansia | src/modules/lansia/lansia.service.ts:181-226 | `updateLansia` answers 404 for an unknown id. A non-empty NIK that differs from the stored one and is held by another elder gives 409 `NIK sudah terdaftar`. An empty NIK skips that check but is still written, so the unique index refuses it (P2002) when another elder holds it. Otherwise only that row is replaced by its patched form. A refusal writes nothing |
| LansiaService.UpdateKeepsUnsentFields | src/modules/lansia/lansia.service.ts:205-223 | What an update writes to an elder: id, creation time and QR code address kept; each text field sent is written as sent and each left out is kept; the birth date changes only when a non-empty text is sent, to the date it parses to |
| LansiaService.SameNikNoConflict | src/modules/lansia/lansia.service.ts:195-203 | An update that leaves out the NIK, or repeats the stored one, never meets a NIK conflict |
| LansiaService.DeleteLansia | src/modules/lansia/lansia.service.ts:237-251 | `deleteLansia` answers 404 for an unknown id. Otherwise it removes the elder and, by cascade, every checkup of that elder, and nothing else |
| LansiaService.QrCodeUrl | src/modules/lansia/lansia.service.ts:262-280 | `getQRCodeUrl` answers 404 `Lansia tidak ditemukan`, 404 `QR Code tidak ditemukan`, or a non-empty address stored on the elder with that id |
| LansiaService.QrCodeUrlOfRow | src/modules/lansia/lansia.service.ts:271-279 | For each stored elder, the answer is its own address when one is stored, and 404 `QR Code` otherwise |
| LansiaService.GetQRCodeUrl | src/modules/lansia/lansia.service.ts:262-280 | The method answers what `QrCodeUrl` states for the current table |
| Queries.SelectCheckups | src/modules/pemeriksaan/pemeriksaan.service.ts:38-52 | A checkup `where` selects exactly the stored rows of the given elder within the inclusive bounds |
| Queries.NewestFirst | src/modules/pemeriksaan/pemeriksaan.service.ts:64-66 | `orderBy: { tanggal: 'desc' }`: the matching rows, each as often as stored, in non-increasing date order |
| Queries.NewestFirstExact | src/modules/pemeriksaan/pemeriksaan.service.ts:60-66 | A row is listed exactly when it is stored and matches |
| Queries.LansiaOrder | src/modules/lansia/lansia.service.ts:58-60 | Each accepted `sortBy`/`sortOrder` pair orders the elders totally, so a sorted list is well defined |
| Queries.SelectLansia | src/modules/lansia/lansia.service.ts:39-46 | An absent or empty search selects every elder; otherwise it selects exactly those whose `nama` or `nik` contains the text, ignoring case |
| PemeriksaanService.FilterWhere | src/modules/pemeriksaan/pemeriksaan.service.ts:38-52 | The elder filter and each date bound are present exactly when the client sent a non-empty text for them |
| PemeriksaanService.FilterMeaning | src/modules/pemeriksaan/pemeriksaan.service.ts:38-52 | A checkup is selected exactly when it belongs to the requested elder and lies within both requested inclusive bounds, each condition dropped when its text is absent or empty |
| PemeriksaanService.WithAuthor | src/modules/pemeriksaan/pemeriksaan.service.ts:67-78 | Each listed checkup carries its author's account without the password hash |
| PemeriksaanService.CheckupPage | src/modules/pemeriksaan/pemeriksaan.service.ts:35-66 | A page holds at most `limit` stored, matching checkups, newest first |
| PemeriksaanService.CheckupCount | src/modules/pemeriksaan/pemeriksaan.service.ts:55-57 | The total is the number of rows the same `where` lists |
| PemeriksaanService.GetAllPemeriksaan | src/modules/pemeriksaan/pemeriksaan.service.ts:26-90 | `getAllPemeriksaan` answers the requested page of matching checkups with their authors, and a pagination with the number of matches and `ceil(total / limit)` pages |
| PemeriksaanService.CheckupListedOnSomePage | src/modules/pemeriksaan/pemeriksaan.service.ts:55-88 | Every matching checkup is on some page from 1 to `totalPages` |
| PemeriksaanService.GetPemeriksaanById | src/modules/pemeriksaan/pemeriksaan.service.ts:101-124 | `getPemeriksaanById` answers 404 `Pemeriksaan tidak ditemukan` for an unknown id; otherwise the stored checkup, the elder it belongs to, and its author without the hash |
| PemeriksaanService.DetailOfRow | src/modules/pemeriksaan/pemeriksaan.service.ts:102-117 | With unique ids, the detail of a stored checkup shows that very row |
| PemeriksaanService.CreatedCheckup | src/modules/pemeriksaan/pemeriksaan.service.ts:140-169 | The created row has the sent elder and measurements, an absent complaint stored as `""`, and the caller as author |
| PemeriksaanService.CreatePemeriksaan | src/modules/pemeriksaan/pemeriksaan.service.ts:136-172 | `createPemeriksaan` answers 404 `Lansia tidak ditemukan` for an unknown elder. An unknown author is refused by the foreign key (P2003). Otherwise the checkup is appended with the caller as author. A refusal writes nothing |
| PemeriksaanService.UpdatePemeriksaan | src/modules/pemeriksaan/pemeriksaan.service.ts:184-211 | `updatePemeriksaan` answers 404 for an unknown id. Otherwise only that row changes: its five measurement and complaint columns take the sent values and everything else is kept |
| PemeriksaanService.UpdatedCheckupServed | src/modules/pemeriksaan/pemeriksaan.service.ts:197-208 | After an update the row is found by its id. Its elder, author and date are unchanged. Each of blood pressure, weight, blood sugar, cholesterol and complaint holds the sent value when sent and its old value otherwise |
| PemeriksaanService.DeletePemeriksaan | src/modules/pemeriksaan/pemeriksaan.service.ts:221-235 | `deletePemeriksaan` answers 404 for an unknown id; otherwise that row alone goes |
| PemeriksaanService.DeleteRemovesExactly | src/modules/pemeriksaan/pemeriksaan.service.ts:232-234 | Deleting by id removes exactly the row with that id and keeps every other row |
| UsersService.NewestUsers | src/modules/users/users.service.ts:29-34 | The account list is a permutation of the table, newest `createdAt` first |
| UsersService.Responses | src/modules/users/users.service.ts:35-43 | Each account is answered in its response form, without the password hash, in order |
| UsersService.UserPageRows | src/modules/users/users.service.ts:22-34 | A page holds at most `limit` stored accounts, newest first |
| UsersService.GetAllUsers | src/modules/users/users.service.ts:21-55 | `getAllUsers` answers the requested page without hashes, with defaults page 1 and 10 per page. Its pagination gives the number of accounts and `ceil(total / limit)` pages |
| UsersService.UserListedOnSomePage | src/modules/users/users.service.ts:22-34 | Every account is on some page from 1 to `totalPages` |
| UsersService.UserById | src/modules/users/users.service.ts:66-84 | The answer is 404 `User tidak ditemukan` exactly when no account has the id; otherwise it is the response form of a stored account with that id |
| UsersService.UserByIdOfRow | src/modules/users/users.service.ts:66-84 | With unique ids, each stored account's answer is its own response form |
| UsersService.GetUserById | src/modules/users/users.service.ts:66-84 | The method answers what `UserById` states for the current table |
| UsersService.CreatedUser | src/modules/users/users.service.ts:108-117 | The stored row holds the hash of the sent password, never the password itself |
| UsersService.CreateUser | src/modules/users/users.service.ts:95-129 | `createUser` refuses a taken e-mail with 409 `Email sudah terdaftar` and writes nothing. Otherwise it appends the account with its password hashed and answers it without the hash |
| UsersService.UserUpdateData | src/modules/users/users.service.ts:167-176 | The update writes name, e-mail and role as sent. It writes a password only when a non-empty one was sent, and then its hash |
| UsersService.UpdateUser | src/modules/users/users.service.ts:142-193 | `updateUser` answers 404 for an unknown id. A non-empty e-mail that differs from the stored one and is held by another account gives 409 `Email sudah terdaftar`. An empty e-mail skips the check but the unique index refuses it (P2002) when another account holds it. Otherwise only that row is replaced. A refusal writes nothing |
| UsersService.UpdateKeepsUnsentFields | src/modules/users/users.service.ts:166-176 | Fields not sent are kept. The stored hash changes only when a non-empty password is sent, and then to that password's hash |
| UsersService.SameEmailNoConflict | src/modules/users/users.service.ts:155-164 | An update that leaves out the e-mail, or repeats the stored one, never meets an e-mail conflict |
| UsersService.DeleteUser | src/modules/users/users.service.ts:203-218 | `deleteUser` answers 404 for an unknown id. An account that still authors a checkup is refused by the foreign key (P2003) and stays. Otherwise only that account goes |
| Store.Db.InsertLansia | src/modules/lansia/lansia.service.ts:138-147 | An insert is refused with P2002 on a taken id or NIK and then changes nothing; otherwise it appends the row |
| Store.Db.UpdateLansia | src/modules/lansia/lansia.service.ts:220-223 | An update of an unknown id is P2025, and one whose new NIK another elder holds is P2002; otherwise only that row is patched |
| Store.Db.DeleteLansia | src/modules/lansia/lansia.service.ts:248-250 | A delete of an unknown id is P2025; otherwise it removes the elder and cascades to its checkups |
| Store.Db.InsertUser | src/modules/users/users.service.ts:111-126 | An insert is refused with P2002 on a taken id or e-mail; otherwise it appends the row |
| Store.Db.UpdateUser | src/modules/users/users.service.ts:179-190 | An update of an unknown id is P2025, and one whose new e-mail another account holds is P2002; otherwise only that row is patched |
| Store.Db.DeleteUser | src/modules/users/users.service.ts:213-217 | A delete of an unknown id is P2025; it is refused with P2003 while a checkup names the account as author; otherwise the row goes |
| Store.Db.InsertCheckup | src/modules/pemeriksaan/pemeriksaan.service.ts:159-169 | An insert is refused with P2002 on a taken id and with P2003 on an unknown author or elder; otherwise it appends the row |
| Store.Db.UpdateCheckup | src/modules/pemeriksaan/pemeriksaan.service.ts:199-208 | An update of an unknown id is P2025; otherwise only that row's measurement columns are patched |
| Store.Db.DeleteCheckup | src/modules/pemeriksaan/pemeriksaan.service.ts:232-234 | A delete of an unknown id is P2025; otherwise that row alone goes |
| Records.PatchLansia | src/modules/lansia/lansia.service.ts:205-223 | An update keeps the id and creation time and stamps `updatedAt`. Each column sent in the request is written with the sent value, and each column left out keeps its stored value, the QR code address included |
| Records.PatchUser | src/modules/users/users.service.ts:166-190 | An update keeps the id and creation time and stamps `updatedAt`. Each of name, e-mail, password hash and role is written when sent and kept when left out |
| Records.PatchCheckup | src/modules/pemeriksaan/pemeriksaan.service.ts:197-208 | An update keeps the id, elder, author, date and creation time and stamps `updatedAt`. Each measurement and the complaint is written when sent and kept when left out |
| Validator.Validate | src/middleware/validation.middleware.ts:31-52 | the request passes exactly when no chain reports an error; otherwise a `ValidationError` with message "Validasi gagal" carrying the field errors |
| Validator.NoErrorsAllPass | src/middleware/validation.middleware.ts:37-42 | a chain that reports nothing passed every one of its validators, each on the value as the sanitizers before it left it |
| Validator.AllPassNoErrors | src/middleware/validation.middleware.ts:37-42 | conversely, steps whose validators all hold report nothing |
| Validator.SchemaChainsPass | src/middleware/validation.middleware.ts:37-42 | in a passing schema every chain passed on the request as the earlier chains left it |
| Validator.ChainsPassSchemaPasses | src/middleware/validation.middleware.ts:37-42 | conversely, when every chain passes on the request it sees, the schema passes |
| Validator.FailingFieldReported | src/middleware/validation.middleware.ts:45-51 | a validator that fails on the client's (sanitized) value puts its own message for that field into the `ValidationError` |
| Validator.FailingCustomReported | src/middleware/validation.middleware.ts:45-51 | a custom validator that throws puts its thrown message for that field into the `ValidationError` |
| Validator.LetterAndDigitIff | src/modules/users/users.validation.ts:35 | the password pattern `^(?=.*[A-Za-z])(?=.*\d)` holds exactly when a letter and a digit both come before the first line break |
| Validator.SpanDaysWithin | src/modules/laporan/laporan.validation.ts:38-43 | the rounded-up day count of a range is at most 365 exactly when the range is at most 365 × 86 400 000 ms |
| Validator.ReportRangeBoundary | src/modules/laporan/laporan.validation.ts:27-46 | once both dates parse: an end before the start throws the order message; otherwise the span message is thrown exactly when the end is more than 365 days after the start |
| Validator.ParseIntOfIntText | src/modules/users/users.validation.ts:82-92 | a text accepted by `isInt` is read back by `toInt()`/`parseInt` as the number it denotes |
| Validator.ToIntOfIntText | src/modules/users/users.validation.ts:82-92 | `toInt()` of an accepted integer text renders its value, which `parseInt` reads back unchanged |
| Validator.DigitsParse | src/modules/pemeriksaan/pemeriksaan.validation.ts:38-50 | a text matching `^\d+$` is read whole by `parseInt` as a non-negative number |
| Validator.DigitsSlashDigitsSplit | src/modules/pemeriksaan/pemeriksaan.validation.ts:24-29 | a text matching `^\d+\/\d+$` is two digit runs around its only slash |
| AuthValidation.LoginAccepted | src/modules/auth/auth.validation.ts:15-27 | an accepted login body holds an email that `isEmail` accepts once trimmed, now normalized, and a non-empty password passed on unchanged |
| AuthValidation.LoginEmailReported | src/modules/auth/auth.validation.ts:16-22 | a missing or blank email is reported as "Email wajib diisi"; one `isEmail` refuses as "Format email tidak valid" |
| AuthValidation.LoginNeedsPassword | src/modules/auth/auth.validation.ts:24-26 | an empty or missing password is reported as "Password wajib diisi" |
| AuthValidation.LoginPasswordNotTrimmed | src/modules/auth/auth.validation.ts:24-26 | the password chain has no `trim()`: any non-empty password, white space only included, passes with no error and reaches the service as sent |
| UsersValidation.CreateUserAccepted | src/modules/users/users.validation.ts:15-44 | an accepted body (also the register body, auth.validation.ts 33-62) holds a trimmed name of 3+ characters, a valid normalized email, a password of 8+ characters with a letter and a digit, and a role ADMIN or PETUGAS |
| UsersValidation.NamaAccepted | src/modules/users/users.validation.ts:16-21 | in any passing schema with this chain the name was sent and its trimmed text, now in the request, has 3+ characters |
| UsersValidation.EmailAccepted | src/modules/users/users.validation.ts:23-29 | in any passing schema with this chain the email was sent, `isEmail` held on its trimmed text, and the request holds the normalized form |
| UsersValidation.EmailReported | src/modules/users/users.validation.ts:23-29 | a blank or missing email is reported as "Email wajib diisi"; one `isEmail` refuses as "Format email tidak valid" |
| UsersValidation.PasswordAccepted | src/modules/users/users.validation.ts:31-37 | in any passing schema with this chain the password was sent unchanged and is strong (8+ characters, a letter and a digit) |
| UsersValidation.RoleAccepted | src/modules/users/users.validation.ts:39-43 | in any passing schema with this chain the role is ADMIN or PETUGAS |
| UsersValidation.CreateUserRejectsShortPassword | src/modules/users/users.validation.ts:31-35 | a password shorter than 8 characters is reported as "Password minimal 8 karakter" |
| UsersValidation.CreateUserRejectsPlainPassword | src/modules/users/users.validation.ts:35-37 | a password without a letter and a digit before its first line break is reported as "Password harus mengandung huruf dan angka" |
| UsersValidation.CreateUserRejectsRole | src/modules/users/users.validation.ts:39-43 | a role other than ADMIN or PETUGAS is reported as "Role harus ADMIN atau PETUGAS" |
| UsersValidation.UpdateUserAccepted | src/modules/users/users.validation.ts:50-75 | in an accepted update body each field that was sent meets the create rule for it (trimmed name 3+, valid normalized email, strong password, known role) |
| UsersValidation.NewNamaAccepted | src/modules/users/users.validation.ts:51-55 | a name sent in an update is trimmed and has 3+ characters |
| UsersValidation.NewEmailAccepted | src/modules/users/users.validation.ts:57-62 | an email sent in an update is valid once trimmed and stored normalized |
| UsersValidation.NewPasswordAccepted | src/modules/users/users.validation.ts:64-69 | a password sent in an update is strong and passed on unchanged |
| UsersValidation.NewRoleAccepted | src/modules/users/users.validation.ts:71-74 | a role sent in an update is ADMIN or PETUGAS |
| PaginationValidation.PagingFields | src/modules/users/users.validation.ts:81-93 | in a passing query a page sent is an integer text ≥ 1 and a limit sent one in 1..100, each now rendered as a number `parseInt` reads back |
| PaginationValidation.PagingRejected | src/modules/users/users.validation.ts:81-93 | a page or limit outside those bounds is reported with its own message |
| PaginationValidation.PaginationDecides | src/modules/users/users.validation.ts:81-93 | the pagination schema accepts a query exactly when page and limit are each absent or an integer text within bounds |
| LansiaValidation.CreateLansiaAccepted | src/modules/lansia/lansia.validation.ts:14-61 | an accepted body holds trimmed texts for name (3+), NIK (16 digits), address (10+), illness (non-empty) and family contact (phone characters), and an ISO 8601 birth date not after the clock |
| LansiaValidation.BirthDateField | src/modules/lansia/lansia.validation.ts:29-41 | the birth date of a passing schema was sent, is ISO 8601, is left as sent and is not in the future when it parses |
| LansiaValidation.CreateLansiaRejectsFutureBirth | src/modules/lansia/lansia.validation.ts:33-40 | a birth date after the clock is reported as "Tanggal lahir tidak boleh di masa depan" |
| LansiaValidation.CreateLansiaNeedsNik | src/modules/lansia/lansia.validation.ts:22-25 | a missing or blank NIK is reported as "NIK wajib diisi" |
| LansiaValidation.CreateLansiaRejectsNik | src/modules/lansia/lansia.validation.ts:22-27 | a NIK that is not 16 digits once trimmed is reported as "NIK harus berupa 16 digit angka" |
| LansiaValidation.UpdateLansiaAccepted | src/modules/lansia/lansia.validation.ts:67-110 | in an accepted update body each field that was sent meets the create rule for it |
| LansiaValidation.OptionalBirthDateField | src/modules/lansia/lansia.validation.ts:80-91 | a birth date sent in an update is ISO 8601, left as sent, and not in the future when it parses |
| LansiaValidation.LansiaFilterAccepted | src/modules/lansia/lansia.validation.ts:116-144 | an accepted list query has page and limit within bounds, a non-empty trimmed search, sortBy nama or createdAt and sortOrder asc or desc, for each one that was sent |
| LansiaValidation.OneOfField | src/modules/lansia/lansia.validation.ts:135-143 | a field checked only by `isIn` is, when sent, one of its options and left as sent |
| PemeriksaanValidation.AcceptedReadingParses | src/modules/pemeriksaan/pemeriksaan.validation.ts:24-29 | every blood-pressure text the format check lets through is read by the dashboard's parser as two non-negative numbers |
| PemeriksaanValidation.AcceptedNumberParses | src/modules/pemeriksaan/pemeriksaan.validation.ts:38-50 | every glucose or cholesterol text the format check lets through is read by `parseInt` as a non-negative number |
| PemeriksaanValidation.CreateAccepted | src/modules/pemeriksaan/pemeriksaan.validation.ts:16-55 | an accepted body holds a UUID resident id, a readable blood pressure, a decimal weight and readable glucose and cholesterol values |
| PemeriksaanValidation.CreateNeedsTekananDarah | src/modules/pemeriksaan/pemeriksaan.validation.ts:24-27 | a missing or blank blood pressure is reported as "Tekanan darah wajib diisi" |
| PemeriksaanValidation.CreateRejectsReading | src/modules/pemeriksaan/pemeriksaan.validation.ts:24-29 | a blood pressure not of the form digits/digits is reported with the format message |
| PemeriksaanValidation.UpdateAccepted | src/modules/pemeriksaan/pemeriksaan.validation.ts:61-89 | in an accepted update body each reading that was sent is readable as on create |
| PemeriksaanValidation.FilterPaging | src/modules/pemeriksaan/pemeriksaan.validation.ts:96-106 | a passing filter query's page is ≥ 1 and limit in 1..100, as numbers, when sent |
| PemeriksaanValidation.FilterDateOrder | src/modules/pemeriksaan/pemeriksaan.validation.ts:114-132 | when a passing filter query carries both dates and both parse, the start is not after the end |
| PemeriksaanValidation.EndDateOrder | src/modules/pemeriksaan/pemeriksaan.validation.ts:119-132 | the same for any passing schema whose endDate chain carries that custom check after startDate is left unsanitized |
| PemeriksaanValidation.FilterRejectsReversed | src/modules/pemeriksaan/pemeriksaan.validation.ts:123-131 | conversely, when both dates parse, an end before the start is reported as "endDate tidak boleh lebih awal dari startDate" |
| LaporanValidation.ReportAccepted | src/modules/laporan/laporan.validation.ts:15-53 | an accepted report query holds both dates as sent, each ISO 8601; when both parse, the end is not before the start and at most 365 days after it |
| LaporanValidation.DateFields | src/modules/laporan/laporan.validation.ts:16-46 | the same for any passing schema opening with those two date chains |
| LaporanValidation.ReportNeedsStartDate | src/modules/laporan/laporan.validation.ts:16-18 | a missing or empty startDate is reported as "startDate wajib diisi" |
| LaporanValidation.ReportNeedsEndDate | src/modules/laporan/laporan.validation.ts:22-24 | a missing or empty endDate is reported as "endDate wajib diisi" |
| LaporanValidation.ReportRejectsRange | src/modules/laporan/laporan.validation.ts:27-46 | a reversed range is reported as "endDate tidak boleh lebih awal dari startDate", a range longer than 365 days as "Rentang tanggal maksimal 1 tahun" |
| LaporanValidation.ReportRangeDecides | src/modules/laporan/laporan.validation.ts:27-46 | for well-formed parsing dates and a valid resident id, the query passes exactly when start ≤ end ≤ start + 365 days |
| AuthService.PayloadOf | src/modules/auth/auth.service.ts:46-50 | the signed claims are the account's id, e-mail and role |
| AuthService.Login | src/modules/auth/auth.service.ts:24-64 | `login` succeeds exactly when an account has the e-mail and the password check accepts its hash; the token is signed over that account's id, e-mail and role; every failure is the same 401 |
| AuthService.LoginOfRow | src/modules/auth/auth.service.ts:24-64 | with unique e-mails, signing in as a stored account yields its token and its hash-free record exactly when the password matches, and the 401 otherwise |
| AuthService.LoginFailuresIndistinguishable | src/modules/auth/auth.service.ts:34-43 | an unknown e-mail and a wrong password produce the identical error |
| AuthService.Register | src/modules/auth/auth.service.ts:76-110 | a taken e-mail is a 409 and changes nothing; otherwise the account is appended with the hashed password and answered without the hash, and the other tables are untouched; the store stays valid |
| AuthService.LoginAfterRegister | src/modules/auth/auth.service.ts:24-110 | an account just registered can sign in with its e-mail and password, receiving a token over its new id, e-mail and role, whenever the hash check accepts the hash of that password |
| AuthService.GetCurrentUser | src/modules/auth/auth.service.ts:119-136 | the account the token names, without its hash, or 404 exactly when no account has that id |
| AuthMiddleware.BearerToken | src/middleware/auth.middleware.ts:30-40 | a missing or empty header is refused as a missing token; otherwise a header is accepted exactly as `Bearer`, one space and a token without spaces, and anything else is a malformed-header 401 |
| AuthMiddleware.AuthCatch | src/middleware/auth.middleware.ts:56-70 | an expired or malformed token becomes the token-rejected 401, the middleware's own 401 passes unchanged, any other failure becomes the generic authentication 401 |
| AuthMiddleware.UserOf | src/middleware/auth.middleware.ts:48-52 | `req.user` carries the verified claims' id, e-mail and role |
| AuthMiddleware.Authenticate | src/middleware/auth.middleware.ts:23-71 | every refusal of `authMiddleware` is a well-formed 401 |
| AuthMiddleware.HeaderErrorsPassThrough | src/middleware/auth.middleware.ts:30-40 | a header refused by the format checks reaches `next` with exactly that error |
| AuthMiddleware.WellFormedHeader | src/middleware/auth.middleware.ts:37-70 | for `Bearer <token>` the verdict is the token library's: its claims on success, its failure mapped by the catch block |
| AuthMiddleware.AcceptedHeader | src/middleware/auth.middleware.ts:23-71 | conversely, an admitted request carried `Bearer `, a space-free token the library verified, and `req.user` holds its claims |
| AuthMiddleware.LibraryFailures | src/middleware/auth.middleware.ts:56-70 | expired and malformed tokens are each answered with the token-rejected 401, any other library failure with the generic one |
| AuthMiddleware.AcceptedShape | src/middleware/auth.middleware.ts:37-40 | an accepted raw header starts with `Bearer ` and has no space after it |
| AuthMiddleware.DoubleSpaceRefused | src/middleware/auth.middleware.ts:37-40 | `Bearer  x` (two spaces) is refused as malformed |
| AuthMiddleware.LowerCaseSchemeRefused | src/middleware/auth.middleware.ts:37-40 | `bearer x` is refused as malformed: the scheme is case-sensitive |
| AuthMiddleware.MissingTokenRefused | src/middleware/auth.middleware.ts:30-40 | `Bearer` alone is malformed; an empty or absent header is a missing token |
| RoleMiddleware.RoleCheck | src/middleware/role.middleware.ts:31-51 | the request passes exactly when there is a user whose role is allowed; no user is a 401, a role not allowed a 403 |
| RoleMiddleware.AdminOnlyAdmits | src/middleware/role.middleware.ts:60 | `adminOnly` admits exactly administrators and answers staff with 403 |
| RoleMiddleware.AuthenticatedAdmitsEveryone | src/middleware/role.middleware.ts:69 | `authenticated` admits exactly the requests that carry a user |
| RoleMiddleware.RoleCheckMonotone | src/middleware/role.middleware.ts:31-51 | allowing more roles never refuses a request a shorter list admits |
| RoleMiddleware.ChainedAfterAuthentication | src/middleware/role.middleware.ts:31-51 | after `authMiddleware` accepted a token, the route admits the request exactly when the token's role is allowed |
| ErrorMiddleware.FieldName | src/middleware/error.middleware.ts:29-30 | the first column of the P2002 target, or `field` when the target is missing |
| ErrorMiddleware.HandlePrismaError | src/middleware/error.middleware.ts:25-53 | P2002 is a 409 naming the column, P2025 a 404 for `Data`, P2003 the still-referenced 409, a validation error a 400 with one `unknown` field, any other database error a 500 |
| ErrorMiddleware.Resolve | src/middleware/error.middleware.ts:68-88 | an application error is answered as it is, a database error through `handlePrismaError`, anything else as a 500 carrying the thrown message outside production and the generic message in production |
| ErrorMiddleware.ErrorsOf | src/middleware/error.middleware.ts:111 | the field errors are attached exactly for a `ValidationError` |
| ErrorMiddleware.ErrorHandler | src/middleware/error.middleware.ts:62-117 | the status is the resolved error's; the body is a failure envelope with its message and the request path, carrying field errors exactly for validation failures |
| ErrorMiddleware.NotFoundHandler | src/middleware/error.middleware.ts:127-133 | every unknown route becomes a 404 whose message names the method and the path |
| ErrorMiddleware.StatusesSeen | src/middleware/error.middleware.ts:62-117 | a client only ever sees 400, 401, 403, 404, 409 or 500, and 500 exactly for non-operational errors |
| ErrorMiddleware.StoreErrorsAnswered | src/middleware/error.middleware.ts:28-42 | a duplicate column, a missing row and a still-referenced row each reach the client with their own status and message |
| ErrorMiddleware.ProductionHidesMessages | src/middleware/error.middleware.ts:82-88 | in production an unexpected error's message never reaches the client; outside production it does |
| ErrorMiddleware.NonErrorAnswered | src/middleware/error.middleware.ts:82-88 | a thrown value that is not an `Error` has no message, so the generic 500 message is sent even outside production |
| ErrorMiddleware.QueryValidationAnswered | src/middleware/error.middleware.ts:45-49 | a malformed query is a 400 whose errors name one `unknown` field |
| ErrorMiddleware.UnknownRouteAnswered | src/middleware/error.middleware.ts:127-133 | an unknown route passed on to the handler answers 404 with its own description and no field errors |
| ErrorMiddleware.EmptyTargetMessage | src/middleware/error.middleware.ts:29-31 | an empty P2002 target reaches the client as `undefined sudah terdaftar` |
| Errors.NewAppError | src/utils/errors.ts:17-37 | an `AppError` keeps its status and message and is operational unless told otherwise |
| Errors.ValidationError | src/utils/errors.ts:50-58 | a 400, operational, with its message and its field errors |
| Errors.UnauthorizedError | src/utils/errors.ts:69-74 | a 401 with its message, `Unauthorized` by default |
| Errors.ForbiddenError | src/utils/errors.ts:85-90 | a 403 with its message, `Akses ditolak` by default |
| Errors.NotFoundError | src/utils/errors.ts:102-107 | a 404 whose message is the resource followed by `tidak ditemukan` |
| Errors.ConflictError | src/utils/errors.ts:118-123 | a 409 with its message |
| Errors.InternalServerError | src/utils/errors.ts:134-139 | a 500, the only non-operational class, with the generic server message by default |
| Errors.BadRequestError | src/utils/errors.ts:150-155 | a 400 with its message |
| Errors.NotFoundMessageInjective | src/utils/errors.ts:102-107 | distinct resources give distinct not-found messages |
| Errors.MessageOf | src/middleware/error.middleware.ts:82-88 | a thrown value has a message exactly when it is an `Error` |
| Response.SuccessResponse | src/utils/response.util.ts:41-53 | a success envelope carrying the message, data, path and time stamp given, and no field errors |
| Response.ErrorResponse | src/utils/response.util.ts:66-78 | a failure envelope carrying the message, field errors, path and time stamp given, and no data |
| Response.PaginationOf | src/utils/response.util.ts:93-124 | the pagination block echoes page, limit and total, and `totalPages` is the least page count covering the total |
| Response.PaginatedResponse | src/utils/response.util.ts:93-124 | a success envelope whose data is the rows and their pagination block, with the default message when none is given |
| Paging.CeilDiv | src/utils/response.util.ts:108 | `Math.ceil(total / limit)`: the least number of pages of `limit` rows that holds `total` rows, zero exactly for no rows |
| Paging.Window | src/modules/lansia/lansia.service.ts:56-57 | `skip`/`take` yields at most `take` rows, namely the rows from position `skip` on, in order |
| Paging.RowOnPage | src/modules/lansia/lansia.service.ts:36 | each row position lies on page `i / limit + 1`, which exists and whose skip window contains it |
| Paging.LastPageNonEmpty | src/modules/lansia/lansia.service.ts:36-69 | the last page `ceil(total / limit)` holds a row and the page after it none |
| Paging.RowListedOnPage | src/modules/lansia/lansia.service.ts:36-57 | row `i` of the ordered result is shown on page `i / limit + 1`, at position `i - skip` |
| Paging.ListedOnSomePage | src/modules/lansia/lansia.service.ts:36-69 | every row of the result is on some page between 1 and `totalPages` |
| Paging.WindowOf | src/modules/lansia/lansia.service.ts:56-60 | a page holds rows of the result only, in the result's order |
| Store.UniqueViolation | src/middleware/error.middleware.ts:28-32 | a duplicate key is the P2002 error naming its column |
| Store.RecordNotFound | src/middleware/error.middleware.ts:35-37 | a missing row is the P2025 error |
| Store.ForeignKeyViolation | src/middleware/error.middleware.ts:40-42 | a refused foreign key is the P2003 error |
| QrCode.ForwardSlashes | src/utils/qrcode.util.ts:59 | every backslash becomes a forward slash and every other character stays in place |
| QrCode.DropLeadingDot | src/utils/qrcode.util.ts:59 | one leading dot is dropped, and nothing else changes |
| QrCode.RelativePath | src/utils/qrcode.util.ts:59 | the stored address has no backslash, loses exactly one character when the path starts with a dot, and otherwise keeps every character in order |
| QrCode.ForwardSlashesKeep | src/utils/qrcode.util.ts:59 | a path without backslashes is left alone |
| QrCode.DotPathBecomesRooted | src/utils/qrcode.util.ts:57-60 | `./uploads/qr/x.png` becomes `/uploads/qr/x.png` |
| QrCode.SeparatorsDoNotMatter | src/utils/qrcode.util.ts:59 | Windows and forward separators give one address |
| QrCode.RelativePathOnce | src/utils/qrcode.util.ts:59 | only the first dot goes (`../x` becomes `./x`); an address not starting with a dot is a fixed point |
| QrCode.Reason | src/utils/qrcode.util.ts:62 | the error's message, or `Unknown error` for a thrown value that is not an `Error` |
| QrCode.GenerateQRCode | src/utils/qrcode.util.ts:37-64 | succeeds exactly when writing the image succeeds, answering the relative address; otherwise a plain error with the generation prefix and the reason |
| QrCode.GenerateFailureMessage | src/utils/qrcode.util.ts:61-63 | every failure's message starts with `Failed to generate QR Code: ` |
| QrCode.QrDir | src/utils/qrcode.util.ts:79 | the configured directory when set and non-empty, `./uploads/qr` otherwise |
| QrCode.GenerateLansiaQRCode | src/utils/qrcode.util.ts:78-82 | the elder's id is encoded into `<dir>/<id>.png`; a successful address has no backslash |
| QrCode.StoredQrAddressUsesSlashes | src/modules/lansia/lansia.service.ts:149-167 | an elder created with this generator never stores an address containing a backslash |
| QrCode.DeleteQRCode | src/utils/qrcode.util.ts:101-109 | a missing file is no error; the call fails exactly when the file exists and its removal fails, with the deletion prefix and the reason |
| JsNumber.ParseIntDigitsThen | src/modules/laporan/laporan.service.ts:25-26 | `parseInt` of a digit run followed by anything not a digit is the value of that run: trailing text is ignored |
| JsNumber.ParseIntNoDigit | src/modules/laporan/laporan.service.ts:25-28 | `parseInt` of a text without any digit is NaN |
| JsNumber.ParseIntOfIntToString | src/modules/laporan/laporan.service.ts:176-178 | an integer rendered as a decimal string is read back by `parseInt` as the same integer |
| JsString.Split | src/modules/laporan/laporan.service.ts:22 | `split('/')` gives one part more than there are slashes, none containing a slash, and the parts joined by slashes give the text back |
| JsString.ContainsIff | src/modules/lansia/lansia.service.ts:39-46 | `contains` holds exactly when the search text occurs at some position |
| Sorting.SortBy | src/modules/lansia/lansia.service.ts:58-60 | the ordered result is sorted by the requested order and is a permutation of the rows |
| Validator.SpanDays | src/modules/laporan/laporan.validation.ts:38-39 | `Math.ceil(diff / msPerDay)`: the least number of whole days covering the difference |

## Left out

- Prisma and the database server are replaced by the `Store.Db` tables. Transactions, connection handling and concurrent requests are not modelled. In particular, the race between a service's uniqueness check and its insert is not modelled. The store's own P2002 answer for that case is modelled (`Store.Db.InsertLansia`, `Store.Db.InsertUser`).
- Foreign calls are parameters of the members that use them, so their results are whatever the caller supplies:
  - bcrypt `hash`/`compare` (src/utils/password.util.ts);
  - jsonwebtoken `sign`/`verify` (src/utils/jwt.util.ts);
  - the validator.js predicates `isEmail`, `isUUID`, `isISO8601` and the `normalizeEmail` sanitizer;
  - `new Date(text)` parsing and the clock;
  - `path.join`, `fs.existsSync`/`unlinkSync`, and rendering the QR image;
  - fresh uuids for new rows.
- The wall clock is a `now` argument. `getDashboardStats` and `getMonthlyTrends` each read the clock; the model gives both calls the same instant. The local time zone and daylight saving are not modelled: time stamps are milliseconds on the local calendar axis.
- JavaScript number limits are not modelled. Integers are unbounded, so digit strings beyond 2^53 are read exactly. The `-0` rendering quirk is not modelled either.
- LansiaService.GetAllLansia: requires page ≥ 1 and limit ≥ 1. The query validators and the controller defaults guarantee both. With a limit of 0 the source would compute `Infinity`/`NaN` page counts.
- LansiaService.LansiaPage: requires page ≥ 1 and limit ≥ 1, as for `GetAllLansia`.
- PemeriksaanService.GetAllPemeriksaan: requires page ≥ 1 and limit ≥ 1, as for `GetAllLansia`.
- PemeriksaanService.CheckupPage: requires page ≥ 1 and limit ≥ 1, as for `GetAllLansia`.
- UsersService.GetAllUsers: requires page ≥ 1 and limit ≥ 1, as for `GetAllLansia`.
- UsersService.UserPageRows: requires page ≥ 1 and limit ≥ 1, as for `GetAllLansia`.
- Response.PaginationOf: requires limit > 0. This covers the division `Math.ceil(total / limit)`, and every caller passes a validated limit.
- Response.PaginatedResponse: requires limit > 0, as for `PaginationOf`.
- ErrorMiddleware.HandlePrismaError: the P2002 `meta.target` is modelled as an optional list of column names. A target of any other shape is not modelled: Prisma can report a constraint name as a string, and `field[0]` would then be its first letter.
- ErrorMiddleware.Resolve: a thrown value that is not an `Error` is one case, `NonError`, with no message. A thrown `null` or `undefined`, on which `err.message` would itself throw, is not distinguished.
- Console logging in the error handler and the services is not modelled. Neither are the logger and rate-limit middlewares, whose behaviour is library configuration.
- The controllers, routes, `src/app.ts`, `src/server.ts`, `api/index.ts` and the JWT-secret script are HTTP and process glue and are not part of this model. The lansia controller's QR handler calls a service function that does not exist; the service's `getQRCodeUrl` is modelled instead (`LansiaService.GetQRCodeUrl`).
- Supabase storage (`src/config/supabase.ts`, `scripts/setup-supabase-storage.ts`) is not part of this model. Neither is where the QR image bytes end up: only the address `generateQRCode` returns is modelled.
- `prisma/seed.ts` is an I/O script. Only its ten checkups are used, as a concrete vector for the dashboard averages (`Laporan.SeedAverages`).
- express-validator's own chain machinery is modelled by `Validator` only as far as the schemas use it. The model covers `trim`, `notEmpty`, `isLength`, `isEmail`, `normalizeEmail`, `isInt` with bounds, `toInt`, `matches`, `isIn`, `isUUID`, `isISO8601`, `optional` and `custom`. Regular expressions are the schemas' fixed patterns, not a general engine.
- Queries.LansiaOrder: equal values of the sort column are ordered by a stable sort, that is, in table insertion order. PostgreSQL promises no order among rows whose sort keys tie, and may order them differently from one query to the next.
- Queries.LexLessEq: text columns are compared by Unicode code point. PostgreSQL compares text by the database's collation, which is usually locale-aware, so `nama` ordering can differ from the model's.
- LansiaService.MatchListedOnSomePage: the proof that paging loses no row rests on the stable, code-point order above. Against the database, where ties may be ordered differently by each page query, a row with a tied sort key may be skipped or repeated across pages. The model does not capture that.
- PemeriksaanService.CheckupListedOnSomePage: rests on the stable order, as for `LansiaService.MatchListedOnSomePage`. Checkups with the same `tanggal` may be skipped or repeated across pages under the database.
- UsersService.UserListedOnSomePage: rests on the stable order, as for `LansiaService.MatchListedOnSomePage`. Accounts with the same `createdAt` may be skipped or repeated across pages under the database.
- LansiaService.Matching: its order among tied sort keys and its collation follow `Queries.LansiaOrder` and `Queries.LexLessEq`. Its case folding is ASCII-only, as for `Queries.SelectLansia`.
- Queries.SelectLansia: case-insensitive search (`mode: 'insensitive'`, PostgreSQL `ILIKE`) is modelled by lower-casing the ASCII letters A to Z only. `ILIKE` folds by the database's locale, so a search for `é` matches `É` there and not in the model.
- Validator.Validate: a request field is a text value (`Validator.Fields` maps names to strings). Numbers, booleans, `null`, arrays and nested objects in a request body are not representable. express-validator turns them to text or applies a chain to each element of an array, and neither is modelled.
- Validator.RuleHolds: `isLength` (`MinLength`) counts every character of the string. The `validator` library leaves the variation selectors U+FE0E and U+FE0F out of the count; that exclusion is not modelled.
