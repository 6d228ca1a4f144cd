# VetiCare API core, modelled in Dafny

VetiCare is a veterinary clinic back end written in Go. Owners, veterinarians and administrators register, and appointments are booked, updated, cancelled and reactivated. This project models the core of that service:

- **Appointment validation** (`validators/appointmentValidator.go`): the twelve ordered checks a booking request goes through. These are the pet and vet UUIDs, a `DD-MM-YYYY` date, an `HH:MM` time, "not in the past", the status, non-negative weight and temperature, and byte-length caps on the free-text fields.
- **Appointment store** (`repositories/appointmentRepository.go`): a class whose `table` field maps appointment ids to records. A second field, `pets`, maps each pet to its owner. Writes are methods and read queries are functions.
  - `Delete` does not remove a record. It toggles the status: 1 becomes 2 and anything else becomes 1.
- **Appointment service** (`services/appointmentService.go`): holds the store and forwards to it. `DeleteAppointment` turns the new status into a "reactivated" or "cancelled" message.
- **Field validators** (`validators/validator.go`, `userValidator.go`, `adminValidator.go`):
  - the name, DUI, phone and e-mail regular expressions, written out as predicates;
  - the password and username length rules and the admin type rule;
  - the ordered first-failure composites for users and administrators.
- **User entity and DTO** (`entities/user.go`, `entities/dto/userDto.go`):
  - `BeforeCreate` assigns an id only when the user has none;
  - `ToUserDTO` copies the public fields, never the password hash.

The library behaviour this code relies on is modelled in supporting modules:
- `GoTime` covers Go's `time.Parse` for the layouts used here, `Format` for `02-01-2006`, and `Time.Before`.
- `Uuid` covers `uuid.Parse` and `UUID.String` for the canonical 36-character form.
- `Text` covers Go's `len` as a UTF-8 byte count.
- `Outcomes` gives a Go `error` result as `Pass | Fail(e)` and defines the "first failing check" combinator that every composite validator uses.

The current time is a parameter `now`. The value of `uuid.New()` is a parameter `generated`, which is never the nil UUID.

## Model

| member | source | states |
|---|---|---|
| Outcomes.Remap | validators/appointmentValidator.go:106-111 | a check replaced by a fixed error passes exactly when the original passes, and otherwise fails with that error |
| Outcomes.FirstFailure | validators/appointmentValidator.go:105-143 | an ordered chain of early-return checks passes iff every check passes; otherwise it returns the error of a check all of whose predecessors passed |
| Outcomes.FirstFailureIsEarliest | validators/appointmentValidator.go:105-143 | if check k fails and all before it pass, the chain returns exactly check k's error |
| Text.ByteLen | validators/appointmentValidator.go:99 | Go's `len` of a string is its UTF-8 byte count, between the number of characters and four times it |
| Text.ByteLenAscii | validators/appointmentValidator.go:44-64 | the byte length equals the character count iff the text is ASCII |
| Text.PadDecimalValue | repositories/appointmentRepository.go:79 | a zero-padded decimal rendering reads back as the same number |
| Text.PadDigitsValue | repositories/appointmentRepository.go:79 | re-rendering the value of a digit string at its own width gives back the same string |
| Uuid.HexRoundTrip | entities/dto/userDto.go:35 | decoding the hex encoding of bytes gives back those bytes |
| Uuid.HexEncodeAppend | entities/dto/userDto.go:35 | hex encoding distributes over concatenation |
| Uuid.Parse | validators/appointmentValidator.go:26 | on the canonical 36-character form, `uuid.Parse` accepts exactly 8-4-4-4-12 hex groups separated by dashes (either letter case); other forms are rejected. For lower-case text, the bytes it returns are pinned by `Uuid.ToStringParse` and `Uuid.ParseToString` |
| Uuid.ToString | entities/dto/userDto.go:35 | the string form of a UUID is 36 characters in the 8-4-4-4-12 dash layout, with lower-case hex digits |
| Uuid.ParseToString | entities/dto/userDto.go:35 | parsing the string form of a UUID gives back that UUID |
| Uuid.HexEncodeDecode | validators/appointmentValidator.go:26 | lower-case hex text decodes, and encoding the decoded bytes gives the text back |
| Uuid.ToStringParse | validators/appointmentValidator.go:26 | for lower-case canonical text, the string form of the parsed UUID is the text itself, so the parsed bytes are exactly those its hex digits spell |
| GoTime.DaysIn | validators/appointmentValidator.go:48 | a month has 28 to 31 days, and 29 exactly for February of a leap year |
| GoTime.ParseDate | validators/appointmentValidator.go:48 | parsing with layout `02-01-2006` succeeds exactly on two-digit day, dash, two-digit month, dash, four-digit year naming a real calendar date, and yields that date |
| GoTime.ParseClock | validators/appointmentValidator.go:59-71 | parsing with layout `15:04` or `15.04` yields an hour below 24 and a minute below 60, only on 4- or 5-character text of digits and the layout's separator in the third-from-last place |
| GoTime.ParseClockFive | validators/appointmentValidator.go:55-64 | on 5-character text, parsing succeeds iff it is two digits, the separator, two digits with hour < 24 and minute < 60, and yields those numbers |
| GoTime.ParseClockFour | validators/appointmentValidator.go:66-74 | on 4-character text, parsing succeeds iff it is one digit, the separator, two digits with minute < 60, and yields that hour and minute (so `15.04` reads `9.30` as 09:30) |
| GoTime.FormatDate | repositories/appointmentRepository.go:79 | `Format("02-01-2006")` of a date with day, month below 100 and year 0..9999 is 10 characters: two digits, dash, two digits, dash, four digits; a negative year gets a leading minus sign |
| GoTime.BeforeIsStrictTotalOrder | validators/appointmentValidator.go:78 | `GoTime.Before`, the model of `Time.Before`, compares the fields in order and is a strict total order: irreflexive, asymmetric, transitive, ordering any two distinct instants, with a smaller year always earlier. This matches Go only for normalised UTC instants |
| GoTime.ParseFormatDate | repositories/appointmentRepository.go:79 | formatting a real date with year 0..9999 as `02-01-2006` and parsing it back gives the same date |
| GoTime.FormatParsedDate | repositories/appointmentRepository.go:79 | formatting a parsed date text gives back the text |
| AppointmentValidation.ValidateUUIDRequired | validators/appointmentValidator.go:25-31 | passes iff the id parses as a UUID; otherwise fails with "UUID inválido: " and the id |
| AppointmentValidation.ValidateUUIDOptional | validators/appointmentValidator.go:33-42 | an absent or empty id always passes; any other id gets the same verdict as the required check |
| AppointmentValidation.ValidateDateOnly | validators/appointmentValidator.go:44-53 | passes iff the text is a 10-byte `DD-MM-YYYY` real date; every failure is the date-format error |
| AppointmentValidation.ValidateTimeOnly | validators/appointmentValidator.go:55-64 | passes iff the text is `HH:MM` with HH 00-23 and MM 00-59; every failure is the time-format error |
| AppointmentValidation.NotPastUnder | validators/appointmentValidator.go:66-82 | an unparsable date fails with the date error, then an unparsable time with the time error; otherwise the result is the past error iff the UTC minute is strictly before now |
| AppointmentValidation.ValidateDateTimeNotPast | validators/appointmentValidator.go:66-82 | as written with layout `15.04`: besides the above, any parsable date with a time lacking `.` fails with the time error; an instant equal to now passes |
| AppointmentValidation.ValidateDateTimeNotPastIntended | validators/appointmentValidator.go:66-82 | with layout `15:04`, a well-formed date and time pass iff the scheduled minute is not before now |
| AppointmentValidation.Scheduled | validators/appointmentValidator.go:75-76 | the booked instant has zero seconds and nanoseconds, the date's year, a month 1-12 and an hour 0-23; its exact fields are stated by `AppointmentValidation.ScheduledIsParsed` |
| AppointmentValidation.ScheduledIsParsed | validators/appointmentValidator.go:67-76 | for well-formed texts, both parses succeed and the booked instant is the UTC minute built from the parsed year, month, day, hour and minute |
| AppointmentValidation.ValidateStatusID | validators/appointmentValidator.go:84-89 | passes exactly on 1, 2 and 3 |
| AppointmentValidation.ValidatePositiveFloatOptional | validators/appointmentValidator.go:91-96 | passes iff the value is absent or at least zero; otherwise fails with the caller's error |
| AppointmentValidation.ValidateMaxLenOptional | validators/appointmentValidator.go:98-103 | passes iff the UTF-8 byte length is at most the cap, boundary included; otherwise fails with the caller's error |
| AppointmentValidation.ValidateAppointmentDTO | validators/appointmentValidator.go:105-143 | as written it never passes: once pet, vet, date and time pass, it fails with the time-format error |
| AppointmentValidation.FirstFailingCheckDecides | validators/appointmentValidator.go:105-143 | the error returned is that of the earliest failing check in the order pet, vet, date, time, past, status, weight, temperature, reason, vaccination, medications, notes |
| AppointmentValidation.TimeOnlyRejectedByNotPast | validators/appointmentValidator.go:55-73 | every time accepted by the `15:04` format check fails to parse under `15.04` |
| AppointmentValidation.ValidateAppointmentDTONeverPasses | validators/appointmentValidator.go:112-120 | because line 59 parses `15:04` and line 71 `15.04`, every request is rejected; one past the first four checks is rejected at the not-in-the-past check with the time-format error |
| AppointmentValidation.ValidateAppointmentDTOIntended | validators/appointmentValidator.go:105-143 | with one time layout throughout, a request passes iff it meets every rule of the validator |
| AppointmentValidation.IntendedChecksPassIff | validators/appointmentValidator.go:105-143 | the twelve checks with one layout all pass iff the request is valid |
| AppointmentValidation.ReasonCapBoundary | validators/appointmentValidator.go:130 | for ASCII text, 300 characters pass the reason cap and 301 fail |
| AppointmentValidation.FutureBookingAccepted | validators/appointmentValidator.go:105-143 | a booking for 01-01-2099 10:00 passes the intended validator and fails the written one with the time-format error |
| AppointmentValidation.PastBookingRejected | validators/appointmentValidator.go:118-120 | in the corrected (one-layout) validator, a request with valid ids, date and time scheduled before now is rejected with the past error, whatever its later fields hold; as written it is rejected with the time-format error instead |
| AppointmentValidation.SamplePastBookingRejected | validators/appointmentValidator.go:78-80 | the corrected (one-layout) validator rejects a booking for 01-01-2020 10:00 in 2024 with the past error |
| FieldValidation.NewValidationError | validators/validator.go:93-103 | the error built from a message reports that message |
| FieldValidation.DUIIsConcatenation | validators/validator.go:15 | a DUI is exactly eight ASCII digits, a dash and one ASCII digit |
| FieldValidation.PhoneIsConcatenation | validators/validator.go:16 | a phone number is exactly four ASCII digits, a dash and four ASCII digits |
| FieldValidation.MatchesEmail | validators/validator.go:17 | the e-mail matcher accepts exactly a non-empty local part, `@`, a non-empty domain, a dot and two or more letters |
| FieldValidation.EmailSplitUnique | validators/validator.go:17 | an accepted address has its `@` at the only `@` and its final dot at the last dot |
| FieldValidation.EmailSamples | validators/validator.go:17 | `ana.lopez@vet.example.com` matches and `ana@localhost` does not |
| FieldValidation.ValidateFullName | validators/validator.go:47-53 | with the pattern of line 14, passes iff the name is a non-empty run of ASCII letters, accented vowels, ñ/Ñ and RE2 whitespace; the empty name fails on the `required` tag and any other rejected name on the `alphabetic` tag |
| FieldValidation.ValidateDUI | validators/validator.go:55-61 | passes iff the text is a DUI; the empty text fails on the `required` tag and any other rejected text on `duiFormat` |
| FieldValidation.ValidatePhone | validators/validator.go:63-69 | passes iff the text is a phone number; the empty text fails on the `required` tag and any other rejected text on `phoneFormat` |
| FieldValidation.ValidateEmail | validators/validator.go:71-77 | passes iff the text is an e-mail address; the empty text fails on the `required` tag and any other rejected text on `emailFormat` |
| FieldValidation.ValidatePassword | validators/validator.go:79-91 | passes iff the password is empty or at least 6 bytes long; otherwise fails with the password error |
| UserValidation.ValidateUserDTO | validators/userValidator.go:15-32 | passes iff name, DUI, phone, e-mail and password all pass; otherwise reports the first failing one, with the name/DUI/phone/e-mail errors replaced and the password error passed on |
| UserValidation.EmptyPasswordNeverRejects | validators/userValidator.go:28-30 | with no password the verdict depends only on the other four fields and is never the password error |
| UserValidation.OnlyValidatedFieldsMatter | validators/userValidator.go:15-32 | two requests agreeing on the five validated fields get the same verdict |
| AdminValidation.ValidateUsername | validators/adminValidator.go:18-23 | passes iff the username is 3 to 50 bytes long |
| AdminValidation.ValidateAdminTypeID | validators/adminValidator.go:25-30 | passes iff the admin type is positive |
| AdminValidation.ValidateAdminRegisterDTO | validators/adminValidator.go:32-55 | passes iff all seven rules hold; otherwise returns the error of a check all of whose predecessors passed |
| AdminValidation.AdminFirstFailureDecides | validators/adminValidator.go:32-55 | the earliest failing check in the order name, username, DUI, phone, e-mail, password, admin type decides the error |
| AdminValidation.EmptyPasswordAccepted | validators/adminValidator.go:48-50 | a registration without a password is never rejected for its password |
| Entities.User.constructor | entities/user.go:9-23 | a user not yet saved has the nil id and the given fields |
| Entities.User.BeforeCreate | entities/user.go:25-30 | the id is replaced by a generated one only when it is the nil id, only the id may change, it ends non-nil, and the error is nil |
| Entities.BeforeCreateTwice | entities/user.go:25-30 | running the hook twice keeps the id settled by the first run |
| Dto.ToUserDTO | entities/dto/userDto.go:29-47 | a nil user gives the zero DTO; otherwise the public fields and role are copied, the password is empty, and the id is exactly the UUID's lower-case string form, which parses back to the user's id |
| Repositories.IsEmptyPatch | repositories/appointmentRepository.go:104 | a patch is empty iff it names no column at all |
| Repositories.ApplyPatch | repositories/appointmentRepository.go:107 | updating keeps the id; each of the eleven columns takes the patch's value when the patch names it and keeps its old value otherwise; an empty patch leaves the record as it was |
| Repositories.ToggledStatus | repositories/appointmentRepository.go:125-128 | the new status is 1 or 2, and 2 exactly when the old status was 1 |
| Repositories.ToggleTwice | repositories/appointmentRepository.go:125-128 | toggling twice restores status 1 or 2, and takes status 3 to 1 and then to 2 |
| Repositories.Where | repositories/appointmentRepository.go:64-101 | a filter query returns exactly the records that match, unchanged |
| Repositories.AppointmentRepository.constructor | repositories/appointmentRepository.go:15-17 | the store wraps tables that may already hold rows; it starts with exactly the given appointments and pets, each appointment keyed by its own id |
| Repositories.AppointmentRepository.Create | repositories/appointmentRepository.go:19-21 | inserts the record unless its id is taken or its pet does not exist, in which case the table is unchanged and the error says which |
| Repositories.AppointmentRepository.GetByID | repositories/appointmentRepository.go:23-37 | returns the record with that id, or no record and no error when there is none |
| Repositories.GetByIDKeepsId | repositories/appointmentRepository.go:31-32 | in a consistent store the record found for an id carries that id |
| Repositories.AppointmentRepository.GetAll | repositories/appointmentRepository.go:52-62 | returns every record |
| Repositories.AppointmentRepository.GetByUserID | repositories/appointmentRepository.go:39-50 | returns exactly the records whose pet the user owns |
| Repositories.AppointmentRepository.GetAppointmentsByStatus | repositories/appointmentRepository.go:64-75 | returns exactly the records with that status |
| Repositories.AppointmentRepository.GetAppointmentsByStatusAndDate | repositories/appointmentRepository.go:77-89 | returns exactly the status-1 records of any date and the status-2 records dated with the `DD-MM-YYYY` text of the argument |
| Repositories.AppointmentRepository.GetMedicalHistoryByPetID | repositories/appointmentRepository.go:91-101 | returns exactly the pet's status-2 records |
| Repositories.AppointmentRepository.Update | repositories/appointmentRepository.go:103-108 | never errs; an empty patch or a missing id changes nothing; otherwise only that record changes, by the patch |
| Repositories.AppointmentRepository.UpdateStatus | repositories/appointmentRepository.go:110-114 | never errs; a missing id changes nothing; otherwise only that record's status changes |
| Repositories.AppointmentRepository.Delete | repositories/appointmentRepository.go:116-134 | a missing id gives 0 and record-not-found and changes nothing; otherwise only that record's status changes, to the toggled status, which is returned |
| Repositories.MedicalHistoryNeedsCompleted | repositories/appointmentRepository.go:93 | a record that is not completed is in no pet's medical history |
| Repositories.StatusAndDatePrecedence | repositories/appointmentRepository.go:79-81 | the status/date query is the status-1 records together with the status-2 records of that date; every active record is included whatever its date |
| Services.DeleteMessage | services/appointmentService.go:58-61 | the message is "Cita reactivada correctamente" iff the new status is 1, and "Cita cancelada correctamente" otherwise |
| Services.DeleteMessageOfToggle | services/appointmentService.go:53-62 | after a toggle the message says "cancelada" iff the appointment was active |
| Services.AppointmentService.constructor | services/appointmentService.go:13-15 | the service holds the given store |
| Services.AppointmentService.CreateAppointment | services/appointmentService.go:17-19 | same effect and error as the store's `Create` |
| Services.AppointmentService.GetAppointmentByID | services/appointmentService.go:21-23 | the store's record for the id, or none |
| Services.AppointmentService.GetAllAppointments | services/appointmentService.go:25-27 | every record of the store |
| Services.AppointmentService.UpdateAppointment | services/appointmentService.go:29-31 | same effect as the store's `Update` |
| Services.AppointmentService.GetAppointmentsByStatus | services/appointmentService.go:33-35 | exactly the records with that status |
| Services.AppointmentService.GetAppointmentsByStatusAndDate | services/appointmentService.go:37-39 | exactly the records the store's status/date query matches |
| Services.AppointmentService.UpdateStatus | services/appointmentService.go:41-43 | same effect as the store's `UpdateStatus` |
| Services.AppointmentService.GetByUserID | services/appointmentService.go:45-47 | exactly the records whose pet the user owns |
| Services.AppointmentService.GetMedicalHistoryByPetID | services/appointmentService.go:49-51 | exactly the pet's completed records |
| Services.AppointmentService.DeleteAppointment | services/appointmentService.go:53-62 | on a missing id, the empty message and the store's error with nothing changed; otherwise the status is toggled and the message is "cancelada" iff it was 1 and "reactivada" otherwise |
| Services.DeleteTwice | services/appointmentService.go:53-62 | deleting an active appointment twice reports "cancelada" then "reactivada" and leaves the table as it was |

## Left out

- `uuid.Parse` accepts more forms than modelled: `urn:uuid:` prefixes, braces and the 32-hex-digit form. Only the canonical 36-character form is modelled.
- `time.Now()` is a parameter, and `uuid.New()` is a parameter that is not the nil UUID.
- GORM's eager loading of pet, owner, species, vet and role is not modelled. Database and connection errors are not modelled either: a store call fails only in the ways its contract names.
- Query results are maps keyed by id; the slice order of the SQL results is not modelled, as the queries specify none.
- Repositories.AppointmentRepository.Create: the id is taken as given by the caller. Generating the id at insert is not modelled; that would be a hook or column default of `entities.Appointment`, which is not part of this model. GORM's write-back of generated or defaulted values into the caller's `*app` is not modelled either.
- Repositories.AppointmentRepository.Create: only primary-key and pet foreign-key violations are modelled. The vet foreign key and column constraints are not modelled, because the entity file declaring them is not part of this model.
- Repositories.AppointmentRepository.Delete: the "cita no encontrada" branch (repositories/appointmentRepository.go:122-123) cannot be reached, because `First` already reports a missing row as record-not-found. It has no counterpart in the model.
- Update patches are modelled as one optional value per known column. The primary key `id` cannot be patched, although `Updates` would write an `id` entry of the Go map. Unknown column names in the Go map and type mismatches are not modelled.
- `entities.Appointment`, `dto.AppointmentDTO` and `dto.AdminRegisterDTO` are not part of this model. Their fields are inferred from the code that uses them.
- `CreatedAt` and `UpdatedAt` in `entities/user.go`, and the database default of `status_id`, are not modelled.
- The lazily built `sync.Once` validator singleton is not modelled. The registered validations are plain functions.
- GoTime.Before: compares calendar fields, so it is only Go's `Time.Before` for normalised UTC instants; monotonic clock readings and time zones are not modelled.
- Weight and temperature are reals, so NaN is not modelled. In Go, NaN < 0 is false and a NaN value passes.
- Concurrent requests (for example two deletes racing between `First` and the update) are not modelled.
- Password hashing, JWT and mail, the HTTP controllers, `main.go`, `data/db.go` and the user service are not part of this model.

## Findings

| source | as written | input that shows it | evidently intended | confidence | as-written member | corrected member |
|---|---|---|---|---|---|---|
| validators/appointmentValidator.go:59-71 | the format check parses the time with layout `15:04` but the not-in-the-past check parses it with `15.04`, so no time passes both and every request past the first four checks is rejected with the time-format error | pet `123e4567-e89b-12d3-a456-426614174000`, no vet, date `01-01-2099`, time `10:00`, status 1, empty texts | one time layout for both checks, so a well-formed future booking passes (the error text says `HH.MM`, so either separator may be meant; the corrected member uses `15:04` for both) | high (not executed) | AppointmentValidation.ValidateAppointmentDTONeverPasses | AppointmentValidation.ValidateAppointmentDTOIntended |
