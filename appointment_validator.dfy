/** validators/appointmentValidator.go: the checks an appointment request
    goes through before it is stored. "Now" is a parameter instead of a call
    to the clock. */
module AppointmentValidation {
  import opened Outcomes
  import opened Text
  import Uuid
  import opened GoTime

  /** The errors the validator returns: its sentinel values and the two
      built on the spot with `errors.New`. */
  datatype AppointmentError =
    | InvalidPetID
    | InvalidVetID
    | InvalidDateOnly
    | InvalidTimeOnly
    | DateTimeInPast
    | InvalidWeight
    | InvalidTemperature
    | InvalidReasonLength
    | InvalidVaccinationLen
    | InvalidMedicationsLen
    | InvalidAdditionalNotes
    | InvalidUUID(id: string)
    | InvalidStatusID
  {
    function Message(): string {
      match this
      case InvalidPetID => "pet_id es obligatorio y debe ser un UUID válido"
      case InvalidVetID => "vet_id debe ser un UUID válido si se proporciona"
      case InvalidDateOnly => "date_only es obligatorio y debe tener formato DD-MM-YYYY"
      case InvalidTimeOnly => "time_only es obligatorio y debe tener formato HH.MM"
      case DateTimeInPast => "la fecha y hora de la cita no pueden ser en el pasado"
      case InvalidWeight => "weight_kg debe ser un número positivo si se proporciona"
      case InvalidTemperature => "temperature debe ser un número positivo si se proporciona"
      case InvalidReasonLength => "reason debe tener máximo 300 caracteres"
      case InvalidVaccinationLen => "vaccination_status debe tener máximo 500 caracteres"
      case InvalidMedicationsLen => "medications_prescribed debe tener máximo 300 caracteres"
      case InvalidAdditionalNotes => "additional_notes debe tener máximo 500 caracteres"
      case InvalidUUID(id) => "UUID inválido: " + id
      case InvalidStatusID => "Status_id inválido, debe ser un valor numerico"
    }
  }

  /** The request body. Pointers become `Option`; float64 measurements become reals. */
  datatype AppointmentDTO = AppointmentDTO(
    petID: string,
    vetID: Option<string>,
    date: string,
    time: string,
    statusID: int,
    weightKg: Option<real>,
    temperature: Option<real>,
    reason: string,
    vaccinationStatus: string,
    medicationsPrescribed: string,
    additionalNotes: string)

  /** Separator of the layout "15:04" used by the format check. */
  const TimeOnlySeparator: char := ':'
  /** Separator of the layout "15.04" used by the not-in-the-past check. */
  const NotPastSeparator: char := '.'

  const MaxReasonLen := 300
  const MaxVaccinationLen := 500
  const MaxMedicationsLen := 300
  const MaxAdditionalNotesLen := 500

  function ValidateUUIDRequired(id: string): (r: Outcome<AppointmentError>)
    ensures r.Pass? <==> Uuid.Parse(id).Some?
    ensures r.Fail? ==> r.error == InvalidUUID(id)
  {
    if Uuid.Parse(id).None? then Fail(InvalidUUID(id)) else Pass
  }

  /** A missing or empty id is accepted; any other text must parse. */
  function ValidateUUIDOptional(id: Option<string>): (r: Outcome<AppointmentError>)
    ensures id.None? || id.value == "" ==> r.Pass?
    ensures id.Some? && id.value != "" ==> r == ValidateUUIDRequired(id.value)
  {
    if id.None? || id.value == "" then Pass
    else if Uuid.Parse(id.value).None? then Fail(InvalidUUID(id.value))
    else Pass
  }

  /** The text shape "HH:MM" with hour 00-23 and minute 00-59. */
  predicate IsTimeOnlyText(s: string) {
    && |s| == 5 && DigitsAt(s, 0, 1) && s[2] == ':' && DigitsAt(s, 3, 4)
    && TwoDigits(s, 0) < 24 && TwoDigits(s, 3) < 60
  }

  function ValidateDateOnly(dateOnly: string): (r: Outcome<AppointmentError>)
    ensures r.Pass? <==> IsDateText(dateOnly)
    ensures r.Fail? ==> r.error == InvalidDateOnly
  {
    ByteLenAscii(dateOnly);
    assert IsDateText(dateOnly) ==> IsAscii(dateOnly) by {
      if IsDateText(dateOnly) {
        forall i | 0 <= i < |dateOnly| ensures (dateOnly[i] as int) < 0x80 {
          if i >= 6 { assert IsDigit(dateOnly[6..][i - 6]); }
        }
      }
    }
    if ByteLen(dateOnly) != 10 then Fail(InvalidDateOnly)
    else if ParseDate(dateOnly).None? then Fail(InvalidDateOnly)
    else Pass
  }

  function ValidateTimeOnly(timeOnly: string): (r: Outcome<AppointmentError>)
    ensures r.Pass? <==> IsTimeOnlyText(timeOnly)
    ensures r.Fail? ==> r.error == InvalidTimeOnly
  {
    ByteLenAscii(timeOnly);
    if ByteLen(timeOnly) != 5 then
      assert IsTimeOnlyText(timeOnly) ==> IsAscii(timeOnly);
      Fail(InvalidTimeOnly)
    else if ParseClock(timeOnly, TimeOnlySeparator).None? then
      (if |timeOnly| == 5 then ParseClockFive(timeOnly, TimeOnlySeparator); Fail(InvalidTimeOnly)
       else Fail(InvalidTimeOnly))
    else
      assert IsAscii(timeOnly);
      ParseClockFive(timeOnly, TimeOnlySeparator);
      Pass
  }

  /** The UTC instant `time.Date(y, m, d, h, min, 0, 0, time.UTC)`. */
  function AtMinute(d: Date, c: Clock): Instant {
    Instant(d.year, d.month, d.day, c.hour, c.minute, 0, 0)
  }

  /** `ValidateDateTimeNotPast` with the time layout's separator as a parameter. */
  function NotPastUnder(dateOnly: string, timeOnly: string, now: Instant, sep: char)
    : (r: Outcome<AppointmentError>)
    ensures ParseDate(dateOnly).None? ==> r == Fail(InvalidDateOnly)
    ensures ParseDate(dateOnly).Some? && ParseClock(timeOnly, sep).None? ==> r == Fail(InvalidTimeOnly)
    ensures ParseDate(dateOnly).Some? && ParseClock(timeOnly, sep).Some? ==>
      (r.Pass? <==> !Before(AtMinute(ParseDate(dateOnly).value, ParseClock(timeOnly, sep).value), now))
    ensures ParseDate(dateOnly).Some? && ParseClock(timeOnly, sep).Some? && r.Fail? ==>
      r.error == DateTimeInPast
  {
    match ParseDate(dateOnly)
    case None => Fail(InvalidDateOnly)
    case Some(date) =>
      match ParseClock(timeOnly, sep)
      case None => Fail(InvalidTimeOnly)
      case Some(clock) =>
        if Before(AtMinute(date, clock), now) then Fail(DateTimeInPast) else Pass
  }

  /** As written: the time is parsed with the layout "15.04". */
  function ValidateDateTimeNotPast(dateOnly: string, timeOnly: string, now: Instant)
    : (r: Outcome<AppointmentError>)
    ensures ParseDate(dateOnly).None? ==> r == Fail(InvalidDateOnly)
    ensures ParseDate(dateOnly).Some? && ParseClock(timeOnly, NotPastSeparator).None? ==>
      r == Fail(InvalidTimeOnly)
    ensures ParseDate(dateOnly).Some? && ParseClock(timeOnly, NotPastSeparator).Some? ==>
      (r == Fail(DateTimeInPast) <==>
        Before(AtMinute(ParseDate(dateOnly).value, ParseClock(timeOnly, NotPastSeparator).value), now))
      && (r.Pass? <==>
        !Before(AtMinute(ParseDate(dateOnly).value, ParseClock(timeOnly, NotPastSeparator).value), now))
    ensures ParseDate(dateOnly).Some? && !('.' in timeOnly) ==> r == Fail(InvalidTimeOnly)
  {
    NotPastUnder(dateOnly, timeOnly, now, NotPastSeparator)
  }

  /** With the separator of the format check, the reading the rest of the
      validator implies. */
  function ValidateDateTimeNotPastIntended(dateOnly: string, timeOnly: string, now: Instant)
    : (r: Outcome<AppointmentError>)
    requires IsDateText(dateOnly) && IsTimeOnlyText(timeOnly)
    ensures r.Pass? <==> !Before(Scheduled(dateOnly, timeOnly), now)
    ensures r.Fail? ==> r.error == DateTimeInPast
  {
    ParseClockFive(timeOnly, TimeOnlySeparator);
    NotPastUnder(dateOnly, timeOnly, now, TimeOnlySeparator)
  }

  /** The instant named by a well-formed date and time. */
  function Scheduled(dateOnly: string, timeOnly: string): (t: Instant)
    requires IsDateText(dateOnly) && IsTimeOnlyText(timeOnly)
    ensures t.second == 0 && t.nanosecond == 0
    ensures t.year == DigitsValue(dateOnly[6..]) && 1 <= t.month <= 12 && 0 <= t.hour < 24
  {
    AtMinute(Date(DigitsValue(dateOnly[6..]), TwoDigits(dateOnly, 3), TwoDigits(dateOnly, 0)),
             Clock(TwoDigits(timeOnly, 0), TwoDigits(timeOnly, 3)))
  }

  /** The booked instant is the one `time.Date` builds from the parsed date
      and the parsed clock, at second zero. */
  lemma ScheduledIsParsed(dateOnly: string, timeOnly: string)
    requires IsDateText(dateOnly) && IsTimeOnlyText(timeOnly)
    ensures ParseDate(dateOnly).Some? && ParseClock(timeOnly, TimeOnlySeparator).Some?
    ensures Scheduled(dateOnly, timeOnly)
            == AtMinute(ParseDate(dateOnly).value, ParseClock(timeOnly, TimeOnlySeparator).value)
  {
    ParseClockFive(timeOnly, TimeOnlySeparator);
  }

  function ValidateStatusID(statusID: int): (r: Outcome<AppointmentError>)
    ensures r.Pass? <==> statusID == 1 || statusID == 2 || statusID == 3
    ensures r.Fail? ==> r.error == InvalidStatusID
  {
    if statusID < 1 || statusID > 3 then Fail(InvalidStatusID) else Pass
  }

  function ValidatePositiveFloatOptional(value: Option<real>, err: AppointmentError)
    : (r: Outcome<AppointmentError>)
    ensures r.Pass? <==> value.None? || value.value >= 0.0
    ensures r.Fail? ==> r.error == err
  {
    if value.Some? && value.value < 0.0 then Fail(err) else Pass
  }

  /** Despite its name the field is a plain string: the cap applies to its
      UTF-8 byte length, boundary included. */
  function ValidateMaxLenOptional(s: string, max: int, err: AppointmentError)
    : (r: Outcome<AppointmentError>)
    ensures r.Pass? <==> ByteLen(s) <= max
    ensures r.Fail? ==> r.error == err
  {
    if ByteLen(s) > max then Fail(err) else Pass
  }

  /** The checks of `ValidateAppointmentDTO` in the order it runs them, with
      the not-in-the-past check parsing the time under `sep`. */
  function AppointmentChecks(app: AppointmentDTO, now: Instant, sep: char)
    : (checks: seq<Outcome<AppointmentError>>)
    ensures |checks| == 12
  {
    [ Remap(ValidateUUIDRequired(app.petID), InvalidPetID),
      Remap(ValidateUUIDOptional(app.vetID), InvalidVetID),
      ValidateDateOnly(app.date),
      ValidateTimeOnly(app.time),
      NotPastUnder(app.date, app.time, now, sep),
      ValidateStatusID(app.statusID),
      ValidatePositiveFloatOptional(app.weightKg, InvalidWeight),
      ValidatePositiveFloatOptional(app.temperature, InvalidTemperature),
      ValidateMaxLenOptional(app.reason, MaxReasonLen, InvalidReasonLength),
      ValidateMaxLenOptional(app.vaccinationStatus, MaxVaccinationLen, InvalidVaccinationLen),
      ValidateMaxLenOptional(app.medicationsPrescribed, MaxMedicationsLen, InvalidMedicationsLen),
      ValidateMaxLenOptional(app.additionalNotes, MaxAdditionalNotesLen, InvalidAdditionalNotes) ]
  }

  /** `ValidateAppointmentDTO` as written: the checks in order, stopping at the
      first error. Every request that gets past the date and time format
      checks is rejected with `InvalidTimeOnly`, so it never returns nil. */
  function ValidateAppointmentDTO(app: AppointmentDTO, now: Instant): (r: Outcome<AppointmentError>)
    ensures r.Fail?
    ensures ValidateUUIDRequired(app.petID).Pass? && ValidateUUIDOptional(app.vetID).Pass?
            && ValidateDateOnly(app.date).Pass? && ValidateTimeOnly(app.time).Pass? ==>
            r == Fail(InvalidTimeOnly)
  {
    ValidateAppointmentDTONeverPasses(app, now);
    FirstFailure(AppointmentChecks(app, now, NotPastSeparator))
  }

  /** Whichever separator the not-in-the-past check uses, the error returned
      is that of the earliest failing check. */
  lemma FirstFailingCheckDecides(app: AppointmentDTO, now: Instant, sep: char, k: nat)
    requires k < 12 && AppointmentChecks(app, now, sep)[k].Fail?
    requires forall j :: 0 <= j < k ==> AppointmentChecks(app, now, sep)[j].Pass?
    ensures FirstFailure(AppointmentChecks(app, now, sep)) == AppointmentChecks(app, now, sep)[k]
  {
    FirstFailureIsEarliest(AppointmentChecks(app, now, sep), k);
  }

  /** A time that passes the format check never parses under "15.04". */
  lemma TimeOnlyRejectedByNotPast(timeOnly: string)
    requires ValidateTimeOnly(timeOnly).Pass?
    ensures ParseClock(timeOnly, NotPastSeparator).None?
  {
  }

  /** As written, every request that gets past the date and time format
      checks is rejected with `InvalidTimeOnly`, so the validator never
      returns nil. */
  lemma ValidateAppointmentDTONeverPasses(app: AppointmentDTO, now: Instant)
    ensures FirstFailure(AppointmentChecks(app, now, NotPastSeparator)).Fail?
    ensures ValidateUUIDRequired(app.petID).Pass? && ValidateUUIDOptional(app.vetID).Pass?
            && ValidateDateOnly(app.date).Pass? && ValidateTimeOnly(app.time).Pass? ==>
            FirstFailure(AppointmentChecks(app, now, NotPastSeparator)) == Fail(InvalidTimeOnly)
  {
    var cs := AppointmentChecks(app, now, NotPastSeparator);
    if ValidateDateOnly(app.date).Pass? && ValidateTimeOnly(app.time).Pass? {
      TimeOnlyRejectedByNotPast(app.time);
      assert cs[4] == Fail(InvalidTimeOnly);
      if cs[0].Pass? && cs[1].Pass? {
        FirstFailureIsEarliest(cs, 4);
      }
    } else {
      assert cs[2].Fail? || cs[3].Fail?;
    }
  }

  /** Everything the validator is meant to demand of a request. */
  predicate IsValidAppointment(app: AppointmentDTO, now: Instant) {
    && Uuid.Parse(app.petID).Some?
    && (app.vetID.None? || app.vetID.value == "" || Uuid.Parse(app.vetID.value).Some?)
    && IsDateText(app.date)
    && IsTimeOnlyText(app.time)
    && !Before(Scheduled(app.date, app.time), now)
    && 1 <= app.statusID <= 3
    && (app.weightKg.None? || app.weightKg.value >= 0.0)
    && (app.temperature.None? || app.temperature.value >= 0.0)
    && ByteLen(app.reason) <= MaxReasonLen
    && ByteLen(app.vaccinationStatus) <= MaxVaccinationLen
    && ByteLen(app.medicationsPrescribed) <= MaxMedicationsLen
    && ByteLen(app.additionalNotes) <= MaxAdditionalNotesLen
  }

  /** The validator with one time separator throughout. */
  function ValidateAppointmentDTOIntended(app: AppointmentDTO, now: Instant)
    : (r: Outcome<AppointmentError>)
    ensures r.Pass? <==> IsValidAppointment(app, now)
  {
    IntendedChecksPassIff(app, now);
    FirstFailure(AppointmentChecks(app, now, TimeOnlySeparator))
  }

  /** With one separator, the checks all pass exactly on valid requests. */
  lemma IntendedChecksPassIff(app: AppointmentDTO, now: Instant)
    ensures (forall k :: 0 <= k < 12 ==> AppointmentChecks(app, now, TimeOnlySeparator)[k].Pass?)
            <==> IsValidAppointment(app, now)
  {
    TwelvePass(AppointmentChecks(app, now, TimeOnlySeparator));
    IntendedIdChecks(app, now);
    IntendedFormatChecks(app, now);
    if IsDateText(app.date) && IsTimeOnlyText(app.time) {
      IntendedPastCheck(app, now);
    }
    IntendedFieldChecks(app, now);
  }

  lemma IntendedIdChecks(app: AppointmentDTO, now: Instant)
    ensures AppointmentChecks(app, now, TimeOnlySeparator)[0].Pass? <==> Uuid.Parse(app.petID).Some?
    ensures AppointmentChecks(app, now, TimeOnlySeparator)[1].Pass? <==>
      app.vetID.None? || app.vetID.value == "" || Uuid.Parse(app.vetID.value).Some?
  {
    var cs := AppointmentChecks(app, now, TimeOnlySeparator);
    assert cs[0] == Remap(ValidateUUIDRequired(app.petID), InvalidPetID);
    assert cs[1] == Remap(ValidateUUIDOptional(app.vetID), InvalidVetID);
  }

  lemma IntendedFormatChecks(app: AppointmentDTO, now: Instant)
    ensures AppointmentChecks(app, now, TimeOnlySeparator)[2].Pass? <==> IsDateText(app.date)
    ensures AppointmentChecks(app, now, TimeOnlySeparator)[3].Pass? <==> IsTimeOnlyText(app.time)
  {
    var cs := AppointmentChecks(app, now, TimeOnlySeparator);
    assert cs[2] == ValidateDateOnly(app.date);
    assert cs[3] == ValidateTimeOnly(app.time);
  }

  lemma IntendedPastCheck(app: AppointmentDTO, now: Instant)
    requires IsDateText(app.date) && IsTimeOnlyText(app.time)
    ensures AppointmentChecks(app, now, TimeOnlySeparator)[4].Pass? <==>
      !Before(Scheduled(app.date, app.time), now)
  {
    assert AppointmentChecks(app, now, TimeOnlySeparator)[4]
      == ValidateDateTimeNotPastIntended(app.date, app.time, now);
  }

  lemma IntendedFieldChecks(app: AppointmentDTO, now: Instant)
    ensures AppointmentChecks(app, now, TimeOnlySeparator)[5].Pass? <==> 1 <= app.statusID <= 3
    ensures AppointmentChecks(app, now, TimeOnlySeparator)[6].Pass? <==>
      app.weightKg.None? || app.weightKg.value >= 0.0
    ensures AppointmentChecks(app, now, TimeOnlySeparator)[7].Pass? <==>
      app.temperature.None? || app.temperature.value >= 0.0
    ensures AppointmentChecks(app, now, TimeOnlySeparator)[8].Pass? <==> ByteLen(app.reason) <= MaxReasonLen
    ensures AppointmentChecks(app, now, TimeOnlySeparator)[9].Pass? <==>
      ByteLen(app.vaccinationStatus) <= MaxVaccinationLen
    ensures AppointmentChecks(app, now, TimeOnlySeparator)[10].Pass? <==>
      ByteLen(app.medicationsPrescribed) <= MaxMedicationsLen
    ensures AppointmentChecks(app, now, TimeOnlySeparator)[11].Pass? <==>
      ByteLen(app.additionalNotes) <= MaxAdditionalNotesLen
  {
    var cs := AppointmentChecks(app, now, TimeOnlySeparator);
    assert cs[5] == ValidateStatusID(app.statusID);
    assert cs[8] == ValidateMaxLenOptional(app.reason, MaxReasonLen, InvalidReasonLength);
  }

  /** Twelve outcomes all pass iff each of them does. */
  lemma TwelvePass(cs: seq<Outcome<AppointmentError>>)
    requires |cs| == 12
    ensures (forall k :: 0 <= k < 12 ==> cs[k].Pass?) <==>
      cs[0].Pass? && cs[1].Pass? && cs[2].Pass? && cs[3].Pass? && cs[4].Pass? && cs[5].Pass?
      && cs[6].Pass? && cs[7].Pass? && cs[8].Pass? && cs[9].Pass? && cs[10].Pass? && cs[11].Pass?
  {
  }

  /** On ASCII text the 300-byte cap on `reason` accepts 300 characters and
      rejects 301. */
  lemma ReasonCapBoundary(reason: string)
    requires IsAscii(reason)
    ensures ValidateMaxLenOptional(reason, MaxReasonLen, InvalidReasonLength).Pass? <==> |reason| <= 300
  {
    ByteLenAscii(reason);
  }

  /** A booking for 01-01-2099 at 10:00 with only the required fields. */
  function SampleBooking(date: string): AppointmentDTO {
    AppointmentDTO("123e4567-e89b-12d3-a456-426614174000", None, date, "10:00", 1,
                   None, None, "", "", "", "")
  }

  /** An instant during 2024. */
  const Now2024: Instant := Instant(2024, 6, 1, 12, 0, 0, 0)

  lemma SamplePetIsUUID()
    ensures Uuid.Parse(SampleBooking("").petID).Some?
  {
    var pet := SampleBooking("").petID;
    assert Uuid.IsCanonicalShape(pet);
    assert forall i :: 0 <= i < 36 && i != 8 && i != 13 && i != 18 && i != 23 ==>
      Uuid.IsHexDigit(pet[i]);
  }

  lemma FourDigitYear(t: string, y: nat)
    requires |t| == 4 && AllDigits(t)
    requires y == DigitValue(t[0]) * 1000 + DigitValue(t[1]) * 100 + DigitValue(t[2]) * 10 + DigitValue(t[3])
    ensures DigitsValue(t) == y
  {
    assert t[..1][..0] == [];
    assert DigitsValue(t[..1]) == DigitValue(t[0]);
    assert t[..2][..1] == t[..1];
    assert DigitsValue(t[..2]) == DigitValue(t[0]) * 10 + DigitValue(t[1]);
    assert t[..3][..2] == t[..2];
    assert DigitsValue(t[..3]) == DigitValue(t[0]) * 100 + DigitValue(t[1]) * 10 + DigitValue(t[2]);
    assert t[..4] == t;
  }

  /** A booking for 01-01-2099 at 10:00 passes the intended validator but
      not the one as written. */
  lemma FutureBookingAccepted()
    ensures ValidateAppointmentDTOIntended(SampleBooking("01-01-2099"), Now2024) == Pass
    ensures ValidateAppointmentDTO(SampleBooking("01-01-2099"), Now2024) == Fail(InvalidTimeOnly)
  {
    var app := SampleBooking("01-01-2099");
    SamplePetIsUUID();
    FourDigitYear(app.date[6..], 2099);
    assert IsDateText(app.date) && IsTimeOnlyText(app.time);
    assert IsValidAppointment(app, Now2024);
  }

  /** Whatever the later fields hold, a well-formed request for an instant
      before now is rejected as being in the past. */
  lemma PastBookingRejected(app: AppointmentDTO, now: Instant)
    requires Uuid.Parse(app.petID).Some?
    requires app.vetID.None? || app.vetID.value == "" || Uuid.Parse(app.vetID.value).Some?
    requires IsDateText(app.date) && IsTimeOnlyText(app.time)
    requires Before(Scheduled(app.date, app.time), now)
    ensures ValidateAppointmentDTOIntended(app, now) == Fail(DateTimeInPast)
  {
    var cs := AppointmentChecks(app, now, TimeOnlySeparator);
    assert cs[4] == ValidateDateTimeNotPastIntended(app.date, app.time, now);
    FirstFailureIsEarliest(cs, 4);
  }

  /** A booking for 01-01-2020 at 10:00 is in the past in 2024. */
  lemma SamplePastBookingRejected()
    ensures ValidateAppointmentDTOIntended(SampleBooking("01-01-2020"), Now2024) == Fail(DateTimeInPast)
  {
    var app := SampleBooking("01-01-2020");
    SamplePetIsUUID();
    FourDigitYear(app.date[6..], 2020);
    assert IsDateText(app.date) && IsTimeOnlyText(app.time);
    PastBookingRejected(app, Now2024);
  }
}
