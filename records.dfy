/**
 * The three persisted entities (Patient, Medication, Prescription), the request
 * payloads the services accept, and the NotFound errors they raise, with the
 * exact messages the services build.
 */
module Records {

  datatype Option<+T> = None | Some(value: T)

  /** A field of a partial-update payload: either left out of the request or sent. */
  datatype Field<+T> = Absent | Present(value: T) {
    /** The sent value, or `current` when the field was left out. */
    function Or(current: T): T {
      match this
      case Absent => current
      case Present(v) => v
    }
  }

  /** A date string as the request carries it (ISO 8601, `YYYY-MM-DD`). */
  type DateString = string

  /**
   * A calendar date as stored in a `date` column. Dates are opaque here: the
   * model never compares or computes with them, it only records which request
   * string a stored date came from.
   */
  datatype CalendarDate = CalendarDate(source: DateString)

  /** `new Date(s)`, kept opaque. */
  function ParseDate(s: DateString): CalendarDate {
    CalendarDate(s)
  }

  // ---------------------------------------------------------------- entities

  datatype Patient = Patient(id: int, firstName: string, lastName: string, dateOfBirth: CalendarDate)

  /** `description` is a nullable column: `None` is SQL NULL. */
  datatype Medication = Medication(id: int, name: string, description: Option<string>)

  /** The two relations are held as the ids of the referenced rows. */
  datatype Prescription = Prescription(
    id: int,
    patientId: int,
    medicationId: int,
    dosage: string,
    frequency: string,
    startDate: CalendarDate,
    endDate: CalendarDate)

  // ---------------------------------------------------------------- payloads

  datatype CreatePatientDto = CreatePatientDto(firstName: string, lastName: string, birthDate: DateString)

  datatype UpdatePatientDto = UpdatePatientDto(firstName: Field<string>, lastName: Field<string>, birthDate: Field<DateString>)

  datatype CreateMedicationDto = CreateMedicationDto(name: string, description: Option<string>)

  /** A sent `description` may be null, which the shallow merge copies as well. */
  datatype UpdateMedicationDto = UpdateMedicationDto(name: Field<string>, description: Field<Option<string>>)

  datatype CreatePrescriptionDto = CreatePrescriptionDto(
    medicationId: int,
    dosage: string,
    frequency: string,
    startDate: DateString,
    endDate: DateString)

  /** What the validation pipe guarantees before `create` runs: both names non-empty. */
  predicate AcceptedCreatePatient(dto: CreatePatientDto) {
    dto.firstName != [] && dto.lastName != []
  }

  /** Names that are sent must be non-empty. */
  predicate AcceptedUpdatePatient(dto: UpdatePatientDto) {
    (dto.firstName.Present? ==> dto.firstName.value != []) &&
    (dto.lastName.Present? ==> dto.lastName.value != [])
  }

  predicate AcceptedCreateMedication(dto: CreateMedicationDto) {
    dto.name != []
  }

  predicate AcceptedUpdateMedication(dto: UpdateMedicationDto) {
    dto.name.Present? ==> dto.name.value != []
  }

  predicate AcceptedCreatePrescription(dto: CreatePrescriptionDto) {
    dto.dosage != [] && dto.frequency != []
  }

  // ---------------------------------------------------------------- updates

  /**
   * The patient after a partial update: every field that was sent replaces the
   * stored one (a sent birth date is parsed first); every other field, and the
   * id, keep their stored values.
   */
  function UpdatedPatient(p: Patient, dto: UpdatePatientDto): (q: Patient)
    ensures q.id == p.id
    ensures q.firstName == (if dto.firstName.Present? then dto.firstName.value else p.firstName)
    ensures q.lastName == (if dto.lastName.Present? then dto.lastName.value else p.lastName)
    ensures q.dateOfBirth == (if dto.birthDate.Present? then ParseDate(dto.birthDate.value) else p.dateOfBirth)
  {
    Patient(
      p.id,
      dto.firstName.Or(p.firstName),
      dto.lastName.Or(p.lastName),
      match dto.birthDate
      case Absent => p.dateOfBirth
      case Present(s) => ParseDate(s))
  }

  /** A partial update reaches a fixed point after one application. */
  lemma UpdatedPatientIdempotent(p: Patient, dto: UpdatePatientDto)
    ensures UpdatedPatient(UpdatedPatient(p, dto), dto) == UpdatedPatient(p, dto)
  {
  }

  /** The medication after `Object.assign(medication, dto)`: a shallow merge of the sent keys. */
  function MergedMedication(m: Medication, dto: UpdateMedicationDto): (r: Medication)
    ensures r.id == m.id
    ensures r.name == (if dto.name.Present? then dto.name.value else m.name)
    ensures r.description == (if dto.description.Present? then dto.description.value else m.description)
  {
    Medication(m.id, dto.name.Or(m.name), dto.description.Or(m.description))
  }

  // ---------------------------------------------------------------- errors

  /**
   * A NotFoundException. `message` is `None` when the exception is raised with
   * no argument, in which case the framework's generic "Not Found" text applies.
   */
  datatype NotFound = NotFound(message: Option<string>)

  datatype Result<+T> = Ok(value: T) | Err(error: NotFound)

  const PatientMissing: string := "Patient not found"
  const MedicationMissing: string := "Medication not found"

  /** The text of the NotFound raised by the patient lookups. */
  function PatientNotFound(id: int): string {
    "Patient with id " + IntToDecimal(id) + " not found"
  }

  /** The text of the NotFound raised by the medication lookups. */
  function MedicationNotFound(id: int): string {
    "Medication with id " + IntToDecimal(id) + " not found"
  }

  // ------------------------------------------------- decimal text of an id

  predicate IsDigit(c: char) {
    '0' <= c <= '9'
  }

  function DigitChar(d: nat): (c: char)
    requires d < 10
    ensures IsDigit(c) && (c as int) - ('0' as int) == d
  {
    ((d + '0' as int) as char)
  }

  /** The decimal digits of `n`, most significant first, without leading zeros. */
  function NatToDecimal(n: nat): (s: string)
    ensures |s| > 0
    ensures forall i :: 0 <= i < |s| ==> IsDigit(s[i])
    decreases n
  {
    if n < 10 then [DigitChar(n)] else NatToDecimal(n / 10) + [DigitChar(n % 10)]
  }

  /** How a template literal renders an integer: a leading '-' for negatives. */
  function IntToDecimal(n: int): (s: string)
    ensures |s| > 0
  {
    if n < 0 then "-" + NatToDecimal(-n) else NatToDecimal(n)
  }

  /** The value of a string of decimal digits (the reading direction of `NatToDecimal`). */
  function DecimalValue(s: string): nat
    requires forall i :: 0 <= i < |s| ==> IsDigit(s[i])
  {
    if s == [] then 0
    else DecimalValue(s[..|s| - 1]) * 10 + DigitValue(s[|s| - 1])
  }

  function DigitValue(c: char): (d: nat)
    requires IsDigit(c)
    ensures d < 10
  {
    (c as int) - ('0' as int)
  }

  /** Reads back a rendered integer. */
  function DecimalToInt(s: string): int
    requires |s| > 0
    requires s[0] == '-' ==> forall i :: 1 <= i < |s| ==> IsDigit(s[i])
    requires s[0] != '-' ==> forall i :: 0 <= i < |s| ==> IsDigit(s[i])
  {
    if s[0] == '-' then 0 - DecimalValue(s[1..]) as int else DecimalValue(s)
  }

  lemma {:induction false} NatToDecimalRoundTrip(n: nat)
    ensures DecimalValue(NatToDecimal(n)) == n
    decreases n
  {
    if n >= 10 {
      NatToDecimalRoundTrip(n / 10);
      var s := NatToDecimal(n);
      assert s[..|s| - 1] == NatToDecimal(n / 10);
    }
  }

  /** Rendering an id is reversible, so the rendered text determines the id. */
  lemma IntToDecimalRoundTrip(n: int)
    ensures DecimalToInt(IntToDecimal(n)) == n
  {
    if n < 0 {
      NatToDecimalRoundTrip(-n);
      var s := IntToDecimal(n);
      assert s[1..] == NatToDecimal(-n);
    } else {
      NatToDecimalRoundTrip(n);
    }
  }

  /** Strips a known prefix and suffix off a message, leaving the rendered id. */
  lemma MiddleOf(prefix: string, middle: string, suffix: string)
    ensures (prefix + middle + suffix)[|prefix|..|prefix| + |middle|] == middle
  {
  }

  /** Different ids never produce the same "Patient with id ... not found" message. */
  lemma PatientNotFoundInjective(a: int, b: int)
    requires PatientNotFound(a) == PatientNotFound(b)
    ensures a == b
  {
    var pre, post := "Patient with id ", " not found";
    var da, db := IntToDecimal(a), IntToDecimal(b);
    assert |da| == |db|;
    MiddleOf(pre, da, post);
    MiddleOf(pre, db, post);
    IntToDecimalRoundTrip(a);
    IntToDecimalRoundTrip(b);
  }

  /** Different ids never produce the same "Medication with id ... not found" message. */
  lemma MedicationNotFoundInjective(a: int, b: int)
    requires MedicationNotFound(a) == MedicationNotFound(b)
    ensures a == b
  {
    var pre, post := "Medication with id ", " not found";
    var da, db := IntToDecimal(a), IntToDecimal(b);
    assert |da| == |db|;
    MiddleOf(pre, da, post);
    MiddleOf(pre, db, post);
    IntToDecimalRoundTrip(a);
    IntToDecimalRoundTrip(b);
  }
}
