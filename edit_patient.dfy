/** The edit-patient form: it loads a patient, turns the stored birth date back into
    the digits the birthdate field holds (`leaveNumbersOnly`), and runs the same checks
    as the new-patient form before saving; it can also delete the patient. */
module EditPatient {
  import opened Wrappers
  import opened Text
  import opened Records
  import opened NewPatient

  /** `s.length === 1 ? "0" + s : s`. */
  function Pad2(s: string): (r: string)
    ensures |s| == 1 ==> |r| == 2 && r[1..] == s
    ensures |s| != 1 ==> r == s
  {
    if |s| == 1 then "0" + s else s
  }

  /** `leaveNumbersOnly`: a birth date written as `ddmmyyyy`, day and month padded to two
      digits, the year written as it is. */
  function LeaveNumbersOnly(date: CalendarDate): string
  {
    Pad2(NatToDecimal(date.day)) + Pad2(NatToDecimal(date.month)) + NatToDecimal(date.year)
  }

  lemma PaddedValue(n: nat)
    requires 1 <= n < 100
    ensures var p := Pad2(NatToDecimal(n)); |p| == 2 && AllDigits(p) && DecimalValue(p) == n
  {
    DecimalLength(n);
    DecimalRoundTrip(n);
    if n < 10 {
      LeadingZero(NatToDecimal(n));
    }
  }

  /** A real birth date comes back as eight digits that the save-time check accepts and
      that read back as the same day, month and year. */
  lemma LoadedDateRoundTrip(date: CalendarDate)
    requires 1 <= date.day <= 31 && 1 <= date.month <= 12 && 1000 <= date.year <= 9999
    ensures var r := LeaveNumbersOnly(date);
            && ValidStoredDate(r)
            && DecimalValue(r[..2]) == date.day
            && DecimalValue(r[2..4]) == date.month
            && DecimalValue(r[4..]) == date.year
  {
    var d, m, y := Pad2(NatToDecimal(date.day)), Pad2(NatToDecimal(date.month)), NatToDecimal(date.year);
    PaddedValue(date.day);
    PaddedValue(date.month);
    DecimalLength(date.year);
    DecimalRoundTrip(date.year);
    var r := d + m + y;
    assert r[..2] == d && r[2..4] == m && r[4..] == y;
    assert AllDigits(r);
  }

  /** So a loaded patient can be saved again without touching the birthdate field. */
  lemma LoadedPatientPassesCheck(name: string, date: CalendarDate)
    requires name != ""
    requires 1 <= date.day <= 31 && 1 <= date.month <= 12 && 1000 <= date.year <= 9999
    ensures CheckPatientForm(name, LeaveNumbersOnly(date)) == Accepted
  {
    LoadedDateRoundTrip(date);
  }

  /** A birth year before 1000 gives fewer than eight digits, and the form then refuses
      to save the patient until the date is retyped. */
  lemma EarlyYearIsRefused(name: string, date: CalendarDate)
    requires name != ""
    requires 1 <= date.day <= 31 && 1 <= date.month <= 12 && date.year < 1000
    ensures CheckPatientForm(name, LeaveNumbersOnly(date)) == InvalidDate
  {
    PaddedValue(date.day);
    PaddedValue(date.month);
    DecimalLength(date.year);
  }

  /** `patient.height?.toString() ?? ""`. */
  function TextOrEmpty(v: Option<string>): (r: string)
    ensures v.Some? ==> r == v.value
    ensures v.None? ==> r == ""
  {
    match v
    case Some(t) => t
    case None => ""
  }

  class EditPatientForm {
    const patientId: string
    var isLoading: bool
    var isRequired: bool
    var invalidDate: bool
    var error: string
    var isDeleting: bool
    var isUpdating: bool
    var confirmDeleteIntention: bool
    var confirmDelete: bool
    var confirmUpdate: bool
    var name: string
    var birthdate: string
    var height: string
    var weight: string

    constructor (patientId: string)
      ensures this.patientId == patientId && isLoading
      ensures !isRequired && !invalidDate && error == "" && !isDeleting && !isUpdating
      ensures !confirmDeleteIntention && !confirmDelete && !confirmUpdate
      ensures name == "" && birthdate == "" && height == "" && weight == ""
    {
      this.patientId := patientId;
      isLoading := true;
      isRequired, invalidDate, error := false, false, "";
      isDeleting, isUpdating := false, false;
      confirmDeleteIntention, confirmDelete, confirmUpdate := false, false, false;
      name, birthdate, height, weight := "", "", "", "";
    }

    /** The focus effect, with `response` standing for how `getPatient` settles: the fields
        are filled from the patient, or the error is shown; either way loading ends. */
    method OnPatientLoaded(response: Response<Patient>)
      modifies this`name, this`birthdate, this`height, this`weight, this`isLoading, this`error
      ensures !isLoading
      ensures response.Ok? ==>
                && name == response.payload.fullname
                && birthdate == LeaveNumbersOnly(response.payload.birthDate)
                && height == TextOrEmpty(response.payload.height)
                && weight == TextOrEmpty(response.payload.weight)
                && error == old(error)
      ensures response.Failed? ==>
                && error == response.message
                && name == old(name) && birthdate == old(birthdate)
                && height == old(height) && weight == old(weight)
    {
      match response
      case Ok(patient) =>
        name := patient.fullname;
        birthdate := LeaveNumbersOnly(patient.birthDate);
        height := TextOrEmpty(patient.height);
        weight := TextOrEmpty(patient.weight);
        isLoading := false;
      case Failed(message) =>
        error := message;
        isLoading := false;
    }

    /** The birthdate field's `onChangeText`, shared with the new-patient form. */
    method ChangeBirthdate(value: string)
      modifies this`birthdate
      ensures birthdate == NormaliseBirthdateInput(value)
    {
      birthdate := NormaliseBirthdateInput(value);
    }

    /** `updatePatient`, with `response` standing for how `patchPatient` settles. On
        success the screen keeps its busy flag and shows the confirmation. */
    method UpdatePatient(response: Response<()>) returns (request: Option<PatientPatch>)
      modifies this`isRequired, this`invalidDate, this`isUpdating, this`confirmUpdate, this`error
      ensures request.Some? <==> CheckPatientForm(name, birthdate) == Accepted
      ensures CheckPatientForm(name, birthdate) == RequiredMissing ==>
                isRequired && invalidDate == old(invalidDate) && isUpdating == old(isUpdating)
                && confirmUpdate == old(confirmUpdate) && error == old(error)
      ensures CheckPatientForm(name, birthdate) == InvalidDate ==>
                !isRequired && invalidDate && isUpdating == old(isUpdating)
                && confirmUpdate == old(confirmUpdate) && error == old(error)
      ensures CheckPatientForm(name, birthdate) == Accepted ==>
                && !isRequired && !invalidDate
                && request == Some(PatientPatch(patientId, Some(name), Some(ToISOFormat(birthdate)), Some(height), Some(weight), None, None))
                && (response.Ok? ==> isUpdating && confirmUpdate && error == old(error))
                && (response.Failed? ==> !isUpdating && error == response.message && confirmUpdate == old(confirmUpdate))
    {
      if name == "" || birthdate == "" {
        isRequired := true;
        return None;
      }
      isRequired := false;
      if !MatchesDateRegex(ToBrazilianFormat(birthdate)) {
        invalidDate := true;
        return None;
      }
      invalidDate := false;
      isUpdating := true;
      request := Some(PatientPatch(patientId, Some(name), Some(ToISOFormat(birthdate)), Some(height), Some(weight), None, None));
      match response
      case Ok(_) =>
        confirmUpdate := true;
      case Failed(message) =>
        error := message;
        isUpdating := false;
    }

    /** The "Excluir" button opens the confirmation. */
    method RequestDelete()
      modifies this`confirmDeleteIntention
      ensures confirmDeleteIntention
    {
      confirmDeleteIntention := true;
    }

    /** Cancelling the confirmation closes it. */
    method CancelDelete()
      modifies this`confirmDeleteIntention
      ensures !confirmDeleteIntention
    {
      confirmDeleteIntention := false;
    }

    /** `deletePatient`, with `response` standing for how the request settles: the
        confirmation closes; success shows the final alert, failure the error, and only a
        failure clears the busy flag. */
    method DeletePatient(response: Response<()>)
      modifies this`confirmDeleteIntention, this`isDeleting, this`confirmDelete, this`error
      ensures !confirmDeleteIntention
      ensures response.Ok? ==> isDeleting && confirmDelete && error == old(error)
      ensures response.Failed? ==> !isDeleting && error == response.message && confirmDelete == old(confirmDelete)
    {
      confirmDeleteIntention := false;
      isDeleting := true;
      match response
      case Ok(_) =>
        confirmDelete := true;
      case Failed(message) =>
        error := message;
        isDeleting := false;
    }
  }
}
