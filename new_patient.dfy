/** The new-patient form: how the birthdate field stores and shows what is
    typed (`toBrazilianFormat`, the input normaliser), how it is sent
    (`toISOFormat`), and the checks `addPatient` runs before creating. */
module NewPatient {
  import opened Wrappers
  import opened Text

  /** `toBrazilianFormat`: the stored digits `ddmmyyyy` shown as `dd/mm/yyyy`,
      a separator appearing only once something follows it. */
  function ToBrazilianFormat(date: string): string
  {
    if date == "" then ""
    else
      var day := Slice(date, 0, 2);
      var month := Slice(date, 2, 4);
      var year := SliceFrom(date, 4);
      day + (if month != "" then "/" + month else "") + (if year != "" then "/" + year else "")
  }

  /** `toISOFormat`: the stored digits `ddmmyyyy` as `yyyy-mm-dd`. */
  function ToISOFormat(date: string): string
  {
    if date == "" then ""
    else SliceFrom(date, 4) + "-" + Slice(date, 2, 4) + "-" + Slice(date, 0, 2)
  }

  /** `value.replace(/\//g, "")`. */
  function RemoveSlashes(s: string): (r: string)
    ensures '/' !in r
    ensures |r| <= |s|
  {
    if s == [] then [] else (if s[0] == '/' then [] else [s[0]]) + RemoveSlashes(s[1..])
  }

  /** The birthdate field's `onChangeText`: separators dropped, at most eight characters kept. */
  function NormaliseBirthdateInput(value: string): (r: string)
    ensures |r| <= 8 && '/' !in r
  {
    var digits := RemoveSlashes(value);
    if |digits| <= 8 then digits else digits[..8]
  }

  lemma {:induction false} RemoveSlashesAppend(a: string, b: string)
    ensures RemoveSlashes(a + b) == RemoveSlashes(a) + RemoveSlashes(b)
  {
    if a != [] {
      assert (a + b)[0] == a[0];
      assert (a + b)[1..] == a[1..] + b;
      RemoveSlashesAppend(a[1..], b);
      var head := if a[0] == '/' then [] else [a[0]];
      calc {
        RemoveSlashes(a + b);
        head + RemoveSlashes(a[1..] + b);
        head + (RemoveSlashes(a[1..]) + RemoveSlashes(b));
        (head + RemoveSlashes(a[1..])) + RemoveSlashes(b);
      }
    } else {
      assert a + b == b;
    }
  }

  lemma {:induction false} RemoveSlashesNone(s: string)
    requires '/' !in s
    ensures RemoveSlashes(s) == s
  {
    if s != [] {
      RemoveSlashesNone(s[1..]);
    }
  }

  /** A separator followed by digits loses just the separator. */
  lemma DropSeparator(s: string)
    requires '/' !in s
    ensures RemoveSlashes("/" + s) == s
  {
    assert ("/" + s)[0] == '/' && ("/" + s)[1..] == s;
    RemoveSlashesNone(s);
  }

  /** Dropping the separators from what the field shows gives back the stored digits. */
  lemma BrazilianRoundTrip(date: string)
    requires '/' !in date
    ensures RemoveSlashes(ToBrazilianFormat(date)) == date
  {
    if date != "" {
      var day, month, year := Slice(date, 0, 2), Slice(date, 2, 4), SliceFrom(date, 4);
      var m := if month != "" then "/" + month else "";
      var y := if year != "" then "/" + year else "";
      assert date == day + month + year;
      assert ToBrazilianFormat(date) == day + m + y;
      RemoveSlashesAppend(day + m, y);
      RemoveSlashesAppend(day, m);
      RemoveSlashesNone(day);
      assert RemoveSlashes(m) == month by {
        if month != "" { DropSeparator(month); }
      }
      assert RemoveSlashes(y) == year by {
        if year != "" { DropSeparator(year); }
      }
    }
  }

  /** The field shows `toBrazilianFormat(birthdate)` and stores the normalised text it is
      given back: re-reading an untouched display does not change the stored value. */
  lemma DisplayIsStable(birthdate: string)
    requires |birthdate| <= 8 && '/' !in birthdate
    ensures NormaliseBirthdateInput(ToBrazilianFormat(birthdate)) == birthdate
  {
    BrazilianRoundTrip(birthdate);
  }

  /** Typing a character at the end of the displayed date appends it to the stored digits
      (up to the eight-character cap). */
  lemma TypingAppends(birthdate: string, c: char)
    requires |birthdate| <= 8 && '/' !in birthdate && c != '/'
    ensures NormaliseBirthdateInput(ToBrazilianFormat(birthdate) + [c])
         == if |birthdate| < 8 then birthdate + [c] else birthdate
  {
    BrazilianRoundTrip(birthdate);
    RemoveSlashesAppend(ToBrazilianFormat(birthdate), [c]);
    assert RemoveSlashes([c]) == [c];
  }

  /** The display ends with the last stored character, so deleting the last displayed
      character deletes the last stored one. */
  lemma DeletingRemovesLast(birthdate: string)
    requires 0 < |birthdate| <= 8 && '/' !in birthdate
    ensures var shown := ToBrazilianFormat(birthdate);
            |shown| > 0 && NormaliseBirthdateInput(shown[..|shown| - 1]) == birthdate[..|birthdate| - 1]
  {
    var shown := ToBrazilianFormat(birthdate);
    var n := |birthdate|;
    var prefix := birthdate[..n - 1];
    assert shown[..|shown| - 1] + [shown[|shown| - 1]] == shown;
    assert shown[|shown| - 1] == birthdate[n - 1];
    BrazilianRoundTrip(birthdate);
    RemoveSlashesAppend(shown[..|shown| - 1], [shown[|shown| - 1]]);
    assert RemoveSlashes([shown[|shown| - 1]]) == [birthdate[n - 1]];
    assert birthdate == prefix + [birthdate[n - 1]];
  }

  // ------------------------------------------------------------ the date check

  /** `0?[1-9]|[12][0-9]|3[01]`. */
  predicate DayToken(t: string)
  {
    || (|t| == 1 && '1' <= t[0] <= '9')
    || (|t| == 2 && (|| (t[0] == '0' && '1' <= t[1] <= '9')
                     || ((t[0] == '1' || t[0] == '2') && IsDigit(t[1]))
                     || (t[0] == '3' && (t[1] == '0' || t[1] == '1'))))
  }

  /** `0?[1-9]|1[012]`. */
  predicate MonthToken(t: string)
  {
    || (|t| == 1 && '1' <= t[0] <= '9')
    || (|t| == 2 && (|| (t[0] == '0' && '1' <= t[1] <= '9')
                     || (t[0] == '1' && '0' <= t[1] <= '2')))
  }

  /** `[\/\-]`. */
  predicate IsSeparator(c: char)
  {
    c == '/' || c == '-'
  }

  /** The anchored pattern with a day of `dayLength` and a month of `monthLength` characters. */
  predicate MatchesWith(s: string, dayLength: nat, monthLength: nat)
  {
    && |s| == dayLength + monthLength + 6
    && DayToken(s[..dayLength])
    && IsSeparator(s[dayLength])
    && MonthToken(s[dayLength + 1..dayLength + 1 + monthLength])
    && IsSeparator(s[dayLength + 1 + monthLength])
    && AllDigits(s[dayLength + monthLength + 2..])
  }

  /** `s.match(/^(0?[1-9]|[12][0-9]|3[01])[\/\-](0?[1-9]|1[012])[\/\-]\d{4}$/)`:
      day and month take one or two characters, the year exactly four digits. */
  predicate MatchesDateRegex(s: string)
  {
    MatchesWith(s, 1, 1) || MatchesWith(s, 1, 2) || MatchesWith(s, 2, 1) || MatchesWith(s, 2, 2)
  }

  /** A stored birthdate the save-time check accepts: eight digits, a day from 01 to 31
      and a month from 01 to 12. */
  predicate ValidStoredDate(b: string)
  {
    && |b| == 8 && AllDigits(b)
    && 1 <= DecimalValue(b[..2]) <= 31
    && 1 <= DecimalValue(b[2..4]) <= 12
  }

  lemma TwoDigitTokens(t: string)
    requires |t| == 2
    ensures DayToken(t) <==> AllDigits(t) && 1 <= DecimalValue(t) <= 31
    ensures MonthToken(t) <==> AllDigits(t) && 1 <= DecimalValue(t) <= 12
  {
    if AllDigits(t) {
      assert t[..1][..0] == [];
      assert DecimalValue(t[..1]) == t[0] as int - '0' as int;
      assert DecimalValue(t) == 10 * (t[0] as int - '0' as int) + (t[1] as int - '0' as int);
    }
  }

  /** Once five characters are stored, the display is `dd/mm/` followed by the rest. */
  lemma LongDisplay(b: string)
    requires |b| >= 5
    ensures ToBrazilianFormat(b) == b[..2] + "/" + b[2..4] + "/" + b[4..]
  {
  }

  /** With fewer than five characters stored, the display is too short for the pattern. */
  lemma ShortDisplay(b: string)
    requires |b| < 5
    ensures |ToBrazilianFormat(b)| < 8
  {
  }

  /** A display with separators at positions 2 and 5 matches only with two-character
      day and month tokens. */
  lemma OnlyFullSplit(f: string)
    requires |f| >= 6 && f[2] == '/' && f[5] == '/'
    ensures MatchesDateRegex(f) <==> MatchesWith(f, 2, 2)
  {
    assert !MonthToken(f[2..3]) && !MonthToken(f[2..4]);
    if |f| == 9 {
      assert f[5..][0] == '/';
    }
  }

  /** With eight characters stored, the two-character split of the display reads the
      day, the month and the year straight from the stored text. */
  lemma DisplaySplit(b: string)
    requires |b| == 8
    ensures MatchesWith(ToBrazilianFormat(b), 2, 2) <==> DayToken(b[..2]) && MonthToken(b[2..4]) && AllDigits(b[4..])
  {
    var f := ToBrazilianFormat(b);
    LongDisplay(b);
    assert f == b[..2] + "/" + b[2..4] + "/" + b[4..];
    assert f[..2] == b[..2] && f[3..5] == b[2..4] && f[6..] == b[4..];
  }

  /** Validity of eight stored characters is the two tokens and a four-digit year. */
  lemma StoredSplit(b: string)
    requires |b| == 8
    ensures ValidStoredDate(b) <==> DayToken(b[..2]) && MonthToken(b[2..4]) && AllDigits(b[4..])
  {
    var day, month, year := b[..2], b[2..4], b[4..];
    assert b == (day + month) + year;
    AllDigitsConcat(day + month, year);
    AllDigitsConcat(day, month);
    TwoDigitTokens(day);
    TwoDigitTokens(month);
  }

  /** With eight characters stored, the two-character split of the display matches
      exactly when the stored date is valid. */
  lemma EightCharacterGate(b: string)
    requires |b| == 8
    ensures MatchesWith(ToBrazilianFormat(b), 2, 2) <==> ValidStoredDate(b)
  {
    DisplaySplit(b);
    StoredSplit(b);
  }

  /** The regex, applied to the displayed date, accepts exactly the valid stored dates. */
  lemma DateGate(b: string)
    ensures MatchesDateRegex(ToBrazilianFormat(b)) <==> ValidStoredDate(b)
  {
    var f := ToBrazilianFormat(b);
    if |b| >= 5 {
      LongDisplay(b);
      assert f[2] == '/' && f[5] == '/';
      OnlyFullSplit(f);
      if |b| == 8 {
        EightCharacterGate(b);
      } else {
        assert |f| != 10;
      }
    } else {
      ShortDisplay(b);
    }
  }

  // ------------------------------------------------------------ addPatient

  /** Which check of the form stops a save, in the order the form runs them. */
  datatype FormCheck = RequiredMissing | InvalidDate | Accepted

  /** The checks `addPatient` (and `updatePatient`) run: required fields first, then the
      date pattern on the displayed birthdate. */
  function CheckPatientForm(name: string, birthdate: string): (r: FormCheck)
    ensures r == RequiredMissing <==> name == "" || birthdate == ""
    ensures r == InvalidDate <==> name != "" && birthdate != "" && !ValidStoredDate(birthdate)
    ensures r == Accepted <==> name != "" && birthdate != "" && ValidStoredDate(birthdate)
  {
    DateGate(birthdate);
    if name == "" || birthdate == "" then RequiredMissing
    else if !MatchesDateRegex(ToBrazilianFormat(birthdate)) then InvalidDate
    else Accepted
  }

  /** A stored date that passes the check is sent as `yyyy-mm-dd`. */
  lemma ISOFormatOfValidDate(b: string)
    requires ValidStoredDate(b)
    ensures var iso := ToISOFormat(b);
            |iso| == 10 && iso[..4] == b[4..] && iso[4] == '-' && iso[5..7] == b[2..4]
            && iso[7] == '-' && iso[8..] == b[..2]
  {
  }

  /** The arguments of `postPatient`; the birthdate is the `toISOFormat` text, and height and
      weight the text typed (their `Date` and `parseFloat` conversions are not modelled). */
  datatype PatientRequest = PatientRequest(
    institutionId: string, fullname: string, birthDate: string, height: string, weight: string)

  class NewPatientForm {
    const institutionId: string
    var name: string
    var birthdate: string
    var height: string
    var weight: string
    var isRequired: bool
    var invalidDate: bool
    var isCreating: bool
    var confirmCreate: bool
    var error: string

    constructor (institutionId: string)
      ensures this.institutionId == institutionId
      ensures name == "" && birthdate == "" && height == "" && weight == ""
      ensures !isRequired && !invalidDate && !isCreating && !confirmCreate && error == ""
    {
      this.institutionId := institutionId;
      name, birthdate, height, weight := "", "", "", "";
      isRequired, invalidDate, isCreating, confirmCreate := false, false, false, false;
      error := "";
    }

    /** The birthdate field's `onChangeText`. */
    method ChangeBirthdate(value: string)
      modifies this`birthdate
      ensures birthdate == NormaliseBirthdateInput(value)
      ensures |birthdate| <= 8 && '/' !in birthdate
    {
      birthdate := NormaliseBirthdateInput(value);
    }

    /** `addPatient`, with `response` standing for how `postPatient` settles. The request
        is made exactly when both checks pass; a failed check sets its flag and stops. */
    method AddPatient(response: Response<()>) returns (request: Option<PatientRequest>)
      modifies this`isRequired, this`invalidDate, this`isCreating, this`confirmCreate, this`error
      ensures request.Some? <==> CheckPatientForm(name, birthdate) == Accepted
      ensures CheckPatientForm(name, birthdate) == RequiredMissing ==>
                isRequired && invalidDate == old(invalidDate) && isCreating == old(isCreating)
                && confirmCreate == old(confirmCreate) && error == old(error)
      ensures CheckPatientForm(name, birthdate) == InvalidDate ==>
                !isRequired && invalidDate && isCreating == old(isCreating)
                && confirmCreate == old(confirmCreate) && error == old(error)
      ensures CheckPatientForm(name, birthdate) == Accepted ==>
                && !isRequired && !invalidDate
                && request == Some(PatientRequest(institutionId, name, ToISOFormat(birthdate), height, weight))
                && (response.Ok? ==> isCreating && confirmCreate && error == old(error))
                && (response.Failed? ==> !isCreating && error == response.message && confirmCreate == old(confirmCreate))
    {
      if name == "" || birthdate == "" {
        isRequired := true;
        return None;
      }
      isRequired := false;
      if !MatchesDateRegex(ToBrazilianFormat(birthdate)) {
        invalidDate := true;
        return None;
      }
      invalidDate := false;
      isCreating := true;
      request := Some(PatientRequest(institutionId, name, ToISOFormat(birthdate), height, weight));
      match response
      case Ok(_) =>
        confirmCreate := true;
      case Failed(message) =>
        error := message;
        isCreating := false;
    }
  }
}
