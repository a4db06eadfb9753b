/** What the three back-end checkers share: the certificate status, the
    threshold classification of the remaining days, the date formats the
    records use, the record itself, and the outcome of the TLS probe.

    The probe (a TLS connection to port 443, the peer certificate's
    `notAfter` field, `strptime` and `datetime.now()`) is not modelled: it
    is an oracle that yields either the parsed expiry date together with the
    whole seconds left until it, or the exception it raised. */
module Certificate {
  import opened Wrappers
  import opened Text

  /** The four statuses a record can carry. */
  datatype Status = Ok | ExpiringSoon | Expired | Error

  /** The text the records and reports use for a status. */
  function Label(s: Status): string {
    match s
    case Ok => "OK"
    case ExpiringSoon => "Expire bientôt"
    case Expired => "Expiré"
    case Error => "Erreur"
  }

  /** `ALERT_THRESHOLD_DAYS`: below this many days a certificate expires soon. */
  const AlertThresholdDays := 30

  const SecondsPerDay := 86400

  /** `timedelta.days` of a duration of `seconds` whole seconds: the largest
      number of whole days not exceeding it, so it is negative for a negative
      duration of less than a day. */
  function DaysLeft(seconds: int): (d: int)
    ensures d * SecondsPerDay <= seconds < (d + 1) * SecondsPerDay
  {
    seconds / SecondsPerDay
  }

  /** The status of a certificate with `days` days left. */
  function Classify(days: int): (s: Status)
    ensures s != Error
    ensures s == Expired <==> days < 0
    ensures s == ExpiringSoon <==> 0 <= days < AlertThresholdDays
    ensures s == Ok <==> days >= AlertThresholdDays
  {
    if days < 0 then Expired
    else if days < AlertThresholdDays then ExpiringSoon
    else Ok
  }

  /** Classified from the seconds left: a certificate is expired exactly when
      its expiry lies before now, and expires soon exactly when it lies less
      than thirty whole days ahead. */
  lemma ClassifyBySeconds(seconds: int)
    ensures Classify(DaysLeft(seconds)) == Expired <==> seconds < 0
    ensures Classify(DaysLeft(seconds)) == ExpiringSoon <==> 0 <= seconds < AlertThresholdDays * SecondsPerDay
    ensures Classify(DaysLeft(seconds)) == Ok <==> seconds >= AlertThresholdDays * SecondsPerDay
  {
    var d := DaysLeft(seconds);
    if d < 0 {
      assert (d + 1) * SecondsPerDay <= 0;
    } else if d < AlertThresholdDays {
      assert d * SecondsPerDay >= 0;
      assert (d + 1) * SecondsPerDay <= AlertThresholdDays * SecondsPerDay;
    } else {
      assert d * SecondsPerDay >= AlertThresholdDays * SecondsPerDay;
    }
  }

  /** A later expiry never has a worse status. */
  lemma ClassifyMonotonic(a: int, b: int)
    requires a <= b
    ensures Classify(a) == Ok ==> Classify(b) == Ok
    ensures Classify(b) == Expired ==> Classify(a) == Expired
  {
  }

  // ---------------------------------------------------------------------
  // Dates
  // ---------------------------------------------------------------------

  /** A `datetime` without microseconds (the parsed `notAfter` has none). */
  datatype DateTime = DateTime(year: int, month: int, day: int, hour: int, minute: int, second: int)

  predicate IsLeapYear(y: int) {
    y % 4 == 0 && (y % 100 != 0 || y % 400 == 0)
  }

  function DaysInMonth(y: int, m: int): int
    requires 1 <= m <= 12
  {
    if m == 2 then (if IsLeapYear(y) then 29 else 28)
    else if m == 4 || m == 6 || m == 9 || m == 11 then 30
    else 31
  }

  /** The values Python's `datetime` accepts. */
  predicate ValidDateTime(t: DateTime) {
    && 1 <= t.year <= 9999
    && 1 <= t.month <= 12
    && 1 <= t.day <= DaysInMonth(t.year, t.month)
    && 0 <= t.hour < 24 && 0 <= t.minute < 60 && 0 <= t.second < 60
  }

  type ValidDate = t: DateTime | ValidDateTime(t) witness DateTime(1970, 1, 1, 0, 0, 0)

  /** `t.isoformat()`: `YYYY-MM-DDTHH:MM:SS`. */
  function IsoFormat(t: ValidDate): (s: string)
    ensures |s| == 19
  {
    Pad(t.year, 4) + "-" + Pad(t.month, 2) + "-" + Pad(t.day, 2) + "T"
      + Pad(t.hour, 2) + ":" + Pad(t.minute, 2) + ":" + Pad(t.second, 2)
  }

  /** `t.strftime('%Y-%m-%d')`. */
  function DateFormat(t: ValidDate): (s: string)
    ensures s == IsoFormat(t)[..10]
  {
    Pad(t.year, 4) + "-" + Pad(t.month, 2) + "-" + Pad(t.day, 2)
  }

  /** `t.strftime('%d/%m/%Y')`. */
  function FrenchDateFormat(t: ValidDate): (s: string)
    ensures |s| == 10 && s[2] == '/' && s[5] == '/'
  {
    Pad(t.day, 2) + "/" + Pad(t.month, 2) + "/" + Pad(t.year, 4)
  }

  /** The day, month and year fields of `%d/%m/%Y` read back as the date's. */
  lemma FrenchDateFields(t: ValidDate)
    ensures var s := FrenchDateFormat(t);
      AllDigits(s[0..2]) && AllDigits(s[3..5]) && AllDigits(s[6..10]) &&
      DigitsValue(s[0..2]) == t.day && DigitsValue(s[3..5]) == t.month && DigitsValue(s[6..10]) == t.year
  {
    var s := FrenchDateFormat(t);
    assert s[0..2] == Pad(t.day, 2);
    assert s[3..5] == Pad(t.month, 2);
    assert s[6..10] == Pad(t.year, 4);
    PadValue(t.day, 2);
    PadValue(t.month, 2);
    PadValue(t.year, 4);
  }

  /** The value of the digits `s[i..i + w]`, if they are all digits. */
  function Field(s: string, i: nat, w: nat): Option<int>
    requires i + w <= |s|
  {
    if AllDigits(s[i..i + w]) then Some(DigitsValue(s[i..i + w])) else None
  }

  /** `datetime.fromisoformat(s)`, restricted to the 19-character
      `YYYY-MM-DDTHH:MM:SS` form that `isoformat()` writes for the records;
      `None` for every other text, including the shorter or longer ISO forms
      Python also accepts. */
  function ParseIso(s: string): Option<ValidDate>
  {
    if |s| != 19 || s[4] != '-' || s[7] != '-' || s[10] != 'T' || s[13] != ':' || s[16] != ':' then None
    else
      var y, mo, d := Field(s, 0, 4), Field(s, 5, 2), Field(s, 8, 2);
      var h, mi, se := Field(s, 11, 2), Field(s, 14, 2), Field(s, 17, 2);
      if y.None? || mo.None? || d.None? || h.None? || mi.None? || se.None? then None
      else
        var t := DateTime(y.value, mo.value, d.value, h.value, mi.value, se.value);
        if ValidDateTime(t) then Some(t) else None
  }

  /** The ISO text of a date reads back as that date. */
  lemma IsoRoundTrip(t: ValidDate)
    ensures ParseIso(IsoFormat(t)) == Some(t)
  {
    var s := IsoFormat(t);
    assert s[0..4] == Pad(t.year, 4);
    assert s[5..7] == Pad(t.month, 2);
    assert s[8..10] == Pad(t.day, 2);
    assert s[11..13] == Pad(t.hour, 2);
    assert s[14..16] == Pad(t.minute, 2);
    assert s[17..19] == Pad(t.second, 2);
    PadValue(t.year, 4);
    PadValue(t.month, 2);
    PadValue(t.day, 2);
    PadValue(t.hour, 2);
    PadValue(t.minute, 2);
    PadValue(t.second, 2);
  }

  /** Whatever text parses is the ISO text of the date it parses to. */
  lemma ParseIsoExact(s: string)
    requires ParseIso(s).Some?
    ensures IsoFormat(ParseIso(s).value) == s
  {
    var t := ParseIso(s).value;
    ValuePad(s[0..4]);
    ValuePad(s[5..7]);
    ValuePad(s[8..10]);
    ValuePad(s[11..13]);
    ValuePad(s[14..16]);
    ValuePad(s[17..19]);
    assert s == s[0..4] + "-" + s[5..7] + "-" + s[8..10] + "T" + s[11..13] + ":" + s[14..16] + ":" + s[17..19];
  }

  // ---------------------------------------------------------------------
  // The probe and the record
  // ---------------------------------------------------------------------

  /** What the TLS probe of one host yields: the certificate's expiry and the
      whole seconds from now until it, or the exception raised on the way
      (its class name and its `str()` text). */
  datatype Probe =
    | Expiry(notAfter: ValidDate, secondsLeft: int)
    | Failure(errorType: string, errorText: string)

  /** The dictionary a checker returns for one host: `days_left` and
      `expiry_date` for a certificate that was read, `error_message` for one
      that was not. */
  datatype CertRecord = CertRecord(
    domain: string,
    status: Status,
    daysLeft: Option<int>,
    expiryDate: Option<string>,
    errorMessage: Option<string>)

  /** The fields present match the status: a failure has an error message and
      no day count or date, anything else the other way round. */
  predicate WellShaped(r: CertRecord) {
    if r.status == Error then r.daysLeft.None? && r.expiryDate.None? && r.errorMessage.Some?
    else r.daysLeft.Some? && r.expiryDate.Some? && r.errorMessage.None?
  }

  /** A summary e-mail as composed (sending it over SMTP is not modelled). */
  datatype Email = Email(subject: string, sender: string, to: string, body: seq<string>)

  /** What a run did about the e-mail report: nothing, gave up because the
      mail settings are missing, raised while composing (a bad port
      setting or an unreadable date), or composed
      a message to hand to the SMTP server. */
  datatype Mail = NotSent | Aborted | Crashed | Composed(email: Email)

  const Separator := "----------------------------------------"
}
