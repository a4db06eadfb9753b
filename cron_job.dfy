/** The background task of backend/cron_job.py: check every watched domain,
    keep the records whose status is not `OK`, and compose one summary e-mail
    about them when the mail settings are all given.

    The checks run concurrently with `asyncio.gather`; the result list is in
    the order of the domains whatever order they finish in, so here it is the
    sequential map. The status file write is not modelled. */
module CronJob {
  import opened Wrappers
  import opened Text
  import opened Seqs
  import opened Certificate

  /** `get_ssl_expiry_info(hostname)` given what the probe of `hostname`
      yielded; a failure is reported as `"TypeName: message"`. */
  function GetSslExpiryInfo(hostname: string, probe: Probe): (r: CertRecord)
    ensures r.domain == hostname && WellShaped(r)
    ensures r.status == Error <==> probe.Failure?
    ensures r.status == Expired <==> probe.Expiry? && probe.secondsLeft < 0
    ensures r.status == ExpiringSoon <==>
      probe.Expiry? && 0 <= probe.secondsLeft < AlertThresholdDays * SecondsPerDay
    ensures r.status == Ok <==> probe.Expiry? && probe.secondsLeft >= AlertThresholdDays * SecondsPerDay
    ensures probe.Expiry? ==>
      r.daysLeft == Some(DaysLeft(probe.secondsLeft)) && r.expiryDate == Some(IsoFormat(probe.notAfter))
    ensures probe.Failure? ==>
      && r.errorMessage.Some?
      && probe.errorType + ": " <= r.errorMessage.value
      && r.errorMessage.value[|probe.errorType| + 2..] == probe.errorText
  {
    match probe
    case Expiry(notAfter, seconds) =>
      ClassifyBySeconds(seconds);
      var days := DaysLeft(seconds);
      CertRecord(hostname, Classify(days), Some(days), Some(IsoFormat(notAfter)), None)
    case Failure(errorType, text) =>
      CertRecord(hostname, Error, None, None, Some(errorType + ": " + text))
  }

  /** The records that need attention: status `Expire bientôt`, `Expiré` or `Erreur`. */
  predicate NeedsAttention(r: CertRecord)
    ensures NeedsAttention(r) <==> r.status != Ok
  {
    r.status == ExpiringSoon || r.status == Expired || r.status == Error
  }

  /** `critical_certs`: the records that need attention, in the order of the results. */
  function CriticalCerts(results: seq<CertRecord>): (r: seq<CertRecord>)
    ensures |r| <= |results|
    ensures forall k :: 0 <= k < |r| ==> r[k].status != Ok
  {
    Filter(NeedsAttention, results)
  }

  /** The critical records are exactly the results whose status is not `OK`,
      each as many times as it occurs in the results, in their order. */
  lemma CriticalCertsMeaning(results: seq<CertRecord>)
    ensures forall r :: r in CriticalCerts(results) <==> r in results && r.status != Ok
    ensures forall r ::
      multiset(CriticalCerts(results))[r] == if r.status != Ok then multiset(results)[r] else 0
    ensures IsSubsequence(CriticalCerts(results), results)
    ensures CriticalCerts(results) == [] <==> forall k :: 0 <= k < |results| ==> results[k].status == Ok
  {
    FilterMeaning(NeedsAttention, results);
    FilterEmpty(NeedsAttention, results);
  }

  // ---------------------------------------------------------------------
  // The summary report
  // ---------------------------------------------------------------------

  /** The environment variables the report reads (`None` when unset). */
  datatype MailSettings = MailSettings(
    sender: Option<string>,
    password: Option<string>,
    recipients: Option<string>,
    server: Option<string>,
    port: Option<string>)

  /** Digits, with single underscores allowed between two digits, as in the
      body of a Python integer literal. */
  predicate DigitGroups(b: string) {
    b != [] && IsDigit(b[0]) && IsDigit(b[|b| - 1]) &&
    forall k :: 0 <= k < |b| ==> IsDigit(b[k]) || (b[k] == '_' && k + 1 < |b| && IsDigit(b[k + 1]))
  }

  /** The texts Python's `int(text)` accepts in base 10: surrounding
      whitespace, an optional sign, then digit groups. */
  predicate IntLiteral(s: string) {
    var t := Trim(s);
    if t != [] && (t[0] == '+' || t[0] == '-') then DigitGroups(t[1..]) else DigitGroups(t)
  }

  /** `int(os.getenv("SMTP_PORT", 587))` does not raise: the variable is unset
      (the integer default is used) or holds an integer literal. */
  predicate PortParses(port: Option<string>) {
    port.None? || IntLiteral(port.value)
  }

  /** Plain decimal digits are an integer literal. */
  lemma DigitsAreIntLiteral(s: string)
    requires s != [] && AllDigits(s)
    ensures IntLiteral(s)
  {
    assert IsDigit(s[0]) && IsDigit(s[|s| - 1]);
    TrimKeeps(s);
  }

  /** A text with no whitespace at either end and no sign in front is an
      integer literal exactly when it is digit groups. */
  lemma UnsignedLiteral(s: string)
    requires s != [] && !IsSpace(s[0]) && !IsSpace(s[|s| - 1]) && s[0] != '+' && s[0] != '-'
    ensures IntLiteral(s) <==> DigitGroups(s)
  {
    TrimKeeps(s);
  }

  /** The default port, and a port given as plain digits, are accepted. */
  lemma PortAccepted()
    ensures PortParses(None) && PortParses(Some("587"))
  {
    DigitsAreIntLiteral("587");
  }

  /** A port that is blank, or whose first character past the whitespace is
      neither a digit nor a sign, makes `int` raise `ValueError`. */
  lemma PortNotANumber(port: string)
    requires Trim(port) == [] || !(IsDigit(Trim(port)[0]) || Trim(port)[0] == '+' || Trim(port)[0] == '-')
    ensures !PortParses(Some(port))
  {
  }

  /** So does a port with two underscores in a row. */
  lemma PortDoubledUnderscore(port: string, k: nat)
    requires k + 1 < |Trim(port)| && Trim(port)[k] == '_' && Trim(port)[k + 1] == '_'
    ensures !PortParses(Some(port))
  {
    var t := Trim(port);
    if t[0] == '+' || t[0] == '-' {
      if k == 0 {
        assert false;
      } else {
        DoubledUnderscore(t[1..], k - 1);
      }
    } else {
      DoubledUnderscore(t, k);
    }
  }

  /** Two underscores in a row are never digit groups. */
  lemma DoubledUnderscore(b: string, k: nat)
    requires k + 1 < |b| && b[k] == '_' && b[k + 1] == '_'
    ensures !DigitGroups(b)
  {
    assert !IsDigit(b[k]) && !IsDigit(b[k + 1]);
  }

  /** Set and not empty (a Python truth test on an environment variable). */
  predicate Given(v: Option<string>) {
    v.Some? && v.value != ""
  }

  /** `all([sender_email, password, recipients_str, smtp_server])` */
  predicate Configured(m: MailSettings) {
    Given(m.sender) && Given(m.password) && Given(m.recipients) && Given(m.server)
  }

  /** `[email.strip() for email in recipients_str.split(',')]` */
  function Recipients(recipients: string): (r: seq<string>)
    ensures |r| == |Split(recipients, ',')|
    ensures forall k :: 0 <= k < |r| ==> r[k] == Trim(Split(recipients, ',')[k])
  {
    var parts := Split(recipients, ',');
    seq(|parts|, k requires 0 <= k < |parts| => Trim(parts[k]))
  }

  /** Recipients listed without surrounding spaces come out exactly as listed. */
  lemma RecipientsRoundTrip(addresses: seq<string>)
    requires |addresses| >= 1
    requires forall k :: 0 <= k < |addresses| ==> ',' !in addresses[k] && Trim(addresses[k]) == addresses[k]
    ensures Recipients(Join(addresses, ",")) == addresses
  {
    SplitJoin(addresses, ',');
  }

  function Subject(count: nat): string {
    "\U{1F6A8} Rapport SSL : " + NatToString(count) + " certificat(s) requièrent votre attention"
  }

  const DomainPrefix := "Domaine : "
  const StatusPrefix := "Statut  : "
  const DaysPrefix := "Jours restants : "
  const ErrorPrefix := "Erreur : "

  predicate HasDays(c: CertRecord) {
    c.daysLeft.Some?
  }

  /** A Python truth test on `cert.get('error_message')`. */
  predicate HasErrorText(c: CertRecord) {
    c.errorMessage.Some? && c.errorMessage.value != ""
  }

  /** The line for the day count, if the record has one. */
  function DaysLines(c: CertRecord): seq<string> {
    if HasDays(c) then [DaysPrefix + IntToString(c.daysLeft.value)] else []
  }

  /** The line for the error message, if the record has a non-empty one. */
  function ErrorLines(c: CertRecord): seq<string> {
    if HasErrorText(c) then [ErrorPrefix + c.errorMessage.value] else []
  }

  function HeadLines(c: CertRecord): seq<string> {
    [Separator, DomainPrefix + c.domain, StatusPrefix + Label(c.status)]
  }

  /** The lines the loop appends for one record. */
  function CertLines(c: CertRecord): (r: seq<string>)
    ensures |r| == 4 + |DaysLines(c)| + |ErrorLines(c)| && r[0] == Separator
    ensures |DaysLines(c)| == (if HasDays(c) then 1 else 0)
    ensures |ErrorLines(c)| == (if HasErrorText(c) then 1 else 0)
    ensures r[1] == DomainPrefix + c.domain && r[2] == StatusPrefix + Label(c.status)
    ensures HasDays(c) ==> r[3] == DaysPrefix + IntToString(c.daysLeft.value)
    ensures HasErrorText(c) ==> r[|r| - 2] == ErrorPrefix + c.errorMessage.value
    ensures r[|r| - 1] == "\n"
  {
    HeadLines(c) + DaysLines(c) + ErrorLines(c) + ["\n"]
  }

  /** The lines for all records, in order. */
  function Blocks(certs: seq<CertRecord>): seq<string>
  {
    if certs == [] then [] else Blocks(certs[..|certs| - 1]) + CertLines(certs[|certs| - 1])
  }

  function Header(today: ValidDate): string {
    "Rapport de surveillance SSL du " + FrenchDateFormat(today)
  }

  /** The body of the summary e-mail, line by line (joined with newlines when sent). */
  function Body(today: ValidDate, certs: seq<CertRecord>): (r: seq<string>)
    ensures |r| == 2 + |Blocks(certs)| && r[0] == Header(today)
    ensures r[1] == "\n" && r[2..] == Blocks(certs)
  {
    [Header(today), "\n"] + Blocks(certs)
  }

  /** `send_summary_report(critical_certs)` up to the SMTP exchange, on the
      given settings and the given day. The port is converted before the
      other settings are tested, so a bad port raises even when they are
      missing. */
  function Report(settings: MailSettings, today: ValidDate, certs: seq<CertRecord>): (m: Mail)
    ensures m.Crashed? <==> !PortParses(settings.port)
    ensures m.Aborted? <==> PortParses(settings.port) && !Configured(settings)
    ensures m.Composed? <==> PortParses(settings.port) && Configured(settings)
  {
    if !PortParses(settings.port) then Crashed
    else if !Configured(settings) then Aborted
    else
      Composed(Email(
        Subject(|certs|),
        settings.sender.value,
        Join(Recipients(settings.recipients.value), ", "),
        Body(today, certs)))
  }

  /** A block's tally is the sum of its parts' tallies. */
  lemma PartsTally(c: CertRecord, prefix: string)
    ensures Tally(CertLines(c), prefix) ==
      Tally(HeadLines(c), prefix) + Tally(DaysLines(c), prefix) + Tally(ErrorLines(c), prefix) + Tally(["\n"], prefix)
  {
    TallyConcat(HeadLines(c) + DaysLines(c) + ErrorLines(c), ["\n"], prefix);
    TallyConcat(HeadLines(c) + DaysLines(c), ErrorLines(c), prefix);
    TallyConcat(HeadLines(c), DaysLines(c), prefix);
  }

  lemma SeparatorTally(c: CertRecord)
    ensures Tally(CertLines(c), Separator) == 1
  {
    PartsTally(c, Separator);
    var head := HeadLines(c);
    assert head == [Separator] + head[1..];
    TallyNoneByFirst(head[1..], Separator);
    TallyNoneByFirst(DaysLines(c), Separator);
    TallyNoneByFirst(ErrorLines(c), Separator);
    TallyNoneByFirst(["\n"], Separator);
  }

  lemma DaysTally(c: CertRecord)
    ensures Tally(CertLines(c), DaysPrefix) == if HasDays(c) then 1 else 0
  {
    PartsTally(c, DaysPrefix);
    TallyNoneByFirst(HeadLines(c), DaysPrefix);
    if HasDays(c) {
      TallyOne(DaysLines(c)[0], DaysPrefix);
    }
    TallyNoneByFirst(ErrorLines(c), DaysPrefix);
    TallyNoneByFirst(["\n"], DaysPrefix);
  }

  lemma ErrorTally(c: CertRecord)
    ensures Tally(CertLines(c), ErrorPrefix) == if HasErrorText(c) then 1 else 0
  {
    PartsTally(c, ErrorPrefix);
    TallyNoneByFirst(HeadLines(c), ErrorPrefix);
    TallyNoneByFirst(DaysLines(c), ErrorPrefix);
    if HasErrorText(c) {
      TallyOne(ErrorLines(c)[0], ErrorPrefix);
    }
    TallyNoneByFirst(["\n"], ErrorPrefix);
  }

  /** The body has one separator per record, one days line per record that
      carries a day count, and one error line per record with a non-empty
      error message. */
  lemma {:induction false} BodyTallies(today: ValidDate, certs: seq<CertRecord>)
    ensures Tally(Body(today, certs), Separator) == |certs|
    ensures Tally(Body(today, certs), DaysPrefix) == |Filter(HasDays, certs)|
    ensures Tally(Body(today, certs), ErrorPrefix) == |Filter(HasErrorText, certs)|
  {
    assert Header(today)[0] == 'R';
    TallyConcat([Header(today), "\n"], Blocks(certs), Separator);
    TallyConcat([Header(today), "\n"], Blocks(certs), DaysPrefix);
    TallyConcat([Header(today), "\n"], Blocks(certs), ErrorPrefix);
    BlocksTallies(certs);
  }

  lemma BlocksTallies(certs: seq<CertRecord>)
    ensures Tally(Blocks(certs), Separator) == |certs|
    ensures Tally(Blocks(certs), DaysPrefix) == |Filter(HasDays, certs)|
    ensures Tally(Blocks(certs), ErrorPrefix) == |Filter(HasErrorText, certs)|
  {
    BlocksSeparators(certs);
    BlocksDays(certs);
    BlocksErrors(certs);
  }

  lemma {:induction false} BlocksSeparators(certs: seq<CertRecord>)
    ensures Tally(Blocks(certs), Separator) == |certs|
  {
    if certs != [] {
      var init, c := certs[..|certs| - 1], certs[|certs| - 1];
      assert Blocks(certs) == Blocks(init) + CertLines(c);
      BlocksSeparators(init);
      SeparatorTally(c);
      TallyConcat(Blocks(init), CertLines(c), Separator);
    }
  }

  lemma {:induction false} BlocksDays(certs: seq<CertRecord>)
    ensures Tally(Blocks(certs), DaysPrefix) == |Filter(HasDays, certs)|
  {
    if certs != [] {
      var init, c := certs[..|certs| - 1], certs[|certs| - 1];
      assert Blocks(certs) == Blocks(init) + CertLines(c);
      BlocksDays(init);
      DaysTally(c);
      TallyConcat(Blocks(init), CertLines(c), DaysPrefix);
      FilterSnocCount(HasDays, certs);
    }
  }

  lemma {:induction false} BlocksErrors(certs: seq<CertRecord>)
    ensures Tally(Blocks(certs), ErrorPrefix) == |Filter(HasErrorText, certs)|
  {
    if certs != [] {
      var init, c := certs[..|certs| - 1], certs[|certs| - 1];
      assert Blocks(certs) == Blocks(init) + CertLines(c);
      BlocksErrors(init);
      ErrorTally(c);
      TallyConcat(Blocks(init), CertLines(c), ErrorPrefix);
      FilterSnocCount(HasErrorText, certs);
    }
  }

  /** The appends of one iteration of the report loop. */
  method AppendCertLines(c: CertRecord) returns (block: seq<string>)
    ensures block == CertLines(c)
  {
    block := [Separator];
    block := block + [DomainPrefix + c.domain];
    block := block + [StatusPrefix + Label(c.status)];
    if c.daysLeft.Some? {
      block := block + [DaysPrefix + IntToString(c.daysLeft.value)];
    }
    if c.errorMessage.Some? && c.errorMessage.value != "" {
      block := block + [ErrorPrefix + c.errorMessage.value];
    }
    block := block + ["\n"];
  }

  lemma BlocksSnoc(certs: seq<CertRecord>, i: nat)
    requires i < |certs|
    ensures Blocks(certs[..i + 1]) == Blocks(certs[..i]) + CertLines(certs[i])
  {
    assert certs[..i + 1][..i] == certs[..i];
  }

  /** The lines for the first `i` records begin the lines for all of them. */
  lemma {:induction false} BlocksPrefix(certs: seq<CertRecord>, i: nat)
    requires i <= |certs|
    ensures Blocks(certs[..i]) <= Blocks(certs)
    decreases |certs| - i
  {
    if i < |certs| {
      BlocksSnoc(certs, i);
      BlocksPrefix(certs, i + 1);
      var a, b := Blocks(certs[..i]), Blocks(certs[..i + 1]);
      assert b[..|a|] == a;
    } else {
      assert certs[..i] == certs;
    }
  }

  /** The body names each record's domain and status, its day count if it
      has one, and its error message if it has a non-empty one. */
  lemma BodyMentions(today: ValidDate, certs: seq<CertRecord>, k: nat)
    requires k < |certs|
    ensures DomainPrefix + certs[k].domain in Body(today, certs)
    ensures StatusPrefix + Label(certs[k].status) in Body(today, certs)
    ensures HasDays(certs[k]) ==> DaysPrefix + IntToString(certs[k].daysLeft.value) in Body(today, certs)
    ensures HasErrorText(certs[k]) ==> ErrorPrefix + certs[k].errorMessage.value in Body(today, certs)
  {
    var c := certs[k];
    BlocksSnoc(certs, k);
    BlocksPrefix(certs, k + 1);
    var a, lines, all := Blocks(certs[..k]), CertLines(c), Blocks(certs);
    PrefixMember(a, lines, all, 1);
    PrefixMember(a, lines, all, 2);
    if HasDays(c) {
      PrefixMember(a, lines, all, 3);
    }
    if HasErrorText(c) {
      PrefixMember(a, lines, all, |lines| - 2);
    }
    assert Body(today, certs) == [Header(today), "\n"] + all;
  }

  /** The `body_lines` of `send_summary_report`: the heading, then the
      lines the loop appends for each record. */
  method BuildBody(today: ValidDate, certs: seq<CertRecord>) returns (lines: seq<string>)
    ensures lines == Body(today, certs)
  {
    var header := Header(today);
    var blocks := AppendBlocks(certs);
    lines := [header, "\n"] + blocks;
  }

  /** The loop over the records in `send_summary_report`. */
  method AppendBlocks(certs: seq<CertRecord>) returns (blocks: seq<string>)
    ensures blocks == Blocks(certs)
  {
    blocks := [];
    var i := 0;
    while i < |certs|
      invariant 0 <= i <= |certs|
      invariant blocks == Blocks(certs[..i])
    {
      var block := AppendCertLines(certs[i]);
      BlocksSnoc(certs, i);
      blocks := blocks + block;
      i := i + 1;
    }
    assert certs[..|certs|] == certs;
  }

  /** `send_summary_report`: gives up when a mail setting is missing, otherwise
      composes the message. */
  method SendSummaryReport(settings: MailSettings, today: ValidDate, certs: seq<CertRecord>)
    returns (mail: Mail)
    ensures mail == Report(settings, today, certs)
  {
    if !PortParses(settings.port) {
      return Crashed;
    }
    if !Configured(settings) {
      return Aborted;
    }
    var recipients := Recipients(settings.recipients.value);
    var lines := BuildBody(today, certs);
    mail := Composed(Email(Subject(|certs|), settings.sender.value, Join(recipients, ", "), lines));
  }

  /** `main()`: checks every domain, then reports the records that need
      attention, if there are any. `probes[k]` is what probing `domains[k]`
      yields and `today` is the day of the run. */
  method Run(domains: seq<string>, probes: seq<Probe>, settings: MailSettings, today: ValidDate)
    returns (results: seq<CertRecord>, mail: Mail)
    requires |probes| == |domains|
    ensures |results| == |domains|
    ensures forall k :: 0 <= k < |domains| ==> results[k] == GetSslExpiryInfo(domains[k], probes[k])
    ensures mail.NotSent? <==> forall k :: 0 <= k < |results| ==> results[k].status == Ok
    ensures !mail.NotSent? ==> mail == Report(settings, today, CriticalCerts(results))
  {
    if domains == [] {
      return [], NotSent;
    }
    results := seq(|domains|, k requires 0 <= k < |domains| => GetSslExpiryInfo(domains[k], probes[k]));
    var critical := CriticalCerts(results);
    FilterEmpty(NeedsAttention, results);
    if critical != [] {
      mail := SendSummaryReport(settings, today, critical);
    } else {
      mail := NotSent;
    }
  }
}
