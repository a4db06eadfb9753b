/** The stand-alone monitor of backend/monitor.py: read the domains file,
    check every domain in turn, and send one summary e-mail about the
    certificates that need an alert now. Unlike the background task it does
    not alert about every certificate that expires soon: only about expired
    ones, failed checks, and those with exactly 5 or 7 days left.

    Reading `config.json` and `domains.txt`, writing the status file and the
    SMTP exchange are not modelled: the domains file is given as text and the
    configuration as a value. */
module BackendMonitor {
  import opened Wrappers
  import opened Text
  import opened Seqs
  import opened Certificate
  import MonitorLogic
  import CronJob

  // ---------------------------------------------------------------------
  // The domains file
  // ---------------------------------------------------------------------

  /** `line.startswith('#')` on the line as read, before stripping. */
  predicate IsComment(line: string) {
    "#" <= line
  }

  predicate NotComment(line: string) {
    !IsComment(line)
  }

  /** `[line.strip() for line in f if line.strip() and not line.startswith('#')]` */
  function KeptLines(lines: seq<string>): (r: seq<string>)
    ensures |r| <= |lines|
    ensures forall k :: 0 <= k < |r| ==> r[k] != ""
  {
    if lines == [] then []
    else
      var rest := KeptLines(lines[1..]);
      if Trim(lines[0]) != "" && !IsComment(lines[0]) then [Trim(lines[0])] + rest else rest
  }

  /** The domains listed in the text of `domains.txt`. */
  function DomainLines(text: string): seq<string> {
    KeptLines(Split(text, '\n'))
  }

  /** Keeping the lines is dropping the comment lines, then taking the
      stripped, non-blank ones: only a line whose very first character is
      `#` is a comment, so one indented before its `#` is kept. */
  lemma {:induction false} KeptLinesMeaning(lines: seq<string>)
    ensures KeptLines(lines) == TrimmedNonBlank(Filter(NotComment, lines))
  {
    if lines != [] {
      KeptLinesMeaning(lines[1..]);
    }
  }

  /** Every listed domain is non-blank and stripped, and none starts with
      `#` unless its line was indented. */
  lemma DomainLinesShape(text: string)
    ensures forall k :: 0 <= k < |DomainLines(text)| ==>
      DomainLines(text)[k] != "" && Trim(DomainLines(text)[k]) == DomainLines(text)[k]
  {
    KeptLinesMeaning(Split(text, '\n'));
    TrimmedNonBlankShape(Filter(NotComment, Split(text, '\n')));
  }

  /** A comment line is dropped, while a line indented before its `#` is
      kept, stripped, along with an ordinary domain line. */
  lemma CommentExample(comment: string, indented: string, domain: string)
    requires IsComment(comment)
    requires indented != "" && IsSpace(indented[0]) && IsComment(Trim(indented))
    requires domain != "" && Trim(domain) == domain && !IsComment(domain)
    ensures KeptLines([comment, indented, domain]) == [Trim(indented), domain]
  {
    KeptLinesCons(domain, []);
    KeptLinesCons(indented, [domain]);
    KeptLinesCons(comment, [indented, domain]);
  }

  lemma KeptLinesCons(line: string, rest: seq<string>)
    ensures KeptLines([line] + rest) ==
      if Trim(line) != "" && !IsComment(line) then [Trim(line)] + KeptLines(rest) else KeptLines(rest)
  {
    assert ([line] + rest)[1..] == rest;
  }

  // ---------------------------------------------------------------------
  // The alert decision
  // ---------------------------------------------------------------------

  /** `CRITICAL_ALERT_DAYS`: the day counts that trigger an alert. */
  const CriticalAlertDays: seq<int> := [5, 7]

  /** `is_critical_for_email`: always for an expired certificate or a failed
      check, otherwise only when the day count is one of the alert days. */
  predicate IsCriticalForEmail(info: CertRecord)
    ensures info.status == Expired || info.status == Error ==> IsCriticalForEmail(info)
    ensures info.daysLeft.None? ==> (IsCriticalForEmail(info) <==> info.status == Expired || info.status == Error)
    ensures info.daysLeft.Some? && info.daysLeft.value != 5 && info.daysLeft.value != 7 ==>
      (IsCriticalForEmail(info) <==> info.status == Expired || info.status == Error)
  {
    if info.status == Expired || info.status == Error then true
    else info.daysLeft.Some? && info.daysLeft.value in CriticalAlertDays
  }

  /** What the alert decision means for a checked certificate: an alert is sent
      exactly for a failed check, an expiry already past, or exactly 5 or 7
      whole days left. */
  lemma CriticalPolicy(hostname: string, probe: Probe)
    ensures IsCriticalForEmail(MonitorLogic.GetSslExpiryInfo(hostname, probe)) <==>
      probe.Failure? || probe.secondsLeft < 0 || DaysLeft(probe.secondsLeft) == 5 || DaysLeft(probe.secondsLeft) == 7
  {
    if probe.Expiry? {
      ClassifyBySeconds(probe.secondsLeft);
    }
  }

  /** A certificate with status `OK` never triggers an alert, nor does one with
      any other number of days left than 5 or 7, such as 10. */
  lemma NotCriticalCases(hostname: string, probe: Probe)
    ensures var r := MonitorLogic.GetSslExpiryInfo(hostname, probe);
      (r.status == Ok ==> !IsCriticalForEmail(r))
      && (r.status == ExpiringSoon ==> (IsCriticalForEmail(r) <==> r.daysLeft.value == 5 || r.daysLeft.value == 7))
      && (probe.Expiry? && DaysLeft(probe.secondsLeft) == 10 ==> !IsCriticalForEmail(r))
  {
    CriticalPolicy(hostname, probe);
  }

  /** Every certificate this monitor alerts about is one the background task
      reports too; the converse fails for 0 to 29 days other than 5 and 7. */
  lemma AlertsAreReported(hostname: string, probe: Probe)
    ensures IsCriticalForEmail(MonitorLogic.GetSslExpiryInfo(hostname, probe)) ==>
      CronJob.NeedsAttention(CronJob.GetSslExpiryInfo(hostname, probe))
    ensures probe.Expiry? && DaysLeft(probe.secondsLeft) == 10 ==>
      CronJob.NeedsAttention(CronJob.GetSslExpiryInfo(hostname, probe))
      && !IsCriticalForEmail(MonitorLogic.GetSslExpiryInfo(hostname, probe))
  {
    CriticalPolicy(hostname, probe);
  }

  // ---------------------------------------------------------------------
  // The summary report
  // ---------------------------------------------------------------------

  /** The parts of `config.json` the report uses. */
  datatype MonitorConfig = MonitorConfig(recipients: seq<string>, sender: string)

  const Intro := "Le rapport de surveillance a identifié " + "les certificats suivants comme étant critiques :"
  const Greeting := ["Bonjour,", "\n", Intro, "\n"]
  const DomainPrefix := "Domaine : "
  const StatusPrefix := "Statut  : "
  const DaysPrefix := "Jours restants : "
  const ExpiryPrefix := "Date d'expiration : "
  const ErrorPrefix := "Message d'erreur : "
  const UnknownError := "Inconnue"
  const NoDays := "N/A"

  function Subject(count: nat): string {
    "\U{1F6A8} Rapport de Surveillance SSL : " + NatToString(count) + " certificat(s) requièrent votre attention"
  }

  function HeadLines(c: CertRecord): seq<string> {
    [Separator, DomainPrefix + c.domain, StatusPrefix + Label(c.status)]
  }

  /** `cert.get('days_left', 'N/A')` as printed. */
  function DaysText(c: CertRecord): string {
    if c.daysLeft.Some? then IntToString(c.daysLeft.value) else NoDays
  }

  /** The lines the loop appends for one record; `None` where the source
      raises because the expiry date is missing or is not ISO text. */
  function CertLines(c: CertRecord): (r: Option<seq<string>>)
    ensures r.Some? <==> Reportable(c)
    ensures r.Some? ==> |r.value| == (if c.status != Error then 6 else 5) && r.value[0] == Separator
    ensures r.Some? ==> r.value[1] == DomainPrefix + c.domain && r.value[2] == StatusPrefix + Label(c.status)
    ensures r.Some? ==> r.value[|r.value| - 1] == ""
  {
    var head := HeadLines(c);
    if c.status != Error then
      if c.expiryDate.None? then None
      else
        match ParseIso(c.expiryDate.value)
        case None => None
        case Some(t) =>
          Some(head + [DaysPrefix + DaysText(c), ExpiryPrefix + FrenchDateFormat(t), ""])
    else
      Some(head + [ErrorPrefix + c.errorMessage.GetOr(UnknownError), ""])
  }

  /** The lines for all records in order, or `None` if one of them raises. */
  function Blocks(certs: seq<CertRecord>): Option<seq<string>>
  {
    if certs == [] then Some([])
    else
      var init := Blocks(certs[..|certs| - 1]);
      var last := CertLines(certs[|certs| - 1]);
      if init.None? || last.None? then None else Some(init.value + last.value)
  }

  /** The body of the summary e-mail, line by line, or `None` if building it raises. */
  function Body(certs: seq<CertRecord>): (r: Option<seq<string>>)
    ensures r.Some? <==> Blocks(certs).Some?
    ensures r.Some? ==> |r.value| == |Greeting| + |Blocks(certs).value|
    ensures r.Some? ==> r.value[..|Greeting|] == Greeting && r.value[|Greeting|..] == Blocks(certs).value
  {
    var blocks := Blocks(certs);
    if blocks.None? then None else Some(Greeting + blocks.value)
  }

  /** `send_summary_report(config, critical_certs)` up to the SMTP exchange. */
  function Report(config: MonitorConfig, certs: seq<CertRecord>): (m: Mail)
    ensures m.Crashed? || m.Composed?
    ensures m.Crashed? <==> exists k :: 0 <= k < |certs| && !Reportable(certs[k])
    ensures m.Composed? ==>
      Body(certs).Some? && m.email.subject == Subject(|certs|) && m.email.sender == config.sender
      && m.email.to == Join(config.recipients, ", ") && m.email.body == Body(certs).value
  {
    ReportableBlocks(certs);
    var body := Body(certs);
    if body.None? then Crashed
    else Composed(Email(Subject(|certs|), config.sender, Join(config.recipients, ", "), body.value))
  }

  /** A record whose body block can be written: one that is not `Erreur`
      carries an ISO expiry date. */
  predicate Reportable(c: CertRecord) {
    c.status != Error ==> c.expiryDate.Some? && ParseIso(c.expiryDate.value).Some?
  }

  /** Every record the check produces can be reported. */
  lemma CheckedRecordsAreReportable(hostname: string, probe: Probe)
    ensures Reportable(MonitorLogic.GetSslExpiryInfo(hostname, probe))
  {
    if probe.Expiry? {
      MonitorLogic.ExpiryDateReadsBack(hostname, probe);
    }
  }

  /** The body of a report is written exactly when every record in it is
      reportable. */
  lemma ReportableBlocks(certs: seq<CertRecord>)
    ensures Blocks(certs).Some? <==> forall k :: 0 <= k < |certs| ==> Reportable(certs[k])
  {
    if Blocks(certs).Some? {
      forall k | 0 <= k < |certs|
        ensures Reportable(certs[k])
      {
        WrittenBlocksReportable(certs, k);
      }
    } else if forall k :: 0 <= k < |certs| ==> Reportable(certs[k]) {
      ReportableWritten(certs);
    }
  }

  /** Each record of a written body is reportable. */
  lemma {:induction false} WrittenBlocksReportable(certs: seq<CertRecord>, k: nat)
    requires Blocks(certs).Some? && k < |certs|
    ensures Reportable(certs[k])
  {
    var init := certs[..|certs| - 1];
    BlocksSnocWritten(certs);
    if k < |init| {
      WrittenBlocksReportable(init, k);
      assert init[k] == certs[k];
    }
  }

  /** A body about reportable records is written. */
  lemma {:induction false} ReportableWritten(certs: seq<CertRecord>)
    requires forall k :: 0 <= k < |certs| ==> Reportable(certs[k])
    ensures Blocks(certs).Some?
  {
    if certs != [] {
      var init := certs[..|certs| - 1];
      assert forall k :: 0 <= k < |init| ==> init[k] == certs[k];
      ReportableWritten(init);
      BlocksSnocWritten(certs);
    }
  }

  /** The blocks are written when those before the last record are and the
      last record is reportable. */
  lemma {:induction false} BlocksSnocWritten(certs: seq<CertRecord>)
    requires certs != []
    ensures Blocks(certs).Some? <==>
      Blocks(certs[..|certs| - 1]).Some? && Reportable(certs[|certs| - 1])
  {
    var last := CertLines(certs[|certs| - 1]);
    assert last.Some? <==> Reportable(certs[|certs| - 1]);
    assert Blocks(certs).Some? <==> Blocks(certs[..|certs| - 1]).Some? && last.Some?;
  }

  predicate IsFailure(c: CertRecord) {
    c.status == Error
  }

  predicate IsRead(c: CertRecord) {
    c.status != Error
  }

  /** The first three lines of a block: one separator. */
  lemma HeadTallies(c: CertRecord)
    ensures Tally(HeadLines(c), Separator) == 1
    ensures Tally(HeadLines(c), ExpiryPrefix) == 0
    ensures Tally(HeadLines(c), ErrorPrefix) == 0
    ensures Tally(HeadLines(c), DaysPrefix) == 0
  {
    var d, s := DomainPrefix + c.domain, StatusPrefix + Label(c.status);
    TallyThree(Separator, d, s, Separator);
    TallyThree(Separator, d, s, ExpiryPrefix);
    TallyThree(Separator, d, s, ErrorPrefix);
    NotPrefix(Separator, d, 0);
    NotPrefix(Separator, s, 0);
    NotPrefix(ExpiryPrefix, Separator, 0);
    NotPrefix(ExpiryPrefix, d, 1);
    NotPrefix(ExpiryPrefix, s, 0);
    NotPrefix(ErrorPrefix, Separator, 0);
    NotPrefix(ErrorPrefix, d, 0);
    NotPrefix(ErrorPrefix, s, 0);
    TallyThree(Separator, d, s, DaysPrefix);
    NotPrefix(DaysPrefix, Separator, 0);
    NotPrefix(DaysPrefix, d, 0);
    NotPrefix(DaysPrefix, s, 0);
  }

  /** The rest of a block for a certificate that was read: its expiry line. */
  lemma ReadTailTallies(days: string, date: string)
    ensures Tally([DaysPrefix + days, ExpiryPrefix + date, ""], Separator) == 0
    ensures Tally([DaysPrefix + days, ExpiryPrefix + date, ""], ExpiryPrefix) == 1
    ensures Tally([DaysPrefix + days, ExpiryPrefix + date, ""], ErrorPrefix) == 0
    ensures Tally([DaysPrefix + days, ExpiryPrefix + date, ""], DaysPrefix) == 1
  {
    var a, b := DaysPrefix + days, ExpiryPrefix + date;
    TallyThree(a, b, "", Separator);
    TallyThree(a, b, "", ExpiryPrefix);
    TallyThree(a, b, "", ErrorPrefix);
    NotPrefix(Separator, a, 0);
    NotPrefix(Separator, b, 0);
    NotPrefix(ExpiryPrefix, a, 0);
    NotPrefix(ErrorPrefix, a, 0);
    NotPrefix(ErrorPrefix, b, 0);
    TallyThree(a, b, "", DaysPrefix);
    NotPrefix(DaysPrefix, b, 0);
  }

  /** The rest of a block for a failed check: its error line. */
  lemma FailureTailTallies(message: string)
    ensures Tally([ErrorPrefix + message, ""], Separator) == 0
    ensures Tally([ErrorPrefix + message, ""], ExpiryPrefix) == 0
    ensures Tally([ErrorPrefix + message, ""], ErrorPrefix) == 1
    ensures Tally([ErrorPrefix + message, ""], DaysPrefix) == 0
  {
    var a := ErrorPrefix + message;
    assert [a, ""] == [a] + [""];
    TallyConcat([a], [""], Separator);
    TallyConcat([a], [""], ExpiryPrefix);
    TallyConcat([a], [""], ErrorPrefix);
    TallyOne(a, Separator);
    TallyOne(a, ExpiryPrefix);
    TallyOne(a, ErrorPrefix);
    TallyOne("", Separator);
    TallyOne("", ExpiryPrefix);
    TallyOne("", ErrorPrefix);
    NotPrefix(Separator, a, 0);
    NotPrefix(ExpiryPrefix, a, 0);
    TallyConcat([a], [""], DaysPrefix);
    TallyOne(a, DaysPrefix);
    TallyOne("", DaysPrefix);
    NotPrefix(DaysPrefix, a, 0);
  }

  /** Tallies of a block: one separator, and a days line and an expiry line
      for a certificate that was read or an error line for one that was not. */
  lemma CertLinesTallies(c: CertRecord)
    requires CertLines(c).Some?
    ensures Tally(CertLines(c).value, Separator) == 1
    ensures Tally(CertLines(c).value, ExpiryPrefix) == (if IsRead(c) then 1 else 0)
    ensures Tally(CertLines(c).value, ErrorPrefix) == (if IsFailure(c) then 1 else 0)
    ensures Tally(CertLines(c).value, DaysPrefix) == (if IsRead(c) then 1 else 0)
  {
    var head := HeadLines(c);
    var tail := CertLines(c).value[3..];
    assert CertLines(c).value == head + tail;
    HeadTallies(c);
    TallyConcat(head, tail, Separator);
    TallyConcat(head, tail, ExpiryPrefix);
    TallyConcat(head, tail, ErrorPrefix);
    TallyConcat(head, tail, DaysPrefix);
    if IsRead(c) {
      var t := ParseIso(c.expiryDate.value).value;
      assert tail == [DaysPrefix + DaysText(c), ExpiryPrefix + FrenchDateFormat(t), ""];
      ReadTailTallies(DaysText(c), FrenchDateFormat(t));
    } else {
      assert tail == [ErrorPrefix + c.errorMessage.GetOr(UnknownError), ""];
      FailureTailTallies(c.errorMessage.GetOr(UnknownError));
    }
  }

  /** The body has one separator per record, a days line and an expiry line
      per certificate that was read and an error line per failed check. */
  lemma {:induction false} BlocksTallies(certs: seq<CertRecord>)
    requires Blocks(certs).Some?
    ensures Tally(Blocks(certs).value, Separator) == |certs|
    ensures Tally(Blocks(certs).value, ExpiryPrefix) == |Filter(IsRead, certs)|
    ensures Tally(Blocks(certs).value, ErrorPrefix) == |Filter(IsFailure, certs)|
    ensures Tally(Blocks(certs).value, DaysPrefix) == |Filter(IsRead, certs)|
  {
    if certs != [] {
      var init, c := certs[..|certs| - 1], certs[|certs| - 1];
      var a, b := Blocks(init).value, CertLines(c).value;
      assert Blocks(certs).value == a + b;
      BlocksTallies(init);
      CertLinesTallies(c);
      TallyConcat(a, b, Separator);
      TallyConcat(a, b, ExpiryPrefix);
      TallyConcat(a, b, ErrorPrefix);
      TallyConcat(a, b, DaysPrefix);
      FilterSnocCount(IsRead, certs);
      FilterSnocCount(IsFailure, certs);
    }
  }

  /** The greeting adds none of the tallied lines. */
  lemma BodyTallies(certs: seq<CertRecord>)
    requires Body(certs).Some?
    ensures Tally(Body(certs).value, Separator) == |certs|
    ensures Tally(Body(certs).value, ExpiryPrefix) == |Filter(IsRead, certs)|
    ensures Tally(Body(certs).value, ErrorPrefix) == |Filter(IsFailure, certs)|
    ensures Tally(Body(certs).value, DaysPrefix) == |Filter(IsRead, certs)|
  {
    BlocksTallies(certs);
    var b := Blocks(certs).value;
    TallyConcat(Greeting, b, Separator);
    TallyConcat(Greeting, b, ExpiryPrefix);
    TallyConcat(Greeting, b, ErrorPrefix);
    TallyConcat(Greeting, b, DaysPrefix);
    GreetingTally(Separator);
    GreetingTally(ExpiryPrefix);
    GreetingTally(ErrorPrefix);
    GreetingTally(DaysPrefix);
  }

  lemma GreetingTally(prefix: string)
    requires prefix != [] && (prefix[0] == '-' || prefix[0] == 'D' || prefix[0] == 'M' || prefix[0] == 'J')
    ensures Tally(Greeting, prefix) == 0
  {
    assert Intro[0] == 'L';
    NotPrefix(prefix, Intro, 0);
    var hello, nl := "Bonjour,", "\n";
    NotPrefix(prefix, hello, 0);
    NotPrefix(prefix, nl, 0);
    assert Greeting == [hello, nl, Intro, nl];
    TallyNone(Greeting, prefix);
  }

  /** What a block says: for a certificate that was read, its day count (or
      `N/A`) and its expiry date as `%d/%m/%Y`; for a failed check, its error
      message, or `Inconnue` when the record has none. */
  lemma CertLinesContent(c: CertRecord)
    requires CertLines(c).Some?
    ensures IsRead(c) ==> c.expiryDate.Some? && ParseIso(c.expiryDate.value).Some?
    ensures IsRead(c) ==> (CertLines(c).value[3..] ==
      [DaysPrefix + DaysText(c), ExpiryPrefix + FrenchDateFormat(ParseIso(c.expiryDate.value).value), ""])
    ensures IsFailure(c) ==> CertLines(c).value[3..] == [ErrorPrefix + c.errorMessage.GetOr(UnknownError), ""]
    ensures DaysText(c) == NoDays <==> c.daysLeft.None?
  {
    if c.daysLeft.Some? {
      assert IntToString(c.daysLeft.value) != NoDays by {
        var t := IntToString(c.daysLeft.value);
        assert t[0] == '-' || IsDigit(t[0]);
      }
    }
  }

  /** When all the blocks are written, the blocks for the first `i` records
      are written too and begin them. */
  lemma {:induction false} BlocksPrefix(certs: seq<CertRecord>, i: nat)
    requires Blocks(certs).Some? && i <= |certs|
    ensures Blocks(certs[..i]).Some? && Blocks(certs[..i]).value <= Blocks(certs).value
    decreases |certs| - i
  {
    if i < |certs| {
      BlocksSnoc(certs, i);
      BlocksPrefix(certs, i + 1);
      var a, b := Blocks(certs[..i]).value, Blocks(certs[..i + 1]).value;
      assert b[..|a|] == a;
    } else {
      assert certs[..i] == certs;
    }
  }

  /** The body names each record's domain and status, and its day count and
      expiry date, or its error. */
  lemma BodyMentions(certs: seq<CertRecord>, k: nat)
    requires Body(certs).Some? && k < |certs|
    ensures DomainPrefix + certs[k].domain in Body(certs).value
    ensures StatusPrefix + Label(certs[k].status) in Body(certs).value
    ensures IsRead(certs[k]) ==> (certs[k].expiryDate.Some? && ParseIso(certs[k].expiryDate.value).Some?
      && DaysPrefix + DaysText(certs[k]) in Body(certs).value
      && ExpiryPrefix + FrenchDateFormat(ParseIso(certs[k].expiryDate.value).value) in Body(certs).value)
    ensures IsFailure(certs[k]) ==> ErrorPrefix + certs[k].errorMessage.GetOr(UnknownError) in Body(certs).value
  {
    var c := certs[k];
    BlocksPrefix(certs, k + 1);
    BlocksSnoc(certs, k);
    CertLinesContent(c);
    var a, lines, all := Blocks(certs[..k]).value, CertLines(c).value, Blocks(certs).value;
    PrefixMember(a, lines, all, 1);
    PrefixMember(a, lines, all, 2);
    PrefixMember(a, lines, all, 3);
    if IsRead(c) {
      PrefixMember(a, lines, all, 4);
    }
    assert Body(certs).value == Greeting + all;
  }

  // ---------------------------------------------------------------------
  // The loops
  // ---------------------------------------------------------------------

  lemma BlocksSnoc(certs: seq<CertRecord>, i: nat)
    requires i < |certs|
    ensures Blocks(certs[..i + 1]) ==
      if Blocks(certs[..i]).None? || CertLines(certs[i]).None? then None
      else Some(Blocks(certs[..i]).value + CertLines(certs[i]).value)
  {
    assert certs[..i + 1][..i] == certs[..i];
  }

  /** The appends of one iteration of the report loop; `None` where the
      source raises. */
  method AppendCertLines(c: CertRecord) returns (block: Option<seq<string>>)
    ensures block == CertLines(c)
  {
    var lines := [Separator];
    lines := lines + [DomainPrefix + c.domain];
    lines := lines + [StatusPrefix + Label(c.status)];
    ghost var head := lines;
    assert head == [Separator, DomainPrefix + c.domain, StatusPrefix + Label(c.status)];
    if c.status == Error {
      lines := lines + [ErrorPrefix + c.errorMessage.GetOr(UnknownError)];
      lines := lines + [""];
      assert lines == head + [ErrorPrefix + c.errorMessage.GetOr(UnknownError), ""];
      return Some(lines);
    }
    if c.expiryDate.None? {
      return None;
    }
    var t := ParseIso(c.expiryDate.value);
    if t.None? {
      return None;
    }
    var days := if c.daysLeft.Some? then IntToString(c.daysLeft.value) else NoDays;
    lines := lines + [DaysPrefix + days];
    lines := lines + [ExpiryPrefix + FrenchDateFormat(t.value)];
    lines := lines + [""];
    assert lines == head + [DaysPrefix + days, ExpiryPrefix + FrenchDateFormat(t.value), ""];
    block := Some(lines);
  }

  /** The `body_lines` of `send_summary_report`: the greeting, then the
      lines the loop appends for each record; `None` where the source raises. */
  method BuildBody(certs: seq<CertRecord>) returns (lines: Option<seq<string>>)
    ensures lines == Body(certs)
  {
    var blocks := AppendBlocks(certs);
    if blocks.None? {
      return None;
    }
    lines := Some(Greeting + blocks.value);
  }

  /** The loop over the records in `send_summary_report`, which stops at the
      first record that raises. */
  method AppendBlocks(certs: seq<CertRecord>) returns (blocks: Option<seq<string>>)
    ensures blocks == Blocks(certs)
  {
    var acc := [];
    var i := 0;
    while i < |certs|
      invariant 0 <= i <= |certs|
      invariant Blocks(certs[..i]) == Some(acc)
    {
      var block := AppendCertLines(certs[i]);
      BlocksSnoc(certs, i);
      if block.None? {
        NoneStaysNone(certs, i + 1);
        return None;
      }
      acc := acc + block.value;
      i := i + 1;
    }
    assert certs[..|certs|] == certs;
    blocks := Some(acc);
  }

  /** Once a prefix of the records raises, the whole body raises. */
  lemma {:induction false} NoneStaysNone(certs: seq<CertRecord>, i: nat)
    requires i <= |certs| && Blocks(certs[..i]).None?
    ensures Blocks(certs).None?
    decreases |certs| - i
  {
    if i < |certs| {
      BlocksSnoc(certs, i);
      NoneStaysNone(certs, i + 1);
    } else {
      assert certs[..i] == certs;
    }
  }

  /** `send_summary_report(config, critical_certs)`. */
  method SendSummaryReport(config: MonitorConfig, certs: seq<CertRecord>) returns (mail: Mail)
    ensures mail == Report(config, certs)
  {
    var body := BuildBody(certs);
    if body.None? {
      return Crashed;
    }
    mail := Composed(Email(Subject(|certs|), config.sender, Join(config.recipients, ", "), body.value));
  }

  /** The loop of `main()`: checks the domains in order, collecting every
      result and the ones that need an alert. `probes[k]` is what probing
      `domains[k]` yields. */
  method CheckAll(domains: seq<string>, probes: seq<Probe>)
    returns (results: seq<CertRecord>, critical: seq<CertRecord>)
    requires |probes| == |domains|
    ensures |results| == |domains|
    ensures forall k :: 0 <= k < |results| ==> results[k] == MonitorLogic.GetSslExpiryInfo(domains[k], probes[k])
    ensures critical == Filter(IsCriticalForEmail, results)
  {
    results, critical := [], [];
    var i := 0;
    while i < |domains|
      invariant 0 <= i <= |domains|
      invariant |results| == i
      invariant forall k :: 0 <= k < i ==> results[k] == MonitorLogic.GetSslExpiryInfo(domains[k], probes[k])
      invariant critical == Filter(IsCriticalForEmail, results)
    {
      var info := MonitorLogic.GetSslExpiryInfo(domains[i], probes[i]);
      FilterConcat(IsCriticalForEmail, results, [info]);
      results := results + [info];
      var isCritical := false;
      if info.status == Expired || info.status == Error {
        isCritical := true;
      } else if info.daysLeft.Some? && info.daysLeft.value in CriticalAlertDays {
        isCritical := true;
      }
      assert isCritical == IsCriticalForEmail(info);
      if isCritical {
        critical := critical + [info];
      }
      i := i + 1;
    }
  }

  /** `main()`: checks the listed domains, then reports the ones that need an
      alert, if there are any. `probes[k]` is what probing the k-th listed
      domain yields. */
  method Run(config: MonitorConfig, text: string, probes: seq<Probe>)
    returns (results: seq<CertRecord>, critical: seq<CertRecord>, mail: Mail)
    requires |probes| == |DomainLines(text)|
    ensures |results| == |probes|
    ensures forall k :: 0 <= k < |results| ==>
      results[k] == MonitorLogic.GetSslExpiryInfo(DomainLines(text)[k], probes[k])
    ensures critical == Filter(IsCriticalForEmail, results)
    ensures mail.NotSent? <==> critical == []
    ensures critical != [] ==> mail == Report(config, critical) && mail.Composed?
  {
    var domains := DomainLines(text);
    results, critical := CheckAll(domains, probes);
    if critical != [] {
      forall k | 0 <= k < |critical|
        ensures Reportable(critical[k])
      {
        FilterMeaning(IsCriticalForEmail, results);
        assert critical[k] in results;
        var j :| 0 <= j < |results| && results[j] == critical[k];
        CheckedRecordsAreReportable(domains[j], probes[j]);
      }
      ReportableBlocks(critical);
      mail := SendSummaryReport(config, critical);
    } else {
      mail := NotSent;
    }
  }
}
