/** The first command-line checker, monitor.py at the top of the repository:
    it reads the domains file and prints one line per domain. It knows only two
    outcomes: a certificate that could be read is "OK", whatever its expiry,
    and any failure is "Erreur".

    Printing is modelled as the sequence of lines printed; the domains file is
    given as text. */
module RootMonitor {
  import opened Wrappers
  import opened Text
  import opened Seqs
  import opened Certificate
  import MonitorLogic
  import BackendMonitor

  /** `get_ssl_expiry_info(hostname)` given what probing `hostname` yields. */
  function GetSslExpiryInfo(hostname: string, probe: Probe): (r: CertRecord)
    ensures r.domain == hostname && WellShaped(r)
    ensures r.status == Ok <==> probe.Expiry?
    ensures r.status == Ok || r.status == Error
    ensures probe.Expiry? ==>
      r.daysLeft == Some(DaysLeft(probe.secondsLeft)) && r.expiryDate == Some(DateFormat(probe.notAfter))
    ensures probe.Failure? ==> r.errorMessage == Some(probe.errorText)
  {
    match probe
    case Expiry(notAfter, secondsLeft) =>
      CertRecord(hostname, Ok, Some(DaysLeft(secondsLeft)), Some(DateFormat(notAfter)), None)
    case Failure(_, errorText) =>
      CertRecord(hostname, Error, None, None, Some(errorText))
  }

  /** This checker calls an expired certificate "OK", where the shared check
      calls it "Expiré"; the day count it reports is negative. */
  lemma ExpiredReportedOk(hostname: string, probe: Probe)
    requires probe.Expiry? && probe.secondsLeft < 0
    ensures GetSslExpiryInfo(hostname, probe).status == Ok
    ensures GetSslExpiryInfo(hostname, probe).daysLeft.value < 0
    ensures MonitorLogic.GetSslExpiryInfo(hostname, probe).status == Expired
  {
  }

  /** The printed date is the date part of the ISO date the shared check
      stores, so both read back to the same calendar day. */
  lemma SameDateAsShared(hostname: string, probe: Probe)
    requires probe.Expiry?
    ensures GetSslExpiryInfo(hostname, probe).expiryDate.value ==
      MonitorLogic.GetSslExpiryInfo(hostname, probe).expiryDate.value[..10]
  {
  }

  /** `[line.strip() for line in file if line.strip()]`: unlike the other
      readers of the domains file, this one keeps comment lines. */
  function Domains(text: string): seq<string> {
    NonBlankLines(text)
  }

  /** Every domain the stand-alone
      back-end monitor reads from a file is read by this checker too, in the
      same order ... */
  lemma {:induction false} KeptLinesAreListed(lines: seq<string>)
    ensures IsSubsequence(BackendMonitor.KeptLines(lines), TrimmedNonBlank(lines))
  {
    if lines != [] {
      KeptLinesAreListed(lines[1..]);
      var a, b := BackendMonitor.KeptLines(lines), TrimmedNonBlank(lines);
      if Trim(lines[0]) != "" {
        assert b[1..] == TrimmedNonBlank(lines[1..]);
        if BackendMonitor.IsComment(lines[0]) {
          SubsequenceOfTail(a, b);
        } else {
          assert a[1..] == BackendMonitor.KeptLines(lines[1..]);
        }
      }
    }
  }

  lemma DomainsIncludeBackendDomains(text: string)
    ensures IsSubsequence(BackendMonitor.DomainLines(text), Domains(text))
  {
    KeptLinesAreListed(Split(text, '\n'));
  }

  /** ... but a comment line is a domain to this checker only. */
  lemma CommentLineListed(comment: string, rest: seq<string>)
    requires BackendMonitor.IsComment(comment)
    ensures TrimmedNonBlank([comment] + rest) == [Trim(comment)] + TrimmedNonBlank(rest)
    ensures BackendMonitor.KeptLines([comment] + rest) == BackendMonitor.KeptLines(rest)
  {
    TrimmedNonBlankCons(comment, rest);
    BackendMonitor.KeptLinesCons(comment, rest);
    assert Trim(comment) != "" by {
      var i := TrimSlice(comment);
      assert comment[0] == '#';
    }
  }

  lemma TrimmedNonBlankCons(line: string, rest: seq<string>)
    ensures TrimmedNonBlank([line] + rest) ==
      if Trim(line) != "" then [Trim(line)] + TrimmedNonBlank(rest) else TrimmedNonBlank(rest)
  {
    assert ([line] + rest)[1..] == rest;
  }

  const StartBanner := "--- Lancement de la surveillance des certificats SSL ---"
  const EndBanner := "\n--- Vérification terminée ---"
  const OkMark := "✅ "
  const ErrorMark := "❌ "

  /** The line printed for one record. */
  function ReportLine(info: CertRecord): (line: string)
    requires info.status == Ok ==> info.daysLeft.Some? && info.expiryDate.Some?
    requires info.status != Ok ==> info.errorMessage.Some?
    ensures info.status == Ok ==>
      line == OkMark + info.domain + " - OK. Expire dans " + IntToString(info.daysLeft.value)
        + " jours (le " + info.expiryDate.value + ")."
    ensures info.status != Ok ==> line == ErrorMark + info.domain + " - Erreur : " + info.errorMessage.value
  {
    if info.status == Ok then
      OkMark + info.domain + " - OK. Expire dans " + IntToString(info.daysLeft.value)
        + " jours (le " + info.expiryDate.value + ")."
    else
      ErrorMark + info.domain + " - Erreur : " + info.errorMessage.value
  }

  /** The line printed for the k-th listed domain. */
  function DomainLine(hostname: string, probe: Probe): string {
    ReportLine(GetSslExpiryInfo(hostname, probe))
  }

  /** The lines printed for the domains, in order. */
  function Lines(domains: seq<string>, probes: seq<Probe>): seq<string>
    requires |probes| == |domains|
  {
    seq(|probes|, k requires 0 <= k < |probes| => DomainLine(domains[k], probes[k]))
  }

  /** Everything `main()` prints, line by line. */
  function Transcript(text: string, probes: seq<Probe>): (r: seq<string>)
    requires |probes| == |Domains(text)|
    ensures |r| == |Domains(text)| + 2 && r[0] == StartBanner && r[|r| - 1] == EndBanner
  {
    [StartBanner] + Lines(Domains(text), probes) + [EndBanner]
  }

  /** One line per listed domain, in the order of the file, between the two
      banners: a check mark and "OK" for a certificate that could be read, a
      cross and the error text for a failure. */
  lemma TranscriptMeaning(text: string, probes: seq<Probe>)
    requires |probes| == |Domains(text)|
    ensures |Transcript(text, probes)| == |Domains(text)| + 2
    ensures Transcript(text, probes)[0] == StartBanner
    ensures Transcript(text, probes)[|probes| + 1] == EndBanner
    ensures forall k :: 0 <= k < |probes| && probes[k].Expiry? ==>
      Transcript(text, probes)[k + 1] == OkMark + Domains(text)[k] + " - OK. Expire dans "
        + IntToString(DaysLeft(probes[k].secondsLeft)) + " jours (le " + DateFormat(probes[k].notAfter) + ")."
    ensures forall k :: 0 <= k < |probes| && probes[k].Failure? ==>
      Transcript(text, probes)[k + 1] == ErrorMark + Domains(text)[k] + " - Erreur : " + probes[k].errorText
  {
    forall k | 0 <= k < |probes| && probes[k].Expiry?
      ensures Transcript(text, probes)[k + 1] == OkMark + Domains(text)[k] + " - OK. Expire dans "
        + IntToString(DaysLeft(probes[k].secondsLeft)) + " jours (le " + DateFormat(probes[k].notAfter) + ")."
    {
      TranscriptLine(text, probes, k);
      LineMeaning(Domains(text), probes, k);
    }
    forall k | 0 <= k < |probes| && probes[k].Failure?
      ensures Transcript(text, probes)[k + 1] == ErrorMark + Domains(text)[k] + " - Erreur : " + probes[k].errorText
    {
      TranscriptLine(text, probes, k);
      LineMeaning(Domains(text), probes, k);
    }
  }

  /** Line `k + 1` of the output is the line for the k-th domain. */
  lemma TranscriptLine(text: string, probes: seq<Probe>, k: nat)
    requires |probes| == |Domains(text)| && k < |probes|
    ensures Transcript(text, probes)[k + 1] == Lines(Domains(text), probes)[k]
  {
  }

  /** The line printed for the k-th domain reports that domain. */
  lemma LineMeaning(domains: seq<string>, probes: seq<Probe>, k: nat)
    requires |probes| == |domains| && k < |probes|
    ensures probes[k].Expiry? ==>
      Lines(domains, probes)[k] == OkMark + domains[k] + " - OK. Expire dans "
        + IntToString(DaysLeft(probes[k].secondsLeft)) + " jours (le " + DateFormat(probes[k].notAfter) + ")."
    ensures probes[k].Failure? ==>
      Lines(domains, probes)[k] == ErrorMark + domains[k] + " - Erreur : " + probes[k].errorText
  {
  }

  /** The loop of `main()`. */
  method PrintAll(domains: seq<string>, probes: seq<Probe>) returns (printed: seq<string>)
    requires |probes| == |domains|
    ensures printed == Lines(domains, probes)
  {
    printed := [];
    var i := 0;
    while i < |domains|
      invariant 0 <= i <= |domains|
      invariant printed == Lines(domains[..i], probes[..i])
    {
      printed := printed + [ReportLine(GetSslExpiryInfo(domains[i], probes[i]))];
      i := i + 1;
    }
    assert domains[..i] == domains && probes[..i] == probes;
  }

  /** `main()`: prints the opening banner, a line per domain, and the closing
      banner. `probes[k]` is what probing the k-th listed domain yields. */
  method Run(text: string, probes: seq<Probe>) returns (printed: seq<string>)
    requires |probes| == |Domains(text)|
    ensures printed == Transcript(text, probes)
  {
    var lines := PrintAll(Domains(text), probes);
    printed := [StartBanner] + lines + [EndBanner];
  }
}
