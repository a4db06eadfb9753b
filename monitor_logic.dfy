/** The certificate check of backend/monitor_logic.py: one probe of a host
    turned into a status record. backend/monitor.py holds a copy of the same
    check (its `get_ssl_expiry_info`, lines 15-39, differs only in the
    connection timeout); the model uses this definition for that copy too. */
module MonitorLogic {
  import opened Wrappers
  import opened Certificate

  /** `get_ssl_expiry_info(hostname)` given what the probe of `hostname` yielded. */
  function GetSslExpiryInfo(hostname: string, probe: Probe): (r: CertRecord)
    ensures r.domain == hostname && WellShaped(r)
    ensures r.status == Error <==> probe.Failure?
    ensures r.status == Expired <==> probe.Expiry? && probe.secondsLeft < 0
    ensures r.status == ExpiringSoon <==>
      probe.Expiry? && 0 <= probe.secondsLeft < AlertThresholdDays * SecondsPerDay
    ensures r.status == Ok <==> probe.Expiry? && probe.secondsLeft >= AlertThresholdDays * SecondsPerDay
    ensures probe.Expiry? ==>
      r.daysLeft == Some(DaysLeft(probe.secondsLeft)) && r.expiryDate == Some(IsoFormat(probe.notAfter))
    ensures probe.Failure? ==> r.errorMessage == Some(probe.errorText)
  {
    match probe
    case Expiry(notAfter, seconds) =>
      ClassifyBySeconds(seconds);
      var days := DaysLeft(seconds);
      CertRecord(hostname, Classify(days), Some(days), Some(IsoFormat(notAfter)), None)
    case Failure(_, text) =>
      CertRecord(hostname, Error, None, None, Some(text))
  }

  /** The status agrees with the day count the record carries. */
  lemma StatusMatchesDays(hostname: string, probe: Probe)
    requires probe.Expiry?
    ensures var r := GetSslExpiryInfo(hostname, probe);
      (r.status == Expired <==> r.daysLeft.value < 0)
      && (r.status == ExpiringSoon <==> 0 <= r.daysLeft.value < AlertThresholdDays)
      && (r.status == Ok <==> r.daysLeft.value >= AlertThresholdDays)
  {
  }

  /** The expiry date a record holds reads back as the probed date. */
  lemma ExpiryDateReadsBack(hostname: string, probe: Probe)
    requires probe.Expiry?
    ensures ParseIso(GetSslExpiryInfo(hostname, probe).expiryDate.value) == Some(probe.notAfter)
  {
    IsoRoundTrip(probe.notAfter);
  }
}
