/** The search box of the dashboard (frontend/src/components/DashboardDisplay.tsx):
    the certificates shown are those whose domain contains the query, ignoring
    case, and a notice replaces the grid when none is left. */
module DashboardDisplay {
  import opened Text
  import opened Seqs
  import opened Certificate

  /** The test the filter applies to one certificate. */
  function MatchesQuery(query: string): CertRecord -> bool {
    (cert: CertRecord) => Contains(Lower(cert.domain), Lower(query))
  }

  /** `filteredCertificates`. */
  function FilteredCertificates(certificates: seq<CertRecord>, query: string): (r: seq<CertRecord>)
    ensures |r| <= |certificates|
    ensures forall k :: 0 <= k < |r| ==> Contains(Lower(r[k].domain), Lower(query))
  {
    Filter(MatchesQuery(query), certificates)
  }

  /** The list shown keeps the order of the certificates, and holds exactly
      those whose lower-cased domain contains the lower-cased query, each as
      many times as it is listed. */
  lemma FilteredMeaning(certificates: seq<CertRecord>, query: string)
    ensures IsSubsequence(FilteredCertificates(certificates, query), certificates)
    ensures forall c :: c in FilteredCertificates(certificates, query) <==>
      c in certificates && exists i :: OccursAt(Lower(c.domain), Lower(query), i)
    ensures forall c ::
      multiset(FilteredCertificates(certificates, query))[c] ==
        if Contains(Lower(c.domain), Lower(query)) then multiset(certificates)[c] else 0
  {
    FilterMeaning(MatchesQuery(query), certificates);
    forall c: CertRecord
      ensures MatchesQuery(query)(c) <==> exists i :: OccursAt(Lower(c.domain), Lower(query), i)
    {
      ContainsIff(Lower(c.domain), Lower(query));
    }
  }

  /** An empty search box shows every certificate. */
  lemma EmptyQueryKeepsAll(certificates: seq<CertRecord>)
    ensures FilteredCertificates(certificates, "") == certificates
  {
    forall k | 0 <= k < |certificates|
      ensures MatchesQuery("")(certificates[k])
    {
      assert Lower("") <= Lower(certificates[k].domain);
    }
    FilterKeepsAll(MatchesQuery(""), certificates);
  }

  /** Filtering what is shown with the same query changes nothing. */
  lemma FilterTwice(certificates: seq<CertRecord>, query: string)
    ensures FilteredCertificates(FilteredCertificates(certificates, query), query) ==
      FilteredCertificates(certificates, query)
  {
    FilterIdempotent(MatchesQuery(query), certificates);
  }

  /** The case of the query does not matter. */
  lemma QueryCaseIgnored(certificates: seq<CertRecord>, query: string)
    ensures FilteredCertificates(certificates, Lower(query)) == FilteredCertificates(certificates, query)
  {
    LowerIdempotent(query);
    assert MatchesQuery(Lower(query)) == MatchesQuery(query);
  }

  /** Typing more characters can only hide certificates: whatever a query
      shows, the query cut short shows too. */
  lemma LongerQueryNarrows(certificates: seq<CertRecord>, query: string, more: string)
    ensures forall c :: c in FilteredCertificates(certificates, query + more) ==>
      c in FilteredCertificates(certificates, query)
  {
    forall c: CertRecord | MatchesQuery(query + more)(c)
      ensures MatchesQuery(query)(c)
    {
      var s, t := Lower(c.domain), Lower(query + more);
      ContainsIff(s, t);
      ContainsIff(s, Lower(query));
      var i :| OccursAt(s, t, i);
      assert t[..|query|] == Lower(query);
      assert s[i..i + |query|] == t[..|query|];
      assert OccursAt(s, Lower(query), i);
    }
    FilterWeaker(MatchesQuery(query + more), MatchesQuery(query), certificates);
  }

  /** "Aucun certificat trouvé." is shown instead of the grid. */
  predicate ShowsEmptyState(certificates: seq<CertRecord>, query: string) {
    |FilteredCertificates(certificates, query)| == 0
  }

  /** The notice is shown exactly when no domain contains the query. */
  lemma EmptyStateMeaning(certificates: seq<CertRecord>, query: string)
    ensures ShowsEmptyState(certificates, query) <==>
      forall k :: 0 <= k < |certificates| ==> !Contains(Lower(certificates[k].domain), Lower(query))
  {
    FilterEmpty(MatchesQuery(query), certificates);
  }
}
