/** The watch list of the HTTP API (backend/main.py): the list of domain
    names kept in the domains file, and the three endpoints that read and
    change it. Every write stores the list sorted and without duplicates;
    the bulk-add endpoint keeps the submitted names that, once trimmed,
    match the host-name pattern and are not stored yet; the delete endpoint
    removes one stored name. */
module DomainStore {
  import opened Text
  import opened Hostname

  // ---------------------------------------------------------------------
  // Python's order on strings: lexicographic on code points.
  // ---------------------------------------------------------------------

  /** `a < b` on Python strings. */
  predicate Less(a: string, b: string)
    decreases |a|
  {
    if a == [] then b != []
    else if b == [] then false
    else if a[0] == b[0] then Less(a[1..], b[1..])
    else a[0] < b[0]
  }

  lemma {:induction false} LessIrreflexive(a: string)
    ensures !Less(a, a)
    decreases |a|
  {
    if a != [] {
      LessIrreflexive(a[1..]);
    }
  }

  lemma {:induction false} LessAsymmetric(a: string, b: string)
    requires Less(a, b)
    ensures !Less(b, a)
    decreases |a|
  {
    if a != [] && b != [] && a[0] == b[0] {
      LessAsymmetric(a[1..], b[1..]);
    }
  }

  lemma {:induction false} LessTransitive(a: string, b: string, c: string)
    requires Less(a, b) && Less(b, c)
    ensures Less(a, c)
    decreases |a|
  {
    if a != [] && a[0] == b[0] && b[0] == c[0] {
      LessTransitive(a[1..], b[1..], c[1..]);
    }
  }

  lemma {:induction false} LessTotal(a: string, b: string)
    requires a != b
    ensures Less(a, b) || Less(b, a)
    decreases |a|
  {
    if a != [] && b != [] && a[0] == b[0] {
      assert a == [a[0]] + a[1..] && b == [b[0]] + b[1..];
      LessTotal(a[1..], b[1..]);
    }
  }

  // ---------------------------------------------------------------------
  // `sorted(list(set(domains)))`
  // ---------------------------------------------------------------------

  /** Ascending and without duplicates. */
  predicate StrictlySorted(s: seq<string>) {
    forall i, j :: 0 <= i < j < |s| ==> Less(s[i], s[j])
  }

  predicate NoDuplicates(s: seq<string>) {
    forall i, j :: 0 <= i < j < |s| ==> s[i] != s[j]
  }

  lemma SortedHasNoDuplicates(s: seq<string>)
    requires StrictlySorted(s)
    ensures NoDuplicates(s)
  {
    forall i, j | 0 <= i < j < |s|
      ensures s[i] != s[j]
    {
      LessIrreflexive(s[i]);
    }
  }

  /** `x` put into its place in the strictly sorted `s`, unless it is there already. */
  function Insert(x: string, s: seq<string>): (r: seq<string>)
    requires StrictlySorted(s)
    ensures StrictlySorted(r)
    ensures forall y :: y in r <==> y == x || y in s
  {
    if s == [] then [x]
    else if x == s[0] then s
    else if Less(x, s[0]) then
      assert forall j :: 0 < j < |s| ==> Less(x, s[j]) by {
        forall j | 0 < j < |s| ensures Less(x, s[j]) {
          LessTransitive(x, s[0], s[j]);
        }
      }
      [x] + s
    else
      LessTotal(x, s[0]);
      var rest := Insert(x, s[1..]);
      assert forall y :: y in rest ==> Less(s[0], y);
      [s[0]] + rest
  }

  /** What `write_domains` stores for `domains`: the distinct names, ascending. */
  function Normalize(domains: seq<string>): (r: seq<string>)
    ensures StrictlySorted(r)
    ensures forall y :: y in r <==> y in domains
  {
    if domains == [] then [] else Insert(domains[0], Normalize(domains[1..]))
  }

  /** A list is empty exactly when nothing is in it. */
  lemma EmptyIffNoMember(b: seq<string>)
    ensures b == [] <==> forall y :: y !in b
  {
    if b != [] {
      assert b[0] in b;
    }
  }

  /** There is only one strictly sorted list with a given set of names, so
      `Normalize` is exactly Python's `sorted(set(...))`. */
  lemma {:induction false} SortedUnique(a: seq<string>, b: seq<string>)
    requires StrictlySorted(a) && StrictlySorted(b)
    requires forall y :: y in a <==> y in b
    ensures a == b
    decreases |a|
  {
    if a != [] {
      assert a[0] in a;
      assert b != [];
      assert b[0] in b;
      assert forall y :: y in a[1..] ==> y in a && y != a[0] by {
        forall y | y in a[1..] ensures y in a && y != a[0] {
          var k :| 0 <= k < |a[1..]| && a[1..][k] == y;
          assert Less(a[0], a[k + 1]);
          LessIrreflexive(a[0]);
        }
      }
      assert forall y :: y in b[1..] ==> y in b && y != b[0] by {
        forall y | y in b[1..] ensures y in b && y != b[0] {
          var k :| 0 <= k < |b[1..]| && b[1..][k] == y;
          assert Less(b[0], b[k + 1]);
          LessIrreflexive(b[0]);
        }
      }
      if a[0] != b[0] {
        var i :| 0 <= i < |a| && a[i] == b[0];
        var j :| 0 <= j < |b| && b[j] == a[0];
        assert Less(a[0], b[0]);
        assert Less(b[0], a[0]);
        LessAsymmetric(a[0], b[0]);
      }
      assert a == [a[0]] + a[1..] && b == [b[0]] + b[1..];
      SortedUnique(a[1..], b[1..]);
    } else {
      EmptyIffNoMember(b);
    }
  }

  /** What is stored depends only on which names are written, never on their
      order or repetition: the unspecified iteration order of a Python set is
      irrelevant. */
  lemma NormalizeBySet(a: seq<string>, b: seq<string>)
    requires forall y :: y in a <==> y in b
    ensures Normalize(a) == Normalize(b)
  {
    SortedUnique(Normalize(a), Normalize(b));
  }

  /** A list that is already sorted and duplicate-free is stored as it is. */
  lemma NormalizeSorted(s: seq<string>)
    requires StrictlySorted(s)
    ensures Normalize(s) == s
  {
    SortedUnique(Normalize(s), s);
  }

  // ---------------------------------------------------------------------
  // The names a bulk request adds
  // ---------------------------------------------------------------------

  /** The Python set `valid_new_domains`. */
  function ValidNewSet(current: seq<string>, request: seq<string>): (r: set<string>)
    ensures forall y :: y in r ==> Matches(y) && y !in current
  {
    set d | d in request && Matches(Trim(d)) && Trim(d) !in current :: Trim(d)
  }

  /** The same names as a list, in the order of their first appearance in the
      request (the order in which Python's set comprehension meets them). */
  function ValidNew(current: seq<string>, request: seq<string>): (r: seq<string>)
    ensures NoDuplicates(r)
    ensures forall d :: d in r <==> d in ValidNewSet(current, request)
    decreases |request|
  {
    if request == [] then []
    else
      var earlier := ValidNew(current, request[..|request| - 1]);
      var d := Trim(request[|request| - 1]);
      var r := if Matches(d) && d !in current && d !in earlier then earlier + [d] else earlier;
      ValidNewStep(current, request, earlier, r);
      r
  }

  /** One entry more: the list keeps its two properties. */
  lemma ValidNewStep(current: seq<string>, request: seq<string>, earlier: seq<string>, r: seq<string>)
    requires request != [] && NoDuplicates(earlier)
    requires forall y :: y in earlier <==> y in ValidNewSet(current, request[..|request| - 1])
    requires var d := Trim(request[|request| - 1]);
      r == if Matches(d) && d !in current && d !in earlier then earlier + [d] else earlier
    ensures NoDuplicates(r)
    ensures forall y :: y in r <==> y in ValidNewSet(current, request)
  {
    ValidNewSetSnoc(current, request);
    var d := Trim(request[|request| - 1]);
    if Matches(d) && d !in current && d !in earlier {
      forall i, j | 0 <= i < j < |r| ensures r[i] != r[j] {
        assert r[i] == earlier[i];
        if j == |earlier| {
          assert r[i] in earlier;
        } else {
          assert r[j] == earlier[j];
        }
      }
    }
  }

  /** The set for a request is the set for all but its last entry, plus that
      entry trimmed if it qualifies. */
  lemma ValidNewSetSnoc(current: seq<string>, request: seq<string>)
    requires request != []
    ensures var d := Trim(request[|request| - 1]);
      ValidNewSet(current, request) ==
        ValidNewSet(current, request[..|request| - 1]) + (if Matches(d) && d !in current then {d} else {})
  {
    var init, last := request[..|request| - 1], request[|request| - 1];
    assert request == init + [last];
    forall x | x in init
      ensures x in request
    {
    }
  }

  lemma {:induction false} NoDuplicatesCardinality(s: seq<string>)
    requires NoDuplicates(s)
    ensures |set y | y in s| == |s|
  {
    if s != [] {
      var rest := s[1..];
      assert NoDuplicates(rest);
      NoDuplicatesCardinality(rest);
      assert (set y | y in s) == {s[0]} + (set y | y in rest);
      assert s[0] !in (set y | y in rest);
    }
  }

  /** Every name a request adds is one of its entries trimmed, matches the
      pattern and is not stored yet (an exact, case-sensitive comparison);
      and every such name is added. The count reported is the number of
      distinct such names. */
  lemma ValidNewMeaning(current: seq<string>, request: seq<string>, d: string)
    ensures d in ValidNew(current, request) <==>
      Matches(d) && d !in current && exists k :: 0 <= k < |request| && Trim(request[k]) == d
    ensures |ValidNew(current, request)| == |ValidNewSet(current, request)|
  {
    var r := ValidNew(current, request);
    NoDuplicatesCardinality(r);
    assert (set y | y in r) == ValidNewSet(current, request);
  }

  /** A name that is stored already is never counted again, whatever the
      whitespace around it in the request. */
  lemma StoredNamesAreNotNew(current: seq<string>, request: seq<string>)
    requires forall k :: 0 <= k < |request| ==> Trim(request[k]) in current
    ensures ValidNew(current, request) == []
  {
    if ValidNew(current, request) != [] {
      ValidNewMeaning(current, request, ValidNew(current, request)[0]);
    }
  }

  // ---------------------------------------------------------------------
  // The endpoints
  // ---------------------------------------------------------------------

  /** The body of an endpoint's answer: `{"message": ...}`, or the status code
      and `detail` of the `HTTPException` it raises. */
  datatype Response = Ok(message: string) | HttpError(code: int, detail: string)

  const NoValidDomainDetail := "Aucun nouveau domaine valide à ajouter (format invalide ou doublon)."
  const NotFoundDetail := "Domaine non trouvé."

  function AddedMessage(count: nat): string {
    NatToString(count) + " domaine(s) ajouté(s) à la liste de surveillance."
  }

  function DeletedMessage(name: string): string {
    "Domaine '" + name + "' supprimé."
  }

  /** The added count can be read back from the success message. */
  lemma AddedMessageInjective(m: nat, n: nat)
    requires AddedMessage(m) == AddedMessage(n)
    ensures m == n
  {
    var suffix := " domaine(s) ajouté(s) à la liste de surveillance.";
    var a, b := NatToString(m), NatToString(n);
    assert |a| == |b|;
    assert a == (a + suffix)[..|a|];
    assert b == (b + suffix)[..|b|];
    NatToStringValue(m);
    NatToStringValue(n);
  }

  /** The position of the first `x` in `s` (Python's `s.index(x)`). */
  function FirstIndex(s: seq<string>, x: string): (i: nat)
    requires x in s
    ensures i < |s| && s[i] == x && x !in s[..i]
  {
    if s[0] == x then 0
    else
      var k := FirstIndex(s[1..], x);
      assert s[..k + 1] == [s[0]] + s[1..][..k];
      k + 1
  }

  /** `s.remove(name)`: the first occurrence of `name` taken out, the rest in order. */
  function RemoveFirst(s: seq<string>, name: string): (r: seq<string>)
    requires name in s
    ensures multiset(r) == multiset(s) - multiset{name}
  {
    var i := FirstIndex(s, name);
    assert s == s[..i] + [s[i]] + s[i + 1..];
    s[..i] + s[i + 1..]
  }

  /** Removing a present name from a duplicate-free list removes that name and
      keeps every other one. */
  lemma RemoveFirstMembers(s: seq<string>, name: string)
    requires name in s && NoDuplicates(s)
    ensures forall y :: y in RemoveFirst(s, name) <==> y in s && y != name
  {
    forall y
      ensures y in RemoveFirst(s, name) <==> y in s && y != name
    {
      RemoveFirstMember(s, name, y);
    }
  }

  lemma RemoveFirstMember(s: seq<string>, name: string, y: string)
    requires name in s && NoDuplicates(s)
    ensures y in RemoveFirst(s, name) <==> y in s && y != name
  {
    var i := FirstIndex(s, name);
    var before, after := s[..i], s[i + 1..];
    assert RemoveFirst(s, name) == before + after;
    assert s == before + [name] + after;
    forall m | 0 <= m < |after|
      ensures after[m] != name
    {
      assert after[m] == s[i + 1 + m];
    }
  }

  /** Removing a name takes out only its first copy: the name is still
      there afterwards exactly when it was listed more than once, as a
      hand-edited file may list it. */
  lemma RemoveFirstKeepsLaterCopy(s: seq<string>, name: string)
    requires name in s
    ensures name in RemoveFirst(s, name) <==> multiset(s)[name] > 1
  {
    var r := RemoveFirst(s, name);
    assert name in r <==> name in multiset(r);
  }

  /** The domains file and the endpoints that use it. */
  class DomainFile {
    /** The list the file holds, as `read_domains` returns it. */
    var domains: seq<string>

    /** A file holding `stored`, possibly written by hand. */
    constructor (stored: seq<string>)
      ensures domains == stored
    {
      domains := stored;
    }

    /** `write_domains`: stores the names sorted and without duplicates. */
    method Write(names: seq<string>)
      modifies this
      ensures domains == Normalize(names)
      ensures StrictlySorted(domains)
      ensures forall y :: y in domains <==> y in names
    {
      domains := Normalize(names);
    }

    /** `GET /api/domains`: the stored list, unchanged. */
    method GetDomains() returns (names: seq<string>)
      ensures names == domains
    {
      names := domains;
    }

    /** `POST /api/domains/bulk`. */
    method AddBulk(request: seq<string>) returns (response: Response)
      modifies this
      ensures response.HttpError? <==> ValidNew(old(domains), request) == []
      ensures response.HttpError? ==>
        response == HttpError(400, NoValidDomainDetail) && domains == old(domains)
      ensures response.Ok? ==>
        && response.message == AddedMessage(|ValidNewSet(old(domains), request)|)
        && domains == Normalize(old(domains) + ValidNew(old(domains), request))
        && StrictlySorted(domains)
        && forall y :: y in domains <==> y in old(domains) || y in ValidNewSet(old(domains), request)
    {
      var current := domains;
      var added := ValidNew(current, request);
      if added == [] {
        response := HttpError(400, NoValidDomainDetail);
        return;
      }
      Write(current + added);
      ValidNewMeaning(current, request, "");
      response := Ok(AddedMessage(|added|));
    }

    /** `DELETE /api/domains/{name}`. */
    method Delete(name: string) returns (response: Response)
      modifies this
      ensures response.HttpError? <==> name !in old(domains)
      ensures response.HttpError? ==> response == HttpError(404, NotFoundDetail) && domains == old(domains)
      ensures response.Ok? ==>
        && response == Ok(DeletedMessage(name))
        && domains == Normalize(RemoveFirst(old(domains), name))
        && StrictlySorted(domains)
      ensures response.Ok? && NoDuplicates(old(domains)) ==>
        forall y :: y in domains <==> y in old(domains) && y != name
      ensures response.Ok? ==> (name in domains <==> multiset(old(domains))[name] > 1)
    {
      var current := domains;
      if name !in current {
        response := HttpError(404, NotFoundDetail);
        return;
      }
      var rest := RemoveFirst(current, name);
      Write(rest);
      if NoDuplicates(current) {
        RemoveFirstMembers(current, name);
      }
      RemoveFirstKeepsLaterCopy(current, name);
      response := Ok(DeletedMessage(name));
    }
  }
}
