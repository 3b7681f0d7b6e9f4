/** Choosing the current artifact of an interaction: filter the listing to
    transcript-bearing summaries, fetch every candidate (join-all), and put the
    most recently updated one first. */
module Selection {
  import opened Outcomes
  import opened Artifacts

  /** A summary worth fetching: an email or messaging transcript with files. */
  predicate Eligible(s: ArtifactSummary) {
    (s.artifactType == "email" || s.artifactType == "messaging-transcript") && s.fileCount > 0
  }

  /** The filter applied to the listing's `results`. */
  function FilterEligible(results: seq<ArtifactSummary>): (r: seq<ArtifactSummary>)
    ensures |r| <= |results|
    ensures forall i :: 0 <= i < |r| ==> Eligible(r[i]) && r[i] in results
    ensures forall i :: 0 <= i < |results| && Eligible(results[i]) ==> results[i] in r
  {
    if results == [] then []
    else (if Eligible(results[0]) then [results[0]] else []) + FilterEligible(results[1..])
  }

  /** Filtering a concatenation filters each part in place: the filter keeps
      the input order. */
  lemma {:induction false} FilterEligibleAppend(a: seq<ArtifactSummary>, b: seq<ArtifactSummary>)
    ensures FilterEligible(a + b) == FilterEligible(a) + FilterEligible(b)
  {
    if a == [] {
      assert a + b == b;
    } else {
      assert (a + b)[1..] == a[1..] + b;
      FilterEligibleAppend(a[1..], b);
    }
  }

  /** The filter keeps every eligible summary as often as it occurs and drops
      every other one. */
  lemma {:induction false} FilterEligibleCounts(results: seq<ArtifactSummary>, s: ArtifactSummary)
    ensures multiset(FilterEligible(results))[s] == if Eligible(s) then multiset(results)[s] else 0
  {
    if results != [] {
      FilterEligibleCounts(results[1..], s);
      assert results == [results[0]] + results[1..];
    }
  }

  /** `fetchArtifactsSummary` once the listing has been requested. */
  function FetchArtifactsSummary(listing: Option<seq<ArtifactSummary>>): (r: Outcome<seq<ArtifactSummary>>)
    ensures listing.None? ==> r == Err(Unexpected)
    ensures r.Ok? ==> listing.Some? && r.value != [] && forall i :: 0 <= i < |r.value| ==> Eligible(r.value[i])
    ensures r == Err(Missing) <==> listing.Some? && forall i :: 0 <= i < |listing.value| ==> !Eligible(listing.value[i])
    ensures listing.Some? && FilterEligible(listing.value) != [] ==> r == Ok(FilterEligible(listing.value))
  {
    match listing
    case None => Err(Unexpected)
    case Some(results) =>
      var artifacts := FilterEligible(results);
      if artifacts == [] then Err(Missing)
      else
        assert artifacts[0] in results;
        Ok(artifacts)
  }

  /** The `Promise.all` over `fetchArtifact`: every record in summary order, or
      a failure as soon as one request failed. */
  function FetchArtifacts(summaries: seq<ArtifactSummary>, records: map<string, Record>): (r: Outcome<seq<Record>>)
    ensures r.Ok? <==> forall i :: 0 <= i < |summaries| ==> summaries[i].artifactId in records
    ensures r.Err? ==> r.error == Unexpected
    ensures r.Ok? ==> |r.value| == |summaries|
    ensures r.Ok? ==> forall i :: 0 <= i < |summaries| ==> r.value[i] == records[summaries[i].artifactId]
  {
    if summaries == [] then Ok([])
    else if summaries[0].artifactId !in records then Err(Unexpected)
    else
      match FetchArtifacts(summaries[1..], records)
      case Err(e) => Err(e)
      case Ok(rest) => Ok([records[summaries[0].artifactId]] + rest)
  }

  /** `compareUpdated(x, y) < 0`: `x` sorts before `y`. A record without an
      `updated` (the empty object) has an invalid date, and every comparison
      with an invalid date is false, so it is never newer and nothing is newer
      than it. */
  predicate Newer(x: Record, y: Record) {
    x.Full? && y.Full? && x.artifact.updated > y.artifact.updated
  }

  /** The index of the record `sort(compareUpdated)` brings to the front, as a
      left-to-right scan that replaces the current front only by a strictly
      newer record. Nothing in the list is newer than it, and no artifact
      before it is as new: among artifacts updated at the same time the
      earliest fetched one stays in front, as in a stable sort. */
  function NewestIndex(rs: seq<Record>): (k: nat)
    requires |rs| > 0
    ensures k < |rs|
    ensures forall j :: 0 <= j < |rs| ==> !Newer(rs[j], rs[k])
    ensures rs[k].Full? ==>
              forall j :: 0 <= j < k && rs[j].Full? ==> rs[j].artifact.updated < rs[k].artifact.updated
  {
    if |rs| == 1 then 0
    else
      var k := NewestIndex(rs[..|rs| - 1]);
      if Newer(rs[|rs| - 1], rs[k]) then |rs| - 1 else k
  }

  /** The in-place `resolvedArtifacts.sort(compareUpdated)`, as far as its
      first element goes: the records are permuted and the newest is first. */
  method MoveNewestToFront(a: array<Record>)
    modifies a
    ensures multiset(a[..]) == multiset(old(a[..]))
    ensures a.Length > 0 ==> a[0] == old(a[..])[NewestIndex(old(a[..]))]
  {
    if a.Length > 0 {
      var best := FindNewest(a);
      Swap(a, 0, best);
    }
  }

  /** The scan itself: the index of the record the sort puts first. */
  method FindNewest(a: array<Record>) returns (best: nat)
    requires a.Length > 0
    ensures best == NewestIndex(a[..])
  {
    best := 0;
    var i := 1;
    while i < a.Length
      invariant 1 <= i <= a.Length
      invariant best == NewestIndex(a[..i])
    {
      assert a[..i + 1][..i] == a[..i];
      if Newer(a[i], a[best]) {
        best := i;
      }
      i := i + 1;
    }
    assert a[..i] == a[..];
  }

  /** Exchanges two records of the array. */
  method Swap(a: array<Record>, i: nat, j: nat)
    requires i < a.Length && j < a.Length
    modifies a
    ensures a[..] == old(a[..])[i := old(a[j])][j := old(a[i])]
    ensures multiset(a[..]) == multiset(old(a[..]))
  {
    a[i], a[j] := a[j], a[i];
  }

  /** `fetchMostRecentArtifact`: fetch every candidate and take the newest;
      an empty list or an empty record is `Missing`. */
  function FetchMostRecentArtifact(summaries: seq<ArtifactSummary>, records: map<string, Record>): (r: Outcome<Artifact>)
    ensures r.Ok? ==> exists i :: 0 <= i < |summaries| && summaries[i].artifactId in records
                                  && records[summaries[i].artifactId] == Full(r.value)
                                  && forall j :: 0 <= j < i && summaries[j].artifactId in records
                                                 && records[summaries[j].artifactId].Full? ==>
                                       records[summaries[j].artifactId].artifact.updated < r.value.updated
    ensures r.Ok? ==> forall i :: 0 <= i < |summaries| && summaries[i].artifactId in records
                                  && records[summaries[i].artifactId].Full? ==>
                        records[summaries[i].artifactId].artifact.updated <= r.value.updated
    ensures r == Err(Unexpected) <==> exists i :: 0 <= i < |summaries| && summaries[i].artifactId !in records
    ensures summaries == [] ==> r == Err(Missing)
    ensures r == Err(Missing) ==>
              summaries == [] || exists i :: 0 <= i < |summaries| && records[summaries[i].artifactId] == Blank
  {
    var rs :- FetchArtifacts(summaries, records);
    if |rs| == 0 then Err(Missing)
    else
      var k := NewestIndex(rs);
      assert summaries[k].artifactId in records && records[summaries[k].artifactId] == rs[k];
      match rs[k]
      case Blank =>
        assert records[summaries[k].artifactId] == Blank;
        Err(Missing)
      case Full(a) =>
        assert forall j :: 0 <= j < |rs| && rs[j].Full? ==> rs[j].artifact.updated <= a.updated;
        Ok(a)
  }

  /** Every candidate fetched as an artifact: the selection succeeds. */
  lemma {:induction false} AllFullSelects(summaries: seq<ArtifactSummary>, records: map<string, Record>)
    requires summaries != []
    requires forall i :: 0 <= i < |summaries| ==> summaries[i].artifactId in records
    requires forall i :: 0 <= i < |summaries| ==> records[summaries[i].artifactId].Full?
    ensures FetchMostRecentArtifact(summaries, records).Ok?
  {
    var rs := FetchArtifacts(summaries, records).value;
    var k := NewestIndex(rs);
    assert rs[k] == records[summaries[k].artifactId];
  }

  /** Every candidate fetched as the empty object: the selection is `Missing`. */
  lemma {:induction false} AllBlankIsMissing(summaries: seq<ArtifactSummary>, records: map<string, Record>)
    requires forall i :: 0 <= i < |summaries| ==> summaries[i].artifactId in records
    requires forall i :: 0 <= i < |summaries| ==> records[summaries[i].artifactId] == Blank
    ensures FetchMostRecentArtifact(summaries, records) == Err(Missing)
  {
    if summaries != [] {
      var rs := FetchArtifacts(summaries, records).value;
      var k := NewestIndex(rs);
      assert rs[k] == records[summaries[k].artifactId];
    }
  }

  /** Of two artifacts, the one updated later is chosen, in either order. */
  lemma LaterOfTwoIsChosen(s1: ArtifactSummary, s2: ArtifactSummary, a1: Artifact, a2: Artifact)
    requires s1.artifactId != s2.artifactId
    requires a1.updated < a2.updated
    ensures FetchMostRecentArtifact([s1, s2], map[s1.artifactId := Full(a1), s2.artifactId := Full(a2)]) == Ok(a2)
    ensures FetchMostRecentArtifact([s2, s1], map[s1.artifactId := Full(a1), s2.artifactId := Full(a2)]) == Ok(a2)
  {
  }

  /** The handlers' first two steps: the current artifact of the interaction. */
  function SelectArtifact(b: Backend): (r: Outcome<Artifact>)
    ensures b.listing.None? ==> r == Err(Unexpected)
    ensures r.Ok? ==> exists s :: s in b.listing.value && Eligible(s) && s.artifactId in b.records
                                  && b.records[s.artifactId] == Full(r.value)
    ensures b.listing.Some? && FilterEligible(b.listing.value) == [] ==> r == Err(Missing)
    ensures b.listing.Some? && FilterEligible(b.listing.value) != [] ==>
              r == FetchMostRecentArtifact(FilterEligible(b.listing.value), b.records)
  {
    var summaries :- FetchArtifactsSummary(b.listing);
    var r := FetchMostRecentArtifact(summaries, b.records);
    if r.Ok? then
      var i :| 0 <= i < |summaries| && summaries[i].artifactId in b.records
               && b.records[summaries[i].artifactId] == Full(r.value);
      assert summaries[i] in b.listing.value;
      r
    else r
  }
}
