/** The summary counters of save_to_json: geocoding successes and failures, and
    the number of projects per state and per agency. */
module Summary {
  import opened Records
  import opened Seqs
  import opened Search
  import opened Geocoder
  import opened Normalizer
  import opened Pipeline

  /** The success test of the summary: a truthy latitude (the longitude is not looked at). */
  predicate HasLatitude(p: ProjectRecord) {
    TruthyCoord(p.latitude)
  }

  /** The state of each project, in order. */
  function StateKeys(projects: seq<ProjectRecord>): (keys: seq<Option<string>>)
    ensures |keys| == |projects|
  {
    seq(|projects|, i requires 0 <= i < |projects| => projects[i].state)
  }

  /** The agency of each project, in order. Every record has the key, so the
      `'Unknown'` default of the lookup never applies. */
  function AgencyKeys(projects: seq<ProjectRecord>): (keys: seq<Option<string>>)
    ensures |keys| == |projects|
  {
    seq(|projects|, i requires 0 <= i < |projects| => projects[i].agency)
  }

  /** `counts.get(key, 0) + 1` stored back under `key`. */
  function Bump(counts: map<string, nat>, key: string): map<string, nat> {
    counts[key := (if key in counts then counts[key] else 0) + 1]
  }

  /** Bumping a key adds it when it is new with count 1, raises its count by
      one otherwise, and leaves every other key's count alone. */
  lemma BumpCounts(counts: map<string, nat>, key: string)
    ensures Bump(counts, key).Keys == counts.Keys + {key}
    ensures Bump(counts, key)[key] == if key in counts then counts[key] + 1 else 1
    ensures forall k :: k in counts && k != key ==> Bump(counts, key)[k] == counts[k]
  {
  }

  /** One step of a counting loop: falsy keys are not counted. */
  function CountKey(counts: map<string, nat>, key: Option<string>): map<string, nat> {
    if TruthyText(key) then Bump(counts, key.value) else counts
  }

  /** The counts a counting loop leaves after seeing `keys` from an empty dictionary. */
  function Tally(keys: seq<Option<string>>): map<string, nat> {
    if keys == [] then map[] else CountKey(Tally(keys[..|keys| - 1]), keys[|keys| - 1])
  }

  /** The sum of all counts in a dictionary. */
  ghost function SumValues(counts: map<string, nat>): nat
    decreases |counts|
  {
    if counts == map[] then 0 else
      var key :| key in counts;
      counts[key] + SumValues(counts - {key})
  }

  lemma TallyStep(keys: seq<Option<string>>, i: int)
    requires 0 <= i < |keys|
    ensures Tally(keys[..i + 1]) == CountKey(Tally(keys[..i]), keys[i])
  {
    assert keys[..i + 1][..i] == keys[..i];
  }

  /** A key is counted exactly when it is a non-empty string that occurs among
      the keys, and its count is the number of its occurrences. */
  lemma {:induction false} TallyCounts(keys: seq<Option<string>>, key: string)
    ensures key in Tally(keys) <==> key != "" && Some(key) in keys
    ensures key in Tally(keys) ==> Tally(keys)[key] == multiset(keys)[Some(key)]
  {
    if keys != [] {
      var n := |keys| - 1;
      TallyCounts(keys[..n], key);
      assert keys == keys[..n] + [keys[n]];
    }
  }

  /** Removing one key takes exactly its count off the sum, whichever key the
      sum happened to visit first. */
  lemma {:induction false} SumValuesRemove(counts: map<string, nat>, key: string)
    requires key in counts
    ensures SumValues(counts) == counts[key] + SumValues(counts - {key})
    decreases |counts|
  {
    var first :| first in counts && SumValues(counts) == counts[first] + SumValues(counts - {first});
    if first != key {
      SumValuesRemove(counts - {first}, key);
      SumValuesRemove(counts - {key}, first);
      assert counts - {first} - {key} == counts - {key} - {first};
    }
  }

  lemma SumValuesBump(counts: map<string, nat>, key: string)
    ensures SumValues(Bump(counts, key)) == SumValues(counts) + 1
  {
    var bumped := Bump(counts, key);
    SumValuesRemove(bumped, key);
    if key in counts {
      SumValuesRemove(counts, key);
      assert bumped - {key} == counts - {key};
    } else {
      assert bumped - {key} == counts;
    }
  }

  /** The counts add up to the number of truthy keys. */
  lemma {:induction false} TallySum(keys: seq<Option<string>>)
    ensures SumValues(Tally(keys)) == |Filter(keys, TruthyText)|
  {
    if keys != [] {
      var n := |keys| - 1;
      TallySum(keys[..n]);
      if TruthyText(keys[n]) {
        SumValuesBump(Tally(keys[..n]), keys[n].value);
      }
    }
  }

  /** The per-state counts add up to the number of projects with a truthy state. */
  lemma StateCountsSum(projects: seq<ProjectRecord>)
    ensures SumValues(Tally(StateKeys(projects))) == |Filter(StateKeys(projects), TruthyText)|
    ensures SumValues(Tally(StateKeys(projects))) <= |projects|
  {
    TallySum(StateKeys(projects));
  }

  /** The summary counters, computed the way save_to_json computes them. */
  method SummaryStatistics(projects: seq<ProjectRecord>)
    returns (successful: nat, failed: nat, states: map<string, nat>, agencies: map<string, nat>)
    ensures successful == |Filter(projects, HasLatitude)|
    ensures successful + failed == |projects|
    ensures states == Tally(StateKeys(projects))
    ensures agencies == Tally(AgencyKeys(projects))
  {
    successful := |Filter(projects, HasLatitude)|;
    failed := |projects| - successful;

    states := map[];
    var i := 0;
    while i < |projects|
      invariant 0 <= i <= |projects|
      invariant states == Tally(StateKeys(projects)[..i])
    {
      var state := projects[i].state;
      if TruthyText(state) {
        states := states[state.value := (if state.value in states then states[state.value] else 0) + 1];
      }
      TallyStep(StateKeys(projects), i);
      i := i + 1;
    }
    assert StateKeys(projects)[..i] == StateKeys(projects);

    agencies := map[];
    i := 0;
    while i < |projects|
      invariant 0 <= i <= |projects|
      invariant agencies == Tally(AgencyKeys(projects)[..i])
    {
      var agency := projects[i].agency;
      if TruthyText(agency) {
        agencies := agencies[agency.value := (if agency.value in agencies then agencies[agency.value] else 0) + 1];
      }
      TallyStep(AgencyKeys(projects), i);
      i := i + 1;
    }
    assert AgencyKeys(projects)[..i] == AgencyKeys(projects);
  }

  /** On the collection's output no geocoding failure is ever reported: every
      collected project has a truthy latitude. */
  lemma CollectedHaveNoFailures(keywords: seq<string>, token: Option<string>, n: int,
                                search: SearchPayload -> SearchResponse,
                                fetch: string -> DetailResponse, geo: GeoQuery -> GeoResponse)
    ensures |Filter(Collected(keywords, token, n, search, fetch, geo), HasLatitude)|
         == |Collected(keywords, token, n, search, fetch, geo)|
  {
    var projects := Collected(keywords, token, n, search, fetch, geo);
    forall p | p in projects ensures HasLatitude(p) {
      CollectedAreGeocoded(keywords, token, n, search, fetch, geo, p);
    }
    FilterKeepsAll(projects, HasLatitude);
  }
}
