/** The collection loop (collect_and_prepare_data): for each keyword, search both
    award groups, take the first N filtered awards, fetch each one's details,
    normalise and geocode them, and keep the geocoded projects. */
module Pipeline {
  import opened Records
  import opened Search
  import opened Geocoder
  import opened Normalizer
  import opened Seqs

  /** The project built for one search result, or nothing when its details are missing. */
  function ProjectFor(award: AwardSummary, token: Option<string>,
                      fetch: string -> DetailResponse, geo: GeoQuery -> GeoResponse)
    : (project: Option<ProjectRecord>)
    ensures var reply := fetch(DetailUrl(award.internalId));
      && (project.Some? <==> reply.status == 200 && reply.body.Some?)
      && (project.Some? ==> project.value == PreparedProject(reply.body.value, token, geo))
  {
    match GetAwardDetails(fetch(DetailUrl(award.internalId)))
    case None => None
    case Some(details) => Some(PreparedProject(details, token, geo))
  }

  /** The keep test of the loop: a project with two truthy coordinates. */
  function KeepIfGeocoded(project: Option<ProjectRecord>): (kept: seq<ProjectRecord>)
    ensures |kept| <= 1
    ensures forall p :: p in kept ==> IsGeocoded(p)
    ensures kept != [] <==> project.Some? && IsGeocoded(project.value)
    ensures kept != [] ==> kept == [project.value]
  {
    if project.Some? && IsGeocoded(project.value) then [project.value] else []
  }

  /** What one award contributes to the kept projects. */
  function KeepAward(token: Option<string>, fetch: string -> DetailResponse,
                     geo: GeoQuery -> GeoResponse): AwardSummary -> seq<ProjectRecord>
  {
    a => KeepIfGeocoded(ProjectFor(a, token, fetch, geo))
  }

  /** The projects kept from a list of awards, in the awards' order. */
  function KeptProjects(awards: seq<AwardSummary>, token: Option<string>,
                        fetch: string -> DetailResponse, geo: GeoQuery -> GeoResponse)
    : seq<ProjectRecord>
  {
    FlatMap(awards, KeepAward(token, fetch, geo))
  }

  /** The awards processed for one keyword: the first `n` of the filtered
      contract and grant results. */
  function AwardsFor(keyword: string, n: int, search: SearchPayload -> SearchResponse)
    : (awards: seq<AwardSummary>)
    ensures 0 <= n ==> |awards| <= n
    ensures |awards| <= |SearchedAll(keyword, n, search)| && awards == SearchedAll(keyword, n, search)[..|awards|]
    ensures 0 <= n ==> |awards| == if |SearchedAll(keyword, n, search)| < n then |SearchedAll(keyword, n, search)| else n
  {
    PyTake(SearchedAll(keyword, n, search), n)
  }

  /** The projects one keyword contributes. */
  function KeywordProjects(keyword: string, token: Option<string>, n: int,
                           search: SearchPayload -> SearchResponse,
                           fetch: string -> DetailResponse, geo: GeoQuery -> GeoResponse)
    : seq<ProjectRecord>
  {
    KeptProjects(AwardsFor(keyword, n, search), token, fetch, geo)
  }

  /** What one keyword contributes to the collection. */
  function CollectKeyword(token: Option<string>, n: int, search: SearchPayload -> SearchResponse,
                          fetch: string -> DetailResponse, geo: GeoQuery -> GeoResponse)
    : string -> seq<ProjectRecord>
  {
    k => KeywordProjects(k, token, n, search, fetch, geo)
  }

  /** Everything collected for a list of keywords, in keyword order. */
  function Collected(keywords: seq<string>, token: Option<string>, n: int,
                     search: SearchPayload -> SearchResponse,
                     fetch: string -> DetailResponse, geo: GeoQuery -> GeoResponse)
    : seq<ProjectRecord>
  {
    FlatMap(keywords, CollectKeyword(token, n, search, fetch, geo))
  }

  /** The inner loop of the collection: fetch each award's details, skip the
      award when they are missing, normalise and geocode it, and keep the
      project when both coordinates are truthy. */
  method ProcessAwards(awards: seq<AwardSummary>, token: Option<string>,
                       fetch: string -> DetailResponse, geo: GeoQuery -> GeoResponse)
    returns (kept: seq<ProjectRecord>)
    ensures kept == KeptProjects(awards, token, fetch, geo)
  {
    kept := [];
    var i := 0;
    while i < |awards|
      invariant 0 <= i <= |awards|
      invariant kept == KeptProjects(awards[..i], token, fetch, geo)
    {
      var award := awards[i];
      var details := GetAwardDetails(fetch(DetailUrl(award.internalId)));
      if details.Some? {
        var project := PrepareProjectData(details.value, token, geo);
        if IsGeocoded(project) {
          kept := kept + [project];
        }
      }
      FlatMapStep(awards, i, KeepAward(token, fetch, geo));
      i := i + 1;
    }
    assert awards[..i] == awards;
  }

  /** The collection loop: keywords in order, the first `projectsPerKeyword`
      filtered search results of each. */
  method CollectAndPrepareData(keywords: seq<string>, token: Option<string>, projectsPerKeyword: int,
                               search: SearchPayload -> SearchResponse,
                               fetch: string -> DetailResponse, geo: GeoQuery -> GeoResponse)
    returns (allProjects: seq<ProjectRecord>)
    ensures allProjects == Collected(keywords, token, projectsPerKeyword, search, fetch, geo)
  {
    allProjects := [];
    var k := 0;
    while k < |keywords|
      invariant 0 <= k <= |keywords|
      invariant allProjects == Collected(keywords[..k], token, projectsPerKeyword, search, fetch, geo)
    {
      var keyword := keywords[k];
      var searchResults := SearchAllAwardTypes(keyword, projectsPerKeyword, search);
      var kept := ProcessAwards(PyTake(searchResults, projectsPerKeyword), token, fetch, geo);
      allProjects := allProjects + kept;
      FlatMapStep(keywords, k, CollectKeyword(token, projectsPerKeyword, search, fetch, geo));
      k := k + 1;
    }
    assert keywords[..k] == keywords;
  }

  /** A project is kept exactly when some award's details yield it and it has
      two truthy coordinates; a zero coordinate drops it. */
  lemma KeptProjectsMembers(awards: seq<AwardSummary>, p: ProjectRecord, token: Option<string>,
                            fetch: string -> DetailResponse, geo: GeoQuery -> GeoResponse)
    ensures p in KeptProjects(awards, token, fetch, geo) <==>
      IsGeocoded(p) && exists i :: 0 <= i < |awards| && ProjectFor(awards[i], token, fetch, geo) == Some(p)
  {
    FlatMapMembers(awards, KeepAward(token, fetch, geo), p);
  }

  /** At most `n` projects per keyword, so at most `|keywords| * n` in all. */
  lemma CollectedBound(keywords: seq<string>, token: Option<string>, n: nat,
                       search: SearchPayload -> SearchResponse,
                       fetch: string -> DetailResponse, geo: GeoQuery -> GeoResponse)
    ensures |Collected(keywords, token, n, search, fetch, geo)| <= |keywords| * n
  {
    forall k | k in keywords ensures |KeywordProjects(k, token, n, search, fetch, geo)| <= n {
      var awards := AwardsFor(k, n, search);
      FlatMapBound(awards, KeepAward(token, fetch, geo), 1);
    }
    FlatMapBound(keywords, CollectKeyword(token, n, search, fetch, geo), n);
  }

  /** Every collected project has two truthy coordinates. */
  lemma CollectedAreGeocoded(keywords: seq<string>, token: Option<string>, n: int,
                             search: SearchPayload -> SearchResponse,
                             fetch: string -> DetailResponse, geo: GeoQuery -> GeoResponse,
                             p: ProjectRecord)
    requires p in Collected(keywords, token, n, search, fetch, geo)
    ensures IsGeocoded(p)
  {
    var j, a := CollectedProvenance(keywords, token, n, search, fetch, geo, p);
  }

  /** Keywords are independent: collecting two lists of keywords one after the
      other gives the two collections concatenated. */
  lemma CollectedAppend(first: seq<string>, second: seq<string>, token: Option<string>, n: int,
                        search: SearchPayload -> SearchResponse,
                        fetch: string -> DetailResponse, geo: GeoQuery -> GeoResponse)
    ensures Collected(first + second, token, n, search, fetch, geo)
         == Collected(first, token, n, search, fetch, geo) + Collected(second, token, n, search, fetch, geo)
  {
    FlatMapAppend(first, second, CollectKeyword(token, n, search, fetch, geo));
  }

  /** Every collected project comes from an award that passed the relevance
      filter, is among the first `n` results of one of the keywords, and whose
      details yield the project with two truthy coordinates. */
  lemma CollectedProvenance(keywords: seq<string>, token: Option<string>, n: int,
                            search: SearchPayload -> SearchResponse,
                            fetch: string -> DetailResponse, geo: GeoQuery -> GeoResponse,
                            p: ProjectRecord)
    returns (j: nat, a: AwardSummary)
    requires p in Collected(keywords, token, n, search, fetch, geo)
    ensures j < |keywords| && a in AwardsFor(keywords[j], n, search)
    ensures IsPublicAward(a) && ProjectFor(a, token, fetch, geo) == Some(p) && IsGeocoded(p)
  {
    FlatMapMembers(keywords, CollectKeyword(token, n, search, fetch, geo), p);
    j :| 0 <= j < |keywords| && p in KeywordProjects(keywords[j], token, n, search, fetch, geo);
    a := KeywordProvenance(keywords[j], token, n, search, fetch, geo, p);
  }

  /** The provenance of one keyword's projects. */
  lemma KeywordProvenance(keyword: string, token: Option<string>, n: int,
                          search: SearchPayload -> SearchResponse,
                          fetch: string -> DetailResponse, geo: GeoQuery -> GeoResponse,
                          p: ProjectRecord)
    returns (a: AwardSummary)
    requires p in KeywordProjects(keyword, token, n, search, fetch, geo)
    ensures a in AwardsFor(keyword, n, search)
    ensures IsPublicAward(a) && ProjectFor(a, token, fetch, geo) == Some(p) && IsGeocoded(p)
  {
    var awards := AwardsFor(keyword, n, search);
    KeptProjectsMembers(awards, p, token, fetch, geo);
    var i :| 0 <= i < |awards| && ProjectFor(awards[i], token, fetch, geo) == Some(p);
    a := awards[i];
    assert a in SearchedAll(keyword, n, search);
    SearchedAllArePublic(keyword, n, search, a);
  }
}
