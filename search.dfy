/** Award search against the spending API and the "public project" relevance
    filter applied to its results (search_public_projects, search_all_award_types). */
module Search {
  import opened Records
  import opened Text
  import opened Seqs

  /** The award-type groups the search API must be queried for separately. */
  datatype AwardGroup = Contracts | Grants | Other

  /** The award-type code table. */
  function AwardTypeCodes(group: AwardGroup): (codes: seq<string>)
    ensures group == Contracts ==> codes == ["A", "B", "C", "D"]
    ensures group == Grants ==> codes == ["02", "03", "04", "05"]
    ensures group == Other ==> codes == ["06", "10"]
  {
    match group
    case Contracts => ["A", "B", "C", "D"]
    case Grants => ["02", "03", "04", "05"]
    case Other => ["06", "10"]
  }

  /** The JSON body of one search request. */
  datatype SearchPayload = SearchPayload(
    keywords: seq<string>,
    awardTypeCodes: seq<string>,
    startDate: string,
    endDate: string,
    fields: seq<string>,
    limit: int,
    page: int,
    sort: string,
    order: string)

  /** The reply to a search request: its status and, when the body has it, `results`. */
  datatype SearchResponse = SearchResponse(status: int, results: Option<seq<AwardSummary>>)

  const SearchFields: seq<string> :=
    ["Award ID", "Recipient Name", "Award Amount", "Description",
     "Place of Performance City Code", "Place of Performance State Code"]

  /** The request sent for one keyword and one award group. */
  function SearchPayloadFor(keyword: string, group: AwardGroup, limit: int): (payload: SearchPayload)
    ensures payload.keywords == [keyword] && payload.awardTypeCodes == AwardTypeCodes(group)
    ensures payload.startDate == "2015-01-01" && payload.endDate == "2024-12-31"
    ensures payload.fields == SearchFields && payload.limit == limit && payload.page == 1
    ensures payload.sort == "Award Amount" && payload.order == "desc"
  {
    SearchPayload([keyword], AwardTypeCodes(group), "2015-01-01", "2024-12-31",
                  SearchFields, limit, 1, "Award Amount", "desc")
  }

  /** Description terms that mark an award as a public project. */
  const IncludeTerms: seq<string> :=
    ["public", "visitor", "community", "facility", "building",
     "construction", "renovation", "park", "museum", "library"]

  /** Recipient phrases that mark a government or non-profit recipient. */
  const PublicRecipientPhrases: seq<string> :=
    ["city of", "county of", "state of", "university", "park service",
     "department", "commission"]

  /** The relevance test for one search result. An absent description or
      recipient reads as the empty string. */
  function IsPublicAward(award: AwardSummary): (keep: bool)
    ensures keep <==>
      || MentionsAny(IncludeTerms, Lower(award.description.GetOr("")))
      || MentionsAny(PublicRecipientPhrases, Lower(award.recipientName.GetOr("")))
  {
    var description := Lower(award.description.GetOr(""));
    var recipient := Lower(award.recipientName.GetOr(""));
    AnyTermIn(IncludeTerms, description) || AnyTermIn(PublicRecipientPhrases, recipient)
  }

  /** The requests for two groups differ in their award-type codes and in
      nothing else, so the contract and grant searches of one keyword are
      different requests. */
  lemma GroupRequestsDifferOnlyInCodes(keyword: string, g: AwardGroup, h: AwardGroup, limit: int)
    ensures SearchPayloadFor(keyword, g, limit)
         == SearchPayloadFor(keyword, h, limit).(awardTypeCodes := AwardTypeCodes(g))
    ensures g != h ==> SearchPayloadFor(keyword, g, limit) != SearchPayloadFor(keyword, h, limit)
  {
    if g != h {
      assert AwardTypeCodes(g)[0] != AwardTypeCodes(h)[0];
    }
  }

  /** The results the filter keeps, in their original order. */
  function PublicOnly(results: seq<AwardSummary>): seq<AwardSummary> {
    Filter(results, IsPublicAward)
  }

  /** The filter keeps an award exactly when it is in the input and passes the
      test; there is no exclusion list. */
  lemma PublicOnlyMembers(results: seq<AwardSummary>, a: AwardSummary)
    ensures a in PublicOnly(results) <==> a in results && IsPublicAward(a)
  {
    FilterMembers(results, IsPublicAward, a);
  }

  /** The filter's output is an order-preserving subsequence of its input, so
      never longer. */
  lemma PublicOnlyIsSubsequence(results: seq<AwardSummary>) returns (idx: seq<int>)
    ensures SubsequenceBy(PublicOnly(results), results, idx)
    ensures |PublicOnly(results)| <= |results|
  {
    idx := FilterIsSubsequence(results, IsPublicAward);
  }

  /** The filter drops nothing exactly when every result passes the test. */
  lemma PublicOnlyKeepsAll(results: seq<AwardSummary>)
    ensures PublicOnly(results) == results <==> forall a :: a in results ==> IsPublicAward(a)
  {
    FilterKeepsAll(results, IsPublicAward);
  }

  /** Filtering twice keeps what filtering once keeps. */
  lemma PublicOnlyIdempotent(results: seq<AwardSummary>)
    ensures PublicOnly(PublicOnly(results)) == PublicOnly(results)
  {
    forall a | a in PublicOnly(results) ensures IsPublicAward(a) {
      PublicOnlyMembers(results, a);
    }
    PublicOnlyKeepsAll(PublicOnly(results));
  }

  /** What `search_public_projects` returns for a keyword, a group and a limit,
      given the search service's reply to the request it sends. */
  function SearchedPublic(keyword: string, group: AwardGroup, limit: int,
                          search: SearchPayload -> SearchResponse): (awards: seq<AwardSummary>)
    ensures search(SearchPayloadFor(keyword, group, limit)).status != 200 ==> awards == []
  {
    var response := search(SearchPayloadFor(keyword, group, limit));
    if response.status != 200 then
      []
    else
      PublicOnly(response.results.GetOr([]))
  }

  /** Sends one search request and keeps the results that pass the relevance test. */
  method SearchPublicProjects(keyword: string, group: AwardGroup, limit: int,
                              search: SearchPayload -> SearchResponse)
    returns (publicProjects: seq<AwardSummary>)
    ensures publicProjects == SearchedPublic(keyword, group, limit, search)
  {
    var response := search(SearchPayloadFor(keyword, group, limit));
    if response.status != 200 {
      return [];
    }
    var results := response.results.GetOr([]);
    publicProjects := [];
    var i := 0;
    while i < |results|
      invariant 0 <= i <= |results|
      invariant publicProjects == PublicOnly(results[..i])
    {
      var award := results[i];
      if IsPublicAward(award) {
        publicProjects := publicProjects + [award];
      }
      FilterStep(results, i, IsPublicAward);
      i := i + 1;
    }
    assert results[..i] == results;
  }

  /** Contract results followed by grant results, each already filtered. */
  function SearchedAll(keyword: string, limit: int,
                       search: SearchPayload -> SearchResponse): (awards: seq<AwardSummary>)
  {
    SearchedPublic(keyword, Contracts, limit, search) + SearchedPublic(keyword, Grants, limit, search)
  }

  /** Searches contracts, then grants, and concatenates the two filtered lists. */
  method SearchAllAwardTypes(keyword: string, limitPerGroup: int,
                             search: SearchPayload -> SearchResponse)
    returns (allProjects: seq<AwardSummary>)
    ensures allProjects == SearchedAll(keyword, limitPerGroup, search)
  {
    allProjects := [];
    var contracts := SearchPublicProjects(keyword, Contracts, limitPerGroup, search);
    allProjects := allProjects + contracts;
    var grants := SearchPublicProjects(keyword, Grants, limitPerGroup, search);
    allProjects := allProjects + grants;
  }

  /** An award is returned for one group exactly when the search succeeded,
      the award is among its results and it passes the relevance test. */
  lemma SearchedPublicMembers(keyword: string, group: AwardGroup, limit: int,
                              search: SearchPayload -> SearchResponse, a: AwardSummary)
    ensures a in SearchedPublic(keyword, group, limit, search) <==>
      var response := search(SearchPayloadFor(keyword, group, limit));
      response.status == 200 && a in response.results.GetOr([]) && IsPublicAward(a)
  {
    PublicOnlyMembers(search(SearchPayloadFor(keyword, group, limit)).results.GetOr([]), a);
  }

  /** The combined search returns only awards that pass the relevance test:
      the filter is on the collection path. */
  lemma SearchedAllArePublic(keyword: string, limit: int,
                             search: SearchPayload -> SearchResponse, a: AwardSummary)
    requires a in SearchedAll(keyword, limit, search)
    ensures IsPublicAward(a)
  {
    SearchedPublicMembers(keyword, Contracts, limit, search, a);
    SearchedPublicMembers(keyword, Grants, limit, search, a);
  }

  /** No award-type code belongs to two groups. */
  lemma AwardTypeGroupsAreDisjoint(g: AwardGroup, h: AwardGroup, code: string)
    requires g != h && code in AwardTypeCodes(g)
    ensures code !in AwardTypeCodes(h)
  {
  }

  /** A recipient with "city of" somewhere in it, in any ASCII case, makes an
      award public whatever its description. */
  lemma CityRecipientIsPublic(award: AwardSummary, i: int)
    requires award.recipientName.Some?
    requires 0 <= i && i + 7 <= |award.recipientName.value|
    requires Lower(award.recipientName.value[i..i + 7]) == "city of"
    ensures IsPublicAward(award)
  {
    var recipient := award.recipientName.value;
    assert Lower(recipient)[i..i + 7] == Lower(recipient[i..i + 7]);
    assert OccursAt(PublicRecipientPhrases[0], Lower(recipient), i);
  }

  /** An all-capitals city recipient is public. */
  lemma CapitalCityRecipientIsPublic(award: AwardSummary)
    requires award.recipientName == Some("CITY OF AUSTIN")
    ensures IsPublicAward(award)
  {
    assert Lower("CITY OF AUSTIN"[0..7]) == "city of";
    CityRecipientIsPublic(award, 0);
  }

  /** An award with no description and recipient "Acme Corp" is not public:
      each recipient phrase has a letter that "acme corp" lacks. */
  lemma AcmeCorpIsNotPublic(award: AwardSummary)
    requires award.description == None && award.recipientName == Some("Acme Corp")
    ensures !IsPublicAward(award)
  {
    var recipient := "acme corp";
    assert Lower("Acme Corp") == recipient;
    var missing := ['y', 'y', 's', 'u', 'k', 'd', 'i'];
    forall k | 0 <= k < |PublicRecipientPhrases|
      ensures !Occurs(PublicRecipientPhrases[k], recipient)
    {
      assert missing[k] in PublicRecipientPhrases[k] && missing[k] !in recipient;
      if Occurs(PublicRecipientPhrases[k], recipient) {
        OccurrenceHasEveryChar(PublicRecipientPhrases[k], recipient, missing[k]);
      }
    }
    forall k | 0 <= k < |IncludeTerms|
      ensures !Occurs(IncludeTerms[k], Lower(""))
    {
    }
  }
}
