/**
 * The search page: a free-text query runs a case-insensitive match over the
 * curated catalog at once and asks the AI endpoint for more suggestions; the
 * page keeps both result lists and its loading flags as state.
 */
module SearchPage {
  import opened Js
  import opened Types
  import Gifts
  import UriComponent
  import opened SearchRoute

  /** Some interest contains the (already lower-cased) needle, ignoring case. */
  predicate SomeInterestIncludes(interests: seq<string>, needle: string) {
    exists i :: 0 <= i < |interests| && Includes(ToLower(interests[i]), needle)
  }

  /** The curated filter: the lower-cased query occurs in the lower-cased name,
      description or one of the interests. */
  predicate CuratedMatch(g: Gift, q: string) {
    var needle := ToLower(q);
    || Includes(ToLower(g.name), needle)
    || Includes(ToLower(g.description), needle)
    || SomeInterestIncludes(g.interests, needle)
  }

  /** The catalog gifts the query matches, in catalog order. */
  function CuratedMatches(gifts: seq<Gift>, q: string): (r: seq<Gift>)
    ensures forall i :: 0 <= i < |r| ==> r[i] in gifts && CuratedMatch(r[i], q)
    ensures forall i :: 0 <= i < |gifts| && CuratedMatch(gifts[i], q) ==> gifts[i] in r
    ensures SubsequenceOf(r, gifts)
    ensures forall g :: multiset(r)[g] == if CuratedMatch(g, q) then multiset(gifts)[g] else 0
  {
    FilterCounts(gifts, (g: Gift) => CuratedMatch(g, q));
    Filter(gifts, (g: Gift) => CuratedMatch(g, q))
  }

  /** The match ignores the case of the query. */
  lemma CuratedMatchesIgnoreCase(gifts: seq<Gift>, q: string)
    ensures CuratedMatches(gifts, ToUpper(q)) == CuratedMatches(gifts, q)
  {
    LowerOfUpper(q);
    FilterAgree(gifts, (g: Gift) => CuratedMatch(g, ToUpper(q)), (g: Gift) => CuratedMatch(g, q));
  }

  /** A gift whose name, description or one of whose interests contains the
      query verbatim is among the matches. */
  lemma VerbatimOccurrenceMatches(gifts: seq<Gift>, q: string, i: nat)
    requires i < |gifts|
    requires Includes(gifts[i].name, q) || Includes(gifts[i].description, q)
          || (exists k :: 0 <= k < |gifts[i].interests| && Includes(gifts[i].interests[k], q))
    ensures gifts[i] in CuratedMatches(gifts, q)
  {
    var g := gifts[i];
    if Includes(g.name, q) {
      LowerKeepsOccurrence(g.name, q);
    } else if Includes(g.description, q) {
      LowerKeepsOccurrence(g.description, q);
    } else {
      var k :| 0 <= k < |g.interests| && Includes(g.interests[k], q);
      LowerKeepsOccurrence(g.interests[k], q);
    }
  }

  class SearchPage {
    var query: string
    var aiResults: seq<Suggestion>
    var curatedResults: seq<Gift>
    var loading: bool
    var searched: bool

    constructor()
      ensures query == "" && aiResults == [] && curatedResults == []
      ensures !loading && !searched
    {
      query := "";
      aiResults := [];
      curatedResults := [];
      loading := false;
      searched := false;
    }

    /** `totalResults`: both lists together. */
    function TotalResults(): (n: nat)
      reads this
      ensures n == |curatedResults| + |aiResults|
    {
      |curatedResults| + |aiResults|
    }

    /** The text box: `setQuery`. */
    method SetQuery(q: string)
      modifies this
      ensures query == q
      ensures aiResults == old(aiResults) && curatedResults == old(curatedResults)
      ensures loading == old(loading) && searched == old(searched)
    {
      query := q;
    }

    /** `handleSearch(searchQuery)` up to its fetch. A blank query changes
        nothing and sends nothing; otherwise the page is loading, has searched,
        shows the curated matches for the query as typed (untrimmed), and posts
        the query to the AI endpoint. */
    method HandleSearch(db: GiftDatabase, searchQuery: string) returns (request: Option<string>)
      modifies this
      ensures Trim(searchQuery) == "" ==>
        && request == None
        && query == old(query) && aiResults == old(aiResults) && curatedResults == old(curatedResults)
        && loading == old(loading) && searched == old(searched)
      ensures Trim(searchQuery) != "" ==>
        && request == Some(searchQuery)
        && loading && searched
        && curatedResults == CuratedMatches(db.gifts, searchQuery)
        && query == old(query) && aiResults == old(aiResults)
    {
      if Trim(searchQuery) == "" {
        return None;
      }
      loading := true;
      searched := true;
      var allGifts := Gifts.GetAllGifts(db);
      curatedResults := CuratedMatches(allGifts, searchQuery);
      request := Some(searchQuery);
    }

    /** `handleSearch` after its fetch settles: an ok reply's suggestions
        replace the AI results; loading ends whatever happened. */
    method SettleSearch(outcome: FetchOutcome)
      modifies this
      ensures !loading
      ensures outcome.Ok? ==> aiResults == SuggestionsOrEmpty(outcome)
      ensures !outcome.Ok? ==> aiResults == old(aiResults)
      ensures query == old(query) && curatedResults == old(curatedResults) && searched == old(searched)
    {
      if outcome.Ok? {
        aiResults := SuggestionsOrEmpty(outcome);
      }
      loading := false;
    }

    /** `handleSubmit`: a blank box does nothing; otherwise the address bar
        becomes `/search?q=` plus the encoded query and the search runs. */
    method HandleSubmit(db: GiftDatabase) returns (url: Option<string>, request: Option<string>)
      modifies this
      ensures Trim(old(query)) == "" ==>
        && url == None && request == None
        && query == old(query) && aiResults == old(aiResults) && curatedResults == old(curatedResults)
        && loading == old(loading) && searched == old(searched)
      ensures Trim(old(query)) != "" ==>
        && url == Some("/search?q=" + UriComponent.Encode(query))
        && request == Some(query)
        && loading && searched
        && curatedResults == CuratedMatches(db.gifts, query)
        && query == old(query) && aiResults == old(aiResults)
    {
      if Trim(query) != "" {
        url := Some("/search?q=" + UriComponent.Encode(query));
        request := HandleSearch(db, query);
      } else {
        url, request := None, None;
      }
    }

    /** The mount effect: a non-empty `q` parameter fills the box and runs the search. */
    method Mount(db: GiftDatabase, q: Option<string>) returns (request: Option<string>)
      modifies this
      ensures (q.None? || q.value == "") ==>
        && request == None
        && query == old(query) && aiResults == old(aiResults) && curatedResults == old(curatedResults)
        && loading == old(loading) && searched == old(searched)
      ensures q.Some? && q.value != "" && Trim(q.value) == "" ==>
        && request == None && query == q.value
        && aiResults == old(aiResults) && curatedResults == old(curatedResults)
        && loading == old(loading) && searched == old(searched)
      ensures q.Some? && Trim(q.value) != "" ==>
        && request == Some(q.value) && query == q.value
        && loading && searched
        && curatedResults == CuratedMatches(db.gifts, q.value) && aiResults == old(aiResults)
    {
      if q.Some? && q.value != "" {
        query := q.value;
        request := HandleSearch(db, q.value);
      } else {
        request := None;
      }
    }
  }

  /** A query the route turns away (`400`) leaves the AI results as they were. */
  lemma RejectedQueryKeepsResults(body: RequestBody, apiKey: Option<string>, upstream: Upstream,
                                  parse: string -> ParseOutcome, clock: nat -> nat)
    requires body.Object? && !ValidQuery(body.query)
    ensures !ClientView(Post(body, apiKey, upstream, parse, clock)).Ok?
  {
  }
}
