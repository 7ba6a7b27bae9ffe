/**
 * The AI search endpoint: it validates the posted query, asks the language
 * model upstream for suggestions, cuts the JSON object out of the model's
 * free-text reply, and stamps each suggestion with an id.
 *
 * The network, the environment variable, `JSON.parse` and `Date.now` are
 * parameters: the upstream reply is given, parsing is a function from the
 * extracted text to its outcome, and the clock is a function from the
 * position in the list to the millisecond time read there.
 */
module SearchRoute {
  import opened Js

  /** `AIGiftSuggestion`, the shape the endpoint returns and both client pages read. */
  datatype Suggestion = Suggestion(
    id: string,
    name: string,
    searchQuery: string,
    description: string,
    priceEstimate: string,
    whyItWorks: string,
    whereToBuy: seq<string>,
    tags: seq<string>)

  /** The `query` member of the posted JSON object. */
  datatype QueryField = Missing | Str(s: string) | NonString

  /** The posted body: not JSON (or `null`, whose destructuring throws), or an object. */
  datatype RequestBody = Unparsable | Object(query: QueryField)

  /** What the upstream call came back with. `Replied(None)` is a reply whose
      `choices[0].message.content` is absent. */
  datatype Upstream = Unreachable | Rejected | Replied(content: Option<string>)

  /** The outcome of `JSON.parse` on the extracted text followed by reading
      `gifts`: `Invalid` when parsing throws or `gifts` is neither absent nor a
      list; `Parsed(None)` when `gifts` is absent or falsy. */
  datatype ParseOutcome = Invalid | Parsed(gifts: Option<seq<Suggestion>>)

  datatype ResponseBody = ErrorBody(error: string) | SuggestionsBody(suggestions: seq<Suggestion>)
  datatype Response = Response(status: int, body: ResponseBody)

  /** A JavaScript function's result: a value, or an exception. */
  datatype Completion<T> = Returned(value: T) | Threw

  // ---------------------------------------------------------------------------
  // Cutting the JSON object out of the reply: /\{[\s\S]*\}/
  // ---------------------------------------------------------------------------

  /** Position of the last `c` in `s`, or -1. */
  function LastIndexOf(s: string, c: char): (k: int)
    ensures -1 <= k < |s|
    ensures k >= 0 ==> s[k] == c
    ensures forall j :: k < j < |s| ==> s[j] != c
  {
    if |s| == 0 then -1
    else if s[|s| - 1] == c then |s| - 1
    else LastIndexOf(s[..|s| - 1], c)
  }

  /** The pattern matches `s[i..j + 1]`: an opening brace, anything, a closing brace. */
  predicate BraceSpan(s: string, i: int, j: int) {
    0 <= i < j < |s| && s[i] == '{' && s[j] == '}'
  }

  /** `content.match(/\{[\s\S]*\}/)`: the leftmost match, made as long as
      possible, or nothing when no brace pair exists. */
  function ExtractJson(content: string): (r: Option<string>)
    ensures r.None? <==> forall i, j :: !BraceSpan(content, i, j)
    ensures r.Some? ==>
      (exists i, j :: BraceSpan(content, i, j) && r.value == content[i..j + 1]
        && (forall i', j' :: i' < i ==> !BraceSpan(content, i', j'))
        && (forall j' :: j < j' ==> !BraceSpan(content, i, j')))
  {
    var i := FindIndex(content, (ch: char) => ch == '{');
    var j := LastIndexOf(content, '}');
    if i < j then
      assert BraceSpan(content, i, j);
      Some(content[i..j + 1])
    else
      None
  }

  /** The extracted text starts with `{` and ends with `}`. */
  lemma ExtractedIsBraced(content: string)
    requires ExtractJson(content).Some?
    ensures var t := ExtractJson(content).value;
      |t| >= 2 && t[0] == '{' && t[|t| - 1] == '}'
  {
  }

  // ---------------------------------------------------------------------------
  // Id stamping: `ai-${Date.now()}-${index}`
  // ---------------------------------------------------------------------------

  function AiId(time: nat, index: nat): string {
    "ai-" + NatToString(time) + "-" + NatToString(index)
  }

  /** `{...gift, id}` for each gift, with the clock read once per element. */
  function StampIds(gifts: seq<Suggestion>, clock: nat -> nat): (r: seq<Suggestion>)
    ensures |r| == |gifts|
    ensures forall i :: 0 <= i < |r| ==> r[i] == gifts[i].(id := AiId(clock(i), i))
  {
    seq(|gifts|, i requires 0 <= i < |gifts| => gifts[i].(id := AiId(clock(i), i)))
  }

  predicate AllDigits(s: string) {
    forall k :: 0 <= k < |s| ==> IsDigit(s[k])
  }

  predicate IsDash(ch: char) {
    ch == '-'
  }

  /** The first dash after a run of digits is the one that ends it. */
  lemma FirstDash(a: string, b: string)
    requires AllDigits(a)
    ensures FindIndex(a + "-" + b, IsDash) == |a|
  {
    var s := a + "-" + b;
    var k := FindIndex(s, IsDash);
    assert IsDash(s[|a|]);
  }

  /** Two digit strings joined by a dash can be split back in one way only. */
  lemma DashSplitUnique(a: string, b: string, c: string, d: string)
    requires AllDigits(a) && AllDigits(c)
    requires a + "-" + b == c + "-" + d
    ensures a == c && b == d
  {
    var s := a + "-" + b;
    FirstDash(a, b);
    FirstDash(c, d);
    assert a == s[..|a|];
    assert c == (c + "-" + d)[..|c|];
    assert b == s[|a| + 1..];
    assert d == (c + "-" + d)[|c| + 1..];
  }

  /** An id names its clock reading and its position. */
  lemma AiIdInjective(t1: nat, i1: nat, t2: nat, i2: nat)
    requires AiId(t1, i1) == AiId(t2, i2)
    ensures t1 == t2 && i1 == i2
  {
    var a, b := NatToString(t1), NatToString(i1);
    var c, d := NatToString(t2), NatToString(i2);
    assert AiId(t1, i1) == "ai-" + (a + "-" + b);
    assert AiId(t2, i2) == "ai-" + (c + "-" + d);
    assert a + "-" + b == AiId(t1, i1)[3..];
    assert c + "-" + d == AiId(t2, i2)[3..];
    DashSplitUnique(a, b, c, d);
    NatToStringInjective(t1, t2);
    NatToStringInjective(i1, i2);
  }

  /** Stamped ids are pairwise distinct whatever the clock reads, each begins
      with "ai-", and every other field is the parsed one. */
  lemma StampedIdsDistinct(gifts: seq<Suggestion>, clock: nat -> nat)
    ensures var r := StampIds(gifts, clock);
      && (forall i, j :: 0 <= i < j < |r| ==> r[i].id != r[j].id)
      && (forall i :: 0 <= i < |r| ==> r[i].id[..3] == "ai-")
      && (forall i :: 0 <= i < |r| ==> r[i].(id := gifts[i].id) == gifts[i])
  {
    var r := StampIds(gifts, clock);
    forall i, j | 0 <= i < j < |r| ensures r[i].id != r[j].id {
      if r[i].id == r[j].id {
        AiIdInjective(clock(i), i, clock(j), j);
      }
    }
  }

  // ---------------------------------------------------------------------------
  // The endpoint
  // ---------------------------------------------------------------------------

  /** `searchGiftsWithAI(query)`, less the request it sends. It throws exactly
      when a key is configured and the upstream call fails; without a key it
      returns no suggestions; whatever it returns carries distinct ids. */
  function SearchGiftsWithAI(apiKey: Option<string>, upstream: Upstream,
                             parse: string -> ParseOutcome, clock: nat -> nat): (r: Completion<seq<Suggestion>>)
    ensures r.Threw? <==> apiKey.Some? && apiKey.value != "" && !upstream.Replied?
    ensures apiKey.None? || apiKey.value == "" ==> r == Returned([])
    ensures r.Returned? ==> forall i, j :: 0 <= i < j < |r.value| ==> r.value[i].id != r.value[j].id
  {
    if apiKey.None? || apiKey.value == "" then Returned([])
    else match upstream
      case Unreachable => Threw
      case Rejected => Threw
      case Replied(content) =>
        if content.None? || content.value == "" then Returned([])
        else match ExtractJson(content.value)
          case None => Returned([])
          case Some(text) =>
            match parse(text)
            case Invalid => Returned([])
            case Parsed(gifts) =>
              if gifts.Some? then
                StampedIdsDistinct(gifts.value, clock);
                Returned(StampIds(gifts.value, clock))
              else Returned([])
  }

  /** A query is accepted when it is a non-empty string. */
  predicate ValidQuery(q: QueryField) {
    q.Str? && q.s != ""
  }

  /** `POST /api/search`. Every response is one of the three the route
      defines, and which one is decided by the body, the key and the upstream
      reply as follows. */
  function Post(body: RequestBody, apiKey: Option<string>, upstream: Upstream,
                parse: string -> ParseOutcome, clock: nat -> nat): (r: Response)
    ensures r.status == 400 <==> body.Object? && !ValidQuery(body.query)
    ensures r.status == 400 ==> r.body == ErrorBody("Query is required")
    ensures r.status == 500 <==>
      (body.Unparsable? || (ValidQuery(body.query) && apiKey.Some? && apiKey.value != "" && !upstream.Replied?))
    ensures r.status == 500 ==> r.body == ErrorBody("Failed to search for gifts")
    ensures r.status == 200 <==> r.body.SuggestionsBody?
    ensures r.status == 200 || r.status == 400 || r.status == 500
    ensures r.status == 200 ==>
      forall i, j :: 0 <= i < j < |r.body.suggestions| ==> r.body.suggestions[i].id != r.body.suggestions[j].id
  {
    match body
    case Unparsable => Response(500, ErrorBody("Failed to search for gifts"))
    case Object(query) =>
      if !ValidQuery(query) then Response(400, ErrorBody("Query is required"))
      else match SearchGiftsWithAI(apiKey, upstream, parse, clock)
        case Threw => Response(500, ErrorBody("Failed to search for gifts"))
        case Returned(suggestions) => Response(200, SuggestionsBody(suggestions))
  }

  /** Without an API key every valid query gets an empty list, never an error. */
  lemma NoKeyNoSuggestions(query: string, upstream: Upstream, parse: string -> ParseOutcome, clock: nat -> nat)
    requires query != ""
    ensures Post(Object(Str(query)), None, upstream, parse, clock) == Response(200, SuggestionsBody([]))
    ensures Post(Object(Str(query)), Some(""), upstream, parse, clock) == Response(200, SuggestionsBody([]))
  {
  }

  /** A successful response lists the parsed gifts in order under fresh,
      distinct ids; any failure to find or parse them gives the empty list. */
  lemma PostSuccess(query: string, key: string, content: string,
                    parse: string -> ParseOutcome, clock: nat -> nat)
    requires query != "" && key != "" && content != ""
    ensures var r := Post(Object(Str(query)), Some(key), Replied(Some(content)), parse, clock);
      && r.status == 200
      && (ExtractJson(content).None? ==> r.body.suggestions == [])
      && (ExtractJson(content).Some? && parse(ExtractJson(content).value) == Parsed(None) ==> r.body.suggestions == [])
      && (ExtractJson(content).Some? && parse(ExtractJson(content).value) == Invalid ==> r.body.suggestions == [])
      && (ExtractJson(content).Some? && parse(ExtractJson(content).value).Parsed? &&
          parse(ExtractJson(content).value).gifts.Some? ==>
            var gifts := parse(ExtractJson(content).value).gifts.value;
            && |r.body.suggestions| == |gifts|
            && (forall i, j :: 0 <= i < j < |gifts| ==> r.body.suggestions[i].id != r.body.suggestions[j].id)
            && (forall i :: 0 <= i < |gifts| ==> r.body.suggestions[i].(id := gifts[i].id) == gifts[i]))
  {
    var e := ExtractJson(content);
    if e.Some? && parse(e.value).Parsed? && parse(e.value).gifts.Some? {
      StampedIdsDistinct(parse(e.value).gifts.value, clock);
    }
  }

  // ---------------------------------------------------------------------------
  // The client's view of a call
  // ---------------------------------------------------------------------------

  /** What a page's `fetch('/api/search')` settles to: an ok reply (with its
      `suggestions` member, if any), a non-ok reply, or a thrown error. */
  datatype FetchOutcome = Ok(suggestions: Option<seq<Suggestion>>) | NotOk | Failed

  /** The outcome a page sees for a response of this route. */
  function ClientView(r: Response): (o: FetchOutcome)
    ensures o.Ok? <==> 200 <= r.status < 300
    ensures o.Ok? && r.body.SuggestionsBody? ==> o.suggestions == Some(r.body.suggestions)
  {
    if 200 <= r.status < 300 then
      Ok(if r.body.SuggestionsBody? then Some(r.body.suggestions) else None)
    else NotOk
  }

  /** `data.suggestions || []`: the list from an ok reply, else nothing. */
  function SuggestionsOrEmpty(o: FetchOutcome): (r: seq<Suggestion>)
    requires o.Ok?
    ensures o.suggestions.Some? ==> r == o.suggestions.value
    ensures o.suggestions.None? ==> r == []
  {
    if o.suggestions.Some? then o.suggestions.value else []
  }
}
