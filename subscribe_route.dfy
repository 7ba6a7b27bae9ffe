/**
 * The newsletter endpoint: it refuses to run without its mailing-service
 * configuration, checks the email address, tags the subscriber with the quiz
 * answers it was given, and forwards the subscription upstream.
 *
 * The two environment variables and the upstream reply are parameters; the
 * request the route would send is returned instead of sent.
 */
module SubscribeRoute {
  import opened Js

  /** The posted body: not JSON (reading it throws), or an object whose
      string members may each be absent. */
  datatype SubscribeBody =
    | Unparsable
    | Body(email: Option<string>, recipient: Option<string>, budget: Option<string>, personality: Option<string>)

  datatype Upstream = Accepted | Refused | Unreachable

  /** The subscription the route posts to the mailing service. */
  datatype Outbound = Outbound(url: string, apiKey: string, emailAddress: string, tags: seq<string>)

  datatype ResponseBody = ErrorBody(error: string) | Success
  datatype Response = Response(status: int, body: ResponseBody)

  /** A string value is truthy when present and non-empty. */
  predicate Truthy(o: Option<string>) {
    o.Some? && o.value != ""
  }

  /** `email && email.includes('@')`. */
  predicate ValidEmail(email: Option<string>) {
    Truthy(email) && Includes(email.value, "@")
  }

  /** An address passes exactly when it contains an at sign. */
  lemma ValidEmailIff(email: Option<string>)
    ensures ValidEmail(email) <==> email.Some? && '@' in email.value
  {
    if email.Some? {
      var s := email.value;
      IncludesIff(s, "@");
      if '@' in s {
        var i :| 0 <= i < |s| && s[i] == '@';
        assert OccursAt(s, "@", i);
      }
      if Includes(s, "@") {
        var i :| OccursAt(s, "@", i);
        assert s[i] == s[i..i + 1][0];
      }
    }
  }

  /** The tag a present context field contributes. */
  function ContextTag(prefix: string, field: Option<string>): seq<string> {
    if Truthy(field) then [prefix + field.value] else []
  }

  /** The tag list, in push order. */
  function ContextTags(recipient: Option<string>, budget: Option<string>, personality: Option<string>): seq<string> {
    ["valentine-quiz"] + ContextTag("recipient-", recipient) + ContextTag("budget-", budget)
      + ContextTag("personality-", personality)
  }

  function Count(present: bool): nat {
    if present then 1 else 0
  }

  predicate StartsWith(s: string, prefix: string) {
    |prefix| <= |s| && s[..|prefix|] == prefix
  }

  /** The list always opens with "valentine-quiz", holds one more tag per
      present field, each under its own prefix, and nothing else. */
  lemma ContextTagsShape(recipient: Option<string>, budget: Option<string>, personality: Option<string>)
    ensures var tags := ContextTags(recipient, budget, personality);
      && tags[0] == "valentine-quiz"
      && |tags| == 1 + Count(Truthy(recipient)) + Count(Truthy(budget)) + Count(Truthy(personality))
      && (Truthy(recipient) <==> exists i :: 0 <= i < |tags| && StartsWith(tags[i], "recipient-"))
      && (Truthy(budget) <==> exists i :: 0 <= i < |tags| && StartsWith(tags[i], "budget-"))
      && (Truthy(personality) <==> exists i :: 0 <= i < |tags| && StartsWith(tags[i], "personality-"))
      && (Truthy(recipient) ==> tags[1] == "recipient-" + recipient.value)
  {
    var tags := ContextTags(recipient, budget, personality);
    var r, b, p := ContextTag("recipient-", recipient), ContextTag("budget-", budget), ContextTag("personality-", personality);
    assert tags == ["valentine-quiz"] + r + b + p;
    PrefixOf("recipient-", recipient);
    PrefixOf("budget-", budget);
    PrefixOf("personality-", personality);
    forall i | 0 <= i < |tags| ensures tags[i] in ["valentine-quiz"] + r + b + p {
    }
    StartsWithFirst("valentine-quiz", "recipient-");
    StartsWithFirst("valentine-quiz", "budget-");
    StartsWithFirst("valentine-quiz", "personality-");
    ForeignPrefixes(recipient, budget, personality);
    if Truthy(recipient) { assert tags[1] == r[0]; }
    if Truthy(budget) { assert tags[1 + |r|] == b[0]; }
    if Truthy(personality) { assert tags[1 + |r| + |b|] == p[0]; }
  }

  lemma StartsWithFirst(s: string, prefix: string)
    requires |prefix| > 0
    ensures StartsWith(s, prefix) ==> |s| > 0 && s[0] == prefix[0]
  {
    if StartsWith(s, prefix) {
      assert s[..|prefix|][0] == s[0];
    }
  }

  lemma PrefixOf(prefix: string, field: Option<string>)
    ensures forall t :: t in ContextTag(prefix, field) ==> StartsWith(t, prefix)
  {
    if Truthy(field) {
      assert (prefix + field.value)[..|prefix|] == prefix;
    }
  }

  /** No context tag carries another field's prefix. */
  lemma ForeignPrefixes(recipient: Option<string>, budget: Option<string>, personality: Option<string>)
    ensures forall t :: t in ContextTag("recipient-", recipient) ==> !StartsWith(t, "budget-") && !StartsWith(t, "personality-")
    ensures forall t :: t in ContextTag("budget-", budget) ==> !StartsWith(t, "recipient-") && !StartsWith(t, "personality-")
    ensures forall t :: t in ContextTag("personality-", personality) ==> !StartsWith(t, "recipient-") && !StartsWith(t, "budget-")
  {
    if Truthy(recipient) { assert ("recipient-" + recipient.value)[0] == 'r'; }
    if Truthy(budget) { assert ("budget-" + budget.value)[0] == 'b'; }
    if Truthy(personality) { assert ("personality-" + personality.value)[0] == 'p'; }
  }

  /** Builds the tag list by pushes, as the route does. */
  method BuildTags(recipient: Option<string>, budget: Option<string>, personality: Option<string>)
    returns (tags: seq<string>)
    ensures tags == ContextTags(recipient, budget, personality)
  {
    tags := ["valentine-quiz"];
    if Truthy(recipient) {
      tags := tags + ["recipient-" + recipient.value];
    }
    if Truthy(budget) {
      tags := tags + ["budget-" + budget.value];
    }
    if Truthy(personality) {
      tags := tags + ["personality-" + personality.value];
    }
  }

  function SubscribersUrl(formId: string): string {
    "https://api.convertkit.com/v4/forms/" + formId + "/subscribers"
  }

  predicate Configured(apiKey: Option<string>, formId: Option<string>) {
    Truthy(apiKey) && Truthy(formId)
  }

  /** `POST /api/subscribe`: the guards in order, then the upstream call. */
  method Post(apiKey: Option<string>, formId: Option<string>, body: SubscribeBody, upstream: Upstream)
    returns (response: Response, sent: Option<Outbound>)
    ensures !Configured(apiKey, formId) ==>
      response == Response(500, ErrorBody("Email service not configured")) && sent == None
    ensures Configured(apiKey, formId) && body.Unparsable? ==>
      response == Response(500, ErrorBody("Something went wrong")) && sent == None
    ensures Configured(apiKey, formId) && body.Body? && !ValidEmail(body.email) ==>
      response == Response(400, ErrorBody("Valid email required")) && sent == None
    ensures Configured(apiKey, formId) && body.Body? && ValidEmail(body.email) ==>
      && sent == Some(Outbound(SubscribersUrl(formId.value), apiKey.value, body.email.value,
                               ContextTags(body.recipient, body.budget, body.personality)))
      && (upstream == Accepted ==> response == Response(200, Success))
      && (upstream == Refused ==> response == Response(500, ErrorBody("Failed to subscribe")))
      && (upstream == Unreachable ==> response == Response(500, ErrorBody("Something went wrong")))
  {
    if !Configured(apiKey, formId) {
      return Response(500, ErrorBody("Email service not configured")), None;
    }
    if body.Unparsable? {
      return Response(500, ErrorBody("Something went wrong")), None;
    }
    if !ValidEmail(body.email) {
      return Response(400, ErrorBody("Valid email required")), None;
    }
    var tags := BuildTags(body.recipient, body.budget, body.personality);
    sent := Some(Outbound(SubscribersUrl(formId.value), apiKey.value, body.email.value, tags));
    match upstream
    case Unreachable =>
      response := Response(500, ErrorBody("Something went wrong"));
    case Refused =>
      response := Response(500, ErrorBody("Failed to subscribe"));
    case Accepted =>
      response := Response(200, Success);
  }
}
