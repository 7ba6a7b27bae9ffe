/**
 * Retailer routing: which partner shop a gift's tags send the buyer to, and
 * the search URL for a product name at that shop. Only Amazon carries an
 * affiliate tag.
 */
module Retailers {
  import opened Js
  import UriComponent

  datatype RetailerKey = Amazon | Etsy | Noths | VirginExp

  function KeyName(k: RetailerKey): string {
    match k
    case Amazon => "amazon"
    case Etsy => "etsy"
    case Noths => "noths"
    case VirginExp => "virginexp"
  }

  /** Reads a retailer key from its spelling. */
  function ParseKey(s: string): (r: Option<RetailerKey>)
    ensures r.Some? ==> KeyName(r.value) == s
    ensures forall k :: KeyName(k) == s ==> r == Some(k)
  {
    if s == "amazon" then Some(Amazon)
    else if s == "etsy" then Some(Etsy)
    else if s == "noths" then Some(Noths)
    else if s == "virginexp" then Some(VirginExp)
    else None
  }

  /** `AFFILIATE_TAGS`: Amazon is the only programme with a tag. */
  const AffiliateTags: map<RetailerKey, string> := map[Amazon := "aanthony08-21"]

  /** `RETAILER_NAMES`. */
  const RetailerNames: map<RetailerKey, string> := map[
    Amazon := "Amazon",
    Etsy := "Etsy",
    Noths := "Not On The High Street",
    VirginExp := "Virgin Experience Days"]

  /** Every retailer has a non-empty display name, and only Amazon has an affiliate tag. */
  lemma RetailerTables()
    ensures forall k :: k in RetailerNames && |RetailerNames[k]| > 0
    ensures forall k :: k in AffiliateTags <==> k == Amazon
  {
    forall k ensures k in RetailerNames && |RetailerNames[k]| > 0 {
      match k
      case Amazon =>
      case Etsy =>
      case Noths =>
      case VirginExp =>
    }
  }

  // ---------------------------------------------------------------------------
  // Search URLs
  // ---------------------------------------------------------------------------

  /** What comes before the encoded term in a retailer's search URL. */
  function UrlPrefix(k: RetailerKey): string {
    match k
    case Amazon => "https://" + "www." + "amazon" + ".co.uk" + "/s?k="
    case Etsy => "https://" + "www." + "etsy" + ".com" + "/uk/search?q="
    case Noths => "https://" + "www." + "notonthehighstreet" + ".com" + "/search?term="
    case VirginExp => "https://" + "www." + "virginexperiencedays" + ".co.uk" + "/search?query="
  }

  /** What follows the encoded term: the affiliate parameter, for Amazon only. */
  function UrlSuffix(k: RetailerKey): string {
    if k in AffiliateTags then "&tag=" + AffiliateTags[k] else ""
  }

  /** `getRetailerSearchUrl(retailer, productName)`: a URL for each of the four
      keys, `null` for any other string. */
  function GetRetailerSearchUrl(retailer: string, productName: string): (r: Option<string>)
    ensures r.Some? <==> retailer in {"amazon", "etsy", "noths", "virginexp"}
    ensures r.Some? ==>
      (exists k :: KeyName(k) == retailer && r.value == UrlPrefix(k) + UriComponent.Encode(productName) + UrlSuffix(k))
  {
    var searchTerm := UriComponent.Encode(productName);
    var key := ParseKey(retailer);
    if key.Some? then
      Some(UrlPrefix(key.value) + searchTerm + UrlSuffix(key.value))
    else None
  }

  /** The term can be read back out of every URL: the part between the
      retailer's prefix and suffix decodes to the product name. */
  lemma UrlCarriesTermUnchanged(k: RetailerKey, productName: string)
    ensures var url := GetRetailerSearchUrl(KeyName(k), productName);
      && url.Some?
      && |UrlPrefix(k)| + |UrlSuffix(k)| <= |url.value|
      && url.value[..|UrlPrefix(k)|] == UrlPrefix(k)
      && url.value[|url.value| - |UrlSuffix(k)|..] == UrlSuffix(k)
      && UriComponent.Decode(url.value[|UrlPrefix(k)|..|url.value| - |UrlSuffix(k)|]) == Some(productName)
  {
    var e := UriComponent.Encode(productName);
    var url := UrlPrefix(k) + e + UrlSuffix(k);
    assert ParseKey(KeyName(k)) == Some(k);
    assert url[|UrlPrefix(k)|..|url| - |UrlSuffix(k)|] == e;
    UriComponent.DecodeEncode(productName);
  }

  /** Only the Amazon URL carries the affiliate parameter: it ends with
      `&tag=aanthony08-21`, and the other three URLs contain no `&` at all. */
  lemma OnlyAmazonIsTagged(k: RetailerKey, productName: string)
    ensures var url := GetRetailerSearchUrl(KeyName(k), productName).value;
      k == Amazon <==> Includes(url, "&tag=aanthony08-21")
  {
    var e := UriComponent.Encode(productName);
    var url := UrlPrefix(k) + e + UrlSuffix(k);
    assert ParseKey(KeyName(k)) == Some(k);
    assert GetRetailerSearchUrl(KeyName(k), productName).value == url;
    if k == Amazon {
      TaggedUrl(productName);
    } else {
      UntaggedUrl(k, productName);
    }
  }

  lemma TaggedUrl(productName: string)
    ensures Includes(UrlPrefix(Amazon) + UriComponent.Encode(productName) + UrlSuffix(Amazon), "&tag=aanthony08-21")
  {
    assert UrlSuffix(Amazon) == "&tag=aanthony08-21";
    EndsWithIncludes(UrlPrefix(Amazon) + UriComponent.Encode(productName), "&tag=aanthony08-21");
  }

  lemma UntaggedUrl(k: RetailerKey, productName: string)
    requires k != Amazon
    ensures !Includes(UrlPrefix(k) + UriComponent.Encode(productName) + UrlSuffix(k), "&tag=aanthony08-21")
  {
    var e := UriComponent.Encode(productName);
    UriComponent.EncodeHasNoQuerySyntax(productName);
    assert UrlSuffix(k) == "";
    assert UrlPrefix(k) + e + UrlSuffix(k) == UrlPrefix(k) + e;
    PrefixHasNoAmpersand(k);
    NoAmpersand(UrlPrefix(k), e);
    MissingFirstCharExcludes(UrlPrefix(k) + e, "&tag=aanthony08-21");
  }

  lemma EndsWithIncludes(s: string, t: string)
    ensures Includes(s + t, t)
  {
    IncludesIff(s + t, t);
    assert OccursAt(s + t, t, |s|);
  }

  lemma PrefixHasNoAmpersand(k: RetailerKey)
    ensures forall i :: 0 <= i < |UrlPrefix(k)| ==> UrlPrefix(k)[i] != '&'
  {
    match k
    case Amazon => assert '&' !in UrlPrefix(Amazon);
    case Etsy => assert '&' !in UrlPrefix(Etsy);
    case Noths => assert '&' !in UrlPrefix(Noths);
    case VirginExp => assert '&' !in UrlPrefix(VirginExp);
  }

  lemma NoAmpersand(prefix: string, e: string)
    requires forall i :: 0 <= i < |prefix| ==> prefix[i] != '&'
    requires forall i :: 0 <= i < |e| ==> e[i] != '&'
    ensures forall i :: 0 <= i < |prefix + e| ==> (prefix + e)[i] != '&'
  {
  }

  lemma MissingFirstCharExcludes(s: string, t: string)
    requires |t| > 0
    requires forall i :: 0 <= i < |s| ==> s[i] != t[0]
    ensures !Includes(s, t)
  {
    IncludesIff(s, t);
    forall i | 0 <= i ensures !OccursAt(s, t, i) {
      if i + |t| <= |s| {
        assert s[i..i + |t|][0] == s[i];
      }
    }
  }

  // ---------------------------------------------------------------------------
  // Choosing a retailer
  // ---------------------------------------------------------------------------

  const PersonalisationTags: seq<string> := ["personalised", "personalized", "custom", "handmade", "unique"]

  predicate HasExperienceTag(tags: seq<string>) {
    exists i :: 0 <= i < |tags| && ToLower(tags[i]) == "experience"
  }

  predicate HasPersonalisationTag(tags: seq<string>) {
    exists i :: 0 <= i < |tags| && ToLower(tags[i]) in PersonalisationTags
  }

  /** `tags.map(t => t.toLowerCase())`. */
  function LowerAll(tags: seq<string>): seq<string> {
    seq(|tags|, i requires 0 <= i < |tags| => ToLower(tags[i]))
  }

  /** The two membership tests on the lowered list are the two tag predicates. */
  lemma LoweredTests(tags: seq<string>)
    ensures "experience" in LowerAll(tags) <==> HasExperienceTag(tags)
    ensures (exists t :: t in LowerAll(tags) && t in PersonalisationTags) <==> HasPersonalisationTag(tags)
  {
    var lowerTags := LowerAll(tags);
    if HasExperienceTag(tags) {
      var i :| 0 <= i < |tags| && ToLower(tags[i]) == "experience";
      assert lowerTags[i] == "experience";
    }
    if HasPersonalisationTag(tags) {
      var i :| 0 <= i < |tags| && ToLower(tags[i]) in PersonalisationTags;
      assert lowerTags[i] in PersonalisationTags;
    }
  }

  /** `getBestRetailerForGift(tags)`: the three routing rules in priority
      order (experiences, then personalised or handmade goods, else Amazon);
      no list of tags escapes them, and Etsy is never chosen. */
  function GetBestRetailerForGift(tags: seq<string>): (r: RetailerKey)
    ensures r == VirginExp <==> HasExperienceTag(tags)
    ensures r == Noths <==> !HasExperienceTag(tags) && HasPersonalisationTag(tags)
    ensures r == Amazon <==> !HasExperienceTag(tags) && !HasPersonalisationTag(tags)
    ensures r != Etsy
  {
    LoweredTests(tags);
    var lowerTags := LowerAll(tags);
    if "experience" in lowerTags then VirginExp
    else if exists t :: t in lowerTags && t in PersonalisationTags then Noths
    else Amazon
  }

  /** The empty tag list goes to Amazon. */
  lemma NoTagsGoToAmazon()
    ensures GetBestRetailerForGift([]) == Amazon
  {
  }

  /** Reordering the tags never changes the retailer. */
  lemma BestRetailerIgnoresOrder(tags: seq<string>, other: seq<string>)
    requires multiset(tags) == multiset(other)
    ensures GetBestRetailerForGift(tags) == GetBestRetailerForGift(other)
  {
    SameTestsOnPermutation(tags, other);
    SameTestsOnPermutation(other, tags);
  }

  lemma SameTestsOnPermutation(tags: seq<string>, other: seq<string>)
    requires multiset(tags) == multiset(other)
    ensures HasExperienceTag(tags) ==> HasExperienceTag(other)
    ensures HasPersonalisationTag(tags) ==> HasPersonalisationTag(other)
  {
    if HasExperienceTag(tags) {
      var i :| 0 <= i < |tags| && ToLower(tags[i]) == "experience";
      assert tags[i] in multiset(other);
      var j :| 0 <= j < |other| && other[j] == tags[i];
    }
    if HasPersonalisationTag(tags) {
      var i :| 0 <= i < |tags| && ToLower(tags[i]) in PersonalisationTags;
      assert tags[i] in multiset(other);
      var j :| 0 <= j < |other| && other[j] == tags[i];
    }
  }

  /** Upper-casing any one tag never changes the retailer. */
  lemma BestRetailerIgnoresCase(tags: seq<string>, i: nat)
    requires i < |tags|
    ensures GetBestRetailerForGift(tags[i := ToUpper(tags[i])]) == GetBestRetailerForGift(tags)
  {
    var other := tags[i := ToUpper(tags[i])];
    LowerOfUpper(tags[i]);
    assert forall j :: 0 <= j < |tags| ==> ToLower(other[j]) == ToLower(tags[j]);
  }
}
