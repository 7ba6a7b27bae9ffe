/**
 * The catalog queries of the gift database: the whole list, lookup by id,
 * price labels, category filtering and the random sample behind the
 * shuffle feature. The database itself is static data and is a parameter.
 */
module Gifts {
  import opened Js
  import opened Types

  /** The catalog, as stored. */
  function GetAllGifts(db: GiftDatabase): (r: seq<Gift>)
    ensures r == db.gifts
  {
    db.gifts
  }

  /** The first gift whose id is `id`, or nothing when no gift has it. */
  function GetGiftById(db: GiftDatabase, id: string): (r: Option<Gift>)
    ensures r.None? <==> forall i :: 0 <= i < |db.gifts| ==> db.gifts[i].id != id
    ensures r.Some? ==> r.value.id == id
    ensures r.Some? ==>
      (exists k :: 0 <= k < |db.gifts| && db.gifts[k] == r.value && forall j :: 0 <= j < k ==> db.gifts[j].id != id)
  {
    Find(db.gifts, (g: Gift) => g.id == id)
  }

  /** The label the database gives a price range; every range has one. */
  function GetPriceLabel(db: GiftDatabase, p: PriceRange): (r: string)
    ensures p == Under25 ==> r == db.budgetTiers.under25
    ensures p == From25To50 ==> r == db.budgetTiers.from25To50
    ensures p == From50To100 ==> r == db.budgetTiers.from50To100
    ensures p == Over100 ==> r == db.budgetTiers.over100
  {
    db.budgetTiers.Label(p)
  }

  // ---------------------------------------------------------------------------
  // Category filtering
  // ---------------------------------------------------------------------------

  /** `xs.some(x => ys.includes(x))`, scanning `xs` left to right. */
  function SomeIncluded<T(==)>(xs: seq<T>, ys: seq<T>): bool
    decreases |xs|
  {
    if |xs| == 0 then false
    else if xs[0] in ys then true
    else SomeIncluded(xs[1..], ys)
  }

  /** The two lists have a value in common. */
  predicate Intersect<T(==)>(xs: seq<T>, ys: seq<T>) {
    exists i :: 0 <= i < |xs| && xs[i] in ys
  }

  lemma {:induction false} SomeIncludedIff<T>(xs: seq<T>, ys: seq<T>)
    ensures SomeIncluded(xs, ys) <==> Intersect(xs, ys)
    decreases |xs|
  {
    if |xs| > 0 {
      SomeIncludedIff(xs[1..], ys);
      if Intersect(xs[1..], ys) {
        var i :| 0 <= i < |xs[1..]| && xs[1..][i] in ys;
        assert xs[i + 1] in ys;
      }
      if xs[0] !in ys && Intersect(xs, ys) {
        var i :| 0 <= i < |xs| && xs[i] in ys;
        assert xs[1..][i - 1] in ys;
      }
    }
  }

  /** The per-gift test of `filterGiftsByCategory`, field by field, returning
      false at the first field that rejects the gift. */
  function KeepGift(f: CategoryFilter, g: Gift): (r: bool)
    ensures r <==> MatchesFilter(f, g)
  {
    SomeIncludedIff(g.recipientType, if f.recipientType.Some? then AsList(f.recipientType.value) else []);
    SomeIncludedIff(g.vibe, if f.vibe.Some? then AsList(f.vibe.value) else []);
    SomeIncludedIff(g.interests, if f.interests.Some? then f.interests.value else []);
    if f.priceRange.Some? && g.priceRange !in AsList(f.priceRange.value) then false
    else if f.recipientType.Some? && !SomeIncluded(g.recipientType, AsList(f.recipientType.value)) then false
    else if f.vibe.Some? && !SomeIncluded(g.vibe, AsList(f.vibe.value)) then false
    else if f.interests.Some? && |f.interests.value| > 0 && !SomeIncluded(g.interests, f.interests.value) then false
    else true
  }

  // The matching rule, one predicate per field: a present field accepts the
  // gift when one of the gift's values is among the listed ones.

  predicate PriceOk(f: CategoryFilter, g: Gift) {
    f.priceRange.Some? ==> g.priceRange in AsList(f.priceRange.value)
  }

  predicate RecipientOk(f: CategoryFilter, g: Gift) {
    f.recipientType.Some? ==> Intersect(g.recipientType, AsList(f.recipientType.value))
  }

  predicate VibeOk(f: CategoryFilter, g: Gift) {
    f.vibe.Some? ==> Intersect(g.vibe, AsList(f.vibe.value))
  }

  /** An absent or empty interests list imposes nothing. */
  predicate InterestsOk(f: CategoryFilter, g: Gift) {
    f.interests.Some? && |f.interests.value| > 0 ==> Intersect(g.interests, f.interests.value)
  }

  predicate MatchesFilter(f: CategoryFilter, g: Gift) {
    PriceOk(f, g) && RecipientOk(f, g) && VibeOk(f, g) && InterestsOk(f, g)
  }

  /** `filterGiftsByCategory(filter)`: the catalog gifts that pass every present
      field, in catalog order. */
  function FilterGiftsByCategory(db: GiftDatabase, f: CategoryFilter): (r: seq<Gift>)
    ensures forall i :: 0 <= i < |r| ==> r[i] in db.gifts && MatchesFilter(f, r[i])
    ensures forall i :: 0 <= i < |db.gifts| && MatchesFilter(f, db.gifts[i]) ==> db.gifts[i] in r
    ensures SubsequenceOf(r, db.gifts)
    ensures forall g :: multiset(r)[g] == if MatchesFilter(f, g) then multiset(db.gifts)[g] else 0
  {
    FilterCounts(db.gifts, (g: Gift) => KeepGift(f, g));
    Filter(db.gifts, (g: Gift) => KeepGift(f, g))
  }

  /** A filter with no fields, or with only an empty interests list, keeps the whole catalog. */
  lemma EmptyFilterKeepsCatalog(db: GiftDatabase, interests: Option<seq<string>>)
    requires interests.None? || interests == Some([])
    ensures FilterGiftsByCategory(db, CategoryFilter(None, None, None, interests)) == db.gifts
  {
    FilterAll(db.gifts, (g: Gift) => KeepGift(CategoryFilter(None, None, None, interests), g));
  }

  /** A single price range filters exactly as the one-element list holding it. */
  lemma SinglePriceIsOneElementList(db: GiftDatabase, f: CategoryFilter, p: PriceRange)
    ensures FilterGiftsByCategory(db, f.(priceRange := Some(One(p))))
         == FilterGiftsByCategory(db, f.(priceRange := Some(Many([p]))))
  {
    var f1, f2 := f.(priceRange := Some(One(p))), f.(priceRange := Some(Many([p])));
    FilterAgree(db.gifts, (g: Gift) => KeepGift(f1, g), (g: Gift) => KeepGift(f2, g));
  }

  /** A single recipient type filters exactly as the one-element list holding it. */
  lemma SingleRecipientIsOneElementList(db: GiftDatabase, f: CategoryFilter, t: RecipientType)
    ensures FilterGiftsByCategory(db, f.(recipientType := Some(One(t))))
         == FilterGiftsByCategory(db, f.(recipientType := Some(Many([t]))))
  {
    var f1, f2 := f.(recipientType := Some(One(t))), f.(recipientType := Some(Many([t])));
    FilterAgree(db.gifts, (g: Gift) => KeepGift(f1, g), (g: Gift) => KeepGift(f2, g));
  }

  /** A single vibe filters exactly as the one-element list holding it. */
  lemma SingleVibeIsOneElementList(db: GiftDatabase, f: CategoryFilter, v: Vibe)
    ensures FilterGiftsByCategory(db, f.(vibe := Some(One(v))))
         == FilterGiftsByCategory(db, f.(vibe := Some(Many([v]))))
  {
    var f1, f2 := f.(vibe := Some(One(v))), f.(vibe := Some(Many([v])));
    FilterAgree(db.gifts, (g: Gift) => KeepGift(f1, g), (g: Gift) => KeepGift(f2, g));
  }

  /** An empty list is still a present field (an array is truthy): an empty
      price-range, recipient or vibe list rejects every gift, unlike an empty
      interests list. */
  lemma EmptyListRejectsAll(db: GiftDatabase, f: CategoryFilter)
    requires f.priceRange == Some(Many([])) || f.recipientType == Some(Many([])) || f.vibe == Some(Many([]))
    ensures FilterGiftsByCategory(db, f) == []
  {
    var r := FilterGiftsByCategory(db, f);
    if r != [] {
      assert false;
    }
  }

  // ---------------------------------------------------------------------------
  // Random sample
  // ---------------------------------------------------------------------------

  /** The random draws a Fisher-Yates pass over `n` elements can use: the draw
      for index `i` is `Math.floor(Math.random() * (i + 1))`, so at most `i`. */
  predicate ValidDraws(draws: seq<nat>, n: nat) {
    |draws| >= n && forall i :: 0 <= i < |draws| ==> draws[i] <= i
  }

  /** Copies the list into a fresh array and shuffles the copy in place,
      swapping index `i` with `draws[i]` for `i` from the last index down to 1. */
  method ShuffleCopy(gifts: seq<Gift>, draws: seq<nat>) returns (shuffled: seq<Gift>)
    requires ValidDraws(draws, |gifts|)
    ensures |shuffled| == |gifts|
    ensures multiset(shuffled) == multiset(gifts)
  {
    var a := new Gift[|gifts|](k requires 0 <= k < |gifts| => gifts[k]);
    assert a[..] == gifts;
    var i := a.Length - 1;
    while i > 0
      invariant -1 <= i < a.Length
      invariant multiset(a[..]) == multiset(gifts)
    {
      var j := draws[i];
      a[i], a[j] := a[j], a[i];
      i := i - 1;
    }
    shuffled := a[..];
  }

  /** The pool a sample is drawn from: the filtered catalog, or all of it. */
  function SamplePool(db: GiftDatabase, filter: Option<CategoryFilter>): (pool: seq<Gift>)
    ensures SubsequenceOf(pool, db.gifts)
    ensures filter.None? ==> pool == db.gifts
  {
    SubsequenceOfSelf(db.gifts);
    if filter.Some? then FilterGiftsByCategory(db, filter.value) else db.gifts
  }

  lemma {:induction false} SubsequenceNoLonger<T>(sub: seq<T>, xs: seq<T>)
    requires SubsequenceOf(sub, xs)
    ensures |sub| <= |xs|
    decreases |xs|
  {
    if |sub| > 0 {
      if sub[0] == xs[0] { SubsequenceNoLonger(sub[1..], xs[1..]); }
      else { SubsequenceNoLonger(sub, xs[1..]); }
    }
  }

  lemma {:induction false} DistinctCountsAtMostOne<T>(xs: seq<T>, x: T)
    requires Distinct(xs)
    ensures multiset(xs)[x] <= 1
    decreases |xs|
  {
    if |xs| > 0 {
      assert xs == [xs[0]] + xs[1..];
      DistinctCountsAtMostOne(xs[1..], x);
      if xs[0] == x {
        assert x !in xs[1..];
      }
    }
  }

  lemma RepeatCountsTwice<T>(xs: seq<T>, i: nat, j: nat)
    requires i < j < |xs| && xs[i] == xs[j]
    ensures multiset(xs)[xs[i]] >= 2
  {
    assert xs == xs[..j] + [xs[j]] + xs[j + 1..];
    assert xs[i] in xs[..j];
  }

  /** A prefix holds no more copies of anything than the whole list. */
  lemma PrefixSubMultiset<T>(xs: seq<T>, k: nat)
    requires k <= |xs|
    ensures multiset(xs[..k]) <= multiset(xs)
    ensures k == |xs| ==> multiset(xs[..k]) == multiset(xs)
  {
    assert xs == xs[..k] + xs[k..];
  }

  /** A sub-multiset of a list without repeats has no repeats either. */
  lemma SubMultisetDistinct<T>(r: seq<T>, pool: seq<T>)
    requires multiset(r) <= multiset(pool) && Distinct(pool)
    ensures Distinct(r)
  {
    forall i, j | 0 <= i < j < |r| ensures r[i] != r[j] {
      if r[i] == r[j] {
        RepeatCountsTwice(r, i, j);
        DistinctCountsAtMostOne(pool, r[i]);
      }
    }
  }

  /** `getRandomGifts(count, filter)`: shuffle a copy of the pool and keep
      `shuffled.slice(0, count)`. */
  method GetRandomGifts(db: GiftDatabase, count: int, filter: Option<CategoryFilter>, draws: seq<nat>)
    returns (r: seq<Gift>)
    requires ValidDraws(draws, |db.gifts|)
    ensures var pool := SamplePool(db, filter);
      && (count >= 0 ==> |r| == if count < |pool| then count else |pool|)
      && multiset(r) <= multiset(pool)
      && (count >= |pool| ==> multiset(r) == multiset(pool))
      && (Distinct(pool) ==> Distinct(r))
  {
    var pool := SamplePool(db, filter);
    SubsequenceNoLonger(pool, db.gifts);
    var shuffled := ShuffleCopy(pool, draws);
    r := SlicePrefix(shuffled, count);
    PrefixSubMultiset(shuffled, SliceEnd(|shuffled|, count));
    if Distinct(pool) { SubMultisetDistinct(r, pool); }
  }
}
