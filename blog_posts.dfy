/**
 * The blog: a module-level list of posts, sorted newest first in place
 * whenever the full list is asked for, and the slug, category, tag and
 * related-post queries built on it.
 *
 * A post's `publishedAt` is held as the millisecond time value
 * `new Date(publishedAt).getTime()` gives for it.
 */
module BlogPosts {
  import opened Js

  datatype BlogCategory = GiftGuide | Tips | Ideas | Seasonal

  datatype BlogPost = BlogPost(
    slug: string,
    title: string,
    description: string,
    publishedAt: int,
    updatedAt: Option<string>,
    author: string,
    category: BlogCategory,
    tags: seq<string>,
    readingTime: int,
    featuredImage: Option<string>,
    content: string)

  // ---------------------------------------------------------------------------
  // Newest first: the stable sort by descending publication time
  // ---------------------------------------------------------------------------

  predicate NewestFirst(posts: seq<BlogPost>) {
    forall i, j :: 0 <= i < j < |posts| ==> posts[i].publishedAt >= posts[j].publishedAt
  }

  /** Places `x` after every post at least as new, and before the rest. */
  function Insert(sorted: seq<BlogPost>, x: BlogPost): (r: seq<BlogPost>)
    ensures multiset(r) == multiset(sorted) + multiset{x}
    decreases |sorted|
  {
    if |sorted| == 0 then [x]
    else if sorted[0].publishedAt >= x.publishedAt then
      assert sorted == [sorted[0]] + sorted[1..];
      [sorted[0]] + Insert(sorted[1..], x)
    else [x] + sorted
  }

  /** Inserting into a newest-first list keeps it newest first. */
  lemma {:induction false} InsertSorted(sorted: seq<BlogPost>, x: BlogPost)
    requires NewestFirst(sorted)
    ensures NewestFirst(Insert(sorted, x))
    decreases |sorted|
  {
    if |sorted| > 0 {
      var r := Insert(sorted, x);
      if sorted[0].publishedAt >= x.publishedAt {
        var rest := Insert(sorted[1..], x);
        InsertSorted(sorted[1..], x);
        assert r == [sorted[0]] + rest;
        forall k | 0 <= k < |rest| ensures sorted[0].publishedAt >= rest[k].publishedAt {
          assert rest[k] in multiset(rest);
          assert rest[k] in multiset(sorted[1..]) + multiset{x};
          if rest[k] != x {
            assert rest[k] in sorted[1..];
          }
        }
      }
    }
  }

  /** `blogPosts.sort((a, b) => time(b) - time(a))`, as an insertion sort
      taking the posts in list order. */
  function SortNewestFirst(posts: seq<BlogPost>): (r: seq<BlogPost>)
    ensures multiset(r) == multiset(posts)
    decreases |posts|
  {
    if |posts| == 0 then []
    else
      assert posts == posts[..|posts| - 1] + [posts[|posts| - 1]];
      Insert(SortNewestFirst(posts[..|posts| - 1]), posts[|posts| - 1])
  }

  lemma SplitLast(posts: seq<BlogPost>)
    requires |posts| > 0
    ensures posts == posts[..|posts| - 1] + [posts[|posts| - 1]]
  {
  }

  /** One step of the sort: the last post is inserted into the sorted rest. */
  lemma SortStep(posts: seq<BlogPost>)
    requires |posts| > 0
    ensures SortNewestFirst(posts) == Insert(SortNewestFirst(posts[..|posts| - 1]), posts[|posts| - 1])
  {
  }

  /** The sorted list is newest first. */
  lemma {:induction false} SortSorted(posts: seq<BlogPost>)
    ensures NewestFirst(SortNewestFirst(posts))
    decreases |posts|
  {
    if |posts| > 0 {
      var init, last := posts[..|posts| - 1], posts[|posts| - 1];
      SortSorted(init);
      InsertSorted(SortNewestFirst(init), last);
    }
  }

  /** The posts published at time `t`. */
  function PublishedAt(t: int): BlogPost -> bool {
    (p: BlogPost) => p.publishedAt == t
  }

  lemma {:induction false} InsertStable(sorted: seq<BlogPost>, x: BlogPost, t: int)
    requires NewestFirst(sorted)
    ensures Filter(Insert(sorted, x), PublishedAt(t))
         == Filter(sorted, PublishedAt(t)) + (if x.publishedAt == t then [x] else [])
    decreases |sorted|
  {
    if |sorted| == 0 {
    } else if sorted[0].publishedAt >= x.publishedAt {
      InsertStable(sorted[1..], x, t);
      InsertBehindHead(sorted, x, t);
    } else {
      InsertInFront(sorted, x, t);
    }
  }

  /** A post no newer than the head goes into the rest of the list, so the
      head passes through both filters alike. */
  lemma InsertBehindHead(sorted: seq<BlogPost>, x: BlogPost, t: int)
    requires |sorted| > 0 && sorted[0].publishedAt >= x.publishedAt
    requires Filter(Insert(sorted[1..], x), PublishedAt(t))
          == Filter(sorted[1..], PublishedAt(t)) + (if x.publishedAt == t then [x] else [])
    ensures Filter(Insert(sorted, x), PublishedAt(t))
         == Filter(sorted, PublishedAt(t)) + (if x.publishedAt == t then [x] else [])
  {
    var inserted := Insert(sorted, x);
    assert inserted == [sorted[0]] + Insert(sorted[1..], x);
    assert inserted[1..] == Insert(sorted[1..], x);
    FilterSameHead(inserted, sorted, if x.publishedAt == t then [x] else [], PublishedAt(t));
  }

  /** A post newer than the whole list goes in front of it, after every post
      at its own time. */
  lemma InsertInFront(sorted: seq<BlogPost>, x: BlogPost, t: int)
    requires NewestFirst(sorted) && |sorted| > 0 && sorted[0].publishedAt < x.publishedAt
    ensures Filter(Insert(sorted, x), PublishedAt(t))
         == Filter(sorted, PublishedAt(t)) + (if x.publishedAt == t then [x] else [])
  {
    var inserted := Insert(sorted, x);
    assert inserted == [x] + sorted;
    assert inserted[1..] == sorted;
    if x.publishedAt == t {
      NoneAtTime(sorted, t);
    }
  }

  /** In a newest-first list whose head is older than `t`, nothing has time `t`. */
  lemma NoneAtTime(sorted: seq<BlogPost>, t: int)
    requires NewestFirst(sorted) && |sorted| > 0 && sorted[0].publishedAt < t
    ensures Filter(sorted, PublishedAt(t)) == []
  {
    var r := Filter(sorted, PublishedAt(t));
    if r != [] {
      assert false;
    }
  }

  /** The sort is stable: posts published at the same time keep their
      relative order. */
  lemma {:induction false} SortStable(posts: seq<BlogPost>, t: int)
    ensures Filter(SortNewestFirst(posts), PublishedAt(t)) == Filter(posts, PublishedAt(t))
    decreases |posts|
  {
    if |posts| > 0 {
      var init, last := posts[..|posts| - 1], posts[|posts| - 1];
      var p := PublishedAt(t);
      var tail: seq<BlogPost> := if last.publishedAt == t then [last] else [];
      SortStable(init, t);
      SortSorted(init);
      InsertStable(SortNewestFirst(init), last, t);
      SortStep(posts);
      assert Filter(SortNewestFirst(posts), p) == Filter(init, p) + tail;
      assert Filter([last], p) == tail;
      FilterConcat(init, [last], p);
      SplitLast(posts);
    }
  }

  /** A list already newest first is left exactly as it is, so sorting twice
      is sorting once. */
  lemma {:induction false} SortKeepsSorted(posts: seq<BlogPost>)
    requires NewestFirst(posts)
    ensures SortNewestFirst(posts) == posts
    decreases |posts|
  {
    if |posts| > 0 {
      var init, last := posts[..|posts| - 1], posts[|posts| - 1];
      SortedInit(posts);
      SortKeepsSorted(init);
      InsertAtEnd(init, last);
      SortStep(posts);
      SplitLast(posts);
    }
  }

  /** Dropping the oldest post of a newest-first list leaves it newest first,
      and every remaining post is at least as new as the one dropped. */
  lemma SortedInit(posts: seq<BlogPost>)
    requires NewestFirst(posts) && |posts| > 0
    ensures NewestFirst(posts[..|posts| - 1])
    ensures forall i :: 0 <= i < |posts| - 1 ==> posts[i].publishedAt >= posts[|posts| - 1].publishedAt
  {
  }

  lemma {:induction false} InsertAtEnd(sorted: seq<BlogPost>, x: BlogPost)
    requires forall i :: 0 <= i < |sorted| ==> sorted[i].publishedAt >= x.publishedAt
    ensures Insert(sorted, x) == sorted + [x]
    decreases |sorted|
  {
    if |sorted| > 0 {
      InsertAtEnd(sorted[1..], x);
    }
  }

  // ---------------------------------------------------------------------------
  // Queries over a list of posts
  // ---------------------------------------------------------------------------

  /** `posts.filter(post => post.category === category)`. */
  function InCategory(posts: seq<BlogPost>, c: BlogCategory): (r: seq<BlogPost>)
    ensures forall i :: 0 <= i < |r| ==> r[i] in posts && r[i].category == c
    ensures forall i :: 0 <= i < |posts| && posts[i].category == c ==> posts[i] in r
    ensures SubsequenceOf(r, posts)
    ensures forall p :: multiset(r)[p] == if p.category == c then multiset(posts)[p] else 0
  {
    FilterCounts(posts, (p: BlogPost) => p.category == c);
    Filter(posts, (p: BlogPost) => p.category == c)
  }

  /** The post carries the tag, compared without regard to case. */
  predicate HasTag(p: BlogPost, tag: string) {
    exists i :: 0 <= i < |p.tags| && ToLower(p.tags[i]) == ToLower(tag)
  }

  /** `posts.filter(post => post.tags.map(lower).includes(lower(tag)))`. */
  function WithTag(posts: seq<BlogPost>, tag: string): (r: seq<BlogPost>)
    ensures forall i :: 0 <= i < |r| ==> r[i] in posts && HasTag(r[i], tag)
    ensures forall i :: 0 <= i < |posts| && HasTag(posts[i], tag) ==> posts[i] in r
    ensures SubsequenceOf(r, posts)
    ensures forall p :: multiset(r)[p] == if HasTag(p, tag) then multiset(posts)[p] else 0
  {
    var lowerTag := ToLower(tag);
    assert forall p :: HasTag(p, tag) <==> lowerTag in LowerTags(p) by {
      forall p ensures HasTag(p, tag) <==> lowerTag in LowerTags(p) {
        if lowerTag in LowerTags(p) {
          var i :| 0 <= i < |p.tags| && LowerTags(p)[i] == lowerTag;
        }
        if HasTag(p, tag) {
          var i :| 0 <= i < |p.tags| && ToLower(p.tags[i]) == ToLower(tag);
          assert LowerTags(p)[i] == lowerTag;
        }
      }
    }
    FilterCounts(posts, (p: BlogPost) => lowerTag in LowerTags(p));
    Filter(posts, (p: BlogPost) => lowerTag in LowerTags(p))
  }

  /** `post.tags.map(t => t.toLowerCase())`. */
  function LowerTags(p: BlogPost): seq<string> {
    seq(|p.tags|, i requires 0 <= i < |p.tags| => ToLower(p.tags[i]))
  }

  /** The tag query does not care how the tag is capitalised. */
  lemma WithTagIgnoresCase(posts: seq<BlogPost>, tag: string)
    ensures WithTag(posts, ToUpper(tag)) == WithTag(posts, tag)
  {
    LowerOfUpper(tag);
  }

  /** Same category, or a tag in common (compared exactly). */
  predicate Related(p: BlogPost, current: BlogPost) {
    p.category == current.category || exists i :: 0 <= i < |p.tags| && p.tags[i] in current.tags
  }

  /** The related-post candidates: other slugs, related to the current post, in list order. */
  function RelatedCandidates(posts: seq<BlogPost>, currentSlug: string, current: BlogPost): (r: seq<BlogPost>)
    ensures forall i :: 0 <= i < |r| ==> r[i] in posts && r[i].slug != currentSlug && Related(r[i], current)
    ensures forall i :: 0 <= i < |posts| && posts[i].slug != currentSlug && Related(posts[i], current) ==> posts[i] in r
    ensures SubsequenceOf(r, posts)
    ensures forall p :: multiset(r)[p] == if p.slug != currentSlug && Related(p, current) then multiset(posts)[p] else 0
  {
    var other := (p: BlogPost) => p.slug != currentSlug;
    var related := (p: BlogPost) => Related(p, current);
    var candidate := (p: BlogPost) => p.slug != currentSlug && Related(p, current);
    FilterFilter(posts, other, related, candidate);
    FilterCounts(posts, candidate);
    Filter(Filter(posts, other), related)
  }

  /** `getRelatedPosts` over a list: nothing for an unknown slug, else the
      first `limit` candidates (`slice(0, limit)`). */
  function RelatedPosts(posts: seq<BlogPost>, currentSlug: string, current: Option<BlogPost>, limit: int): (r: seq<BlogPost>)
    ensures current.None? ==> r == []
    ensures current.Some? ==> r == SlicePrefix(RelatedCandidates(posts, currentSlug, current.value), limit)
  {
    if current.None? then []
    else SlicePrefix(RelatedCandidates(posts, currentSlug, current.value), limit)
  }

  /** Related posts never include the post asked about, are all related to it,
      and number `limit` at most (all candidates when fewer). */
  lemma RelatedPostsShape(posts: seq<BlogPost>, currentSlug: string, current: BlogPost, limit: int)
    ensures var r := RelatedPosts(posts, currentSlug, Some(current), limit);
      && (forall i :: 0 <= i < |r| ==> r[i].slug != currentSlug && Related(r[i], current) && r[i] in posts)
      && (limit >= 0 ==> |r| == if limit < |RelatedCandidates(posts, currentSlug, current)| then limit
                                else |RelatedCandidates(posts, currentSlug, current)|)
      && (limit >= 0 ==> r == RelatedCandidates(posts, currentSlug, current)[..|r|])
  {
    var c := RelatedCandidates(posts, currentSlug, current);
    var r := RelatedPosts(posts, currentSlug, Some(current), limit);
    forall i | 0 <= i < |r| ensures r[i].slug != currentSlug && Related(r[i], current) && r[i] in posts {
      assert r[i] == c[i];
    }
  }

  // ---------------------------------------------------------------------------
  // The module's list
  // ---------------------------------------------------------------------------

  /** `blogPosts`, the module-level array that `getAllBlogPosts` sorts in place. */
  class BlogStore {
    var posts: seq<BlogPost>

    constructor(initial: seq<BlogPost>)
      ensures posts == initial
    {
      posts := initial;
    }

    /** `getAllBlogPosts()`: sorts the list itself, newest first, and returns it. */
    method GetAllBlogPosts() returns (r: seq<BlogPost>)
      modifies this
      ensures posts == SortNewestFirst(old(posts))
      ensures r == posts
      ensures NewestFirst(r) && multiset(r) == multiset(old(posts))
    {
      SortSorted(posts);
      posts := SortNewestFirst(posts);
      r := posts;
    }

    /** `getBlogPostBySlug(slug)`: the first post with that slug, in the list's current order. */
    function GetBlogPostBySlug(slug: string): (r: Option<BlogPost>)
      reads this
      ensures r.None? <==> forall i :: 0 <= i < |posts| ==> posts[i].slug != slug
      ensures r.Some? ==> r.value.slug == slug
      ensures r.Some? ==>
        (exists k :: 0 <= k < |posts| && posts[k] == r.value && forall j :: 0 <= j < k ==> posts[j].slug != slug)
    {
      Find(posts, (p: BlogPost) => p.slug == slug)
    }

    /** `getBlogPostsByCategory(category)`: sorts, then filters. */
    method GetBlogPostsByCategory(c: BlogCategory) returns (r: seq<BlogPost>)
      modifies this
      ensures posts == SortNewestFirst(old(posts))
      ensures r == InCategory(posts, c)
    {
      var all := GetAllBlogPosts();
      r := InCategory(all, c);
    }

    /** `getBlogPostsByTag(tag)`: sorts, then filters ignoring case. */
    method GetBlogPostsByTag(tag: string) returns (r: seq<BlogPost>)
      modifies this
      ensures posts == SortNewestFirst(old(posts))
      ensures r == WithTag(posts, tag)
    {
      var all := GetAllBlogPosts();
      r := WithTag(all, tag);
    }

    /** `getRelatedPosts(currentSlug, limit)`: an unknown slug returns before
        anything is sorted; otherwise the list is sorted and the first `limit`
        related posts are returned. */
    method GetRelatedPosts(currentSlug: string, limit: int) returns (r: seq<BlogPost>)
      modifies this
      ensures old(GetBlogPostBySlug(currentSlug)).None? ==> posts == old(posts) && r == []
      ensures old(GetBlogPostBySlug(currentSlug)).Some? ==>
        && posts == SortNewestFirst(old(posts))
        && r == RelatedPosts(posts, currentSlug, old(GetBlogPostBySlug(currentSlug)), limit)
    {
      var currentPost := GetBlogPostBySlug(currentSlug);
      if currentPost.None? {
        return [];
      }
      var all := GetAllBlogPosts();
      r := RelatedPosts(all, currentSlug, currentPost, limit);
    }
  }
}
