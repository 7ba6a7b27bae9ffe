/**
 * The fixed table of browsing categories, each a slug, display text and the
 * catalog filter behind its page, with the lookup by slug.
 */
module Categories {
  import opened Js
  import opened Types

  function OnlyPrice(p: PriceRange): CategoryFilter {
    CategoryFilter(Some(One(p)), None, None, None)
  }

  function OnlyRecipients(ts: seq<RecipientType>): CategoryFilter {
    CategoryFilter(None, Some(Many(ts)), None, None)
  }

  function OnlyVibe(v: Vibe): CategoryFilter {
    CategoryFilter(None, None, Some(One(v)), None)
  }

  /** The category table, in declared order. The emoji field is no longer used and is empty. */
  const AllCategories: seq<Category> := [
    Category("under-25", "Under £25", "Thoughtful gifts that won't break the bank", "",
      OnlyPrice(Under25),
      "bg-white hover:bg-[var(--cream-dark)] border-[var(--gold)]/30 hover:border-[var(--gold)]"),
    Category("for-him", "For Him", "Gifts perfect for boyfriends and husbands", "",
      OnlyRecipients([Boyfriend, Husband]),
      "bg-white hover:bg-[var(--cream-dark)] border-[var(--burgundy)]/30 hover:border-[var(--burgundy)]"),
    Category("for-her", "For Her", "Gifts perfect for girlfriends and wives", "",
      OnlyRecipients([Girlfriend, Wife]),
      "bg-white hover:bg-[var(--cream-dark)] border-[var(--burgundy)]/30 hover:border-[var(--burgundy)]"),
    Category("experiences", "Experiences", "Create memories together with experiential gifts", "",
      OnlyVibe(Experiential),
      "bg-white hover:bg-[var(--cream-dark)] border-[var(--burgundy-light)]/30 hover:border-[var(--burgundy-light)]"),
    Category("romantic", "Romantic", "Classic romantic gifts to sweep them off their feet", "",
      OnlyVibe(Romantic),
      "bg-white hover:bg-[var(--cream-dark)] border-[var(--burgundy)]/30 hover:border-[var(--burgundy)]"),
    Category("practical", "Practical", "Useful gifts they'll actually use every day", "",
      OnlyVibe(Practical),
      "bg-white hover:bg-[var(--cream-dark)] border-[var(--gold)]/30 hover:border-[var(--gold)]"),
    Category("luxury", "Luxury", "Special occasion splurges for someone special", "",
      OnlyPrice(Over100),
      "bg-white hover:bg-[var(--cream-dark)] border-[var(--gold-muted)]/30 hover:border-[var(--gold-muted)]"),
    Category("fun-playful", "Fun & Playful", "Lighthearted gifts that bring joy and laughter", "",
      OnlyVibe(Funny),
      "bg-white hover:bg-[var(--cream-dark)] border-[var(--burgundy-light)]/30 hover:border-[var(--burgundy-light)]")
  ]

  /** How many of the four filter fields are set. */
  function FieldCount(f: CategoryFilter): nat {
    (if f.priceRange.Some? then 1 else 0) + (if f.recipientType.Some? then 1 else 0)
    + (if f.vibe.Some? then 1 else 0) + (if f.interests.Some? then 1 else 0)
  }

  /** Eight categories, distinct slugs, one filter field each; "for-him" and
      "for-her" split the recipient types by gender. */
  lemma CategoryTableShape()
    ensures |AllCategories| == 8
    ensures forall i, j :: 0 <= i < j < |AllCategories| ==> AllCategories[i].slug != AllCategories[j].slug
    ensures forall i :: 0 <= i < |AllCategories| ==> FieldCount(AllCategories[i].filter) == 1
    ensures AllCategories[1].slug == "for-him" && AllCategories[1].filter.recipientType == Some(Many([Boyfriend, Husband]))
    ensures AllCategories[2].slug == "for-her" && AllCategories[2].filter.recipientType == Some(Many([Girlfriend, Wife]))
  {
  }

  /** `getCategoryBySlug(slug)`: the category with that slug, or nothing. */
  function GetCategoryBySlug(slug: string): (r: Option<Category>)
    ensures r.Some? ==> r.value in AllCategories && r.value.slug == slug
    ensures r.None? <==> forall i :: 0 <= i < |AllCategories| ==> AllCategories[i].slug != slug
  {
    Find(AllCategories, (c: Category) => c.slug == slug)
  }

  /** Each table entry is what its own slug finds. */
  lemma SlugLookupFindsEachCategory(i: nat)
    requires i < |AllCategories|
    ensures GetCategoryBySlug(AllCategories[i].slug) == Some(AllCategories[i])
  {
    CategoryTableShape();
  }

  /** `getAllCategories()`: the table itself, in declared order. */
  function GetAllCategories(): (r: seq<Category>)
    ensures r == AllCategories
  {
    AllCategories
  }
}
