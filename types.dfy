/**
 * The catalog's record shapes and its closed enumerations. Each enumeration
 * comes with the string spelling the catalog data uses for it, so that
 * "exactly these values" is a statement about the strings.
 */
module Types {
  import opened Js

  datatype PriceRange = Under25 | From25To50 | From50To100 | Over100
  datatype RecipientType = Girlfriend | Boyfriend | Wife | Husband | Partner
  datatype Vibe = Romantic | Practical | Experiential | Funny
  datatype RelationshipStage = New | Established | Longterm

  const PriceRanges: seq<PriceRange> := [Under25, From25To50, From50To100, Over100]
  const RecipientTypes: seq<RecipientType> := [Girlfriend, Boyfriend, Wife, Husband, Partner]
  const Vibes: seq<Vibe> := [Romantic, Practical, Experiential, Funny]
  const RelationshipStages: seq<RelationshipStage> := [New, Established, Longterm]

  function PriceRangeName(p: PriceRange): string {
    match p
    case Under25 => "under25"
    case From25To50 => "25to50"
    case From50To100 => "50to100"
    case Over100 => "over100"
  }

  function RecipientTypeName(r: RecipientType): string {
    match r
    case Girlfriend => "girlfriend"
    case Boyfriend => "boyfriend"
    case Wife => "wife"
    case Husband => "husband"
    case Partner => "partner"
  }

  function VibeName(v: Vibe): string {
    match v
    case Romantic => "romantic"
    case Practical => "practical"
    case Experiential => "experiential"
    case Funny => "funny"
  }

  function RelationshipStageName(r: RelationshipStage): string {
    match r
    case New => "new"
    case Established => "established"
    case Longterm => "longterm"
  }

  /** The price ranges are exactly four, listed once each, with distinct spellings. */
  lemma PriceRangesExactlyFour()
    ensures |PriceRanges| == 4
    ensures forall p :: p in PriceRanges
    ensures forall i, j :: 0 <= i < j < |PriceRanges| ==> PriceRangeName(PriceRanges[i]) != PriceRangeName(PriceRanges[j])
  {
    forall p ensures p in PriceRanges {
      match p
      case Under25 => assert PriceRanges[0] == Under25;
      case From25To50 => assert PriceRanges[1] == From25To50;
      case From50To100 => assert PriceRanges[2] == From50To100;
      case Over100 => assert PriceRanges[3] == Over100;
    }
  }

  /** The recipient types are exactly five, with distinct spellings. */
  lemma RecipientTypesExactlyFive()
    ensures |RecipientTypes| == 5
    ensures forall t :: t in RecipientTypes
    ensures forall i, j :: 0 <= i < j < |RecipientTypes| ==> RecipientTypeName(RecipientTypes[i]) != RecipientTypeName(RecipientTypes[j])
  {
    forall t ensures t in RecipientTypes {
      match t
      case Girlfriend => assert RecipientTypes[0] == Girlfriend;
      case Boyfriend => assert RecipientTypes[1] == Boyfriend;
      case Wife => assert RecipientTypes[2] == Wife;
      case Husband => assert RecipientTypes[3] == Husband;
      case Partner => assert RecipientTypes[4] == Partner;
    }
  }

  /** The vibes are romantic, practical, experiential and funny; "luxury" is not one. */
  lemma VibesExactlyFour()
    ensures |Vibes| == 4
    ensures forall v :: v in Vibes
    ensures forall i, j :: 0 <= i < j < |Vibes| ==> VibeName(Vibes[i]) != VibeName(Vibes[j])
    ensures forall v :: VibeName(v) != "luxury"
  {
    forall v ensures v in Vibes {
      match v
      case Romantic => assert Vibes[0] == Romantic;
      case Practical => assert Vibes[1] == Practical;
      case Experiential => assert Vibes[2] == Experiential;
      case Funny => assert Vibes[3] == Funny;
    }
  }

  /** The relationship stages are new, established and longterm. */
  lemma RelationshipStagesExactlyThree()
    ensures |RelationshipStages| == 3
    ensures forall t :: t in RelationshipStages
    ensures forall i, j :: 0 <= i < j < |RelationshipStages| ==> RelationshipStageName(RelationshipStages[i]) != RelationshipStageName(RelationshipStages[j])
  {
    forall t ensures t in RelationshipStages {
      match t
      case New => assert RelationshipStages[0] == New;
      case Established => assert RelationshipStages[1] == Established;
      case Longterm => assert RelationshipStages[2] == Longterm;
    }
  }

  /** A catalog entry. Recipient types, vibes and stages are lists; the search term is optional. */
  datatype Gift = Gift(
    id: string,
    name: string,
    description: string,
    priceRange: PriceRange,
    recipientType: seq<RecipientType>,
    interests: seq<string>,
    vibe: seq<Vibe>,
    relationshipStage: seq<RelationshipStage>,
    imageUrl: string,
    affiliateLinks: map<string, string>,
    notes: string,
    searchTerm: Option<string>)

  /** `Record<PriceRange, string>`: one label per price range, so none can be missing. */
  datatype BudgetTiers = BudgetTiers(under25: string, from25To50: string, from50To100: string, over100: string) {
    /** `budgetTiers[p]`. */
    function Label(p: PriceRange): string {
      match p
      case Under25 => under25
      case From25To50 => from25To50
      case From50To100 => from50To100
      case Over100 => over100
    }
  }

  datatype Metadata = Metadata(lastUpdated: string, totalGifts: int, targetGifts: int)

  datatype GiftDatabase = GiftDatabase(
    metadata: Metadata,
    gifts: seq<Gift>,
    interestOptions: seq<string>,
    budgetTiers: BudgetTiers)

  /** A filter field that accepts a single value or a list of values. */
  datatype OneOrMany<T> = One(item: T) | Many(items: seq<T>)

  /** `Array.isArray(v) ? v : [v]`. */
  function AsList<T>(v: OneOrMany<T>): (r: seq<T>)
    ensures v.One? ==> r == [v.item]
    ensures v.Many? ==> r == v.items
  {
    match v
    case One(x) => [x]
    case Many(xs) => xs
  }

  /** Every field optional; interests only as a list. */
  datatype CategoryFilter = CategoryFilter(
    priceRange: Option<OneOrMany<PriceRange>>,
    recipientType: Option<OneOrMany<RecipientType>>,
    vibe: Option<OneOrMany<Vibe>>,
    interests: Option<seq<string>>)

  const NoFilter: CategoryFilter := CategoryFilter(None, None, None, None)

  datatype Category = Category(
    slug: string,
    name: string,
    description: string,
    emoji: string,
    filter: CategoryFilter,
    color: string)
}
