/**
 * The gift quiz: five questions asked in a fixed order, the answers compiled
 * into one natural-language search query, and a controller whose step,
 * answers and results change as the visitor clicks.
 */
module Quiz {
  import opened Js
  import opened SearchRoute

  datatype Step = Recipient | Relationship | Interests | Budget | Personality | Loading | Results {
    /** The five steps that show a question. */
    predicate IsQuestion() {
      !Loading? && !Results?
    }
  }

  /** `stepOrder`. */
  const StepOrder: seq<Step> := [Recipient, Relationship, Interests, Budget, Personality]

  /** `stepOrder.indexOf(step)`, -1 for the loading and results steps. */
  function StepIndex(s: Step): (k: int)
    ensures -1 <= k < |StepOrder|
    ensures k == -1 <==> !s.IsQuestion()
    ensures k >= 0 ==> StepOrder[k] == s
  {
    match s
    case Recipient => 0
    case Relationship => 1
    case Interests => 2
    case Budget => 3
    case Personality => 4
    case Loading => -1
    case Results => -1
  }

  /** The progress bar, in percent: the share of questions already behind, or
      full while loading and on the results. */
  function Progress(s: Step): (p: int)
    ensures !s.IsQuestion() ==> p == 100
    ensures s.IsQuestion() ==> p * |StepOrder| == StepIndex(s) * 100
  {
    if !s.IsQuestion() then 100 else StepIndex(s) * 20
  }

  /** The bar starts empty, grows with every question and never passes full. */
  lemma ProgressGrows()
    ensures Progress(StepOrder[0]) == 0
    ensures forall i, j :: 0 <= i < j < |StepOrder| ==> Progress(StepOrder[i]) < Progress(StepOrder[j])
    ensures forall s: Step :: 0 <= Progress(s) <= 100
  {
    forall i, j | 0 <= i < j < |StepOrder|
      ensures Progress(StepOrder[i]) < Progress(StepOrder[j])
    {
      assert StepIndex(StepOrder[i]) == i && StepIndex(StepOrder[j]) == j;
    }
  }

  // ---------------------------------------------------------------------------
  // Answers
  // ---------------------------------------------------------------------------

  /** `Partial<QuizAnswer>`: every answer may still be missing. */
  datatype Answers = Answers(
    recipient: Option<string>,
    relationship: Option<string>,
    interests: Option<seq<string>>,
    budget: Option<string>,
    personality: Option<string>)

  const NoAnswers: Answers := Answers(None, None, None, None, None)

  /** `{ ...answers, [step]: value }` on a single-choice step. */
  function Answer(a: Answers, s: Step, value: string): Answers
    requires s.IsQuestion() && s != Interests
  {
    match s
    case Recipient => a.(recipient := Some(value))
    case Relationship => a.(relationship := Some(value))
    case Budget => a.(budget := Some(value))
    case Personality => a.(personality := Some(value))
  }

  /** `(answers.interests as string[]) || []`. */
  function SelectedInterests(a: Answers): seq<string> {
    if a.interests.Some? then a.interests.value else []
  }

  /** The multi-select toggle: remove the value if selected, else append it. */
  function Toggle(current: seq<string>, value: string): (r: seq<string>)
    ensures value in r <==> value !in current
    ensures forall x :: x != value ==> (x in r <==> x in current)
    ensures value !in current ==> r == current + [value]
    ensures value in current ==>
      && SubsequenceOf(r, current)
      && forall x :: x != value ==> multiset(r)[x] == multiset(current)[x]
  {
    FilterCounts(current, (v: string) => v != value);
    if value in current then Filter(current, (v: string) => v != value)
    else current + [value]
  }

  /** Clicking an unselected interest twice restores the selection. */
  lemma ToggleTwice(current: seq<string>, value: string)
    requires value !in current
    ensures Toggle(Toggle(current, value), value) == current
  {
    var p := (v: string) => v != value;
    FilterConcat(current, [value], p);
    FilterAll(current, p);
    assert Filter([value], p) == [];
  }

  /** Toggling never creates a duplicate selection. */
  lemma ToggleKeepsDistinct(current: seq<string>, value: string)
    requires Distinct(current)
    ensures Distinct(Toggle(current, value))
  {
    if value in current {
      FilterDistinct(current, (v: string) => v != value);
    }
  }

  /** The answers a visitor standing at question `k` has already given. */
  predicate AnsweredBefore(a: Answers, k: int) {
    && (k > 0 ==> a.recipient.Some?)
    && (k > 1 ==> a.relationship.Some?)
    && (k > 2 ==> |SelectedInterests(a)| > 0)
    && (k > 3 ==> a.budget.Some?)
  }

  // ---------------------------------------------------------------------------
  // The query compiler
  // ---------------------------------------------------------------------------

  /** A possibly-undefined string inside a template literal. */
  function Render(o: Option<string>): string {
    if o.Some? then o.value else "undefined"
  }

  /** A string answer is truthy when present and non-empty. */
  predicate Truthy(o: Option<string>) {
    o.Some? && o.value != ""
  }

  /** `budgetMap[budget]`, "undefined" for a key the map lacks. */
  function BudgetPhrase(b: string): string {
    if b == "under25" then "under £25"
    else if b == "25to50" then "£25-50"
    else if b == "50to100" then "£50-100"
    else if b == "over100" then "over £100"
    else "undefined"
  }

  /** `personalityMap[personality]`, "undefined" for a key the map lacks. */
  function PersonalityPhrase(p: string): string {
    if p == "romantic" then "romantic and sentimental gifts"
    else if p == "practical" then "practical and useful gifts"
    else if p == "adventurous" then "experience-based or adventurous gifts"
    else if p == "funny" then "fun and playful gifts"
    else if p == "luxury" then "luxurious and indulgent gifts"
    else "undefined"
  }

  predicate HasInterests(a: Answers) {
    a.interests.Some? && |a.interests.value| > 0
  }

  predicate HasBudget(a: Answers) {
    Truthy(a.budget) && a.budget.value != "any"
  }

  // The fixed text each question's clause opens with.
  const RecipientOpening := "Valentine's gift for my "
  const NewRelationship := "we're in a new relationship"
  const LongRelationship := "we've been together for years"
  const InterestsOpening := "they love "
  const BudgetOpening := "budget "
  const PersonalityOpening := "prefer "

  /** The clause each question contributes: none, or one. */
  function RecipientClause(a: Answers): seq<string> {
    [RecipientOpening + Render(a.recipient)]
  }

  function RelationshipClause(a: Answers): seq<string> {
    if a.relationship == Some("new") then [NewRelationship]
    else if a.relationship == Some("longterm") then [LongRelationship]
    else []
  }

  function InterestsClause(a: Answers): seq<string> {
    if HasInterests(a) then [InterestsOpening + Join(a.interests.value, ", ")] else []
  }

  function BudgetClause(a: Answers): seq<string> {
    if HasBudget(a) then [BudgetOpening + BudgetPhrase(a.budget.value)] else []
  }

  function PersonalityClause(a: Answers): seq<string> {
    if Truthy(a.personality) then [PersonalityOpening + PersonalityPhrase(a.personality.value)] else []
  }

  /** The clauses `buildSearchQuery` pushes, in push order. */
  function Clauses(a: Answers): seq<string> {
    RecipientClause(a) + RelationshipClause(a) + InterestsClause(a) + BudgetClause(a) + PersonalityClause(a)
  }

  /** `buildSearchQuery(answers)`: the clauses joined by ". ". The query
      always opens with the recipient clause. */
  function BuildSearchQuery(a: Answers): (r: string)
    ensures var head := "Valentine's gift for my " + Render(a.recipient);
      |head| <= |r| && r[..|head|] == head
  {
    JoinStartsWithHead(Clauses(a), ". ");
    Join(Clauses(a), ". ")
  }

  /** `c` starts with `opening`. */
  predicate Opens(c: string, opening: string) {
    |opening| <= |c| && c[..|opening|] == opening
  }

  /** Which question a clause answers, read off the fixed text it opens with. */
  function ClauseKind(c: string): int {
    if Opens(c, RecipientOpening) then 0
    else if c == NewRelationship || c == LongRelationship then 1
    else if Opens(c, InterestsOpening) then 2
    else if Opens(c, BudgetOpening) then 3
    else if Opens(c, PersonalityOpening) then 4
    else -1
  }

  lemma OpensWith(opening: string, rest: string)
    ensures Opens(opening + rest, opening)
  {
    assert (opening + rest)[..|opening|] == opening;
  }

  /** Two openings with different first letters never open the same clause. */
  lemma OpensNot(c: string, opening: string)
    requires |c| > 0 && |opening| > 0 && c[0] != opening[0]
    ensures !Opens(c, opening)
  {
  }

  /** Each opening, followed by anything, is read as its own question's clause. */
  lemma ClauseKindOf(rest: string)
    ensures ClauseKind(RecipientOpening + rest) == 0
    ensures ClauseKind(NewRelationship) == 1 && ClauseKind(LongRelationship) == 1
    ensures ClauseKind(InterestsOpening + rest) == 2
    ensures ClauseKind(BudgetOpening + rest) == 3
    ensures ClauseKind(PersonalityOpening + rest) == 4
  {
    OpensWith(RecipientOpening, rest);
    OpensNot(NewRelationship, RecipientOpening);
    OpensNot(LongRelationship, RecipientOpening);
    var interests, budget, personality := InterestsOpening + rest, BudgetOpening + rest, PersonalityOpening + rest;
    assert interests[0] == 't' && budget[0] == 'b' && personality[0] == 'p';
    OpensWith(InterestsOpening, rest);
    OpensNot(interests, RecipientOpening);
    OpensWith(BudgetOpening, rest);
    OpensNot(budget, RecipientOpening);
    OpensNot(budget, InterestsOpening);
    OpensWith(PersonalityOpening, rest);
    OpensNot(personality, RecipientOpening);
    OpensNot(personality, InterestsOpening);
    OpensNot(personality, BudgetOpening);
  }

  predicate HasClause(a: Answers, kind: int) {
    exists c :: c in Clauses(a) && ClauseKind(c) == kind
  }

  /** Each question's clause is recognisable as that question's. */
  lemma ClauseKinds(a: Answers)
    ensures forall c :: c in RecipientClause(a) ==> ClauseKind(c) == 0
    ensures forall c :: c in RelationshipClause(a) ==> ClauseKind(c) == 1
    ensures forall c :: c in InterestsClause(a) ==> ClauseKind(c) == 2
    ensures forall c :: c in BudgetClause(a) ==> ClauseKind(c) == 3
    ensures forall c :: c in PersonalityClause(a) ==> ClauseKind(c) == 4
    ensures |RecipientClause(a)| == 1
    ensures |RelationshipClause(a)| <= 1 && |InterestsClause(a)| <= 1
    ensures |BudgetClause(a)| <= 1 && |PersonalityClause(a)| <= 1
  {
    ClauseKindOf(Render(a.recipient));
    if HasInterests(a) {
      ClauseKindOf(Join(a.interests.value, ", "));
    }
    if HasBudget(a) {
      ClauseKindOf(BudgetPhrase(a.budget.value));
    }
    if Truthy(a.personality) {
      ClauseKindOf(PersonalityPhrase(a.personality.value));
    }
  }

  /** The clauses follow the question order, at most one per question, and the
      recipient clause comes first. */
  lemma ClausesInQuestionOrder(a: Answers)
    ensures 1 <= |Clauses(a)| <= 5
    ensures forall i :: 0 <= i < |Clauses(a)| ==> 0 <= ClauseKind(Clauses(a)[i]) < 5
    ensures forall i, j :: 0 <= i < j < |Clauses(a)| ==> ClauseKind(Clauses(a)[i]) < ClauseKind(Clauses(a)[j])
    ensures ClauseKind(Clauses(a)[0]) == 0
  {
    ClauseKinds(a);
    var parts := [RecipientClause(a), RelationshipClause(a), InterestsClause(a), BudgetClause(a), PersonalityClause(a)];
    var cs := Clauses(a);
    forall i, j | 0 <= i < j < |cs| ensures ClauseKind(cs[i]) < ClauseKind(cs[j]) {
      OrderedParts(parts, i, j);
    }
    forall i | 0 <= i < |cs| ensures 0 <= ClauseKind(cs[i]) < 5 {
      assert cs[i] in cs;
    }
  }

  /** In a concatenation of five lists of at most one clause, each of its own
      kind, a later clause has a larger kind. */
  lemma OrderedParts(parts: seq<seq<string>>, i: int, j: int)
    requires |parts| == 5
    requires forall k :: 0 <= k < 5 ==> |parts[k]| <= 1
    requires forall k, c :: 0 <= k < 5 && c in parts[k] ==> ClauseKind(c) == k
    requires 0 <= i < j < |parts[0] + parts[1] + parts[2] + parts[3] + parts[4]|
    ensures var cs := parts[0] + parts[1] + parts[2] + parts[3] + parts[4];
      ClauseKind(cs[i]) < ClauseKind(cs[j])
  {
    var cs := parts[0] + parts[1] + parts[2] + parts[3] + parts[4];
    var ends := [|parts[0]|, |parts[0]| + |parts[1]|, |parts[0]| + |parts[1]| + |parts[2]|,
                 |parts[0]| + |parts[1]| + |parts[2]| + |parts[3]|, |cs|];
    var ki := PartOf(parts, ends, i);
    var kj := PartOf(parts, ends, j);
  }

  /** The part that holds position `i`, and its kind. */
  lemma PartOf(parts: seq<seq<string>>, ends: seq<int>, i: int) returns (k: int)
    requires |parts| == 5 && |ends| == 5
    requires forall k :: 0 <= k < 5 ==> |parts[k]| <= 1
    requires forall k, c :: 0 <= k < 5 && c in parts[k] ==> ClauseKind(c) == k
    requires ends == [|parts[0]|, |parts[0]| + |parts[1]|, |parts[0]| + |parts[1]| + |parts[2]|,
                      |parts[0]| + |parts[1]| + |parts[2]| + |parts[3]|,
                      |parts[0] + parts[1] + parts[2] + parts[3] + parts[4]|]
    requires 0 <= i < ends[4]
    ensures 0 <= k < 5 && ClauseKind((parts[0] + parts[1] + parts[2] + parts[3] + parts[4])[i]) == k
    ensures (k > 0 ==> ends[k - 1] <= i) && i < ends[k]
  {
    var cs := parts[0] + parts[1] + parts[2] + parts[3] + parts[4];
    if i < ends[0] {
      k := 0;
      assert cs[i] == parts[0][i];
    } else if i < ends[1] {
      k := 1;
      assert cs[i] == parts[1][i - ends[0]];
    } else if i < ends[2] {
      k := 2;
      assert cs[i] == parts[2][i - ends[1]];
    } else if i < ends[3] {
      k := 3;
      assert cs[i] == parts[3][i - ends[2]];
    } else {
      k := 4;
      assert cs[i] == parts[4][i - ends[3]];
    }
  }

  /** Which clauses appear, and what they say. */
  lemma ClausePresence(a: Answers)
    ensures ("we're in a new relationship" in Clauses(a)) <==> a.relationship == Some("new")
    ensures ("we've been together for years" in Clauses(a)) <==> a.relationship == Some("longterm")
    ensures HasClause(a, 1) <==> a.relationship == Some("new") || a.relationship == Some("longterm")
    ensures HasClause(a, 2) <==> HasInterests(a)
    ensures HasInterests(a) ==> "they love " + Join(a.interests.value, ", ") in Clauses(a)
    ensures HasClause(a, 3) <==> HasBudget(a)
    ensures HasBudget(a) ==> "budget " + BudgetPhrase(a.budget.value) in Clauses(a)
    ensures HasClause(a, 4) <==> Truthy(a.personality)
    ensures Truthy(a.personality) ==> "prefer " + PersonalityPhrase(a.personality.value) in Clauses(a)
  {
    ClauseKinds(a);
    var cs := Clauses(a);
    assert forall c :: c in cs <==>
      c in RecipientClause(a) || c in RelationshipClause(a) || c in InterestsClause(a)
      || c in BudgetClause(a) || c in PersonalityClause(a);
    ClauseKindOf("");
    if HasInterests(a) {
      assert InterestsClause(a)[0] in cs;
    }
    if HasBudget(a) {
      assert BudgetClause(a)[0] in cs;
    }
    if Truthy(a.personality) {
      assert PersonalityClause(a)[0] in cs;
    }
  }

  /** "any" and a missing budget add no budget clause; each tier adds its phrase. */
  lemma BudgetClauses(a: Answers)
    ensures a.budget == Some("any") || a.budget == None ==> !HasClause(a, 3)
    ensures a.budget == Some("under25") ==> "budget under £25" in Clauses(a)
    ensures a.budget == Some("25to50") ==> "budget £25-50" in Clauses(a)
    ensures a.budget == Some("50to100") ==> "budget £50-100" in Clauses(a)
    ensures a.budget == Some("over100") ==> "budget over £100" in Clauses(a)
  {
    ClausePresence(a);
    if a.budget.Some? {
      var b := a.budget.value;
      assert b == "under25" ==> "budget " + BudgetPhrase(b) == "budget under £25";
      assert b == "25to50" ==> "budget " + BudgetPhrase(b) == "budget £25-50";
      assert b == "50to100" ==> "budget " + BudgetPhrase(b) == "budget £50-100";
      assert b == "over100" ==> "budget " + BudgetPhrase(b) == "budget over £100";
    }
  }

  // ---------------------------------------------------------------------------
  // The controller
  // ---------------------------------------------------------------------------

  class QuizController {
    var step: Step
    var answers: Answers
    var results: seq<Suggestion>

    /** Every question behind the current one has been answered. */
    predicate Valid()
      reads this
    {
      step.IsQuestion() ==> AnsweredBefore(answers, StepIndex(step))
    }

    constructor()
      ensures step == Recipient && answers == NoAnswers && results == []
      ensures Valid()
    {
      step := Recipient;
      answers := NoAnswers;
      results := [];
    }

    /** `getResults(finalAnswers)` up to its fetch: show the spinner and send
        the compiled query. */
    method StartResults(finalAnswers: Answers) returns (query: string)
      modifies this
      ensures step == Loading && answers == old(answers) && results == old(results)
      ensures query == BuildSearchQuery(finalAnswers)
      ensures Valid()
    {
      step := Loading;
      query := BuildSearchQuery(finalAnswers);
    }

    /** `getResults` after its fetch settles: the suggestions of an ok reply
        replace the results, anything else leaves them; the step becomes
        `results` in every case. */
    method FinishResults(outcome: FetchOutcome)
      modifies this
      ensures step == Results && answers == old(answers)
      ensures outcome.Ok? ==> results == SuggestionsOrEmpty(outcome)
      ensures !outcome.Ok? ==> results == old(results)
      ensures Valid()
    {
      if outcome.Ok? {
        results := SuggestionsOrEmpty(outcome);
      }
      step := Results;
    }

    /** `handleSelect(value)` on a question step. On the interests step the
        value is toggled and the step stays; elsewhere the answer is stored and
        the quiz moves on, or after the last question starts the search. */
    method HandleSelect(value: string) returns (request: Option<string>)
      requires step.IsQuestion() && Valid()
      modifies this
      ensures results == old(results)
      ensures old(step) == Interests ==>
        && step == Interests && request == None
        && answers == old(answers).(interests := Some(Toggle(SelectedInterests(old(answers)), value)))
      ensures old(step) != Interests ==> answers == Answer(old(answers), old(step), value)
      ensures old(step) != Interests && old(step) != Personality ==>
        step == StepOrder[StepIndex(old(step)) + 1] && request == None
      ensures old(step) == Personality ==>
        step == Loading && request == Some(BuildSearchQuery(answers))
      ensures old(step) == Personality ==>
        && answers.recipient.Some? && answers.relationship.Some? && |SelectedInterests(answers)| > 0
        && answers.budget.Some? && answers.personality.Some?
      ensures Valid()
    {
      if step == Interests {
        var updated := Toggle(SelectedInterests(answers), value);
        answers := answers.(interests := Some(updated));
        request := None;
      } else {
        var newAnswers := Answer(answers, step, value);
        answers := newAnswers;
        var nextIndex := StepIndex(step) + 1;
        if nextIndex < |StepOrder| {
          step := StepOrder[nextIndex];
          request := None;
        } else {
          var query := StartResults(newAnswers);
          request := Some(query);
        }
      }
    }

    /** `handleContinue()`: the button exists only on the interests step and
        is disabled while no interest is selected. */
    method HandleContinue()
      requires step == Interests && |SelectedInterests(answers)| > 0 && Valid()
      modifies this
      ensures step == Budget && answers == old(answers) && results == old(results)
      ensures Valid()
    {
      var nextIndex := StepIndex(step) + 1;
      step := StepOrder[nextIndex];
    }

    /** `restart()`: back to the first question with nothing answered. */
    method Restart()
      modifies this
      ensures step == Recipient && answers == NoAnswers && results == []
      ensures Valid()
    {
      step := Recipient;
      answers := NoAnswers;
      results := [];
    }
  }
}
