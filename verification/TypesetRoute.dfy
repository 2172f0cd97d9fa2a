/**
 `typeset_route`: compile every formula of a route, let a model repair what fails, and
 compile again, for a bounded number of rounds. The compiler, the Writer and the
 reviewer are oracles that may answer anything in each round.
 */
module TypesetRoute {
  import opened Wrappers
  import opened FormulaDocument
  import opened FormulaCompile
  import Guard = TypesetGuard

  const MAX_REPAIR_ROUNDS: nat := 3

  datatype Status = Plain | Repaired | RepairedReviewed | QuotationExpanded | QuotationVerbatim | Broken | NotCompiled

  datatype LayerStatus = AllCompiled | WithFailures | InfrastructureError

  datatype Diagnosis = Diagnosis(round: nat, kind: FailureKind, message: string, latex: string)

  datatype Formula = Formula(
    original: string,
    quotation: bool,
    text: string,
    status: Status,
    failing: Option<string>,
    final: bool,
    errors: seq<Diagnosis>)

  /** A model call that was refused, died, or answered. */
  datatype Reply<+T> = NotStarted | Lost | Answered(value: T)

  datatype Correction = Correction(formula: nat, latex: string)

  datatype Review = Review(formula: nat, equivalent: bool)

  /** The model runtime: which calls it offers and what they answer in each round. */
  datatype Runtime = Runtime(
    repairs: bool,
    reviews: bool,
    repair: nat -> Reply<seq<Correction>>,
    review: nat -> Reply<seq<Review>>)

  /** The compiler of each round (None: it could not be run) and the text helpers. */
  datatype World = World(
    engine: nat -> Option<Engine>,
    runtime: Option<Runtime>,
    clean: string -> string,
    delimited: string -> bool,
    licensed: (seq<string>, string) -> set<string>,
    classes: Guard.Classes)

  // ----- what happens to one formula ------------------------------------------------------

  /** Formulas shown verbatim or refused for good are not typeset as math. */
  predicate Typeset(f: Formula) {
    !f.status.Broken? && !f.status.QuotationVerbatim?
  }

  /** One compile's verdict: accepted as it stands, or put back to its recorded text. */
  function Judged(f: Formula, failure: Option<FragmentFailure>, round: nat): Formula {
    match failure
    case None => f.(final := true)
    case Some(why) =>
      var diagnosed := f.(failing := Some(f.text), text := f.original,
                          errors := f.errors + [Diagnosis(round, why.kind, why.message, f.text)]);
      if f.quotation then diagnosed.(status := QuotationVerbatim, final := true)
      else diagnosed.(status := Plain, final := false)
  }

  predicate Target(f: Formula) {
    !f.final && !f.quotation && !f.status.Broken?
  }

  /** The messages of the most recent round with errors. */
  function LatestMessages(errors: seq<Diagnosis>): seq<string> {
    if errors == [] then [] else MessagesOf(errors, LatestRound(errors))
  }

  function LatestRound(errors: seq<Diagnosis>): (r: nat)
    requires errors != []
    ensures forall k :: 0 <= k < |errors| ==> errors[k].round <= r
  {
    if |errors| == 1 then errors[0].round
    else
      var rest := LatestRound(errors[1..]);
      assert forall k :: 0 < k < |errors| ==> errors[k] == errors[1..][k - 1];
      if errors[0].round > rest then errors[0].round else rest
  }

  function MessagesOf(errors: seq<Diagnosis>, round: nat): seq<string> {
    if errors == [] then []
    else (if errors[0].round == round then [errors[0].message] else []) + MessagesOf(errors[1..], round)
  }

  datatype Fate = Dropped | Applied | SentToReview

  /** What becomes of one proposed body, already cleaned. */
  function FateOf(world: World, f: Formula, body: string): Fate {
    if body == [] || world.delimited(body) then Dropped
    else if body == f.original || f.failing == Some(body) then Dropped
    else if Guard.WithinGuard(world.classes, f.original, body, world.licensed(LatestMessages(f.errors), f.original)) then Applied
    else SentToReview
  }

  /** One verdict of the reviewer on the body it was shown. */
  function Ruled(f: Formula, equivalent: bool, body: string): Formula {
    if equivalent then f.(text := body, status := RepairedReviewed) else f.(status := Broken, final := true)
  }

  /** What the layer delivers for a formula once the rounds are over. */
  function Settled(f: Formula, infrastructure: bool): Formula {
    if f.final && !f.status.Broken? then f
    else if !f.final && infrastructure then f.(text := f.original, status := NotCompiled)
    else f.(text := f.original, status := Broken, final := true)
  }

  // ----- what happens to all of them --------------------------------------------------------

  /** A repair round half done: the formulas, how many bodies were applied, and what goes to review. */
  datatype Corrected = Corrected(formulas: seq<Formula>, accepted: nat, items: seq<(nat, string)>)

  /** One correction; one for a formula that was not asked about is ignored. */
  function CorrectOne(world: World, before: seq<Formula>, r: Corrected, c: Correction): Corrected {
    if c.formula >= |before| || c.formula >= |r.formulas| || !Target(before[c.formula]) then r
    else
      var f := r.formulas[c.formula];
      var body := world.clean(c.latex);
      match FateOf(world, f, body)
      case Dropped => r
      case Applied => Corrected(r.formulas[c.formula := f.(text := body, status := Repaired)], r.accepted + 1, r.items)
      case SentToReview => r.(items := r.items + [(c.formula, body)])
  }

  function CorrectAll(world: World, before: seq<Formula>, corrections: seq<Correction>): Corrected
    decreases |corrections|
  {
    if corrections == [] then Corrected(before, 0, [])
    else CorrectOne(world, before, CorrectAll(world, before, corrections[..|corrections| - 1]), corrections[|corrections| - 1])
  }

  predicate InItems(items: seq<(nat, string)>, i: nat) {
    exists item :: item in items && item.0 == i
  }

  /** The last body proposed for the formula among the reviewed ones. */
  function BodyFor(items: seq<(nat, string)>, i: nat): (body: string)
    requires InItems(items, i)
    ensures (i, body) in items
    ensures exists k :: 0 <= k < |items| && items[k] == (i, body) && forall j :: k < j < |items| ==> items[j].0 != i
    decreases |items|
  {
    if items[|items| - 1].0 == i then
      assert items[|items| - 1] == (i, items[|items| - 1].1);
      items[|items| - 1].1
    else
      assert forall item :: item in items ==> item in items[..|items| - 1] || item == items[|items| - 1];
      BodyFor(items[..|items| - 1], i)
  }

  /** The reviewer's verdicts in order, on the last body each formula was reviewed with. */
  function RuleOne(items: seq<(nat, string)>, formulas: seq<Formula>, v: Review): seq<Formula> {
    if v.formula < |formulas| && InItems(items, v.formula) then
      formulas[v.formula := Ruled(formulas[v.formula], v.equivalent, BodyFor(items, v.formula))]
    else formulas
  }

  function RuleAll(items: seq<(nat, string)>, formulas: seq<Formula>, verdicts: seq<Review>): seq<Formula>
    decreases |verdicts|
  {
    if verdicts == [] then formulas
    else RuleOne(items, RuleAll(items, formulas, verdicts[..|verdicts| - 1]), verdicts[|verdicts| - 1])
  }

  function EquivalentIn(items: seq<(nat, string)>, verdicts: seq<Review>): nat {
    if verdicts == [] then 0
    else
      var v := verdicts[|verdicts| - 1];
      EquivalentIn(items, verdicts[..|verdicts| - 1]) + if InItems(items, v.formula) && v.equivalent then 1 else 0
  }

  function RefuseAll(items: seq<(nat, string)>, formulas: seq<Formula>): (r: seq<Formula>)
    ensures |r| == |formulas|
    ensures forall i :: 0 <= i < |formulas| ==>
              r[i] == if InItems(items, i) then formulas[i].(status := Broken, final := true) else formulas[i]
  {
    seq(|formulas|, i requires 0 <= i < |formulas| =>
      if InItems(items, i) then formulas[i].(status := Broken, final := true) else formulas[i])
  }

  predicate Answers(reviews: seq<Review>, i: nat) {
    exists k :: 0 <= k < |reviews| && reviews[k].formula == i
  }

  function Unanswered(items: seq<(nat, string)>, reviews: seq<Review>): (r: seq<(nat, string)>)
    ensures forall item :: item in r <==> item in items && !Answers(reviews, item.0)
  {
    if items == [] then []
    else (if Answers(reviews, items[0].0) then [] else [items[0]]) + Unanswered(items[1..], reviews)
  }

  /** What a review that answered makes of the formulas. */
  function ReviewAll(items: seq<(nat, string)>, formulas: seq<Formula>, verdicts: seq<Review>): seq<Formula> {
    RefuseAll(Unanswered(items, verdicts), RuleAll(items, formulas, verdicts))
  }

  function ReviewsOf(world: World, round: nat): seq<Review> {
    if world.runtime.Some? && world.runtime.value.review(round).Answered? then world.runtime.value.review(round).value else []
  }

  predicate CanRepair(world: World, round: nat) {
    world.runtime.Some? && world.runtime.value.repairs && world.runtime.value.repair(round).Answered?
  }

  predicate CanReview(world: World, round: nat) {
    world.runtime.Some? && world.runtime.value.reviews && world.runtime.value.review(round).Answered?
  }

  function Corrections(world: World, round: nat, before: seq<Formula>): Corrected
    requires CanRepair(world, round)
  {
    CorrectAll(world, before, world.runtime.value.repair(round).value)
  }

  /** A whole repair round: the formulas it leaves and how many corrections it accepted. */
  function RepairedBy(world: World, round: nat, before: seq<Formula>, asked: bool): (seq<Formula>, nat)
    requires CanRepair(world, round)
  {
    var c := Corrections(world, round, before);
    if c.items == [] then (c.formulas, c.accepted)
    else if asked then
      (ReviewAll(c.items, c.formulas, ReviewsOf(world, round)), c.accepted + EquivalentIn(c.items, ReviewsOf(world, round)))
    else (RefuseAll(c.items, c.formulas), c.accepted)
  }

  // ----- the stale verdict ------------------------------------------------------------------

  /** The verdicts that name a formula, in their order. */
  function VerdictsFor(verdicts: seq<Review>, i: nat): (r: seq<bool>)
    ensures r != [] <==> Answers(verdicts, i)
  {
    if verdicts == [] then []
    else
      var last := verdicts[|verdicts| - 1];
      assert Answers(verdicts, i) <==> Answers(verdicts[..|verdicts| - 1], i) || last.formula == i;
      VerdictsFor(verdicts[..|verdicts| - 1], i) + if last.formula == i then [last.equivalent] else []
  }

  function RuledAll(f: Formula, verdicts: seq<bool>, body: string): Formula
    decreases |verdicts|
  {
    if verdicts == [] then f
    else Ruled(RuledAll(f, verdicts[..|verdicts| - 1], body), verdicts[|verdicts| - 1], body)
  }

  /** First refused, and equivalent in the last word. */
  predicate Stale(verdicts: seq<bool>) {
    verdicts != [] && verdicts[|verdicts| - 1] && false in verdicts
  }

  /** What a list of verdicts makes of one formula: its last word decides, but a refusal is never taken back from `final`. */
  lemma {:induction false} RuledMeans(f: Formula, verdicts: seq<bool>, body: string)
    requires !f.final
    ensures var g := RuledAll(f, verdicts, body);
            && (g.final <==> false in verdicts)
            && g.original == f.original && g.quotation == f.quotation && g.errors == f.errors && g.failing == f.failing
            && (verdicts != [] && verdicts[|verdicts| - 1] ==> g.text == body && g.status.RepairedReviewed?)
            && (verdicts != [] && !verdicts[|verdicts| - 1] ==> g.status.Broken?)
            && (verdicts == [] ==> g == f)
    decreases |verdicts|
  {
    if verdicts != [] {
      RuledMeans(f, verdicts[..|verdicts| - 1], body);
      assert verdicts == verdicts[..|verdicts| - 1] + [verdicts[|verdicts| - 1]];
    }
  }

  /** The loop over all verdicts is, formula by formula, the verdicts that name it on its last reviewed body. */
  lemma {:induction false} RulesOneByOne(items: seq<(nat, string)>, formulas: seq<Formula>, verdicts: seq<Review>, i: nat)
    requires i < |formulas|
    ensures |RuleAll(items, formulas, verdicts)| == |formulas|
    ensures RuleAll(items, formulas, verdicts)[i] ==
              if InItems(items, i) then RuledAll(formulas[i], VerdictsFor(verdicts, i), BodyFor(items, i)) else formulas[i]
    decreases |verdicts|
  {
    hide Ruled, BodyFor;
    if verdicts != [] {
      var front := verdicts[..|verdicts| - 1];
      RulesOneByOne(items, formulas, front, i);
      var last := verdicts[|verdicts| - 1];
      if last.formula == i {
        var bs := VerdictsFor(front, i);
        assert (bs + [last.equivalent])[..|bs|] == bs;
      } else {
        assert VerdictsFor(front, i) + [] == VerdictsFor(front, i);
      }
    }
  }

  /**
   A review leaves a formula final, and typeset with a body no compile has seen, if and
   only if its verdicts first refuse the body and in the last word accept it.
   */
  lemma StaleIff(items: seq<(nat, string)>, formulas: seq<Formula>, verdicts: seq<Review>, i: nat)
    requires i < |formulas| && !formulas[i].final
    ensures |ReviewAll(items, formulas, verdicts)| == |formulas|
    ensures var g := ReviewAll(items, formulas, verdicts)[i];
            && (!InItems(items, i) ==> g == formulas[i])
            && (InItems(items, i) ==>
                  && g.original == formulas[i].original && g.quotation == formulas[i].quotation
                  && g.errors == formulas[i].errors && g.failing == formulas[i].failing
                  && (g.final && Typeset(g) <==> Stale(VerdictsFor(verdicts, i)))
                  && (if Answers(verdicts, i) && VerdictsFor(verdicts, i)[|VerdictsFor(verdicts, i)| - 1] then
                        g.text == BodyFor(items, i) && g.status.RepairedReviewed?
                      else g.status.Broken? && g.final))
  {
    hide Ruled, BodyFor, RuleAll, RuledAll, VerdictsFor;
    RulesOneByOne(items, formulas, verdicts, i);
    if InItems(items, i) {
      RuledMeans(formulas[i], VerdictsFor(verdicts, i), BodyFor(items, i));
      var item :| item in items && item.0 == i;
      assert InItems(Unanswered(items, verdicts), i) <==> !Answers(verdicts, i);
    }
  }

  /** A reviewer that names each formula once is never stale. */
  lemma UniqueReviewsAreNotStale(reviews: seq<Review>, i: nat)
    requires forall j, k :: 0 <= j < k < |reviews| ==> reviews[j].formula != reviews[k].formula
    ensures !Stale(VerdictsFor(reviews, i))
  {
    AtMostOne(reviews, i);
  }

  lemma {:induction false} AtMostOne(reviews: seq<Review>, i: nat)
    requires forall j, k :: 0 <= j < k < |reviews| ==> reviews[j].formula != reviews[k].formula
    ensures |VerdictsFor(reviews, i)| <= 1
    decreases |reviews|
  {
    if reviews != [] {
      AtMostOne(reviews[..|reviews| - 1], i);
      assert Answers(reviews[..|reviews| - 1], i) ==> reviews[|reviews| - 1].formula != i;
    }
  }

  /** In this repair round the review was stale on formula i. */
  predicate StaleAt(world: World, round: nat, before: seq<Formula>, asked: bool, i: nat) {
    && asked && CanRepair(world, round) && InItems(Corrections(world, round, before).items, i)
    && Stale(VerdictsFor(ReviewsOf(world, round), i))
  }

  /** The body that was last sent to review for formula i. */
  function ReviewedBody(world: World, round: nat, before: seq<Formula>, i: nat): string
    requires CanRepair(world, round) && InItems(Corrections(world, round, before).items, i)
  {
    BodyFor(Corrections(world, round, before).items, i)
  }

  lemma {:induction false} EquivalentCounts(items: seq<(nat, string)>, verdicts: seq<Review>, i: nat)
    requires InItems(items, i) && true in VerdictsFor(verdicts, i)
    ensures EquivalentIn(items, verdicts) > 0
    decreases |verdicts|
  {
    hide InItems;
    if verdicts != [] {
      var front := verdicts[..|verdicts| - 1];
      if true in VerdictsFor(front, i) {
        EquivalentCounts(items, front, i);
      }
    }
  }

  // ----- what an attempt keeps --------------------------------------------------------------

  /** How a route's formulas start out. */
  predicate Fresh(f: Formula) {
    && !f.final && f.errors == []
    && ((f.status.Plain? && f.text == f.original) || (f.status.QuotationExpanded? && f.quotation))
  }

  /** What every step of an attempt keeps for a formula that started as `start`. */
  ghost predicate Kept(world: World, start: Formula, f: Formula) {
    && f.original == start.original && f.quotation == start.quotation
    && (f.quotation ==> f.status in {Plain, QuotationExpanded, QuotationVerbatim} && f.text in {start.text, start.original})
    && (f.status.QuotationVerbatim? ==> f.final && f.text == f.original)
    && (f.status.Plain? ==> f.text == f.original) && !f.status.NotCompiled?
    && (f.status.Repaired? ==>
          Guard.WithinGuard(world.classes, f.original, f.text, world.licensed(LatestMessages(f.errors), f.original)))
  }

  ghost predicate AllKept(world: World, start: seq<Formula>, formulas: seq<Formula>) {
    |formulas| == |start| && forall i :: 0 <= i < |start| ==> Kept(world, start[i], formulas[i])
  }

  /** A target between proposals: still a target, whatever body it now carries. */
  ghost predicate Proposed(world: World, start: Formula, before: Formula, f: Formula) {
    if Target(before) then Kept(world, start, f) && Target(f) && f.errors == before.errors && f.failing == before.failing
    else f == before
  }

  /** Corrections judged one by one: targets stay targets, and only bodies of targets go to review. */
  ghost predicate CorrectedOk(world: World, start: seq<Formula>, before: seq<Formula>, r: Corrected) {
    && |r.formulas| == |before| == |start|
    && (forall i :: 0 <= i < |before| ==> Proposed(world, start[i], before[i], r.formulas[i]))
    && (forall item :: item in r.items ==> item.0 < |before| && Target(before[item.0]) && item.1 != start[item.0].original)
  }

  lemma CorrectOneOk(world: World, start: seq<Formula>, before: seq<Formula>, r: Corrected, c: Correction)
    requires CorrectedOk(world, start, before, r)
    ensures CorrectedOk(world, start, before, CorrectOne(world, before, r, c))
  {
    hide Kept, Target, FateOf;
    if c.formula < |before| && Target(before[c.formula]) {
      var i := c.formula;
      var f, body := r.formulas[i], world.clean(c.latex);
      assert Proposed(world, start[i], before[i], f);
      if FateOf(world, f, body).Applied? {
        AppliedIsProposed(world, start[i], before[i], f, body);
      } else if FateOf(world, f, body).SentToReview? {
        SentIsNew(world, start[i], before[i], f, body);
      }
    }
  }

  lemma AppliedIsProposed(world: World, start: Formula, before: Formula, f: Formula, body: string)
    requires Proposed(world, start, before, f) && Target(before) && FateOf(world, f, body).Applied?
    ensures Proposed(world, start, before, f.(text := body, status := Repaired))
  {
  }

  lemma SentIsNew(world: World, start: Formula, before: Formula, f: Formula, body: string)
    requires Proposed(world, start, before, f) && Target(before) && FateOf(world, f, body).SentToReview?
    ensures body != start.original
  {
  }

  lemma {:induction false} CorrectAllOk(world: World, start: seq<Formula>, before: seq<Formula>, corrections: seq<Correction>)
    requires AllKept(world, start, before)
    ensures CorrectedOk(world, start, before, CorrectAll(world, before, corrections))
    decreases |corrections|
  {
    hide Kept, CorrectOne;
    if corrections == [] {
      NothingCorrected(world, start, before);
    } else {
      CorrectAllOk(world, start, before, corrections[..|corrections| - 1]);
      CorrectOneOk(world, start, before, CorrectAll(world, before, corrections[..|corrections| - 1]), corrections[|corrections| - 1]);
    }
  }

  lemma NothingCorrected(world: World, start: seq<Formula>, before: seq<Formula>)
    requires AllKept(world, start, before)
    ensures CorrectedOk(world, start, before, Corrected(before, 0, []))
  {
    hide Kept;
  }

  /**
   A repair round, formula by formula: only targets change, what it keeps is kept, and a
   target comes out final and typeset exactly when the review was stale on it, with the
   body that was reviewed.
   */
  ghost predicate RepairedOk(world: World, start: Formula, before: Formula, now: Formula, stale: bool) {
    && Kept(world, start, now)
    && (!Target(before) ==> now == before && !stale)
    && (Target(before) ==> !now.quotation && (now.final && Typeset(now) <==> stale))
  }

  lemma RepairMeans(world: World, start: seq<Formula>, round: nat, before: seq<Formula>, asked: bool, i: nat)
    requires CanRepair(world, round) && AllKept(world, start, before) && i < |before|
    ensures var (now, accepted) := RepairedBy(world, round, before, asked);
            && |now| == |before|
            && RepairedOk(world, start[i], before[i], now[i], StaleAt(world, round, before, asked, i))
            && (StaleAt(world, round, before, asked, i) ==>
                  && now[i].text == ReviewedBody(world, round, before, i) != start[i].original
                  && now[i].status.RepairedReviewed? && accepted > 0)
  {
    hide Kept, RuleAll, BodyFor, VerdictsFor, CorrectAll, EquivalentIn, Unanswered, ReviewAll;
    var c := Corrections(world, round, before);
    CorrectAllOk(world, start, before, world.runtime.value.repair(round).value);
    var reviews := ReviewsOf(world, round);
    assert Proposed(world, start[i], before[i], c.formulas[i]);
    if InItems(c.items, i) {
      var item :| item in c.items && item.0 == i;
      StaleIff(c.items, c.formulas, reviews, i);
      if asked {
        ReviewedKept(world, start[i], before[i], c.formulas[i], ReviewAll(c.items, c.formulas, reviews)[i]);
        if Stale(VerdictsFor(reviews, i)) {
          assert true in VerdictsFor(reviews, i);
          EquivalentCounts(c.items, reviews, i);
        }
      } else {
        ReviewedKept(world, start[i], before[i], c.formulas[i], c.formulas[i].(status := Broken, final := true));
      }
    } else {
      if c.items != [] {
        UntouchedBy(c.items, c.formulas, reviews, i);
      }
      TargetIsOpen(world, start[i], before[i], c.formulas[i]);
    }
  }

  lemma UntouchedBy(items: seq<(nat, string)>, formulas: seq<Formula>, verdicts: seq<Review>, i: nat)
    requires i < |formulas| && !InItems(items, i)
    ensures |ReviewAll(items, formulas, verdicts)| == |formulas| && ReviewAll(items, formulas, verdicts)[i] == formulas[i]
  {
    hide RuleAll, BodyFor, RuledAll, VerdictsFor;
    RulesOneByOne(items, formulas, verdicts, i);
    assert InItems(Unanswered(items, verdicts), i) ==> InItems(items, i);
  }

  lemma TargetIsOpen(world: World, start: Formula, before: Formula, f: Formula)
    requires Proposed(world, start, before, f) && Kept(world, start, before)
    ensures Kept(world, start, f) && (Target(before) ==> !f.final && !f.quotation)
  {
  }

  lemma ReviewedKept(world: World, start: Formula, before: Formula, mid: Formula, f: Formula)
    requires Proposed(world, start, before, mid) && Target(before)
    requires f.original == mid.original && f.quotation == mid.quotation && f.errors == mid.errors
    requires f.status.Broken? || f.status.RepairedReviewed?
    ensures Kept(world, start, f) && !f.quotation
  {
  }

  // ----- the model-call budget -----------------------------------------------------------------

  /** Typeset calls count against the run's budget through an append-only journal. */
  class TypesetCallBudget {
    const maxModelCalls: Option<nat>
    const recordModelCalls: nat
    /** Whether the n-th journal read and write succeed. */
    const readable: nat -> bool
    const writable: nat -> bool
    var lines: nat
    var readCount: nat
    var writeCount: nat
    /** Calls the runtime accepted, whether or not they were journalled. */
    ghost var started: nat

    constructor (maxModelCalls: Option<nat>, recordModelCalls: nat, lines: nat, readable: nat -> bool, writable: nat -> bool)
      ensures this.maxModelCalls == maxModelCalls && this.recordModelCalls == recordModelCalls && this.lines == lines
      ensures this.readable == readable && this.writable == writable && started == 0
    {
      this.maxModelCalls, this.recordModelCalls, this.lines := maxModelCalls, recordModelCalls, lines;
      this.readable, this.writable, readCount, writeCount, started := readable, writable, 0, 0, 0;
    }

    ghost predicate Reliable() {
      forall n: nat :: readable(n) && writable(n)
    }

    ghost predicate WithinBudget()
      reads this
    {
      maxModelCalls.Some? ==> recordModelCalls + lines <= maxModelCalls.value
    }

    ghost predicate HasRoom()
      reads this
    {
      maxModelCalls.Some? ==> recordModelCalls + lines < maxModelCalls.value
    }

    method Used() returns (n: nat)
      modifies this`readCount
      ensures n == if readable(old(readCount)) then lines else 0
    {
      n := if readable(readCount) then lines else 0;
      readCount := readCount + 1;
    }

    method Available() returns (ok: bool)
      modifies this`readCount
      ensures maxModelCalls.None? ==> ok
      ensures Reliable() ==> ok == HasRoom()
    {
      if maxModelCalls.None? { return true; }
      var used := Used();
      return recordModelCalls + used < maxModelCalls.value;
    }

    method Note() returns (ok: bool)
      modifies this`lines, this`writeCount
      ensures ok == writable(old(writeCount)) && lines == old(lines) + if ok then 1 else 0
    {
      ok := writable(writeCount);
      writeCount := writeCount + 1;
      if ok {
        lines := lines + 1;
      }
    }
  }

  /** `_run_typeset_call`: a call that starts is journalled, whatever becomes of it. */
  method RunTypesetCall<T>(reply: Reply<T>, budget: TypesetCallBudget) returns (output: Option<T>)
    modifies budget
    ensures output == if reply.Answered? then Some(reply.value) else None
    ensures budget.started == old(budget.started) + if reply.NotStarted? then 0 else 1
    ensures budget.Reliable() ==> budget.lines - old(budget.lines) == budget.started - old(budget.started)
  {
    if reply.NotStarted? {
      return None;
    }
    budget.started := budget.started + 1;
    var noted := budget.Note();
    match reply {
      case Lost => output := None;
      case Answered(value) => output := Some(value);
    }
  }

  // ----- the route ----------------------------------------------------------------------------

  /** One whole-route compile that reached a verdict. */
  datatype Round = Round(engine: Engine, positions: seq<nat>, texts: seq<string>, result: FragmentCompileResult)

  /** The engine succeeded on a document of exactly the accepted texts. */
  ghost predicate RoundOk(r: Round) {
    && |r.positions| == |r.texts| && r.result.infrastructure.None?
    && CompilesOk(r.engine, r.texts, r.result.compiles)
    && (forall k :: k in r.result.accepted ==> k < |r.texts|)
    && (forall k: nat :: k < |r.texts| ==> (k in r.result.accepted <==> k !in FailedIndices(r.result.failures)))
    && (r.result.accepted != [] ==> Verified(r.result.compiles, r.result.accepted))
  }

  predicate AcceptsAt(r: Round, k: nat, i: nat, text: string) {
    k in r.result.accepted && k < |r.positions| && k < |r.texts| && r.positions[k] == i && r.texts[k] == text
  }

  /** The round accepted this text for formula i. */
  ghost predicate Accepts(r: Round, i: nat, text: string) {
    exists k: nat :: AcceptsAt(r, k, i, text)
  }

  /** Some compile of this attempt accepted this text for formula i. */
  ghost predicate AcceptedIn(history: seq<Round>, i: nat, text: string) {
    exists h :: 0 <= h < |history| && Accepts(history[h], i, text)
  }

  /** The last round accepted exactly the texts of the final formulas. */
  ghost predicate Current(history: seq<Round>, formulas: seq<Formula>) {
    && (forall i :: 0 <= i < |formulas| && formulas[i].final && Typeset(formulas[i]) ==>
          history != [] && Accepts(history[|history| - 1], i, formulas[i].text))
    && (history != [] ==> DeliversAccepted(history[|history| - 1], formulas))
  }

  /** Every text the round accepted is still the text of its formula, and final. */
  predicate DeliversAccepted(r: Round, formulas: seq<Formula>) {
    forall n :: 0 <= n < |r.result.accepted| ==>
      var k := r.result.accepted[n];
      && k < |r.positions| && k < |r.texts| && r.positions[k] < |formulas|
      && var f := formulas[r.positions[k]];
      f.final && Typeset(f) && f.text == r.texts[k]
  }

  /** A compile round: the current texts went in, and each formula got its verdict. */
  ghost predicate CompiledTo(world: World, round: nat, before: seq<Formula>, after: seq<Formula>, r: Round) {
    && PositionsOf(before, r.positions) && world.engine(round) == Some(r.engine) && r.texts == TextsOf(before, r.positions)
    && JudgedAll(before, after, r.positions, r.result.failures, round) && Exact(r)
  }

  /** With a faithful engine the failures of a round are exactly the bad fragments. */
  ghost predicate Exact(r: Round) {
    forall bad | Faithful(r.engine, r.texts, bad) ::
      CompiledFailures(r.result.failures) == SafeFragments(r.engine, r.texts) * bad
  }

  /** The compiler reached no verdict on these formulas; that cannot happen with a faithful engine. */
  ghost predicate CompilerFailed(world: World, round: nat, formulas: seq<Formula>) {
    && (exists i :: 0 <= i < |formulas| && Typeset(formulas[i]))
    && (world.engine(round).Some? ==>
          exists positions :: PositionsOf(formulas, positions) && forall bad :: !Faithful(world.engine(round).value, TextsOf(formulas, positions), bad))
  }

  ghost predicate NoTarget(formulas: seq<Formula>) {
    forall i :: 0 <= i < |formulas| ==> !Target(formulas[i])
  }

  ghost predicate NoneTypeset(formulas: seq<Formula>) {
    forall i :: 0 <= i < |formulas| ==> !Typeset(formulas[i])
  }

  /**
   A whole attempt: the formulas at the head of each round, after its compile, and whether
   the review of its repair was held. Each repair but perhaps the last accepted something.
   */
  datatype Trace = Trace(history: seq<Round>, heads: seq<seq<Formula>>, judged: seq<seq<Formula>>, asks: seq<bool>)

  ghost predicate Traced(world: World, start: seq<Formula>, t: Trace) {
    && t.heads != [] && t.heads[0] == start && |t.judged| == |t.history| && |t.asks| == |t.heads| - 1 <= |t.history| <= |t.heads|
    && |t.history| <= MAX_REPAIR_ROUNDS + 1
    && (forall r: nat :: r < |t.history| ==>
          RoundOk(t.history[r]) && AllKept(world, start, t.judged[r]) && CompiledTo(world, r, t.heads[r], t.judged[r], t.history[r]))
    && (forall r: nat :: r < |t.asks| ==> RepairedTo(world, r + 1, t.judged[r], t.asks[r], t.heads[r + 1]))
  }

  /** The trace goes on with a compile round that took the formulas to these. */
  ghost predicate Compiled(world: World, round: nat, before: seq<Formula>, after: seq<Formula>, was: Trace, t: Trace) {
    && t.history != []
    && var r := t.history[|t.history| - 1];
    && RoundOk(r) && CompiledTo(world, round, before, after, r)
    && t == was.(history := was.history + [r], judged := was.judged + [after])
  }

  ghost predicate RepairedTo(world: World, round: nat, before: seq<Formula>, asked: bool, after: seq<Formula>) {
    && CanRepair(world, round) && after == RepairedBy(world, round, before, asked).0
    && (asked ==> CanReview(world, round))
  }

  /** With an unlimited budget every review that was due and could be had was held. */
  ghost predicate AllAsked(world: World, t: Trace) {
    forall r: nat :: r < |t.asks| && r < |t.judged| && CanRepair(world, r + 1) && Corrections(world, r + 1, t.judged[r]).items != [] ==>
      t.asks[r] == CanReview(world, r + 1)
  }

  /** Why an attempt with an unlimited budget ended without a compiler failure. */
  ghost predicate Ended(world: World, t: Trace, ended: seq<Formula>) {
    var n := |t.history|;
    if |t.heads| == n + 1 then
      && |t.judged| == |t.asks| == n && ended == t.heads[n]
      && (NoneTypeset(ended) || (n > 0 && CanRepair(world, n) && RepairedBy(world, n, t.judged[n - 1], t.asks[n - 1]).1 == 0))
    else
      && n > 0 && |t.judged| == n && ended == t.judged[n - 1]
      && (NoTarget(ended) || n == MAX_REPAIR_ROUNDS + 1 || !CanRepair(world, n))
  }

  /** The review after the last compile was stale on formula i. */
  ghost predicate WentStale(world: World, t: Trace, i: nat) {
    var n := |t.history|;
    n > 0 && |t.heads| == n + 1 && |t.judged| == n && |t.asks| == n && StaleAt(world, n, t.judged[n - 1], t.asks[n - 1], i)
  }

  class RouteTypesetter {
    const world: World
    const budget: TypesetCallBudget
    ghost const start: seq<Formula>
    var formulas: seq<Formula>
    var layer: LayerStatus
    ghost var trace: Trace

    constructor (world: World, budget: TypesetCallBudget, formulas: seq<Formula>)
      requires forall i :: 0 <= i < |formulas| ==> Fresh(formulas[i])
      ensures this.world == world && this.budget == budget && this.start == formulas && this.formulas == formulas
      ensures layer == AllCompiled && trace == Trace([], [formulas], [], []) && Valid()
    {
      this.world, this.budget, this.start, this.formulas, layer := world, budget, formulas, formulas, AllCompiled;
      trace := Trace([], [formulas], [], []);
      new;
      FreshIsKept(world, formulas);
    }

    ghost predicate Valid()
      reads this
    {
      AllKept(world, start, formulas) && Traced(world, start, trace)
    }

    // ----- review ------------------------------------------------------------------------------

    /** No review is to be had: every correction waiting for one is refused. */
    method Refuse(items: seq<(nat, string)>)
      requires forall item :: item in items ==> item.0 < |formulas|
      modifies this`formulas
      ensures formulas == RefuseAll(items, old(formulas))
    {
      var k := 0;
      while k < |items|
        invariant 0 <= k <= |items| && |formulas| == |old(formulas)|
        invariant forall i :: 0 <= i < |formulas| ==>
                    formulas[i] == if InItems(items[..k], i) then old(formulas)[i].(status := Broken, final := true)
                                   else old(formulas)[i]
      {
        InItemsSnoc(items, k);
        formulas := formulas[items[k].0 := formulas[items[k].0].(status := Broken, final := true)];
        k := k + 1;
      }
      assert items[..k] == items;
      assert formulas == RefuseAll(items, old(formulas));
    }

    /** The reviewer's verdicts, in the order they were returned. */
    method ApplyVerdicts(items: seq<(nat, string)>, verdicts: seq<Review>) returns (accepted: nat)
      requires forall item :: item in items ==> item.0 < |formulas|
      modifies this`formulas
      ensures formulas == RuleAll(items, old(formulas), verdicts) && accepted == EquivalentIn(items, verdicts)
      ensures |formulas| == |old(formulas)|
    {
      hide Ruled, BodyFor;
      accepted := 0;
      var k := 0;
      while k < |verdicts|
        invariant 0 <= k <= |verdicts| && |formulas| == |old(formulas)|
        invariant formulas == RuleAll(items, old(formulas), verdicts[..k]) && accepted == EquivalentIn(items, verdicts[..k])
      {
        assert verdicts[..k + 1][..k] == verdicts[..k];
        var i := verdicts[k].formula;
        if InItems(items, i) {
          if verdicts[k].equivalent {
            accepted := accepted + 1;
          }
          formulas := formulas[i := Ruled(formulas[i], verdicts[k].equivalent, BodyFor(items, i))];
        }
        k := k + 1;
      }
      assert verdicts[..k] == verdicts;
    }

    /** Ask the reviewer about the corrections beyond the guard; without an answer they are refused. */
    method ReviewRound(round: nat, items: seq<(nat, string)>) returns (accepted: nat, ghost asked: bool)
      requires world.runtime.Some? && forall item :: item in items ==> item.0 < |formulas|
      modifies this`formulas, budget
      ensures formulas == if asked then ReviewAll(items, old(formulas), ReviewsOf(world, round)) else RefuseAll(items, old(formulas))
      ensures accepted == if asked then EquivalentIn(items, ReviewsOf(world, round)) else 0
      ensures asked ==> CanReview(world, round)
      ensures budget.maxModelCalls.None? ==> asked == CanReview(world, round)
      ensures budget.Reliable() ==> asked == (old(budget.HasRoom()) && CanReview(world, round))
      ensures budget.Reliable() ==> budget.lines - old(budget.lines) == budget.started - old(budget.started)
      ensures budget.Reliable() && old(budget.WithinBudget()) ==> budget.WithinBudget()
    {
      var runtime := world.runtime.value;
      var reviews: Option<seq<Review>> := None;
      if runtime.reviews {
        var available := budget.Available();
        if available {
          reviews := RunTypesetCall(runtime.review(round), budget);
        }
      }
      if reviews.None? {
        Refuse(items);
        return 0, false;
      }
      asked := true;
      accepted := ApplyVerdicts(items, reviews.value);
      Refuse(Unanswered(items, reviews.value));
    }

    // ----- repair ------------------------------------------------------------------------------

    /** Judge each proposed correction: apply it, send it to review, or drop it. */
    method ApplyCorrections(corrections: seq<Correction>) returns (accepted: nat, items: seq<(nat, string)>)
      requires AllKept(world, start, formulas)
      modifies this`formulas
      ensures Corrected(formulas, accepted, items) == CorrectAll(world, old(formulas), corrections)
      ensures forall item :: item in items ==> item.0 < |formulas|
    {
      hide Kept, FateOf, Target, AllKept;
      ghost var before := formulas;
      var targets := seq(|formulas|, i requires 0 <= i < |formulas| reads this => Target(formulas[i]));
      accepted, items := 0, [];
      var k := 0;
      while k < |corrections|
        invariant 0 <= k <= |corrections| && |formulas| == |before|
        invariant Corrected(formulas, accepted, items) == CorrectAll(world, before, corrections[..k])
        invariant forall item :: item in items ==> item.0 < |formulas|
      {
        assert corrections[..k + 1][..k] == corrections[..k];
        var i := corrections[k].formula;
        if i < |formulas| && targets[i] {
          var body := world.clean(corrections[k].latex);
          var fate := FateOf(world, formulas[i], body);
          if fate.Applied? {
            formulas := formulas[i := formulas[i].(text := body, status := Repaired)];
            accepted := accepted + 1;
          } else if fate.SentToReview? {
            items := items + [(i, body)];
          }
        }
        k := k + 1;
      }
      assert corrections[..k] == corrections;
    }

    /** One repair round: ask the Writer, judge what it proposes, have the rest reviewed. */
    method RepairRound(round: nat) returns (accepted: nat, stop: bool, ghost asked: bool)
      requires AllKept(world, start, formulas)
      modifies this`formulas, budget
      ensures stop ==> accepted == 0 && formulas == old(formulas)
      ensures !stop ==> CanRepair(world, round) && (formulas, accepted) == RepairedBy(world, round, old(formulas), asked)
      ensures asked ==> CanReview(world, round)
      ensures budget.maxModelCalls.None? ==> stop == !CanRepair(world, round)
      ensures budget.maxModelCalls.None? && !stop && Corrections(world, round, old(formulas)).items != [] ==> asked == CanReview(world, round)
      ensures budget.Reliable() ==> stop == !(old(budget.HasRoom()) && CanRepair(world, round))
      ensures budget.Reliable() ==> budget.lines - old(budget.lines) == budget.started - old(budget.started)
      ensures budget.Reliable() && old(budget.WithinBudget()) ==> budget.WithinBudget()
    {
      hide Kept, CorrectAll, ReviewAll, RefuseAll, EquivalentIn;
      ghost var before := formulas;
      asked := false;
      if world.runtime.None? || !world.runtime.value.repairs {
        return 0, true, false;
      }
      var available := budget.Available();
      if !available {
        return 0, true, false;
      }
      var output := RunTypesetCall(world.runtime.value.repair(round), budget);
      if output.None? {
        return 0, true, false;
      }
      var applied, items := ApplyCorrections(output.value);
      assert Corrected(formulas, applied, items) == Corrections(world, round, before);
      var reviewed := 0;
      if items != [] {
        reviewed, asked := ReviewRound(round, items);
      }
      accepted, stop := applied + reviewed, false;
    }

    // ----- compile ------------------------------------------------------------------------------

    /** The formulas that are typeset as math, in order. */
    method Compilable() returns (positions: seq<nat>)
      ensures PositionsOf(formulas, positions)
    {
      hide PositionsOf, Typeset;
      positions := [];
      NoPositions();
      assert formulas[..0] == [];
      var i := 0;
      while i < |formulas|
        invariant 0 <= i <= |formulas|
        invariant PositionsOf(formulas[..i], positions)
      {
        PositionsSnoc(formulas, i, positions);
        if Typeset(formulas[i]) {
          positions := positions + [i];
        }
        i := i + 1;
      }
      assert formulas[..i] == formulas;
    }

    /** Give every compiled formula its verdict. */
    method Judge(positions: seq<nat>, failures: seq<FragmentFailure>, round: nat)
      requires PositionsOf(formulas, positions)
      modifies this`formulas
      ensures JudgedAll(old(formulas), formulas, positions, failures, round)
    {
      ghost var before := formulas;
      var k := 0;
      while k < |positions|
        invariant 0 <= k <= |positions| && |formulas| == |before|
        invariant forall j :: 0 <= j < k ==>
                    formulas[positions[j]] == Judged(before[positions[j]], FailureAt(failures, j), round)
        invariant forall i :: 0 <= i < |formulas| && (i in positions ==> i in positions[k..]) ==> formulas[i] == before[i]
      {
        assert positions[k] in positions[k..];
        LaterPositions(positions, k);
        formulas := formulas[positions[k] := Judged(formulas[positions[k]], FailureAt(failures, k), round)];
        k := k + 1;
      }
    }

    /** Compile the whole route again. False: the compiler gave no verdict. */
    method CompileRound(positions: seq<nat>, round: nat) returns (verdict: bool)
      requires AllKept(world, start, formulas) && PositionsOf(formulas, positions) && positions != []
      modifies this
      ensures verdict ==> layer == old(layer) && Compiled(world, round, old(formulas), formulas, old(trace), trace)
      ensures !verdict ==>
                layer == InfrastructureError && formulas == old(formulas) && trace == old(trace) && CompilerFailed(world, round, formulas)
    {
      hide Kept, RoundOk, Judged, CompilesOk, Verified, NamedHaveFailed, FailureOk, Faithful, Stopped, LogCeil, CompiledFailures,
           SafeFragments, PositionsOf, JudgedAll, FailedIndices, Typeset, AllKept, CompilerFailed;
      PositionsInRange(formulas, positions);
      var engine := world.engine(round);
      if engine.None? {
        layer := InfrastructureError;
        NoCompiler(world, round, formulas, positions);
        return false;
      }
      var texts := TextsOf(formulas, positions);
      var result := CompileFragments(engine.value, texts);
      if result.infrastructure.Some? {
        layer := InfrastructureError;
        NoVerdict(world, round, formulas, positions);
        return false;
      }
      Judge(positions, result.failures, round);
      ghost var r := Round(engine.value, positions, texts, result);
      RoundHolds(r);
      trace := trace.(history := trace.history + [r], judged := trace.judged + [formulas]);
      return true;
    }

    // ----- the layer -----------------------------------------------------------------------------

    method Settle()
      modifies this`formulas
      ensures |formulas| == |old(formulas)|
      ensures forall i :: 0 <= i < |formulas| ==> formulas[i] == Settled(old(formulas)[i], layer.InfrastructureError?)
    {
      var i := 0;
      while i < |formulas|
        invariant 0 <= i <= |formulas| == |old(formulas)|
        invariant forall k :: 0 <= k < |formulas| ==>
                    formulas[k] == if k < i then Settled(old(formulas)[k], layer.InfrastructureError?) else old(formulas)[k]
      {
        formulas := formulas[i := Settled(formulas[i], layer.InfrastructureError?)];
        i := i + 1;
      }
    }

    /** The head of a round: every earlier one compiled and repaired, and what was accepted last still stands. */
    ghost predicate AtHead(round: nat)
      reads this
    {
      && Valid() && layer == AllCompiled
      && |trace.history| == |trace.judged| == |trace.asks| == round && |trace.heads| == round + 1 && trace.heads[round] == formulas
      && (round > 0 ==> DeliversAccepted(trace.history[round - 1], formulas))
      && (budget.maxModelCalls.None? ==> AllAsked(world, trace))
    }

    /** No more rounds: the compiler failed, or what is final is what the last compile accepted. */
    ghost predicate Finished()
      reads this
    {
      && Valid() && layer in {AllCompiled, InfrastructureError}
      && (layer == InfrastructureError ==>
            |trace.heads| == |trace.history| + 1 && formulas == trace.heads[|trace.history|]
            && CompilerFailed(world, |trace.history|, formulas))
      && (layer != InfrastructureError ==> Current(trace.history, formulas))
      && (layer != InfrastructureError && budget.maxModelCalls.None? ==> Ended(world, trace, formulas))
      && (budget.maxModelCalls.None? ==> AllAsked(world, trace))
    }

    /** One round: compile, and repair what failed. False when there is nothing more to do. */
    method Turn(round: nat) returns (more: bool)
      requires AtHead(round) && round <= MAX_REPAIR_ROUNDS
      modifies this, budget
      ensures more ==> round < MAX_REPAIR_ROUNDS && AtHead(round + 1)
      ensures !more ==> Finished()
      ensures budget.Reliable() ==> budget.lines - old(budget.lines) == budget.started - old(budget.started)
      ensures budget.Reliable() && old(budget.WithinBudget()) ==> budget.WithinBudget()
    {
      hide AllKept, Kept, Traced, RoundOk, Target, DeliversAccepted, Typeset, Current, PositionsOf, CompiledTo, RepairedBy, CanRepair,
           CompilerFailed, Ended, Compiled, AllAsked, Corrections, CanReview;
      var positions := Compilable();
      if positions == [] {
        NothingTypeset(trace.history, formulas);
        EndedUntypeset(world, trace, formulas);
        return false;
      }
      ghost var head, was := formulas, trace;
      var verdict := CompileRound(positions, round);
      if !verdict {
        return false;
      }
      TraceCompile(world, start, was, head, formulas, trace);
      AskedBefore(world, was, trace);
      if (forall i :: 0 <= i < |formulas| ==> !Target(formulas[i])) || round == MAX_REPAIR_ROUNDS {
        EndedJudged(world, trace, formulas);
        return false;
      }
      ghost var before := formulas;
      var accepted, stop, asked := RepairRound(round + 1);
      if stop {
        if budget.maxModelCalls.None? {
          EndedJudged(world, trace, formulas);
        }
        return false;
      }
      TraceRepair(world, start, trace, before, formulas, asked, accepted);
      AskedToo(world, trace, formulas, asked, budget.maxModelCalls.None?);
      trace := trace.(heads := trace.heads + [formulas], asks := trace.asks + [asked]);
      if accepted == 0 {
        EndedRefused(world, trace, formulas);
        return false;
      }
      return true;
    }

    /** Compile, repair, compile again, until nothing is left to repair or no round is left. */
    method Rounds()
      requires AtHead(0)
      modifies this, budget
      ensures Finished() && |formulas| == |start| && |trace.history| <= MAX_REPAIR_ROUNDS + 1
      ensures budget.Reliable() ==> budget.lines - old(budget.lines) == budget.started - old(budget.started)
      ensures budget.Reliable() && old(budget.WithinBudget()) ==> budget.WithinBudget()
    {
      hide AllKept, Traced, Current, DeliversAccepted, CompilerFailed, Ended, AllAsked;
      var round: nat := 0;
      var more := true;
      while more
        invariant round <= MAX_REPAIR_ROUNDS && if more then AtHead(round) else Finished()
        invariant budget.Reliable() ==> budget.lines - old(budget.lines) == budget.started - old(budget.started)
        invariant budget.Reliable() && old(budget.WithinBudget()) ==> budget.WithinBudget()
        decreases MAX_REPAIR_ROUNDS - round, more
      {
        more := Turn(round);
        if more {
          round := round + 1;
        }
      }
      Sizes(world, start, formulas, trace);
    }

    /**
     The whole attempt. What is delivered for a formula is its recorded text or one that a
     compile of this attempt accepted, with one exception, which is exact: the compiler
     then failed, and the review after its last verdict had refused the body of this very
     formula and accepted it in its last word. A compiled layer is exactly what its last
     compile accepted; there are at most four compiles; the budget is respected.
     */
    method TypesetRoute()
      requires Valid() && trace == Trace([], [formulas], [], []) && layer == AllCompiled && start == formulas
      requires forall i :: 0 <= i < |formulas| ==> Fresh(formulas[i])
      modifies this, budget
      ensures |formulas| == |start| && Traced(world, start, trace) && |trace.history| <= 4
      ensures forall i :: 0 <= i < |formulas| ==> Delivers(world, start[i], formulas[i], layer)
      ensures forall i: nat :: i < |formulas| ==>
                (NotCompiledYet(trace.history, start[i], i, formulas[i]) <==>
                   && layer == InfrastructureError && WentStale(world, trace, i)
                   && !AcceptedIn(trace.history, i, LastReviewed(world, trace, i)))
      ensures layer == InfrastructureError ==>
                forall i: nat :: i < |formulas| && WentStale(world, trace, i) ==>
                  formulas[i].text == LastReviewed(world, trace, i) != start[i].original && formulas[i].status.RepairedReviewed?
      ensures layer == InfrastructureError ==>
                |trace.heads| == |trace.history| + 1 && CompilerFailed(world, |trace.history|, trace.heads[|trace.history|])
      ensures budget.maxModelCalls.None? ==> AllAsked(world, trace)
      ensures layer != InfrastructureError && budget.maxModelCalls.None? ==> exists ended :: Ended(world, trace, ended)
      ensures layer != InfrastructureError ==> LastCompileHolds(trace.history, formulas)
      ensures layer == AllCompiled <==> layer != InfrastructureError && forall i :: 0 <= i < |formulas| ==> !formulas[i].status.Broken?
      ensures budget.Reliable() ==> budget.lines - old(budget.lines) == budget.started - old(budget.started)
      ensures budget.Reliable() && old(budget.WithinBudget()) ==> budget.WithinBudget()
    {
      hide AllKept, Kept, Traced, RoundOk, Settled, Current, Delivers, AcceptedIn, LastCompileHolds, CompilerFailed, Ended, Fresh, WentStale,
           NotCompiledYet, AllAsked;
      NothingAsked(world, trace);
      Rounds();
      ghost var ended := formulas;
      Settle();
      SettledDelivers(world, start, trace, ended, formulas, layer);
      if layer == AllCompiled && exists i :: 0 <= i < |formulas| && formulas[i].status.Broken? {
        layer := WithFailures;
        DeliversWithFailures(world, start, formulas);
      }
    }
  }

  // ----- the trace -------------------------------------------------------------------------------

  /** Delivered, other than recorded, and never accepted by a compile of this attempt. */
  ghost predicate NotCompiledYet(history: seq<Round>, start: Formula, i: nat, f: Formula) {
    f.text != start.original && !AcceptedIn(history, i, f.text)
  }

  ghost function LastReviewed(world: World, t: Trace, i: nat): string
    requires WentStale(world, t, i)
  {
    ReviewedBody(world, |t.history|, t.judged[|t.history| - 1], i)
  }

  lemma NothingAsked(world: World, t: Trace)
    requires t.asks == []
    ensures AllAsked(world, t)
  {
  }

  lemma AskedBefore(world: World, t: Trace, t': Trace)
    requires t'.asks == t.asks && t.judged <= t'.judged && |t.asks| <= |t.judged|
    ensures AllAsked(world, t) ==> AllAsked(world, t')
  {
    hide CanRepair, CanReview;
  }

  lemma AskedToo(world: World, t: Trace, after: seq<Formula>, asked: bool, unlimited: bool)
    requires |t.judged| == |t.asks| + 1 && (unlimited ==> AllAsked(world, t))
    requires unlimited && CanRepair(world, |t.judged|) && Corrections(world, |t.judged|, t.judged[|t.asks|]).items != [] ==>
               asked == CanReview(world, |t.judged|)
    ensures unlimited ==> AllAsked(world, t.(heads := t.heads + [after], asks := t.asks + [asked]))
  {
    hide CanRepair, CanReview;
  }

  lemma Sizes(world: World, start: seq<Formula>, formulas: seq<Formula>, t: Trace)
    requires AllKept(world, start, formulas) && Traced(world, start, t)
    ensures |formulas| == |start| && |t.history| <= MAX_REPAIR_ROUNDS + 1
  {
    hide Kept, RoundOk, CompiledTo, RepairedTo;
  }

  lemma FreshIsKept(world: World, formulas: seq<Formula>)
    requires forall i :: 0 <= i < |formulas| ==> Fresh(formulas[i])
    ensures AllKept(world, formulas, formulas)
  {
  }

  lemma NoCompiler(world: World, round: nat, formulas: seq<Formula>, positions: seq<nat>)
    requires PositionsOf(formulas, positions) && positions != [] && world.engine(round).None?
    ensures CompilerFailed(world, round, formulas)
  {
    assert Typeset(formulas[positions[0]]);
  }

  lemma NoVerdict(world: World, round: nat, formulas: seq<Formula>, positions: seq<nat>)
    requires PositionsOf(formulas, positions) && positions != [] && world.engine(round).Some?
    requires forall bad :: !Faithful(world.engine(round).value, TextsOf(formulas, positions), bad)
    ensures CompilerFailed(world, round, formulas)
  {
    hide Faithful;
    assert Typeset(formulas[positions[0]]);
  }

  /** The ascending list of the formulas that are typeset. */
  predicate PositionsOf(formulas: seq<Formula>, positions: seq<nat>) {
    && Increasing(positions)
    && (forall k :: 0 <= k < |positions| ==> positions[k] < |formulas| && Typeset(formulas[positions[k]]))
    && (forall i :: 0 <= i < |formulas| && Typeset(formulas[i]) ==> i in positions)
  }

  function TextsOf(formulas: seq<Formula>, positions: seq<nat>): (t: seq<string>)
    requires forall k :: 0 <= k < |positions| ==> positions[k] < |formulas|
    ensures |t| == |positions| && forall k :: 0 <= k < |t| ==> t[k] == formulas[positions[k]].text
  {
    seq(|positions|, k requires 0 <= k < |positions| => formulas[positions[k]].text)
  }

  lemma PositionsSnoc(formulas: seq<Formula>, i: nat, positions: seq<nat>)
    requires i < |formulas| && PositionsOf(formulas[..i], positions)
    ensures PositionsOf(formulas[..i + 1], if Typeset(formulas[i]) then positions + [i] else positions)
  {
    hide PositionsOf, Typeset;
    assert formulas[..i + 1] == formulas[..i] + [formulas[i]];
    if Typeset(formulas[i]) {
      OneMoreTypeset(formulas[..i], formulas[i], positions);
    } else {
      OneNotTypeset(formulas[..i], formulas[i], positions);
    }
  }

  lemma OneMoreTypeset(front: seq<Formula>, f: Formula, positions: seq<nat>)
    requires PositionsOf(front, positions) && Typeset(f)
    ensures PositionsOf(front + [f], positions + [|front|])
  {
    hide Typeset;
    var all, after := front + [f], positions + [|front|];
    assert all[|front|] == f && after[|positions|] == |front|;
    forall x | 0 <= x < |all| && Typeset(all[x])
      ensures x in after
    {
      if x < |front| {
        assert front[x] == all[x];
        assert x in positions;
      }
    }
  }

  lemma OneNotTypeset(front: seq<Formula>, f: Formula, positions: seq<nat>)
    requires PositionsOf(front, positions) && !Typeset(f)
    ensures PositionsOf(front + [f], positions)
  {
    hide Typeset;
    var all := front + [f];
    assert all[|front|] == f;
    forall x | 0 <= x < |all| && Typeset(all[x])
      ensures x in positions
    {
      assert x < |front| && front[x] == all[x];
    }
  }

  lemma LaterPositions(positions: seq<nat>, k: nat)
    requires Increasing(positions) && k < |positions|
    ensures forall i :: i in positions[k..] <==> i == positions[k] || i in positions[k + 1..]
    ensures positions[k] !in positions[k + 1..]
    ensures forall j :: 0 <= j < k ==> positions[j] != positions[k]
  {
    assert positions[k..] == [positions[k]] + positions[k + 1..];
  }

  /** The failure recorded for the k-th compiled fragment. */
  function FailureAt(failures: seq<FragmentFailure>, k: nat): (f: Option<FragmentFailure>)
    ensures f.None? <==> k !in FailedIndices(failures)
    ensures f.Some? ==> f.value in failures && f.value.index == k
  {
    if failures == [] then None
    else if failures[|failures| - 1].index == k then
      assert failures[|failures| - 1] in failures;
      Some(failures[|failures| - 1])
    else
      assert forall f :: f in failures ==> f in failures[..|failures| - 1] || f == failures[|failures| - 1];
      FailureAt(failures[..|failures| - 1], k)
  }

  ghost predicate JudgedAll(before: seq<Formula>, after: seq<Formula>, positions: seq<nat>, failures: seq<FragmentFailure>, round: nat) {
    && |after| == |before|
    && (forall k :: 0 <= k < |positions| ==>
          positions[k] < |after| && after[positions[k]] == Judged(before[positions[k]], FailureAt(failures, k), round))
    && (forall i :: 0 <= i < |after| && i !in positions ==> after[i] == before[i])
  }

  lemma NoPositions()
    ensures PositionsOf([], [])
  {
  }

  lemma PositionsInRange(formulas: seq<Formula>, positions: seq<nat>)
    requires PositionsOf(formulas, positions)
    ensures forall k :: 0 <= k < |positions| ==> positions[k] < |formulas|
  {
  }

  lemma RoundHolds(r: Round)
    requires |r.positions| == |r.texts| && r.result.infrastructure.None? && CompilesOk(r.engine, r.texts, r.result.compiles)
    requires Batch(r.engine, r.texts, r.result.accepted)
    requires forall k: nat :: k < |r.texts| ==> (k in r.result.accepted <==> k !in FailedIndices(r.result.failures))
    requires r.result.accepted != [] ==> Verified(r.result.compiles, r.result.accepted)
    ensures RoundOk(r)
  {
    hide CompilesOk, Verified, FailedIndices;
  }

  lemma JudgedKept(world: World, start: Formula, f: Formula, failure: Option<FragmentFailure>, round: nat)
    requires Kept(world, start, f)
    ensures Kept(world, start, Judged(f, failure, round))
  {
  }

  lemma JudgedIsKept(world: World, start: seq<Formula>, before: seq<Formula>, after: seq<Formula>, positions: seq<nat>,
                     failures: seq<FragmentFailure>, round: nat)
    requires AllKept(world, start, before) && JudgedAll(before, after, positions, failures, round)
    ensures AllKept(world, start, after)
  {
    hide Kept, Judged;
    forall i | 0 <= i < |start|
      ensures Kept(world, start[i], after[i])
    {
      if i in positions {
        var k :| 0 <= k < |positions| && positions[k] == i;
        JudgedKept(world, start[i], before[i], FailureAt(failures, k), round);
      }
    }
  }

  /** After a compile, final means accepted by it. */
  lemma JudgedIsCurrent(before: seq<Formula>, after: seq<Formula>, r: Round, round: nat)
    requires PositionsOf(before, r.positions) && JudgedAll(before, after, r.positions, r.result.failures, round)
    requires |r.texts| == |r.positions| && forall k :: 0 <= k < |r.texts| ==> r.texts[k] == before[r.positions[k]].text
    requires forall k: nat :: k < |r.texts| ==> (k in r.result.accepted <==> k !in FailedIndices(r.result.failures))
    requires forall k :: 0 <= k < |r.result.accepted| ==> r.result.accepted[k] < |r.texts|
    ensures forall i :: 0 <= i < |after| && after[i].final && Typeset(after[i]) ==> Accepts(r, i, after[i].text)
    ensures DeliversAccepted(r, after)
  {
    forall i | 0 <= i < |after|
      ensures after[i].final && Typeset(after[i]) ==> Accepts(r, i, after[i].text)
    {
      if i in r.positions {
        var k: nat :| k < |r.positions| && r.positions[k] == i;
        if FailureAt(r.result.failures, k).None? {
          assert AcceptsAt(r, k, i, after[i].text);
        }
      }
    }
  }

  /** What the layer says of a formula, whatever the models and the compiler answered. */
  ghost predicate Delivers(world: World, start: Formula, f: Formula, layer: LayerStatus) {
    && f.original == start.original && f.quotation == start.quotation
    && (f.status in {Plain, NotCompiled, Broken, QuotationVerbatim} ==> f.text == f.original)
    && (f.status.NotCompiled? ==> layer.InfrastructureError?)
    && (f.quotation ==> f.status !in {Repaired, RepairedReviewed} && f.text in {start.text, start.original})
    && (f.status.Repaired? ==>
          Guard.WithinGuard(world.classes, f.original, f.text, world.licensed(LatestMessages(f.errors), f.original)))
  }

  /** The last compile accepted exactly the texts the layer delivers, verbatim and broken formulas aside. */
  ghost predicate LastCompileHolds(history: seq<Round>, formulas: seq<Formula>) {
    && (forall i :: 0 <= i < |formulas| && Typeset(formulas[i]) ==>
          history != [] && Accepts(history[|history| - 1], i, formulas[i].text))
    && (history != [] ==> DeliversAccepted(history[|history| - 1], formulas))
  }

  lemma NothingTypeset(history: seq<Round>, formulas: seq<Formula>)
    requires PositionsOf(formulas, [])
    requires history != [] ==> DeliversAccepted(history[|history| - 1], formulas)
    ensures Current(history, formulas) && NoneTypeset(formulas)
  {
  }

  lemma EndedUntypeset(world: World, t: Trace, formulas: seq<Formula>)
    requires |t.heads| == |t.history| + 1 && |t.judged| == |t.asks| == |t.history|
    requires formulas == t.heads[|t.history|] && NoneTypeset(formulas)
    ensures Ended(world, t, formulas)
  {
    hide Typeset;
  }

  lemma EndedJudged(world: World, t: Trace, formulas: seq<Formula>)
    requires |t.heads| == |t.history| == |t.judged| > 0 && formulas == t.judged[|t.judged| - 1]
    requires NoTarget(formulas) || |t.history| == MAX_REPAIR_ROUNDS + 1 || !CanRepair(world, |t.history|)
    ensures Ended(world, t, formulas)
  {
    hide Target;
  }

  lemma EndedRefused(world: World, t: Trace, formulas: seq<Formula>)
    requires |t.heads| == |t.history| + 1 && formulas == t.heads[|t.history|] && |t.judged| == |t.asks| == |t.history| > 0
    requires CanRepair(world, |t.history|)
    requires RepairedBy(world, |t.history|, t.judged[|t.history| - 1], t.asks[|t.history| - 1]).1 == 0
    ensures Ended(world, t, formulas)
  {
    hide RepairedBy, CanRepair, Typeset;
  }

  lemma CompiledIsCurrent(world: World, start: seq<Formula>, round: nat, head: seq<Formula>, after: seq<Formula>, r: Round)
    requires RoundOk(r) && CompiledTo(world, round, head, after, r)
    ensures forall i :: 0 <= i < |after| && after[i].final && Typeset(after[i]) ==> Accepts(r, i, after[i].text)
    ensures DeliversAccepted(r, after)
    ensures AllKept(world, start, head) ==> AllKept(world, start, after)
  {
    hide CompilesOk, Verified, Faithful, Exact, FailedIndices, CompiledFailures, SafeFragments, AllKept, DeliversAccepted, Accepts;
    assert forall k :: 0 <= k < |r.result.accepted| ==> r.result.accepted[k] in r.result.accepted;
    JudgedIsCurrent(head, after, r, round);
    if AllKept(world, start, head) {
      JudgedIsKept(world, start, head, after, r.positions, r.result.failures, round);
    }
  }

  lemma TraceCompile(world: World, start: seq<Formula>, t: Trace, head: seq<Formula>, after: seq<Formula>, t': Trace)
    requires Traced(world, start, t) && |t.heads| == |t.history| + 1 && t.heads[|t.history|] == head && |t.history| <= MAX_REPAIR_ROUNDS
    requires AllKept(world, start, head) && Compiled(world, |t.history|, head, after, t, t')
    ensures Traced(world, start, t') && AllKept(world, start, after) && Current(t'.history, after)
    ensures |t'.history| == |t.history| + 1 && t'.judged == t.judged + [after] && t'.heads == t.heads && t'.asks == t.asks
  {
    hide RoundOk, CompiledTo, AllKept, RepairedTo, DeliversAccepted, Accepts;
    var r := t'.history[|t'.history| - 1];
    CompiledIsCurrent(world, start, |t.history|, head, after, r);
    forall k: nat | k < |t'.history|
      ensures RoundOk(t'.history[k]) && AllKept(world, start, t'.judged[k]) && CompiledTo(world, k, t'.heads[k], t'.judged[k], t'.history[k])
    {
      if k < |t.history| {
        assert t'.history[k] == t.history[k] && t'.judged[k] == t.judged[k];
      }
    }
    forall k: nat | k < |t'.asks|
      ensures RepairedTo(world, k + 1, t'.judged[k], t'.asks[k], t'.heads[k + 1])
    {
      assert t'.judged[k] == t.judged[k];
    }
  }

  /** A repair leaves what the last compile accepted alone; if it accepts nothing, nothing new is final. */
  lemma RepairKeepsCurrent(world: World, start: seq<Formula>, history: seq<Round>, before: seq<Formula>, asked: bool)
    requires history != [] && AllKept(world, start, before) && Current(history, before) && CanRepair(world, |history|)
    ensures var (after, accepted) := RepairedBy(world, |history|, before, asked);
            && AllKept(world, start, after) && DeliversAccepted(history[|history| - 1], after)
            && (accepted == 0 ==> Current(history, after))
  {
    hide Kept, RepairedBy, StaleAt, CanRepair, Accepts, ReviewedBody;
    var (after, accepted) := RepairedBy(world, |history|, before, asked);
    RepairKeepsLength(world, start, |history|, before, asked);
    forall i | 0 <= i < |before|
      ensures Kept(world, start[i], after[i])
      ensures before[i].final ==> after[i] == before[i]
      ensures accepted == 0 && after[i].final && Typeset(after[i]) ==> after[i] == before[i]
    {
      RepairMeans(world, start, |history|, before, asked, i);
    }
  }

  lemma RepairKeepsLength(world: World, start: seq<Formula>, round: nat, before: seq<Formula>, asked: bool)
    requires CanRepair(world, round) && AllKept(world, start, before)
    ensures |RepairedBy(world, round, before, asked).0| == |before|
  {
    hide Kept, CorrectAll, RuleAll, Unanswered;
    var c := Corrections(world, round, before);
    CorrectAllOk(world, start, before, world.runtime.value.repair(round).value);
    RuleLength(c.items, c.formulas, ReviewsOf(world, round));
  }

  lemma {:induction false} RuleLength(items: seq<(nat, string)>, formulas: seq<Formula>, verdicts: seq<Review>)
    ensures |RuleAll(items, formulas, verdicts)| == |formulas|
    decreases |verdicts|
  {
    if verdicts != [] {
      RuleLength(items, formulas, verdicts[..|verdicts| - 1]);
    }
  }

  lemma TraceRepair(world: World, start: seq<Formula>, t: Trace, before: seq<Formula>, after: seq<Formula>, asked: bool, accepted: nat)
    requires Traced(world, start, t) && |t.heads| == |t.history| > 0 && t.judged[|t.history| - 1] == before
    requires AllKept(world, start, before) && Current(t.history, before) && CanRepair(world, |t.history|)
    requires (after, accepted) == RepairedBy(world, |t.history|, before, asked) && (asked ==> CanReview(world, |t.history|))
    ensures Traced(world, start, t.(heads := t.heads + [after], asks := t.asks + [asked]))
    ensures AllKept(world, start, after) && DeliversAccepted(t.history[|t.history| - 1], after)
    ensures accepted == 0 ==> Current(t.history, after)
  {
    hide RoundOk, CompiledTo, AllKept, DeliversAccepted, Current, RepairedBy, CanRepair, CanReview;
    RepairKeepsCurrent(world, start, t.history, before, asked);
    var t' := t.(heads := t.heads + [after], asks := t.asks + [asked]);
    forall k: nat | k < |t'.history|
      ensures CompiledTo(world, k, t'.heads[k], t'.judged[k], t'.history[k])
    {
      assert t'.heads[k] == t.heads[k];
    }
    forall k: nat | k < |t'.asks|
      ensures RepairedTo(world, k + 1, t'.judged[k], t'.asks[k], t'.heads[k + 1])
    {
      if k < |t.asks| {
        assert t'.asks[k] == t.asks[k] && t'.heads[k + 1] == t.heads[k + 1];
      }
    }
  }

  // ----- what is delivered -----------------------------------------------------------------------

  lemma SettledDeliversOne(world: World, start: Formula, f: Formula, layer: LayerStatus)
    requires Kept(world, start, f)
    ensures Delivers(world, start, Settled(f, layer.InfrastructureError?), layer)
    ensures !(f.final && Typeset(f)) ==> Settled(f, layer.InfrastructureError?).text == start.original
    ensures f.final && Typeset(f) ==> Settled(f, layer.InfrastructureError?) == f
    ensures !layer.InfrastructureError? && Typeset(Settled(f, false)) ==> f.final && Typeset(f)
  {
  }

  /** After a failed compiler: what is final was accepted by the last compile, or went stale in the review after it. */
  lemma FinalOrStale(world: World, start: seq<Formula>, t: Trace, i: nat)
    requires Traced(world, start, t) && |t.heads| == |t.history| + 1 && i < |start| && forall k :: 0 <= k < |start| ==> Fresh(start[k])
    ensures |t.heads[|t.history|]| == |start|
    ensures var f := t.heads[|t.history|][i];
            && (f.final && Typeset(f) && !WentStale(world, t, i) ==> AcceptedIn(t.history, i, f.text))
            && (WentStale(world, t, i) ==>
                  f.final && Typeset(f) && f.text == LastReviewed(world, t, i) != start[i].original && f.status.RepairedReviewed?)
  {
    hide RoundOk, CompiledTo, StaleAt, Kept, RepairedBy, Accepts, DeliversAccepted, CanRepair, CanReview, ReviewedBody;
    var n := |t.history|;
    if n > 0 {
      var before := t.judged[n - 1];
      assert RoundOk(t.history[n - 1]) && AllKept(world, start, before) && CompiledTo(world, n - 1, t.heads[n - 1], before, t.history[n - 1]);
      assert RepairedTo(world, n - 1 + 1, t.judged[n - 1], t.asks[n - 1], t.heads[n - 1 + 1]);
      CompiledIsCurrent(world, start, n - 1, t.heads[n - 1], before, t.history[n - 1]);
      RepairMeans(world, start, n, before, t.asks[n - 1], i);
      if !Target(before[i]) && before[i].final && Typeset(before[i]) {
        assert Accepts(t.history[n - 1], i, before[i].text);
      }
    }
  }

  lemma SettledDelivers(world: World, start: seq<Formula>, t: Trace, ended: seq<Formula>, now: seq<Formula>, layer: LayerStatus)
    requires Traced(world, start, t) && AllKept(world, start, ended) && |now| == |ended|
    requires forall k :: 0 <= k < |start| ==> Fresh(start[k])
    requires forall i :: 0 <= i < |now| ==> now[i] == Settled(ended[i], layer.InfrastructureError?)
    requires layer.InfrastructureError? ==> |t.heads| == |t.history| + 1 && ended == t.heads[|t.history|]
    requires !layer.InfrastructureError? ==> Current(t.history, ended)
    ensures forall i :: 0 <= i < |now| ==> Delivers(world, start[i], now[i], layer)
    ensures forall i: nat :: i < |now| ==>
              (NotCompiledYet(t.history, start[i], i, now[i]) <==>
                 layer.InfrastructureError? && WentStale(world, t, i) && !AcceptedIn(t.history, i, LastReviewed(world, t, i)))
    ensures layer.InfrastructureError? ==>
              forall i: nat :: i < |now| && WentStale(world, t, i) ==>
                now[i].text == LastReviewed(world, t, i) != start[i].original && now[i].status.RepairedReviewed?
    ensures !layer.InfrastructureError? ==> LastCompileHolds(t.history, now)
  {
    hide Kept, Delivers, Accepts, AcceptedIn, Settled, Traced, WentStale, LastReviewed, Typeset, Fresh, DeliversAccepted;
    forall i: nat | i < |now|
      ensures Delivers(world, start[i], now[i], layer)
      ensures NotCompiledYet(t.history, start[i], i, now[i]) <==>
                layer.InfrastructureError? && WentStale(world, t, i) && !AcceptedIn(t.history, i, LastReviewed(world, t, i))
      ensures layer.InfrastructureError? && WentStale(world, t, i) ==>
                now[i].text == LastReviewed(world, t, i) != start[i].original && now[i].status.RepairedReviewed?
      ensures !layer.InfrastructureError? && Typeset(now[i]) ==> now[i] == ended[i] && ended[i].final && Typeset(ended[i])
      ensures ended[i].final && Typeset(ended[i]) ==> now[i] == ended[i]
    {
      SettledDeliversOne(world, start[i], ended[i], layer);
      if layer.InfrastructureError? {
        FinalOrStale(world, start, t, i);
      } else if ended[i].final && Typeset(ended[i]) {
        CurrentIsAccepted(t.history, ended, i);
      }
    }
    if !layer.InfrastructureError? {
      SettledHolds(t.history, ended, now);
    }
  }

  lemma CurrentIsAccepted(history: seq<Round>, formulas: seq<Formula>, i: nat)
    requires Current(history, formulas) && i < |formulas| && formulas[i].final && Typeset(formulas[i])
    ensures AcceptedIn(history, i, formulas[i].text)
  {
    hide Accepts, DeliversAccepted;
    assert Accepts(history[|history| - 1], i, formulas[i].text);
  }

  lemma SettledHolds(history: seq<Round>, ended: seq<Formula>, now: seq<Formula>)
    requires Current(history, ended) && |now| == |ended|
    requires forall i :: 0 <= i < |now| && Typeset(now[i]) ==> now[i] == ended[i] && ended[i].final && Typeset(ended[i])
    requires forall i :: 0 <= i < |now| && ended[i].final && Typeset(ended[i]) ==> now[i] == ended[i]
    ensures LastCompileHolds(history, now)
  {
    hide Accepts;
  }

  lemma DeliversWithFailures(world: World, start: seq<Formula>, formulas: seq<Formula>)
    requires |formulas| == |start| && forall i :: 0 <= i < |formulas| ==> Delivers(world, start[i], formulas[i], AllCompiled)
    ensures forall i :: 0 <= i < |formulas| ==> Delivers(world, start[i], formulas[i], WithFailures)
  {
  }

  lemma InItemsSnoc(items: seq<(nat, string)>, k: nat)
    requires k < |items|
    ensures forall i :: InItems(items[..k + 1], i) <==> InItems(items[..k], i) || i == items[k].0
  {
    assert items[..k + 1] == items[..k] + [items[k]];
    assert items[k] in items[..k + 1];
  }
}
