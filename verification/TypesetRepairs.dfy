/**
 What one round of typesetting does to one formula, said on the Writer's corrections and
 the compiler's verdicts themselves: which corrections are taken, which go to the reviewer,
 which change nothing, and what a compile and the end of the attempt make of a formula.
 */
module TypesetRepairs {
  import opened Wrappers
  import opened FormulaDocument
  import opened FormulaCompile
  import opened TypesetRoute
  import Guard = TypesetGuard

  // ----- one correction -----------------------------------------------------------------

  /** No single body, or one that is known not to do. */
  predicate Excluded(world: World, f: Formula, body: string) {
    body == "" || world.delimited(body) || body == f.original || f.failing == Some(body)
  }

  /** Within the guard, with the commands that the compiler's latest messages license. */
  predicate Guarded(world: World, f: Formula, body: string) {
    Guard.WithinGuard(world.classes, f.original, body, world.licensed(LatestMessages(f.errors), f.original))
  }

  /** Correction k is for formula i and cleans to this body. */
  predicate Corrects(world: World, corrections: seq<Correction>, k: nat, i: nat, body: string) {
    k < |corrections| && corrections[k].formula == i && world.clean(corrections[k].latex) == body
  }

  /** Correction k is for a formula that was asked about, and is taken as it is. */
  predicate Taken(world: World, before: seq<Formula>, corrections: seq<Correction>, k: nat) {
    && k < |corrections| && corrections[k].formula < |before|
    && var f, body := before[corrections[k].formula], world.clean(corrections[k].latex);
    Target(f) && !Excluded(world, f, body) && Guarded(world, f, body)
  }

  /** Correction k is the last one for formula i that is taken. */
  ghost predicate LastTaken(world: World, before: seq<Formula>, corrections: seq<Correction>, k: nat, i: nat) {
    && k < |corrections| && Taken(world, before, corrections, k) && corrections[k].formula == i
    && forall j: nat :: k < j < |corrections| && corrections[j].formula == i ==> !Taken(world, before, corrections, j)
  }

  ghost predicate NoneTaken(world: World, before: seq<Formula>, corrections: seq<Correction>, i: nat) {
    forall k: nat :: k < |corrections| && corrections[k].formula == i ==> !Taken(world, before, corrections, k)
  }

  /** All corrections that are taken. */
  ghost function TakenSet(world: World, before: seq<Formula>, corrections: seq<Correction>): set<nat> {
    set k: nat | k < |corrections| && Taken(world, before, corrections, k)
  }

  ghost predicate Proposes(world: World, corrections: seq<Correction>, i: nat, body: string) {
    exists k: nat :: Corrects(world, corrections, k, i, body)
  }

  /** Some correction for formula i cleans to this body, which is neither excluded nor within the guard. */
  ghost predicate Doubtful(world: World, before: seq<Formula>, corrections: seq<Correction>, i: nat, body: string) {
    && i < |before| && Target(before[i]) && !Excluded(world, before[i], body) && !Guarded(world, before[i], body)
    && Proposes(world, corrections, i, body)
  }

  /** What the corrections have made of formula i so far. */
  ghost predicate CorrectedTo(world: World, before: seq<Formula>, corrections: seq<Correction>, i: nat, f: Formula)
    requires i < |before|
  {
    && (NoneTaken(world, before, corrections, i) ==> f == before[i])
    && forall k: nat :: LastTaken(world, before, corrections, k, i) ==>
         f == before[i].(text := world.clean(corrections[k].latex), status := Repaired)
  }

  lemma LastOrNone(world: World, before: seq<Formula>, corrections: seq<Correction>, i: nat)
    ensures NoneTaken(world, before, corrections, i) || exists k: nat :: LastTaken(world, before, corrections, k, i)
  {
    hide Taken;
    if !NoneTaken(world, before, corrections, i) {
      var k := |corrections|;
      while k > 0 && !(corrections[k - 1].formula == i && Taken(world, before, corrections, k - 1))
        invariant 0 <= k <= |corrections|
        invariant forall j: nat :: k <= j < |corrections| && corrections[j].formula == i ==> !Taken(world, before, corrections, j)
      {
        k := k - 1;
      }
      assert LastTaken(world, before, corrections, k - 1, i);
    }
  }

  /** The same formula but for its body and status. */
  predicate SameSubject(f: Formula, g: Formula) {
    f.original == g.original && f.failing == g.failing && f.errors == g.errors && f.quotation == g.quotation && f.final == g.final
  }

  lemma {:induction false} CorrectionsKeepSubjects(world: World, before: seq<Formula>, corrections: seq<Correction>)
    ensures |CorrectAll(world, before, corrections).formulas| == |before|
    ensures forall i :: 0 <= i < |before| ==> SameSubject(CorrectAll(world, before, corrections).formulas[i], before[i])
    decreases |corrections|
  {
    hide FateOf, Target;
    if corrections != [] {
      CorrectionsKeepSubjects(world, before, corrections[..|corrections| - 1]);
    }
  }

  /** What one more correction does. */
  lemma OneMore(world: World, before: seq<Formula>, r: Corrected, c: Correction)
    requires |r.formulas| == |before| && forall i :: 0 <= i < |before| ==> SameSubject(r.formulas[i], before[i])
    ensures var r' := CorrectOne(world, before, r, c);
            if Taken(world, before, [c], 0) then
              && r'.formulas == r.formulas[c.formula := r.formulas[c.formula].(text := world.clean(c.latex), status := Repaired)]
              && r'.accepted == r.accepted + 1 && r'.items == r.items
            else
              && r'.formulas == r.formulas && r'.accepted == r.accepted
              && r'.items == r.items + if Doubtful(world, before, [c], c.formula, world.clean(c.latex)) then [(c.formula, world.clean(c.latex))] else []
  {
    hide Guard.WithinGuard, LatestMessages;
    assert Corrects(world, [c], 0, c.formula, world.clean(c.latex));
  }

  lemma SnocTaken(world: World, before: seq<Formula>, front: seq<Correction>, c: Correction)
    ensures forall k: nat :: k < |front| ==> (Taken(world, before, front + [c], k) <==> Taken(world, before, front, k))
    ensures Taken(world, before, front + [c], |front|) <==> Taken(world, before, [c], 0)
  {
    hide Target, Excluded, Guarded;
    assert forall k: nat :: k < |front| ==> (front + [c])[k] == front[k];
  }

  /** The corrections of a round, from one to the next: bodies, count and what waits for review. */
  lemma {:induction false} CorrectionsMean(world: World, before: seq<Formula>, corrections: seq<Correction>, i: nat)
    requires i < |before|
    ensures var r := CorrectAll(world, before, corrections);
            && |r.formulas| == |before| && CorrectedTo(world, before, corrections, i, r.formulas[i])
            && r.accepted == |TakenSet(world, before, corrections)|
            && forall body :: (i, body) in r.items <==> Doubtful(world, before, corrections, i, body)
    decreases |corrections|
  {
    if corrections == [] {
      assert TakenSet(world, before, corrections) == {};
      assert NoneTaken(world, before, corrections, i);
    } else {
      var front, c := corrections[..|corrections| - 1], corrections[|corrections| - 1];
      assert corrections == front + [c];
      CorrectionsMean(world, before, front, i);
      CorrectionsKeepSubjects(world, before, front);
      hide CorrectOne, CorrectedTo, Doubtful, TakenSet, SameSubject;
      OneMoreMeans(world, before, CorrectAll(world, before, front), front, c, i);
    }
  }

  lemma OneMoreMeans(world: World, before: seq<Formula>, r: Corrected, front: seq<Correction>, c: Correction, i: nat)
    requires i < |before| == |r.formulas| && CorrectedTo(world, before, front, i, r.formulas[i])
    requires r.accepted == |TakenSet(world, before, front)|
    requires forall body :: (i, body) in r.items <==> Doubtful(world, before, front, i, body)
    requires forall j :: 0 <= j < |before| ==> SameSubject(r.formulas[j], before[j])
    ensures var r', all := CorrectOne(world, before, r, c), front + [c];
            && |r'.formulas| == |before| && CorrectedTo(world, before, all, i, r'.formulas[i])
            && r'.accepted == |TakenSet(world, before, all)|
            && forall body :: (i, body) in r'.items <==> Doubtful(world, before, all, i, body)
  {
    hide CorrectOne, CorrectedTo, TakenSet, Taken, Doubtful, SameSubject;
    var r' := CorrectOne(world, before, r, c);
    OneMore(world, before, r, c);
    TakenHere(world, before, c);
    SnocCorrected(world, before, front, c, i, r.formulas[i], r'.formulas[i]);
    SnocCount(world, before, front, c);
    SnocDoubtful(world, before, front, c, i);
    DoubtfulHere(world, before, c, i);
  }

  lemma TakenHere(world: World, before: seq<Formula>, c: Correction)
    ensures Taken(world, before, [c], 0) ==> c.formula < |before|
    ensures Taken(world, before, [c], 0) ==> forall i, body :: !(i == c.formula && Doubtful(world, before, [c], i, body))
  {
    hide Target, Excluded, Guarded;
  }

  lemma DoubtfulHere(world: World, before: seq<Formula>, c: Correction, i: nat)
    ensures forall body :: Doubtful(world, before, [c], i, body) ==> i == c.formula && body == world.clean(c.latex)
  {
    hide Target, Excluded, Guarded;
  }

  lemma SnocCount(world: World, before: seq<Formula>, front: seq<Correction>, c: Correction)
    ensures |TakenSet(world, before, front + [c])| == |TakenSet(world, before, front)| + if Taken(world, before, [c], 0) then 1 else 0
  {
    hide Taken;
    SnocTaken(world, before, front, c);
    var old_, new_ := TakenSet(world, before, front), TakenSet(world, before, front + [c]);
    assert new_ == old_ + if Taken(world, before, [c], 0) then {|front|} else {};
  }

  lemma SnocDoubtful(world: World, before: seq<Formula>, front: seq<Correction>, c: Correction, i: nat)
    ensures forall body :: Doubtful(world, before, front + [c], i, body) <==>
                           Doubtful(world, before, front, i, body) || Doubtful(world, before, [c], i, body)
  {
    hide Target, Excluded, Guarded;
    forall body
      ensures Proposes(world, front + [c], i, body) <==> Proposes(world, front, i, body) || Proposes(world, [c], i, body)
    {
      if k: nat :| Corrects(world, front, k, i, body) {
        assert Corrects(world, front + [c], k, i, body);
      }
      if k: nat :| Corrects(world, [c], k, i, body) {
        assert Corrects(world, front + [c], |front|, i, body);
      }
      if k: nat :| Corrects(world, front + [c], k, i, body) {
        if k < |front| {
          assert Corrects(world, front, k, i, body);
        } else {
          assert Corrects(world, [c], 0, i, body);
        }
      }
    }
  }

  lemma SnocCorrected(world: World, before: seq<Formula>, front: seq<Correction>, c: Correction, i: nat, f: Formula, g: Formula)
    requires i < |before| && CorrectedTo(world, before, front, i, f)
    requires g == if c.formula == i && Taken(world, before, [c], 0) then f.(text := world.clean(c.latex), status := Repaired) else f
    ensures CorrectedTo(world, before, front + [c], i, g)
  {
    hide Taken;
    SnocTaken(world, before, front, c);
    var all := front + [c];
    assert all[|front|] == c && forall j :: 0 <= j < |front| ==> all[j] == front[j];
    LastOrNone(world, before, front, i);
    if c.formula == i && Taken(world, before, [c], 0) {
      assert Taken(world, before, all, |front|);
      forall k: nat | LastTaken(world, before, all, k, i)
        ensures k == |front|
      {
      }
    } else {
      forall k: nat | LastTaken(world, before, all, k, i)
        ensures LastTaken(world, before, front, k, i) && all[k] == front[k]
      {
        assert k < |front|;
        forall j: nat | k < j < |front| && front[j].formula == i
          ensures !Taken(world, before, front, j)
        {
          assert all[j].formula == i;
        }
      }
      if NoneTaken(world, before, all, i) {
        assert NoneTaken(world, before, front, i);
      }
    }
  }

  // ----- a repair round --------------------------------------------------------------------

  function Asked(world: World, round: nat): seq<Correction>
    requires CanRepair(world, round)
  {
    world.runtime.value.repair(round).value
  }

  /** What waits for review are exactly the doubtful bodies; without any for a formula it is as its corrections made it. */
  lemma RoundMeans(world: World, round: nat, before: seq<Formula>, asked: bool, i: nat)
    requires CanRepair(world, round) && i < |before|
    ensures var (now, accepted) := RepairedBy(world, round, before, asked);
            var corrections := Asked(world, round);
            && |now| == |before| && accepted >= |TakenSet(world, before, corrections)|
            && (forall body :: (i, body) in Corrections(world, round, before).items <==> Doubtful(world, before, corrections, i, body))
            && ((forall body :: !Doubtful(world, before, corrections, i, body)) ==>
                  CorrectedTo(world, before, corrections, i, now[i]))
            && ((exists body :: Doubtful(world, before, corrections, i, body)) && !asked ==> now[i].status == Broken && now[i].final)
  {
    hide ReviewAll, RefuseAll, EquivalentIn, CorrectAll, Doubtful, CorrectedTo, TakenSet;
    var c, reviews := Corrections(world, round, before), ReviewsOf(world, round);
    CorrectionsMean(world, before, Asked(world, round), i);
    ReviewLength(c.items, c.formulas, reviews);
    if InItems(c.items, i) {
      var item :| item in c.items && item.0 == i;
      assert item == (i, item.1) && Doubtful(world, before, Asked(world, round), i, item.1);
    } else {
      UntouchedBy(c.items, c.formulas, reviews, i);
      assert forall body :: (i, body) in c.items ==> InItems(c.items, i);
    }
  }

  lemma ReviewLength(items: seq<(nat, string)>, formulas: seq<Formula>, reviews: seq<Review>)
    ensures |ReviewAll(items, formulas, reviews)| == |formulas|
  {
    RuleLength(items, formulas, reviews);
  }

  /** Correction k is the only one for formula i. */
  ghost predicate OnlyCorrection(corrections: seq<Correction>, k: nat, i: nat) {
    k < |corrections| && forall j :: 0 <= j < |corrections| ==> (corrections[j].formula == i <==> j == k)
  }

  /**
   The only correction for a formula that failed: within the guard it is what the next
   compile sees, it counts, and no reviewer is asked; beyond the guard exactly it goes to the
   reviewer; and if it is no single body, or one that failed already, it changes nothing.
   */
  lemma OneCorrection(world: World, round: nat, before: seq<Formula>, asked: bool, i: nat, k: nat)
    requires CanRepair(world, round) && i < |before| && OnlyCorrection(Asked(world, round), k, i)
    requires !before[i].final && !before[i].quotation && before[i].status != Broken
    ensures var (now, accepted) := RepairedBy(world, round, before, asked);
            var f, body, items := before[i], world.clean(Asked(world, round)[k].latex), Corrections(world, round, before).items;
            var within := Guard.WithinGuard(world.classes, f.original, body, world.licensed(LatestMessages(f.errors), f.original));
            && |now| == |before|
            && (if body == "" || world.delimited(body) || body == f.original || f.failing == Some(body) then
                  now[i] == f && forall b :: (i, b) !in items
                else if within then
                  && now[i].text == body && now[i].status == Repaired && !now[i].final && SameSubject(now[i], f)
                  && accepted > 0 && forall b :: (i, b) !in items
                else
                  && (forall b :: (i, b) in items <==> b == body)
                  && (!asked ==> now[i].status == Broken && now[i].final))
  {
    hide Guard.WithinGuard, LatestMessages, RepairedBy, Corrections, CanRepair, Doubtful, CorrectedTo, TakenSet;
    RoundMeans(world, round, before, asked, i);
    OnlyOne(world, before, Asked(world, round), i, k, RepairedBy(world, round, before, asked).0[i]);
    var f, body := before[i], world.clean(Asked(world, round)[k].latex);
    assert !Excluded(world, f, body) && !Guarded(world, f, body) ==> Doubtful(world, before, Asked(world, round), i, body);
  }

  lemma OnlyOne(world: World, before: seq<Formula>, corrections: seq<Correction>, i: nat, k: nat, now: Formula)
    requires i < |before| && Target(before[i]) && OnlyCorrection(corrections, k, i)
    ensures var f, body := before[i], world.clean(corrections[k].latex);
            && (forall b :: Doubtful(world, before, corrections, i, b) <==>
                            b == body && !Excluded(world, f, body) && !Guarded(world, f, body))
            && (CorrectedTo(world, before, corrections, i, now) ==>
                  if Excluded(world, f, body) || !Guarded(world, f, body) then now == f
                  else now == f.(text := body, status := Repaired) && |TakenSet(world, before, corrections)| > 0)
  {
    hide Excluded, Guarded;
    var body := world.clean(corrections[k].latex);
    assert forall b :: Proposes(world, corrections, i, b) <==> b == body by {
      assert Corrects(world, corrections, k, i, body);
    }
    if Excluded(world, before[i], body) || !Guarded(world, before[i], body) {
      assert NoneTaken(world, before, corrections, i);
    } else {
      assert Taken(world, before, corrections, k) && LastTaken(world, before, corrections, k, i);
      assert k in TakenSet(world, before, corrections);
    }
  }

  /** A formula the round did not ask about, or got no correction for, stays as it is. */
  lemma NoCorrection(world: World, round: nat, before: seq<Formula>, asked: bool, i: nat)
    requires CanRepair(world, round) && i < |before|
    requires before[i].final || before[i].quotation || before[i].status == Broken
             || forall k :: 0 <= k < |Asked(world, round)| ==> Asked(world, round)[k].formula != i
    ensures |RepairedBy(world, round, before, asked).0| == |before| && RepairedBy(world, round, before, asked).0[i] == before[i]
  {
    RoundMeans(world, round, before, asked, i);
    hide RepairedBy, CanRepair, Excluded, Guarded;
    assert NoneTaken(world, before, Asked(world, round), i);
  }

  // ----- the compiler's messages and verdicts -------------------------------------------------

  /** This round is the last one with errors. */
  ghost predicate LastWithErrors(errors: seq<Diagnosis>, round: nat) {
    && (exists k :: 0 <= k < |errors| && errors[k].round == round)
    && forall k :: 0 <= k < |errors| ==> errors[k].round <= round
  }

  lemma {:induction false} MessagesAre(errors: seq<Diagnosis>, more: seq<Diagnosis>, round: nat)
    ensures MessagesOf(errors + more, round) == MessagesOf(errors, round) + MessagesOf(more, round)
  {
    if errors == [] {
      assert errors + more == more;
    } else {
      assert (errors + more)[1..] == errors[1..] + more;
      MessagesAre(errors[1..], more, round);
    }
  }

  lemma {:induction false} LatestIsReached(errors: seq<Diagnosis>)
    requires errors != []
    ensures LastWithErrors(errors, LatestRound(errors))
  {
    if |errors| > 1 {
      var rest := errors[1..];
      LatestIsReached(rest);
      var k :| 0 <= k < |rest| && rest[k].round == LatestRound(rest);
      assert errors[k + 1].round == LatestRound(rest);
    }
  }

  lemma {:induction false} OldRound(errors: seq<Diagnosis>, round: nat)
    requires forall k :: 0 <= k < |errors| ==> errors[k].round != round
    ensures MessagesOf(errors, round) == []
  {
    if errors != [] {
      OldRound(errors[1..], round);
    }
  }

  /**
   The messages that license commands are the newest ones: one more error of the same or a
   later round is added at the end, and a later round leaves all earlier messages behind.
   */
  lemma LatestMessagesAre(errors: seq<Diagnosis>, d: Diagnosis)
    requires forall k :: 0 <= k < |errors| ==> errors[k].round <= d.round
    ensures LatestMessages([]) == []
    ensures (exists k :: 0 <= k < |errors| && errors[k].round == d.round) ==>
              LatestMessages(errors + [d]) == LatestMessages(errors) + [d.message]
    ensures (forall k :: 0 <= k < |errors| ==> errors[k].round < d.round) ==> LatestMessages(errors + [d]) == [d.message]
  {
    var all := errors + [d];
    LatestIsReached(all);
    assert all[|errors|].round == d.round && LatestRound(all) == d.round;
    MessagesAre(errors, [d], d.round);
    if k :| 0 <= k < |errors| && errors[k].round == d.round {
      LatestIsReached(errors);
      assert LatestRound(errors) == d.round;
    } else {
      OldRound(errors, d.round);
    }
  }

  /** A formula that was compiled and did not fail. */
  ghost predicate Passed(f: Formula, after: Formula) {
    after == f.(final := true)
  }

  /** A formula that failed: its recorded text is back, the body and the message are remembered. */
  ghost predicate FailedWith(f: Formula, after: Formula, why: FragmentFailure, round: nat) {
    && after.original == f.original && after.quotation == f.quotation
    && after.text == f.original && after.failing == Some(f.text)
    && after.errors == f.errors + [Diagnosis(round, why.kind, why.message, f.text)]
    && (if f.quotation then after.status == QuotationVerbatim && after.final else after.status == Plain && !after.final)
  }

  /**
   What a compile decides for every formula: one that is shown as it was recorded, or was
   refused, is not compiled; one that compiled is final; one that failed has its recorded
   text back, and is up for repair exactly if it is no quotation.
   */
  lemma VerdictsMean(before: seq<Formula>, after: seq<Formula>, positions: seq<nat>, failures: seq<FragmentFailure>, round: nat, i: nat)
    requires PositionsOf(before, positions) && JudgedAll(before, after, positions, failures, round) && i < |before|
    ensures |after| == |before| && (i in positions <==> before[i].status !in {Broken, QuotationVerbatim})
    ensures before[i].status in {Broken, QuotationVerbatim} ==> after[i] == before[i]
    ensures forall k :: 0 <= k < |positions| && positions[k] == i ==>
              if k in FailedIndices(failures) then
                exists why :: why in failures && why.index == k && FailedWith(before[i], after[i], why, round)
              else Passed(before[i], after[i])
    ensures forall k :: 0 <= k < |positions| && positions[k] == i ==>
              (Target(after[i]) <==> k in FailedIndices(failures) && !before[i].quotation)
  {
    hide FailureAt, FailedIndices;
    if i in positions {
      forall k | 0 <= k < |positions| && positions[k] == i
        ensures var why := FailureAt(failures, k);
                if k in FailedIndices(failures) then why.Some? && FailedWith(before[i], after[i], why.value, round)
                else Passed(before[i], after[i])
        ensures Target(after[i]) <==> k in FailedIndices(failures) && !before[i].quotation
      {
        assert after[positions[k]] == Judged(before[positions[k]], FailureAt(failures, k), round);
      }
    }
  }

  /** What is delivered at the end: an accepted body as it is, and otherwise the recorded text, without a verdict only if the compiler gave none. */
  lemma SettledMeans(f: Formula, infrastructure: bool)
    ensures f.final && f.status != Broken ==> Settled(f, infrastructure) == f
    ensures !(f.final && f.status != Broken) ==>
              var g := Settled(f, infrastructure);
              && g.text == f.original && g.original == f.original && g.quotation == f.quotation && g.errors == f.errors
              && g.status == (if !f.final && infrastructure then NotCompiled else Broken)
              && (g.status == Broken ==> g.final)
  {
  }

  /** Position k of round h was compiled with this text for formula i, and its compile did not fail it. */
  ghost predicate PassedAt(history: seq<Round>, h: nat, k: nat, i: nat, text: string) {
    && h < |history| && k < |history[h].positions| && k < |history[h].texts|
    && history[h].positions[k] == i && history[h].texts[k] == text && k in history[h].result.accepted
  }

  /** A text was accepted in an attempt exactly if some round compiled this very text for this very formula and accepted it. */
  lemma AcceptedMeans(history: seq<Round>, i: nat, text: string)
    ensures AcceptedIn(history, i, text) <==> exists h, k :: PassedAt(history, h, k, i, text)
  {
    if AcceptedIn(history, i, text) {
      var h: nat :| h < |history| && Accepts(history[h], i, text);
      var k: nat :| AcceptsAt(history[h], k, i, text);
      assert PassedAt(history, h, k, i, text);
    }
    if h: nat, k: nat :| PassedAt(history, h, k, i, text) {
      assert AcceptsAt(history[h], k, i, text);
      assert Accepts(history[h], i, text);
    }
  }

  /** How a route's formulas are collected: the recorded text, or a quotation with its macros expanded, without verdict or errors. */
  lemma FreshMeans(original: string, quotation: bool, text: string, status: Status, failing: Option<string>)
    ensures Fresh(Formula(original, quotation, text, status, failing, false, [])) <==>
            (status == Plain && text == original) || (status == QuotationExpanded && quotation)
    ensures Typeset(Formula(original, quotation, text, status, failing, false, [])) <==> status !in {Broken, QuotationVerbatim}
  {
  }
}
