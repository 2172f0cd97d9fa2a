/**
 The one way a body no compile has seen is delivered, shown to happen: whatever the
 reviewer says, if it first refuses and in its last word accepts, there is a route on
 which its word is the last.
 */
module TypesetStale {
  import opened Wrappers
  import opened FormulaDocument
  import opened FormulaCompile
  import opened TypesetRoute
  import Guard = TypesetGuard

  /** An engine that fails every document with a formula in it, and cannot say where. */
  const FAILING := Engine([], (n: nat, lines: seq<string>) =>
                            if |lines| > 1 then Failed(CompileFailed, None, []) else CompileResult.Success, (t: string) => false)

  /** One failing compile, one correction beyond the guard, the given review of it, and then no compiler. */
  function Losing(classes: Guard.Classes, body: string, reviews: seq<Review>): World {
    World((round: nat) => if round == 0 then Some(FAILING) else None,
          Some(Runtime(true, true, (round: nat) => Answered([Correction(0, body)]), (round: nat) => Answered(reviews))),
          (text: string) => text, (text: string) => false, (messages: seq<string>, text: string) => {}, classes)
  }

  function Recorded(original: string): Formula {
    Formula(original, false, original, Plain, None, false, [])
  }

  lemma OnlyFirst(indices: seq<nat>)
    requires Increasing(indices) && InRange(indices, 1) && indices != []
    ensures indices == [0]
  {
    IncreasingSize(indices);
    assert indices[0] in SetOf(indices);
    assert SetOf(indices) == {0};
  }

  lemma FailingIsFaithful(original: string)
    ensures Faithful(FAILING, [original], {0})
  {
    forall number: nat, indices: seq<nat> | Batch(FAILING, [original], indices)
      ensures FaithfulOn(FAILING, [original], {0}, number, indices)
    {
      if indices == [] {
        assert Texts([original], indices) == [];
      } else {
        OnlyFirst(indices);
        assert Texts([original], indices) == [original];
        assert |Block(original)| >= 4;
        assert |DocumentLines([], [original])| > 1;
      }
    }
  }

  /** The first compile fails the formula. */
  lemma FirstFails(world: World, original: string, after: seq<Formula>, r: Round)
    requires world.engine(0) == Some(FAILING) && RoundOk(r) && CompiledTo(world, 0, [Recorded(original)], after, r)
    ensures |after| == 1 && 0 !in r.result.accepted
    ensures after[0].original == original && after[0].failing == Some(original) && Target(after[0])
    ensures |r.texts| == 1
  {
    hide CompilesOk, Verified, Faithful;
    assert r.positions == [0] by {
      var f := [Recorded(original)];
      assert Typeset(f[0]);
      assert 0 in r.positions;
      OnlyFirst(r.positions);
    }
    assert r.texts == [original];
    FailingIsFaithful(original);
    assert CompiledFailures(r.result.failures) == SafeFragments(FAILING, [original]) * {0};
    assert 0 in CompiledFailures(r.result.failures) by {
      SafeIsFirst(original);
    }
    assert 0 in FailedIndices(r.result.failures);
    assert FailureAt(r.result.failures, 0).Some?;
  }

  lemma SafeIsFirst(original: string)
    ensures 0 in SafeFragments(FAILING, [original])
  {
  }

  lemma CompilerDoesNotFailFirst(world: World, original: string)
    requires world.engine(0) == Some(FAILING)
    ensures !CompilerFailed(world, 0, [Recorded(original)])
  {
    hide Faithful;
    var f := [Recorded(original)];
    assert Typeset(f[0]);
    FailingIsFaithful(original);
    forall positions | PositionsOf(f, positions)
      ensures TextsOf(f, positions) == [original]
    {
      assert 0 in positions;
      OnlyFirst(positions);
    }
  }

  /** The one correction goes beyond the guard and is reviewed. */
  lemma CorrectionIsReviewed(classes: Guard.Classes, original: string, body: string, reviews: seq<Review>, before: seq<Formula>)
    requires body != [] && body != original && !Guard.WithinGuard(classes, original, body, {})
    requires |before| == 1 && before[0].original == original && before[0].failing == Some(original) && Target(before[0])
    ensures var world := Losing(classes, body, reviews);
            CanRepair(world, 1) && Corrections(world, 1, before) == Corrected(before, 0, [(0, body)])
  {
    var world := Losing(classes, body, reviews);
    hide Guard.WithinGuard;
    assert [Correction(0, body)][..0] == [];
    assert FateOf(world, before[0], body).SentToReview?;
    assert CorrectAll(world, before, []) == Corrected(before, 0, []);
  }

  lemma CompilersWereThere(world: World, start: seq<Formula>, t: Trace)
    requires Traced(world, start, t)
    ensures forall r: nat :: r < |t.history| ==> world.engine(r).Some?
  {
    hide RoundOk, AllKept, RepairedTo, JudgedAll, PositionsOf;
    forall r: nat | r < |t.history|
      ensures world.engine(r).Some?
    {
      assert CompiledTo(world, r, t.heads[r], t.judged[r], t.history[r]);
    }
  }

  /** Bodies to review exist for every classification: two different digits. */
  lemma DigitsDiffer(classes: Guard.Classes)
    ensures !Guard.WithinGuard(classes, "1", "2", {})
  {
    ReadsDigit('1');
    ReadsDigit('2');
    if Guard.WithinGuard(classes, "1", "2", {}) {
      Guard.ShapesAreKept(classes, "1", "2", {});
    }
  }

  lemma ReadsDigit(c: char)
    requires '0' <= c <= '9'
    ensures Guard.ProfileOf([c]).tokens == [[c]]
  {
    var none: string := [];
    assert [c][1..] == none && Guard.Lex(none) == [];
    assert Guard.Lex([c]) == [Guard.Alphanumeric(c)];
    assert [Guard.Alphanumeric(c)][..0] == [];
    assert Guard.ReadAll(Guard.EMPTY, []) == Guard.EMPTY;
    assert Guard.Read(Guard.EMPTY, Guard.Alphanumeric(c)).tokens == [] + [[c]] == [[c]];
  }

  /** There is exactly one compile, and the review after it is the last thing that happens. */
  lemma OneRound(classes: Guard.Classes, original: string, body: string, reviews: seq<Review>, t: Trace, failed: bool)
    requires Stale(VerdictsFor(reviews, 0)) && body != [] && body != original && !Guard.WithinGuard(classes, original, body, {})
    requires var world := Losing(classes, body, reviews);
             && Traced(world, [Recorded(original)], t) && AllAsked(world, t)
             && (failed ==> |t.heads| == |t.history| + 1 && CompilerFailed(world, |t.history|, t.heads[|t.history|]))
             && (!failed ==> exists ended :: Ended(world, t, ended))
    ensures |t.history| == 1
    ensures RoundOk(t.history[0]) && AllKept(Losing(classes, body, reviews), [Recorded(original)], t.judged[0])
    ensures CompiledTo(Losing(classes, body, reviews), 0, [Recorded(original)], t.judged[0], t.history[0])
  {
    hide RoundOk, AllKept, Guard.WithinGuard, VerdictsFor, RepairedTo, CompilerFailed, AllAsked;
    var world := Losing(classes, body, reviews);
    var start := [Recorded(original)];
    CompilersWereThere(world, start, t);
    assert world.engine(1).None?;
    assert Typeset(start[0]);
    CompilerDoesNotFailFirst(world, original);
  }

  /** And in it the reviewed body of the formula is left standing. */
  lemma StaysStale(classes: Guard.Classes, original: string, body: string, reviews: seq<Review>, t: Trace, failed: bool)
    requires Stale(VerdictsFor(reviews, 0)) && body != [] && body != original && !Guard.WithinGuard(classes, original, body, {})
    requires var world := Losing(classes, body, reviews);
             && Traced(world, [Recorded(original)], t) && AllAsked(world, t)
             && (failed ==> |t.heads| == |t.history| + 1 && CompilerFailed(world, |t.history|, t.heads[|t.history|]))
             && (!failed ==> exists ended :: Ended(world, t, ended))
    ensures failed && WentStale(Losing(classes, body, reviews), t, 0)
    ensures LastReviewed(Losing(classes, body, reviews), t, 0) == body && !AcceptedIn(t.history, 0, body)
  {
    hide RoundOk, AllKept, Guard.WithinGuard, VerdictsFor, CompilerFailed, CompiledTo, CorrectAll, RepairedBy;
    var world := Losing(classes, body, reviews);
    var start := [Recorded(original)];
    OneRound(classes, original, body, reviews, t, failed);
    var before := t.judged[0];
    FirstFails(world, original, before, t.history[0]);
    CorrectionIsReviewed(classes, original, body, reviews, before);
    assert Target(before[0]);
    assert |t.asks| == 1;
    assert t.asks[0] == CanReview(world, 1);
    assert StaleAt(world, 1, before, true, 0);
    RepairMeans(world, start, 1, before, true, 0);
    assert RepairedTo(world, 0 + 1, t.judged[0], t.asks[0], t.heads[0 + 1]);
    assert Typeset(t.heads[1][0]);
  }

  /**
   For every list of verdicts that is stale on a formula there is a route that delivers a
   body no compile of the attempt has seen: the one that was refused and then accepted.
   */
  method StaleIsDelivered(classes: Guard.Classes, original: string, body: string, reviews: seq<Review>) returns (route: RouteTypesetter)
    requires Stale(VerdictsFor(reviews, 0))
    requires body != [] && body != original && !Guard.WithinGuard(classes, original, body, {})
    ensures route.world == Losing(classes, body, reviews) && route.layer == InfrastructureError
    ensures |route.formulas| == 1 && route.formulas[0].text == body && route.formulas[0].status.RepairedReviewed?
    ensures NotCompiledYet(route.trace.history, Recorded(original), 0, route.formulas[0])
  {
    hide Traced, AllAsked, CompilerFailed, Ended, Delivers, LastCompileHolds, AcceptedIn, VerdictsFor, Guard.WithinGuard, WentStale,
         LastReviewed, RoundOk, AllKept;
    var budget := new TypesetCallBudget(None, 0, 0, n => true, n => true);
    var world := Losing(classes, body, reviews);
    route := new RouteTypesetter(world, budget, [Recorded(original)]);
    route.TypesetRoute();
    StaysStale(classes, original, body, reviews, route.trace, route.layer == InfrastructureError);
  }
}
