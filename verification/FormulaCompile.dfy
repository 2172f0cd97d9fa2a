/**
 `compile_fragments`: compile many formulas as one document, drop what fails, bisect
 what the log does not locate, and compile again until the rest is accepted.
 The engine is an oracle that may answer anything, and differently every time.
 */
module FormulaCompile {
  import opened Wrappers
  import opened FormulaDocument

  /** The engine's answer to the k-th document, and the static check for unsafe commands. */
  datatype Engine = Engine(preamble: seq<string>, run: (nat, seq<string>) -> CompileResult, unsafe: string -> bool)

  datatype Purpose = Whole | Bisection

  datatype FragmentCompile = FragmentCompile(number: nat, purpose: Purpose, fragments: seq<nat>, result: CompileResult)

  datatype FragmentFailure = FragmentFailure(index: nat, kind: FailureKind, message: string, line: Option<nat>, compile: Option<nat>)

  /** Why a run stopped without a verdict; both name the last compile. */
  datatype Infrastructure = EngineFailed(compile: nat) | NotAttributed(compile: nat)

  datatype FragmentCompileResult = FragmentCompileResult(
    failures: seq<FragmentFailure>,
    compiles: seq<FragmentCompile>,
    accepted: seq<nat>,
    infrastructure: Option<Infrastructure>)

  // ----- batches of fragments --------------------------------------------------------

  predicate Increasing(s: seq<nat>) {
    forall i, j :: 0 <= i < j < |s| ==> s[i] < s[j]
  }

  function SetOf(s: seq<nat>): set<nat> {
    set x | x in s
  }

  lemma {:induction false} IncreasingSize(s: seq<nat>)
    requires Increasing(s)
    ensures |SetOf(s)| == |s|
  {
    if s != [] {
      var front := s[..|s| - 1];
      IncreasingSize(front);
      assert SetOf(s) == SetOf(front) + {s[|s| - 1]};
    }
  }

  predicate InRange(indices: seq<nat>, n: nat) {
    forall k :: 0 <= k < |indices| ==> indices[k] < n
  }

  /** Safe fragments in ascending order: what may be compiled together. */
  predicate Batch(engine: Engine, fragments: seq<string>, indices: seq<nat>) {
    && Increasing(indices) && InRange(indices, |fragments|)
    && forall k :: 0 <= k < |indices| ==> !engine.unsafe(fragments[indices[k]])
  }

  function Texts(fragments: seq<string>, indices: seq<nat>): (t: seq<string>)
    requires InRange(indices, |fragments|)
    ensures |t| == |indices|
  {
    seq(|indices|, k requires 0 <= k < |indices| => fragments[indices[k]])
  }

  function Answer(engine: Engine, fragments: seq<string>, number: nat, indices: seq<nat>): CompileResult
    requires InRange(indices, |fragments|)
  {
    engine.run(number, DocumentLines(engine.preamble, Texts(fragments, indices)))
  }

  /** The located failures of a document, by position in it. */
  function Findings(engine: Engine, fragments: seq<string>, number: nat, indices: seq<nat>): (found: seq<LocatedFailure>)
    requires InRange(indices, |fragments|)
    ensures forall k :: 0 <= k < |found| ==> found[k].position < |indices|
    ensures found != [] ==> Answer(engine, fragments, number, indices).Content()
  {
    var regions := Regions(|engine.preamble|, Texts(fragments, indices));
    var result := Answer(engine, fragments, number, indices);
    LocatedIsExact(result, regions);
    Located(result, regions)
  }

  /** The same failures, by index into the caller's fragments. */
  function Translated(found: seq<LocatedFailure>, indices: seq<nat>): (t: seq<LocatedFailure>)
    requires forall k :: 0 <= k < |found| ==> found[k].position < |indices|
    ensures |t| == |found|
    ensures forall k :: 0 <= k < |found| ==> t[k] == found[k].(position := indices[found[k].position])
  {
    seq(|found|, k requires 0 <= k < |found| => found[k].(position := indices[found[k].position]))
  }

  function Without(s: seq<nat>, dropped: set<nat>): (r: seq<nat>)
    ensures forall x :: x in r <==> x in s && x !in dropped
    ensures |r| <= |s| && ((exists x :: x in s && x in dropped) ==> |r| < |s|)
  {
    if s == [] then []
    else (if s[0] in dropped then [] else [s[0]]) + Without(s[1..], dropped)
  }

  lemma {:induction false} WithoutIncreasing(s: seq<nat>, dropped: set<nat>)
    requires Increasing(s)
    ensures Increasing(Without(s, dropped))
  {
    if s != [] {
      assert Increasing(s[1..]);
      WithoutIncreasing(s[1..], dropped);
      Prepended(s[0], Without(s[1..], dropped), s[1..]);
    }
  }

  lemma Prepended(x: nat, kept: seq<nat>, rest: seq<nat>)
    requires Increasing(kept) && (forall y :: y in kept ==> y in rest) && forall k :: 0 <= k < |rest| ==> x < rest[k]
    ensures Increasing([x] + kept)
  {
    assert forall k :: 0 <= k < |kept| ==> kept[k] in rest;
  }

  // ----- the bound --------------------------------------------------------------------

  /** The ceiling of the base-2 logarithm. */
  function LogCeil(n: nat): nat {
    if n <= 1 then 0 else 1 + LogCeil((n + 1) / 2)
  }

  function Power2(k: nat): nat {
    if k == 0 then 1 else 2 * Power2(k - 1)
  }

  /** LogCeil(n) is the least k with n <= 2^k. */
  lemma {:induction false} LogCeilIsExact(n: nat, k: nat)
    ensures n <= Power2(LogCeil(n))
    ensures k < LogCeil(n) ==> Power2(k) < n
    decreases n
  {
    if n > 1 {
      LogCeilIsExact((n + 1) / 2, if k > 0 then k - 1 else 0);
    }
  }

  lemma {:induction false} LogCeilMonotone(m: nat, n: nat)
    requires m <= n
    ensures LogCeil(m) <= LogCeil(n)
    decreases n
  {
    if m > 1 {
      LogCeilMonotone((m + 1) / 2, (n + 1) / 2);
    }
  }

  // ----- what the recorded evidence says ------------------------------------------------

  ghost predicate CompileOk(engine: Engine, fragments: seq<string>, c: FragmentCompile) {
    && Batch(engine, fragments, c.fragments)
    && c.result == Answer(engine, fragments, c.number, c.fragments)
  }

  /** Every compile is numbered in order, covers safe fragments only and records the engine's answer. */
  ghost predicate CompilesOk(engine: Engine, fragments: seq<string>, compiles: seq<FragmentCompile>) {
    forall k :: 0 <= k < |compiles| ==> compiles[k].number == k + 1 && CompileOk(engine, fragments, compiles[k])
  }

  /** The compile named by a failure failed on a document with this fragment in it, and says so. */
  ghost predicate Blames(engine: Engine, fragments: seq<string>, c: FragmentCompile, index: nat, kind: FailureKind)
    requires CompileOk(engine, fragments, c)
  {
    var found := Findings(engine, fragments, c.number, c.fragments);
    && c.result.Content()
    && match kind
       case Unattributed => c.fragments == [index] && found == []
       case UnsafeNotCompiled => false
       case _ => exists k :: 0 <= k < |found| && c.fragments[found[k].position] == index && found[k].kind == kind
  }

  ghost predicate FailureOk(engine: Engine, fragments: seq<string>, compiles: seq<FragmentCompile>, f: FragmentFailure)
    requires CompilesOk(engine, fragments, compiles)
  {
    && f.index < |fragments|
    && (if f.kind.UnsafeNotCompiled? then engine.unsafe(fragments[f.index]) && f.compile.None?
        else
          && !engine.unsafe(fragments[f.index])
          && f.compile.Some? && 0 < f.compile.value <= |compiles|
          && Blames(engine, fragments, compiles[f.compile.value - 1], f.index, f.kind))
  }

  ghost predicate FailuresOk(engine: Engine, fragments: seq<string>, compiles: seq<FragmentCompile>, failures: map<nat, FragmentFailure>)
    requires CompilesOk(engine, fragments, compiles)
  {
    forall i :: i in failures ==> failures[i].index == i && FailureOk(engine, fragments, compiles, failures[i])
  }

  lemma FailuresStay(engine: Engine, fragments: seq<string>, a: seq<FragmentCompile>, b: seq<FragmentCompile>,
                     failures: map<nat, FragmentFailure>)
    requires a <= b && CompilesOk(engine, fragments, b)
    requires CompilesOk(engine, fragments, a) && FailuresOk(engine, fragments, a, failures)
    ensures FailuresOk(engine, fragments, b, failures)
  {
    hide Blames, CompileOk;
    forall i | i in failures
      ensures FailureOk(engine, fragments, b, failures[i])
    {
      assert FailureOk(engine, fragments, a, failures[i]);
    }
  }

  // ----- a faithful engine ---------------------------------------------------------------

  predicate Touches(indices: seq<nat>, bad: set<nat>) {
    exists i :: i in indices && i in bad
  }

  ghost predicate FaithfulOn(engine: Engine, fragments: seq<string>, bad: set<nat>, number: nat, indices: seq<nat>)
    requires InRange(indices, |fragments|)
  {
    var result := Answer(engine, fragments, number, indices);
    var found := Findings(engine, fragments, number, indices);
    && (result.Failed? <==> Touches(indices, bad))
    && (result.Failed? ==> result.Content())
    && forall k :: 0 <= k < |found| ==> indices[found[k].position] in bad
  }

  /** A document fails exactly when it holds a bad fragment, and only bad fragments are named. */
  ghost predicate Faithful(engine: Engine, fragments: seq<string>, bad: set<nat>) {
    forall number: nat, indices: seq<nat> | Batch(engine, fragments, indices) :: FaithfulOn(engine, fragments, bad, number, indices)
  }

  // ----- the loops ------------------------------------------------------------------------

  ghost predicate Attributed(engine: Engine, fragments: seq<string>, compiles: seq<FragmentCompile>, item: LocatedFailure, number: nat)
    requires CompilesOk(engine, fragments, compiles)
  {
    && item.position < |fragments| && !engine.unsafe(fragments[item.position]) && !item.kind.UnsafeNotCompiled?
    && 0 < number <= |compiles| && Blames(engine, fragments, compiles[number - 1], item.position, item.kind)
  }

  lemma FindingsBlame(engine: Engine, fragments: seq<string>, c: FragmentCompile, k: nat)
    requires CompileOk(engine, fragments, c)
    requires k < |Findings(engine, fragments, c.number, c.fragments)|
    ensures var item := Translated(Findings(engine, fragments, c.number, c.fragments), c.fragments)[k];
            item.position in c.fragments && !item.kind.UnsafeNotCompiled? && Blames(engine, fragments, c, item.position, item.kind)
  {
    var found := Findings(engine, fragments, c.number, c.fragments);
    LocatedIsExact(c.result, Regions(|engine.preamble|, Texts(fragments, c.fragments)));
    assert c.fragments[found[k].position] == Translated(found, c.fragments)[k].position;
  }

  /** Either half of a list costs at least one round less. */
  lemma HalvingCost(n: nat)
    requires n > 1
    ensures 1 + LogCeil(n / 2) <= LogCeil(n) && 1 + LogCeil(n - n / 2) <= LogCeil(n)
    ensures LogCeil(1) == 0
  {
    LogCeilMonotone(n / 2, (n + 1) / 2);
  }

  lemma NothingTouched()
    ensures forall bad :: !Touches([], bad)
  {
  }

  lemma TouchesOne(i: nat)
    ensures forall bad :: Touches([i], bad) <==> i in bad
  {
    assert i in [i];
  }

  lemma CompiledAlone(engine: Engine, fragments: seq<string>, compiles: seq<FragmentCompile>)
    requires CompilesOk(engine, fragments, compiles) && compiles != []
    ensures var c := compiles[|compiles| - 1];
            c.number == |compiles| && CompileOk(engine, fragments, c) && InRange(c.fragments, |fragments|)
  {
  }

  lemma AnswerRecorded(engine: Engine, fragments: seq<string>, number: nat, purpose: Purpose, indices: seq<nat>, result: CompileResult)
    requires Batch(engine, fragments, indices)
    requires result == engine.run(number, DocumentLines(engine.preamble, Texts(fragments, indices)))
    ensures result == Answer(engine, fragments, number, indices)
    ensures CompileOk(engine, fragments, FragmentCompile(number, purpose, indices, result))
  {
  }

  lemma FindingsLocated(engine: Engine, fragments: seq<string>, number: nat, indices: seq<nat>)
    requires InRange(indices, |fragments|)
    ensures Findings(engine, fragments, number, indices) ==
            Located(Answer(engine, fragments, number, indices), Regions(|engine.preamble|, Texts(fragments, indices)))
  {
  }

  lemma SafeMembers(engine: Engine, fragments: seq<string>, indices: seq<nat>)
    requires Batch(engine, fragments, indices)
    ensures InRange(indices, |fragments|)
    ensures forall i :: i in indices ==> i < |fragments| && !engine.unsafe(fragments[i])
  {
  }

  lemma HalvesAreBatches(engine: Engine, fragments: seq<string>, items: seq<nat>, k: nat)
    requires Batch(engine, fragments, items) && k <= |items|
    ensures Batch(engine, fragments, items[..k]) && Batch(engine, fragments, items[k..])
    ensures forall bad :: Touches(items, bad) <==> Touches(items[..k], bad) || Touches(items[k..], bad)
  {
    assert items == items[..k] + items[k..];
  }

  lemma AloneBlames(engine: Engine, fragments: seq<string>, c: FragmentCompile, index: nat)
    requires CompileOk(engine, fragments, c) && c.fragments == [index] && c.result.Content()
    requires Findings(engine, fragments, c.number, c.fragments) == []
    ensures Blames(engine, fragments, c, index, Unattributed)
  {
  }

  /** What faithfulness says about one answer, whatever the set of bad fragments. */
  lemma FaithfulAnswer(engine: Engine, fragments: seq<string>, number: nat, indices: seq<nat>)
    requires Batch(engine, fragments, indices)
    ensures var result := Answer(engine, fragments, number, indices);
            forall bad | Faithful(engine, fragments, bad) ::
              && (result.Failed? <==> Touches(indices, bad))
              && (result.Failed? ==> result.Content())
              && forall k :: 0 <= k < |Findings(engine, fragments, number, indices)| ==>
                   Translated(Findings(engine, fragments, number, indices), indices)[k].position in bad
  {
    hide Answer, Findings, Touches;
    forall bad | Faithful(engine, fragments, bad)
      ensures FaithfulOn(engine, fragments, bad, number, indices)
    {
    }
  }

  /** The last compile failed for a reason that is not the document's. */
  predicate EngineGaveUp(compiles: seq<FragmentCompile>) {
    |compiles| > 0 && compiles[|compiles| - 1].result.Failed? && !compiles[|compiles| - 1].result.Content()
  }

  function Positions(found: seq<(LocatedFailure, nat)>): set<nat> {
    set item | item in found :: item.0.position
  }

  lemma AttributedStay(engine: Engine, fragments: seq<string>, a: seq<FragmentCompile>, b: seq<FragmentCompile>,
                       found: seq<(LocatedFailure, nat)>)
    requires a <= b && CompilesOk(engine, fragments, a) && CompilesOk(engine, fragments, b)
    requires forall k :: 0 <= k < |found| ==> Attributed(engine, fragments, a, found[k].0, found[k].1)
    ensures forall k :: 0 <= k < |found| ==> Attributed(engine, fragments, b, found[k].0, found[k].1)
  {
    hide Blames;
  }

  /** The document has to be bisected: nothing was located, or it halted at an error that was not. */
  ghost predicate Unlocated(result: CompileResult, located: seq<LocatedFailure>) {
    || located == []
    || (result.Failed? && result.code == CompileFailed && forall k :: 0 <= k < |located| ==> located[k].kind != TexError)
  }

  predicate TexErrorIn(located: seq<LocatedFailure>) {
    exists item :: item in located && item.kind.TexError?
  }

  lemma WithoutBatch(engine: Engine, fragments: seq<string>, s: seq<nat>, dropped: set<nat>)
    requires Batch(engine, fragments, s)
    ensures Batch(engine, fragments, Without(s, dropped))
  {
    WithoutIncreasing(s, dropped);
    var r := Without(s, dropped);
    assert forall k :: 0 <= k < |r| ==> r[k] in s;
  }

  lemma SameTouch(a: seq<nat>, b: seq<nat>)
    requires forall x :: x in a <==> x in b
    ensures forall bad :: Touches(a, bad) <==> Touches(b, bad)
  {
  }

  function SafeFragments(engine: Engine, fragments: seq<string>): set<nat> {
    set i | 0 <= i < |fragments| && !engine.unsafe(fragments[i])
  }

  function UnsafeFragments(engine: Engine, fragments: seq<string>): set<nat> {
    set i | 0 <= i < |fragments| && engine.unsafe(fragments[i])
  }

  /** The last compile is the whole document of exactly these fragments, and it succeeded. */
  predicate Verified(compiles: seq<FragmentCompile>, accepted: seq<nat>) {
    && |compiles| > 0
    && var last := compiles[|compiles| - 1];
    last.purpose.Whole? && last.fragments == accepted && last.result.Success?
  }

  /** Whatever a whole-document compile names has failed. */
  ghost predicate NamedHaveFailed(engine: Engine, fragments: seq<string>, compiles: seq<FragmentCompile>, failed: set<nat>)
    requires CompilesOk(engine, fragments, compiles)
  {
    forall k :: 0 <= k < |compiles| && compiles[k].purpose.Whole? ==> NamedIn(engine, fragments, compiles[k]) <= failed
  }

  function NamedIn(engine: Engine, fragments: seq<string>, c: FragmentCompile): set<nat>
    requires InRange(c.fragments, |fragments|)
  {
    set item | item in Findings(engine, fragments, c.number, c.fragments) :: c.fragments[item.position]
  }

  /** Why the run stopped is what its last compile shows. */
  predicate Stopped(compiles: seq<FragmentCompile>, stop: Infrastructure) {
    if stop.EngineFailed? then EngineGaveUp(compiles)
    else |compiles| > 0 && compiles[|compiles| - 1].result.Success?
  }

  /**
   The two ways a run stops: the last compile failed for a reason that is no fault of the
   fragments, or a whole document failed, nothing in its log was located, and the bisection
   ended in a compile that succeeded.
   */
  lemma StoppedMeans(compiles: seq<FragmentCompile>, stop: Infrastructure)
    ensures Stopped(compiles, stop) <==>
            && compiles != []
            && var last := compiles[|compiles| - 1].result;
            if stop.EngineFailed? then last.Failed? && last.code == OtherFailure else last == CompileResult.Success
  {
  }

  /** One more document, its bisections, and the failures recorded for what it names. */
  lemma NamedStep(engine: Engine, fragments: seq<string>, before: seq<FragmentCompile>, after: seq<FragmentCompile>,
                  failed: set<nat>, failed': set<nat>)
    requires CompilesOk(engine, fragments, before) && CompilesOk(engine, fragments, after)
    requires NamedHaveFailed(engine, fragments, before, failed) && failed <= failed'
    requires before <= after && |before| < |after|
    requires forall k :: |before| < k < |after| ==> after[k].purpose.Bisection?
    requires NamedIn(engine, fragments, after[|before|]) <= failed'
    ensures NamedHaveFailed(engine, fragments, after, failed')
  {
    hide NamedIn;
  }

  lemma SuccessNamesNone(engine: Engine, fragments: seq<string>, c: FragmentCompile)
    requires CompileOk(engine, fragments, c) && c.result.Success?
    ensures NamedIn(engine, fragments, c) == {}
  {
  }

  lemma NamedPositions(engine: Engine, fragments: seq<string>, c: FragmentCompile, located: seq<LocatedFailure>,
                       found: seq<(LocatedFailure, nat)>, number: nat)
    requires InRange(c.fragments, |fragments|)
    requires located == Translated(Findings(engine, fragments, c.number, c.fragments), c.fragments)
    requires |located| <= |found| && forall k :: 0 <= k < |located| ==> found[k] == (located[k], number)
    ensures NamedIn(engine, fragments, c) <= Positions(found)
  {
    var findings := Findings(engine, fragments, c.number, c.fragments);
    forall i | i in NamedIn(engine, fragments, c)
      ensures i in Positions(found)
    {
      var k :| 0 <= k < |findings| && c.fragments[findings[k].position] == i;
      assert found[k] in found && found[k].0.position == i;
    }
  }

  lemma NoneNamed(engine: Engine, fragments: seq<string>)
    ensures CompilesOk(engine, fragments, []) && forall failed :: NamedHaveFailed(engine, fragments, [], failed)
  {
  }

  lemma LastCompileOk(engine: Engine, fragments: seq<string>, compiles: seq<FragmentCompile>, k: nat)
    requires CompilesOk(engine, fragments, compiles) && k < |compiles|
    ensures compiles[k].number == k + 1 && CompileOk(engine, fragments, compiles[k]) && InRange(compiles[k].fragments, |fragments|)
  {
  }

  lemma EmptyBatch(engine: Engine, fragments: seq<string>)
    ensures Batch(engine, fragments, [])
  {
  }

  lemma OneMoreRound(gone: nat, n: nat, cost: nat)
    requires gone < n
    ensures gone * cost + cost <= n * cost
  {
    assert n * cost == (gone + 1) * cost + (n - gone - 1) * cost;
  }

  lemma MoreGone(a: nat, b: nat, cost: nat)
    requires a < b
    ensures a * cost + cost <= b * cost
  {
    OneMoreRound(a, b, cost);
  }

  /** When no bad fragment is left, what was dropped is what was bad. */
  lemma Leftover(initial: seq<nat>, active: seq<nat>)
    ensures forall bad :: !Touches(active, bad) && SetOf(initial) - SetOf(active) <= bad ==>
              SetOf(initial) - SetOf(active) == SetOf(initial) * bad
  {
  }

  /** The closures of `compile_fragments` and the two lists they share. */
  class FragmentCompiler {
    const engine: Engine
    const fragments: seq<string>
    var compiles: seq<FragmentCompile>
    var failures: map<nat, FragmentFailure>

    constructor (engine: Engine, fragments: seq<string>)
      ensures this.engine == engine && this.fragments == fragments && compiles == [] && failures == map[]
    {
      this.engine, this.fragments, compiles, failures := engine, fragments, [], map[];
    }

    ghost predicate Valid()
      reads this
    {
      CompilesOk(engine, fragments, compiles) && FailuresOk(engine, fragments, compiles, failures)
    }

    method Run(indices: seq<nat>, purpose: Purpose) returns (result: CompileResult, located: seq<LocatedFailure>)
      requires CompilesOk(engine, fragments, compiles) && Batch(engine, fragments, indices)
      modifies this`compiles
      ensures CompilesOk(engine, fragments, compiles)
      ensures compiles == old(compiles) + [FragmentCompile(|old(compiles)| + 1, purpose, indices, result)]
      ensures result == Answer(engine, fragments, |compiles|, indices)
      ensures located == Translated(Findings(engine, fragments, |compiles|, indices), indices)
      ensures forall k :: 0 <= k < |located| ==>
                located[k].position in indices
                && Attributed(engine, fragments, compiles, located[k], |compiles|)
    {
      hide Blames, Batch, CompileOk, Findings, Answer, DocumentLines, Regions;
      var number := |compiles| + 1;
      SafeMembers(engine, fragments, indices);
      var lines, regions := Document(engine.preamble, Texts(fragments, indices));
      result := engine.run(number, lines);
      compiles := compiles + [FragmentCompile(number, purpose, indices, result)];
      AnswerRecorded(engine, fragments, number, purpose, indices, result);
      var found := Locate(result, regions);
      FindingsLocated(engine, fragments, number, indices);
      located := Translated(found, indices);
      forall k | 0 <= k < |located|
        ensures Attributed(engine, fragments, compiles, located[k], |compiles|)
      {
        FindingsBlame(engine, fragments, compiles[number - 1], k);
      }
    }

    /** A finding that is already recorded stays as it is. */
    method Record(item: LocatedFailure, number: nat)
      requires Valid() && Attributed(engine, fragments, compiles, item, number)
      modifies this`failures
      ensures Valid() && failures.Keys == old(failures).Keys + {item.position}
      ensures forall i :: i in old(failures) ==> failures[i] == old(failures)[i]
    {
      hide Blames, CompilesOk;
      if item.position !in failures {
        failures := failures[item.position := FragmentFailure(item.position, item.kind, item.message,
                                                              if item.line == 0 then None else Some(item.line), Some(number))];
      }
    }

    /**
     Halve the candidates until one is left, then compile it alone. With a faithful
     engine this finds a bad candidate whenever there is one.
     */
    method Bisect(candidates: seq<nat>) returns (culprit: Option<(LocatedFailure, nat)>, failed: bool)
      requires CompilesOk(engine, fragments, compiles) && Batch(engine, fragments, candidates)
      modifies this`compiles
      ensures CompilesOk(engine, fragments, compiles) && old(compiles) <= compiles
      ensures |compiles| <= |old(compiles)| + if candidates == [] then 0 else LogCeil(|candidates|) + 1
      ensures forall k :: |old(compiles)| <= k < |compiles| ==> compiles[k].purpose.Bisection?
      ensures failed ==> culprit.None? && EngineGaveUp(compiles)
      ensures culprit.Some? ==>
                culprit.value.0.position in candidates
                && Attributed(engine, fragments, compiles, culprit.value.0, culprit.value.1)
      ensures !failed && culprit.None? && candidates != [] ==> |compiles| > 0 && compiles[|compiles| - 1].result.Success?
      ensures forall bad | Faithful(engine, fragments, bad) ::
                !failed && (culprit.Some? <==> Touches(candidates, bad)) && (culprit.Some? ==> culprit.value.0.position in bad)
    {
      hide Blames, Faithful, Findings, Answer, Batch, CompileOk, LogCeil, Touches;
      var items := candidates;
      ghost var start := compiles;
      while |items| > 1
        invariant CompilesOk(engine, fragments, compiles) && start <= compiles && Batch(engine, fragments, items)
        invariant items == [] <==> candidates == []
        invariant forall i :: i in items ==> i in candidates
        invariant forall k :: |start| <= k < |compiles| ==> compiles[k].purpose.Bisection?
        invariant |compiles| + LogCeil(|items|) <= |start| + LogCeil(|candidates|)
        invariant forall bad | Faithful(engine, fragments, bad) :: Touches(items, bad) <==> Touches(candidates, bad)
        decreases |items|
      {
        var half := items[..|items| / 2];
        var rest := items[|items| / 2..];
        HalvesAreBatches(engine, fragments, items, |items| / 2);
        HalvingCost(|items|);
        var result, located := Run(half, Bisection);
        SafeMembers(engine, fragments, half);
        FaithfulAnswer(engine, fragments, |compiles|, half);
        if result.Failed? && !result.Content() {
          return None, true;
        }
        items := if result.Failed? then half else rest;
      }
      if items == [] {
        NothingTouched();
        return None, false;
      }
      var result, located := Run(items, Bisection);
      SafeMembers(engine, fragments, items);
      FaithfulAnswer(engine, fragments, |compiles|, items);
      assert items == [items[0]];
      TouchesOne(items[0]);
      CompiledAlone(engine, fragments, compiles);
      if result.Success? {
        return None, false;
      }
      if !result.Content() {
        return None, true;
      }
      if located != [] {
        return Some((located[0], |compiles|)), false;
      }
      AloneBlames(engine, fragments, compiles[|compiles| - 1], items[0]);
      return Some((LocatedFailure(items[0], Unattributed, 0, "no located line when compiled alone"), |compiles|)), false;
    }

    /** Fragments with unsafe commands are failed at once and never compiled. */
    method Screen() returns (active: seq<nat>)
      requires compiles == [] && failures == map[]
      modifies this`failures
      ensures Valid() && Batch(engine, fragments, active)
      ensures failures.Keys == UnsafeFragments(engine, fragments) && SetOf(active) == SafeFragments(engine, fragments)
    {
      active := [];
      var i := 0;
      while i < |fragments|
        invariant 0 <= i <= |fragments|
        invariant Valid() && Batch(engine, fragments, active)
        invariant forall k: nat :: k in failures <==> k < i && engine.unsafe(fragments[k])
        invariant forall k: nat :: k in active <==> k < i && !engine.unsafe(fragments[k])
      {
        if engine.unsafe(fragments[i]) {
          failures := failures[i := FragmentFailure(i, UnsafeNotCompiled, "disabled command", None, None)];
        } else {
          assert forall k :: 0 <= k < |active| ==> active[k] in active;
          active := active + [i];
        }
        i := i + 1;
      }
    }

    method RecordAll(found: seq<(LocatedFailure, nat)>)
      requires Valid() && forall k :: 0 <= k < |found| ==> Attributed(engine, fragments, compiles, found[k].0, found[k].1)
      modifies this`failures
      ensures Valid() && failures.Keys == old(failures).Keys + Positions(found)
      ensures forall i :: i in old(failures) ==> failures[i] == old(failures)[i]
    {
      hide Attributed, FailuresOk, CompilesOk;
      var k := 0;
      while k < |found|
        invariant 0 <= k <= |found|
        invariant Valid() && failures.Keys == old(failures).Keys + Positions(found[..k])
        invariant forall i :: i in old(failures) ==> failures[i] == old(failures)[i]
      {
        assert found[..k + 1] == found[..k] + [found[k]];
        Record(found[k].0, found[k].1);
        k := k + 1;
      }
      assert found[..k] == found;
    }

    /**
     What one failed document drops: everything the log located and, when the halting
     error is not among it, one more fragment found by bisection.
     */
    method Attribute(active: seq<nat>, result: CompileResult, located: seq<LocatedFailure>)
      returns (found: seq<(LocatedFailure, nat)>, stop: Option<Infrastructure>)
      requires CompilesOk(engine, fragments, compiles) && Batch(engine, fragments, active) && active != []
      requires |compiles| > 0 && result.Content()
      requires result == Answer(engine, fragments, |compiles|, active)
      requires located == Translated(Findings(engine, fragments, |compiles|, active), active)
      requires forall k :: 0 <= k < |located| ==>
                 located[k].position in active && Attributed(engine, fragments, compiles, located[k], |compiles|)
      modifies this`compiles
      ensures CompilesOk(engine, fragments, compiles) && old(compiles) <= compiles
      ensures |compiles| <= |old(compiles)| + LogCeil(|active|) + 1
      ensures forall k :: 0 <= k < |found| ==>
                found[k].0.position in active && Attributed(engine, fragments, compiles, found[k].0, found[k].1)
      ensures stop.None? ==> found != []
      ensures forall k :: |old(compiles)| <= k < |compiles| ==> compiles[k].purpose.Bisection?
      ensures |located| <= |found| && forall k :: 0 <= k < |located| ==> found[k] == (located[k], |old(compiles)|)
      ensures stop.Some? ==> (if stop.value.EngineFailed? then EngineGaveUp(compiles)
                              else |compiles| > 0 && compiles[|compiles| - 1].result.Success?)
      ensures forall bad | Faithful(engine, fragments, bad) :: stop.None? && Positions(found) <= bad
      ensures |found| <= |located| + 1
      ensures Unlocated(result, located) ==>
                forall bad | Faithful(engine, fragments, bad) ::
                  |found| == |located| + 1 <==> Touches(Without(active, set item | item in located :: item.position), bad)
      ensures !Unlocated(result, located) ==> compiles == old(compiles) && |found| == |located|
    {
      hide Blames, Faithful, Findings, Answer, CompilesOk, Attributed, Batch, Without;
      FaithfulAnswer(engine, fragments, |compiles|, active);
      var number := |compiles|;
      found := seq(|located|, k requires 0 <= k < |located| => (located[k], number));
      stop := None;
      var halted := result.code.CompileFailed?;
      if located == [] || (halted && !TexErrorIn(located)) {
        var known := set item | item in located :: item.position;
        var candidates := Without(active, known);
        WithoutBatch(engine, fragments, active, known);
        LogCeilMonotone(|candidates|, |active|);
        if located == [] {
          SameTouch(active, candidates);
          assert active[0] in candidates;
        }
        ghost var before := compiles;
        var culprit, failed := Bisect(candidates);
        AttributedStay(engine, fragments, before, compiles, found);
        if failed {
          return found, Some(EngineFailed(|compiles|));
        }
        if culprit.Some? {
          found := found + [culprit.value];
        } else if located == [] {
          return found, Some(NotAttributed(|compiles|));
        }
      }
    }

    /** Compile what is left, drop what fails, and again, until a document is accepted. */
    method Sweep(initial: seq<nat>) returns (accepted: seq<nat>, stop: Option<Infrastructure>)
      requires Valid() && compiles == [] && Batch(engine, fragments, initial) && failures.Keys !! SetOf(initial)
      modifies this
      ensures Valid() && Batch(engine, fragments, accepted)
      ensures stop.None? ==> SetOf(accepted) <= SetOf(initial)
                             && failures.Keys == old(failures.Keys) + (SetOf(initial) - SetOf(accepted))
      ensures stop.None? ==> |compiles| <= 1 + (|initial| - |accepted|) * (2 + LogCeil(|initial|))
      ensures stop.Some? ==> accepted == [] && |compiles| <= |initial| * (2 + LogCeil(|initial|))
      ensures old(failures.Keys) <= failures.Keys
      ensures stop.Some? ==> Stopped(compiles, stop.value)
      ensures accepted != [] ==> Verified(compiles, accepted)
      ensures stop.None? ==> NamedHaveFailed(engine, fragments, compiles, failures.Keys)
      ensures forall bad | Faithful(engine, fragments, bad) ::
                stop.None? && SetOf(initial) - SetOf(accepted) == SetOf(initial) * bad
    {
      hide CompilesOk, FailuresOk, Attributed, Faithful, Findings, Answer, Batch, Without, NamedIn, NamedHaveFailed, CompileOk, Unlocated, Touches;
      NoneNamed(engine, fragments);
      ghost var cost := 2 + LogCeil(|initial|);
      ghost var gone: nat := 0;
      var active := initial;
      accepted, stop := [], None;
      EmptyBatch(engine, fragments);
      while active != []
        invariant Valid() && Batch(engine, fragments, active) && SetOf(active) <= SetOf(initial)
        invariant accepted == [] && stop.None?
        invariant |active| + gone == |initial| && |compiles| <= gone * cost
        invariant failures.Keys == old(failures.Keys) + (SetOf(initial) - SetOf(active))
        invariant NamedHaveFailed(engine, fragments, compiles, failures.Keys)
        invariant forall bad | Faithful(engine, fragments, bad) :: SetOf(initial) - SetOf(active) <= bad
        decreases |active|
      {
        ghost var earlier := compiles;
        var result, located := Run(active, Whole);
        LastCompileOk(engine, fragments, compiles, |earlier|);
        FailuresStay(engine, fragments, compiles[..|compiles| - 1], compiles, failures);
        FaithfulAnswer(engine, fragments, |compiles|, active);
        if result.Success? {
          accepted := active;
          SuccessNamesNone(engine, fragments, compiles[|earlier|]);
          NamedStep(engine, fragments, earlier, compiles, failures.Keys, failures.Keys);
          Leftover(initial, active);
          break;
        }
        LogCeilMonotone(|active|, |initial|);
        OneMoreRound(gone, |initial|, cost);
        if !result.Content() {
          stop := Some(EngineFailed(|compiles|));
          break;
        }
        ghost var before := compiles;
        var found;
        found, stop := Attribute(active, result, located);
        FailuresStay(engine, fragments, before, compiles, failures);
        if stop.Some? {
          break;
        }
        ghost var known := failures.Keys;
        RecordAll(found);
        NamedPositions(engine, fragments, before[|earlier|], located, found, |before|);
        NamedStep(engine, fragments, earlier, compiles, known, failures.Keys);
        var dropped := Positions(found);
        assert found[0].0.position in dropped;
        WithoutBatch(engine, fragments, active, dropped);
        ghost var size := |active|;
        active := Without(active, dropped);
        MoreGone(gone, gone + (size - |active|), cost);
        gone := gone + (size - |active|);
      }
    }
  }

  function FailedIndices(failures: seq<FragmentFailure>): set<nat> {
    set f | f in failures :: f.index
  }

  /** The failures a compile found, as opposed to the static check. */
  function CompiledFailures(failures: seq<FragmentFailure>): set<nat> {
    set f | f in failures && !f.kind.UnsafeNotCompiled? :: f.index
  }

  ghost predicate Ascending(failures: seq<FragmentFailure>) {
    forall j, k :: 0 <= j < k < |failures| ==> failures[j].index < failures[k].index
  }

  method SortedFailures(failures: map<nat, FragmentFailure>, n: nat) returns (r: seq<FragmentFailure>)
    requires forall i :: i in failures ==> i < n && failures[i].index == i
    ensures Ascending(r) && FailedIndices(r) == failures.Keys
    ensures forall k :: 0 <= k < |r| ==> r[k].index in failures && failures[r[k].index] == r[k]
  {
    r := [];
    var i := 0;
    while i < n
      invariant 0 <= i <= n
      invariant Ascending(r) && forall k :: 0 <= k < |r| ==> r[k].index < i
      invariant forall k :: 0 <= k < |r| ==> r[k].index in failures && failures[r[k].index] == r[k]
      invariant forall k: nat :: k in FailedIndices(r) <==> k < i && k in failures
    {
      if i in failures {
        assert forall k: nat :: k in FailedIndices(r + [failures[i]]) <==> k in FailedIndices(r) || k == i by {
          assert failures[i] in r + [failures[i]];
          assert forall f :: f in r + [failures[i]] <==> f in r || f == failures[i];
        }
        r := r + [failures[i]];
      }
      i := i + 1;
    }
  }

  lemma {:induction false} BatchFits(s: seq<nat>, n: nat)
    requires Increasing(s) && InRange(s, n)
    ensures |s| <= n
  {
    if s != [] {
      BatchFits(s[..|s| - 1], s[|s| - 1]);
    }
  }

  /** What was tried and not accepted is what compiles failed. */
  lemma CountsDropped(engine: Engine, fragments: seq<string>, compiles: seq<FragmentCompile>, failures: seq<FragmentFailure>,
                      initial: seq<nat>, accepted: seq<nat>)
    requires CompilesOk(engine, fragments, compiles)
    requires forall k :: 0 <= k < |failures| ==> FailureOk(engine, fragments, compiles, failures[k])
    requires Batch(engine, fragments, initial) && Batch(engine, fragments, accepted) && SetOf(accepted) <= SetOf(initial)
    requires SetOf(initial) == SafeFragments(engine, fragments)
    requires forall i :: i in SetOf(initial) ==> (i in FailedIndices(failures) <==> i !in SetOf(accepted))
    ensures CompiledFailures(failures) == SetOf(initial) - SetOf(accepted)
    ensures |CompiledFailures(failures)| == |initial| - |accepted|
  {
    hide CompilesOk, Blames;
    assert forall f :: f in failures ==> FailureOk(engine, fragments, compiles, f);
    assert CompiledFailures(failures) == SetOf(initial) - SetOf(accepted);
    IncreasingSize(initial);
    IncreasingSize(accepted);
  }

  /** What the screening and the sweep leave behind: the accepted fragments, why the sweep stopped, and the failures so far. */
  ghost predicate Swept(engine: Engine, fragments: seq<string>, active: seq<nat>, accepted: seq<nat>, stop: Option<Infrastructure>,
                        compiles: seq<FragmentCompile>, failures: map<nat, FragmentFailure>)
  {
    && CompilesOk(engine, fragments, compiles) && FailuresOk(engine, fragments, compiles, failures)
    && Batch(engine, fragments, active) && Batch(engine, fragments, accepted)
    && SetOf(active) == SafeFragments(engine, fragments)
    && UnsafeFragments(engine, fragments) <= failures.Keys
    && (stop.None? ==>
          && SetOf(accepted) <= SetOf(active)
          && failures.Keys == UnsafeFragments(engine, fragments) + (SetOf(active) - SetOf(accepted))
          && |compiles| <= 1 + (|active| - |accepted|) * (2 + LogCeil(|active|))
          && NamedHaveFailed(engine, fragments, compiles, failures.Keys))
    && (stop.Some? ==> accepted == [] && |compiles| <= |active| * (2 + LogCeil(|active|)) && Stopped(compiles, stop.value))
    && (accepted != [] ==> Verified(compiles, accepted))
    && forall bad | Faithful(engine, fragments, bad) :: stop.None? && SetOf(active) - SetOf(accepted) == SetOf(active) * bad
  }

  /** The fragments that are neither accepted nor failed, and what a faithful engine makes of them. */
  lemma SweptPartitions(engine: Engine, fragments: seq<string>, active: seq<nat>, accepted: seq<nat>, stop: Option<Infrastructure>,
                        failures: map<nat, FragmentFailure>, r: FragmentCompileResult)
    requires Swept(engine, fragments, active, accepted, stop, r.compiles, failures)
    requires r.accepted == accepted && r.infrastructure == stop && FailedIndices(r.failures) == failures.Keys
    requires forall k :: 0 <= k < |r.failures| ==> FailureOk(engine, fragments, r.compiles, r.failures[k])
    ensures forall i: nat :: i < |fragments| && engine.unsafe(fragments[i]) ==> i in FailedIndices(r.failures)
    ensures stop.None? ==> forall i: nat :: i < |fragments| ==> (i in accepted <==> i !in FailedIndices(r.failures))
    ensures stop.None? ==>
              && CompiledFailures(r.failures) == SetOf(active) - SetOf(accepted)
              && |CompiledFailures(r.failures)| == |active| - |accepted|
  {
    hide *;
    assert Swept(engine, fragments, active, accepted, stop, r.compiles, failures);
    SweptParts(engine, fragments, active, accepted, stop, r.compiles, failures);
    KeysCover(engine, fragments, r.failures, failures.Keys);
    if stop.None? {
      Splits(engine, fragments, active, accepted, failures.Keys);
      CountsDropped(engine, fragments, r.compiles, r.failures, active, accepted);
    }
  }

  lemma SweptParts(engine: Engine, fragments: seq<string>, active: seq<nat>, accepted: seq<nat>, stop: Option<Infrastructure>,
                   compiles: seq<FragmentCompile>, failures: map<nat, FragmentFailure>)
    requires Swept(engine, fragments, active, accepted, stop, compiles, failures)
    ensures CompilesOk(engine, fragments, compiles) && Batch(engine, fragments, active) && Batch(engine, fragments, accepted)
    ensures SetOf(active) == SafeFragments(engine, fragments) && UnsafeFragments(engine, fragments) <= failures.Keys
    ensures stop.None? ==>
              && SetOf(accepted) <= SetOf(active)
              && failures.Keys == UnsafeFragments(engine, fragments) + (SetOf(active) - SetOf(accepted))
              && |compiles| <= 1 + (|active| - |accepted|) * (2 + LogCeil(|active|))
              && NamedHaveFailed(engine, fragments, compiles, failures.Keys)
    ensures stop.Some? ==> accepted == [] && |compiles| <= |active| * (2 + LogCeil(|active|)) && Stopped(compiles, stop.value)
    ensures accepted != [] ==> Verified(compiles, accepted)
  {
    hide CompilesOk, FailuresOk, Batch, SetOf, SafeFragments, UnsafeFragments, LogCeil, NamedHaveFailed, Stopped, Verified, Faithful;
  }

  lemma SweptFaithful(engine: Engine, fragments: seq<string>, active: seq<nat>, accepted: seq<nat>, stop: Option<Infrastructure>,
                      compiles: seq<FragmentCompile>, failures: map<nat, FragmentFailure>, bad: set<nat>)
    requires Swept(engine, fragments, active, accepted, stop, compiles, failures) && Faithful(engine, fragments, bad)
    ensures stop.None? && SetOf(active) - SetOf(accepted) == SafeFragments(engine, fragments) * bad
  {
    hide CompilesOk, FailuresOk, Batch, SetOf, SafeFragments, UnsafeFragments, LogCeil, NamedHaveFailed, Stopped, Verified, Faithful;
  }

  /** What a result promises. */
  lemma SweptIsResult(engine: Engine, fragments: seq<string>, active: seq<nat>, accepted: seq<nat>, stop: Option<Infrastructure>,
                      failures: map<nat, FragmentFailure>, r: FragmentCompileResult)
    requires Swept(engine, fragments, active, accepted, stop, r.compiles, failures)
    requires r.accepted == accepted && r.infrastructure == stop && FailedIndices(r.failures) == failures.Keys
    requires Ascending(r.failures)
    requires forall k :: 0 <= k < |r.failures| ==> FailureOk(engine, fragments, r.compiles, r.failures[k])
    ensures CompilesOk(engine, fragments, r.compiles)
    ensures forall k :: 0 <= k < |r.failures| ==> FailureOk(engine, fragments, r.compiles, r.failures[k])
    ensures Ascending(r.failures)
    ensures forall i: nat :: i < |fragments| && engine.unsafe(fragments[i]) ==> i in FailedIndices(r.failures)
    ensures Batch(engine, fragments, r.accepted)
    ensures r.infrastructure.None? ==>
              forall i: nat :: i < |fragments| ==> (i in r.accepted <==> i !in FailedIndices(r.failures))
    ensures r.accepted != [] ==> Verified(r.compiles, r.accepted)
    ensures r.infrastructure.None? ==> NamedHaveFailed(engine, fragments, r.compiles, FailedIndices(r.failures))
    ensures r.infrastructure.Some? ==> r.accepted == [] && Stopped(r.compiles, r.infrastructure.value)
    ensures r.infrastructure.None? ==>
              |r.compiles| <= 1 + |CompiledFailures(r.failures)| * (2 + LogCeil(|fragments|))
    ensures |r.compiles| <= 1 + |fragments| * (2 + LogCeil(|fragments|))
    ensures forall bad | Faithful(engine, fragments, bad) ::
              && r.infrastructure.None?
              && CompiledFailures(r.failures) == SafeFragments(engine, fragments) * bad
  {
    hide *;
    SweptParts(engine, fragments, active, accepted, stop, r.compiles, failures);
    SweptPartitions(engine, fragments, active, accepted, stop, failures, r);
    Bounded(engine, fragments, active, |accepted|, |r.compiles|, stop.None?);
    forall bad | Faithful(engine, fragments, bad)
      ensures r.infrastructure.None? && CompiledFailures(r.failures) == SafeFragments(engine, fragments) * bad
    {
      SweptFaithful(engine, fragments, active, accepted, stop, r.compiles, failures, bad);
    }
  }

  /**
   `compile_fragments`. With no infrastructure error every fragment is either accepted
   or failed, the last document compiled is exactly the accepted ones, and the number
   of compiles is bounded by the compiled failures. A faithful engine never stops the
   run, and the compiled failures are then exactly the bad fragments. Nothing a document's
   log ever named is accepted.
   */
  method CompileFragments(engine: Engine, fragments: seq<string>) returns (r: FragmentCompileResult)
    ensures CompilesOk(engine, fragments, r.compiles)
    ensures forall k :: 0 <= k < |r.failures| ==> FailureOk(engine, fragments, r.compiles, r.failures[k])
    ensures Ascending(r.failures)
    ensures forall i: nat :: i < |fragments| && engine.unsafe(fragments[i]) ==> i in FailedIndices(r.failures)
    ensures Batch(engine, fragments, r.accepted)
    ensures r.infrastructure.None? ==>
              forall i: nat :: i < |fragments| ==> (i in r.accepted <==> i !in FailedIndices(r.failures))
    ensures r.accepted != [] ==> Verified(r.compiles, r.accepted)
    ensures r.infrastructure.None? ==> NamedHaveFailed(engine, fragments, r.compiles, FailedIndices(r.failures))
    ensures r.infrastructure.Some? ==> r.accepted == [] && Stopped(r.compiles, r.infrastructure.value)
    ensures r.infrastructure.None? ==>
              |r.compiles| <= 1 + |CompiledFailures(r.failures)| * (2 + LogCeil(|fragments|))
    ensures |r.compiles| <= 1 + |fragments| * (2 + LogCeil(|fragments|))
    ensures forall bad | Faithful(engine, fragments, bad) ::
              && r.infrastructure.None?
              && CompiledFailures(r.failures) == SafeFragments(engine, fragments) * bad
  {
    hide *;
    var compiler := new FragmentCompiler(engine, fragments);
    var accepted, stop, active := SweepAll(compiler);
    FailuresInRange(engine, fragments, active, accepted, stop, compiler.compiles, compiler.failures);
    var failures := SortedFailures(compiler.failures, |fragments|);
    r := FragmentCompileResult(failures, compiler.compiles, accepted, stop);
    SweptIsResult(engine, fragments, active, accepted, stop, compiler.failures, r);
  }

  /** Screen, then sweep what is left. */
  method SweepAll(compiler: FragmentCompiler) returns (accepted: seq<nat>, stop: Option<Infrastructure>, ghost active: seq<nat>)
    requires compiler.compiles == [] && compiler.failures == map[]
    modifies compiler
    ensures Swept(compiler.engine, compiler.fragments, active, accepted, stop, compiler.compiles, compiler.failures)
  {
    hide Verified, Stopped, Faithful, FailureOk, FailuresOk, CompilesOk, Batch, LogCeil, SetOf, SafeFragments, UnsafeFragments,
         NamedHaveFailed;
    var screened := compiler.Screen();
    ScreenSplits(compiler.engine, compiler.fragments);
    active := screened;
    accepted, stop := compiler.Sweep(screened);
  }

  lemma ScreenSplits(engine: Engine, fragments: seq<string>)
    ensures UnsafeFragments(engine, fragments) !! SafeFragments(engine, fragments)
  {
  }

  lemma FailuresInRange(engine: Engine, fragments: seq<string>, active: seq<nat>, accepted: seq<nat>, stop: Option<Infrastructure>,
                        compiles: seq<FragmentCompile>, failures: map<nat, FragmentFailure>)
    requires Swept(engine, fragments, active, accepted, stop, compiles, failures)
    ensures forall i :: i in failures ==>
              i < |fragments| && failures[i].index == i && FailureOk(engine, fragments, compiles, failures[i])
  {
    hide CompilesOk, Blames;
  }

  lemma KeysCover(engine: Engine, fragments: seq<string>, failures: seq<FragmentFailure>, keys: set<nat>)
    requires FailedIndices(failures) == keys
    ensures UnsafeFragments(engine, fragments) <= keys ==>
              forall i: nat :: i < |fragments| && engine.unsafe(fragments[i]) ==> i in FailedIndices(failures)
  {
  }

  lemma Splits(engine: Engine, fragments: seq<string>, active: seq<nat>, accepted: seq<nat>, failed: set<nat>)
    requires SetOf(active) == SafeFragments(engine, fragments) && SetOf(accepted) <= SetOf(active)
    requires failed == UnsafeFragments(engine, fragments) + (SetOf(active) - SetOf(accepted))
    ensures forall i: nat :: i < |fragments| ==> (i in accepted <==> i !in failed)
    ensures forall i :: i in SetOf(active) ==> (i in failed <==> i !in SetOf(accepted))
  {
  }

  lemma Bounded(engine: Engine, fragments: seq<string>, active: seq<nat>, accepted: nat, compiles: nat, finished: bool)
    requires Batch(engine, fragments, active)
    requires finished ==> accepted <= |active| && compiles <= 1 + (|active| - accepted) * (2 + LogCeil(|active|))
    requires !finished ==> compiles <= |active| * (2 + LogCeil(|active|))
    ensures finished ==> accepted <= |active| && compiles <= 1 + (|active| - accepted) * (2 + LogCeil(|fragments|))
    ensures compiles <= 1 + |fragments| * (2 + LogCeil(|fragments|))
  {
    BatchFits(active, |fragments|);
    LogCeilMonotone(|active|, |fragments|);
    hide LogCeil;
    var c, d := 2 + LogCeil(|active|), 2 + LogCeil(|fragments|);
    MoreCost(|active|, |fragments|, c, d);
    if finished {
      MoreCost(|active| - accepted, |active| - accepted, c, d);
      MoreCost(|active| - accepted, |fragments|, d, d);
    }
  }

  lemma MoreCost(a: nat, b: nat, c: nat, d: nat)
    requires a <= b && c <= d
    ensures a * c <= b * d
  {
    assert a * c <= b * c;
    assert b * d == b * c + b * (d - c);
  }
}
