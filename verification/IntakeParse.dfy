/**
 Reading one model round (`parse_intake_round_proposal` of
 src/derivation_app/app_server_intake_session.py): what an advancing round may not settle
 becomes a question, what a finalizing round may not ask becomes a default.
 */
module IntakeParse {
  import opened Wrappers
  import opened IntakeModel
  import opened IntakeLog
  import opened IntakeRounds
  import opened IntakeApply
  import opened IntakeTheorems

  datatype Mode = Advance | FinalizeMode

  datatype Raw = Raw(questions: seq<Question>, defaults: seq<Default>, ladder: seq<set<Id>>, reopens: seq<Reopen>, ready: bool,
                     refs: set<Id>, thread: Id, createdThread: bool)

  /** The host's wording of a default as a question and of a question as a default; None when it cannot be written. */
  datatype Host = Host(ask: Default -> Option<Question>, settle: Question -> Option<Default>)

  datatype Split = Split(kept: seq<Default>, asked: seq<Question>)

  predicate Taken(questions: seq<Question>, q: Question) {
    exists k :: 0 <= k < |questions| && (questions[k].id == q.id || questions[k].key == q.key)
  }

  /** `_questions_from_problem_defaults`: problem-class defaults go back to the user. */
  function HandedBack(host: Host, defaults: seq<Default>, questions: seq<Question>): Split
    decreases |defaults|
  {
    if defaults == [] then Split([], [])
    else
      var r := HandedBack(host, defaults[..|defaults| - 1], questions);
      var d := defaults[|defaults| - 1];
      if !d.problem then r.(kept := r.kept + [d])
      else
        match host.ask(d)
        case None => r
        case Some(q) => if Taken(questions + r.asked, q) then r else r.(asked := r.asked + [q])
  }

  method HandBack(host: Host, defaults: seq<Default>, questions: seq<Question>) returns (kept: seq<Default>, asked: seq<Question>)
    ensures Split(kept, asked) == HandedBack(host, defaults, questions)
  {
    var takenIds := IdsOf(questions);
    var takenKeys := set q | q in questions :: q.key;
    kept, asked := [], [];
    var k := 0;
    while k < |defaults|
      invariant 0 <= k <= |defaults|
      invariant Split(kept, asked) == HandedBack(host, defaults[..k], questions)
      invariant takenIds == IdsOf(questions + asked) && takenKeys == set q | q in questions + asked :: q.key
    {
      assert defaults[..k + 1][..k] == defaults[..k];
      var d := defaults[k];
      if !d.problem {
        kept := kept + [d];
      } else {
        var q := host.ask(d);
        if q.Some? {
          TakenMeans(questions + asked, q.value);
          if q.value.id !in takenIds && q.value.key !in takenKeys {
            takenIds, takenKeys := takenIds + {q.value.id}, takenKeys + {q.value.key};
            assert questions + (asked + [q.value]) == questions + asked + [q.value];
            asked := asked + [q.value];
          }
        }
      }
      k := k + 1;
    }
    assert defaults[..k] == defaults;
  }

  lemma TakenMeans(questions: seq<Question>, q: Question)
    ensures Taken(questions, q) <==> q.id in IdsOf(questions) || q.key in set x | x in questions :: x.key
  {
    if q.id in IdsOf(questions) {
      var x :| x in questions && x.id == q.id;
    }
    if q.key in set x | x in questions :: x.key {
      var x :| x in questions && x.key == q.key;
    }
  }

  /** `_defaults_from_finalize_questions`; None is a contract violation. */
  function Defaulted(host: Host, defaults: seq<Default>, questions: seq<Question>): Option<seq<Default>>
    decreases |questions|
  {
    if questions == [] then Some(defaults)
    else
      match Defaulted(host, defaults, questions[..|questions| - 1])
      case None => None
      case Some(r) =>
        match host.settle(questions[|questions| - 1])
        case None => None
        case Some(d) => if HasDefault(r, d.id) then Some(r) else Some(r + [d])
  }

  method SettleQuestions(host: Host, defaults: seq<Default>, questions: seq<Question>) returns (r: Option<seq<Default>>)
    ensures r == Defaulted(host, defaults, questions)
  {
    var all := defaults;
    var k := 0;
    while k < |questions|
      invariant 0 <= k <= |questions|
      invariant Defaulted(host, defaults, questions[..k]) == Some(all)
    {
      assert questions[..k + 1][..k] == questions[..k];
      var d := host.settle(questions[k]);
      if d.None? {
        StaysRefused(host, defaults, questions, k + 1);
        return None;
      }
      if !HasDefault(all, d.value.id) {
        all := all + [d.value];
      }
      k := k + 1;
    }
    assert questions[..k] == questions;
    return Some(all);
  }

  lemma {:induction false} StaysRefused(host: Host, defaults: seq<Default>, questions: seq<Question>, k: nat)
    requires k <= |questions| && Defaulted(host, defaults, questions[..k]).None?
    ensures Defaulted(host, defaults, questions).None?
    decreases |questions|
  {
    if k == |questions| {
      assert questions[..k] == questions;
    } else {
      assert questions[..|questions| - 1][..k] == questions[..k];
      StaysRefused(host, defaults, questions[..|questions| - 1], k);
    }
  }

  /** Ladder references to defaults no round declared are dropped. */
  function Pruned(ladder: seq<set<Id>>, defaults: seq<Default>): (r: seq<set<Id>>)
    ensures |r| == |ladder|
    ensures forall k :: 0 <= k < |r| ==> r[k] == set d | d in ladder[k] && HasDefault(defaults, d)
  {
    seq(|ladder|, k requires 0 <= k < |ladder| => set d | d in ladder[k] && HasDefault(defaults, d))
  }

  /** The whole reading; None is a round that breaks its contract and is asked for again. */
  function Parsed(host: Host, mode: Mode, raw: Raw, specs: nat, inherited: seq<Default>, known: set<Id>): Option<Proposal> {
    var asked := Dedup(raw.questions);
    var declared := Merged([], raw.defaults);
    var split := HandedBack(host, declared, asked);
    var settled := Defaulted(host, declared, asked);
    if mode.FinalizeMode? && settled.None? then None
    else
      var questions := if mode.Advance? then asked + split.asked else [];
      var defaults := Merged(inherited, if mode.Advance? then split.kept else settled.value);
      var reopens := ParsedReopens(raw.reopens, IdsOf(questions), known);
      var ready := raw.ready && (mode.Advance? ==> questions == [] && raw.ladder != []);
      if mode.FinalizeMode? && (!ready || raw.ladder == []) then None
      else
        Some(Proposal(
          Spec(specs + 1, if ready then CandidateSpec else Draft, if specs > 0 then Some(specs) else None, defaults,
               Pruned(raw.ladder, defaults), raw.refs),
          questions, reopens, ready, raw.thread, raw.createdThread))
  }

  function KnownIds(log: seq<Entry>): set<Id> {
    set e | e in log :: e.id
  }

  datatype Audit = Audit(passed: bool, questions: seq<Question>, defaults: seq<Default>)

  /** The choices that are the agent's to make. */
  function AgentsOwn(defaults: seq<Default>): (r: seq<Default>)
    ensures forall d :: d in r <==> d in defaults && !d.problem
  {
    if defaults == [] then []
    else AgentsOwn(defaults[..|defaults| - 1]) + if defaults[|defaults| - 1].problem then [] else [defaults[|defaults| - 1]]
  }

  /**
   The auditor's answer as it is read. An advancing audit passes or asks, and settles no
   problem-class choice; a finalizing one always passes and asks nothing. None is refused.
   */
  function ReadAudit(mode: Mode, a: Audit): Option<Audit> {
    var declared := Merged([], a.defaults);
    if mode.FinalizeMode? then Some(Audit(true, [], declared))
    else if a.passed == (a.questions != []) then None
    else Some(Audit(a.passed, a.questions, AgentsOwn(declared)))
  }

  // ----- theorems --------------------------------------------------------------------------------

  /** A problem-class default of an advancing round: asked now, asked already, or not expressible as a question. */
  ghost predicate BackWithUser(host: Host, d: Default, questions: seq<Question>) {
    host.ask(d).None? || Taken(questions, host.ask(d).value)
  }

  lemma TakenStays(a: seq<Question>, b: seq<Question>, q: Question)
    requires Taken(a, q)
    ensures Taken(a + b, q)
  {
    var k :| 0 <= k < |a| && (a[k].id == q.id || a[k].key == q.key);
    assert (a + b)[k] == a[k];
  }

  lemma {:induction false} HandedBackMeans(host: Host, defaults: seq<Default>, questions: seq<Question>)
    requires DistinctIds(questions) && DistinctKeys(questions)
    ensures var r := HandedBack(host, defaults, questions);
            && (forall d :: d in r.kept <==> d in defaults && !d.problem)
            && (forall d :: d in defaults && d.problem ==> BackWithUser(host, d, questions + r.asked))
            && DistinctIds(questions + r.asked) && DistinctKeys(questions + r.asked)
    decreases |defaults|
  {
    if defaults == [] {
      assert questions + [] == questions;
    } else {
      var front := defaults[..|defaults| - 1];
      var d := defaults[|defaults| - 1];
      HandedBackMeans(host, front, questions);
      HandedBackStep(host, front, d, questions);
      assert defaults == front + [d];
    }
  }

  lemma HandedBackStep(host: Host, front: seq<Default>, d: Default, questions: seq<Question>)
    requires var r := HandedBack(host, front, questions);
             && (forall x :: x in front && x.problem ==> BackWithUser(host, x, questions + r.asked))
             && DistinctIds(questions + r.asked) && DistinctKeys(questions + r.asked)
    ensures var r := HandedBack(host, front + [d], questions);
            && (forall x :: x in front + [d] && x.problem ==> BackWithUser(host, x, questions + r.asked))
            && DistinctIds(questions + r.asked) && DistinctKeys(questions + r.asked)
  {
    assert (front + [d])[..|front|] == front;
    var before, after := HandedBack(host, front, questions), HandedBack(host, front + [d], questions);
    hide HandedBack, Taken;
    if after.asked != before.asked {
      var q := host.ask(d).value;
      var all := questions + before.asked;
      assert questions + after.asked == all + [q];
      NotTaken(all, q);
      forall x | x in front && x.problem && host.ask(x).Some?
        ensures Taken(all + [q], host.ask(x).value)
      {
        assert BackWithUser(host, x, all);
        TakenStays(all, [q], host.ask(x).value);
      }
    }
  }

  lemma NotTaken(all: seq<Question>, q: Question)
    requires DistinctIds(all) && DistinctKeys(all)
    ensures Taken(all + [q], q)
    ensures !Taken(all, q) ==> DistinctIds(all + [q]) && DistinctKeys(all + [q])
  {
    assert (all + [q])[|all|] == q;
  }

  /**
   An advancing round never settles the user's decision: no problem-class default of its
   own survives, each is back with the user, and a round that still asks is no candidate.
   */
  lemma AdvanceNeverSettles(host: Host, raw: Raw, specs: nat, inherited: seq<Default>, known: set<Id>)
    requires DistinctDefaults(inherited)
    ensures Parsed(host, Advance, raw, specs, inherited, known).Some?
    ensures var p := Parsed(host, Advance, raw, specs, inherited, known).value;
            && (p.ready ==> p.questions == [] && p.reopens == [])
            && (forall d :: d in Merged([], raw.defaults) && d.problem ==> BackWithUser(host, d, p.questions))
            && (forall d :: d in p.spec.defaults && d.problem ==> HasDefault(inherited, d.id))
            && DistinctIds(p.questions) && DistinctKeys(p.questions)
  {
    hide Dedup, HandedBack, BackWithUser;
    DedupIsDistinct(raw.questions);
    var declared := Merged([], raw.defaults);
    HandedBackMeans(host, declared, Dedup(raw.questions));
    var split := HandedBack(host, declared, Dedup(raw.questions));
    var p := Parsed(host, Advance, raw, specs, inherited, known).value;
    forall d | d in p.spec.defaults && d.problem
      ensures HasDefault(inherited, d.id)
    {
      MergedFrom(inherited, split.kept, d);
    }
    NothingToReopen(raw.reopens, known);
  }

  /** Without a question there is nothing to reopen. */
  lemma {:induction false} NothingToReopen(raw: seq<Reopen>, known: set<Id>)
    ensures ParsedReopens(raw, IdsOf([]), known) == []
    decreases |raw|
  {
    if raw != [] {
      NothingToReopen(raw[..|raw| - 1], known);
    }
  }

  /** What the union holds, one of its two parts brought. */
  lemma {:induction false} MergedFrom(existing: seq<Default>, incoming: seq<Default>, d: Default)
    requires d in Merged(existing, incoming)
    ensures d in existing || d in incoming
    decreases |incoming|
  {
    if incoming != [] {
      var front := incoming[..|incoming| - 1];
      var last := incoming[|incoming| - 1];
      if d in Merged(existing, front) {
        MergedFrom(existing, front, d);
      } else {
        assert d == last;
      }
    }
  }

  lemma {:induction false} DefaultedMeans(host: Host, defaults: seq<Default>, questions: seq<Question>)
    requires Defaulted(host, defaults, questions).Some? && DistinctDefaults(defaults)
    ensures var r := Defaulted(host, defaults, questions).value;
            && DistinctDefaults(r) && defaults <= r
            && (forall q :: q in questions ==> host.settle(q).Some? && HasDefault(r, host.settle(q).value.id))
    decreases |questions|
  {
    if questions != [] {
      var front := questions[..|questions| - 1];
      var q := questions[|questions| - 1];
      DefaultedMeans(host, defaults, front);
      var before, after := Defaulted(host, defaults, front).value, Defaulted(host, defaults, questions).value;
      assert questions == front + [q];
      var d := host.settle(q).value;
      if !HasDefault(before, d.id) {
        assert after == before + [d];
        DefaultsAppend(before, d);
      }
    }
  }

  /** A finalizing round asks nothing: every question it still had stands as a declared default. */
  lemma FinalizeNeverAsks(host: Host, raw: Raw, specs: nat, inherited: seq<Default>, known: set<Id>)
    requires DistinctDefaults(inherited) && Parsed(host, FinalizeMode, raw, specs, inherited, known).Some?
    ensures var p := Parsed(host, FinalizeMode, raw, specs, inherited, known).value;
            && p.ready && p.questions == [] && p.reopens == [] && p.spec.ladder != []
            && forall q :: q in Dedup(raw.questions) ==> host.settle(q).Some? && HasDefault(p.spec.defaults, host.settle(q).value.id)
  {
    hide Dedup, Defaulted, HandedBack, HasDefault;
    MergedMeans([], raw.defaults);
    var declared := Merged([], raw.defaults);
    DefaultedMeans(host, declared, Dedup(raw.questions));
    var settled := Defaulted(host, declared, Dedup(raw.questions)).value;
    MergedMeans(inherited, settled);
    NothingToReopen(raw.reopens, known);
  }

  /** Whatever the model wrote, the specification read from it is well formed and next in line. */
  lemma ParsedSpecIsSensible(host: Host, mode: Mode, raw: Raw, specs: seq<Spec>, inherited: seq<Default>, known: set<Id>)
    requires DistinctDefaults(inherited) && Parsed(host, mode, raw, |specs|, inherited, known).Some?
    ensures SensibleSpec(specs, Parsed(host, mode, raw, |specs|, inherited, known).value)
  {
    hide Dedup, Defaulted, HandedBack;
    var p := Parsed(host, mode, raw, |specs|, inherited, known).value;
    var declared := Merged([], raw.defaults);
    MergedMeans(inherited, if mode.Advance? then HandedBack(host, declared, Dedup(raw.questions)).kept
                           else Defaulted(host, declared, Dedup(raw.questions)).value);
    forall k, d | 0 <= k < |p.spec.ladder| && d in p.spec.ladder[k]
      ensures exists i :: 0 <= i < |p.spec.defaults| && p.spec.defaults[i].id == d
    {
      assert HasDefault(p.spec.defaults, d);
    }
  }

  lemma {:induction false} KnownIsLatest(log: seq<Entry>, id: Id)
    ensures id in KnownIds(log) <==> Latest(log, id).Some?
  {
    if log != [] {
      var front := log[..|log| - 1];
      KnownIsLatest(front, id);
      assert log == front + [log[|log| - 1]];
    }
  }

  /** Whatever the model wrote, what is read from it meets every premise of the application that parsing can see to. */
  lemma ParsedIsSensible(host: Host, mode: Mode, raw: Raw, specs: seq<Spec>, inherited: seq<Default>, log: seq<Entry>)
    requires DistinctDefaults(inherited) && Parsed(host, mode, raw, |specs|, inherited, KnownIds(log)).Some?
    ensures var p := Parsed(host, mode, raw, |specs|, inherited, KnownIds(log)).value;
            && SensibleSpec(specs, p) && (p.ready ==> p.questions == [] && p.reopens == [])
            && DistinctReopens(p.reopens)
            && (forall r :: r in p.reopens ==> r in raw.reopens && Latest(log, r.id).Some? && r.id in IdsOf(Dedup(p.questions)))
            && p.thread == raw.thread && p.createdThread == raw.createdThread
  {
    hide Dedup, Defaulted, HandedBack, Latest, BackWithUser, KnownIds, SensibleSpec, HasDefault;
    ParsedSpecIsSensible(host, mode, raw, specs, inherited, KnownIds(log));
    var p := Parsed(host, mode, raw, |specs|, inherited, KnownIds(log)).value;
    if mode.Advance? {
      AdvanceNeverSettles(host, raw, |specs|, inherited, KnownIds(log));
      forall id | id in KnownIds(log)
        ensures Latest(log, id).Some?
      {
        KnownIsLatest(log, id);
      }
      ParsingMakesReopensSensible(log, p, raw.reopens, KnownIds(log));
    } else {
      FinalizeNeverAsks(host, raw, |specs|, inherited, KnownIds(log));
    }
  }
}
