/**
 What one accepted event may change: objects are added, transcripts and histories
 are extended at the end, and settled results stay as they are. Each clause of the
 invariant is kept by any change of this shape whose new objects satisfy it.
 */
module RecordGrowth {
  import opened Wrappers
  import opened RecordModel
  import opened RecordRules
  import opened RecordInvariant

  ghost predicate Kept<V(!new)>(m: map<Id, V>, m': map<Id, V>) {
    forall k :: k in m ==> k in m' && m'[k] == m[k]
  }

  predicate BranchGrew(b: Branch, b': Branch) {
    && b'.parent == b.parent && b'.mode == b.mode && b'.anchor == b.anchor && b'.inherited == b.inherited
    && b'.hypothesis == b.hypothesis && b'.reason == b.reason && b'.action == b.action
    && b.steps <= b'.steps && b.history <= b'.history
    && (b.status.Killed? ==> b' == b)
  }

  ghost predicate BranchesGrew(m: map<Id, Branch>, m': map<Id, Branch>) {
    forall b :: b in m ==> b in m' && BranchGrew(m[b], m'[b])
  }

  predicate CallGrew(c: Call, c': Call) {
    && c'.role == c.role && c'.target == c.target && c.chunks <= c'.chunks
    && (Terminal(c.state) ==> c'.state == c.state && c'.output == c.output && c'.chunks == c.chunks)
    && (c.normalized.Some? ==> c'.normalized == c.normalized)
    && (c.disposition.Some? ==> c'.disposition == c.disposition)
  }

  /** Calls only advance, and a call that a step cites keeps its effective output hash. */
  ghost predicate CallsGrew(steps: map<Id, StepRevision>, m: map<Id, Call>, m': map<Id, Call>) {
    && (forall c :: c in m ==> c in m' && CallGrew(m[c], m'[c]))
    && (forall c :: c in m && Materialized(steps, c) ==> WriterOutputSha(m'[c]) == WriterOutputSha(m[c]))
  }

  predicate CheckGrew(v11: bool, c: Check, c': Check) {
    && c'.target == c.target && c'.sha == c.sha
    && (c.completed.Some? ==>
          c'.completed == c.completed && c'.verdict == c.verdict && c'.call == c.call && c'.evidence == c.evidence)
    && (c'.required ==> c.required)
    && (c.required && !c'.required ==> v11 && c'.completed.Some? && c'.verdict == Some(InstrumentFailure))
  }

  /** Checks only advance, and no required check arrives on a frozen transcript. */
  ghost predicate ChecksGrew(v11: bool, candidates: map<Id, Candidate>, m: map<Id, Check>, m': map<Id, Check>) {
    && (forall c :: c in m ==> c in m' && CheckGrew(v11, m[c], m'[c]))
    && (forall c, k :: c in m' && c !in m && m'[c].required && k in candidates ==> m'[c].target !in candidates[k].transcript)
  }

  predicate JudgementGrew(j: Judgement, j': Judgement) {
    j'.candidate == j.candidate && j'.sha == j.sha && (j.verdict.Some? ==> j' == j)
  }

  ghost predicate JudgementsGrew(m: map<Id, Judgement>, m': map<Id, Judgement>) {
    forall j :: j in m ==> j in m' && JudgementGrew(m[j], m'[j])
  }

  ghost predicate Grew(l: Ledger, l': Ledger) {
    && l'.version == l.version && l'.runId == l.runId
    && (l.run.Some? ==> l'.run == l.run)
    && Kept(l.actions, l'.actions)
    && BranchesGrew(l.branches, l'.branches)
    && CallsGrew(l.steps, l.calls, l'.calls)
    && Kept(l.steps, l'.steps)
    && ChecksGrew(l.IsV11(), l.candidates, l.checks, l'.checks)
    && Kept(l.candidates, l'.candidates)
    && JudgementsGrew(l.judgements, l'.judgements)
    && Kept(l.selections, l'.selections)
    && Kept(l.sources, l'.sources)
  }

  // ----- each clause under growth ----------------------------------------------

  lemma KeepSlotted(br: map<Id, Branch>, st: map<Id, StepRevision>, br': map<Id, Branch>, st': map<Id, StepRevision>)
    requires Slotted(br, st) && Kept(st, st')
    requires forall b :: b in br' ==> (b in br && br'[b].steps == br[b].steps) || TranscriptOk(st', br'[b].steps)
    ensures Slotted(br', st')
  {
  }

  lemma KeepHomed(br: map<Id, Branch>, st: map<Id, StepRevision>, br': map<Id, Branch>, st': map<Id, StepRevision>)
    requires Homed(br, st) && BranchesGrew(br, br')
    requires forall s :: s in st' ==> (s in st && st'[s] == st[s]) || HomeOf(br', s, st'[s])
    ensures Homed(br', st')
  {
    forall s | s in st'
      ensures HomeOf(br', s, st'[s])
    {
      if s in st && st'[s] == st[s] {
        assert HomeOf(br, s, st[s]);
        assert BranchGrew(br[st[s].branch], br'[st[s].branch]);
      }
    }
  }

  lemma KeepForks(br: map<Id, Branch>, st: map<Id, StepRevision>, br': map<Id, Branch>, st': map<Id, StepRevision>)
    requires Forks(br, st) && BranchesGrew(br, br') && Kept(st, st')
    requires forall b :: b in br ==> br[b].history != []
    requires forall b :: b in br' && b !in br ==> ForkOk(br', st', br'[b])
    ensures Forks(br', st')
  {
    hide ForkOk, BranchesGrew, Kept;
    forall b | b in br'
      ensures ForkOk(br', st', br'[b])
    {
      if b in br {
        KeepFork(br, st, br', st', b);
      }
    }
  }

  lemma KeepFork(br: map<Id, Branch>, st: map<Id, StepRevision>, br': map<Id, Branch>, st': map<Id, StepRevision>, b: Id)
    requires b in br && ForkOk(br, st, br[b]) && BranchesGrew(br, br') && Kept(st, st')
    requires forall x :: x in br ==> br[x].history != []
    ensures ForkOk(br', st', br'[b])
  {
    hide BranchesGrew;
    GrewAt(br, br', b);
    if br[b].parent.Some? {
      GrewAt(br, br', br[b].parent.value);
    }
  }

  lemma GrewAt(br: map<Id, Branch>, br': map<Id, Branch>, b: Id)
    requires BranchesGrew(br, br') && b in br
    ensures b in br' && BranchGrew(br[b], br'[b])
  {
  }

  lemma MovedHistory(b: Branch, n: nat, to: BranchStatus)
    requires HistoryOk(b, n) && to in Transitions(b.status)
    ensures HistoryOk(Moved(b, n + 1, to), n + 1)
  {
    var h, h' := b.history, Moved(b, n + 1, to).history;
    forall i | 0 < i < |h'|
      ensures h'[i].from == Some(h'[i - 1].to) && h'[i].to in Transitions(h'[i - 1].to) && h'[i - 1].seq_ < h'[i].seq_
    {
      if i < |h| {
        assert h'[i] == h[i] && h'[i - 1] == h[i - 1];
      }
    }
  }

  lemma OlderHistory(b: Branch, n: nat)
    requires HistoryOk(b, n)
    ensures HistoryOk(b, n + 1)
  {
    forall i | 0 < i < |b.history|
      ensures b.history[i].from == Some(b.history[i - 1].to) && b.history[i].to in Transitions(b.history[i - 1].to)
      ensures b.history[i - 1].seq_ < b.history[i].seq_
    {
    }
  }

  lemma KeepHistories(br: map<Id, Branch>, br': map<Id, Branch>, n: nat)
    requires Histories(br, n)
    requires forall b :: b in br' ==>
      (b in br && br'[b].history == br[b].history && br'[b].status == br[b].status) || HistoryOk(br'[b], n + 1)
    ensures Histories(br', n + 1)
  {
    hide HistoryOk;
    forall b | b in br'
      ensures HistoryOk(br'[b], n + 1)
    {
      if b in br && br'[b].history == br[b].history && br'[b].status == br[b].status {
        OlderHistory(br[b], n);
        SameHistory(br[b], br'[b], n + 1);
      }
    }
  }

  lemma SameHistory(b: Branch, b': Branch, n: nat)
    requires HistoryOk(b, n) && b'.history == b.history && b'.status == b.status
    ensures HistoryOk(b', n)
  {
  }

  lemma KeepCalls(codec: Codec, br: map<Id, Branch>, cl: map<Id, Call>, br': map<Id, Branch>, cl': map<Id, Call>)
    requires Calls(codec, br, cl) && BranchesGrew(br, br')
    requires forall c :: c in cl' ==> (c in cl && cl'[c] == cl[c]) || CallOk(codec, br', cl'[c])
    ensures Calls(codec, br', cl')
  {
    forall c | c in cl'
      ensures CallOk(codec, br', cl'[c])
    {
      if c in cl && cl'[c] == cl[c] {
        assert CallOk(codec, br, cl[c]);
        if cl[c].target.WriterTarget? {
          assert BranchGrew(br[cl[c].target.branch], br'[cl[c].target.branch]);
        }
      }
    }
  }

  lemma KeepOrigin(codec: Codec, br: map<Id, Branch>, cl: map<Id, Call>, ac: map<Id, Action>, st: map<Id, StepRevision>,
                   br': map<Id, Branch>, cl': map<Id, Call>, ac': map<Id, Action>, s: Id)
    requires s in st && OriginFact(codec, br, cl, ac, st[s])
    requires BranchesGrew(br, br') && CallsGrew(st, cl, cl') && Kept(ac, ac')
    ensures OriginFact(codec, br', cl', ac', st[s])
  {
    if st[s].origin.ModelOrigin? {
      var c := st[s].origin.call;
      assert Materialized(st, c);
      assert CallGrew(cl[c], cl'[c]);
      assert BranchGrew(br[st[s].branch], br'[st[s].branch]);
    }
  }

  lemma KeepOrigins(codec: Codec, br: map<Id, Branch>, cl: map<Id, Call>, ac: map<Id, Action>, st: map<Id, StepRevision>,
                    br': map<Id, Branch>, cl': map<Id, Call>, ac': map<Id, Action>, st': map<Id, StepRevision>)
    requires Origins(codec, br, cl, ac, st)
    requires BranchesGrew(br, br') && CallsGrew(st, cl, cl') && Kept(ac, ac')
    requires forall s :: s in st' ==> (s in st && st'[s] == st[s]) || OriginFact(codec, br', cl', ac', st'[s])
    ensures Origins(codec, br', cl', ac', st')
  {
    forall s | s in st'
      ensures OriginFact(codec, br', cl', ac', st'[s])
    {
      if s in st && st'[s] == st[s] {
        KeepOrigin(codec, br, cl, ac, st, br', cl', ac', s);
      }
    }
  }

  /** Being a revision's own step is a matter of birth. */
  lemma KeepApplied(br: map<Id, Branch>, br': map<Id, Branch>, st: StepRevision)
    requires BranchesGrew(br, br') && st.branch in br
    ensures Applied(br', st) == Applied(br, st)
  {
    assert BranchGrew(br[st.branch], br'[st.branch]);
  }

  lemma KeepRevisionsDistinct(br: map<Id, Branch>, st: map<Id, StepRevision>, br': map<Id, Branch>, st': map<Id, StepRevision>)
    requires RevisionsDistinct(br, st) && BranchesGrew(br, br') && Homed(br, st)
    requires forall s :: s in st' ==> (s in st && st'[s] == st[s]) || !Applied(br', st'[s])
    ensures RevisionsDistinct(br', st')
  {
    forall s | s in st
      ensures Applied(br', st[s]) == Applied(br, st[s])
    {
      assert HomeOf(br, s, st[s]);
      KeepApplied(br, br', st[s]);
    }
  }

  lemma KeepMaterial(ids: seq<Id>, st: map<Id, StepRevision>, st': map<Id, StepRevision>)
    requires Kept(st, st') && forall i :: 0 <= i < |ids| ==> ids[i] in st
    ensures forall i :: 0 <= i < |ids| ==> ids[i] in st'
    ensures Material(ids, st') == Material(ids, st)
  {
  }

  lemma KeepSnapshots(codec: Codec, br: map<Id, Branch>, st: map<Id, StepRevision>, ca: map<Id, Candidate>,
                      br': map<Id, Branch>, st': map<Id, StepRevision>, ca': map<Id, Candidate>)
    requires Snapshots(codec, br, st, ca) && BranchesGrew(br, br') && Kept(st, st')
    requires forall c :: c in ca' ==> (c in ca && ca'[c] == ca[c]) || Snapshot(codec, br', st', ca'[c])
    ensures Snapshots(codec, br', st', ca')
  {
    forall c | c in ca'
      ensures Snapshot(codec, br', st', ca'[c])
    {
      if c in ca && ca'[c] == ca[c] {
        assert Snapshot(codec, br, st, ca[c]);
        assert BranchGrew(br[ca[c].branch], br'[ca[c].branch]);
        KeepMaterial(ca[c].transcript, st, st');
      }
    }
  }

  lemma KeepChecks(st: map<Id, StepRevision>, ch: map<Id, Check>, st': map<Id, StepRevision>, ch': map<Id, Check>, n: nat)
    requires Checks(st, ch, n) && Kept(st, st')
    requires forall c :: c in ch' ==> (c in ch && ch'[c] == ch[c]) || CheckOk(st', ch'[c], n + 1)
    ensures Checks(st', ch', n + 1)
  {
    forall c | c in ch'
      ensures CheckOk(st', ch'[c], n + 1)
    {
      if c in ch && ch'[c] == ch[c] {
        assert CheckOk(st, ch[c], n);
      }
    }
  }

  /** A status that has left `provisional` never changes, for any frozen list. */
  lemma StatusSettles(v11: bool, ca: map<Id, Candidate>, ch: map<Id, Check>, ch': map<Id, Check>, frozen: seq<Id>)
    requires ChecksGrew(v11, ca, ch, ch')
    requires StatusOf(v11, ch, frozen) != Provisional
    ensures StatusOf(v11, ch', frozen) == StatusOf(v11, ch, frozen)
  {
    forall c | c in frozen
      ensures c in ch && ch[c].completed.Some?
      ensures c in ch' && ch'[c].completed == ch[c].completed && ch'[c].verdict == ch[c].verdict
    {
      assert !Pending(ch, c);
      assert CheckGrew(v11, ch[c], ch'[c]);
    }
    forall v: Verdict, c | c in frozen
      ensures HasVerdict(ch', c, v) == HasVerdict(ch, c, v)
    {
    }
  }

  lemma KeepFrozen(v11: bool, ch: map<Id, Check>, ca: map<Id, Candidate>, ch': map<Id, Check>, ca': map<Id, Candidate>)
    requires Frozen(v11, ch, ca) && ChecksGrew(v11, ca, ch, ch')
    requires forall c :: c in ch && ch[c].verdict.Some? ==> ch[c].completed.Some?
    requires forall c :: c in ca' ==> (c in ca && ca'[c] == ca[c]) || FrozenOk(v11, ch', ca'[c])
    ensures Frozen(v11, ch', ca')
  {
    forall k | k in ca'
      ensures FrozenOk(v11, ch', ca'[k])
    {
      if k in ca && ca'[k] == ca[k] {
        assert FrozenOk(v11, ch, ca[k]);
        forall c | c in RequiredChecks(ch', ca[k].transcript)
          ensures c in ca[k].required
        {
          assert c in ch;
          assert CheckGrew(v11, ch[c], ch'[c]);
          assert c in RequiredChecks(ch, ca[k].transcript);
        }
        forall r | r in ca[k].required
          ensures r in ch' && ch'[r].target in ca[k].transcript
          ensures ch'[r].required || (v11 && ch'[r].verdict == Some(InstrumentFailure))
        {
          assert CheckGrew(v11, ch[r], ch'[r]);
        }
      }
    }
  }

  lemma KeepJudged(v11: bool, ch: map<Id, Check>, ca: map<Id, Candidate>, ju: map<Id, Judgement>,
                   ch': map<Id, Check>, ca': map<Id, Candidate>, ju': map<Id, Judgement>)
    requires Judged(v11, ch, ca, ju) && ChecksGrew(v11, ca, ch, ch') && Kept(ca, ca')
    requires forall j :: j in ju' ==>
      (j in ju && JudgementGrew(ju[j], ju'[j]))
      || (ju'[j].candidate in ca && ju'[j].sha == ca[ju'[j].candidate].sha
          && Judgeable(v11, StatusOf(v11, ch, ca[ju'[j].candidate].required)))
    ensures Judged(v11, ch', ca', ju')
  {
    forall j | j in ju'
      ensures ju'[j].candidate in ca' && ju'[j].sha == ca'[ju'[j].candidate].sha
      ensures Judgeable(v11, StatusOf(v11, ch', ca'[ju'[j].candidate].required))
    {
      StatusSettles(v11, ca, ch, ch', ca[ju'[j].candidate].required);
    }
  }

  lemma KeepSelected(v11: bool, ch: map<Id, Check>, ca: map<Id, Candidate>, ju: map<Id, Judgement>, se: map<Id, Selection>,
                     ch': map<Id, Check>, ca': map<Id, Candidate>, ju': map<Id, Judgement>)
    requires Selected(v11, ch, ca, ju, se)
    requires ChecksGrew(v11, ca, ch, ch') && Kept(ca, ca') && JudgementsGrew(ju, ju')
    ensures Selected(v11, ch', ca', ju', se)
  {
    forall s | s in se
      ensures se[s].candidate in ca' && StatusOf(v11, ch', ca'[se[s].candidate].required) == Eligible
      ensures se[s].judgement in ju' && ju'[se[s].judgement].candidate == se[s].candidate
      ensures ju'[se[s].judgement].verdict == Some(Pass)
    {
      StatusSettles(v11, ca, ch, ch', ca[se[s].candidate].required);
      assert JudgementGrew(ju[se[s].judgement], ju'[se[s].judgement]);
    }
  }

  lemma KeepActions(br: map<Id, Branch>, st: map<Id, StepRevision>, cl: map<Id, Call>, ca: map<Id, Candidate>,
                    br': map<Id, Branch>, st': map<Id, StepRevision>, cl': map<Id, Call>, ca': map<Id, Candidate>,
                    ac: map<Id, Action>, n: nat)
    requires Actions(br, st, cl, ca, ac, n)
    requires br.Keys <= br'.Keys && st.Keys <= st'.Keys && cl.Keys <= cl'.Keys && ca.Keys <= ca'.Keys
    ensures Actions(br', st', cl', ca', ac, n + 1)
  {
    forall a | a in ac
      ensures ActionOk(br', st', cl', ca', ac[a], n + 1)
    {
      assert ActionOk(br, st, cl, ca, ac[a], n);
    }
  }
}
