/**
 What replay's small readings mean: the text of a call, the effective hash, quotations, the
 legal moves of a branch, and which repairs of the Writer's text are allowed. The handlers
 share them; here each is said on the recorded data itself.
 */
module RecordReadings {
  import opened Characters
  import opened Wrappers
  import opened RecordModel
  import opened RecordRules
  import opened RecordInvariant
  import opened RecordRuns
  import opened RecordLineage
  import opened RecordProvenance
  import RecordEngine
  import MacroExpansion

  // ----- calls -----------------------------------------------------------------------

  /** The body of a call is its body chunks in order, nothing else; the raw texts likewise. */
  lemma {:induction false} ChunksAreRead(chunks: seq<Chunk>, c: Chunk)
    ensures BodyText(chunks + [c]) == BodyText(chunks) + if c.channel == Body then c.text else []
    ensures RawTexts(chunks + [c]) == RawTexts(chunks) + if c.channel == Raw then [c.text] else []
    ensures BodyText([]) == [] && RawTexts([]) == []
  {
    if chunks != [] {
      assert (chunks + [c])[1..] == chunks[1..] + [c];
      ChunksAreRead(chunks[1..], c);
    }
  }

  /** The only chunk of the call on the raw channel is chunk k. */
  ghost predicate OnlyRaw(chunks: seq<Chunk>, k: nat) {
    k < |chunks| && forall i :: 0 <= i < |chunks| ==> (chunks[i].channel == Raw <==> i == k)
  }

  lemma {:induction false} NoRawText(chunks: seq<Chunk>)
    ensures RawTexts(chunks) == [] <==> forall i :: 0 <= i < |chunks| ==> chunks[i].channel != Raw
  {
    if chunks != [] {
      NoRawText(chunks[1..]);
      assert forall i :: 0 < i < |chunks| ==> chunks[i] == chunks[1..][i - 1];
    }
  }

  lemma {:induction false} OneRawText(chunks: seq<Chunk>, k: nat)
    requires OnlyRaw(chunks, k)
    ensures RawTexts(chunks) == [chunks[k].text]
  {
    NoRawText(chunks[1..]);
    if k > 0 {
      OneRawText(chunks[1..], k - 1);
    }
  }

  lemma {:induction false} OneIsOnly(chunks: seq<Chunk>) returns (k: nat)
    requires |RawTexts(chunks)| == 1
    ensures OnlyRaw(chunks, k)
  {
    assert forall i :: 0 < i < |chunks| ==> chunks[i] == chunks[1..][i - 1];
    if chunks[0].channel == Raw {
      NoRawText(chunks[1..]);
      k := 0;
    } else {
      k := OneIsOnly(chunks[1..]);
      k := k + 1;
    }
  }

  /** A Writer's decision is read from the one raw chunk of its call, and there is none without or with several. */
  lemma ControlIsTheRawChunk(codec: Codec, call: Call, k: nat)
    ensures OnlyRaw(call.chunks, k) ==> WriterControl(codec, call) == codec.control(call.chunks[k].text)
    ensures WriterControl(codec, call).Some? ==> exists i :: OnlyRaw(call.chunks, i)
  {
    if OnlyRaw(call.chunks, k) {
      OneRawText(call.chunks, k);
    }
    if |RawTexts(call.chunks)| == 1 {
      var i := OneIsOnly(call.chunks);
    }
  }

  /** An accepted normalisation makes the recorded content's hash the effective one; any other call's is its output's. */
  lemma NormalizationCounts(codec: Codec, l: Ledger, e: Event)
    requires e.body.WriterOutputNormalized? && CanNormalize(codec, l, e)
    ensures var before, after := l.calls[e.body.call], AfterNormalize(l, e).calls[e.body.call];
            && WriterOutputSha(after) == Some(codec.textSha(codec.encode(e.body.content)))
            && WriterOutputSha(before) == Some(e.body.rawSha) && before.output.value.sha == e.body.rawSha
            && WriterOutputSha(after) != WriterOutputSha(before)
  {
  }

  /** In every accepted log, a model step carries the normalised hash of its call, or else its output's. */
  lemma StepsCarryTheirCallsHash(codec: Codec, log: seq<Event>, s: Id)
    requires Fold(codec, log).Some? && s in Fold(codec, log).value.steps
    requires Fold(codec, log).value.steps[s].origin.ModelOrigin?
    ensures var l := Fold(codec, log).value;
            && l.steps[s].origin.call in l.calls
            && var call := l.calls[l.steps[s].origin.call];
            && call.role.WriterRole? && call.state.Finished? && call.output.Some?
            && call.output.value.sha == codec.textSha(call.output.value.text)
            && l.steps[s].sha == (match call.normalized case Some(sha) => sha case None => call.output.value.sha)
            && l.steps[s].sha == codec.textSha(codec.encode(l.steps[s].content))
  {
    hide Fold;
    FoldOk(codec, log);
    hide Slotted, Homed, Forks, Histories, RevisionsDistinct, VersionOk, Checks, Snapshots, Frozen, Judged,
         Selected, Budgets, Actions, HumanBranches;
    var l := Fold(codec, log).value;
    assert OriginFact(codec, l.branches, l.calls, l.actions, l.steps[s]);
    assert CallOk(codec, l.branches, l.calls[l.steps[s].origin.call]);
  }

  /** Who may start a call of each role, with the model the run names for it, and on which target. */
  lemma StartedCallsMean(l: Ledger, e: Event)
    requires e.body.ModelCallStarted?
    ensures CanStartCall(l, e) <==>
            && l.run.Some? && e.body.call !in l.calls
            && (l.run.value.config.maxModelCalls.Some? ==> |l.calls| < l.run.value.config.maxModelCalls.value)
            && (forall c :: c in l.calls && l.calls[c].state.Started? && l.calls[c].role == e.body.role ==>
                  l.calls[c].target != e.body.target)
            && match e.body.role
               case WriterRole =>
                 && e.actor.Model? && e.body.spec == l.run.value.config.writer
                 && e.body.target.WriterTarget? && e.body.target.branch in l.branches
                 && l.branches[e.body.target.branch].status.Active?
                 && e.body.target.slot == |l.branches[e.body.target.branch].steps| + 1
               case CheckerRole =>
                 && e.actor.Checker? && e.body.spec == l.run.value.config.checker
                 && e.body.target.CheckerTarget? && e.body.target.check in l.checks
                 && l.checks[e.body.target.check].completed.None?
               case JudgeRole =>
                 && e.actor.Judge? && e.body.spec == l.run.value.config.judge
                 && e.body.target.JudgeTarget? && e.body.target.judgement in l.judgements
                 && l.judgements[e.body.target.judgement].verdict.None?
  {
  }

  // ----- branches ----------------------------------------------------------------------

  /**
   The legal moves: nothing leaves `killed` and nothing moves to where it is, a branch
   completes only while active, and a completed one is only reopened or killed.
   */
  lemma TransitionsIff(from: BranchStatus, to: BranchStatus)
    ensures to in Transitions(from) <==>
            && from != Killed && to != from
            && (to == Completed ==> from == Active)
            && (from == Completed ==> to in {Active, Killed})
  {
  }

  /** In every accepted log a branch moves only so. */
  lemma BranchesMoveLegally(codec: Codec, log: seq<Event>, b: Id, i: nat)
    requires Fold(codec, log).Some? && b in Fold(codec, log).value.branches
    requires 0 < i < |Fold(codec, log).value.branches[b].history|
    ensures var h := Fold(codec, log).value.branches[b].history;
            && h[i].from == Some(h[i - 1].to) && h[i - 1].seq_ < h[i].seq_ <= |log|
            && h[i - 1].to != Killed && h[i].to != h[i - 1].to
            && (h[i].to == Completed ==> h[i - 1].to == Active)
            && (h[i - 1].to == Completed ==> h[i].to in {Active, Killed})
  {
    hide Fold;
    FoldOk(codec, log);
    hide Slotted, Homed, Forks, Calls, Origins, RevisionsDistinct, VersionOk, Checks, Snapshots, Frozen, Judged,
         Selected, Actions, HumanBranches, Budgets, Transitions;
    var h := Fold(codec, log).value.branches[b].history;
    assert HistoryOk(Fold(codec, log).value.branches[b], Fold(codec, log).value.count);
    TransitionsIff(h[i - 1].to, h[i].to);
  }

  /** Every member is a branch that is active. */
  ghost predicate ActiveOnes(branches: map<Id, Branch>, members: set<Id>) {
    forall b :: b in members ==> b in branches && branches[b].status == Active
  }

  /** The limit is kept exactly when no set of active branches is larger than it. */
  lemma ActiveLimitIff(run: Option<Run>, branches: map<Id, Branch>)
    ensures WithinActiveLimit(run, branches) <==>
            (run.Some? && run.value.config.maxActiveBranches.Some? ==>
               forall members: set<Id> :: ActiveOnes(branches, members) ==> |members| <= run.value.config.maxActiveBranches.value)
  {
    var all := ActiveBranches(branches);
    assert ActiveOnes(branches, all);
    forall members | ActiveOnes(branches, members)
      ensures |members| <= |all|
    {
      SubsetSize(members, all);
    }
  }

  /** A lineage lists the ancestry from the root down. */
  lemma {:induction false} LineagesAreRootFirst(s: seq<Id>, i: nat)
    requires i < |s|
    ensures |RecordEngine.Reversed(s)| == |s| && RecordEngine.Reversed(s)[i] == s[|s| - 1 - i]
  {
    if |s| > 1 {
      LineagesAreRootFirst(s[1..], if i < |s| - 1 then i else 0);
    }
  }

  /** An action is operational for a branch exactly when it pauses, resumes or kills the branch or an ancestor of it. */
  lemma OperationalMeans(branches: map<Id, Branch>, actions: map<Id, Action>, b: Id, a: Id)
    ensures a in Operational(branches, actions, b) <==>
            && a in actions && actions[a].kind in {PauseBranch, ResumeBranch, KillBranch}
            && exists x :: x in Ancestry(branches, b) && actions[a].target == OnBranch(x)
  {
    hide Ancestry;
    if a in actions && actions[a].target.OnBranch? {
      assert actions[a].target == OnBranch(actions[a].target.branch);
    }
  }

  // ----- the envelope ---------------------------------------------------------------------

  /** A v1 record holds none of the six events that Record 1.1 added. */
  lemma V1EventsAreV1(codec: Codec, l: Ledger, e: Event)
    requires EnvelopeOk(codec, l, e) && e.version == V1
    ensures !e.body.SourceRegistered? && !e.body.ModelRevisionApplied? && !e.body.ModelRevisionDeferred?
    ensures !e.body.CheckRetryAuthorized? && !e.body.WriterRouteCompletion? && !e.body.WriterOutputNormalized?
  {
  }

  /** Every other event is welcome in both versions. */
  lemma SharedEventsNeedNoVersion(codec: Codec, l: Ledger, e: Event)
    requires !(e.body.SourceRegistered? || e.body.ModelRevisionApplied? || e.body.ModelRevisionDeferred?
               || e.body.CheckRetryAuthorized? || e.body.WriterRouteCompletion? || e.body.WriterOutputNormalized?)
    ensures EnvelopeOk(codec, l, e) <==>
            && (l.version.Some? ==> l.version == Some(e.version)) && e.seq_ == l.count + 1 && e.id !in l.eventIds
            && (if l.runId.None? then e.body.RunCreated? && e.prev.None?
                else l.runId == Some(e.run) && e.prev.Some? && e.prev == l.head)
            && e.sha == codec.eventSha(e.(sha := 0))
  {
  }

  /** With an injective event hash, two events have the same seal exactly when they differ at most in their own hash. */
  lemma SealsCoverTheRest(codec: Codec, a: Event, b: Event)
    requires forall x: Event, y: Event :: codec.eventSha(x) == codec.eventSha(y) ==> x == y
    ensures codec.Seal(a) == codec.Seal(b) <==> a == b.(sha := a.sha)
  {
    assert codec.Seal(a) == codec.Seal(b) ==> a.(sha := 0) == b.(sha := 0);
    assert a.(sha := 0) == b.(sha := 0) ==> a.(sha := 0).(sha := a.sha) == b.(sha := 0).(sha := a.sha);
  }

  // ----- quotations -----------------------------------------------------------------------

  /** The text is this, the quotation, and that. */
  ghost predicate Around(text: string, a: string, quote: string, b: string) {
    text == a + quote + b
  }

  /** A quotation is found exactly when the text holds it, character for character, in one piece. */
  lemma QuotesIff(text: string, quote: string)
    ensures Quotes(text, quote) <==> exists a, b :: Around(text, a, quote, b)
  {
    if i :| 0 <= i <= |text| && QuotedAt(text, quote, i) {
      assert Around(text, text[..i], quote, text[i + |quote|..]);
    }
    if a, b :| Around(text, a, quote, b) {
      assert QuotedAt(text, quote, |a|);
    }
  }

  lemma QuotedWithin(text: string, a: string, part: string, b: string, quote: string)
    requires text == a + part + b && Quotes(part, quote)
    ensures Quotes(text, quote)
  {
    hide Quotes;
    QuotesIff(part, quote);
    QuotesIff(text, quote);
    var x, y :| Around(part, x, quote, y);
    assert a + (x + quote + y) + b == (a + x) + quote + (y + b);
    assert Around(text, a + x, quote, y + b);
  }

  /** Where a field stands in the evidence text of its step. */
  lemma FieldInText(codec: Codec, c: Content, f: Field) returns (before: string, after: string)
    ensures AncestorText(codec, true, c) == before + GetField(c, f) + after
  {
    var h1, h2, h3, h4, h5 := "claim:\n", "\n\nwhy:\n", "\n\nsource:\n", "\n\nderivation:\n", "\n\nscope:\n";
    var text := AncestorText(codec, true, c);
    assert text == h1 + c.claim + h2 + c.why + h3 + c.source + h4 + c.derivation + h5 + c.scope;
    match f {
      case Claim => before := h1;
      case Why => before := h1 + c.claim + h2;
      case SourceField => before := h1 + c.claim + h2 + c.why + h3;
      case Derivation => before := h1 + c.claim + h2 + c.why + h3 + c.source + h4;
      case Scope => before := h1 + c.claim + h2 + c.why + h3 + c.source + h4 + c.derivation + h5;
    }
    hide AncestorText;
    assert before + GetField(c, f) <= text;
    after := text[|before + GetField(c, f)|..];
  }

  /** What any field of an ancestor step says can be quoted from it; in v1 what is quoted is its canonical JSON. */
  lemma FieldsCanBeQuoted(codec: Codec, c: Content, f: Field, quote: string)
    requires Quotes(GetField(c, f), quote)
    ensures Quotes(AncestorText(codec, true, c), quote)
    ensures AncestorText(codec, false, c) == codec.encode(c)
  {
    hide Quotes;
    var before, after := FieldInText(codec, c, f);
    QuotedWithin(AncestorText(codec, true, c), before, GetField(c, f), after, quote);
  }

  // ----- repairs of the Writer's text --------------------------------------------------------

  /** Each field of a content is read and written under its own name. */
  lemma FieldsAreTheirOwn(c: Content, t: string, f: Field)
    ensures GetField(c, Claim) == c.claim && GetField(c, Why) == c.why && GetField(c, SourceField) == c.source
    ensures GetField(c, Derivation) == c.derivation && GetField(c, Scope) == c.scope
    ensures GetField(SetField(c, f, t), f) == t
    ensures forall g: Field :: g != f ==> GetField(SetField(c, f, t), g) == GetField(c, g)
  {
  }

  /** The lines of a text: one more than its line feeds. */
  lemma {:induction false} LinesAreCounted(s: string)
    ensures LineCount(s) == 1 + multiset(s)['\n']
  {
    if s != [] {
      LinesAreCounted(s[1..]);
      assert s == [s[0]] + s[1..];
    }
  }

  ghost predicate Coded(s: string, lo: int, hi: int) {
    forall c :: c in s ==> lo <= c as int <= hi
  }

  /** ESC, an opening bracket, parameters, intermediates and one final character, all in their ranges. */
  ghost predicate Sequence(s: string, parameters: string, intermediates: string, final: char) {
    && s == [0x1B as char, '['] + parameters + intermediates + [final]
    && Coded(parameters, 0x30, 0x3F) && Coded(intermediates, 0x20, 0x2F) && 0x40 <= final as int <= 0x7E
  }

  lemma CodedIff(s: string, lo: int, hi: int)
    ensures AllIn(s, lo, hi) <==> Coded(s, lo, hi)
  {
    assert forall i :: 0 <= i < |s| ==> s[i] in s;
  }

  lemma AnsiEscapeIff(s: string)
    ensures AnsiEscape(s) <==> exists p, i, f :: Sequence(s, p, i, f)
  {
    if AnsiEscape(s) {
      var k :| 2 <= k <= |s| - 1 && AllIn(s[2..k], 0x30, 0x3F) && AllIn(s[k..|s| - 1], 0x20, 0x2F);
      CodedIff(s[2..k], 0x30, 0x3F);
      CodedIff(s[k..|s| - 1], 0x20, 0x2F);
      assert Sequence(s, s[2..k], s[k..|s| - 1], s[|s| - 1]);
    }
    if p, i, f :| Sequence(s, p, i, f) {
      CodedIff(p, 0x30, 0x3F);
      CodedIff(i, 0x20, 0x2F);
      assert s[2..2 + |p|] == p && s[2 + |p|..|s| - 1] == i;
    }
  }

  /** The control characters that JSON transport may have damaged: all below space but the white space ones. */
  ghost predicate Damaged(c: char) {
    c as int < 0x20 && c !in {'\t', '\n', '\r', 0x0C as char}
  }

  /** The text goes on with a letter, or with a control word. */
  ghost predicate WordFollows(rest: string) {
    rest != [] && ('a' <= rest[0] <= 'z' || 'A' <= rest[0] <= 'Z')
  }

  /** What the five kinds of edit allow, for the text before, the replaced text and the text after. */
  ghost predicate Allowed(codec: Codec, sources: map<Id, Source>, e: Edit, before: string, after: string) {
    match e.kind
    case ControlBackslash =>
      (exists c :: e.original == [c] && Damaged(c)) && e.replacement == ['\\'] && WordFollows(after)
    case ControlRemoved =>
      (exists c :: e.original == [c] && Damaged(c)) && e.replacement == [] && after != [] && after[0] == '\\' && WordFollows(after[1..])
    case DelRemoved =>
      e.original == [0x7F as char] && e.replacement == [] && after != [] && after[0] == '\\'
    case AnsiEscapeRemoved =>
      (exists p, i, f :: Sequence(e.original, p, i, f)) && e.replacement == []
    case MacroExpansion(source, line) =>
      && e.field != SourceField && e.original != [] && e.original[0] == '\\' && WordFollows(e.original[1..])
      && source in sources && 1 <= line <= 1 + multiset(sources[source].text)['\n']
      && MacroExpansion.Verifies(codec.table(sources),
                                 MacroExpansion.Replacement(before + e.original + after, |before + e.original|, e.original,
                                                            e.replacement, source, line))
  }

  lemma SingleDamaged(s: string)
    ensures |s| == 1 && RestorableControl(s[0]) <==> exists c :: s == [c] && Damaged(c)
  {
    if |s| == 1 {
      assert s == [s[0]];
    }
  }

  /** An edit is applied exactly when it changes something, sits where it says, and its kind allows it. */
  lemma EditIff(codec: Codec, sources: map<Id, Source>, value: string, e: Edit)
    ensures EditOk(codec, sources, value, e) <==>
            && e.original != e.replacement
            && 0 <= e.start <= e.end <= |value| && value == value[..e.start] + e.original + value[e.end..]
            && Allowed(codec, sources, e, value[..e.start], value[e.end..])
  {
    hide RestorableControl, Damaged, AnsiEscape, LineCount, MacroExpansion.Verifies;
    SingleDamaged(e.original);
    AnsiEscapeIff(e.original);
    if e.kind.MacroExpansion? && e.kind.source in sources {
      LinesAreCounted(sources[e.kind.source].text);
    }
    if 0 <= e.start <= e.end <= |value| {
      assert value == value[..e.start] + value[e.start..e.end] + value[e.end..];
      if value == value[..e.start] + e.original + value[e.end..] {
        assert |value| == e.start + |e.original| + (|value| - e.end);
        assert value[e.start..e.end] == e.original;
      }
    }
  }

  /** What an accepted edit does: the field with the original replaced, and every other field as it was. */
  lemma EditsReplace(codec: Codec, sources: map<Id, Source>, c: Content, e: Edit)
    requires ApplyEdit(codec, sources, c, e).Some?
    ensures var d := ApplyEdit(codec, sources, c, e).value;
            && 0 <= e.start <= |GetField(c, e.field)|
            && (exists after :: GetField(c, e.field) == GetField(c, e.field)[..e.start] + e.original + after
                                && GetField(d, e.field) == GetField(c, e.field)[..e.start] + e.replacement + after)
            && forall g: Field :: g != e.field ==> GetField(d, g) == GetField(c, g)
  {
    hide EditOk, GetField, SetField;
    var value := GetField(c, e.field);
    EditIff(codec, sources, value, e);
    FieldsAreTheirOwn(c, value[..e.start] + e.replacement + value[e.end..], e.field);
    var after := value[e.end..];
    assert value == value[..e.start] + e.original + after;
  }
}
