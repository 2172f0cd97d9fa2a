/** How far a host normalisation can move the Writer's text. */
module RecordNormalization {
  import opened Wrappers
  import opened Characters
  import opened RecordModel
  import opened RecordRules
  import MacroExpansion
  import Guard = TypesetGuard

  /** Characters a reader sees: not a backslash, not a control character that transport may have damaged. */
  predicate Visible(c: char) {
    c != '\\' && !RestorableControl(c) && c as int != 0x7F
  }

  function Shown(s: string): string {
    if s == [] then [] else (if Visible(s[0]) then [s[0]] else []) + Shown(s[1..])
  }

  lemma {:induction false} ShownConcat(a: string, b: string)
    ensures Shown(a + b) == Shown(a) + Shown(b)
  {
    if a == [] {
      assert a + b == b;
    } else {
      var head := if Visible(a[0]) then [a[0]] else [];
      assert (a + b)[1..] == a[1..] + b;
      assert Shown(a + b) == head + Shown(a[1..] + b) && Shown(a) == head + Shown(a[1..]);
      hide Shown, Visible;
      ShownConcat(a[1..], b);
    }
  }

  /** Nothing else is hidden: a text of other characters is shown as it is. */
  lemma {:induction false} RestIsShown(s: string)
    requires forall i :: 0 <= i < |s| ==>
               s[i] != '\\' && s[i] as int != 0x7F && (s[i] as int >= 0x20 || s[i] in {'\t', '\n', '\r', 0x0C as char})
    ensures Shown(s) == s && Bare(s) == s
  {
    if s != [] {
      assert s == [s[0]] + s[1..];
      RestIsShown(s[1..]);
    }
  }

  function ShownContent(c: Content): (string, string, string, string, string) {
    (Shown(c.claim), Shown(c.why), Shown(c.source), Shown(c.derivation), Shown(c.scope))
  }

  /** What a control repair takes out or puts in is not shown. */
  lemma RepairIsHidden(codec: Codec, sources: map<Id, Source>, value: string, e: Edit)
    requires (e.kind.ControlBackslash? || e.kind.ControlRemoved? || e.kind.DelRemoved?) && EditOk(codec, sources, value, e)
    ensures Shown(e.original) == [] && Shown(e.replacement) == []
  {
    hide MacroExpansion.Verifies, AnsiEscape, LineCount;
    assert e.original == [e.original[0]];
    assert e.original[1..] == [] && !Visible(e.original[0]);
  }

  lemma RepairShowsTheSame(codec: Codec, sources: map<Id, Source>, c: Content, e: Edit)
    requires (e.kind.ControlBackslash? || e.kind.ControlRemoved? || e.kind.DelRemoved?) && ApplyEdit(codec, sources, c, e).Some?
    ensures ShownContent(ApplyEdit(codec, sources, c, e).value) == ShownContent(c)
  {
    var value := GetField(c, e.field);
    RepairIsHidden(codec, sources, value, e);
    var before, after := value[..e.start], value[e.end..];
    assert value == before + e.original + after;
    hide EditOk, Shown;
    ShownConcat(before, e.original);
    ShownConcat(before + e.original, after);
    ShownConcat(before, e.replacement);
    ShownConcat(before + e.replacement, after);
  }

  /** However many control repairs a normalisation records, the text a reader sees is the Writer's. */
  lemma {:induction false} RepairsShowTheSame(codec: Codec, sources: map<Id, Source>, c: Content, edits: seq<Edit>)
    requires ApplyEdits(codec, sources, c, edits).Some?
    requires forall k :: 0 <= k < |edits| ==> edits[k].kind.ControlBackslash? || edits[k].kind.ControlRemoved? || edits[k].kind.DelRemoved?
    ensures ShownContent(ApplyEdits(codec, sources, c, edits).value) == ShownContent(c)
    decreases |edits|
  {
    hide ShownContent, ApplyEdit;
    if edits != [] {
      var front := edits[..|edits| - 1];
      RepairsShowTheSame(codec, sources, c, front);
      RepairShowsTheSame(codec, sources, ApplyEdits(codec, sources, c, front).value, edits[|edits| - 1]);
    }
  }

  // ----- repairs that remove visible characters ------------------------------------------------

  /** The text without the backslashes a repair may insert. */
  function Bare(s: string): string {
    if s == [] then [] else (if s[0] != '\\' then [s[0]] else []) + Bare(s[1..])
  }

  lemma {:induction false} BareConcat(a: string, b: string)
    ensures Bare(a + b) == Bare(a) + Bare(b)
  {
    if a == [] {
      assert a + b == b;
    } else {
      var head := if a[0] != '\\' then [a[0]] else [];
      assert (a + b)[1..] == a[1..] + b;
      assert Bare(a + b) == head + Bare(a[1..] + b) && Bare(a) == head + Bare(a[1..]);
      hide Bare;
      BareConcat(a[1..], b);
    }
  }

  /** The first text is left of the second when characters are deleted from it. */
  ghost predicate LeftOf(a: string, b: string) {
    exists at :: Guard.Embeds(a, b, at)
  }

  lemma CutLeaves(x: string, m: string, y: string)
    ensures LeftOf(x + y, x + m + y)
  {
    var at: seq<nat> := seq(|x| + |y|, i requires 0 <= i < |x| + |y| => if i < |x| then i else i + |m|);
    assert Guard.Embeds(x + y, x + m + y, at);
  }

  lemma LeftOfLeft(a: string, b: string, c: string)
    requires LeftOf(a, b) && LeftOf(b, c)
    ensures LeftOf(a, c)
  {
    var f :| Guard.Embeds(a, b, f);
    var g :| Guard.Embeds(b, c, g);
    var at: seq<nat> := seq(|f|, i requires 0 <= i < |f| => g[f[i]]);
    assert Guard.Embeds(a, c, at);
  }

  ghost predicate ContentLeftOf(a: Content, b: Content) {
    && LeftOf(Bare(a.claim), Bare(b.claim)) && LeftOf(Bare(a.why), Bare(b.why)) && LeftOf(Bare(a.source), Bare(b.source))
    && LeftOf(Bare(a.derivation), Bare(b.derivation)) && LeftOf(Bare(a.scope), Bare(b.scope))
  }

  lemma SameIsLeft(s: string)
    ensures LeftOf(s, s)
  {
    CutLeaves(s, [], []);
    assert s + [] == s;
  }

  lemma SameContentIsLeft(c: Content)
    ensures ContentLeftOf(c, c)
  {
    hide LeftOf, Bare;
    SameIsLeft(Bare(c.claim));
    SameIsLeft(Bare(c.why));
    SameIsLeft(Bare(c.source));
    SameIsLeft(Bare(c.derivation));
    SameIsLeft(Bare(c.scope));
  }

  lemma RepairOnlyDeletes(codec: Codec, sources: map<Id, Source>, c: Content, e: Edit)
    requires !e.kind.MacroExpansion? && ApplyEdit(codec, sources, c, e).Some?
    ensures ContentLeftOf(ApplyEdit(codec, sources, c, e).value, c)
  {
    var value := GetField(c, e.field);
    var before, after := value[..e.start], value[e.end..];
    assert value == before + e.original + after;
    assert Bare(e.replacement) == [];
    hide Bare, LeftOf;
    BareConcat(before, e.original);
    BareConcat(before + e.original, after);
    BareConcat(before, e.replacement);
    BareConcat(before + e.replacement, after);
    assert Bare(before) + [] == Bare(before);
    CutLeaves(Bare(before), Bare(e.original), Bare(after));
    SameContentIsLeft(c);
  }

  lemma ContentLeftOfLeft(a: Content, b: Content, c: Content)
    requires ContentLeftOf(a, b) && ContentLeftOf(b, c)
    ensures ContentLeftOf(a, c)
  {
    hide LeftOf, Bare;
    LeftOfLeft(Bare(a.claim), Bare(b.claim), Bare(c.claim));
    LeftOfLeft(Bare(a.why), Bare(b.why), Bare(c.why));
    LeftOfLeft(Bare(a.source), Bare(b.source), Bare(c.source));
    LeftOfLeft(Bare(a.derivation), Bare(b.derivation), Bare(c.derivation));
    LeftOfLeft(Bare(a.scope), Bare(b.scope), Bare(c.scope));
  }

  /**
   However many repairs of any kind but a macro expansion a normalisation records, removals
   of escape sequences included, it adds no character other than backslashes: the rest of
   every field is the Writer's, in order, with characters deleted.
   */
  lemma {:induction false} RepairsOnlyDelete(codec: Codec, sources: map<Id, Source>, c: Content, edits: seq<Edit>)
    requires ApplyEdits(codec, sources, c, edits).Some? && forall k :: 0 <= k < |edits| ==> !edits[k].kind.MacroExpansion?
    ensures ContentLeftOf(ApplyEdits(codec, sources, c, edits).value, c)
    decreases |edits|
  {
    hide ContentLeftOf, ApplyEdit;
    if edits == [] {
      SameContentIsLeft(c);
    } else {
      var front := edits[..|edits| - 1];
      var mid := ApplyEdits(codec, sources, c, front).value;
      RepairsOnlyDelete(codec, sources, c, front);
      RepairOnlyDeletes(codec, sources, mid, edits[|edits| - 1]);
      ContentLeftOfLeft(ApplyEdits(codec, sources, c, edits).value, mid, c);
    }
  }

  /** The quotation field: no macro expansion ever touches it. */
  lemma {:induction false} QuotationsAreNotExpanded(codec: Codec, sources: map<Id, Source>, c: Content, edits: seq<Edit>)
    requires ApplyEdits(codec, sources, c, edits).Some?
    requires forall k :: 0 <= k < |edits| ==> edits[k].kind.MacroExpansion? || edits[k].field != SourceField
    ensures ApplyEdits(codec, sources, c, edits).value.source == c.source
    decreases |edits|
  {
    if edits != [] {
      QuotationsAreNotExpanded(codec, sources, c, edits[..|edits| - 1]);
    }
  }

  /** An accepted expansion is one of the two its cited definition yields, up to one final space. */
  lemma ExpansionsAreCited(codec: Codec, sources: map<Id, Source>, value: string, e: Edit)
    requires e.kind.MacroExpansion? && EditOk(codec, sources, value, e)
    ensures e.kind.source in sources
    ensures var table := codec.table(sources);
            var cited := MacroExpansion.Cited(table, MacroExpansion.Replacement(value, e.end, e.original, e.replacement, e.kind.source, e.kind.line));
            && cited.Some?
            && var (d, values) := cited.value;
            var nested := MacroExpansion.Nested(table, d, values);
            || e.replacement in {MacroExpansion.OneLevel(table, d, values), MacroExpansion.OneLevel(table, d, values) + " "}
            || (nested.Some? && e.replacement in {nested.value, nested.value + " "})
  {
    var r := MacroExpansion.Replacement(value, e.end, e.original, e.replacement, e.kind.source, e.kind.line);
    assert MacroExpansion.Verifies(codec.table(sources), r);
    hide EditOk, MacroExpansion.Verifies;
    MacroExpansion.CitationFixesReplacement(codec.table(sources), r);
  }
}
