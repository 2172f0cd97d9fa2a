/**
 What the balance check on a replacement says about the arguments that were put into it:
 an optional argument need not be balanced, and whether the check notices depends on how
 deep in the template it is used.
 */
module MacroBalance {
  import opened Characters
  import opened Wrappers
  import opened TexGroups
  import opened MacroExpansion

  // ----- the scan of a substitution ---------------------------------------------------------

  /** The scan of a template from `i` on with the values in place of its parameters. */
  function Woven(template: string, values: seq<string>, i: nat, s: Scan): Scan
    decreases |template| - i
  {
    if i >= |template| then s
    else if template[i] == '#' && i + 1 < |template| && template[i + 1] == '#' then Woven(template, values, i + 2, Step(s, '#'))
    else if template[i] == '#' && i + 1 < |template| && Parameter(template[i + 1], |values|).Some? then
      Woven(template, values, i + 2, Feed(s, values[Parameter(template[i + 1], |values|).value - 1]))
    else Woven(template, values, i + 1, Step(s, template[i]))
  }

  lemma WordsEndPlainly(s: Scan, text: string)
    requires EndsInControlWord(text)
    ensures !Feed(s, text).escaped
  {
    var c := text[|text| - 1];
    if c != '\n' {
      var k :| 0 <= k < |text| - 1 && text[k] == '\\' && forall j :: k < j < |text| ==> IsLetter(text[j]);
      assert IsLetter(c);
    }
  }

  lemma JoinFeeds(alpha: char -> bool, left: string, right: string)
    ensures Feed(START, Join(alpha, left, right)) == Feed(Feed(START, left), right)
  {
    FeedConcat(START, left, right);
    if right != [] && alpha(right[0]) && EndsInControlWord(left) {
      FeedConcat(START, left + " ", right);
      FeedConcat(START, left, " ");
      FeedOne(Feed(START, left), ' ');
      WordsEndPlainly(START, left);
    }
  }

  lemma {:induction false} SubstitutionFeeds(alpha: char -> bool, template: string, values: seq<string>, i: nat, out: string, boundary: bool)
    ensures Feed(START, SubstituteFrom(alpha, template, values, i, out, boundary)) == Woven(template, values, i, Feed(START, out))
    decreases |template| - i
  {
    hide Join, Feed, Step;
    if i < |template| {
      if template[i] == '#' && i + 1 < |template| && template[i + 1] == '#' {
        FeedConcat(START, out, "#");
        FeedOne(Feed(START, out), '#');
        SubstitutionFeeds(alpha, template, values, i + 2, out + "#", false);
      } else if template[i] == '#' && i + 1 < |template| && Parameter(template[i + 1], |values|).Some? {
        var v := values[Parameter(template[i + 1], |values|).value - 1];
        JoinFeeds(alpha, out, v);
        SubstitutionFeeds(alpha, template, values, i + 2, Join(alpha, out, v), true);
      } else {
        var c := [template[i]];
        JoinFeeds(alpha, out, c);
        FeedConcat(START, out, c);
        FeedOne(Feed(START, out), template[i]);
        SubstitutionFeeds(alpha, template, values, i + 1, if boundary then Join(alpha, out, c) else out + c, false);
      }
    }
  }

  /**
   Whatever the template and the values, what the balance check says of the substitution
   is what a scan of the template says that reads the values where they are used.
   */
  lemma SubstitutionBalancedIff(alpha: char -> bool, template: string, values: seq<string>)
    ensures Balanced(Substituted(alpha, template, values)) <==>
            Woven(template, values, 0, START).depth == 0 && Woven(template, values, 0, START).low >= 0
  {
    SubstitutionFeeds(alpha, template, values, 0, [], false);
    BalancedIff(Substituted(alpha, template, values));
  }

  // ----- values whose braces cancel out ----------------------------------------------------------

  /** What reading an argument always gives: braces cancel out, and no escape is cut. */
  predicate Cancels(value: string) {
    Net(value) == 0 && !Feed(START, value).escaped
  }

  /** No parameter stands behind a lone backslash, which would take the value's first character with it. */
  predicate Free(template: string, n: nat, i: nat)
    decreases |template| - i
  {
    if i >= |template| then true
    else if template[i] == '#' && i + 1 < |template| && template[i + 1] == '#' then Free(template, n, i + 2)
    else if template[i] == '#' && i + 1 < |template| && Parameter(template[i + 1], n).Some? then
      !Escaped(template, i) && Free(template, n, i + 2)
    else Free(template, n, i + 1)
  }

  /** Every use of a parameter lies in at least as many open groups as its value closes ahead of opening. */
  predicate DeepEnough(template: string, values: seq<string>, i: nat)
    decreases |template| - i
  {
    if i >= |template| then true
    else if template[i] == '#' && i + 1 < |template| && template[i + 1] == '#' then DeepEnough(template, values, i + 2)
    else if template[i] == '#' && i + 1 < |template| && Parameter(template[i + 1], |values|).Some? then
      Net(template[..i]) >= Deficit(values[Parameter(template[i + 1], |values|).value - 1]) && DeepEnough(template, values, i + 2)
    else DeepEnough(template, values, i + 1)
  }

  lemma NeutralStep(s: Scan, c: char)
    requires c !in "\\{}" && s.low <= s.depth
    ensures Step(s, c) == s.(escaped := false)
  {
  }

  /** The scan with values stands as deep as the scan of the template, and is as good if all uses so far were deep enough. */
  predicate Matched(template: string, i: nat, s: Scan, deep: bool)
    requires i <= |template|
  {
    var t := Feed(START, template[..i]);
    s.depth == t.depth && s.escaped == t.escaped && s.low <= s.depth && t.low <= t.depth && (s.low >= 0 <==> t.low >= 0 && deep)
  }

  lemma PlainMatched(template: string, i: nat, s: Scan, deep: bool)
    requires i < |template| && Matched(template, i, s, deep)
    ensures Matched(template, i + 1, Step(s, template[i]), deep)
  {
    hide Feed;
    FeedNext(template, i);
  }

  lemma PairMatched(template: string, i: nat, s: Scan, deep: bool)
    requires i + 1 < |template| && Matched(template, i, s, deep) && template[i] == '#' && template[i + 1] == '#'
    ensures Matched(template, i + 2, Step(s, '#'), deep)
  {
    hide Feed;
    var t := Feed(START, template[..i]);
    FeedNext(template, i);
    FeedNext(template, i + 1);
  }

  lemma UseMatched(template: string, i: nat, s: Scan, deep: bool, v: string)
    requires i + 1 < |template| && Matched(template, i, s, deep) && template[i] == '#' && template[i + 1] !in "\\{}"
    requires !Escaped(template, i) && Cancels(v)
    ensures Matched(template, i + 2, Feed(s, v), deep && Net(template[..i]) >= Deficit(v))
  {
    hide Feed, Escaped;
    FeedNext(template, i);
    FeedNext(template, i + 1);
    ScanEscapes(template, i);
    FeedShift(s, v);
  }

  lemma {:induction false} WovenAlong(template: string, values: seq<string>, i: nat, s: Scan, deep: bool)
    requires i <= |template| && Free(template, |values|, i) && forall v :: v in values ==> Cancels(v)
    requires Matched(template, i, s, deep)
    ensures Woven(template, values, i, s).depth == Net(template)
    ensures Woven(template, values, i, s).low >= 0 <==> Deficit(template) == 0 && deep && DeepEnough(template, values, i)
    decreases |template| - i
  {
    hide Feed, Step, Matched, Escaped, Cancels, Net, Deficit;
    if i == |template| {
      WovenToTheEnd(template, s, deep);
    } else if template[i] == '#' && i + 1 < |template| && template[i + 1] == '#' {
      PairMatched(template, i, s, deep);
      WovenAlong(template, values, i + 2, Step(s, '#'), deep);
    } else if template[i] == '#' && i + 1 < |template| && Parameter(template[i + 1], |values|).Some? {
      var v := values[Parameter(template[i + 1], |values|).value - 1];
      UseMatched(template, i, s, deep, v);
      WovenAlong(template, values, i + 2, Feed(s, v), deep && Net(template[..i]) >= Deficit(v));
    } else {
      PlainMatched(template, i, s, deep);
      WovenAlong(template, values, i + 1, Step(s, template[i]), deep);
    }
  }

  lemma WovenToTheEnd(template: string, s: Scan, deep: bool)
    requires Matched(template, |template|, s, deep)
    ensures s.depth == Net(template) && (s.low >= 0 <==> Deficit(template) == 0 && deep)
  {
    assert template[..|template|] == template;
  }

  /**
   Values whose braces cancel out, in a template without an escaped parameter: the
   replacement passes the balance check if and only if the template is balanced and uses
   every value at least as deep as the value's own deficit. So it rejects an unbalanced
   value exactly where the template uses it too shallow.
   */
  lemma CheckRejectsIff(alpha: char -> bool, template: string, values: seq<string>)
    requires Free(template, |values|, 0) && forall v :: v in values ==> Cancels(v)
    ensures Balanced(Substituted(alpha, template, values)) <==> Balanced(template) && DeepEnough(template, values, 0)
  {
    assert template[..0] == [];
    SubstitutionBalancedIff(alpha, template, values);
    WovenAlong(template, values, 0, START, true);
    BalancedIff(template);
  }

  // ----- what is read as an argument -----------------------------------------------------------------

  lemma {:induction false} NameCharsArePlain(text: string, i: nat)
    ensures forall k :: i <= k < i + NameChars(text, i) ==> text[k] !in "\\{}"
    decreases |text| - i
  {
    if i < |text| && (IsLetter(text[i]) || text[i] == '@') {
      NameCharsArePlain(text, i + 1);
    }
  }

  lemma {:induction false} PlainFeeds(s: Scan, text: string)
    requires s.low <= s.depth && forall k :: 0 <= k < |text| ==> text[k] !in "\\{}"
    ensures Feed(s, text) == if text == [] then s else s.(escaped := false)
    decreases |text|
  {
    if text != [] {
      var front := text[..|text| - 1];
      assert forall k :: 0 <= k < |front| ==> front[k] == text[k];
      PlainFeeds(s, front);
      NeutralStep(Feed(s, front), text[|text| - 1]);
    }
  }

  /** A control sequence is balanced and complete: its one escape takes its first character. */
  lemma ControlSequenceCancels(text: string, p: nat, end: nat)
    requires p + 1 < end <= |text| && text[p] == '\\' && forall k :: p + 2 <= k < end ==> text[k] !in "\\{}"
    ensures Feed(START, text[p..end]) == START
  {
    var rest := text[p + 2..end];
    assert text[p..end] == [text[p]] + [text[p + 1]] + rest;
    FeedOne(START, text[p]);
    FeedConcat(START, [text[p]], [text[p + 1]]);
    FeedOne(Step(START, text[p]), text[p + 1]);
    FeedConcat(START, [text[p]] + [text[p + 1]], rest);
    PlainFeeds(START, rest);
  }

  /** A mandatory argument is balanced and complete. */
  lemma ArgumentsAreBalanced(text: string, pos: nat)
    requires ArgumentAt(text, pos).Some?
    ensures Cancels(ArgumentAt(text, pos).value.inner) && Balanced(ArgumentAt(text, pos).value.inner)
  {
    var p := SkipSpace(text, pos);
    var g := ArgumentAt(text, pos).value;
    if text[p] == '{' {
      GroupsAreBalanced(text, p);
      CompleteIsNotEscaped(g.inner, 0);
    } else if text[p] == '\\' {
      NameCharsArePlain(text, p + 1);
      ControlSequenceCancels(text, p, g.end);
    } else {
      assert text[p..p + 1] == [text[p]];
      FeedOne(START, text[p]);
    }
    BalancedIff(g.inner);
  }

  /** A text that does not dangle ends in no pending escape. */
  lemma {:induction false} CompleteIsNotEscaped(text: string, i: nat)
    requires i <= |text| && !DanglingFrom(text, i) && !Feed(START, text[..i]).escaped
    ensures !Feed(START, text).escaped
    decreases |text| - i
  {
    if i == |text| {
      assert text[..i] == text;
    } else {
      FeedNext(text, i);
      if text[i] == '\\' {
        FeedNext(text, i + 1);
        CompleteIsNotEscaped(text, i + 2);
      } else {
        CompleteIsNotEscaped(text, i + 1);
      }
    }
  }

  lemma {:induction false} MoreArgumentsCancel(text: string, cursor: nat, values: seq<string>, nargs: nat)
    requires MoreArguments(text, cursor, values, nargs).Some? && forall v :: v in values ==> Cancels(v)
    ensures var r := MoreArguments(text, cursor, values, nargs).value.values;
            && values <= r && (forall v :: v in r ==> Cancels(v)) && forall k :: |values| <= k < |r| ==> Balanced(r[k])
    decreases nargs - |values|
  {
    if |values| < nargs {
      var g := ArgumentAt(text, cursor).value;
      ArgumentsAreBalanced(text, cursor);
      MoreArgumentsCancel(text, g.end, values + [g.inner], nargs);
      var r := MoreArguments(text, cursor, values, nargs).value.values;
      assert r[|values|] == (values + [g.inner])[|values|];
    }
  }

  /** Every argument that is read cancels out, and only an optional one can be unbalanced. */
  lemma ArgumentsCancel(text: string, pos: nat, d: Definition)
    requires ArgumentsAt(text, pos, d).Some? && (d.default.Some? ==> Cancels(d.default.value))
    ensures var values := ArgumentsAt(text, pos, d).value.values;
            && (forall v :: v in values ==> Cancels(v))
            && forall k :: 0 <= k < |values| && (k > 0 || d.default.None?) ==> Balanced(values[k])
  {
    if d.default.None? {
      MoreArgumentsCancel(text, pos, [], d.nargs);
    } else {
      var probe := SkipSpace(text, pos);
      if probe < |text| && text[probe] == '[' {
        var g := GroupAt(text, probe, true).value;
        BracketGroupsCancel(text, probe);
        MoreArgumentsCancel(text, g.end, [g.inner], d.nargs);
      } else {
        MoreArgumentsCancel(text, pos, [d.default.value], d.nargs);
      }
    }
  }

  /**
   For a whole recorded expansion at one level: with the braces of the definition's own
   default cancelling out, a replacement that renders the expansion passes the balance
   check if and only if the template is balanced and uses the optional argument deep enough.
   */
  lemma OneLevelBalancedIff(table: Table, r: Replacement)
    requires Cited(table, r).Some? && Renders(table, r, OneLevel(table, Cited(table, r).value.0, Cited(table, r).value.1))
    requires var (d, values) := Cited(table, r).value;
             Free(d.template, |values|, 0) && (d.default.Some? ==> Cancels(d.default.value))
    ensures var (d, values) := Cited(table, r).value;
            Balanced(r.text) <==> Balanced(d.template) && DeepEnough(d.template, values, 0)
  {
    hide ArgumentsAt, Substituted, Free, DeepEnough, AtLineIn, EndsInControlWord, LetterFollows;
    var (d, values) := Cited(table, r).value;
    var n := Letters(r.original, 1);
    ArgumentsCancel(r.original, 1 + n, d);
    CheckRejectsIff(table.alpha, d.template, values);
    var x := OneLevel(table, d, values);
    if r.text != x {
      SpaceIsNeutral(x);
    }
  }

  lemma SpaceIsNeutral(x: string)
    requires EndsInControlWord(x)
    ensures Balanced(x + " ") <==> Balanced(x)
  {
    FeedConcat(START, x, " ");
    FeedOne(Feed(START, x), ' ');
    WordsEndPlainly(START, x);
    BalancedIff(x);
    BalancedIff(x + " ");
  }

  // ----- an unbalanced argument that passes ------------------------------------------------------------

  const WRAPS := Definition("f", 1, Some("x"), "{#1}", 1)
  const TABLE := Table([(0, [WRAPS])], (c: char) => IsLetter(c))
  const RECORDED := Replacement("\\f[}{]", 6, "\\f[}{]", "{}{}", 0, 1)

  lemma ReadsUnbalanced()
    ensures ArgumentsAt(RECORDED.original, 2, WRAPS) == Some(Arguments(["}{"], 6))
  {
    var text := RECORDED.original;
    assert SkipSpace(text, 2) == 2;
    assert BracketEnd(text, 5, 1, 0) == Some(5);
    assert BracketEnd(text, 4, 1, -1) == Some(5);
    assert BracketEnd(text, 3, 1, 0) == Some(5);
    assert text[3..5] == "}{";
    assert GroupAt(text, 2, true) == Some(Group("}{", 6));
    assert MoreArguments(text, 6, ["}{"], 1) == Some(Arguments(["}{"], 6));
  }

  lemma CitesWraps()
    ensures Cited(TABLE, RECORDED) == Some((WRAPS, ["}{"]))
  {
    var text := RECORDED.original;
    assert Letters(text, 2) == 0;
    assert Letters(text, 1) == 1;
    assert text[1..2] == "f";
    assert FirstAt([WRAPS], 1, "f") == Some(WRAPS);
    ReadsUnbalanced();
  }

  lemma WrapsTo()
    ensures Substituted(TABLE.alpha, "{#1}", ["}{"]) == "{}{}"
  {
    var t, vs, alpha := "{#1}", ["}{"], TABLE.alpha;
    var none: string := [];
    assert none + "{" == "{" && "{" + "}{" == "{}{" && "{}{" + "}" == "{}{}";
    assert SubstituteFrom(alpha, t, vs, 4, "{}{}", false) == "{}{}";
    assert SubstituteFrom(alpha, t, vs, 3, "{}{", true) == "{}{}";
    assert SubstituteFrom(alpha, t, vs, 1, "{", false) == "{}{}";
  }

  lemma WrapsAreBalanced()
    ensures Balanced("{}{}") && !Structural("{}{}")
  {
    var t := "{}{}";
    assert BackslashesBefore(t, 0) == 0 && BackslashesBefore(t, 1) == 0 && BackslashesBefore(t, 2) == 0 && BackslashesBefore(t, 3) == 0;
    assert BalancedFrom(t, 4, 0);
    assert BalancedFrom(t, 3, 1);
    assert BalancedFrom(t, 2, 0);
    assert BalancedFrom(t, 1, 1);
  }

  /** The check on the replacement does not always catch an unbalanced argument: one level deep, it passes as recorded. */
  lemma UnbalancedArgumentPasses()
    ensures Verifies(TABLE, RECORDED) && !Balanced(Cited(TABLE, RECORDED).value.1[0])
  {
    hide Cited, Nested, Substituted, Balanced, Structural, GroupAt, Deficit;
    CitesWraps();
    WrapsTo();
    WrapsAreBalanced();
    BracketGroupsNeedNotBalance();
  }
}
