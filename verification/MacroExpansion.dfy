/**
 The second implementation of macro expansion that a record check relies on: argument
 reading, substitution, bounded recursive expansion and the verdict on one recorded
 replacement (src/derivation_agent_record/macro_expansion.py).
 */
module MacroExpansion {
  import opened Characters
  import opened Wrappers
  import opened TexGroups

  const MAX_EXPANSION_DEPTH: nat := 8

  datatype Definition = Definition(name: string, nargs: nat, default: Option<string>, template: string, line: nat)
  {
    /** What two definitions must share to count as one. */
    function Key(): (nat, Option<string>, string) {
      (nargs, default, Trimmed(Squashed(template)))
    }
  }

  /** The definitions of every registered source, in order, and `str.isalpha`. */
  datatype Table = Table(sources: seq<(nat, seq<Definition>)>, alpha: char -> bool)

  // ----- characters -------------------------------------------------------------------------

  /** Every run of white space becomes one space. */
  function Squashed(s: string): string {
    if s == [] then []
    else if !IsSpace(s[0]) then [s[0]] + Squashed(s[1..])
    else if |s| > 1 && IsSpace(s[1]) then Squashed(s[1..])
    else " " + Squashed(s[1..])
  }

  function Trimmed(s: string): string {
    if s != [] && IsSpace(s[0]) then Trimmed(s[1..])
    else if s != [] && IsSpace(s[|s| - 1]) then Trimmed(s[..|s| - 1])
    else s
  }

  /** How many letters stand from the index on. */
  function Letters(text: string, i: nat): (n: nat)
    ensures n > 0 ==> i + n <= |text|
    ensures forall k :: i <= k < i + n ==> IsLetter(text[k])
    ensures i + n < |text| ==> !IsLetter(text[i + n])
    decreases |text| - i
  {
    if i < |text| && IsLetter(text[i]) then 1 + Letters(text, i + 1) else 0
  }

  function NameChars(text: string, i: nat): (n: nat)
    ensures n > 0 ==> i + n <= |text|
    ensures forall k :: i <= k < i + n ==> IsLetter(text[k]) || text[k] == '@'
    ensures i + n < |text| ==> !IsLetter(text[i + n]) && text[i + n] != '@'
    decreases |text| - i
  {
    if i < |text| && (IsLetter(text[i]) || text[i] == '@') then 1 + NameChars(text, i + 1) else 0
  }

  function SkipSpace(text: string, pos: nat): (p: nat)
    ensures pos <= p && (pos <= |text| ==> p <= |text|) && (pos > |text| ==> p == pos)
    ensures forall k :: pos <= k < p ==> text[k] in [' ', '\t', '\r', '\n']
    ensures p < |text| ==> text[p] !in [' ', '\t', '\r', '\n']
    decreases |text| - pos
  {
    if pos < |text| && text[pos] in " \t\r\n" then SkipSpace(text, pos + 1) else pos
  }

  /** The text ends in a backslash followed by letters only. */
  predicate EndsInWord(s: string) {
    exists k | 0 <= k < |s| - 1 :: s[k] == '\\' && forall j :: k < j < |s| ==> IsLetter(s[j])
  }

  /** The pattern's `$` also stands before one final line feed. */
  predicate EndsInControlWord(s: string) {
    EndsInWord(s) || (s != [] && s[|s| - 1] == '\n' && EndsInWord(s[..|s| - 1]))
  }

  // ----- looking definitions up ---------------------------------------------------------------

  function AllDefinitions(sources: seq<(nat, seq<Definition>)>): seq<Definition> {
    if sources == [] then [] else sources[0].1 + AllDefinitions(sources[1..])
  }

  function Named(definitions: seq<Definition>, name: string): seq<Definition> {
    if definitions == [] then []
    else (if definitions[0].name == name then [definitions[0]] else []) + Named(definitions[1..], name)
  }

  /** The definition of a name on which all sources agree. */
  function Unique(table: Table, name: string): Option<Definition> {
    var found := Named(AllDefinitions(table.sources), name);
    if found != [] && forall i :: 0 <= i < |found| ==> found[i].Key() == found[0].Key() then Some(found[0]) else None
  }

  function AtLine(table: Table, source: nat, line: nat, name: string): Option<Definition> {
    AtLineIn(table.sources, source, line, name)
  }

  function AtLineIn(sources: seq<(nat, seq<Definition>)>, source: nat, line: nat, name: string): Option<Definition> {
    if sources == [] then None
    else if sources[0].0 == source then FirstAt(sources[0].1, line, name)
    else AtLineIn(sources[1..], source, line, name)
  }

  function FirstAt(definitions: seq<Definition>, line: nat, name: string): (d: Option<Definition>)
    ensures d.Some? ==> d.value in definitions && d.value.line == line && d.value.name == name
    ensures d.None? ==> forall e :: e in definitions ==> !(e.line == line && e.name == name)
    ensures d.Some? ==> exists i :: 0 <= i < |definitions| && d.value == definitions[i]
                                    && forall j :: 0 <= j < i ==> !(definitions[j].line == line && definitions[j].name == name)
  {
    if definitions == [] then None
    else if definitions[0].line == line && definitions[0].name == name then Some(definitions[0])
    else FirstAt(definitions[1..], line, name)
  }

  // ----- reading arguments ----------------------------------------------------------------------

  function ArgumentAt(text: string, pos: nat): (g: Option<Group>)
    ensures g.Some? ==> pos < g.value.end <= |text|
  {
    var p := SkipSpace(text, pos);
    if p >= |text| then None
    else if text[p] == '{' then GroupAt(text, p, false)
    else if text[p] == '}' then None
    else if text[p] == '\\' then
      if p + 1 >= |text| then None
      else
        var n := NameChars(text, p + 1);
        var end := if n > 0 then p + 1 + n else p + 2;
        Some(Group(text[p..end], end))
    else Some(Group(text[p..p + 1], p + 1))
  }

  datatype Arguments = Arguments(values: seq<string>, end: nat)

  function MoreArguments(text: string, cursor: nat, values: seq<string>, nargs: nat): (r: Option<Arguments>)
    ensures r.Some? ==> cursor <= r.value.end && (cursor <= |text| ==> r.value.end <= |text|)
    decreases nargs - |values|
  {
    if |values| >= nargs then Some(Arguments(values, cursor))
    else
      var g := ArgumentAt(text, cursor);
      if g.None? then None else MoreArguments(text, g.value.end, values + [g.value.inner], nargs)
  }

  /** The arguments TeX would read at the position; None when there are too few. */
  function ArgumentsAt(text: string, pos: nat, d: Definition): (r: Option<Arguments>)
    ensures r.Some? ==> pos <= r.value.end && (pos <= |text| ==> r.value.end <= |text|)
  {
    if d.default.None? then MoreArguments(text, pos, [], d.nargs)
    else
      var probe := SkipSpace(text, pos);
      if probe < |text| && text[probe] == '[' then
        var g := GroupAt(text, probe, true);
        if g.None? then None else MoreArguments(text, g.value.end, [g.value.inner], d.nargs)
      else MoreArguments(text, pos, [d.default.value], d.nargs)
  }

  /** `_read_arguments`. */
  method ReadArguments(text: string, pos: nat, d: Definition) returns (r: Option<Arguments>)
    ensures r == ArgumentsAt(text, pos, d)
  {
    var cursor := pos;
    var values: seq<string> := [];
    if d.default.Some? {
      var probe := SkipSpace(text, cursor);
      if probe < |text| && text[probe] == '[' {
        var g := ReadGroup(text, probe, true);
        if g.None? { return None; }
        values, cursor := [g.value.inner], g.value.end;
      } else {
        values := [d.default.value];
      }
    }
    while |values| < d.nargs
      invariant ArgumentsAt(text, pos, d) == MoreArguments(text, cursor, values, d.nargs)
      decreases d.nargs - |values|
    {
      var g := ArgumentAt(text, cursor);
      if g.None? { return None; }
      values, cursor := values + [g.value.inner], g.value.end;
    }
    return Some(Arguments(values, cursor));
  }

  // ----- substitution ------------------------------------------------------------------------------

  /** A space keeps a control word from swallowing a letter put after it. */
  function Join(alpha: char -> bool, left: string, right: string): string {
    if right != [] && alpha(right[0]) && EndsInControlWord(left) then left + " " + right else left + right
  }

  /** The control words a scanner finds from `i` on. */
  function WordsFrom(text: string, i: nat): seq<string>
    decreases |text| - i
  {
    if i >= |text| then []
    else if text[i] != '\\' then WordsFrom(text, i + 1)
    else
      var n := Letters(text, i + 1);
      if n == 0 then WordsFrom(text, i + 2) else [text[i + 1..i + 1 + n]] + WordsFrom(text, i + 1 + n)
  }

  /** The scanner stands at the end of a control word when the text ends. */
  predicate OpenWordFrom(text: string, i: nat)
    decreases |text| - i
  {
    if i >= |text| then false
    else if text[i] != '\\' then OpenWordFrom(text, i + 1)
    else
      var n := Letters(text, i + 1);
      if n == 0 then OpenWordFrom(text, i + 2) else i + 1 + n == |text| || OpenWordFrom(text, i + 1 + n)
  }

  lemma {:induction false} OpenWordEnds(text: string, i: nat)
    requires OpenWordFrom(text, i)
    ensures EndsInWord(text)
    decreases |text| - i
  {
    if text[i] != '\\' {
      OpenWordEnds(text, i + 1);
    } else {
      var n := Letters(text, i + 1);
      if n == 0 {
        OpenWordEnds(text, i + 2);
      } else if i + 1 + n == |text| {
        assert text[i] == '\\' && forall j :: i < j < |text| ==> IsLetter(text[j]);
      } else {
        OpenWordEnds(text, i + 1 + n);
      }
    }
  }

  lemma {:induction false} LettersSplit(a: string, b: string, k: nat)
    requires k <= |a| && (b == [] || !IsLetter(b[0]) || k + Letters(a, k) < |a|)
    ensures Letters(a + b, k) == Letters(a, k)
    decreases |a| - k
  {
    if k < |a| && IsLetter(a[k]) {
      LettersSplit(a, b, k + 1);
    }
  }

  lemma {:induction false} WordsShift(a: string, b: string, i: nat)
    ensures WordsFrom(a + b, |a| + i) == WordsFrom(b, i)
    decreases |b| - i
  {
    if i < |b| {
      WordsStep(b, i);
      WordsStep(a + b, |a| + i);
      ShiftedStep(a, b, i);
      hide WordAt, NextStop, WordsFrom;
      WordsShift(a, b, NextStop(b, i));
    }
  }

  lemma ShiftedStep(a: string, b: string, i: nat)
    requires i < |b|
    ensures WordAt(a + b, |a| + i) == WordAt(b, i) && NextStop(a + b, |a| + i) == |a| + NextStop(b, i)
  {
    if b[i] == '\\' {
      LettersShift(a, b, i + 1);
      var n := Letters(b, i + 1);
      if n > 0 {
        assert (a + b)[|a| + i + 1..|a| + i + 1 + n] == b[i + 1..i + 1 + n];
      }
    }
  }

  lemma {:induction false} LettersShift(a: string, b: string, i: nat)
    ensures Letters(a + b, |a| + i) == Letters(b, i)
    decreases |b| - i
  {
    if i < |b| && IsLetter(b[i]) {
      LettersShift(a, b, i + 1);
    }
  }

  /** Where the scanner goes next, and what it finds on the way. */
  function NextStop(text: string, i: nat): (next: nat)
    requires i < |text|
    ensures next > i
  {
    if text[i] != '\\' then i + 1
    else if Letters(text, i + 1) == 0 then i + 2
    else i + 1 + Letters(text, i + 1)
  }

  function WordAt(text: string, i: nat): seq<string>
    requires i < |text|
  {
    if text[i] != '\\' || Letters(text, i + 1) == 0 then [] else [text[i + 1..i + 1 + Letters(text, i + 1)]]
  }

  lemma WordsStep(text: string, i: nat)
    requires i < |text|
    ensures WordsFrom(text, i) == WordAt(text, i) + WordsFrom(text, NextStop(text, i))
  {
  }

  lemma SameStep(a: string, b: string, i: nat)
    requires i < |a| && !DanglingFrom(a, i)
    requires b == [] || !IsLetter(b[0]) || !OpenWordFrom(a, i)
    ensures WordAt(a + b, i) == WordAt(a, i) && NextStop(a + b, i) == NextStop(a, i) <= |a|
    ensures !DanglingFrom(a, NextStop(a, i))
    ensures b == [] || !IsLetter(b[0]) || !OpenWordFrom(a, NextStop(a, i))
  {
    if a[i] == '\\' {
      LettersSplit(a, b, i + 1);
      var n := Letters(a, i + 1);
      if n > 0 {
        DanglingAfterLetters(a, i + 1, n);
        assert (a + b)[i + 1..i + 1 + n] == a[i + 1..i + 1 + n];
      }
    }
  }

  lemma {:induction false} WordsSplit(a: string, b: string, i: nat)
    requires i <= |a| && !DanglingFrom(a, i)
    requires b == [] || !IsLetter(b[0]) || !OpenWordFrom(a, i)
    ensures WordsFrom(a + b, i) == WordsFrom(a, i) + WordsFrom(b, 0)
    decreases |a| - i
  {
    if i == |a| {
      WordsShift(a, b, 0);
    } else {
      SameStep(a, b, i);
      WordsStep(a, i);
      WordsStep(a + b, i);
      hide WordAt, NextStop, OpenWordFrom, DanglingFrom, WordsFrom;
      WordsSplit(a, b, NextStop(a, i));
    }
  }

  lemma {:induction false} DanglingAfterLetters(a: string, i: nat, n: nat)
    requires 0 < n && i + n <= |a| && !DanglingFrom(a, i + 1) && forall k :: i <= k < i + n ==> IsLetter(a[k])
    ensures !DanglingFrom(a, i + n)
    decreases n
  {
    if n > 1 {
      DanglingAfterLetters(a, i + 1, n - 1);
    }
  }

  /** Joining neither merges control words nor breaks them. */
  lemma JoinKeepsWords(alpha: char -> bool, left: string, right: string)
    requires !Dangling(left) && forall c: char :: IsLetter(c) ==> alpha(c)
    ensures WordsFrom(Join(alpha, left, right), 0) == WordsFrom(left, 0) + WordsFrom(right, 0)
  {
    if right != [] && alpha(right[0]) && EndsInControlWord(left) {
      WordsSplit(left, " " + right, 0);
      WordsShift(" ", right, 0);
      assert left + " " + right == left + (" " + right);
      assert WordsFrom(" " + right, 0) == WordsFrom(" " + right, 1);
    } else {
      if OpenWordFrom(left, 0) {
        OpenWordEnds(left, 0);
      }
      WordsSplit(left, right, 0);
    }
  }

  /** The parameter number of a digit, when there is such an argument. */
  function Parameter(c: char, n: nat): (k: Option<nat>)
    ensures k.Some? ==> 1 <= k.value <= n
  {
    if '1' <= c <= '9' && (c as int - '0' as int) <= n then Some((c as int - '0' as int) as nat) else None
  }

  function SubstituteFrom(alpha: char -> bool, template: string, values: seq<string>, i: nat, out: string, boundary: bool): string
    decreases |template| - i
  {
    if i >= |template| then out
    else if template[i] == '#' && i + 1 < |template| && template[i + 1] == '#' then
      SubstituteFrom(alpha, template, values, i + 2, out + "#", false)
    else if template[i] == '#' && i + 1 < |template| && Parameter(template[i + 1], |values|).Some? then
      SubstituteFrom(alpha, template, values, i + 2, Join(alpha, out, values[Parameter(template[i + 1], |values|).value - 1]), true)
    else
      SubstituteFrom(alpha, template, values, i + 1, if boundary then Join(alpha, out, [template[i]]) else out + [template[i]], false)
  }

  function Substituted(alpha: char -> bool, template: string, values: seq<string>): string {
    SubstituteFrom(alpha, template, values, 0, [], false)
  }

  /** `_substitute`. */
  method Substitute(alpha: char -> bool, template: string, values: seq<string>) returns (out: string)
    ensures out == Substituted(alpha, template, values)
  {
    hide Join;
    out := [];
    var boundary := false;
    var i := 0;
    while i < |template|
      invariant SubstituteFrom(alpha, template, values, i, out, boundary) == Substituted(alpha, template, values)
      decreases |template| - i
    {
      var c := template[i];
      if c == '#' && i + 1 < |template| {
        if template[i + 1] == '#' {
          out, boundary, i := out + "#", false, i + 2;
          continue;
        }
        var k := Parameter(template[i + 1], |values|);
        if k.Some? {
          out, boundary, i := Join(alpha, out, values[k.value - 1]), true, i + 2;
          continue;
        }
      }
      out := if boundary then Join(alpha, out, [c]) else out + [c];
      boundary, i := false, i + 1;
    }
  }

  // ----- recursive expansion ---------------------------------------------------------------------------

  /** The macro that the scanner would expand at a backslash, with the end of its name. */
  function MacroAt(table: Table, chain: seq<string>, text: string, i: nat): Option<Definition> {
    var n := Letters(text, i + 1);
    if n == 0 then None
    else
      var name := text[i + 1..i + 1 + n];
      if name in chain then None else Unique(table, name)
  }

  /** None: the depth limit was exceeded. */
  function Expanded(text: string, table: Table, depth: nat, chain: seq<string>): Option<string>
    decreases if depth > MAX_EXPANSION_DEPTH then 0 else MAX_EXPANSION_DEPTH + 1 - depth, 2, 0
  {
    if depth > MAX_EXPANSION_DEPTH then None else ExpandFrom(text, table, depth, chain, 0, [], false)
  }

  function ExpandedAll(texts: seq<string>, table: Table, depth: nat, chain: seq<string>): (r: Option<seq<string>>)
    ensures r.Some? ==> |r.value| == |texts|
    decreases if depth > MAX_EXPANSION_DEPTH then 0 else MAX_EXPANSION_DEPTH + 1 - depth, 3, |texts|
  {
    if texts == [] then Some([])
    else
      var front := ExpandedAll(texts[..|texts| - 1], table, depth, chain);
      var last := Expanded(texts[|texts| - 1], table, depth, chain);
      if front.None? || last.None? then None else Some(front.value + [last.value])
  }

  function ExpandFrom(text: string, table: Table, depth: nat, chain: seq<string>, i: nat, out: string, boundary: bool): Option<string>
    requires depth <= MAX_EXPANSION_DEPTH
    decreases MAX_EXPANSION_DEPTH + 1 - depth, 1, |text| - i
  {
    if i >= |text| then Some(out)
    else if text[i] != '\\' then
      ExpandFrom(text, table, depth, chain, i + 1, if boundary then Join(table.alpha, out, [text[i]]) else out + [text[i]], false)
    else
      var n := Letters(text, i + 1);
      if n == 0 then
        ExpandFrom(text, table, depth, chain, i + 2, out + text[i..if i + 2 <= |text| then i + 2 else |text|], false)
      else
        var past := i + 1 + n;
        var name := text[i + 1..past];
        var d := MacroAt(table, chain, text, i);
        var a := if d.Some? then ArgumentsAt(text, past, d.value) else None;
        if a.None? then ExpandFrom(text, table, depth, chain, past, out + text[i..past], false)
        else
          var body := Expanded(d.value.template, table, depth + 1, chain + [name]);
          var values := ExpandedAll(a.value.values, table, depth + 1, chain + [name]);
          if body.None? || values.None? then None
          else
            ExpandFrom(text, table, depth, chain, a.value.end, out + Substituted(table.alpha, body.value, values.value), true)
  }

  /** `_expand_text`: terminates for every table, because every nesting goes one level deeper. */
  method ExpandText(text: string, table: Table, depth: nat, chain: seq<string>) returns (r: Option<string>)
    ensures r == Expanded(text, table, depth, chain)
    decreases if depth > MAX_EXPANSION_DEPTH then 0 else MAX_EXPANSION_DEPTH + 1 - depth, 0
  {
    hide Join, Substituted, ArgumentsAt, Unique;
    if depth > MAX_EXPANSION_DEPTH { return None; }
    var out: string := [];
    var boundary := false;
    var i := 0;
    while i < |text|
      invariant ExpandFrom(text, table, depth, chain, i, out, boundary) == Expanded(text, table, depth, chain)
      decreases |text| - i
    {
      if text[i] != '\\' {
        out := if boundary then Join(table.alpha, out, [text[i]]) else out + [text[i]];
        boundary, i := false, i + 1;
        continue;
      }
      boundary := false;
      var n := Letters(text, i + 1);
      if n == 0 {
        out := out + text[i..if i + 2 <= |text| then i + 2 else |text|];
        i := i + 2;
        continue;
      }
      var past := i + 1 + n;
      var name := text[i + 1..past];
      var d := if name in chain then None else Unique(table, name);
      var a := None;
      if d.Some? {
        a := ReadArguments(text, past, d.value);
      }
      if a.None? {
        out, i := out + text[i..past], past;
        continue;
      }
      var body := ExpandText(d.value.template, table, depth + 1, chain + [name]);
      var values := ExpandArguments(a.value.values, table, depth + 1, chain + [name]);
      if body.None? || values.None? { return None; }
      var expansion := Substitute(table.alpha, body.value, values.value);
      out, boundary, i := out + expansion, true, a.value.end;
    }
    return Some(out);
  }

  method ExpandArguments(texts: seq<string>, table: Table, depth: nat, chain: seq<string>) returns (r: Option<seq<string>>)
    ensures r == ExpandedAll(texts, table, depth, chain)
    decreases if depth > MAX_EXPANSION_DEPTH then 0 else MAX_EXPANSION_DEPTH + 1 - depth, 1
  {
    var values: seq<string> := [];
    var k := 0;
    while k < |texts|
      invariant 0 <= k <= |texts|
      invariant ExpandedAll(texts[..k], table, depth, chain) == Some(values)
    {
      assert texts[..k + 1][..k] == texts[..k];
      var value := ExpandText(texts[k], table, depth, chain);
      if value.None? {
        StaysNone(texts, table, depth, chain, k + 1);
        return None;
      }
      values := values + [value.value];
      k := k + 1;
    }
    assert texts[..k] == texts;
    return Some(values);
  }

  lemma {:induction false} StaysNone(texts: seq<string>, table: Table, depth: nat, chain: seq<string>, k: nat)
    requires k <= |texts| && ExpandedAll(texts[..k], table, depth, chain).None?
    ensures ExpandedAll(texts, table, depth, chain).None?
    decreases |texts|
  {
    if k == |texts| {
      assert texts[..k] == texts;
    } else {
      assert texts[..|texts| - 1][..k] == texts[..k];
      StaysNone(texts[..|texts| - 1], table, depth, chain, k);
    }
  }

  // ----- identity ------------------------------------------------------------------------------------

  /** From `i` on the text names no uniquely registered macro outside the chain. */
  predicate PlainFrom(text: string, table: Table, chain: seq<string>, i: nat)
    decreases |text| - i
  {
    if i >= |text| then true
    else if text[i] != '\\' then PlainFrom(text, table, chain, i + 1)
    else
      var n := Letters(text, i + 1);
      if n == 0 then PlainFrom(text, table, chain, i + 2)
      else MacroAt(table, chain, text, i).None? && PlainFrom(text, table, chain, i + 1 + n)
  }

  predicate Plain(text: string, table: Table, chain: seq<string>) {
    PlainFrom(text, table, chain, 0)
  }

  lemma {:induction false} PlainIsCopied(text: string, table: Table, depth: nat, chain: seq<string>, i: nat, out: string)
    requires depth <= MAX_EXPANSION_DEPTH && PlainFrom(text, table, chain, i)
    ensures ExpandFrom(text, table, depth, chain, i, out, false) == Some(out + if i <= |text| then text[i..] else [])
    decreases |text| - i
  {
    hide MacroAt, ArgumentsAt, Join, Substituted;
    if i < |text| {
      var next := if text[i] != '\\' then i + 1 else if Letters(text, i + 1) == 0 then i + 2 else i + 1 + Letters(text, i + 1);
      var piece := text[i..if next <= |text| then next else |text|];
      PlainIsCopied(text, table, depth, chain, next, out + piece);
      CopyStep(text, table, depth, chain, i, out, next, piece);
      var rest := if next <= |text| then text[next..] else [];
      assert text[i..] == piece + rest;
      assert out + piece + rest == out + (piece + rest);
    } else {
      assert out + (if i <= |text| then text[i..] else []) == out;
    }
  }

  /** One step of the scanner over text without macros copies what it reads. */
  lemma CopyStep(text: string, table: Table, depth: nat, chain: seq<string>, i: nat, out: string, next: nat, piece: string)
    requires depth <= MAX_EXPANSION_DEPTH && PlainFrom(text, table, chain, i) && i < |text|
    requires next == if text[i] != '\\' then i + 1 else if Letters(text, i + 1) == 0 then i + 2 else i + 1 + Letters(text, i + 1)
    requires piece == text[i..if next <= |text| then next else |text|]
    ensures ExpandFrom(text, table, depth, chain, i, out, false) == ExpandFrom(text, table, depth, chain, next, out + piece, false)
  {
    hide MacroAt, ArgumentsAt, Join, Substituted, Expanded, ExpandedAll;
    if text[i] != '\\' {
      assert piece == [text[i]];
    } else if Letters(text, i + 1) == 0 {
      assert ExpandFrom(text, table, depth, chain, i, out, false) == ExpandFrom(text, table, depth, chain, i + 2, out + piece, false);
    } else {
      assert MacroAt(table, chain, text, i).None?;
    }
  }

  /** Text that names no registered macro expands to itself. */
  lemma PlainIsFixed(text: string, table: Table, depth: nat, chain: seq<string>)
    requires depth <= MAX_EXPANSION_DEPTH && Plain(text, table, chain)
    ensures Expanded(text, table, depth, chain) == Some(text)
  {
    PlainIsCopied(text, table, depth, chain, 0, []);
    assert [] + text[0..] == text;
  }

  lemma {:induction false} AllPlainAreFixed(texts: seq<string>, table: Table, depth: nat, chain: seq<string>)
    requires depth <= MAX_EXPANSION_DEPTH && forall k :: 0 <= k < |texts| ==> Plain(texts[k], table, chain)
    ensures ExpandedAll(texts, table, depth, chain) == Some(texts)
    decreases |texts|
  {
    hide Plain, Expanded;
    if texts != [] {
      AllPlainAreFixed(texts[..|texts| - 1], table, depth, chain);
      PlainIsFixed(texts[|texts| - 1], table, depth, chain);
      assert texts == texts[..|texts| - 1] + [texts[|texts| - 1]];
    }
  }

  // ----- the depth limit -------------------------------------------------------------------------------

  /** The macros that could still be expanded below this chain. */
  function Open(macros: set<string>, chain: seq<string>): set<string> {
    set m | m in macros && m !in chain
  }

  lemma OneFewer(macros: set<string>, chain: seq<string>, name: string)
    requires name in macros && name !in chain
    ensures |Open(macros, chain + [name])| + 1 == |Open(macros, chain)|
  {
    assert Open(macros, chain) == Open(macros, chain + [name]) + {name};
  }

  /**
   The limit only matters for tables with many macros: with at most as many open macros
   as levels left, expansion always completes.
   */
  lemma {:induction false} FewMacrosComplete(text: string, table: Table, depth: nat, chain: seq<string>, macros: set<string>)
    requires forall name :: Unique(table, name).Some? ==> name in macros
    requires depth + |Open(macros, chain)| <= MAX_EXPANSION_DEPTH
    ensures Expanded(text, table, depth, chain).Some?
    decreases MAX_EXPANSION_DEPTH + 1 - depth, 2, 0
  {
    hide Unique, ArgumentsAt, Join, Substituted, ExpandFrom;
    FewMacrosCompleteFrom(text, table, depth, chain, macros, 0, [], false);
  }

  lemma {:induction false} FewMacrosCompleteAll(texts: seq<string>, table: Table, depth: nat, chain: seq<string>, macros: set<string>)
    requires forall name :: Unique(table, name).Some? ==> name in macros
    requires depth + |Open(macros, chain)| <= MAX_EXPANSION_DEPTH
    ensures ExpandedAll(texts, table, depth, chain).Some?
    decreases MAX_EXPANSION_DEPTH + 1 - depth, 3, |texts|
  {
    hide Unique, Expanded;
    if texts != [] {
      FewMacrosCompleteAll(texts[..|texts| - 1], table, depth, chain, macros);
      FewMacrosComplete(texts[|texts| - 1], table, depth, chain, macros);
    }
  }

  lemma {:induction false} FewMacrosCompleteFrom(text: string, table: Table, depth: nat, chain: seq<string>, macros: set<string>,
                                                 i: nat, out: string, boundary: bool)
    requires forall name :: Unique(table, name).Some? ==> name in macros
    requires depth + |Open(macros, chain)| <= MAX_EXPANSION_DEPTH
    ensures ExpandFrom(text, table, depth, chain, i, out, boundary).Some?
    decreases MAX_EXPANSION_DEPTH + 1 - depth, 1, |text| - i
  {
    hide Unique, ArgumentsAt, Join, Substituted, Expanded, ExpandedAll, Open;
    if i >= |text| {
    } else if text[i] != '\\' {
      FewMacrosCompleteFrom(text, table, depth, chain, macros, i + 1,
                            if boundary then Join(table.alpha, out, [text[i]]) else out + [text[i]], false);
    } else if Letters(text, i + 1) == 0 {
      FewMacrosCompleteFrom(text, table, depth, chain, macros, i + 2, out + text[i..if i + 2 <= |text| then i + 2 else |text|], false);
    } else {
      var past := i + 1 + Letters(text, i + 1);
      var name := text[i + 1..past];
      var d := MacroAt(table, chain, text, i);
      var a := if d.Some? then ArgumentsAt(text, past, d.value) else None;
      if a.None? {
        FewMacrosCompleteFrom(text, table, depth, chain, macros, past, out + text[i..past], false);
      } else {
        OneFewer(macros, chain, name);
        FewMacrosComplete(d.value.template, table, depth + 1, chain + [name], macros);
        FewMacrosCompleteAll(a.value.values, table, depth + 1, chain + [name], macros);
        var body := Expanded(d.value.template, table, depth + 1, chain + [name]);
        var values := ExpandedAll(a.value.values, table, depth + 1, chain + [name]);
        FewMacrosCompleteFrom(text, table, depth, chain, macros, a.value.end,
                              out + Substituted(table.alpha, body.value, values.value), true);
      }
    }
  }

  // ----- the verdict -------------------------------------------------------------------------------------

  /** Math delimiters, comments, parameter tokens and code spans. */
  predicate Structural(s: string) {
    exists i | 0 <= i < |s| :: StructuralAt(s, i)
  }

  predicate StructuralAt(s: string, i: nat)
    requires i < |s|
  {
    || (s[i] in "$%#`" && (i == 0 || s[i - 1] != '\\'))
    || (s[i] == '\\' && i + 1 < |s| && s[i + 1] in "()[]")
  }

  datatype Replacement = Replacement(field: string, end: nat, original: string, text: string, source: nat, line: nat)

  /** The cited definition and the arguments the replaced text consists of, read to its very end. */
  function Cited(table: Table, r: Replacement): Option<(Definition, seq<string>)> {
    var n := Letters(r.original, 1);
    if r.original == [] || r.original[0] != '\\' || n == 0 then None
    else
      var d := AtLine(table, r.source, r.line, r.original[1..1 + n]);
      if d.None? then None
      else
        var a := ArgumentsAt(r.original, 1 + n, d.value);
        if a.None? || a.value.end != |r.original| then None else Some((d.value, a.value.values))
  }

  predicate LetterFollows(table: Table, r: Replacement) {
    r.end < |r.field| && table.alpha(r.field[r.end])
  }

  /** The expansion itself, or with a space where a letter would run into its last control word. */
  predicate Renders(table: Table, r: Replacement, expansion: string) {
    || r.text == expansion
    || (EndsInControlWord(expansion) && LetterFollows(table, r) && r.text == expansion + " ")
  }

  function OneLevel(table: Table, d: Definition, values: seq<string>): string {
    Substituted(table.alpha, d.template, values)
  }

  function Nested(table: Table, d: Definition, values: seq<string>): Option<string> {
    var body := Expanded(d.template, table, 1, [d.name]);
    var expanded := ExpandedAll(values, table, 1, [d.name]);
    if body.None? || expanded.None? then None else Some(Substituted(table.alpha, body.value, expanded.value))
  }

  /** When a recorded expansion passes. */
  predicate Verifies(table: Table, r: Replacement) {
    var cited := Cited(table, r);
    && cited.Some? && Balanced(r.text) && !Structural(r.text)
    && var (d, values) := cited.value;
    || Renders(table, r, OneLevel(table, d, values))
    || (Nested(table, d, values).Some? && Renders(table, r, Nested(table, d, values).value))
  }

  /** `verify_macro_expansion`; None is its MacroCheckError. */
  method VerifyMacroExpansion(table: Table, r: Replacement) returns (d: Option<Definition>)
    ensures d.Some? <==> Verifies(table, r)
    ensures d.Some? ==> d == Some(Cited(table, r).value.0)
  {
    hide ArgumentsAt, Substituted, Expanded, ExpandedAll, AtLineIn, Structural, Balanced, Renders;
    var n := Letters(r.original, 1);
    if r.original == [] || r.original[0] != '\\' || n == 0 { return None; }
    var name := r.original[1..1 + n];
    d := AtLine(table, r.source, r.line, name);
    if d.None? { return None; }
    AtLineNames(table.sources, r.source, r.line, name);
    var a := ReadArguments(r.original, 1 + n, d.value);
    if a.None? || a.value.end != |r.original| { return None; }
    var balanced := IsBalanced(r.text);
    if !balanced || Structural(r.text) { return None; }
    var expected := Substitute(table.alpha, d.value.template, a.value.values);
    if Renders(table, r, expected) { return d; }
    var body := ExpandText(d.value.template, table, 1, [name]);
    var values := ExpandArguments(a.value.values, table, 1, [name]);
    if body.None? || values.None? { return None; }
    var nested := Substitute(table.alpha, body.value, values.value);
    if Renders(table, r, nested) { return d; }
    return None;
  }

  lemma {:induction false} AtLineNames(sources: seq<(nat, seq<Definition>)>, source: nat, line: nat, name: string)
    ensures AtLineIn(sources, source, line, name).Some? ==> AtLineIn(sources, source, line, name).value.name == name
  {
    if sources != [] && sources[0].0 != source {
      AtLineNames(sources[1..], source, line, name);
    }
  }

  /**
   Where the cited body and arguments name no other registered macro, the recursive
   derivation adds nothing: one level of substitution decides alone.
   */
  lemma OneLevelIsExact(table: Table, r: Replacement)
    requires Cited(table, r).Some?
    requires var (d, values) := Cited(table, r).value;
             Plain(d.template, table, [d.name]) && forall k :: 0 <= k < |values| ==> Plain(values[k], table, [d.name])
    ensures var (d, values) := Cited(table, r).value;
            && Nested(table, d, values) == Some(OneLevel(table, d, values))
            && (Verifies(table, r) <==> Balanced(r.text) && !Structural(r.text) && Renders(table, r, OneLevel(table, d, values)))
  {
    hide Cited, Plain, Expanded, ExpandedAll, Substituted, Balanced, Structural, Renders;
    var (d, values) := Cited(table, r).value;
    PlainIsFixed(d.template, table, 1, [d.name]);
    AllPlainAreFixed(values, table, 1, [d.name]);
  }

  /** A host cannot choose: what passes for one citation is one of two expansions, up to a final space. */
  lemma CitationFixesReplacement(table: Table, r: Replacement)
    requires Verifies(table, r)
    ensures var (d, values) := Cited(table, r).value;
            || r.text in {OneLevel(table, d, values), OneLevel(table, d, values) + " "}
            || (Nested(table, d, values).Some? && r.text in {Nested(table, d, values).value, Nested(table, d, values).value + " "})
  {
    hide Cited, OneLevel, Nested, Balanced, Structural, EndsInControlWord;
  }
}
