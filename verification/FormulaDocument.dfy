/**
 The shared TeX document of many formulas and the way back from a log line to the
 formula it belongs to (`formula_document`, `locate_compile_failures`).
 */
module FormulaDocument {
  import opened Characters
  import opened Wrappers

  // ----- lines of one fragment -----------------------------------------------------

  predicate Break(c: char) {
    c == '\n' || c == '\r'
  }

  predicate Unbroken(line: string) {
    forall i :: 0 <= i < |line| ==> !Break(line[i])
  }

  /** White space that is not a control character. */
  predicate Strippable(c: char) {
    var code := c as int;
    IsSpace(c) && !((code < 32 && c !in {'\t', '\n', '\r'}) || 127 <= code <= 159)
  }

  /** Every CR LF and every other CR becomes one LF. */
  function Normalized(s: string): string {
    if s == [] then []
    else if s[0] == '\r' && |s| > 1 && s[1] == '\n' then ['\n'] + Normalized(s[2..])
    else if s[0] == '\r' then ['\n'] + Normalized(s[1..])
    else [s[0]] + Normalized(s[1..])
  }

  function StripStart(s: string): string {
    if s != [] && Strippable(s[0]) then StripStart(s[1..]) else s
  }

  function StripEnd(s: string): string {
    if s != [] && Strippable(s[|s| - 1]) then StripEnd(s[..|s| - 1]) else s
  }

  function SplitLines(s: string, current: string): seq<string>
    decreases |s|
  {
    if s == [] then [current]
    else if s[0] == '\n' then [current] + SplitLines(s[1..], [])
    else SplitLines(s[1..], current + [s[0]])
  }

  function FragmentLines(value: string): seq<string> {
    var text := StripEnd(StripStart(Normalized(value)));
    if text == [] then [] else SplitLines(text, [])
  }

  lemma {:induction false} NormalizedHasNoReturn(s: string)
    ensures forall i :: 0 <= i < |Normalized(s)| ==> Normalized(s)[i] != '\r'
    decreases |s|
  {
    if s == [] {
    } else if s[0] == '\r' && |s| > 1 && s[1] == '\n' {
      NormalizedHasNoReturn(s[2..]);
    } else {
      NormalizedHasNoReturn(s[1..]);
    }
  }

  lemma {:induction false} StripKeeps(s: string, c: char)
    requires c !in s
    ensures c !in StripStart(s) && c !in StripEnd(s)
    decreases |s|
  {
    if s != [] {
      StripKeeps(s[1..], c);
      StripKeeps(s[..|s| - 1], c);
    }
  }

  lemma {:induction false} SplitIsUnbroken(s: string, current: string)
    requires '\r' !in s && Unbroken(current)
    ensures forall i :: 0 <= i < |SplitLines(s, current)| ==> Unbroken(SplitLines(s, current)[i])
    decreases |s|
  {
    if s != [] {
      SplitIsUnbroken(s[1..], if s[0] == '\n' then [] else current + [s[0]]);
    }
  }

  /** No line of a fragment can be counted as two lines by the engine. */
  lemma FragmentLinesUnbroken(value: string)
    ensures forall i :: 0 <= i < |FragmentLines(value)| ==> Unbroken(FragmentLines(value)[i])
  {
    NormalizedHasNoReturn(value);
    StripKeeps(Normalized(value), '\r');
    StripKeeps(StripStart(Normalized(value)), '\r');
    SplitIsUnbroken(StripEnd(StripStart(Normalized(value))), []);
  }

  // ----- what a fragment's lines are ------------------------------------------------

  /** Two texts meet without making a CR LF out of a CR and an LF. */
  predicate Apart(a: string, b: string) {
    a == [] || b == [] || a[|a| - 1] != '\r' || b[0] != '\n'
  }

  lemma {:induction false} NormalizedSplits(a: string, b: string)
    requires Apart(a, b)
    ensures Normalized(a + b) == Normalized(a) + Normalized(b)
    decreases |a|
  {
    var s := a + b;
    if a == [] {
      assert s == b;
    } else if |a| > 1 && a[0] == '\r' && a[1] == '\n' {
      assert s[2..] == a[2..] + b;
      NormalizedSplits(a[2..], b);
    } else {
      assert s[0] == a[0] && s[1..] == a[1..] + b;
      assert |a| == 1 ==> s[1..] == b;
      assert |a| > 1 ==> s[1] == a[1];
      NormalizedSplits(a[1..], b);
    }
  }

  lemma {:induction false} NoReturnNoChange(s: string)
    requires '\r' !in s
    ensures Normalized(s) == s
  {
    if s != [] {
      NoReturnNoChange(s[1..]);
      assert s == [s[0]] + s[1..];
    }
  }

  /**
   Line ends become line feeds and nothing else changes: a CR LF and a lone CR each become
   one LF, text without CR stays as it is, and the pieces of a text keep their order.
   */
  lemma NormalizedMeans(a: string, b: string)
    ensures Normalized("\r\n") == "\n" && Normalized("\r") == "\n"
    ensures '\r' !in a ==> Normalized(a) == a
    ensures !(a != [] && b != [] && a[|a| - 1] == '\r' && b[0] == '\n') ==> Normalized(a + b) == Normalized(a) + Normalized(b)
  {
    assert "\r\n"[2..] == [] && "\r"[1..] == [];
    if '\r' !in a {
      NoReturnNoChange(a);
    }
    if Apart(a, b) {
      NormalizedSplits(a, b);
    }
  }

  /** The lines with a line feed between each two. */
  function Joined(lines: seq<string>): string {
    if lines == [] then []
    else if |lines| == 1 then lines[0]
    else lines[0] + "\n" + Joined(lines[1..])
  }

  lemma {:induction false} SplitJoins(s: string, current: string)
    ensures SplitLines(s, current) != []
    ensures Joined(SplitLines(s, current)) == current + s
    decreases |s|
  {
    if s == [] {
    } else if s[0] == '\n' {
      SplitJoins(s[1..], []);
      var rest := SplitLines(s[1..], []);
      assert ([current] + rest)[1..] == rest;
      assert current + s == current + "\n" + ([] + s[1..]);
    } else {
      SplitJoins(s[1..], current + [s[0]]);
      assert current + s == current + [s[0]] + s[1..];
    }
  }

  /** White space that TeX lets disappear at the ends of a formula: nothing that is a control character but TAB, LF and CR. */
  lemma StrippableIff(c: char)
    ensures Break(c) <==> c as int in {10, 13}
    ensures Strippable(c) <==>
            c as int in {9, 10, 13, 32, 0xA0, 0x1680, 0x2000, 0x2001, 0x2002, 0x2003, 0x2004, 0x2005, 0x2006, 0x2007, 0x2008, 0x2009,
                         0x200A, 0x2028, 0x2029, 0x202F, 0x205F, 0x3000}
  {
  }

  ghost predicate AllStrippable(s: string) {
    forall i :: 0 <= i < |s| ==> Strippable(s[i])
  }

  /** What is left starts and ends with characters that stay. */
  ghost predicate Tight(s: string) {
    s != [] ==> !Strippable(s[0]) && !Strippable(s[|s| - 1])
  }

  lemma {:induction false} StartIsCut(s: string) returns (lead: string)
    ensures s == lead + StripStart(s) && AllStrippable(lead)
    ensures StripStart(s) != [] ==> !Strippable(StripStart(s)[0])
  {
    lead := [];
    if s != [] && Strippable(s[0]) {
      var rest := StartIsCut(s[1..]);
      lead := [s[0]] + rest;
    }
  }

  lemma {:induction false} EndIsCut(s: string) returns (trail: string)
    ensures s == StripEnd(s) + trail && AllStrippable(trail)
    ensures StripEnd(s) != [] ==> StripEnd(s)[0] == s[0] && !Strippable(StripEnd(s)[|StripEnd(s)| - 1])
  {
    trail := [];
    if s != [] && Strippable(s[|s| - 1]) {
      var rest := EndIsCut(s[..|s| - 1]);
      trail := rest + [s[|s| - 1]];
    }
  }

  /** The text is what was cut off at the start, the lines, and what was cut off at the end. */
  ghost predicate CutFrom(text: string, lead: string, lines: seq<string>, trail: string) {
    text == lead + Joined(lines) + trail && AllStrippable(lead) && AllStrippable(trail)
  }

  /**
   The lines of a fragment: joined with line feeds they are one stretch of the value with
   its line ends made line feeds; only strippable characters are cut off around it, and all
   of them; no line holds a line end, and there is no line exactly when nothing is left.
   */
  ghost predicate LinesOf(value: string, lines: seq<string>) {
    && (exists lead, trail :: CutFrom(Normalized(value), lead, lines, trail))
    && Tight(Joined(lines))
    && (forall i :: 0 <= i < |lines| ==> Unbroken(lines[i]))
    && (lines == [] <==> Joined(lines) == [])
  }

  lemma FragmentLinesAre(value: string)
    ensures LinesOf(value, FragmentLines(value))
  {
    var text := Normalized(value);
    var lead := StartIsCut(text);
    var trail := EndIsCut(StripStart(text));
    var body := StripEnd(StripStart(text));
    var lines := FragmentLines(value);
    if body != [] {
      SplitJoins(body, []);
      assert [] + body == body;
    }
    assert Joined(lines) == body;
    assert lead + (body + trail) == lead + body + trail;
    assert CutFrom(text, lead, lines, trail);
    FragmentLinesUnbroken(value);
  }

  /** The two index loops that strip a fragment. */
  method Fragment(value: string) returns (lines: seq<string>)
    ensures lines == FragmentLines(value) && LinesOf(value, lines)
  {
    hide LinesOf, Strippable, SplitLines, Normalized;
    var text := Normalized(value);
    var start, end := 0, |text|;
    while start < end && Strippable(text[start])
      invariant 0 <= start <= end
      invariant StripStart(text) == StripStart(text[start..])
    {
      assert text[start..][1..] == text[start + 1..];
      start := start + 1;
    }
    ghost var body := text[start..];
    assert StripStart(text) == body && text[start..end] == body;
    while end > start && Strippable(text[end - 1])
      invariant start <= end <= |text|
      invariant StripEnd(body) == StripEnd(text[start..end])
    {
      assert text[start..end][..end - start - 1] == text[start..end - 1];
      end := end - 1;
    }
    text := text[start..end];
    lines := if text == [] then [] else SplitLines(text, []);
    FragmentLinesAre(value);
  }

  // ----- the document --------------------------------------------------------------

  datatype Region = Region(first: nat, last: nat)

  function Block(value: string): seq<string> {
    ["\\[", "{"] + FragmentLines(value) + ["}", "\\]"]
  }

  function Blocks(values: seq<string>): seq<string> {
    if values == [] then [] else Blocks(values[..|values| - 1]) + Block(values[|values| - 1])
  }

  function DocumentLines(preamble: seq<string>, values: seq<string>): seq<string> {
    preamble + Blocks(values) + ["\\end{document}"]
  }

  function Regions(preamble: nat, values: seq<string>): (r: seq<Region>)
    ensures |r| == |values|
  {
    if values == [] then []
    else
      var front := values[..|values| - 1];
      Regions(preamble, front) + [Region(preamble + |Blocks(front)| + 1, preamble + |Blocks(values)|)]
  }

  lemma DocumentSnoc(preamble: nat, values: seq<string>, i: nat)
    requires i <= |values|
    ensures Blocks(values[..0]) == [] && Regions(preamble, values[..0]) == []
    ensures i < |values| ==>
              && Blocks(values[..i + 1]) == Blocks(values[..i]) + Block(values[i])
              && Regions(preamble, values[..i + 1]) ==
                 Regions(preamble, values[..i]) + [Region(preamble + |Blocks(values[..i])| + 1, preamble + |Blocks(values[..i + 1])|)]
  {
    if i < |values| {
      assert values[..i + 1][..i] == values[..i];
    }
  }

  /** `formula_document`: lines and regions grow together. */
  method Document(preamble: seq<string>, values: seq<string>) returns (lines: seq<string>, regions: seq<Region>)
    ensures lines == DocumentLines(preamble, values) && regions == Regions(|preamble|, values)
  {
    hide FragmentLines, Blocks, Regions;
    lines, regions := preamble, [];
    DocumentSnoc(|preamble|, values, 0);
    var i := 0;
    while i < |values|
      invariant 0 <= i <= |values|
      invariant lines == preamble + Blocks(values[..i]) && regions == Regions(|preamble|, values[..i])
    {
      DocumentSnoc(|preamble|, values, i);
      ghost var before := lines;
      var first := |lines| + 1;
      lines := lines + ["\\["];
      lines := lines + ["{"];
      var body := Fragment(values[i]);
      lines := lines + body;
      lines := lines + ["}"];
      lines := lines + ["\\]"];
      assert lines == before + Block(values[i]);
      regions := regions + [Region(first, |lines|)];
      i := i + 1;
    }
    assert values[..i] == values;
    lines := lines + ["\\end{document}"];
  }

  /** Region i holds exactly fragment i's block, and the regions do not overlap. */
  lemma {:induction false} RegionsAreExact(preamble: seq<string>, values: seq<string>, i: nat)
    requires i < |values|
    ensures var r := Regions(|preamble|, values)[i];
            && |preamble| < r.first <= r.last < |DocumentLines(preamble, values)|
            && DocumentLines(preamble, values)[r.first - 1..r.last] == Block(values[i])
    ensures forall j :: 0 <= j < i ==> Regions(|preamble|, values)[j].last < Regions(|preamble|, values)[i].first
    decreases |values|
  {
    hide FragmentLines, Blocks, Regions;
    var n := |values| - 1;
    var front := values[..n];
    var all := DocumentLines(preamble, values);
    assert values[..n + 1] == values;
    DocumentSnoc(|preamble|, values, n);
    RegionEnds(|preamble|, front);
    if i < n {
      RegionsAreExact(preamble, front, i);
      var r := Regions(|preamble|, front)[i];
      RegionWithin(|preamble|, front, i);
      SamePart(preamble + Blocks(front), ["\\end{document}"], Block(values[n]) + ["\\end{document}"], r.first - 1, r.last);
      assert all == preamble + Blocks(front) + (Block(values[n]) + ["\\end{document}"]);
    } else {
      assert all[|preamble| + |Blocks(front)|..|preamble| + |Blocks(values)|] == Block(values[n]);
    }
  }

  /** Every line of formula i stands in its region, in order, between the lines that open and close it. */
  lemma RegionsHoldTheirLines(preamble: seq<string>, values: seq<string>, i: nat) returns (lines: seq<string>)
    requires i < |values|
    ensures LinesOf(values[i], lines)
    ensures var r := Regions(|preamble|, values)[i];
            && |preamble| < r.first <= r.last < |DocumentLines(preamble, values)|
            && DocumentLines(preamble, values)[r.first - 1..r.last] == ["\\[", "{"] + lines + ["}", "\\]"]
  {
    hide FragmentLines, DocumentLines, Regions, LinesOf;
    RegionsAreExact(preamble, values, i);
    FragmentLinesAre(values[i]);
    lines := FragmentLines(values[i]);
  }

  lemma SamePart(common: seq<string>, a: seq<string>, b: seq<string>, lo: nat, hi: nat)
    requires lo <= hi <= |common|
    ensures (common + a)[lo..hi] == (common + b)[lo..hi]
  {
  }

  lemma RegionWithin(preamble: nat, values: seq<string>, i: nat)
    requires i < |values|
    ensures Regions(preamble, values)[i].last <= preamble + |Blocks(values)|
  {
    RegionEnds(preamble, values);
  }

  lemma {:induction false} RegionEnds(preamble: nat, values: seq<string>)
    ensures forall j :: 0 <= j < |values| ==> Regions(preamble, values)[j].last <= preamble + |Blocks(values)|
  {
    if values != [] {
      RegionEnds(preamble, values[..|values| - 1]);
    }
  }

  // ----- what the engine counts ----------------------------------------------------

  function Text(lines: seq<string>): string {
    if lines == [] then [] else lines[0] + "\n" + Text(lines[1..])
  }

  /** The lines the engine counts: LF and CR both end one. */
  function EngineLines(text: string, current: string): seq<string>
    decreases |text|
  {
    if text == [] then (if current == [] then [] else [current])
    else if Break(text[0]) then [current] + EngineLines(text[1..], [])
    else EngineLines(text[1..], current + [text[0]])
  }

  lemma {:induction false} EngineReadsLine(line: string, rest: string, current: string)
    requires Unbroken(line)
    ensures EngineLines(line + "\n" + rest, current) == [current + line] + EngineLines(rest, [])
    decreases |line|
  {
    var text := line + "\n" + rest;
    if line == [] {
      assert text[1..] == rest && current + line == current;
    } else {
      assert text[1..] == line[1..] + "\n" + rest;
      EngineReadsLine(line[1..], rest, current + [line[0]]);
      assert current + [line[0]] + line[1..] == current + line;
    }
  }

  lemma {:induction false} EngineReadsLines(lines: seq<string>)
    requires forall i :: 0 <= i < |lines| ==> Unbroken(lines[i])
    ensures EngineLines(Text(lines), []) == lines
  {
    if lines != [] {
      EngineReadsLine(lines[0], Text(lines[1..]), []);
      EngineReadsLines(lines[1..]);
      assert [] + lines[0] == lines[0];
    }
  }

  lemma {:induction false} BlocksUnbroken(values: seq<string>)
    ensures forall i :: 0 <= i < |Blocks(values)| ==> Unbroken(Blocks(values)[i])
  {
    if values != [] {
      BlocksUnbroken(values[..|values| - 1]);
      FragmentLinesUnbroken(values[|values| - 1]);
    }
  }

  /** The line map counts as the engine does, whatever bytes the fragments hold. */
  lemma LineMapIsTheEngines(preamble: seq<string>, values: seq<string>)
    requires forall i :: 0 <= i < |preamble| ==> Unbroken(preamble[i])
    ensures EngineLines(Text(DocumentLines(preamble, values)), []) == DocumentLines(preamble, values)
  {
    BlocksUnbroken(values);
    EngineReadsLines(DocumentLines(preamble, values));
  }

  // ----- from log lines to fragments -----------------------------------------------

  datatype FailureCode = CompileFailed | MissingGlyphs | OtherFailure

  datatype LogLine = LogLine(line: nat, message: string)

  /** One engine run: a failure carries its code and the source lines its log names. */
  datatype CompileResult =
    | Success
    | Failed(code: FailureCode, error: Option<LogLine>, glyphs: seq<LogLine>)
  {
    /** CONTENT_FAILURE_CODES. */
    predicate Content() {
      Failed? && !code.OtherFailure?
    }
  }

  datatype FailureKind = TexError | MissingGlyph | UnsafeNotCompiled | Unattributed

  datatype LocatedFailure = LocatedFailure(position: nat, kind: FailureKind, line: nat, message: string)

  predicate Within(r: Region, line: nat) {
    r.first <= line <= r.last
  }

  /** The first region that contains the line. */
  function Position(regions: seq<Region>, line: nat): (p: Option<nat>)
    ensures p.Some? ==> p.value < |regions| && Within(regions[p.value], line)
    ensures p.Some? ==> forall j :: 0 <= j < p.value ==> !Within(regions[j], line)
    ensures p.None? ==> forall j :: 0 <= j < |regions| ==> !Within(regions[j], line)
  {
    if regions == [] then None
    else if Within(regions[0], line) then Some(0)
    else match Position(regions[1..], line)
         case None => None
         case Some(k) =>
           assert regions[1..][k] == regions[k + 1];
           assert forall j :: 0 < j < k + 1 ==> regions[j] == regions[1..][j - 1];
           Some(k + 1)
  }

  predicate Named(found: seq<LocatedFailure>, position: nat) {
    exists k :: 0 <= k < |found| && found[k].position == position
  }

  function Halting(result: CompileResult, regions: seq<Region>): seq<LocatedFailure> {
    if result.Failed? && result.code.CompileFailed? && result.error.Some? && Position(regions, result.error.value.line).Some? then
      [LocatedFailure(Position(regions, result.error.value.line).value, TexError, result.error.value.line, result.error.value.message)]
    else []
  }

  /** Located glyph warnings, each fragment named once, after what is already found. */
  function WithGlyphs(found: seq<LocatedFailure>, glyphs: seq<LogLine>, regions: seq<Region>): seq<LocatedFailure> {
    if glyphs == [] then found
    else
      var before := WithGlyphs(found, glyphs[..|glyphs| - 1], regions);
      var g := glyphs[|glyphs| - 1];
      match Position(regions, g.line)
      case None => before
      case Some(i) => if Named(before, i) then before else before + [LocatedFailure(i, MissingGlyph, g.line, g.message)]
  }

  function Located(result: CompileResult, regions: seq<Region>): seq<LocatedFailure> {
    if result.Content() then WithGlyphs(Halting(result, regions), result.glyphs, regions) else []
  }

  /** `locate_compile_failures`, with its list and its set of seen fragments. */
  method Locate(result: CompileResult, regions: seq<Region>) returns (located: seq<LocatedFailure>)
    ensures located == Located(result, regions)
  {
    if !result.Content() { return []; }
    located := [];
    var seen: set<nat> := {};
    if result.code.CompileFailed? && result.error.Some? {
      var index := Position(regions, result.error.value.line);
      if index.Some? {
        located := [LocatedFailure(index.value, TexError, result.error.value.line, result.error.value.message)];
        seen := {index.value};
        assert located[0].position == index.value;
      }
    }
    ghost var halting := located;
    var i := 0;
    while i < |result.glyphs|
      invariant 0 <= i <= |result.glyphs|
      invariant located == WithGlyphs(halting, result.glyphs[..i], regions)
      invariant forall p :: p in seen <==> Named(located, p)
    {
      assert result.glyphs[..i + 1][..i] == result.glyphs[..i];
      var g := result.glyphs[i];
      var index := Position(regions, g.line);
      if index.Some? && index.value !in seen {
        ghost var before := located;
        seen := seen + {index.value};
        located := located + [LocatedFailure(index.value, MissingGlyph, g.line, g.message)];
        assert forall p :: Named(located, p) <==> Named(before, p) || p == index.value by {
          assert forall k :: 0 <= k < |before| ==> located[k] == before[k];
          assert located[|before|].position == index.value;
        }
      }
      i := i + 1;
    }
    assert result.glyphs[..i] == result.glyphs;
  }

  /** Region i is the first that contains the line. */
  ghost predicate FirstHolding(regions: seq<Region>, i: nat, line: nat) {
    && i < |regions| && regions[i].first <= line <= regions[i].last
    && forall j :: 0 <= j < i ==> !(regions[j].first <= line <= regions[j].last)
  }

  lemma HoldersAreFound(regions: seq<Region>)
    ensures forall i: nat, line: nat :: FirstHolding(regions, i, line) ==> Position(regions, line) == Some(i)
  {
  }

  /** The failure repeats a line of the log: the halting error, or one of the glyph warnings. */
  ghost predicate Logged(result: CompileResult, f: LocatedFailure) {
    && result.Failed?
    && (f.kind == TexError ==> result.code == CompileFailed && result.error == Some(LogLine(f.line, f.message)))
    && (f.kind == MissingGlyph ==> LogLine(f.line, f.message) in result.glyphs)
  }

  lemma {:induction false} GlyphsAreLogged(result: CompileResult, found: seq<LocatedFailure>, glyphs: seq<LogLine>, regions: seq<Region>)
    requires forall k :: 0 <= k < |found| ==> Logged(result, found[k])
    requires result.Failed? && forall g :: g in glyphs ==> g in result.glyphs
    ensures forall k :: 0 <= k < |WithGlyphs(found, glyphs, regions)| ==> Logged(result, WithGlyphs(found, glyphs, regions)[k])
    decreases |glyphs|
  {
    if glyphs != [] {
      GlyphsAreLogged(result, found, glyphs[..|glyphs| - 1], regions);
      var g := glyphs[|glyphs| - 1];
      assert g == LogLine(g.line, g.message);
    }
  }

  /** What every located failure satisfies. */
  ghost predicate WellLocated(found: seq<LocatedFailure>, regions: seq<Region>) {
    && (forall k :: 0 <= k < |found| ==>
          && found[k].position < |regions|
          && regions[found[k].position].first <= found[k].line <= regions[found[k].position].last)
    && (forall j, k :: 0 <= j < k < |found| ==> found[j].position != found[k].position)
    && (forall k :: 0 <= k < |found| ==> found[k].kind.TexError? || found[k].kind.MissingGlyph?)
    && (forall k :: 0 < k < |found| ==> found[k].kind.MissingGlyph?)
  }

  lemma {:induction false} GlyphsWellLocated(found: seq<LocatedFailure>, glyphs: seq<LogLine>, regions: seq<Region>)
    requires WellLocated(found, regions)
    ensures WellLocated(WithGlyphs(found, glyphs, regions), regions)
    ensures found <= WithGlyphs(found, glyphs, regions)
    ensures forall p :: Named(found, p) ==> Named(WithGlyphs(found, glyphs, regions), p)
    ensures forall k :: 0 <= k < |glyphs| && Position(regions, glyphs[k].line).Some? ==>
              Named(WithGlyphs(found, glyphs, regions), Position(regions, glyphs[k].line).value)
    decreases |glyphs|
  {
    hide Position;
    if glyphs != [] {
      var front := glyphs[..|glyphs| - 1];
      GlyphsWellLocated(found, front, regions);
      var before, after := WithGlyphs(found, front, regions), WithGlyphs(found, glyphs, regions);
      NamedGrows(before, after);
      forall k | 0 <= k < |glyphs| && Position(regions, glyphs[k].line).Some?
        ensures Named(after, Position(regions, glyphs[k].line).value)
      {
        if k < |front| {
          assert glyphs[k] == front[k];
        } else if |after| > |before| {
          assert after[|before|].position == Position(regions, glyphs[k].line).value;
        }
      }
    }
  }

  lemma NamedGrows(a: seq<LocatedFailure>, b: seq<LocatedFailure>)
    requires a <= b
    ensures forall p :: Named(a, p) ==> Named(b, p)
  {
    forall p | Named(a, p)
      ensures Named(b, p)
    {
      var k :| 0 <= k < |a| && a[k].position == p;
      assert b[k].position == p;
    }
  }

  /**
   The halting error comes first, each fragment is named at most once and by a line of
   its own region, and no located warning is lost.
   */
  lemma LocatedIsExact(result: CompileResult, regions: seq<Region>)
    ensures var found := Located(result, regions);
            && WellLocated(found, regions)
            && (result.Success? || result.code == OtherFailure ==> found == [])
            && (forall k :: 0 <= k < |found| ==> Logged(result, found[k]))
            && ((exists k :: 0 <= k < |found| && found[k].kind.TexError?) <==>
                  result.Failed? && result.code == CompileFailed && result.error.Some?
                  && exists i :: FirstHolding(regions, i, result.error.value.line))
            && (result.Failed? && result.code != OtherFailure ==>
                  forall k, i :: 0 <= k < |result.glyphs| && FirstHolding(regions, i, result.glyphs[k].line) ==> Named(found, i))
            && (result.Failed? && result.code == CompileFailed && result.error.Some? ==>
                  forall i :: FirstHolding(regions, i, result.error.value.line) ==>
                    found != [] && found[0] == LocatedFailure(i, TexError, result.error.value.line, result.error.value.message))
  {
    HoldersAreFound(regions);
    hide Position;
    if result.Content() {
      GlyphsWellLocated(Halting(result, regions), result.glyphs, regions);
      GlyphsAreLogged(result, Halting(result, regions), result.glyphs, regions);
      var found := Located(result, regions);
      if Halting(result, regions) != [] {
        assert found[0].kind.TexError? && found[0] == Halting(result, regions)[0];
        assert FirstHolding(regions, found[0].position, result.error.value.line);
      } else {
        NoHaltNoError([], result.glyphs, regions);
      }
    }
  }

  lemma {:induction false} NoHaltNoError(found: seq<LocatedFailure>, glyphs: seq<LogLine>, regions: seq<Region>)
    requires forall k :: 0 <= k < |found| ==> !found[k].kind.TexError?
    ensures forall k :: 0 <= k < |WithGlyphs(found, glyphs, regions)| ==> !WithGlyphs(found, glyphs, regions)[k].kind.TexError?
    decreases |glyphs|
  {
    if glyphs != [] {
      NoHaltNoError(found, glyphs[..|glyphs| - 1], regions);
    }
  }
}
