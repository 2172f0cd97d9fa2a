/**
 What substitution, argument reading and the lookup of definitions mean: a template is
 fixed by its pieces, an argument by the text it is read from, a definition by the sources.
 */
module MacroMeaning {
  import opened Characters
  import opened Wrappers
  import opened TexGroups
  import opened MacroExpansion

  // ----- joining ------------------------------------------------------------------------

  /** The text is something, a backslash with letters behind it, and at most one line feed. */
  ghost predicate EndsWord(s: string, front: string, name: string, end: string) {
    && s == front + "\\" + name + end && end in {"", "\n"}
    && name != [] && forall i :: 0 <= i < |name| ==> IsLetter(name[i])
  }

  lemma EndsInWordIff(s: string)
    ensures EndsInWord(s) <==> exists front, name :: EndsWord(s, front, name, "")
  {
    if EndsInWord(s) {
      var k :| 0 <= k < |s| - 1 && s[k] == '\\' && forall j :: k < j < |s| ==> IsLetter(s[j]);
      assert s == s[..k] + "\\" + s[k + 1..] + "";
      assert EndsWord(s, s[..k], s[k + 1..], "");
    }
    if front, name :| EndsWord(s, front, name, "") {
      assert s[|front|] == '\\' && forall j :: |front| < j < |s| ==> s[j] == name[j - |front| - 1];
    }
  }

  lemma ControlWordIff(s: string)
    ensures EndsInControlWord(s) <==> exists front, name, end :: EndsWord(s, front, name, end)
  {
    EndsInWordIff(s);
    if s != [] {
      EndsInWordIff(s[..|s| - 1]);
    }
    if EndsInControlWord(s) && !EndsInWord(s) {
      var front, name :| EndsWord(s[..|s| - 1], front, name, "");
      assert s == front + "\\" + name + "\n";
      assert EndsWord(s, front, name, "\n");
    }
    if front, name, end :| EndsWord(s, front, name, end) {
      if end == "" {
        assert EndsInWord(s);
      } else {
        assert s[..|s| - 1] == front + "\\" + name + "";
        assert EndsWord(s[..|s| - 1], front, name, "");
      }
    }
  }

  /** Two pieces are put side by side, with one space between them exactly where a letter would run into a control word. */
  lemma JoinIff(alpha: char -> bool, left: string, right: string)
    ensures Join(alpha, left, right) ==
            if right != [] && alpha(right[0]) && exists front, name, end :: EndsWord(left, front, name, end)
            then left + " " + right else left + right
  {
    ControlWordIff(left);
  }

  // ----- templates and their pieces --------------------------------------------------------

  /** A character of its own, the parameter of number k, a doubled parameter sign, or one that stands for itself. */
  datatype Piece = Literal(c: char) | Use(k: nat) | Double | Sign

  function Digit(k: nat): char
    requires 1 <= k <= 9
  {
    "0123456789"[k]
  }

  /** The piece as it is written in a template. */
  function Written(p: Piece): string
    requires p.Use? ==> 1 <= p.k <= 9
  {
    match p
    case Literal(c) => [c]
    case Use(k) => ['#', Digit(k)]
    case Double => "##"
    case Sign => "#"
  }

  predicate Numbered(pieces: seq<Piece>) {
    forall i :: 0 <= i < |pieces| ==> pieces[i].Use? ==> 1 <= pieces[i].k <= 9
  }

  function Spelled(pieces: seq<Piece>): string
    requires Numbered(pieces)
  {
    if pieces == [] then [] else Written(pieces[0]) + Spelled(pieces[1..])
  }

  /** The text does not start with what would make a parameter sign before it one of n parameters, or a doubled sign. */
  predicate NoParameter(rest: string, n: nat) {
    rest == [] || (rest[0] != '#' && forall k :: 1 <= k <= n && k <= 9 ==> rest[0] != Digit(k))
  }

  /** Pieces that are read back as they are written, for n arguments. */
  predicate Wellformed(pieces: seq<Piece>, n: nat)
    requires Numbered(pieces)
  {
    pieces != [] ==>
      && (match pieces[0]
          case Literal(c) => c != '#'
          case Use(k) => k <= n
          case Double => true
          case Sign => NoParameter(Spelled(pieces[1..]), n))
      && Wellformed(pieces[1..], n)
  }

  /** The pieces put together behind a text: values are joined on, and so is what follows one. */
  function Rendered(alpha: char -> bool, pieces: seq<Piece>, values: seq<string>, out: string, joins: bool): string
    requires Numbered(pieces) && Wellformed(pieces, |values|)
  {
    if pieces == [] then out
    else
      match pieces[0]
      case Use(k) => Rendered(alpha, pieces[1..], values, Join(alpha, out, values[k - 1]), true)
      case Double => Rendered(alpha, pieces[1..], values, out + "#", false)
      case Literal(c) => Rendered(alpha, pieces[1..], values, if joins then Join(alpha, out, [c]) else out + [c], false)
      case Sign => Rendered(alpha, pieces[1..], values, if joins then Join(alpha, out, "#") else out + "#", false)
  }

  lemma DigitsAre(k: nat)
    requires 1 <= k <= 9
    ensures Digit(k) as int == '0' as int + k && '1' <= Digit(k) <= '9'
  {
  }

  /** A digit names its own argument, when there are that many. */
  lemma ParametersAre(c: char, n: nat, k: nat)
    ensures 1 <= k <= 9 && k <= n && c == Digit(k) ==> Parameter(c, n) == Some(k)
    ensures Parameter(c, n).Some? ==> 1 <= Parameter(c, n).value <= 9 && c == Digit(Parameter(c, n).value)
  {
    if 1 <= k <= 9 {
      DigitsAre(k);
    }
    if Parameter(c, n).Some? {
      DigitsAre(Parameter(c, n).value);
    }
  }

  lemma SpelledFirst(pieces: seq<Piece>)
    requires Numbered(pieces) && pieces != []
    ensures Spelled(pieces) == Written(pieces[0]) + Spelled(pieces[1..])
    ensures forall i :: 0 <= i < |Written(pieces[0])| ==> Spelled(pieces)[i] == Written(pieces[0])[i]
    ensures Spelled(pieces)[|Written(pieces[0])|..] == Spelled(pieces[1..])
  {
  }

  lemma NoParameterMeans(rest: string, n: nat)
    requires NoParameter(rest, n)
    ensures rest != [] ==> rest[0] != '#' && Parameter(rest[0], n).None?
  {
    if rest != [] {
      ParametersAre(rest[0], n, 0);
    }
  }

  lemma {:induction false} PiecesFrom(alpha: char -> bool, template: string, i: nat, pieces: seq<Piece>, values: seq<string>,
                                      out: string, joins: bool)
    requires Numbered(pieces) && Wellformed(pieces, |values|) && i <= |template| && template[i..] == Spelled(pieces)
    ensures SubstituteFrom(alpha, template, values, i, out, joins) == Rendered(alpha, pieces, values, out, joins)
    decreases |pieces|
  {
    hide Join, Parameter;
    if pieces != [] {
      SpelledFirst(pieces);
      var rest := template[i..];
      var next := i + |Written(pieces[0])|;
      assert template[i] == rest[0] && template[next..] == rest[next - i..];
      assert i + 1 < |template| ==> template[i + 1] == rest[1];
      match pieces[0] {
        case Use(k) =>
          ParametersAre(template[i + 1], |values|, k);
          DigitsAre(k);
          PiecesFrom(alpha, template, next, pieces[1..], values, Join(alpha, out, values[k - 1]), true);
        case Double =>
          PiecesFrom(alpha, template, next, pieces[1..], values, out + "#", false);
        case Literal(c) =>
          PiecesFrom(alpha, template, next, pieces[1..], values, if joins then Join(alpha, out, [c]) else out + [c], false);
        case Sign =>
          NoParameterMeans(Spelled(pieces[1..]), |values|);
          PiecesFrom(alpha, template, next, pieces[1..], values, if joins then Join(alpha, out, "#") else out + "#", false);
      }
    }
  }

  /** A template is substituted piece by piece: each parameter by the argument of its own number. */
  lemma SubstitutionIsByPieces(alpha: char -> bool, pieces: seq<Piece>, values: seq<string>)
    requires Numbered(pieces) && Wellformed(pieces, |values|)
    ensures Substituted(alpha, Spelled(pieces), values) == Rendered(alpha, pieces, values, [], false)
  {
    assert Spelled(pieces)[0..] == Spelled(pieces);
    PiecesFrom(alpha, Spelled(pieces), 0, pieces, values, [], false);
  }

  /** And every template has its pieces. */
  lemma {:induction false} TemplatesHavePieces(template: string, n: nat) returns (pieces: seq<Piece>)
    ensures Numbered(pieces) && Wellformed(pieces, n) && Spelled(pieces) == template
  {
    pieces := [];
    if template != [] {
      var width := 1;
      var first := Literal(template[0]);
      if template[0] == '#' {
        first := Sign;
        if |template| > 1 && template[1] == '#' {
          first, width := Double, 2;
        } else if |template| > 1 && exists k :: 1 <= k <= n && k <= 9 && template[1] == Digit(k) {
          var k :| 1 <= k <= n && k <= 9 && template[1] == Digit(k);
          first, width := Use(k), 2;
        }
      }
      var rest := TemplatesHavePieces(template[width..], n);
      pieces := [first] + rest;
      assert pieces[1..] == rest;
      assert Written(first) == template[..width];
      assert template == template[..width] + template[width..];
    }
  }

  lemma {:induction false} LiteralPieces(text: string) returns (pieces: seq<Piece>)
    requires '#' !in text
    ensures |pieces| == |text| && forall i :: 0 <= i < |text| ==> pieces[i] == Literal(text[i])
    ensures Numbered(pieces) && Spelled(pieces) == text
    ensures forall n :: Wellformed(pieces, n)
  {
    pieces := [];
    if text != [] {
      var rest := LiteralPieces(text[1..]);
      pieces := [Literal(text[0])] + rest;
      assert pieces[1..] == rest;
      assert text == [text[0]] + text[1..];
    }
  }

  lemma {:induction false} LiteralsAreCopied(alpha: char -> bool, pieces: seq<Piece>, values: seq<string>, out: string)
    requires Numbered(pieces) && Wellformed(pieces, |values|) && forall i :: 0 <= i < |pieces| ==> pieces[i].Literal?
    ensures Rendered(alpha, pieces, values, out, false) == out + Spelled(pieces)
  {
    if pieces != [] {
      var c := [pieces[0].c];
      LiteralsAreCopied(alpha, pieces[1..], values, out + c);
      assert out + c + Spelled(pieces[1..]) == out + (c + Spelled(pieces[1..]));
    } else {
      assert out + [] == out;
    }
  }

  /** The simplest templates: a parameter alone, text alone, and a doubled sign. */
  lemma SimpleTemplates(alpha: char -> bool, values: seq<string>, k: nat, text: string)
    ensures 1 <= k <= |values| && k <= 9 ==> Substituted(alpha, ['#', Digit(k)], values) == values[k - 1]
    ensures k == 0 || |values| < k <= 9 ==> Substituted(alpha, ['#', "0123456789"[k]], values) == ['#', "0123456789"[k]]
    ensures '#' !in text ==> Substituted(alpha, text, values) == text
    ensures Substituted(alpha, "##", values) == "#" && Substituted(alpha, "#", values) == "#"
  {
    hide Join, Substituted, SubstituteFrom, Rendered, Spelled, Digit, Parameter;
    if 1 <= k <= |values| && k <= 9 {
      LoneUse(alpha, values, k);
    }
    if '#' !in text {
      var pieces := LiteralPieces(text);
      SubstitutionIsByPieces(alpha, pieces, values);
      LiteralsAreCopied(alpha, pieces, values, []);
      assert [] + text == text;
    }
    if k == 0 || |values| < k <= 9 {
      Unused(alpha, values, k);
    }
    LoneSigns(alpha, values);
  }

  lemma LoneUse(alpha: char -> bool, values: seq<string>, k: nat)
    requires 1 <= k <= |values| && k <= 9
    ensures Substituted(alpha, ['#', Digit(k)], values) == values[k - 1]
  {
    hide Join, Substituted, SubstituteFrom;
    var pieces := [Use(k)];
    assert pieces[1..] == [];
    assert Spelled(pieces) == ['#', Digit(k)] + [] == ['#', Digit(k)];
    SubstitutionIsByPieces(alpha, pieces, values);
    assert Rendered(alpha, pieces, values, [], false) == Rendered(alpha, [], values, Join(alpha, [], values[k - 1]), true);
    JoinIff(alpha, [], values[k - 1]);
    assert [] + values[k - 1] == values[k - 1];
  }

  lemma LoneSigns(alpha: char -> bool, values: seq<string>)
    ensures Substituted(alpha, "##", values) == "#" && Substituted(alpha, "#", values) == "#"
  {
    hide Join, Parameter;
    assert "##"[2..] == [] && "#"[1..] == [];
    assert [] + "#" == "#";
  }

  lemma Unused(alpha: char -> bool, values: seq<string>, k: nat)
    requires k == 0 || |values| < k <= 9
    ensures Substituted(alpha, ['#', "0123456789"[k]], values) == ['#', "0123456789"[k]]
  {
    hide Substituted, SubstituteFrom;
    Inert(alpha, values, "0123456789"[k]);
  }

  lemma Inert(alpha: char -> bool, values: seq<string>, c: char)
    requires NoParameter([c], |values|)
    ensures Substituted(alpha, ['#', c], values) == ['#', c]
  {
    hide Join, Substituted, SubstituteFrom, Digit;
    var pieces, rest := [Sign, Literal(c)], [Literal(c)];
    assert pieces[1..] == rest && rest[1..] == [];
    assert Spelled(rest) == [c] + Spelled([]) == [c];
    assert Spelled(pieces) == "#" + [c] == ['#', c];
    SubstitutionIsByPieces(alpha, pieces, values);
    assert Rendered(alpha, rest, values, "#", false) == "#" + [c];
    assert [] + "#" == "#";
  }

  // ----- reading one argument -----------------------------------------------------------------

  predicate Blank(c: char) {
    c in [' ', '\t', '\r', '\n']
  }

  predicate NameChar(c: char) {
    IsLetter(c) || c == '@'
  }

  /**
   What one argument is, read at `pos`. Blanks are skipped up to `p`; a backslash takes a
   whole name of letters and `@`, up to `end`, or else one character; any other character
   than a brace is an argument by itself; a closing brace or the end of the text is none.
   */
  lemma ArgumentIs(text: string, pos: nat, p: nat, end: nat)
    requires pos <= p <= |text| && (forall i :: pos <= i < p ==> Blank(text[i])) && (p < |text| ==> !Blank(text[p]))
    ensures p == |text| || text[p] == '}' || (text[p] == '\\' && p + 1 == |text|) ==> ArgumentAt(text, pos).None?
    ensures p < |text| && text[p] !in ['{', '}', '\\'] ==> ArgumentAt(text, pos) == Some(Group([text[p]], p + 1))
    ensures p + 1 < |text| && text[p] == '\\' && !NameChar(text[p + 1]) ==>
              ArgumentAt(text, pos) == Some(Group(text[p..p + 2], p + 2))
    ensures p + 1 < end <= |text| && text[p] == '\\' && (forall i :: p < i < end ==> NameChar(text[i]))
            && (end < |text| ==> !NameChar(text[end])) ==>
              ArgumentAt(text, pos) == Some(Group(text[p..end], end))
  {
    hide NameChars, SkipSpace, GroupAt;
    assert SkipSpace(text, pos) == p;
    assert p < |text| ==> text[p..p + 1] == [text[p]];
    if p + 1 < |text| && text[p] == '\\' {
      NameEnds(text, p + 1, end);
    }
  }

  lemma NameEnds(text: string, i: nat, end: nat)
    requires i <= |text|
    ensures i < end <= |text| && (forall k :: i <= k < end ==> NameChar(text[k])) && (end < |text| ==> !NameChar(text[end])) ==>
              NameChars(text, i) == end - i
    ensures i < |text| && !NameChar(text[i]) ==> NameChars(text, i) == 0
  {
    hide NameChars;
    var n := NameChars(text, i);
  }

  /** A braced argument is the text between its braces, exactly when that text is balanced and complete. */
  lemma BracedArgumentIff(before: string, blanks: string, t: string, after: string)
    requires forall i :: 0 <= i < |blanks| ==> Blank(blanks[i])
    ensures ArgumentAt(before + blanks + "{" + t + "}" + after, |before|) == Some(Group(t, |before| + |blanks| + |t| + 2)) <==>
            Balanced(t) && !Dangling(t)
  {
    var text := before + blanks + "{" + t + "}" + after;
    assert forall i :: 0 <= i < |blanks| ==> text[|before| + i] == blanks[i];
    assert text[|before| + |blanks|] == '{';
    assert SkipSpace(text, |before|) == |before| + |blanks|;
    WrappedIsReadBackIff(before + blanks, t, after);
  }

  // ----- looking definitions up ------------------------------------------------------------------

  /** Item k of the s-th source. */
  ghost predicate At(sources: seq<(nat, seq<Definition>)>, s: nat, k: nat, d: Definition) {
    s < |sources| && k < |sources[s].1| && sources[s].1[k] == d
  }

  lemma {:induction false} AllDefinitionsAre(sources: seq<(nat, seq<Definition>)>, d: Definition)
    ensures d in AllDefinitions(sources) <==> exists s, k :: At(sources, s, k, d)
  {
    if sources != [] {
      var rest := sources[1..];
      AllDefinitionsAre(rest, d);
      assert sources == [sources[0]] + rest;
      if k: nat :| k < |sources[0].1| && sources[0].1[k] == d {
        assert At(sources, 0, k, d);
      }
      if s: nat, k: nat :| At(rest, s, k, d) {
        assert At(sources, s + 1, k, d);
      }
      if s: nat, k: nat :| At(sources, s, k, d) {
        assert s > 0 ==> At(rest, s - 1, k, d);
      }
    }
  }

  lemma {:induction false} NamedAre(definitions: seq<Definition>, name: string, d: Definition)
    ensures d in Named(definitions, name) <==> d in definitions && d.name == name
  {
    if definitions != [] {
      NamedAre(definitions[1..], name, d);
      assert definitions == [definitions[0]] + definitions[1..];
    }
  }

  lemma {:induction false} NamedComesFirst(definitions: seq<Definition>, name: string) returns (i: nat)
    requires Named(definitions, name) != []
    ensures FirstNamedAt(definitions, name, Named(definitions, name)[0], i)
  {
    i := 0;
    if definitions[0].name != name {
      var k := NamedComesFirst(definitions[1..], name);
      assert forall j :: 0 < j < |definitions| ==> definitions[j] == definitions[1..][j - 1];
      i := k + 1;
    }
  }

  ghost predicate FirstNamedAt(definitions: seq<Definition>, name: string, d: Definition, i: nat) {
    && i < |definitions| && definitions[i] == d && d.name == name
    && forall j :: 0 <= j < i ==> definitions[j].name != name
  }

  ghost predicate FirstNamed(definitions: seq<Definition>, name: string, d: Definition) {
    exists i :: FirstNamedAt(definitions, name, d, i)
  }

  /** Some source defines the name so. */
  ghost predicate Defines(table: Table, name: string, d: Definition) {
    d.name == name && exists s, k :: At(table.sources, s, k, d)
  }

  /** The same number of arguments, the same default, and the same words in the same order. */
  ghost predicate Alike(a: Definition, b: Definition) {
    a.nargs == b.nargs && a.default == b.default && Words(a.template, []) == Words(b.template, [])
  }

  /**
   A name has a unique definition exactly when some source defines it and all that define
   it agree on arguments, default and template up to white space; it is then the first one.
   */
  lemma UniqueIff(table: Table, name: string)
    ensures Unique(table, name).Some? <==>
            && (exists d :: Defines(table, name, d))
            && (forall a, b :: Defines(table, name, a) && Defines(table, name, b) ==> Alike(a, b))
    ensures Unique(table, name).Some? ==>
              && Defines(table, name, Unique(table, name).value)
              && FirstNamed(AllDefinitions(table.sources), name, Unique(table, name).value)
  {
    var all := AllDefinitions(table.sources);
    var found := Named(all, name);
    FoundAreDefined(table, name);
    hide AllDefinitions, Named, Defines, Alike;
    forall a: Definition, b: Definition
      ensures a.Key() == b.Key() <==> Alike(a, b)
    {
      KeysIff(a, b);
    }
    if found != [] {
      var i := NamedComesFirst(all, name);
      assert found[0] in found;
      SameKeys(found);
    }
  }

  lemma FoundAreDefined(table: Table, name: string)
    ensures forall d :: Defines(table, name, d) <==> d in Named(AllDefinitions(table.sources), name)
  {
    hide AllDefinitions, Named, At;
    forall d
      ensures Defines(table, name, d) <==> d in Named(AllDefinitions(table.sources), name)
    {
      AllDefinitionsAre(table.sources, d);
      NamedAre(AllDefinitions(table.sources), name, d);
    }
  }

  lemma SameKeys(found: seq<Definition>)
    requires found != []
    ensures (forall i :: 0 <= i < |found| ==> found[i].Key() == found[0].Key()) <==>
            forall a, b :: a in found && b in found ==> a.Key() == b.Key()
  {
  }

  // ----- templates up to white space ---------------------------------------------------------------

  /** The runs of characters between white space. */
  function Words(s: string, current: string): seq<string>
    decreases |s|
  {
    if s == [] then (if current == [] then [] else [current])
    else if IsSpace(s[0]) then (if current == [] then [] else [current]) + Words(s[1..], [])
    else Words(s[1..], current + [s[0]])
  }

  /** The words with one space between each two. */
  function Spaced(words: seq<string>): string {
    if words == [] then [] else if |words| == 1 then words[0] else words[0] + " " + Spaced(words[1..])
  }

  predicate Solid(word: string) {
    forall i :: 0 <= i < |word| ==> !IsSpace(word[i])
  }

  predicate AllSolid(words: seq<string>) {
    forall i :: 0 <= i < |words| ==> words[i] != [] && Solid(words[i])
  }

  lemma {:induction false} WordsAreSolid(s: string, current: string)
    requires Solid(current)
    ensures AllSolid(Words(s, current))
    decreases |s|
  {
    if s != [] {
      if IsSpace(s[0]) {
        WordsAreSolid(s[1..], []);
      } else {
        WordsAreSolid(s[1..], current + [s[0]]);
      }
    }
  }

  /** The space left at the end of a text that ends in white space. */
  function Tail(s: string): string {
    if s != [] && IsSpace(s[|s| - 1]) then " " else []
  }

  lemma SquashedUnfolds(s: string, current: string)
    requires s != [] && !IsSpace(s[0])
    ensures Squashed(s) == [s[0]] + Squashed(s[1..]) && Words(s, current) == Words(s[1..], current + [s[0]]) && Tail(s) == Tail(s[1..])
  {
  }

  lemma WordsBreak(s: string, current: string)
    requires s != [] && IsSpace(s[0]) && current != []
    ensures Words(s, current) == [current] + Words(s[1..], [])
    ensures Spaced(Words(s, current)) == if Words(s[1..], []) == [] then current else current + " " + Spaced(Words(s[1..], []))
  {
    var rest := Words(s[1..], []);
    assert Words(s, current) == [current] + rest && ([current] + rest)[1..] == rest;
  }

  lemma {:induction false} SquashedInWord(s: string, current: string)
    requires current != []
    ensures current + Squashed(s) == Spaced(Words(s, current)) + Tail(s)
    decreases |s|, 1
  {
    if s == [] {
      assert Words(s, current) == [current] && current + [] == current;
    } else if !IsSpace(s[0]) {
      SquashedUnfolds(s, current);
      hide Squashed, Words, Spaced, Tail, IsSpace;
      SquashedInWord(s[1..], current + [s[0]]);
      Regrouped(current, [s[0]], Squashed(s[1..]), []);
      assert current + Squashed(s) == current + [s[0]] + Squashed(s[1..]);
    } else {
      SquashedAtSpace(s);
      WordsBreak(s, current);
      hide Squashed, Words, Spaced, Tail, IsSpace;
      Regrouped(current, " ", Spaced(Words(s[1..], [])), Tail(s));
    }
  }

  lemma Regrouped(a: string, b: string, c: string, d: string)
    ensures a + (b + c + d) == a + b + c + d
  {
  }

  lemma {:induction false} SquashedAtSpace(s: string)
    requires s != [] && IsSpace(s[0])
    ensures Words(s, []) == Words(s[1..], [])
    ensures Squashed(s) == if Words(s, []) == [] then " " else " " + Spaced(Words(s, [])) + Tail(s)
    ensures Words(s, []) == [] ==> Tail(s) == " "
    decreases |s|, 0
  {
    assert [] + Words(s[1..], []) == Words(s[1..], []);
    if |s| > 1 && IsSpace(s[1]) {
      SquashedAtSpace(s[1..]);
      assert Tail(s) == Tail(s[1..]);
    } else if |s| > 1 {
      var c := [s[1]];
      assert s[1..][1..] == s[2..] && [] + c == c;
      SquashedInWord(s[2..], c);
      WordsGoOn(s[2..], c);
      assert Tail(s) == Tail(s[2..]);
      assert Squashed(s) == " " + (c + Squashed(s[2..]));
    }
  }

  lemma {:induction false} WordsGoOn(s: string, current: string)
    requires current != []
    ensures Words(s, current) != []
    decreases |s|
  {
    if s != [] && !IsSpace(s[0]) {
      WordsGoOn(s[1..], current + [s[0]]);
    }
  }

  lemma {:induction false} SpacedEnds(words: seq<string>)
    requires words != [] && AllSolid(words)
    ensures Spaced(words) != [] && !IsSpace(Spaced(words)[0]) && !IsSpace(Spaced(words)[|Spaced(words)| - 1])
  {
    if |words| > 1 {
      SpacedEnds(words[1..]);
      var rest := Spaced(words[1..]);
      assert Spaced(words)[|Spaced(words)| - 1] == rest[|rest| - 1];
    }
  }

  lemma TrimmedTail(body: string, after: string)
    requires after in {"", " "} && body != [] && !IsSpace(body[0]) && !IsSpace(body[|body| - 1])
    ensures Trimmed(body + after) == body
  {
    TrimmedBody(body, "", after);
    assert "" + body + after == body + after;
  }

  lemma TrimmedBody(body: string, before: string, after: string)
    requires before in {"", " "} && after in {"", " "}
    requires body != [] && !IsSpace(body[0]) && !IsSpace(body[|body| - 1])
    ensures Trimmed(before + body + after) == body
  {
    var s := body + after;
    assert Trimmed(body) == body;
    if after == " " {
      assert s[..|s| - 1] == body;
    }
    assert Trimmed(s) == body;
    if before == " " {
      assert (before + s)[1..] == s;
    }
    assert before + body + after == before + s;
  }

  lemma KeyAfterSpace(s: string)
    requires s != [] && IsSpace(s[0])
    ensures Trimmed(Squashed(s)) == Spaced(Words(s, []))
  {
    SquashedAtSpace(s);
    WordsAreSolid(s, []);
    var words := Words(s, []);
    if words == [] {
      assert " "[1..] == [] && Trimmed(" ") == [];
    } else {
      hide Squashed, Trimmed, Words;
      SpacedEnds(words);
      TrimmedBody(Spaced(words), " ", Tail(s));
    }
  }

  lemma FirstWord(s: string)
    requires s != [] && !IsSpace(s[0])
    ensures Words(s, []) == Words(s[1..], [s[0]]) && Squashed(s) == [s[0]] + Squashed(s[1..]) && Tail(s[1..]) == Tail(s)
  {
    assert [] + [s[0]] == [s[0]];
  }

  lemma KeyAfterWord(s: string)
    requires s != [] && !IsSpace(s[0])
    ensures Trimmed(Squashed(s)) == Spaced(Words(s, []))
  {
    FirstWord(s);
    WordsAreSolid(s, []);
    var tail := Tail(s);
    hide Squashed, Trimmed, Words, Spaced, Tail, AllSolid, IsSpace;
    SquashedInWord(s[1..], [s[0]]);
    WordsGoOn(s[1..], [s[0]]);
    SpacedEnds(Words(s, []));
    TailIs(s);
    TrimmedTail(Spaced(Words(s, [])), tail);
  }

  lemma TailIs(s: string)
    ensures Tail(s) in {"", " "}
  {
  }

  /** What definitions are compared by is the words of the template, with one space between each two. */
  lemma KeyIsWords(s: string)
    ensures Trimmed(Squashed(s)) == Spaced(Words(s, []))
  {
    if s != [] {
      hide Squashed, Trimmed, Words;
      if IsSpace(s[0]) {
        KeyAfterSpace(s);
      } else {
        KeyAfterWord(s);
      }
    }
  }

  lemma {:induction false} WordIsRead(word: string, rest: string, current: string)
    requires Solid(word)
    ensures Words(word + rest, current) == Words(rest, current + word)
    decreases |word|
  {
    if word == [] {
      assert word + rest == rest && current + word == current;
    } else {
      assert (word + rest)[1..] == word[1..] + rest;
      WordIsRead(word[1..], rest, current + [word[0]]);
      assert current + [word[0]] + word[1..] == current + word;
    }
  }

  lemma {:induction false} SpacedIsRead(words: seq<string>)
    requires AllSolid(words)
    ensures Words(Spaced(words), []) == words
  {
    if words != [] {
      var w := words[0];
      assert [] + w == w;
      if |words| == 1 {
        WordIsRead(w, [], []);
        assert w + [] == w;
      } else {
        var rest := Spaced(words[1..]);
        SpacedIsRead(words[1..]);
        WordIsRead(w, " " + rest, []);
        assert w + " " + rest == w + (" " + rest);
        assert (" " + rest)[1..] == rest;
        assert Words(" " + rest, w) == [w] + Words(rest, []);
      }
    }
  }

  lemma KeysIff(a: Definition, b: Definition)
    ensures a.Key() == b.Key() <==> Alike(a, b)
  {
    KeyIsWords(a.template);
    KeyIsWords(b.template);
    WordsAreSolid(a.template, []);
    WordsAreSolid(b.template, []);
    SpacedIsRead(Words(a.template, []));
    SpacedIsRead(Words(b.template, []));
  }

  // ----- the cited definition ----------------------------------------------------------------------

  /** The first source registered under the identifier. */
  ghost predicate FirstSource(sources: seq<(nat, seq<Definition>)>, source: nat, s: nat) {
    s < |sources| && sources[s].0 == source && forall t :: 0 <= t < s ==> sources[t].0 != source
  }

  /** The citation means the first definition of the name on that line in that source, and nothing else. */
  lemma {:induction false} CitationIs(sources: seq<(nat, seq<Definition>)>, source: nat, line: nat, name: string, s: nat)
    requires FirstSource(sources, source, s)
    ensures AtLineIn(sources, source, line, name) == FirstAt(sources[s].1, line, name)
  {
    if s > 0 {
      CitationIs(sources[1..], source, line, name, s - 1);
    }
  }

  lemma {:induction false} UnknownSource(sources: seq<(nat, seq<Definition>)>, source: nat, line: nat, name: string)
    requires forall s :: 0 <= s < |sources| ==> sources[s].0 != source
    ensures AtLineIn(sources, source, line, name).None?
  {
    if sources != [] {
      UnknownSource(sources[1..], source, line, name);
    }
  }

  // ----- the depth limit ---------------------------------------------------------------------------

  /** Eight levels of macros always expand, whatever they are, and nothing does below the eighth level. */
  lemma EightLevelsExpand(text: string, table: Table, chain: seq<string>, macros: set<string>, depth: nat)
    requires forall name :: Unique(table, name).Some? ==> name in macros
    ensures |macros| <= 8 ==> Expanded(text, table, 0, chain).Some?
    ensures depth > 8 ==> Expanded(text, table, depth, chain).None?
  {
    hide Unique, Expanded;
    if |macros| <= 8 {
      OpenIsSmaller(macros, chain);
      FewMacrosComplete(text, table, 0, chain, macros);
    }
    if depth > 8 {
      BelowTheLimit(text, table, depth, chain);
    }
  }

  lemma BelowTheLimit(text: string, table: Table, depth: nat, chain: seq<string>)
    requires depth > 8
    ensures Expanded(text, table, depth, chain).None?
  {
  }

  lemma OpenIsSmaller(macros: set<string>, chain: seq<string>)
    ensures |Open(macros, chain)| <= |macros|
  {
    assert macros == Open(macros, chain) + (macros - Open(macros, chain));
  }

  // ----- the replacement ------------------------------------------------------------------------------

  /** The text holds c between these two. */
  ghost predicate Holds(s: string, before: string, c: char, after: string) {
    s == before + [c] + after
  }

  /**
   What a replacement may never hold: a dollar, percent, parameter sign or backquote without
   a backslash before it, or a backslash with a round or square bracket behind it.
   */
  lemma StructuralIff(s: string)
    ensures Structural(s) <==>
            || (exists a, c, b :: Holds(s, a, c, b) && c in ['$', '%', '#', '`'] && (a == [] || a[|a| - 1] != '\\'))
            || (exists a, b :: Holds(s, a, '\\', b) && b != [] && b[0] in ['(', ')', '[', ']'])
  {
    if Structural(s) {
      var i: nat :| i < |s| && StructuralAt(s, i);
      var a, b := s[..i], s[i + 1..];
      assert Holds(s, a, s[i], b);
      if s[i] == '\\' {
        assert b != [] && b[0] == s[i + 1];
      } else {
        assert a == [] || a[|a| - 1] == s[i - 1];
      }
    }
    forall a, c, b | Holds(s, a, c, b)
      ensures c in ['$', '%', '#', '`'] && (a == [] || a[|a| - 1] != '\\') ==> StructuralAt(s, |a|)
      ensures c == '\\' && b != [] && b[0] in ['(', ')', '[', ']'] ==> StructuralAt(s, |a|)
    {
      assert s[|a|] == c && (a != [] ==> s[|a| - 1] == a[|a| - 1]) && (b != [] ==> s[|a| + 1] == b[0]);
    }
  }

  /** A replacement may be the expansion, or the expansion and a space where it ends in a control word before a letter. */
  lemma RendersIff(table: Table, r: Replacement, expansion: string)
    ensures Renders(table, r, expansion) <==>
            || r.text == expansion
            || (&& r.text == expansion + " " && r.end < |r.field| && table.alpha(r.field[r.end])
                && exists front, name, end :: EndsWord(expansion, front, name, end))
  {
    ControlWordIff(expansion);
  }
}
