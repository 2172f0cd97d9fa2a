/**
 The host check that a formula correction changes presentation only
 (`_tokenize`, `_is_subsequence`, `syntax_only_guard`).
 */
module TypesetGuard {
  import opened Characters

  // ----- the token scanner -----------------------------------------------------------

  datatype Lexeme = Word(name: string) | Symbol(c: char) | Alphanumeric(c: char) | Other(c: char)

  predicate NameChar(c: char) {
    IsLetter(c) || c == '@'
  }

  /** How many name characters the text starts with. */
  function NameLength(s: string): (n: nat)
    ensures n <= |s|
  {
    if s != [] && NameChar(s[0]) then 1 + NameLength(s[1..]) else 0
  }

  /** The matches of the token expression, in order. A final lone backslash is a plain character. */
  function Lex(s: string): seq<Lexeme>
    decreases |s|
  {
    if s == [] then []
    else if s[0] == '\\' && |s| > 1 then
      var n := NameLength(s[1..]);
      if n > 0 then [Word(s[1..1 + n])] + Lex(s[1 + n..]) else [Symbol(s[1])] + Lex(s[2..])
    else if IsLetter(s[0]) || '0' <= s[0] <= '9' then [Alphanumeric(s[0])] + Lex(s[1..])
    else if IsSpace(s[0]) then Lex(s[1..])
    else [Other(s[0])] + Lex(s[1..])
  }

  const SIZING := {"left", "right", "middle"}
  const LAYOUT := {"left", "right", "middle", "big", "Big", "bigg", "Bigg", "bigl", "bigr", "Bigl", "Bigr", "biggl", "biggr",
                   "Biggl", "Biggr", "displaystyle", "textstyle", "scriptstyle", "scriptscriptstyle", "limits", "nolimits",
                   "quad", "qquad", "enspace", "thinspace", "medspace", "thickspace", ",", ";", ":", "!", " ", "\\"}
  const SIZED: set<char> := {'(', ')', '[', ']', '|', '.', '/', '<', '>', '{', '}'}

  /** The ordered structure, the governed delimiters, and whether a sizing command is open. */
  datatype Profile = Profile(tokens: seq<string>, delimiters: seq<string>, sizing: bool)

  function Read(p: Profile, x: Lexeme): Profile {
    var q := p.(sizing := false);
    match x
    case Word(name) =>
      if name in SIZING then p.(sizing := true)
      else if name in LAYOUT then q
      else q.(tokens := p.tokens + ["\\" + name])
    case Symbol(c) =>
      if p.sizing && c in SIZED then q.(delimiters := p.delimiters + ["\\" + [c]])
      else if [c] in LAYOUT then q
      else q.(tokens := p.tokens + ["\\" + [c]])
    case Alphanumeric(c) => q.(tokens := p.tokens + [[c]])
    case Other(c) =>
      if p.sizing && c in SIZED then q.(delimiters := p.delimiters + [[c]])
      else if c == '{' || c == '}' then q
      else q.(tokens := p.tokens + [[c]])
  }

  function ReadAll(p: Profile, xs: seq<Lexeme>): Profile
    decreases |xs|
  {
    if xs == [] then p else Read(ReadAll(p, xs[..|xs| - 1]), xs[|xs| - 1])
  }

  const EMPTY := Profile([], [], false)

  function ProfileOf(text: string): Profile {
    ReadAll(EMPTY, Lex(text))
  }

  /** `_tokenize`: one pass with a flag for the sizing command just read. */
  method Tokenize(text: string) returns (tokens: seq<string>, delimiters: seq<string>)
    ensures tokens == ProfileOf(text).tokens && delimiters == ProfileOf(text).delimiters
  {
    hide Lex;
    var matches := Lex(text);
    tokens, delimiters := [], [];
    var sizing := false;
    var i := 0;
    while i < |matches|
      invariant 0 <= i <= |matches|
      invariant ReadAll(EMPTY, matches[..i]) == Profile(tokens, delimiters, sizing)
    {
      assert matches[..i + 1][..i] == matches[..i];
      var governed := sizing;
      sizing := false;
      match matches[i] {
        case Word(name) =>
          if name in SIZING { sizing := true; }
          else if name !in LAYOUT { tokens := tokens + ["\\" + name]; }
        case Symbol(c) =>
          if governed && c in SIZED { delimiters := delimiters + ["\\" + [c]]; }
          else if [c] !in LAYOUT { tokens := tokens + ["\\" + [c]]; }
        case Alphanumeric(c) => tokens := tokens + [[c]];
        case Other(c) =>
          if governed && c in SIZED { delimiters := delimiters + [[c]]; }
          else if c != '{' && c != '}' { tokens := tokens + [[c]]; }
      }
      i := i + 1;
    }
    assert matches[..i] == matches;
  }

  // ----- subsequences ------------------------------------------------------------------

  /** An increasing map of needle positions to equal haystack positions. */
  ghost predicate Embeds<T>(needle: seq<T>, haystack: seq<T>, at: seq<nat>) {
    && |at| == |needle|
    && (forall i :: 0 <= i < |at| ==> at[i] < |haystack| && haystack[at[i]] == needle[i])
    && (forall i, j :: 0 <= i < j < |at| ==> at[i] < at[j])
  }

  /** The greedy scan over one shared iterator. */
  predicate IsSubsequence<T(==)>(needle: seq<T>, haystack: seq<T>)
    decreases |haystack|
  {
    if needle == [] then true
    else if haystack == [] then false
    else if needle[0] == haystack[0] then IsSubsequence(needle[1..], haystack[1..])
    else IsSubsequence(needle, haystack[1..])
  }

  /** `_is_subsequence`: each item consumes the iterator up to its next occurrence. */
  method Subsequence<T(==)>(needle: seq<T>, haystack: seq<T>) returns (found: bool)
    ensures found == IsSubsequence(needle, haystack)
  {
    var next := 0;
    var i := 0;
    while i < |needle|
      invariant 0 <= i <= |needle| && 0 <= next <= |haystack|
      invariant IsSubsequence(needle, haystack) == IsSubsequence(needle[i..], haystack[next..])
    {
      while next < |haystack| && haystack[next] != needle[i]
        invariant 0 <= next <= |haystack|
        invariant IsSubsequence(needle, haystack) == IsSubsequence(needle[i..], haystack[next..])
      {
        assert haystack[next..][1..] == haystack[next + 1..];
        next := next + 1;
      }
      if next == |haystack| { return false; }
      assert haystack[next..][1..] == haystack[next + 1..] && needle[i..][1..] == needle[i + 1..];
      next := next + 1;
      i := i + 1;
    }
    return true;
  }

  lemma {:induction false} GreedyIsComplete<T>(needle: seq<T>, haystack: seq<T>, at: seq<nat>)
    requires Embeds(needle, haystack, at)
    ensures IsSubsequence(needle, haystack)
    decreases |haystack|
  {
    if needle != [] {
      assert at[0] < |haystack|;
      var tail := haystack[1..];
      if needle[0] == haystack[0] {
        var rest := seq(|at| - 1, i requires 0 <= i < |at| - 1 => (assert at[i + 1] > at[i]; at[i + 1] - 1) as nat);
        assert Embeds(needle[1..], tail, rest);
        GreedyIsComplete(needle[1..], tail, rest);
      } else {
        assert forall i :: 0 <= i < |at| ==> at[i] > 0 by {
          assert at[0] != 0;
        }
        var rest := seq(|at|, i requires 0 <= i < |at| => (at[i] - 1) as nat);
        assert Embeds(needle, tail, rest);
        GreedyIsComplete(needle, tail, rest);
      }
    }
  }

  lemma {:induction false} GreedyIsSound<T>(needle: seq<T>, haystack: seq<T>) returns (at: seq<nat>)
    requires IsSubsequence(needle, haystack)
    ensures Embeds(needle, haystack, at)
    decreases |haystack|
  {
    if needle == [] {
      at := [];
    } else if needle[0] == haystack[0] {
      var rest := GreedyIsSound(needle[1..], haystack[1..]);
      at := [0] + seq(|rest|, i requires 0 <= i < |rest| => rest[i] + 1);
      assert forall i :: 0 < i < |at| ==> at[i] == rest[i - 1] + 1 && needle[i] == needle[1..][i - 1];
    } else {
      var rest := GreedyIsSound(needle, haystack[1..]);
      at := seq(|rest|, i requires 0 <= i < |rest| => rest[i] + 1);
    }
  }

  /** The greedy scan answers exactly whether any order-preserving embedding exists. */
  lemma SubsequenceIff<T>(needle: seq<T>, haystack: seq<T>)
    ensures IsSubsequence(needle, haystack) <==> exists at :: Embeds(needle, haystack, at)
  {
    if IsSubsequence(needle, haystack) {
      var at := GreedyIsSound(needle, haystack);
    }
    forall at | Embeds(needle, haystack, at)
      ensures IsSubsequence(needle, haystack)
    {
      GreedyIsComplete(needle, haystack, at);
    }
  }

  // ----- the guard ------------------------------------------------------------------------

  const LICENSED := "\\<licensed>"

  function Mask(token: string, allowed: set<string>): string {
    if token != [] && token[0] == '\\' && token[1..] in allowed then LICENSED else token
  }

  function Masked(tokens: seq<string>, allowed: set<string>): (r: seq<string>)
    ensures |r| == |tokens|
    ensures forall i :: 0 <= i < |tokens| ==> r[i] == Mask(tokens[i], allowed)
  {
    seq(|tokens|, i requires 0 <= i < |tokens| => Mask(tokens[i], allowed))
  }

  /** Which command names are letters or relations, and which characters count as alphanumeric. */
  datatype Classes = Classes(letter: string -> bool, relation: string -> bool, alphanumeric: string -> bool)

  datatype Counts = Counts(identifiers: multiset<string>, commands: multiset<string>, relations: nat)

  function CountToken(c: Classes, n: Counts, token: string): Counts {
    if token == LICENSED then n
    else if token != [] && token[0] == '\\' then
      var name := token[1..];
      if c.letter(name) then n.(identifiers := n.identifiers + multiset{token})
      else n.(commands := n.commands + multiset{name}, relations := n.relations + if c.relation(name) then 1 else 0)
    else if c.alphanumeric(token) then n.(identifiers := n.identifiers + multiset{token})
    else if token in {"=", "<", ">"} then n.(relations := n.relations + 1)
    else n
  }

  function CountsOf(c: Classes, tokens: seq<string>): Counts
    decreases |tokens|
  {
    if tokens == [] then Counts(multiset{}, multiset{}, 0)
    else CountToken(c, CountsOf(c, tokens[..|tokens| - 1]), tokens[|tokens| - 1])
  }

  /** What one more token adds to the counts that are reported beside the verdict. */
  lemma CountsAre(c: Classes, tokens: seq<string>, token: string)
    ensures CountsOf(c, []) == Counts(multiset{}, multiset{}, 0)
    ensures var n, n' := CountsOf(c, tokens), CountsOf(c, tokens + [token]);
            var command := token != LICENSED && token != [] && token[0] == '\\';
            && n'.identifiers == n.identifiers +
                 (if (command && c.letter(token[1..])) || (token != LICENSED && !command && c.alphanumeric(token)) then multiset{token}
                  else multiset{})
            && n'.commands == n.commands + (if command && !c.letter(token[1..]) then multiset{token[1..]} else multiset{})
            && n'.relations == n.relations
                 + (if command && !c.letter(token[1..]) && c.relation(token[1..]) then 1
                    else if token != LICENSED && !command && !c.alphanumeric(token) && token in {"=", "<", ">"} then 1 else 0)
  {
    assert (tokens + [token])[..|tokens|] == tokens;
  }

  /** `syntax_only_guard`, verdict by verdict. */
  predicate WithinGuard(c: Classes, original: string, corrected: string, allowed: set<string>) {
    var before, after := ProfileOf(original), ProfileOf(corrected);
    var beforeTokens, afterTokens := Masked(before.tokens, allowed), Masked(after.tokens, allowed);
    && CountsOf(c, beforeTokens).identifiers == CountsOf(c, afterTokens).identifiers
    && CountsOf(c, beforeTokens).commands == CountsOf(c, afterTokens).commands
    && CountsOf(c, beforeTokens).relations == CountsOf(c, afterTokens).relations
    && beforeTokens == afterTokens
    && IsSubsequence(before.delimiters, after.delimiters)
  }

  /** A command that the compiler's messages license. */
  ghost predicate Licensed(token: string, allowed: set<string>) {
    exists name :: name in allowed && token == "\\" + name
  }

  lemma MaskIff(token: string, other: string, allowed: set<string>)
    requires token != LICENSED && other != LICENSED
    ensures Mask(token, allowed) == Mask(other, allowed) <==>
            token == other || (Licensed(token, allowed) && Licensed(other, allowed))
  {
    LicensedIff(token, allowed);
    LicensedIff(other, allowed);
  }

  lemma LicensedIff(token: string, allowed: set<string>)
    ensures Licensed(token, allowed) <==> token != [] && token[0] == '\\' && token[1..] in allowed
  {
    if token != [] && token[0] == '\\' && token[1..] in allowed {
      assert token == "\\" + token[1..];
    }
    if name :| name in allowed && token == "\\" + name {
      assert token[1..] == name;
    }
  }

  /** A lexeme that is a name is made of name characters. */
  predicate Wellnamed(x: Lexeme) {
    x.Word? ==> forall i :: 0 <= i < |x.name| ==> NameChar(x.name[i])
  }

  lemma {:induction false} NameIsNamed(s: string)
    ensures forall i :: 0 <= i < NameLength(s) ==> NameChar(s[i])
  {
    if s != [] && NameChar(s[0]) {
      NameIsNamed(s[1..]);
      assert forall i :: 0 < i < |s| ==> s[i] == s[1..][i - 1];
    }
  }

  lemma {:induction false} LexIsWellnamed(s: string)
    ensures forall i :: 0 <= i < |Lex(s)| ==> Wellnamed(Lex(s)[i])
    decreases |s|
  {
    if s == [] {
    } else if s[0] == '\\' && |s| > 1 {
      var n := NameLength(s[1..]);
      NameIsNamed(s[1..]);
      if n > 0 {
        LexIsWellnamed(s[1 + n..]);
      } else {
        LexIsWellnamed(s[2..]);
      }
    } else {
      LexIsWellnamed(s[1..]);
    }
  }

  lemma ReadIsUnmasked(p: Profile, x: Lexeme)
    requires LICENSED !in p.tokens && Wellnamed(x)
    ensures LICENSED !in Read(p, x).tokens
  {
    assert LICENSED[1] == '<' && |LICENSED| > 2;
    if x.Word? && x.name != [] {
      assert NameChar(x.name[0]) && ("\\" + x.name)[1] == x.name[0];
    }
  }

  lemma {:induction false} TokensAreUnmasked(xs: seq<Lexeme>)
    requires forall i :: 0 <= i < |xs| ==> Wellnamed(xs[i])
    ensures LICENSED !in ReadAll(EMPTY, xs).tokens
    decreases |xs|
  {
    hide Read, Wellnamed;
    if xs != [] {
      TokensAreUnmasked(xs[..|xs| - 1]);
      ReadIsUnmasked(ReadAll(EMPTY, xs[..|xs| - 1]), xs[|xs| - 1]);
    }
  }

  /**
   What the five verdicts amount to: equally many tokens, each unchanged or a licensed
   command on both sides, and every sized delimiter kept in order. The three counts decide
   nothing.
   */
  lemma GuardMeans(c: Classes, original: string, corrected: string, allowed: set<string>)
    ensures var before, after := ProfileOf(original), ProfileOf(corrected);
            WithinGuard(c, original, corrected, allowed) <==>
            && |before.tokens| == |after.tokens|
            && (forall i :: 0 <= i < |before.tokens| ==>
                  || before.tokens[i] == after.tokens[i]
                  || (Licensed(before.tokens[i], allowed) && Licensed(after.tokens[i], allowed)))
            && exists at :: Embeds(before.delimiters, after.delimiters, at)
  {
    LexIsWellnamed(original);
    LexIsWellnamed(corrected);
    TokensAreUnmasked(Lex(original));
    TokensAreUnmasked(Lex(corrected));
    var before, after := ProfileOf(original), ProfileOf(corrected);
    hide ProfileOf, Mask, CountsOf, IsSubsequence, Lex, ReadAll, Licensed;
    SubsequenceIff(before.delimiters, after.delimiters);
    var a, b := Masked(before.tokens, allowed), Masked(after.tokens, allowed);
    forall i | 0 <= i < |before.tokens| && i < |after.tokens|
      ensures a[i] == b[i] <==> || before.tokens[i] == after.tokens[i]
                                || (Licensed(before.tokens[i], allowed) && Licensed(after.tokens[i], allowed))
    {
      MaskIff(before.tokens[i], after.tokens[i], allowed);
    }
    if |a| == |b| && forall i :: 0 <= i < |a| ==> a[i] == b[i] {
      assert a == b;
    }
  }

  lemma {:induction false} NameIsWhole(name: string, rest: string)
    requires (forall i :: 0 <= i < |name| ==> NameChar(name[i])) && (rest == [] || !NameChar(rest[0]))
    ensures NameLength(name + rest) == |name|
  {
    if name == [] {
      assert name + rest == rest;
    } else {
      assert (name + rest)[1..] == name[1..] + rest;
      NameIsWhole(name[1..], rest);
    }
  }

  /** What a character other than a backslash is scanned as. */
  function PlainLexeme(c: char): seq<Lexeme> {
    if 'a' <= c <= 'z' || 'A' <= c <= 'Z' || '0' <= c <= '9' then [Alphanumeric(c)] else if IsSpace(c) then [] else [Other(c)]
  }

  lemma LexPlain(c: char, rest: string)
    requires c != '\\'
    ensures Lex([c] + rest) == PlainLexeme(c) + Lex(rest)
  {
    hide IsSpace;
    var s := [c] + rest;
    assert s[1..] == rest && s[0] == c;
    assert [] + Lex(rest) == Lex(rest);
  }

  lemma LexWord(name: string, rest: string)
    requires name != [] && (forall i :: 0 <= i < |name| ==> NameChar(name[i])) && (rest == [] || !NameChar(rest[0]))
    ensures Lex("\\" + name + rest) == [Word(name)] + Lex(rest)
  {
    var t := "\\" + name + rest;
    assert t[1..] == name + rest;
    NameIsWhole(name, rest);
    hide IsSpace, IsLetter, NameChar, NameLength;
    assert t[1..1 + |name|] == name && t[1 + |name|..] == rest;
  }

  lemma LexSymbol(c: char, rest: string)
    requires !NameChar(c)
    ensures Lex("\\" + [c] + rest) == [Symbol(c)] + Lex(rest)
  {
    hide IsSpace, IsLetter;
    var u := "\\" + [c] + rest;
    assert u[1..] == [c] + rest && u[2..] == rest && u[1] == c;
    assert NameLength(u[1..]) == 0;
  }

  /**
   The scanner, lexeme by lexeme: a command takes the longest name of letters and `@`, or
   else one character; letters and digits stand alone; white space disappears; every other
   character, a final backslash included, stands for itself.
   */
  lemma LexMeans(c: char, name: string, rest: string)
    ensures c != '\\' ==>
              Lex([c] + rest) == (if 'a' <= c <= 'z' || 'A' <= c <= 'Z' || '0' <= c <= '9' then [Alphanumeric(c)]
                                  else if IsSpace(c) then [] else [Other(c)]) + Lex(rest)
    ensures name != [] && (forall i :: 0 <= i < |name| ==> NameChar(name[i])) && (rest == [] || !NameChar(rest[0])) ==>
              Lex("\\" + name + rest) == [Word(name)] + Lex(rest)
    ensures !NameChar(c) ==> Lex("\\" + [c] + rest) == [Symbol(c)] + Lex(rest)
    ensures Lex("\\") == [Other('\\')] && Lex("") == []
    ensures NameChar(c) <==> 'a' <= c <= 'z' || 'A' <= c <= 'Z' || c == '@'
  {
    LoneBackslash();
    hide Lex;
    if c != '\\' {
      LexPlain(c, rest);
    }
    if name != [] && (forall i :: 0 <= i < |name| ==> NameChar(name[i])) && (rest == [] || !NameChar(rest[0])) {
      LexWord(name, rest);
    }
    if !NameChar(c) {
      LexSymbol(c, rest);
    }
  }

  lemma LoneBackslash()
    ensures Lex("\\") == [Other('\\')] && Lex("") == []
  {
    assert "\\"[1..] == [];
  }

  // ----- the repair the guard is for ---------------------------------------------------------

  /** The text stops inside an escape: its last backslash has nothing to escape. */
  predicate Dangling(s: string)
    decreases |s|
  {
    if s == [] then false
    else if s[0] == '\\' then
      if |s| == 1 then true
      else if NameLength(s[1..]) > 0 then Dangling(s[1 + NameLength(s[1..])..])
      else Dangling(s[2..])
    else Dangling(s[1..])
  }

  lemma Regrouped<T>(a: seq<T>, b: seq<T>, c: seq<T>)
    ensures a + b + c == a + (b + c)
  {
  }

  /** A first lexeme read the same in front of both texts, and texts that split behind it: the whole splits. */
  lemma HeadSplits(first: string, head: seq<Lexeme>, rest: string, b: string)
    requires Lex(first + rest) == head + Lex(rest) && Lex(first + (rest + b)) == head + Lex(rest + b)
    requires Lex(rest + b) == Lex(rest) + Lex(b)
    ensures Lex(first + rest + b) == Lex(first + rest) + Lex(b)
  {
    hide Lex;
    Regrouped(first, rest, b);
    Regrouped(head, Lex(rest), Lex(b));
  }

  lemma {:induction false} NameGrows(s: string, c: char)
    ensures NameLength(s + [c]) == if NameLength(s) == |s| && NameChar(c) then |s| + 1 else NameLength(s)
  {
    if s != [] {
      assert (s + [c])[1..] == s[1..] + [c];
      NameGrows(s[1..], c);
    }
  }

  /** The empty text is complete; one more character leaves a text hanging exactly if it is a backslash that nothing escapes. */
  lemma {:induction false} DanglingIff(s: string, c: char)
    ensures !Dangling("")
    ensures Dangling(s + [c]) <==> c == '\\' && !Dangling(s)
    decreases |s|
  {
    var t := s + [c];
    if s == [] {
      assert t == [c] && t[1..] == [];
    } else if s[0] != '\\' {
      assert t[1..] == s[1..] + [c];
      DanglingIff(s[1..], c);
    } else {
      assert t[1..] == s[1..] + [c];
      NameGrows(s[1..], c);
      var n := NameLength(s[1..]);
      if |s| == 1 {
        assert t[2..] == [] && t[1 + NameLength(t[1..])..] == if NameChar(c) then [] else t[1..];
      } else if n == 0 {
        assert t[2..] == s[2..] + [c];
        DanglingIff(s[2..], c);
      } else if n == |s| - 1 && NameChar(c) {
        assert t[1 + n + 1..] == [] && s[1 + n..] == [];
      } else {
        assert t[1 + n..] == s[1 + n..] + [c];
        DanglingIff(s[1 + n..], c);
      }
    }
  }

  /** Text that starts with a character no name contains is scanned on its own. */
  lemma {:induction false} LexSplits(a: string, b: string)
    requires b != [] && !NameChar(b[0]) && !Dangling(a)
    ensures Lex(a + b) == Lex(a) + Lex(b)
    decreases |a|
  {
    LoneBackslash();
    hide Lex, IsLetter, IsSpace, NameChar;
    if a == [] {
      assert a + b == b;
    } else if a[0] != '\\' {
      var first, rest := [a[0]], a[1..];
      LexSplits(rest, b);
      LexPlain(a[0], rest);
      LexPlain(a[0], rest + b);
      HeadSplits(first, PlainLexeme(a[0]), rest, b);
      assert a == first + rest;
    } else {
      var n := NameLength(a[1..]);
      if n > 0 {
        var name, rest := a[1..1 + n], a[1 + n..];
        LexSplits(rest, b);
        NameIsNamed(a[1..]);
        NameIsLongest(a[1..]);
        LexWord(name, rest);
        LexWord(name, rest + b);
        HeadSplits("\\" + name, [Word(name)], rest, b);
        assert a == "\\" + name + rest;
      } else {
        var first, rest := "\\" + [a[1]], a[2..];
        LexSplits(rest, b);
        NameIsLongest(a[1..]);
        LexSymbol(a[1], rest);
        LexSymbol(a[1], rest + b);
        HeadSplits(first, [Symbol(a[1])], rest, b);
        assert a == first + rest;
      }
    }
  }

  lemma {:induction false} NameIsLongest(s: string)
    ensures NameLength(s) < |s| ==> !NameChar(s[NameLength(s)])
  {
    if s != [] && NameChar(s[0]) {
      NameIsLongest(s[1..]);
    }
  }

  lemma {:induction false} ReadSplits(p: Profile, xs: seq<Lexeme>, ys: seq<Lexeme>)
    ensures ReadAll(p, xs + ys) == ReadAll(ReadAll(p, xs), ys)
    decreases |ys|
  {
    hide Read;
    if ys == [] {
      assert xs + ys == xs;
    } else {
      assert (xs + ys)[..|xs + ys| - 1] == xs + ys[..|ys| - 1];
      ReadSplits(p, xs, ys[..|ys| - 1]);
    }
  }

  lemma {:induction false} AppendedIsKept<T>(a: seq<T>, b: seq<T>)
    ensures IsSubsequence(a, a + b)
  {
    if a != [] {
      assert (a + b)[1..] == a[1..] + b;
      AppendedIsKept(a[1..], b);
    }
  }

  /** `\right` followed by one of the sizable delimiters. */
  function Closing(d: char): string {
    ['\\', 'r', 'i', 'g', 'h', 't', d]
  }

  lemma RightIsAName()
    ensures forall i :: 0 <= i < |"right"| ==> NameChar("right"[i])
  {
  }

  lemma LexClosing(d: char)
    requires d in SIZED
    ensures Lex(Closing(d)) == [Word("right"), Other(d)]
  {
    RightIsAName();
    SizedIsPlain(d);
    LoneBackslash();
    hide Lex, NameChar, PlainLexeme;
    LexWord("right", [d]);
    LexPlain(d, []);
    assert [d] + [] == [d];
    assert Closing(d) == "\\" + "right" + [d];
  }

  lemma SizedIsPlain(d: char)
    requires d in SIZED
    ensures d != '\\' && !NameChar(d) && PlainLexeme(d) == [Other(d)]
  {
  }

  /** Closing an unbalanced pair is within the guard, whatever the compiler licensed. */
  lemma ClosingIsWithinGuard(c: Classes, original: string, d: char, allowed: set<string>)
    requires d in SIZED && !Dangling(original)
    ensures WithinGuard(c, original, original + Closing(d), allowed)
  {
    hide Lex, Dangling;
    LexSplits(original, Closing(d));
    LexClosing(d);
    var xs := Lex(original);
    ReadSplits(EMPTY, xs, [Word("right"), Other(d)]);
    var p := ProfileOf(original);
    ReadsClosing(p, d);
    AppendedIsKept(p.delimiters, [[d]]);
  }

  lemma ReadsClosing(p: Profile, d: char)
    requires d in SIZED
    ensures ReadAll(p, [Word("right"), Other(d)]) == Profile(p.tokens, p.delimiters + [[d]], false)
  {
    var xs := [Word("right"), Other(d)];
    assert xs[..1] == [Word("right")] && xs[..1][..0] == [];
    assert Read(p, Word("right")) == p.(sizing := true) by {
      assert "right" in SIZING;
    }
    assert ReadAll(p, xs[..1]) == p.(sizing := true);
    OpensThenCloses(p, d);
  }

  lemma OpensThenCloses(p: Profile, d: char)
    requires d in SIZED
    ensures Read(p.(sizing := true), Other(d)) == Profile(p.tokens, p.delimiters + [[d]], false)
  {
  }

  lemma {:induction false} SubsequenceIsShorter<T>(a: seq<T>, b: seq<T>)
    requires IsSubsequence(a, b)
    ensures |a| <= |b| && (|a| == |b| ==> a == b)
    decreases |b|
  {
    if a != [] {
      if a[0] == b[0] {
        SubsequenceIsShorter(a[1..], b[1..]);
        assert a == [a[0]] + a[1..] && b == [b[0]] + b[1..];
      } else {
        SubsequenceIsShorter(a, b[1..]);
      }
    }
  }

  /** A sized delimiter cannot change shape: with as many delimiters, they are the same ones. */
  lemma ShapesAreKept(c: Classes, original: string, corrected: string, allowed: set<string>)
    requires WithinGuard(c, original, corrected, allowed)
    ensures |ProfileOf(original).delimiters| <= |ProfileOf(corrected).delimiters|
    ensures |ProfileOf(original).delimiters| == |ProfileOf(corrected).delimiters| ==>
              ProfileOf(original).delimiters == ProfileOf(corrected).delimiters
    ensures allowed == {} ==> ProfileOf(original).tokens == ProfileOf(corrected).tokens
  {
    hide ProfileOf;
    SubsequenceIsShorter(ProfileOf(original).delimiters, ProfileOf(corrected).delimiters);
    var a, b := ProfileOf(original).tokens, ProfileOf(corrected).tokens;
    if allowed == {} {
      assert Masked(a, allowed) == a && Masked(b, allowed) == b;
    }
  }
}
