/**
 Two notions of "escaped": the group reader skips a backslash and what follows it,
 `balanced` counts the backslashes before each character. They agree.
 */
module TexGroups {
  import opened Wrappers

  // ----- counting backslashes ---------------------------------------------------------

  /** How many backslashes stand immediately before the index. */
  function BackslashesBefore(text: string, index: nat): nat
    requires index <= |text|
  {
    if index == 0 || text[index - 1] != '\\' then 0 else 1 + BackslashesBefore(text, index - 1)
  }

  predicate Escaped(text: string, index: nat)
    requires index <= |text|
  {
    BackslashesBefore(text, index) % 2 == 1
  }

  method OddBackslashes(text: string, index: nat) returns (odd: bool)
    requires index <= |text|
    ensures odd == Escaped(text, index)
  {
    var count := 0;
    var cursor := index - 1;
    while cursor >= 0 && text[cursor] == '\\'
      invariant -1 <= cursor < index
      invariant count + BackslashesBefore(text, cursor + 1) == BackslashesBefore(text, index)
    {
      count := count + 1;
      cursor := cursor - 1;
    }
    return count % 2 == 1;
  }

  /** Unescaped braces nest from `i` on, with `depth` groups already open. */
  predicate BalancedFrom(text: string, i: nat, depth: nat)
    requires i <= |text|
    decreases |text| - i
  {
    if i == |text| then depth == 0
    else if Escaped(text, i) then BalancedFrom(text, i + 1, depth)
    else if text[i] == '{' then BalancedFrom(text, i + 1, depth + 1)
    else if text[i] == '}' then depth > 0 && BalancedFrom(text, i + 1, depth - 1)
    else BalancedFrom(text, i + 1, depth)
  }

  predicate Balanced(text: string) {
    BalancedFrom(text, 0, 0)
  }

  /** `balanced`. */
  method IsBalanced(text: string) returns (b: bool)
    ensures b == Balanced(text)
  {
    var depth: nat := 0;
    var i := 0;
    while i < |text|
      invariant 0 <= i <= |text|
      invariant BalancedFrom(text, i, depth) == Balanced(text)
    {
      var escaped := OddBackslashes(text, i);
      if !escaped {
        if text[i] == '{' {
          depth := depth + 1;
        } else if text[i] == '}' {
          if depth == 0 { return false; }
          depth := depth - 1;
        }
      }
      i := i + 1;
    }
    return depth == 0;
  }

  // ----- reading a group ----------------------------------------------------------------

  /** Where the brace group that is open `depth` deep closes. */
  function BraceEnd(text: string, cursor: nat, depth: nat): (end: Option<nat>)
    ensures end.Some? ==> cursor <= end.value < |text| && text[end.value] == '}'
    decreases |text| - cursor
  {
    if cursor >= |text| then None
    else if text[cursor] == '\\' then BraceEnd(text, cursor + 2, depth)
    else if text[cursor] == '{' then BraceEnd(text, cursor + 1, depth + 1)
    else if text[cursor] == '}' then
      if depth <= 1 then Some(cursor) else BraceEnd(text, cursor + 1, depth - 1)
    else BraceEnd(text, cursor + 1, depth)
  }

  /** Where the bracket group closes: only brackets outside braces count. */
  function BracketEnd(text: string, cursor: nat, depth: nat, brace: int): (end: Option<nat>)
    ensures end.Some? ==> cursor <= end.value < |text| && text[end.value] == ']'
    decreases |text| - cursor
  {
    if cursor >= |text| then None
    else if text[cursor] == '\\' then BracketEnd(text, cursor + 2, depth, brace)
    else if text[cursor] == '{' then BracketEnd(text, cursor + 1, depth, brace + 1)
    else if text[cursor] == '}' then BracketEnd(text, cursor + 1, depth, brace - 1)
    else if brace == 0 && text[cursor] == '[' then BracketEnd(text, cursor + 1, depth + 1, brace)
    else if brace == 0 && text[cursor] == ']' then
      if depth <= 1 then Some(cursor) else BracketEnd(text, cursor + 1, depth - 1, brace)
    else BracketEnd(text, cursor + 1, depth, brace)
  }

  datatype Group = Group(inner: string, end: nat)

  function GroupAt(text: string, pos: nat, bracket: bool): (g: Option<Group>)
    ensures g.Some? ==> pos < g.value.end <= |text|
  {
    if pos >= |text| || text[pos] != (if bracket then '[' else '{') then None
    else
      var end := if bracket then BracketEnd(text, pos + 1, 1, 0) else BraceEnd(text, pos + 1, 1);
      if end.None? then None else Some(Group(text[pos + 1..end.value], end.value + 1))
  }

  /** `_read_group`, with its two depth counters. */
  method ReadGroup(text: string, pos: nat, bracket: bool) returns (g: Option<Group>)
    ensures g == GroupAt(text, pos, bracket)
  {
    if pos >= |text| || text[pos] != (if bracket then '[' else '{') {
      return None;
    }
    var depth: nat := 1;
    var brace := 0;
    var cursor := pos + 1;
    while cursor < |text|
      invariant pos < cursor && depth >= 1
      invariant bracket ==> BracketEnd(text, cursor, depth, brace) == BracketEnd(text, pos + 1, 1, 0)
      invariant !bracket ==> BraceEnd(text, cursor, depth) == BraceEnd(text, pos + 1, 1)
      decreases |text| - cursor
    {
      var c := text[cursor];
      if c == '\\' {
        cursor := cursor + 2;
        continue;
      }
      if bracket {
        if c == '{' { brace := brace + 1; }
        else if c == '}' { brace := brace - 1; }
        else if brace == 0 && c == '[' { depth := depth + 1; }
        else if brace == 0 && c == ']' {
          if depth == 1 { return Some(Group(text[pos + 1..cursor], cursor + 1)); }
          depth := depth - 1;
        }
      } else {
        if c == '{' { depth := depth + 1; }
        else if c == '}' {
          if depth == 1 { return Some(Group(text[pos + 1..cursor], cursor + 1)); }
          depth := depth - 1;
        }
      }
      cursor := cursor + 1;
    }
    return None;
  }

  // ----- agreement ------------------------------------------------------------------------

  /** The text ends in the middle of an escape. */
  predicate DanglingFrom(text: string, i: nat)
    decreases |text| - i
  {
    if i >= |text| then i > |text|
    else if text[i] == '\\' then DanglingFrom(text, i + 2)
    else DanglingFrom(text, i + 1)
  }

  predicate Dangling(text: string) {
    DanglingFrom(text, 0)
  }

  /** Nesting as the group reader sees it: a backslash takes the next character with it. */
  predicate NestsFrom(text: string, i: nat, depth: nat)
    decreases |text| - i
  {
    if i >= |text| then depth == 0
    else if text[i] == '\\' then NestsFrom(text, i + 2, depth)
    else if text[i] == '{' then NestsFrom(text, i + 1, depth + 1)
    else if text[i] == '}' then depth > 0 && NestsFrom(text, i + 1, depth - 1)
    else NestsFrom(text, i + 1, depth)
  }

  /** At every place the reader stops, the number of backslashes before it is even. */
  lemma {:induction false} ParityIsPairing(text: string, i: nat, depth: nat)
    requires i <= |text| && !Escaped(text, i)
    ensures BalancedFrom(text, i, depth) == NestsFrom(text, i, depth)
    decreases |text| - i
  {
    if i < |text| {
      if text[i] == '\\' {
        assert Escaped(text, i + 1);
        if i + 1 < |text| {
          assert !Escaped(text, i + 2);
          ParityIsPairing(text, i + 2, depth);
        }
      } else if text[i] == '{' {
        ParityIsPairing(text, i + 1, depth + 1);
      } else if text[i] == '}' && depth > 0 {
        ParityIsPairing(text, i + 1, depth - 1);
      } else if text[i] != '}' {
        ParityIsPairing(text, i + 1, depth);
      }
    }
  }

  /** The reader closes exactly at the end of a nested, complete text. */
  lemma {:induction false} ReaderCloses(text: string, lo: nat, hi: nat, i: nat, depth: nat)
    requires lo + i <= hi < |text| && text[hi] == '}'
    ensures BraceEnd(text, lo + i, depth + 1) == Some(hi) <==>
            NestsFrom(text[lo..hi], i, depth) && !DanglingFrom(text[lo..hi], i)
    decreases hi - lo - i
  {
    var t := text[lo..hi];
    if lo + i == hi {
    } else if t[i] == '\\' {
      if lo + i + 2 <= hi {
        ReaderCloses(text, lo, hi, i + 2, depth);
      }
    } else if t[i] == '{' {
      ReaderCloses(text, lo, hi, i + 1, depth + 1);
    } else if t[i] == '}' {
      if depth > 0 {
        ReaderCloses(text, lo, hi, i + 1, depth - 1);
      }
    } else {
      ReaderCloses(text, lo, hi, i + 1, depth);
    }
  }

  /** Every brace group that is read is balanced, complete and exactly the text between its braces. */
  lemma GroupsAreBalanced(text: string, pos: nat)
    requires GroupAt(text, pos, false).Some?
    ensures var g := GroupAt(text, pos, false).value;
            && g.end <= |text| && text[pos..g.end] == "{" + g.inner + "}"
            && Balanced(g.inner) && !Dangling(g.inner)
  {
    var g := GroupAt(text, pos, false).value;
    ReaderCloses(text, pos + 1, g.end - 1, 0, 0);
    ParityIsPairing(g.inner, 0, 0);
  }

  /**
   A text put between braces, anywhere, is read back exactly if and only if it is
   balanced and does not end in a dangling backslash.
   */
  lemma WrappedIsReadBackIff(before: string, t: string, after: string)
    ensures GroupAt(before + "{" + t + "}" + after, |before|, false) == Some(Group(t, |before| + |t| + 2)) <==>
            Balanced(t) && !Dangling(t)
  {
    var text := before + "{" + t + "}" + after;
    var lo := |before| + 1;
    assert text[lo..lo + |t|] == t && text[lo + |t|] == '}';
    ReaderCloses(text, lo, lo + |t|, 0, 0);
    ParityIsPairing(t, 0, 0);
  }

  // ----- optional arguments ------------------------------------------------------------------

  /** A scan of unescaped braces: how deep it is, how deep it ever was at the least, and whether a backslash is pending. */
  datatype Scan = Scan(depth: int, low: int, escaped: bool)

  const START := Scan(0, 0, false)

  function Step(s: Scan, c: char): (r: Scan)
    ensures r.low <= s.low && (s.low <= s.depth ==> r.low <= r.depth)
  {
    if s.escaped then s.(escaped := false)
    else if c == '\\' then s.(escaped := true)
    else if c == '{' then s.(depth := s.depth + 1)
    else if c == '}' then Scan(s.depth - 1, if s.depth - 1 < s.low then s.depth - 1 else s.low, false)
    else s
  }

  function Feed(s: Scan, text: string): (r: Scan)
    ensures r.low <= s.low && (s.low <= s.depth ==> r.low <= r.depth)
    decreases |text|
  {
    if text == [] then s else Step(Feed(s, text[..|text| - 1]), text[|text| - 1])
  }

  /** What a text adds to the depth. */
  function Net(text: string): int {
    Feed(START, text).depth
  }

  /** How many groups must be open before a text for it to close none that is not. */
  function Deficit(text: string): nat {
    -Feed(START, text).low
  }

  lemma {:induction false} FeedConcat(s: Scan, a: string, b: string)
    ensures Feed(s, a + b) == Feed(Feed(s, a), b)
    decreases |b|
  {
    if b == [] {
      assert a + b == a;
    } else {
      assert (a + b)[..|a + b| - 1] == a + b[..|b| - 1];
      FeedConcat(s, a, b[..|b| - 1]);
    }
  }

  lemma FeedOne(s: Scan, c: char)
    ensures Feed(s, [c]) == Step(s, c)
  {
    assert [c][..0] == [];
  }

  /** The scan up to an index, one step on. */
  lemma FeedNext(text: string, i: nat)
    requires i < |text|
    ensures Feed(START, text[..i + 1]) == Step(Feed(START, text[..i]), text[i])
  {
    assert text[..i + 1][..i] == text[..i];
  }

  /** A scan that starts deeper stays that much deeper. */
  lemma {:induction false} FeedShift(s: Scan, text: string)
    requires !s.escaped && s.low <= s.depth
    ensures var r := Feed(s, text);
            && r.depth == s.depth + Net(text) && r.escaped == Feed(START, text).escaped
            && (r.low >= 0 <==> s.low >= 0 && s.depth >= Deficit(text))
            && r.low == (if s.depth - Deficit(text) < s.low then s.depth - Deficit(text) else s.low)
    decreases |text|
  {
    if text != [] {
      FeedShift(s, text[..|text| - 1]);
    }
  }

  /** The pending backslash of the scan is the parity that `balanced` counts. */
  lemma {:induction false} ScanEscapes(text: string, i: nat)
    requires i <= |text|
    ensures Feed(START, text[..i]).escaped == Escaped(text, i)
    decreases i
  {
    if i > 0 {
      ScanEscapes(text, i - 1);
      FeedNext(text, i - 1);
    }
  }

  lemma {:induction false} ScanBalances(text: string, i: nat, depth: nat)
    requires i <= |text| && Feed(START, text[..i]).depth == depth && Feed(START, text[..i]).low >= 0
    ensures BalancedFrom(text, i, depth) <==> Net(text) == 0 && Deficit(text) == 0
    decreases |text| - i
  {
    ScanEscapes(text, i);
    if i == |text| {
      assert text[..i] == text;
    } else {
      FeedNext(text, i);
      var next := Feed(START, text[..i + 1]);
      if next.low < 0 {
        LowStays(text, i + 1);
      } else {
        ScanBalances(text, i + 1, next.depth);
      }
    }
  }

  lemma {:induction false} LowStays(text: string, i: nat)
    requires i <= |text| && Feed(START, text[..i]).low < 0
    ensures Deficit(text) > 0
    decreases |text| - i
  {
    if i == |text| {
      assert text[..i] == text;
    } else {
      FeedNext(text, i);
      LowStays(text, i + 1);
    }
  }

  /** A text is balanced if and only if its braces cancel out and no prefix closes more than it opens. */
  lemma BalancedIff(text: string)
    ensures Balanced(text) <==> Net(text) == 0 && Deficit(text) == 0
  {
    assert text[..0] == [];
    ScanBalances(text, 0, 0);
  }

  lemma {:induction false} BracketCloses(text: string, lo: nat, end: nat, i: nat, depth: nat, brace: int)
    requires lo + i <= |text| && BracketEnd(text, lo + i, depth, brace) == Some(end) && lo + i <= end
    requires Feed(START, text[lo..end][..i]).depth == brace && !Feed(START, text[lo..end][..i]).escaped
    ensures Net(text[lo..end]) == 0 && !Feed(START, text[lo..end]).escaped
    decreases |text| - i
  {
    var t := text[lo..end];
    if lo + i == end {
      assert t[..i] == t;
    } else {
      hide Feed;
      var c := text[lo + i];
      assert t[i] == c;
      FeedNext(t, i);
      if c == '\\' {
        FeedNext(t, i + 1);
        BracketCloses(text, lo, end, i + 2, depth, brace);
      } else {
        var open := if brace == 0 && c == '[' then depth + 1 else if brace == 0 && c == ']' then depth - 1 else depth;
        BracketCloses(text, lo, end, i + 1, open, if c == '{' then brace + 1 else if c == '}' then brace - 1 else brace);
      }
    }
  }

  /**
   In every bracket group that is read the braces cancel out and no escape is cut; and the
   text is balanced if and only if no prefix of it closes more braces than it opens.
   */
  lemma BracketGroupsCancel(text: string, pos: nat)
    requires GroupAt(text, pos, true).Some?
    ensures var g := GroupAt(text, pos, true).value;
            && g.end <= |text| && text[pos..g.end] == "[" + g.inner + "]"
            && Net(g.inner) == 0 && !Feed(START, g.inner).escaped
            && (Balanced(g.inner) <==> Deficit(g.inner) == 0)
  {
    var g := GroupAt(text, pos, true).value;
    assert text[pos + 1..g.end - 1][..0] == [];
    BracketCloses(text, pos + 1, g.end - 1, 0, 1, 0);
    BalancedIff(g.inner);
  }

  /** Such a prefix does occur. */
  lemma BracketGroupsNeedNotBalance()
    ensures GroupAt("[}{]", 0, true) == Some(Group("}{", 4)) && Deficit("}{") == 1 && !Balanced("}{")
  {
    var text := "[}{]";
    assert BracketEnd(text, 3, 1, 0) == Some(3);
    assert BracketEnd(text, 2, 1, -1) == Some(3);
    assert BracketEnd(text, 1, 1, 0) == Some(3);
    assert text[1..3] == "}{";
    FeedOne(START, '}');
    FeedConcat(START, "}", "{");
    FeedOne(Step(START, '}'), '{');
    assert "}" + "{" == "}{";
    BalancedIff("}{");
  }
}
