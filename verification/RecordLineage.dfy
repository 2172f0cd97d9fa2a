/** Parent links never cycle: every ancestry ends at a root. */
module RecordLineage {
  import opened Wrappers
  import opened RecordModel
  import opened RecordRules
  import opened RecordInvariant
  import opened RecordGrowth

  predicate Distinct(ids: seq<Id>) {
    forall i, j :: 0 <= i < j < |ids| ==> ids[i] != ids[j]
  }

  lemma {:induction false} DistinctBound(ids: seq<Id>, s: set<Id>)
    requires Distinct(ids) && forall i :: 0 <= i < |ids| ==> ids[i] in s
    ensures |ids| <= |s|
  {
    if ids != [] {
      var rest := ids[1..];
      assert forall i :: 0 <= i < |rest| ==> rest[i] == ids[i + 1];
      DistinctBound(rest, s - {ids[0]});
    }
  }

  /** Each branch in the chain is the parent of the one before it, and older. */
  ghost predicate OlderAndOlder(branches: map<Id, Branch>, ch: seq<Id>) {
    && (forall i :: 0 <= i < |ch| ==> ch[i] in branches)
    && (forall i, j :: 0 <= i < j < |ch| ==> Born(branches[ch[j]]) < Born(branches[ch[i]]))
    && (forall i :: 0 <= i < |ch| - 1 ==> branches[ch[i]].parent == Some(ch[i + 1]))
  }

  lemma ParentIsOlder(branches: map<Id, Branch>, steps: map<Id, StepRevision>, b: Id)
    requires Forks(branches, steps) && b in branches && branches[b].parent.Some?
    ensures branches[b].parent.value in branches && Born(branches[branches[b].parent.value]) < Born(branches[b])
  {
    assert ForkOk(branches, steps, branches[b]);
  }

  lemma {:induction false} ChainAges(branches: map<Id, Branch>, steps: map<Id, StepRevision>, b: Id, n: nat)
    requires Forks(branches, steps) && b in branches
    ensures var ch := Chain(branches, b, n);
            && ch != [] && ch[0] == b && |ch| <= n + 1 && OlderAndOlder(branches, ch)
            && (|ch| <= n ==> branches[ch[|ch| - 1]].parent.None?)
    decreases n
  {
    hide Forks, Born;
    if n > 0 && branches[b].parent.Some? {
      var p := branches[b].parent.value;
      ParentIsOlder(branches, steps, b);
      ChainAges(branches, steps, p, n - 1);
      OneOlder(branches, b, Chain(branches, p, n - 1));
    }
  }

  /** A branch before a chain of ever older ones. */
  lemma OneOlder(branches: map<Id, Branch>, b: Id, rest: seq<Id>)
    requires b in branches && rest != [] && OlderAndOlder(branches, rest)
    requires branches[b].parent == Some(rest[0]) && Born(branches[rest[0]]) < Born(branches[b])
    ensures OlderAndOlder(branches, [b] + rest) && ([b] + rest)[|rest|] == rest[|rest| - 1]
  {
    hide Born;
    var ch := [b] + rest;
    forall i, j | 0 <= i < j < |ch|
      ensures Born(branches[ch[j]]) < Born(branches[ch[i]])
    {
      assert ch[j] == rest[j - 1];
      if i == 0 {
        assert j == 1 || Born(branches[rest[j - 1]]) < Born(branches[rest[0]]);
      } else {
        assert ch[i] == rest[i - 1];
      }
    }
  }

  /** The ancestry of a branch is a path of distinct branches that ends at a root. */
  lemma AncestryEndsAtRoot(branches: map<Id, Branch>, steps: map<Id, StepRevision>, b: Id)
    requires Forks(branches, steps) && b in branches
    ensures var ch := Ancestry(branches, b);
            && ch != [] && ch[0] == b && Distinct(ch) && |ch| <= |branches|
            && (forall i :: 0 <= i < |ch| ==> ch[i] in branches)
            && (forall i :: 0 <= i < |ch| - 1 ==> branches[ch[i]].parent == Some(ch[i + 1]))
            && branches[ch[|ch| - 1]].parent.None?
  {
    var ch := Ancestry(branches, b);
    ChainAges(branches, steps, b, |branches|);
    forall i, j | 0 <= i < j < |ch|
      ensures ch[i] != ch[j]
    {
      assert Born(branches[ch[j]]) < Born(branches[ch[i]]);
    }
    DistinctBound(ch, branches.Keys);
  }

  lemma ParentKept(branches: map<Id, Branch>, branches': map<Id, Branch>, steps: map<Id, StepRevision>, b: Id)
    requires Forks(branches, steps) && BranchesGrew(branches, branches') && b in branches
    ensures b in branches' && branches'[b].parent == branches[b].parent
    ensures branches[b].parent.Some? ==> branches[b].parent.value in branches
  {
    assert ForkOk(branches, steps, branches[b]);
    assert BranchGrew(branches[b], branches'[b]);
  }

  lemma {:induction false} ChainKept(branches: map<Id, Branch>, branches': map<Id, Branch>, steps: map<Id, StepRevision>, b: Id, n: nat, m: nat)
    requires Forks(branches, steps) && BranchesGrew(branches, branches') && b in branches
    requires n <= m && |Chain(branches, b, n)| <= n
    ensures Chain(branches', b, m) == Chain(branches, b, n)
    decreases n
  {
    hide Forks, BranchesGrew;
    ParentKept(branches, branches', steps, b);
    if n > 0 && branches[b].parent.Some? {
      ChainKept(branches, branches', steps, branches[b].parent.value, n - 1, m - 1);
    }
  }

  /** Growth leaves the ancestry of an existing branch as it is. */
  lemma AncestryKept(branches: map<Id, Branch>, branches': map<Id, Branch>, steps: map<Id, StepRevision>, b: Id)
    requires Forks(branches, steps) && BranchesGrew(branches, branches') && b in branches
    ensures Ancestry(branches', b) == Ancestry(branches, b)
  {
    AncestryEndsAtRoot(branches, steps, b);
    MoreBranches(branches, branches');
    ChainKept(branches, branches', steps, b, |branches|, |branches'|);
  }

  lemma MoreBranches(branches: map<Id, Branch>, branches': map<Id, Branch>)
    requires BranchesGrew(branches, branches')
    ensures |branches| <= |branches'|
  {
    assert branches.Keys <= branches'.Keys;
    SubsetSize(branches.Keys, branches'.Keys);
    assert |branches.Keys| == |branches| && |branches'.Keys| == |branches'|;
  }

  lemma {:induction false} SubsetSize(a: set<Id>, b: set<Id>)
    requires a <= b
    ensures |a| <= |b|
  {
    if a != {} {
      var x :| x in a;
      SubsetSize(a - {x}, b - {x});
    }
  }
}
