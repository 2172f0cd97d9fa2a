/**
 The crash-safe install (`install`, `_clean_stale` of tools/provision_tectonic.py). A run
 may be killed before any of its file operations, also in the middle of a removal; a
 removal may fail, which the clean-up ignores; the next run starts with the clean-up.
 */
module CrashSafeInstall {
  import opened Wrappers

  /** A directory tree: complete, in some version, or half written or half removed. */
  datatype Tree = Whole(version: nat) | Torn

  type Name = nat

  datatype End = Killed | Raised | Installed

  /** What becomes of one removal: done, failed before anything went, or failed half way. */
  datatype Removal = Removed | Stuck | Half

  /** What the rest of the world does to one run. */
  datatype Run = Run(
    version: nat,      // the verified tree it would install
    staging: Name,     // the fresh name of its staging directory
    previous: Name,    // the name for the tree it replaces, made from its process number
    verifies: bool,    // every file was fetched and the staged tree has no problems
    publishes: bool,   // the rename of the staging directory does not raise
    operations: nat)   // file operations before it is killed

  // ----- what a clean-up gives back --------------------------------------------------------------

  /** One way to list the names: a glob promises no order. */
  ghost predicate Lists(order: seq<Name>, names: set<Name>) {
    && (forall i, j :: 0 <= i < j < |order| ==> order[i] != order[j])
    && (forall n :: n in order <==> n in names)
  }

  /** The root after the second loop of the clean-up: if it is missing, the first previous directory found takes its place. */
  function Restored(root: Option<Tree>, previous: map<Name, Tree>, order: seq<Name>): Option<Tree>
    requires forall n :: n in order ==> n in previous
  {
    if root.Some? || order == [] then root else Some(previous[order[0]])
  }

  predicate Complete(root: Option<Tree>) {
    root.Some? ==> root.value.Whole?
  }

  /** Whatever order the previous directories are found in, a completed clean-up leaves a complete tree or none. */
  ghost predicate AlwaysComplete(root: Option<Tree>, previous: map<Name, Tree>) {
    forall order :: Lists(order, previous.Keys) ==> Complete(Restored(root, previous, order))
  }

  ghost predicate AlwaysGives(root: Option<Tree>, previous: map<Name, Tree>, current: Option<Tree>) {
    forall order :: Lists(order, previous.Keys) ==> Restored(root, previous, order) == current
  }

  lemma {:induction false} SomeListing(names: set<Name>) returns (order: seq<Name>)
    ensures Lists(order, names)
    decreases |names|
  {
    if names == {} {
      order := [];
    } else {
      var n :| n in names;
      var rest := SomeListing(names - {n});
      order := [n] + rest;
    }
  }

  lemma ListingFrom(names: set<Name>, first: Name) returns (order: seq<Name>)
    requires first in names
    ensures Lists(order, names) && order != [] && order[0] == first
  {
    var rest := SomeListing(names - {first});
    order := [first] + rest;
  }

  /**
   Whatever order the previous directories are found in, a completed clean-up gives back
   a complete tree if and only if the root is there and complete, or it is missing and no
   previous directory is torn.
   */
  lemma CompleteIff(root: Option<Tree>, previous: map<Name, Tree>)
    ensures AlwaysComplete(root, previous) <==>
            if root.Some? then root.value.Whole? else forall n :: n in previous ==> previous[n].Whole?
  {
    var some := SomeListing(previous.Keys);
    if root.None? {
      forall n | n in previous && !previous[n].Whole?
        ensures exists order :: Lists(order, previous.Keys) && !Complete(Restored(root, previous, order))
      {
        var order := ListingFrom(previous.Keys, n);
        assert !Complete(Restored(root, previous, order));
      }
      forall order | Lists(order, previous.Keys) && forall n :: n in previous ==> previous[n].Whole?
        ensures Complete(Restored(root, previous, order))
      {
        assert order != [] ==> order[0] in order;
      }
    } else {
      assert Restored(root, previous, some) == root;
    }
  }

  /** The root is there, or every previous directory is the given tree. */
  ghost predicate SafeFor(root: Option<Tree>, previous: map<Name, Tree>, current: Option<Tree>) {
    if root.Some? then root == current
    else (forall n :: n in previous ==> Some(previous[n]) == current) && (previous == map[] ==> current.None?)
  }

  /** And it gives back the current tree, in whatever order, if and only if there is nothing else to give back. */
  lemma CurrentIff(root: Option<Tree>, previous: map<Name, Tree>, current: Option<Tree>)
    ensures AlwaysGives(root, previous, current) <==> SafeFor(root, previous, current)
  {
    var some := SomeListing(previous.Keys);
    if root.None? {
      forall n | n in previous && Some(previous[n]) != current
        ensures exists order :: Lists(order, previous.Keys) && Restored(root, previous, order) != current
      {
        var order := ListingFrom(previous.Keys, n);
        assert Restored(root, previous, order) != current;
      }
      forall order | Lists(order, previous.Keys) && SafeFor(root, previous, current)
        ensures Restored(root, previous, order) == current
      {
        if order == [] {
          NothingListed(previous);
        } else {
          assert order[0] in order;
        }
      }
      if previous == map[] {
        assert Restored(root, previous, []) == None && Lists([], previous.Keys);
      }
    } else {
      assert Restored(root, previous, some) == root;
    }
  }

  /**
   Killed between its renames, a run leaves the tree it was replacing beside what was there
   before. The clean-up then gives a complete tree back in every order if and only if
   nothing torn had been left there, and that very tree if and only if nothing else had.
   */
  lemma KilledIsSafeIff(previous: map<Name, Tree>, aside: Name, tree: Tree)
    requires aside !in previous && tree.Whole?
    ensures AlwaysComplete(None, previous[aside := tree]) <==> forall n :: n in previous ==> previous[n].Whole?
    ensures AlwaysGives(None, previous[aside := tree], Some(tree)) <==> forall n :: n in previous ==> previous[n] == tree
  {
    var after := previous[aside := tree];
    CompleteIff(None, after);
    CurrentIff(None, after, Some(tree));
    assert forall n :: n in after <==> n in previous || n == aside;
    assert after[aside] == tree && after != map[];
    assert forall n :: n in previous ==> after[n] == previous[n];
  }

  lemma NothingListed(previous: map<Name, Tree>)
    requires Lists([], previous.Keys)
    ensures previous == map[]
  {
    var none: seq<Name> := [];
    assert Lists(none, previous.Keys);
    assert forall n :: n in previous ==> n in none;
  }

  // ----- the disk ----------------------------------------------------------------------------------

  /** The parent directory of the managed root, with its hidden siblings. */
  class Disk {
    /** What becomes of the n-th removal. */
    const removal: nat -> Removal
    var root: Option<Tree>
    var staging: map<Name, Tree>
    var previous: map<Name, Tree>
    var left: nat
    var removals: nat
    /** The tree a clean-up ought to give the user back. */
    ghost var current: Option<Tree>

    constructor (root: Option<Tree>, removal: nat -> Removal)
      requires Complete(root)
      ensures Consistent() && current == root && this.root == root && this.removal == removal && staging == map[] && previous == map[]
    {
      this.removal := removal;
      this.root, staging, previous, left, removals, current := root, map[], map[], 0, 0, root;
    }

    /** Removals succeed. */
    ghost predicate Reliable() {
      forall k: nat :: removal(k).Removed?
    }

    /** No removal succeeds. */
    ghost predicate Failing() {
      forall k: nat :: !removal(k).Removed?
    }

    /** The current tree is complete, and is the root, or waits in a previous directory for a missing root. */
    ghost predicate Recoverable()
      reads this`root, this`previous, this`current
    {
      && Complete(current) && (root.Some? ==> root == current)
      && (root.None? && current.Some? ==> exists n :: n in previous && previous[n] == current.value)
    }

    /** A clean-up gives the current tree back, whatever it finds first. */
    ghost predicate Safe()
      reads this`root, this`previous, this`current
    {
      SafeFor(root, previous, current)
    }

    /** What reliable removals keep: never more than one previous directory, and it is the current tree if the root is missing. */
    ghost predicate Consistent()
      reads this`root, this`previous, this`current
    {
      Recoverable() && Safe() && forall m, n :: m in previous && n in previous ==> m == n
    }

    ghost predicate Clean()
      reads this
    {
      root == current && staging == map[] && previous == map[]
    }

    /** One file operation, unless the run is killed first. */
    method Tick() returns (alive: bool)
      modifies this`left
      ensures alive == (old(left) > 0) && (alive ==> left == old(left) - 1)
    {
      alive := left > 0;
      if alive {
        left := left - 1;
      }
    }

    /** A staging directory is removed, or the failure is ignored. */
    method RemoveStaging(n: Name) returns (alive: bool)
      requires n in staging
      modifies this`staging, this`left, this`removals
      ensures staging.Keys <= old(staging).Keys && staging.Keys >= old(staging).Keys - {n}
      ensures alive && Reliable() ==> staging == old(staging) - {n}
      ensures old(left) >= 2 ==> alive && left >= old(left) - 2
    {
      alive := Tick();
      if !alive { return; }
      var what := removal(removals);
      removals := removals + 1;
      if what.Stuck? { return; }
      staging := staging[n := Torn];
      if what.Half? { return; }
      alive := Tick();
      if !alive { return; }
      staging := staging - {n};
    }

    /** A previous directory is removed; its tree is lost even when that fails half way. */
    method RemovePrevious(n: Name) returns (alive: bool, ok: bool)
      requires n in previous
      modifies this`previous, this`left, this`removals
      ensures previous.Keys <= old(previous).Keys && previous - {n} == old(previous) - {n}
      ensures n in previous ==> previous[n].Torn? || previous[n] == old(previous)[n]
      ensures alive ==> ok == removal(old(removals)).Removed?
      ensures !removal(old(removals)).Removed? ==> n in previous
      ensures alive && ok ==> previous == old(previous) - {n}
      ensures alive && removal(old(removals)).Half? ==> previous == old(previous)[n := Torn]
      ensures old(root).Some? && old(Recoverable()) ==> Recoverable()
      ensures old(left) >= 2 ==> alive && left >= old(left) - 2
    {
      ok := false;
      alive := Tick();
      if !alive { return; }
      var what := removal(removals);
      removals := removals + 1;
      if what.Stuck? { return; }
      previous := previous[n := Torn];
      if what.Half? { return; }
      alive := Tick();
      if !alive { return; }
      previous := previous - {n};
      ok := true;
    }

    /** One previous directory: put back if the root is missing, else removed. */
    method Meet(n: Name) returns (alive: bool)
      requires n in previous
      modifies this`root, this`previous, this`left, this`removals
      ensures root == if alive && old(root).None? then Some(old(previous)[n]) else old(root)
      ensures previous.Keys <= old(previous).Keys && previous - {n} == old(previous) - {n}
      ensures n in previous ==> previous[n].Torn? || previous[n] == old(previous)[n]
      ensures old(root).None? && !alive ==> previous == old(previous)
      ensures Reliable() && alive ==> n !in previous
      ensures old(root).Some? && Failing() ==> n in previous
      ensures old(root).Some? && old(Recoverable()) ==> Recoverable()
      ensures old(left) >= 2 ==> alive && left >= old(left) - 2
    {
      if root.None? {
        alive := Tick();
        if !alive { return; }
        root, previous := Some(previous[n]), previous - {n};
      } else {
        var ok;
        alive, ok := RemovePrevious(n);
      }
    }

    lemma RestoredIsCurrent(before: Option<Tree>, previous: map<Name, Tree>, order: seq<Name>)
      requires Lists(order, previous.Keys) && SafeFor(before, previous, current)
      ensures Restored(before, previous, order) == current
    {
      if before.None? {
        if order == [] {
          NothingListed(previous);
        } else {
          assert order[0] in order;
        }
      }
    }

    /** The second loop of the clean-up. */
    method SweepPrevious(order: seq<Name>) returns (alive: bool)
      requires Lists(order, previous.Keys)
      modifies this`root, this`previous, this`left, this`removals
      ensures root == old(root) || root == Restored(old(root), old(previous), order)
      ensures alive ==> root == Restored(old(root), old(previous), order)
      ensures old(Recoverable() && Safe()) ==> Recoverable()
      ensures Reliable() && alive ==> previous == map[]
      ensures forall n :: n in previous ==> n in old(previous) && (previous[n].Torn? || previous[n] == old(previous)[n])
      ensures old(root).None? && root.None? ==> previous == old(previous)
      ensures Failing() && old(root).Some? ==> previous.Keys == old(previous).Keys
      ensures old(left) >= 2 * |order| ==> alive && left >= old(left) - 2 * |order|
    {
      hide Reliable, Failing;
      ghost var r0, p0 := root, previous;
      if SafeFor(root, previous, current) {
        RestoredIsCurrent(root, previous, order);
      }
      if order == [] {
        NothingListed(previous);
        return true;
      }
      assert order[0] in order;
      alive := Meet(order[0]);
      OthersStay(p0, previous, order[0]);
      if !alive { return; }
      var k := 1;
      while k < |order|
        invariant 1 <= k <= |order| && alive && root == Restored(r0, p0, order) && root.Some?
        invariant forall j :: k <= j < |order| ==> order[j] in previous
        invariant forall n :: n in previous ==> n in p0 && (previous[n].Torn? || previous[n] == p0[n])
        invariant old(Recoverable() && Safe()) ==> Recoverable()
        invariant Reliable() ==> forall j :: 0 <= j < k ==> order[j] !in previous
        invariant Failing() && r0.Some? ==> previous.Keys == p0.Keys
        invariant old(left) >= 2 * |order| ==> left >= old(left) - 2 * k
      {
        ghost var was := previous;
        alive := Meet(order[k]);
        OthersStay(was, previous, order[k]);
        if !alive { return; }
        k := k + 1;
      }
      assert Reliable() ==> forall n :: n in previous ==> n in order;
    }

    /** `_clean_stale`, meeting the previous directories in the given order. */
    method CleanStale(order: seq<Name>) returns (alive: bool)
      requires Lists(order, previous.Keys)
      modifies this`root, this`staging, this`previous, this`left, this`removals
      ensures staging.Keys <= old(staging).Keys
      ensures root == old(root) || root == Restored(old(root), old(previous), order)
      ensures alive ==> root == Restored(old(root), old(previous), order)
      ensures old(Recoverable() && Safe()) ==> Recoverable() && Safe() && (alive ==> root == current)
      ensures Reliable() && old(Consistent()) ==> Consistent() && (alive ==> Clean())
      ensures forall n :: n in previous ==> n in old(previous) && (previous[n].Torn? || previous[n] == old(previous)[n])
      ensures Failing() && old(root).Some? ==> previous.Keys == old(previous).Keys
      ensures old(left) >= 2 * |old(staging)| + 2 * |order| ==> alive && left >= old(left) - 2 * |old(staging)| - 2 * |order|
    {
      ghost var r0, p0 := root, previous;
      if SafeFor(root, previous, current) {
        RestoredIsCurrent(root, previous, order);
      }
      alive := SweepStaging();
      if !alive { return; }
      alive := SweepPrevious(order);
    }

    lemma OthersStay(was: map<Name, Tree>, now: map<Name, Tree>, n: Name)
      requires now - {n} == was - {n}
      ensures forall m :: m != n ==> (m in now <==> m in was) && (m in now ==> now[m] == was[m])
    {
      forall m | m != n
        ensures (m in now <==> m in was) && (m in now ==> now[m] == was[m])
      {
        assert m in now <==> m in now - {n};
        assert m in was <==> m in was - {n};
        if m in now {
          assert now[m] == (now - {n})[m];
        }
      }
    }

    /** The first loop of the clean-up. */
    method SweepStaging() returns (alive: bool)
      modifies this`staging, this`left, this`removals
      ensures staging.Keys <= old(staging).Keys && (alive && Reliable() ==> staging == map[])
      ensures old(left) >= 2 * |old(staging)| ==> alive && left >= old(left) - 2 * |old(staging)|
    {
      var names := staging.Keys;
      ghost var all := names;
      assert |names| == |staging|;
      alive := true;
      while names != {}
        invariant names <= staging.Keys <= all == old(staging).Keys && (Reliable() ==> names == staging.Keys)
        invariant alive && |names| <= |all|
        invariant old(left) >= 2 * |all| ==> left >= old(left) - 2 * (|all| - |names|)
        decreases names
      {
        var n :| n in names;
        alive := RemoveStaging(n);
        if !alive { return; }
        names := names - {n};
      }
    }

    /** Fetch, stage and verify. */
    method Stage(run: Run) returns (alive: bool)
      modifies this`staging, this`left
      ensures alive ==> staging == old(staging)[run.staging := if run.verifies then Whole(run.version) else Torn]
      ensures !alive ==> staging.Keys <= old(staging).Keys + {run.staging}
      ensures old(left) >= 2 ==> alive && left == old(left) - 2
    {
      alive := Tick();
      if !alive { return; }
      staging := staging[run.staging := Torn];
      alive := Tick();
      if !alive { return; }
      if run.verifies {
        staging := staging[run.staging := Whole(run.version)];
      }
    }

    /**
     The two renames. Killed between them, the root is missing and its tree waits beside
     whatever an earlier clean-up could not remove.
     */
    method Publish(run: Run) returns (end: End)
      requires Recoverable() && root == current && run.staging in staging && staging[run.staging] == Whole(run.version)
      modifies this
      ensures Recoverable()
      ensures current == old(current) || current == Some(Whole(run.version))
      ensures end.Installed? ==> current == Some(Whole(run.version)) && previous == old(previous)
      ensures !end.Killed? ==> root == current && (staging == old(staging) || staging == old(staging) - {run.staging})
      ensures staging.Keys <= old(staging).Keys
      ensures old(left) >= 4 ==> !end.Killed? && left >= old(left) - 4
      ensures old(left) >= 4 ==>
                (end.Installed? <==>
                   run.publishes && (old(root).Some? ==> run.previous !in old(previous) && removal(old(removals)).Removed?))
      ensures end.Raised? && current == old(current) ==> previous == old(previous) || !Reliable()
      ensures end.Raised? && Reliable() ==> current == old(current)
      ensures Reliable() && old(previous) == map[] ==> Consistent() && (!end.Killed? ==> previous == map[])
      ensures old(root).Some? && root.None? ==>
                && end.Killed? && current == old(current) && run.previous !in old(previous)
                && previous == old(previous)[run.previous := old(root).value]
      ensures old(left) == 1 && old(root).Some? && run.previous !in old(previous) ==>
                end.Killed? && root.None? && current == old(current) && staging == old(staging) && previous == old(previous)[run.previous := old(root).value]
      ensures old(left) >= 4 && old(root).Some? && run.previous !in old(previous) && run.publishes && removal(old(removals)).Half? ==>
                end.Raised? && current == Some(Whole(run.version)) && root == current && previous == old(previous)[run.previous := Torn]
                && staging == old(staging) - {run.staging}
    {
      var alive;
      var replacing := root.Some?;
      if replacing {
        alive := Tick();
        if !alive { return Killed; }
        if run.previous in previous {
          return Raised;  // a directory of that name is in the way
        }
        root, previous := None, previous[run.previous := root.value];
        assert run.previous in previous && previous[run.previous] == current.value;
      }
      ghost var aside := previous;
      alive := Tick();
      assert replacing ==> run.previous in previous && previous[run.previous] == current.value;
      if !alive { return Killed; }
      if !run.publishes {
        if replacing {
          alive := Tick();
          assert run.previous in previous && previous[run.previous] == current.value;
          if !alive { return Killed; }
          root, previous := Some(previous[run.previous]), previous - {run.previous};
          assert previous == old(previous);
        }
        return Raised;
      }
      root, staging, current := Some(staging[run.staging]), staging - {run.staging}, Some(Whole(run.version));
      if replacing {
        var ok;
        alive, ok := RemovePrevious(run.previous);
        assert previous - {run.previous} == aside - {run.previous} == old(previous) - {run.previous} == old(previous);
        if !alive { return Killed; }
        if !ok { return Raised; }
      }
      return Installed;
    }

    /** The tree is staged: publish it if it verified, and drop what is left of the staging directory. */
    method PublishStaged(run: Run) returns (end: End)
      requires Recoverable() && root == current && run.staging in staging && (run.verifies ==> staging[run.staging] == Whole(run.version))
      modifies this
      ensures Recoverable() && (!end.Killed? ==> root == current)
      ensures current == old(current) || (current == Some(Whole(run.version)) && run.verifies)
      ensures end.Installed? ==> current == Some(Whole(run.version)) && run.verifies
      ensures staging.Keys <= old(staging).Keys
      ensures Reliable() && old(previous) == map[] ==>
                && Consistent() && (end.Raised? ==> current == old(current))
                && (!end.Killed? ==> previous == map[] && staging == old(staging) - {run.staging})
                && (old(left) >= 6 ==> !end.Killed? && (end.Installed? <==> run.verifies && run.publishes))
    {
      if run.verifies {
        end := Publish(run);
        if end.Killed? { return Killed; }
      } else {
        end := Raised;
      }
      if run.staging in staging {
        var alive := RemoveStaging(run.staging);
        if !alive { return Killed; }
      }
    }

    /** `install`: clean up, stage, verify, publish, and drop what was staged. */
    method Install(run: Run, order: seq<Name>) returns (end: End)
      requires Recoverable() && Safe() && Lists(order, previous.Keys)
      modifies this
      ensures Recoverable() && (!end.Killed? ==> root == current)
      ensures current == old(current) || (current == Some(Whole(run.version)) && run.verifies)
      ensures end.Installed? ==> current == Some(Whole(run.version))
      ensures Reliable() && old(Consistent()) ==>
                Consistent() && (end.Raised? ==> current == old(current)) && (!end.Killed? ==> Clean())
      ensures Reliable() && old(Consistent()) && run.operations >= 2 * |old(staging)| + 2 * |order| + 8 ==>
                !end.Killed? && (end.Installed? <==> run.verifies && run.publishes)
      ensures staging.Keys <= old(staging).Keys + {run.staging}
    {
      hide Recoverable, Safe, Reliable, SafeFor, Restored, Lists;
      left := run.operations;
      var alive := CleanStale(order);
      if !alive { return Killed; }
      ghost var cleaned := staging;
      alive := Stage(run);
      assert staging.Keys <= cleaned.Keys + {run.staging};
      if !alive { return Killed; }
      end := PublishStaged(run);
    }

    /**
     With removals that succeed: run after run, each killed wherever it is; then one clean-up.
     A run given enough operations is not killed, and installs exactly if its tree is
     verified and can be published.
     */
    method InstallRepeatedly(runs: seq<Run>, operations: nat) returns (ends: seq<End>, alive: bool)
      requires Consistent() && Reliable()
      modifies this
      ensures Consistent() && |ends| == |runs|
      ensures current == old(current) || exists k :: 0 <= k < |runs| && runs[k].verifies && !ends[k].Raised? && current == Some(Whole(runs[k].version))
      ensures (exists k :: 0 <= k < |runs| && ends[k].Installed?) ==> current.Some?
      ensures old(current).Some? ==> current.Some?
      ensures forall j :: 0 <= j < |runs| && runs[j].operations >= 2 * (|old(staging)| + j) + 10 ==>
                !ends[j].Killed? && (ends[j].Installed? <==> runs[j].verifies && runs[j].publishes)
      ensures alive ==> Clean()
      ensures operations >= 2 * (|old(staging)| + |runs|) + 2 ==> alive
    {
      ends := [];
      var k := 0;
      while k < |runs|
        invariant 0 <= k <= |runs| && |ends| == k && Consistent()
        invariant current == old(current) || exists j :: 0 <= j < k && runs[j].verifies && !ends[j].Raised? && current == Some(Whole(runs[j].version))
        invariant (exists j :: 0 <= j < k && ends[j].Installed?) ==> current.Some?
        invariant old(current).Some? ==> current.Some?
        invariant |staging| <= |old(staging)| + k
        invariant forall j :: 0 <= j < k && runs[j].operations >= 2 * (|old(staging)| + j) + 10 ==>
                    !ends[j].Killed? && (ends[j].Installed? <==> runs[j].verifies && runs[j].publishes)
      {
        ghost var before, was, staged := current, ends, staging;
        var found := Found();
        AtMostOne(previous, found);
        var end := Install(runs[k], found);
        OneMoreStaged(staged, staging, runs[k].staging);
        ends := ends + [end];
        if current != before {
          assert runs[k].verifies && !ends[k].Raised?;
        } else {
          assert forall j :: 0 <= j < k ==> ends[j] == was[j];
        }
        k := k + 1;
      }
      left := operations;
      var found := Found();
      AtMostOne(previous, found);
      alive := CleanStale(found);
    }

    lemma AtMostOne(previous: map<Name, Tree>, order: seq<Name>)
      requires Lists(order, previous.Keys) && forall m, n :: m in previous && n in previous ==> m == n
      ensures |order| <= 1
    {
      if |order| > 1 {
        SameName(previous, order, 0, 1);
        assert false;
      }
    }

    lemma SameName(previous: map<Name, Tree>, order: seq<Name>, i: nat, j: nat)
      requires Lists(order, previous.Keys) && (forall m, n :: m in previous && n in previous ==> m == n)
      requires i < |order| && j < |order|
      ensures order[i] == order[j]
    {
      assert order[i] in order && order[j] in order;
      assert order[i] in previous && order[j] in previous;
    }

    lemma OneMoreStaged(before: map<Name, Tree>, after: map<Name, Tree>, n: Name)
      requires after.Keys <= before.Keys + {n}
      ensures |after| <= |before| + 1
    {
      SubsetSize(after.Keys, before.Keys + {n});
      assert |after.Keys| == |after| && |before.Keys| == |before|;
    }

    lemma {:induction false} SubsetSize(a: set<Name>, b: set<Name>)
      requires a <= b
      ensures |a| <= |b|
      decreases |a|
    {
      if a != {} {
        var x :| x in a;
        SubsetSize(a - {x}, b - {x});
      }
    }

    /** The previous directories, in some order. */
    method Found() returns (order: seq<Name>)
      ensures Lists(order, previous.Keys)
    {
      order := [];
      var names := previous.Keys;
      while names != {}
        invariant names <= previous.Keys && Lists(order, previous.Keys - names)
        decreases names
      {
        var n :| n in names;
        order := order + [n];
        names := names - {n};
      }
    }
  }

  // ----- why removals have to succeed -----------------------------------------------------------

  /** A first run under removals that fail half way: the new tree is in place, beside the remains of the old one. */
  method LeavesRemains() returns (disk: Disk)
    ensures fresh(disk) && (forall k: nat :: disk.removal(k).Half?) && disk.staging == map[]
    ensures disk.root == disk.current == Some(Whole(1)) && disk.previous == map[1 := Torn]
  {
    disk := new Disk(Some(Whole(0)), (k: nat) => Half);
    disk.left := 6;
    var first := Run(1, 0, 1, true, true, 6);
    var alive := disk.Stage(first);
    var staged := disk.staging;
    assert staged == map[0 := Whole(1)];
    var end := disk.Publish(first);
    assert disk.staging == map[0 := Whole(1)] - {0} == map[];
    assert disk.previous == map[1 := Torn];
  }

  /** A second run cannot clear the remains away. */
  method CleansInVain(disk: Disk)
    requires (forall k: nat :: disk.removal(k).Half?) && disk.staging == map[]
    requires disk.root == disk.current == Some(Whole(1)) && disk.previous == map[1 := Torn]
    modifies disk
    ensures disk.root == disk.current == Some(Whole(1)) && disk.previous == map[1 := Torn] && disk.staging == map[]
  {
    disk.left := 2;
    ListsOne(disk.previous);
    var alive := disk.CleanStale([1]);
    assert disk.previous.Keys == {1};
    assert disk.previous == map[1 := Torn];
    assert disk.staging.Keys == {};
  }

  /** And is killed between its renames. */
  method KilledBetweenRenames(disk: Disk)
    requires (forall k: nat :: disk.removal(k).Half?) && disk.staging == map[]
    requires disk.root == disk.current == Some(Whole(1)) && disk.previous == map[1 := Torn]
    modifies disk
    ensures disk.root.None? && disk.current == Some(Whole(1)) && disk.previous == map[1 := Torn, 2 := Whole(1)]
    ensures disk.staging.Keys <= {0}
  {
    var second := Run(2, 0, 2, true, true, 5);
    disk.left := 3;
    var alive := disk.Stage(second);
    assert disk.staging == map[0 := Whole(2)];
    var end := disk.Publish(second);
    assert map[1 := Torn][2 := Whole(1)] == map[1 := Torn, 2 := Whole(1)];
  }

  lemma ListsOne(previous: map<Name, Tree>)
    requires previous == map[1 := Torn]
    ensures Lists([1], previous.Keys)
  {
  }

  lemma ListsTwo(previous: map<Name, Tree>)
    requires previous == map[1 := Torn, 2 := Whole(1)]
    ensures Lists([1, 2], previous.Keys)
  {
  }

  /**
   With removals that fail half way, a torn tree becomes the root: the second run is killed
   between its renames, beside the remains of the tree the first one replaced, and the
   clean-up finds those first.
   */
  method TornComesBack() returns (disk: Disk)
    ensures disk.root == Some(Torn) && disk.current == Some(Whole(1))
  {
    disk := LeavesRemains();
    CleansInVain(disk);
    KilledBetweenRenames(disk);
    ListsTwo(disk.previous);
    disk.left := 2 * |disk.staging| + 4;
    var alive := disk.CleanStale([1, 2]);
  }
}
