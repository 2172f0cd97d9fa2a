/** How the decision log changes: a revision is superseded by the next, or a decision is added. */
module IntakeLog {
  import opened Wrappers
  import opened IntakeModel

  lemma {:induction false} HistoryConcat(a: seq<Entry>, b: seq<Entry>, id: Id)
    ensures History(a + b, id) == History(a, id) + History(b, id)
    decreases |b|
  {
    if b == [] {
      assert a + b == a;
    } else {
      assert (a + b)[..|a + b| - 1] == a + b[..|b| - 1];
      HistoryConcat(a, b[..|b| - 1], id);
    }
  }

  lemma HistoryOne(e: Entry, id: Id)
    ensures History([e], id) == if e.id == id then [e] else []
  {
    assert [e][..0] == [];
  }

  /** Where the newest revision stands: the source takes the largest index with this id. */
  function LatestIndex(log: seq<Entry>, id: Id): (i: nat)
    requires Latest(log, id).Some?
    ensures i < |log| && log[i] == Latest(log, id).value
    ensures forall j :: i < j < |log| ==> log[j].id != id
  {
    if log[|log| - 1].id == id then |log| - 1
    else
      assert log == log[..|log| - 1] + [log[|log| - 1]];
      LatestIndex(log[..|log| - 1], id)
  }

  lemma {:induction false} NoneAfter(log: seq<Entry>, id: Id)
    requires forall j :: 0 <= j < |log| ==> log[j].id != id
    ensures History(log, id) == []
  {
    if log != [] {
      NoneAfter(log[..|log| - 1], id);
    }
  }

  /** The newest revision replaced by `old` and followed by `next`. */
  function Succeeded(log: seq<Entry>, id: Id, retired: Entry, next: Entry): seq<Entry>
    requires Latest(log, id).Some?
  {
    log[LatestIndex(log, id) := retired] + [next]
  }

  lemma HistoryReplaced(log: seq<Entry>, id: Id, e: Entry, other: Id)
    requires Latest(log, id).Some? && e.id == id
    ensures var log' := log[LatestIndex(log, id) := e];
            && History(log', id) == History(log, id)[..|History(log, id)| - 1] + [e]
            && (other != id ==> History(log', other) == History(log, other))
  {
    hide History;
    var i := LatestIndex(log, id);
    var a, b := log[..i], log[i + 1..];
    assert log == a + [log[i]] + b && log[i := e] == a + [e] + b;
    HistorySplit(a, log[i], b, id);
    HistorySplit(a, e, b, id);
    HistorySplit(a, log[i], b, other);
    HistorySplit(a, e, b, other);
    NoneAfter(b, id);
    assert History(log, id) == History(a, id) + [log[i]];
  }

  lemma HistorySplit(a: seq<Entry>, e: Entry, b: seq<Entry>, x: Id)
    ensures History(a + [e] + b, x) == History(a, x) + (if e.id == x then [e] else []) + History(b, x)
  {
    HistoryConcat(a, [e], x);
    HistoryConcat(a + [e], b, x);
    HistoryOne(e, x);
  }

  lemma HistorySucceeded(log: seq<Entry>, id: Id, retired: Entry, next: Entry, other: Id)
    requires Latest(log, id).Some? && retired.id == id && next.id == id
    ensures var log' := Succeeded(log, id, retired, next);
            && History(log', id) == History(log, id)[..|History(log, id)| - 1] + [retired, next]
            && Latest(log', id) == Some(next)
            && (other != id ==> History(log', other) == History(log, other))
  {
    hide History;
    HistoryReplaced(log, id, retired, other);
    var mid := log[LatestIndex(log, id) := retired];
    HistoryConcat(mid, [next], id);
    HistoryConcat(mid, [next], other);
    HistoryOne(next, id);
    HistoryOne(next, other);
    var h := History(log, id)[..|History(log, id)| - 1];
    assert h + [retired] + [next] == h + [retired, next];
  }

  /** A superseding revision: one higher, same key, older one retired with its answer kept. */
  predicate Supersedes(current: Entry, next: Entry) {
    next.id == current.id && next.key == current.key && next.revision == current.revision + 1
  }

  lemma SucceededOk(log: seq<Entry>, id: Id, next: Entry)
    requires LogOk(log) && Latest(log, id).Some?
    requires Supersedes(Latest(log, id).value, next) && EntryOk(next)
    requires EntryOk(Latest(log, id).value.(status := Superseded))
    ensures LogOk(Succeeded(log, id, Latest(log, id).value.(status := Superseded), next))
  {
    hide KeysDistinct, EntryOk, Supersedes, History, HistoryOk, Succeeded;
    var current := Latest(log, id).value;
    var retired := current.(status := Superseded);
    var log' := Succeeded(log, id, retired, next);
    SupersedesKey(current, next);
    forall x
      ensures HistoryOk(History(log', x))
      ensures x != id ==> History(log', x) == History(log, x)
    {
      HistorySucceeded(log, id, retired, next, x);
      assert HistoryOk(History(log, id)) && HistoryOk(History(log, x));
      HistoryGrows(History(log, id), retired, next);
    }
    HistorySucceeded(log, id, retired, next, id);
    SameKeys(log, log', id);
    SucceededEntries(log, id, retired, next);
  }

  lemma SupersedesKey(current: Entry, next: Entry)
    requires Supersedes(current, next)
    ensures next.id == current.id && next.key == current.key
  {
  }

  lemma SucceededEntries(log: seq<Entry>, id: Id, retired: Entry, next: Entry)
    requires Latest(log, id).Some?
    ensures var log' := Succeeded(log, id, retired, next);
            |log'| == |log| + 1 && forall k :: 0 <= k < |log'| ==> log'[k] == next || log'[k] == retired || (k < |log| && log'[k] == log[k])
  {
  }

  lemma HistoryGrows(h: seq<Entry>, retired: Entry, next: Entry)
    requires HistoryOk(h) && h != [] && retired == h[|h| - 1].(status := Superseded) && Supersedes(h[|h| - 1], next)
    ensures HistoryOk(h[..|h| - 1] + [retired, next])
  {
  }

  lemma SameKeys(log: seq<Entry>, log': seq<Entry>, id: Id)
    requires KeysDistinct(log) && Latest(log, id).Some? && Latest(log', id).Some?
    requires Latest(log', id).value.key == Latest(log, id).value.key
    requires forall x :: x != id ==> History(log', x) == History(log, x)
    ensures KeysDistinct(log')
  {
    hide History;
    forall a, b | Latest(log', a).Some? && Latest(log', b).Some? && Latest(log', a).value.key == Latest(log', b).value.key
      ensures a == b
    {
      assert Latest(log, a).Some? && Latest(log, a).value.key == Latest(log', a).value.key;
      assert Latest(log, b).Some? && Latest(log, b).value.key == Latest(log', b).value.key;
    }
  }

  lemma HistoryAppended(log: seq<Entry>, e: Entry, other: Id)
    ensures History(log + [e], e.id) == History(log, e.id) + [e]
    ensures other != e.id ==> History(log + [e], other) == History(log, other)
  {
    HistoryConcat(log, [e], e.id);
    HistoryConcat(log, [e], other);
    HistoryOne(e, e.id);
    HistoryOne(e, other);
  }

  /** A decision nobody has seen, under a key nobody uses. */
  lemma AppendedOk(log: seq<Entry>, e: Entry)
    requires LogOk(log) && EntryOk(e) && Latest(log, e.id).None? && e.revision == 1
    requires forall x :: Latest(log, x).Some? ==> Latest(log, x).value.key != e.key
    ensures LogOk(log + [e])
  {
    hide EntryOk, History, KeysDistinct;
    forall x
      ensures HistoryOk(History(log + [e], x))
      ensures x != e.id ==> Latest(log + [e], x) == Latest(log, x)
    {
      HistoryAppended(log, e, x);
      assert HistoryOk(History(log, x));
    }
    HistoryAppended(log, e, e.id);
    NewKey(log, log + [e], e);
  }

  lemma NewKey(log: seq<Entry>, log': seq<Entry>, e: Entry)
    requires KeysDistinct(log) && Latest(log, e.id).None? && Latest(log', e.id) == Some(e)
    requires forall x :: Latest(log, x).Some? ==> Latest(log, x).value.key != e.key
    requires forall x :: x != e.id ==> Latest(log', x) == Latest(log, x)
    ensures KeysDistinct(log')
  {
    hide Latest;
  }

  /** An open decision asked in other words keeps its place in the log. */
  lemma RewordedOk(log: seq<Entry>, id: Id, q: Question)
    requires LogOk(log) && IsOpen(log, id) && q.id == id && q.key == Latest(log, id).value.key
    ensures LogOk(log[LatestIndex(log, id) := Latest(log, id).value.(question := q)])
  {
    assert EntryOk(Latest(log, id).value);
    LastReplacedOk(log, id, Latest(log, id).value.(question := q));
  }

  lemma LastReplacedOk(log: seq<Entry>, id: Id, e: Entry)
    requires LogOk(log) && Latest(log, id).Some? && EntryOk(e) && e.id == id
    requires e.revision == Latest(log, id).value.revision && e.key == Latest(log, id).value.key
    ensures LogOk(log[LatestIndex(log, id) := e])
  {
    hide EntryOk, KeysDistinct, History;
    var log' := log[LatestIndex(log, id) := e];
    forall x
      ensures HistoryOk(History(log', x))
      ensures x != id ==> History(log', x) == History(log, x)
    {
      HistoryReplaced(log, id, e, x);
      assert HistoryOk(History(log, id)) && HistoryOk(History(log, x));
    }
    HistoryReplaced(log, id, e, id);
    SameKeys(log, log', id);
  }
}
