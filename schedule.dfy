/** The per-stream scheduler of gsg.py stated on values: pending items,
    the flush at one tick (ProcessStreamSchedules for one stream), the
    items one occurrence adds (SchedulePatternInstance), and the facts
    that make emission causally ordered.

    A stream's history is the list of vertex ids written to it, in order;
    its records are every vertex and edge written to it, in order. */
module Schedule {
  import opened GsgClasses

  /** A pending emission on one stream. A vertex item carries the vertex's
      emission time on that stream (its streamCreationTimes entry). */
  datatype Item = VertexItem(id: nat, attributes: Attributes, time: nat) | EdgeItem(edge: EdgeInstance)
  {
    /** The tick at which this item is due on its stream. */
    function Time(): nat {
      match this
      case VertexItem(_, _, t) => t
      case EdgeItem(e) => e.creationTime
    }
  }

  // ----- Flush at one tick -----

  /** The items flushed at tick t, in schedule order. */
  function Due(items: seq<Item>, t: nat): seq<Item>
    decreases |items|
  {
    if items == [] then []
    else
      var last := items[|items| - 1];
      Due(items[..|items| - 1], t) + if last.Time() == t then [last] else []
  }

  /** The items left pending after the flush at tick t, in schedule order. */
  function Kept(items: seq<Item>, t: nat): seq<Item>
    decreases |items|
  {
    if items == [] then []
    else
      var last := items[|items| - 1];
      Kept(items[..|items| - 1], t) + if last.Time() != t then [last] else []
  }

  /** The ids of the vertex items, in order. */
  function VertexIds(items: seq<Item>): seq<nat>
    decreases |items|
  {
    if items == [] then []
    else
      var last := items[|items| - 1];
      VertexIds(items[..|items| - 1]) + if last.VertexItem? then [last.id] else []
  }

  /** Python's list.remove: drop the first element equal to x. */
  function RemoveFirst(xs: seq<Item>, x: Item): seq<Item>
    decreases |xs|
  {
    if xs == [] then []
    else if xs[0] == x then xs[1..]
    else [xs[0]] + RemoveFirst(xs[1..], x)
  }

  // ----- Invariants of one stream -----

  /** x is written by a vertex record before position k. */
  predicate WrittenBefore(records: seq<Item>, k: int, x: nat) {
    exists i | 0 <= i < k && 0 <= i < |records| :: records[i].VertexItem? && records[i].id == x
  }

  /** Every edge written to the stream was written after vertex records for both its endpoints. */
  ghost predicate WrittenCausal(records: seq<Item>) {
    forall k | 0 <= k < |records| && records[k].EdgeItem? ::
      WrittenBefore(records, k, records[k].edge.source) && WrittenBefore(records, k, records[k].edge.target)
  }

  /** x is already in the history, or a vertex item for x due no later than t
      stands before position j of the pending list. */
  predicate Supported(history: seq<nat>, pending: seq<Item>, j: int, x: nat, t: nat) {
    || x in history
    || exists i | 0 <= i < j && 0 <= i < |pending| ::
         pending[i].VertexItem? && pending[i].id == x && pending[i].time <= t
  }

  /** Every pending edge has both endpoints supported. */
  ghost predicate PendingCausal(history: seq<nat>, pending: seq<Item>) {
    forall j | 0 <= j < |pending| && pending[j].EdgeItem? ::
      && Supported(history, pending, j, pending[j].edge.source, pending[j].edge.creationTime)
      && Supported(history, pending, j, pending[j].edge.target, pending[j].edge.creationTime)
  }

  /** No item is due before tick t. */
  ghost predicate NotBefore(items: seq<Item>, t: nat) {
    forall i | 0 <= i < |items| :: items[i].Time() >= t
  }

  ghost predicate AtMostOnce(m: multiset<nat>) {
    forall x :: m[x] <= 1
  }

  /** Every id is an assigned vertex id: 1-based and at most n. */
  ghost predicate IdsUpTo(m: multiset<nat>, n: nat) {
    forall x | x in m :: 1 <= x <= n
  }

  /** The vertex ids written to, or pending on, one stream. */
  function StreamIds(records: seq<Item>, pending: seq<Item>): multiset<nat> {
    multiset(VertexIds(records)) + multiset(VertexIds(pending))
  }

  /** What the scheduler keeps true of each stream between operations; n is the
      vertex counter and now the current tick. */
  ghost predicate StreamInvariant(history: seq<nat>, pending: seq<Item>, records: seq<Item>,
                                  writtenTo: bool, n: nat, now: nat) {
    && history == VertexIds(records)
    && WrittenCausal(records)
    && PendingCausal(history, pending)
    && NotBefore(pending, now)
    && (writtenTo <==> |history| > 0)
    && AtMostOnce(StreamIds(records, pending))
    && IdsUpTo(StreamIds(records, pending), n)
  }

  // ----- Basic facts -----

  lemma {:induction false} VertexIdsAppend(a: seq<Item>, b: seq<Item>)
    ensures VertexIds(a + b) == VertexIds(a) + VertexIds(b)
    decreases |b|
  {
    if b == [] {
      assert a + b == a;
    } else {
      var b' := b[..|b| - 1];
      var last := b[|b| - 1];
      assert (a + b)[..|a + b| - 1] == a + b';
      assert (a + b)[|a + b| - 1] == last;
      VertexIdsAppend(a, b');
      assert VertexIds(a + b) == VertexIds(a + b') + if last.VertexItem? then [last.id] else [];
      assert VertexIds(b) == VertexIds(b') + if last.VertexItem? then [last.id] else [];
    }
  }

  lemma {:induction false} VertexIdsMember(items: seq<Item>, x: nat)
    ensures x in VertexIds(items) <==> WrittenBefore(items, |items|, x)
    decreases |items|
  {
    if items != [] {
      var init := items[..|items| - 1];
      var last := items[|items| - 1];
      VertexIdsMember(init, x);
      assert VertexIds(items) == VertexIds(init) + if last.VertexItem? then [last.id] else [];
      if WrittenBefore(items, |items|, x) {
        var i :| 0 <= i < |items| && items[i].VertexItem? && items[i].id == x;
        if i < |init| {
          assert init[i] == items[i];
          assert WrittenBefore(init, |init|, x);
        }
      }
      if WrittenBefore(init, |init|, x) {
        var i :| 0 <= i < |init| && init[i].VertexItem? && init[i].id == x;
        assert items[i] == init[i];
      }
    }
  }

  /** Whether x is written before position k depends only on the first k records. */
  lemma WrittenBeforePrefix(records: seq<Item>, more: seq<Item>, k: int, x: nat)
    requires 0 <= k <= |records|
    ensures WrittenBefore(records, k, x) <==> WrittenBefore(records + more, k, x)
  {
    var r := records + more;
    if WrittenBefore(r, k, x) {
      var i :| 0 <= i < k && 0 <= i < |r| && r[i].VertexItem? && r[i].id == x;
      assert records[i] == r[i];
    }
    if WrittenBefore(records, k, x) {
      var i :| 0 <= i < k && 0 <= i < |records| && records[i].VertexItem? && records[i].id == x;
      assert records[i] == r[i];
    }
  }

  /** Whether x is supported at position j depends only on the first j pending items. */
  lemma SupportedPrefix(history: seq<nat>, pending: seq<Item>, more: seq<Item>, j: int, x: nat, t: nat)
    requires 0 <= j <= |pending|
    ensures Supported(history, pending, j, x, t) <==> Supported(history, pending + more, j, x, t)
  {
    var r := pending + more;
    if x !in history {
      if Supported(history, r, j, x, t) {
        var i :| 0 <= i < j && 0 <= i < |r| && r[i].VertexItem? && r[i].id == x && r[i].time <= t;
        assert pending[i] == r[i];
      }
      if Supported(history, pending, j, x, t) {
        var i :| 0 <= i < j && 0 <= i < |pending| && pending[i].VertexItem? && pending[i].id == x && pending[i].time <= t;
        assert pending[i] == r[i];
      }
    }
  }

  /** Python's remove finds the item where the flush loop stands. */
  lemma {:induction false} RemoveFirstAt(a: seq<Item>, x: Item, b: seq<Item>)
    requires x !in a
    ensures RemoveFirst(a + [x] + b, x) == a + b
    decreases |a|
  {
    if a != [] {
      assert (a + [x] + b)[1..] == a[1..] + [x] + b;
      RemoveFirstAt(a[1..], x, b);
    }
  }

  lemma {:induction false} KeptTimes(items: seq<Item>, t: nat)
    ensures forall y | y in Kept(items, t) :: y.Time() != t
    ensures forall y | y in Due(items, t) :: y.Time() == t
    decreases |items|
  {
    if items != [] {
      KeptTimes(items[..|items| - 1], t);
    }
  }

  /** Flushing splits the pending vertex ids between history and the remaining list. */
  lemma {:induction false} DueKeptIds(items: seq<Item>, t: nat)
    ensures multiset(VertexIds(Due(items, t))) + multiset(VertexIds(Kept(items, t))) == multiset(VertexIds(items))
    decreases |items|
  {
    if items != [] {
      var init := items[..|items| - 1];
      var last := items[|items| - 1];
      assert items == init + [last];
      DueKeptIds(init, t);
      VertexIdsAppend(init, [last]);
      assert multiset(VertexIds(items)) == multiset(VertexIds(init)) + multiset(VertexIds([last]));
      if last.Time() == t {
        assert Due(items, t) == Due(init, t) + [last];
        assert Kept(items, t) == Kept(init, t);
        VertexIdsAppend(Due(init, t), [last]);
        assert multiset(VertexIds(Due(items, t))) == multiset(VertexIds(Due(init, t))) + multiset(VertexIds([last]));
      } else {
        assert Kept(items, t) == Kept(init, t) + [last];
        assert Due(items, t) == Due(init, t);
        VertexIdsAppend(Kept(init, t), [last]);
        assert multiset(VertexIds(Kept(items, t))) == multiset(VertexIds(Kept(init, t))) + multiset(VertexIds([last]));
      }
    }
  }

  /** An item due at t standing before position j is flushed before position j is reached. */
  lemma {:induction false} DueBefore(items: seq<Item>, t: nat, i: nat, j: nat)
    requires i < j <= |items| && items[i].Time() == t
    ensures items[i] in Due(items[..j], t)
    decreases j
  {
    var p := items[..j];
    assert p[..j - 1] == items[..j - 1];
    if i < j - 1 {
      DueBefore(items, t, i, j - 1);
    }
  }

  lemma {:induction false} KeptBefore(items: seq<Item>, t: nat, i: nat, j: nat)
    requires i < j <= |items| && items[i].Time() != t
    ensures items[i] in Kept(items[..j], t)
    decreases j
  {
    var p := items[..j];
    assert p[..j - 1] == items[..j - 1];
    if i < j - 1 {
      KeptBefore(items, t, i, j - 1);
    }
  }

  lemma DueKeptSnoc(items: seq<Item>, j: nat, t: nat)
    requires j < |items|
    ensures Due(items[..j + 1], t) == Due(items[..j], t) + if items[j].Time() == t then [items[j]] else []
    ensures Kept(items[..j + 1], t) == Kept(items[..j], t) + if items[j].Time() != t then [items[j]] else []
  {
    assert items[..j + 1][..j] == items[..j];
  }

  /** Before the flush loop nothing of the copy has been visited. */
  lemma FlushLoopStart(items: seq<Item>, history: seq<nat>, records: seq<Item>, t: nat)
    ensures Kept(items[..0], t) + items[0..] == items
    ensures history + VertexIds(Due(items[..0], t)) == history
    ensures records + Due(items[..0], t) == records
  {
    assert items[..0] == [] && items[0..] == items;
  }

  /** After the flush loop the whole copy has been visited. */
  lemma FlushLoopEnd(items: seq<Item>, t: nat)
    ensures Kept(items[..|items|], t) + items[|items|..] == Kept(items, t)
    ensures Due(items[..|items|], t) == Due(items, t)
  {
    assert items[..|items|] == items;
    assert Kept(items, t) + [] == Kept(items, t);
  }

  /** Reaching the j-th item of a schedule copy that is due at t: it is the next
      item left in the schedule, it is not among the kept ones, and it joins the due ones. */
  lemma DueStep(items: seq<Item>, j: nat, t: nat)
    requires j < |items| && items[j].Time() == t
    ensures Kept(items[..j], t) + items[j..] == Kept(items[..j], t) + [items[j]] + items[j + 1..]
    ensures items[j] !in Kept(items[..j], t)
    ensures Kept(items[..j + 1], t) == Kept(items[..j], t)
    ensures Due(items[..j + 1], t) == Due(items[..j], t) + [items[j]]
    ensures VertexIds(Due(items[..j + 1], t))
         == VertexIds(Due(items[..j], t)) + if items[j].VertexItem? then [items[j].id] else []
  {
    DueKeptSnoc(items, j, t);
    assert items[j..] == [items[j]] + items[j + 1..];
    KeptTimes(items[..j], t);
    VertexIdsSnoc(Due(items[..j], t), items[j]);
  }

  /** Reaching the j-th item of a schedule copy that is not due at t: it stays. */
  lemma NotDueStep(items: seq<Item>, j: nat, t: nat)
    requires j < |items| && items[j].Time() != t
    ensures Kept(items[..j + 1], t) + items[j + 1..] == Kept(items[..j], t) + items[j..]
    ensures Due(items[..j + 1], t) == Due(items[..j], t)
  {
    DueKeptSnoc(items, j, t);
    assert items[j..] == [items[j]] + items[j + 1..];
    assert Due(items[..j], t) + [] == Due(items[..j], t);
  }

  // ----- The flush -----

  /** When the flush at tick t reaches a due edge at position j, both its endpoints
      are in the history extended by the vertices flushed before it. */
  lemma EndpointsFlushedFirst(history: seq<nat>, pending: seq<Item>, t: nat, j: nat)
    requires PendingCausal(history, pending) && NotBefore(pending, t)
    requires j < |pending| && pending[j].EdgeItem? && pending[j].Time() == t
    ensures pending[j].edge.source in history + VertexIds(Due(pending[..j], t))
    ensures pending[j].edge.target in history + VertexIds(Due(pending[..j], t))
  {
    var e := pending[j].edge;
    forall x | x == e.source || x == e.target
      ensures x in history + VertexIds(Due(pending[..j], t))
    {
      if x !in history {
        var i :| 0 <= i < j && pending[i].VertexItem? && pending[i].id == x && pending[i].time <= t;
        DueBefore(pending, t, i, j);
        var d := Due(pending[..j], t);
        var k :| 0 <= k < |d| && d[k] == pending[i];
        VertexIdsMember(d, x);
      }
    }
  }

  /** Appending a record keeps the written list causal when an edge record's
      endpoints are already in the history. */
  lemma WrittenCausalSnoc(records: seq<Item>, item: Item)
    requires WrittenCausal(records)
    requires item.EdgeItem? ==> item.edge.source in VertexIds(records) && item.edge.target in VertexIds(records)
    ensures WrittenCausal(records + [item])
  {
    var r := records + [item];
    if item.EdgeItem? {
      VertexIdsMember(records, item.edge.source);
      VertexIdsMember(records, item.edge.target);
      WrittenBeforePrefix(records, [item], |records|, item.edge.source);
      WrittenBeforePrefix(records, [item], |records|, item.edge.target);
    }
    forall k | 0 <= k < |r| && r[k].EdgeItem?
      ensures WrittenBefore(r, k, r[k].edge.source) && WrittenBefore(r, k, r[k].edge.target)
    {
      if k < |records| {
        assert r[k] == records[k];
        WrittenBeforePrefix(records, [item], k, records[k].edge.source);
        WrittenBeforePrefix(records, [item], k, records[k].edge.target);
      }
    }
  }

  /** A stream with no vertex written to it has nothing written to it at all. */
  lemma NoVertexNoRecord(records: seq<Item>)
    requires WrittenCausal(records) && VertexIds(records) == []
    ensures records == []
  {
    if records != [] {
      if records[0].VertexItem? {
        VertexIdsMember(records, records[0].id);
        assert false;
      } else {
        assert false;
      }
    }
  }

  /** The causal guarantee of one flush: every edge flushed at tick t on a stream
      finds both endpoints already written to that stream. */
  lemma {:induction false} FlushWritesCausally(records: seq<Item>, pending: seq<Item>, t: nat)
    requires WrittenCausal(records)
    requires PendingCausal(VertexIds(records), pending) && NotBefore(pending, t)
    ensures WrittenCausal(records + Due(pending, t))
    decreases |pending|
  {
    if pending == [] {
      assert records + Due(pending, t) == records;
    } else {
      var n := |pending| - 1;
      var init := pending[..n];
      PendingCausalPrefix(VertexIds(records), pending, n);
      FlushWritesCausally(records, init, t);
      DueKeptSnoc(pending, n, t);
      assert pending[..n + 1] == pending;
      if pending[n].Time() == t {
        if pending[n].EdgeItem? {
          EndpointsFlushedFirst(VertexIds(records), pending, t, n);
        }
        VertexIdsAppend(records, Due(init, t));
        WrittenCausalSnoc(records + Due(init, t), pending[n]);
        assert records + Due(pending, t) == records + Due(init, t) + [pending[n]];
      } else {
        assert Due(pending, t) == Due(init, t);
      }
    }
  }

  lemma PendingCausalPrefix(history: seq<nat>, pending: seq<Item>, n: nat)
    requires PendingCausal(history, pending) && n <= |pending|
    ensures PendingCausal(history, pending[..n])
  {
    var p := pending[..n];
    assert pending == p + pending[n..];
    forall j | 0 <= j < |p| && p[j].EdgeItem?
      ensures Supported(history, p, j, p[j].edge.source, p[j].edge.creationTime)
      ensures Supported(history, p, j, p[j].edge.target, p[j].edge.creationTime)
    {
      assert p[j] == pending[j];
      SupportedPrefix(history, p, pending[n..], j, p[j].edge.source, p[j].edge.creationTime);
      SupportedPrefix(history, p, pending[n..], j, p[j].edge.target, p[j].edge.creationTime);
    }
  }

  /** Appending an item whose endpoints are supported keeps a pending list causal. */
  lemma PendingCausalSnoc(history: seq<nat>, pending: seq<Item>, y: Item)
    requires PendingCausal(history, pending)
    requires y.EdgeItem? ==>
      && Supported(history, pending, |pending|, y.edge.source, y.edge.creationTime)
      && Supported(history, pending, |pending|, y.edge.target, y.edge.creationTime)
    ensures PendingCausal(history, pending + [y])
  {
    var r := pending + [y];
    forall j | 0 <= j < |r| && r[j].EdgeItem?
      ensures Supported(history, r, j, r[j].edge.source, r[j].edge.creationTime)
      ensures Supported(history, r, j, r[j].edge.target, r[j].edge.creationTime)
    {
      if j < |pending| {
        assert r[j] == pending[j];
      }
      SupportedPrefix(history, pending, [y], j, r[j].edge.source, r[j].edge.creationTime);
      SupportedPrefix(history, pending, [y], j, r[j].edge.target, r[j].edge.creationTime);
    }
  }

  /** A kept edge's endpoint stays supported after the flush at t. */
  lemma KeptEndpointSupported(history: seq<nat>, pending: seq<Item>, t: nat, x: nat, ct: nat)
    requires NotBefore(pending, t)
    requires Supported(history, pending, |pending|, x, ct)
    ensures Supported(history + VertexIds(Due(pending, t)), Kept(pending, t), |Kept(pending, t)|, x, ct)
  {
    var n := |pending|;
    var h2 := history + VertexIds(Due(pending, t));
    if x !in history {
      var i :| 0 <= i < n && pending[i].VertexItem? && pending[i].id == x && pending[i].time <= ct;
      assert pending[..n] == pending;
      if pending[i].Time() == t {
        DueBefore(pending, t, i, n);
        var d := Due(pending, t);
        var m :| 0 <= m < |d| && d[m] == pending[i];
        VertexIdsMember(d, x);
        assert x in h2;
      } else {
        KeptBefore(pending, t, i, n);
        var k := Kept(pending, t);
        var m :| 0 <= m < |k| && k[m] == pending[i];
      }
    }
  }

  /** What is left pending after the flush at t stays supported by the grown history. */
  lemma {:induction false} FlushKeepsPendingCausal(history: seq<nat>, pending: seq<Item>, t: nat)
    requires PendingCausal(history, pending) && NotBefore(pending, t)
    ensures PendingCausal(history + VertexIds(Due(pending, t)), Kept(pending, t))
    decreases |pending|
  {
    if pending != [] {
      var n := |pending| - 1;
      var init := pending[..n];
      var last := pending[n];
      PendingCausalPrefix(history, pending, n);
      FlushKeepsPendingCausal(history, init, t);
      DueKeptSnoc(pending, n, t);
      assert pending[..n + 1] == pending;
      var h1 := history + VertexIds(Due(init, t));
      var h2 := history + VertexIds(Due(pending, t));
      VertexIdsAppend(Due(init, t), if last.Time() == t then [last] else []);
      assert forall x | x in h1 :: x in h2;
      PendingCausalWider(h1, h2, Kept(init, t));
      if last.Time() != t {
        if last.EdgeItem? {
          assert Supported(history, pending, n, last.edge.source, last.edge.creationTime);
          assert Supported(history, pending, n, last.edge.target, last.edge.creationTime);
          SupportedPrefix(history, init, [last], n, last.edge.source, last.edge.creationTime);
          SupportedPrefix(history, init, [last], n, last.edge.target, last.edge.creationTime);
          KeptEndpointSupported(history, init, t, last.edge.source, last.edge.creationTime);
          KeptEndpointSupported(history, init, t, last.edge.target, last.edge.creationTime);
          WiderSupported(h1, h2, Kept(init, t), last.edge.source, last.edge.creationTime);
          WiderSupported(h1, h2, Kept(init, t), last.edge.target, last.edge.creationTime);
        }
        PendingCausalSnoc(h2, Kept(init, t), last);
        assert Kept(pending, t) == Kept(init, t) + [last];
      } else {
        assert Kept(pending, t) == Kept(init, t);
      }
    }
  }

  lemma PendingCausalWider(h1: seq<nat>, h2: seq<nat>, pending: seq<Item>)
    requires PendingCausal(h1, pending)
    requires forall x | x in h1 :: x in h2
    ensures PendingCausal(h2, pending)
  {
  }

  lemma WiderSupported(h1: seq<nat>, h2: seq<nat>, pending: seq<Item>, x: nat, t: nat)
    requires Supported(h1, pending, |pending|, x, t)
    requires forall y | y in h1 :: y in h2
    ensures Supported(h2, pending, |pending|, x, t)
  {
  }

  /** After the flush at tick t nothing pending is due at t or earlier. */
  lemma {:induction false} KeptAfter(pending: seq<Item>, t: nat)
    requires NotBefore(pending, t)
    ensures NotBefore(Kept(pending, t), t + 1)
    decreases |pending|
  {
    if pending != [] {
      var n := |pending| - 1;
      KeptAfter(pending[..n], t);
    }
  }

  /** The whole per-stream invariant survives the flush at tick t, which moves the
      due items to the records (and their vertex ids to the history). */
  lemma FlushPreservesInvariant(history: seq<nat>, pending: seq<Item>, records: seq<Item>,
                                writtenTo: bool, n: nat, t: nat)
    requires StreamInvariant(history, pending, records, writtenTo, n, t)
    ensures StreamInvariant(history + VertexIds(Due(pending, t)), Kept(pending, t), records + Due(pending, t),
                            writtenTo || |VertexIds(Due(pending, t))| > 0, n, t + 1)
  {
    FlushWritesCausally(records, pending, t);
    FlushKeepsPendingCausal(history, pending, t);
    KeptAfter(pending, t);
    DueKeptIds(pending, t);
    VertexIdsAppend(records, Due(pending, t));
    assert StreamIds(records + Due(pending, t), Kept(pending, t)) == StreamIds(records, pending);
  }

  // ----- Scheduling one occurrence -----

  /** The vertex items an occurrence adds to stream s: one for each of its
      vertices that has an emission time on s, in binding order. */
  function VertexItemsOn(vertices: seq<VertexInstance>, s: nat): seq<Item>
    decreases |vertices|
  {
    if vertices == [] then []
    else
      var v := vertices[|vertices| - 1];
      VertexItemsOn(vertices[..|vertices| - 1], s)
        + if s in v.streamCreationTimes then [VertexItem(v.id, v.attributes, v.streamCreationTimes[s])] else []
  }

  /** The edge items an occurrence adds to stream s, in template order. */
  function EdgeItemsOn(edges: seq<EdgeInstance>, s: nat): seq<Item>
    decreases |edges|
  {
    if edges == [] then []
    else
      var e := edges[|edges| - 1];
      EdgeItemsOn(edges[..|edges| - 1], s) + if e.streamNum == s then [EdgeItem(e)] else []
  }

  /** Everything SchedulePatternInstance appends to stream s: vertices first, then edges. */
  function OccurrenceItems(vertices: seq<VertexInstance>, edges: seq<EdgeInstance>, s: nat): seq<Item> {
    VertexItemsOn(vertices, s) + EdgeItemsOn(edges, s)
  }

  /** Endpoint x of an edge created at ct on stream s is resolved: an existing vertex
      already in that stream's history, or a vertex of the occurrence whose emission
      time on s is no later than ct. */
  predicate EndpointResolved(history: seq<nat>, vertices: seq<VertexInstance>, x: nat, s: nat, ct: nat) {
    || x in history
    || exists i | 0 <= i < |vertices| ::
         vertices[i].id == x && s in vertices[i].streamCreationTimes && vertices[i].streamCreationTimes[s] <= ct
  }

  /** Every edge of the occurrence goes to a configured stream and has both endpoints resolved. */
  ghost predicate OccurrenceResolved(histories: seq<seq<nat>>, vertices: seq<VertexInstance>, edges: seq<EdgeInstance>) {
    forall j | 0 <= j < |edges| ::
      && 1 <= edges[j].streamNum <= |histories|
      && EndpointResolved(histories[edges[j].streamNum - 1], vertices, edges[j].source, edges[j].streamNum, edges[j].creationTime)
      && EndpointResolved(histories[edges[j].streamNum - 1], vertices, edges[j].target, edges[j].streamNum, edges[j].creationTime)
  }

  /** Emission times of the occurrence are no earlier than the tick it fired at. */
  ghost predicate OccurrenceNotBefore(vertices: seq<VertexInstance>, edges: seq<EdgeInstance>, t: nat) {
    && (forall i, s | 0 <= i < |vertices| && s in vertices[i].streamCreationTimes :: vertices[i].streamCreationTimes[s] >= t)
    && (forall j | 0 <= j < |edges| :: edges[j].creationTime >= t)
  }

  /** The vertices scheduled somewhere carry fresh ids, above n0 and at most n1, all distinct. */
  ghost predicate OccurrenceFreshIds(vertices: seq<VertexInstance>, n0: nat, n1: nat) {
    && (forall i | 0 <= i < |vertices| && vertices[i].streamCreationTimes != map[] :: n0 < vertices[i].id <= n1)
    && (forall i, j | 0 <= i < j < |vertices| && vertices[i].streamCreationTimes != map[]
          && vertices[j].streamCreationTimes != map[] :: vertices[i].id != vertices[j].id)
  }

  lemma {:induction false} VertexItemsOnHas(vertices: seq<VertexInstance>, s: nat, i: nat)
    requires i < |vertices| && s in vertices[i].streamCreationTimes
    ensures VertexItem(vertices[i].id, vertices[i].attributes, vertices[i].streamCreationTimes[s]) in VertexItemsOn(vertices, s)
    decreases |vertices|
  {
    var init := vertices[..|vertices| - 1];
    if i < |init| {
      assert init[i] == vertices[i];
      VertexItemsOnHas(init, s, i);
    }
  }

  lemma {:induction false} VertexItemsOnShape(vertices: seq<VertexInstance>, s: nat)
    ensures forall k | 0 <= k < |VertexItemsOn(vertices, s)| ::
      var y := VertexItemsOn(vertices, s)[k];
      y.VertexItem? && exists i | 0 <= i < |vertices| ::
        vertices[i].id == y.id && s in vertices[i].streamCreationTimes && vertices[i].streamCreationTimes[s] == y.time
    decreases |vertices|
  {
    if vertices != [] {
      var init := vertices[..|vertices| - 1];
      var v := vertices[|vertices| - 1];
      var vi: seq<Item> := VertexItemsOn(init, s);
      var tail: seq<Item> := if s in v.streamCreationTimes then [VertexItem(v.id, v.attributes, v.streamCreationTimes[s])] else [];
      assert VertexItemsOn(vertices, s) == vi + tail;
      VertexItemsOnShape(init, s);
      forall k | 0 <= k < |vi + tail|
        ensures (vi + tail)[k].VertexItem? && exists i | 0 <= i < |vertices| ::
          vertices[i].id == (vi + tail)[k].id && s in vertices[i].streamCreationTimes
          && vertices[i].streamCreationTimes[s] == (vi + tail)[k].time
      {
        if k < |vi| {
          var y := vi[k];
          assert (vi + tail)[k] == y;
          var i :| 0 <= i < |init| && init[i].id == y.id && s in init[i].streamCreationTimes && init[i].streamCreationTimes[s] == y.time;
          assert vertices[i] == init[i];
        } else {
          assert (vi + tail)[k] == tail[0];
          assert vertices[|vertices| - 1] == v;
        }
      }
    }
  }

  lemma {:induction false} EdgeItemsOnShape(edges: seq<EdgeInstance>, s: nat)
    ensures forall k | 0 <= k < |EdgeItemsOn(edges, s)| ::
      var y := EdgeItemsOn(edges, s)[k];
      y.EdgeItem? && y.edge.streamNum == s && exists i | 0 <= i < |edges| :: edges[i] == y.edge
    decreases |edges|
  {
    if edges != [] {
      var init := edges[..|edges| - 1];
      var e := edges[|edges| - 1];
      var ei: seq<Item> := EdgeItemsOn(init, s);
      var tail: seq<Item> := if e.streamNum == s then [EdgeItem(e)] else [];
      assert EdgeItemsOn(edges, s) == ei + tail;
      EdgeItemsOnShape(init, s);
      forall k | 0 <= k < |ei + tail|
        ensures (ei + tail)[k].EdgeItem? && (ei + tail)[k].edge.streamNum == s
          && exists i | 0 <= i < |edges| :: edges[i] == (ei + tail)[k].edge
      {
        if k < |ei| {
          assert (ei + tail)[k] == ei[k];
          var i :| 0 <= i < |init| && init[i] == ei[k].edge;
          assert edges[i] == init[i];
        } else {
          assert (ei + tail)[k] == tail[0];
        }
      }
    }
  }

  lemma {:induction false} EdgeItemsOnNoVertices(edges: seq<EdgeInstance>, s: nat)
    ensures VertexIds(EdgeItemsOn(edges, s)) == []
    decreases |edges|
  {
    if edges != [] {
      var init := edges[..|edges| - 1];
      var e := edges[|edges| - 1];
      var tail: seq<Item> := if e.streamNum == s then [EdgeItem(e)] else [];
      EdgeItemsOnNoVertices(init, s);
      VertexIdsAppend(EdgeItemsOn(init, s), tail);
      if e.streamNum == s {
        assert VertexIds(tail) == VertexIds(tail[..0]) + [];
        assert tail[..0] == [];
      } else {
        assert VertexIds(tail) == [];
      }
    }
  }

  /** All the edges an occurrence adds to stream s find their endpoints in the
      history or among the vertices it adds before them. */
  lemma OccurrenceCausal(histories: seq<seq<nat>>, vertices: seq<VertexInstance>, edges: seq<EdgeInstance>, s: nat)
    requires OccurrenceResolved(histories, vertices, edges) && 1 <= s <= |histories|
    ensures PendingCausal(histories[s - 1], OccurrenceItems(vertices, edges, s))
  {
    var vitems := VertexItemsOn(vertices, s);
    var eitems := EdgeItemsOn(edges, s);
    var q := vitems + eitems;
    var h := histories[s - 1];
    VertexItemsOnShape(vertices, s);
    forall j | 0 <= j < |q| && q[j].EdgeItem?
      ensures Supported(h, q, j, q[j].edge.source, q[j].edge.creationTime)
      ensures Supported(h, q, j, q[j].edge.target, q[j].edge.creationTime)
    {
      if j < |vitems| {
        assert false;
      }
      var e := q[j].edge;
      assert q[j] == eitems[j - |vitems|];
      EdgeItemsOnShape(edges, s);
      var k :| 0 <= k < |edges| && edges[k] == e;
      assert e.streamNum == s;
      forall x | x == e.source || x == e.target
        ensures Supported(h, q, j, x, e.creationTime)
      {
        if x !in h {
          var i :| 0 <= i < |vertices| && vertices[i].id == x && s in vertices[i].streamCreationTimes
            && vertices[i].streamCreationTimes[s] <= e.creationTime;
          VertexItemsOnHas(vertices, s, i);
          var y := VertexItem(vertices[i].id, vertices[i].attributes, vertices[i].streamCreationTimes[s]);
          var m :| 0 <= m < |vitems| && vitems[m] == y;
          assert q[m] == y;
        }
      }
    }
  }

  /** Two causal pending lists, one after the other, form a causal pending list. */
  lemma PendingCausalAppend(history: seq<nat>, p: seq<Item>, q: seq<Item>)
    requires PendingCausal(history, p) && PendingCausal(history, q)
    ensures PendingCausal(history, p + q)
  {
    var r := p + q;
    forall j | 0 <= j < |r| && r[j].EdgeItem?
      ensures Supported(history, r, j, r[j].edge.source, r[j].edge.creationTime)
      ensures Supported(history, r, j, r[j].edge.target, r[j].edge.creationTime)
    {
      if j < |p| {
        assert r[j] == p[j];
        SupportedPrefix(history, p, q, j, p[j].edge.source, p[j].edge.creationTime);
        SupportedPrefix(history, p, q, j, p[j].edge.target, p[j].edge.creationTime);
      } else {
        var m := j - |p|;
        assert r[j] == q[m];
        SupportedShift(history, p, q, m, q[m].edge.source, q[m].edge.creationTime);
        SupportedShift(history, p, q, m, q[m].edge.target, q[m].edge.creationTime);
      }
    }
  }

  lemma SupportedShift(history: seq<nat>, p: seq<Item>, q: seq<Item>, m: nat, x: nat, t: nat)
    requires m <= |q| && Supported(history, q, m, x, t)
    ensures Supported(history, p + q, |p| + m, x, t)
  {
    if x !in history {
      var i :| 0 <= i < m && 0 <= i < |q| && q[i].VertexItem? && q[i].id == x && q[i].time <= t;
      assert (p + q)[|p| + i] == q[i];
    }
  }

  lemma {:induction false} VertexItemsOnIds(vertices: seq<VertexInstance>, s: nat, n0: nat, n1: nat)
    requires OccurrenceFreshIds(vertices, n0, n1)
    ensures AtMostOnce(multiset(VertexIds(VertexItemsOn(vertices, s))))
    ensures forall x | x in VertexIds(VertexItemsOn(vertices, s)) :: n0 < x <= n1
    decreases |vertices|
  {
    if vertices != [] {
      var init := vertices[..|vertices| - 1];
      var v := vertices[|vertices| - 1];
      assert OccurrenceFreshIds(init, n0, n1) by {
        assert forall i | 0 <= i < |init| :: init[i] == vertices[i];
      }
      VertexItemsOnIds(init, s, n0, n1);
      var vi: seq<Item> := VertexItemsOn(init, s);
      if s in v.streamCreationTimes {
        var y := VertexItem(v.id, v.attributes, v.streamCreationTimes[s]);
        assert VertexItemsOn(vertices, s) == vi + [y];
        VertexIdsAppend(vi, [y]);
        assert VertexIds([y]) == VertexIds([y][..0]) + [v.id];
        assert [y][..0] == [];
        LastIdFresh(vertices, s, n0, n1);
        assert v.streamCreationTimes != map[];
        assert n0 < v.id <= n1;
        IdsSnoc(VertexIds(vi), v.id);
      } else {
        assert VertexItemsOn(vertices, s) == vi + [];
        assert vi + [] == vi;
      }
    }
  }

  lemma LastIdFresh(vertices: seq<VertexInstance>, s: nat, n0: nat, n1: nat)
    requires OccurrenceFreshIds(vertices, n0, n1) && vertices != []
    requires s in vertices[|vertices| - 1].streamCreationTimes
    ensures vertices[|vertices| - 1].id !in VertexIds(VertexItemsOn(vertices[..|vertices| - 1], s))
  {
    var init := vertices[..|vertices| - 1];
    var v := vertices[|vertices| - 1];
    var vi := VertexItemsOn(init, s);
    VertexIdsMember(vi, v.id);
    if WrittenBefore(vi, |vi|, v.id) {
      var k :| 0 <= k < |vi| && vi[k].VertexItem? && vi[k].id == v.id;
      VertexItemsOnShape(init, s);
      assert false;
    }
  }

  /** Every emission time of the occurrence is at most hi. */
  ghost predicate OccurrenceNotAfter(vertices: seq<VertexInstance>, edges: seq<EdgeInstance>, hi: nat) {
    && (forall i, s | 0 <= i < |vertices| && s in vertices[i].streamCreationTimes :: vertices[i].streamCreationTimes[s] <= hi)
    && (forall j | 0 <= j < |edges| :: edges[j].creationTime <= hi)
  }

  /** What AddPatternInstance hands the scheduler: an occurrence whose edges are
      resolved, whose emission times lie in [t, hi] and whose scheduled vertices
      carry fresh ids in (n0, n1]. */
  ghost predicate OccurrenceSchedulable(histories: seq<seq<nat>>, vertices: seq<VertexInstance>, edges: seq<EdgeInstance>,
                                        n0: nat, n1: nat, t: nat, hi: nat)
  {
    && OccurrenceResolved(histories, vertices, edges)
    && OccurrenceNotBefore(vertices, edges, t)
    && OccurrenceNotAfter(vertices, edges, hi)
    && OccurrenceFreshIds(vertices, n0, n1)
  }

  /** The items an occurrence inside [.., hi] schedules on a stream are due before hi + 1. */
  lemma OccurrenceItemsBelow(vertices: seq<VertexInstance>, edges: seq<EdgeInstance>, s: nat, hi: nat)
    requires OccurrenceNotAfter(vertices, edges, hi)
    ensures Below(OccurrenceItems(vertices, edges, s), hi + 1)
  {
    var vi: seq<Item> := VertexItemsOn(vertices, s);
    var ei: seq<Item> := EdgeItemsOn(edges, s);
    VertexItemsOnShape(vertices, s);
    EdgeItemsOnShape(edges, s);
    forall k | 0 <= k < |vi + ei| ensures (vi + ei)[k].Time() < hi + 1 {
      if k < |vi| {
        assert (vi + ei)[k] == vi[k];
      } else {
        assert (vi + ei)[k] == ei[k - |vi|];
      }
    }
  }

  lemma IdsSnoc(ids: seq<nat>, x: nat)
    requires AtMostOnce(multiset(ids)) && x !in ids
    ensures AtMostOnce(multiset(ids + [x]))
  {
    assert multiset(ids + [x]) == multiset(ids) + multiset{x};
  }

  /** Scheduling an occurrence keeps the per-stream invariant, with the vertex counter
      advanced from n0 to n1 by the occurrence's fresh vertices. */
  lemma ScheduleOccurrencePreservesInvariant(histories: seq<seq<nat>>, s: nat, pending: seq<Item>, records: seq<Item>,
                                             writtenTo: bool, n0: nat, n1: nat, now: nat,
                                             vertices: seq<VertexInstance>, edges: seq<EdgeInstance>)
    requires 1 <= s <= |histories| && n0 <= n1
    requires StreamInvariant(histories[s - 1], pending, records, writtenTo, n0, now)
    requires OccurrenceResolved(histories, vertices, edges)
    requires OccurrenceNotBefore(vertices, edges, now)
    requires OccurrenceFreshIds(vertices, n0, n1)
    ensures StreamInvariant(histories[s - 1], pending + OccurrenceItems(vertices, edges, s), records, writtenTo, n1, now)
  {
    var q := OccurrenceItems(vertices, edges, s);
    OccurrenceCausal(histories, vertices, edges, s);
    PendingCausalAppend(histories[s - 1], pending, q);
    OccurrenceTimes(vertices, edges, s, now);
    NotBeforeAppend(pending, q, now);
    OccurrenceIds(vertices, edges, s, n0, n1);
    VertexIdsAppend(pending, q);
    assert StreamIds(records, pending + q) == StreamIds(records, pending) + multiset(VertexIds(q));
    FreshIdsJoin(StreamIds(records, pending), VertexIds(q), n0, n1);
  }

  /** The vertex ids an occurrence schedules on one stream are distinct and fresh. */
  lemma OccurrenceIds(vertices: seq<VertexInstance>, edges: seq<EdgeInstance>, s: nat, n0: nat, n1: nat)
    requires OccurrenceFreshIds(vertices, n0, n1)
    ensures AtMostOnce(multiset(VertexIds(OccurrenceItems(vertices, edges, s))))
    ensures forall x | x in VertexIds(OccurrenceItems(vertices, edges, s)) :: n0 < x <= n1
  {
    VertexItemsOnIds(vertices, s, n0, n1);
    EdgeItemsOnNoVertices(edges, s);
    VertexIdsAppend(VertexItemsOn(vertices, s), EdgeItemsOn(edges, s));
    assert VertexIds(OccurrenceItems(vertices, edges, s)) == VertexIds(VertexItemsOn(vertices, s)) + [];
  }

  /** Adding distinct ids above n0 to ids that are distinct and at most n0 keeps them distinct. */
  lemma FreshIdsJoin(a: multiset<nat>, ids: seq<nat>, n0: nat, n1: nat)
    requires AtMostOnce(a) && IdsUpTo(a, n0) && n0 <= n1
    requires AtMostOnce(multiset(ids)) && forall x | x in ids :: n0 < x <= n1
    ensures AtMostOnce(a + multiset(ids)) && IdsUpTo(a + multiset(ids), n1)
  {
    var b := multiset(ids);
    forall x ensures (a + b)[x] <= 1 {
      if x in b {
        assert x in ids;
        assert x !in a;
      }
    }
    forall x | x in a + b ensures 1 <= x <= n1 {
      if x in b { assert x in ids; }
    }
  }

  lemma OccurrenceTimes(vertices: seq<VertexInstance>, edges: seq<EdgeInstance>, s: nat, t: nat)
    requires OccurrenceNotBefore(vertices, edges, t)
    ensures NotBefore(OccurrenceItems(vertices, edges, s), t)
  {
    var vi: seq<Item> := VertexItemsOn(vertices, s);
    var ei: seq<Item> := EdgeItemsOn(edges, s);
    VertexItemsOnShape(vertices, s);
    EdgeItemsOnShape(edges, s);
    forall k | 0 <= k < |vi + ei| ensures (vi + ei)[k].Time() >= t {
      if k < |vi| {
        assert (vi + ei)[k] == vi[k];
      } else {
        assert (vi + ei)[k] == ei[k - |vi|];
      }
    }
  }

  lemma NotBeforeAppend(p: seq<Item>, q: seq<Item>, t: nat)
    requires NotBefore(p, t) && NotBefore(q, t)
    ensures NotBefore(p + q, t)
  {
    forall k | 0 <= k < |p + q| ensures (p + q)[k].Time() >= t {
      if k < |p| { assert (p + q)[k] == p[k]; } else { assert (p + q)[k] == q[k - |p|]; }
    }
  }

  lemma VertexIdsSnoc(items: seq<Item>, item: Item)
    ensures VertexIds(items + [item]) == VertexIds(items) + if item.VertexItem? then [item.id] else []
  {
    assert (items + [item])[..|items|] == items;
  }

  /** A history id is an id of an assigned vertex. */
  lemma HistoryIdsBounded(history: seq<nat>, pending: seq<Item>, records: seq<Item>,
                          writtenTo: bool, n: nat, now: nat, x: nat)
    requires StreamInvariant(history, pending, records, writtenTo, n, now) && x in history
    ensures 1 <= x <= n
  {
    assert x in multiset(VertexIds(records));
    assert x in StreamIds(records, pending);
  }

  /** Handing out more vertex ids elsewhere keeps a stream's invariant. */
  lemma StreamInvariantWider(history: seq<nat>, pending: seq<Item>, records: seq<Item>,
                             writtenTo: bool, n0: nat, n1: nat, now: nat)
    requires StreamInvariant(history, pending, records, writtenTo, n0, now) && n0 <= n1
    ensures StreamInvariant(history, pending, records, writtenTo, n1, now)
  {
  }

  // ----- The horizon -----

  /** Every pending item is due before tick h. */
  ghost predicate Below(items: seq<Item>, h: nat) {
    forall k | 0 <= k < |items| :: items[k].Time() < h
  }

  lemma {:induction false} KeptBelow(items: seq<Item>, t: nat, h: nat)
    requires Below(items, h)
    ensures Below(Kept(items, t), h)
    decreases |items|
  {
    if items != [] {
      var init := items[..|items| - 1];
      assert Below(init, h) by {
        forall k | 0 <= k < |init| ensures init[k].Time() < h {
          assert init[k] == items[k];
        }
      }
      KeptBelow(init, t, h);
      var tail: seq<Item> := if items[|items| - 1].Time() != t then [items[|items| - 1]] else [];
      var kept := Kept(init, t);
      forall k | 0 <= k < |kept + tail| ensures (kept + tail)[k].Time() < h {
        if k < |kept| { assert (kept + tail)[k] == kept[k]; }
      }
    }
  }

  lemma BelowAppend(p: seq<Item>, q: seq<Item>, h: nat)
    requires Below(p, h) && Below(q, h)
    ensures Below(p + q, h)
  {
    forall k | 0 <= k < |p + q| ensures (p + q)[k].Time() < h {
      if k < |p| { assert (p + q)[k] == p[k]; } else { assert (p + q)[k] == q[k - |p|]; }
    }
  }

  /** Something still pending at tick t and due before h means t is before h. */
  lemma PendingBeforeHorizon(items: seq<Item>, t: nat, h: nat)
    requires Below(items, h) && NotBefore(items, t) && items != []
    ensures t < h
  {
    assert items[0].Time() < h;
  }
}
