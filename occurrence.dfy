/** The binding of one occurrence in gsg.py (AddPatternInstance with
    GetVertexInstanceId and GetRandomVertexIdOnStream), stated on values: what
    the old-vertex probe returns, what one binding does to the bound instances,
    and the invariant the edge loop keeps, up to the facts the scheduler needs. */
module Occurrence {
  import opened Wrappers
  import opened GsgClasses
  import opened Validation
  import opened Schedule

  // ----- The old-vertex probe -----

  lemma ModSmall(i: int, n: int)
    requires 0 <= i < n
    ensures i % n == i && (i + n) % n == i
  {
  }

  lemma ModBelowTwice(a: int, n: int)
    requires 0 <= a < 2 * n
    ensures a % n == if a < n then a else a - n
  {
    if a >= n {
      ModSmall(a - n, n);
    } else {
      ModSmall(a, n);
    }
  }

  /** The entry the k-th probe looks at, counting from index `start` with wrap-around. */
  function ProbeSlot(history: seq<nat>, start: nat, k: nat): nat
    requires |history| > 0
  {
    history[(start + k) % |history|]
  }

  /** What GetRandomVertexIdOnStream returns once `tries` probes have failed. */
  function Probe(history: seq<nat>, used: seq<nat>, start: nat, tries: nat): nat
    requires tries <= |history|
    decreases |history| - tries
  {
    if tries == |history| then 0
    else if ProbeSlot(history, start, tries) !in used then ProbeSlot(history, start, tries)
    else Probe(history, used, start, tries + 1)
  }

  lemma {:induction false} ProbeFrom(history: seq<nat>, used: seq<nat>, start: nat, tries: nat)
    requires 0 < |history| && tries <= |history|
    ensures (forall k | tries <= k < |history| :: ProbeSlot(history, start, k) in used)
        ==> Probe(history, used, start, tries) == 0
    ensures (exists k | tries <= k < |history| :: ProbeSlot(history, start, k) !in used)
        ==> exists k | tries <= k < |history| ::
              && Probe(history, used, start, tries) == ProbeSlot(history, start, k)
              && ProbeSlot(history, start, k) !in used
              && forall k' | tries <= k' < k :: ProbeSlot(history, start, k') in used
    decreases |history| - tries
  {
    if tries < |history| {
      ProbeFrom(history, used, start, tries + 1);
      if ProbeSlot(history, start, tries) in used {
        if exists k | tries <= k < |history| :: ProbeSlot(history, start, k) !in used {
          var k :| tries <= k < |history| && ProbeSlot(history, start, k) !in used;
          assert k != tries;
          assert exists k | tries + 1 <= k < |history| :: ProbeSlot(history, start, k) !in used;
        }
      }
    }
  }

  /** Starting anywhere in [0, n), n probes visit every entry of the history. */
  lemma ProbesCover(history: seq<nat>, start: nat, i: nat) returns (k: nat)
    requires start < |history| && i < |history|
    ensures k < |history| && ProbeSlot(history, start, k) == history[i]
  {
    var n := |history|;
    k := if i >= start then i - start else i + n - start;
    ModBelowTwice(start + k, n);
  }

  /** The k-th probe from `start` looks at index start + k, wrapped once. */
  lemma ProbeSlotAt(history: seq<nat>, start: nat, k: nat)
    requires start < |history| && k < |history|
    ensures ProbeSlot(history, start, k)
         == history[if start + k < |history| then start + k else start + k - |history|]
  {
    ModBelowTwice(start + k, |history|);
  }

  /** The resolver's contract: 0 when every history entry is excluded (exactly then,
      for a history of real ids), and otherwise the first entry, cyclically from
      `start`, that is not excluded. */
  lemma ProbeSpec(history: seq<nat>, used: seq<nat>, start: nat)
    requires |history| > 0 ==> start < |history|
    ensures (forall i | 0 <= i < |history| :: history[i] in used) ==> Probe(history, used, start, 0) == 0
    ensures (forall i | 0 <= i < |history| :: history[i] != 0)
        ==> (Probe(history, used, start, 0) == 0 <==> forall i | 0 <= i < |history| :: history[i] in used)
    ensures Probe(history, used, start, 0) != 0 ==>
              Probe(history, used, start, 0) in history && Probe(history, used, start, 0) !in used
    ensures (exists i | 0 <= i < |history| :: history[i] !in used) ==>
              exists k | 0 <= k < |history| ::
                && Probe(history, used, start, 0) == ProbeSlot(history, start, k)
                && ProbeSlot(history, start, k) !in used
                && forall k' | 0 <= k' < k :: ProbeSlot(history, start, k') in used
  {
    var n := |history|;
    if n > 0 {
      ProbeFrom(history, used, start, 0);
      if exists i | 0 <= i < n :: history[i] !in used {
        var i :| 0 <= i < n && history[i] !in used;
        var k := ProbesCover(history, start, i);
        assert ProbeSlot(history, start, k) !in used;
        var k0 :| 0 <= k0 < n && Probe(history, used, start, 0) == ProbeSlot(history, start, k0)
          && ProbeSlot(history, start, k0) !in used;
        assert (start + k0) % n < n;
      } else {
        assert forall k | 0 <= k < n :: ProbeSlot(history, start, k) in used by {
          forall k | 0 <= k < n ensures ProbeSlot(history, start, k) in used {
            assert history[(start + k) % n] in used;
          }
        }
      }
    }
  }

  // ----- Bindings of one occurrence -----

  /** The emission time on stream s kept after an edge created at ct on s uses the vertex:
      the earlier of the old time and ct, or ct when there was none. */
  function Clamp(times: map<nat, nat>, s: nat, ct: nat): (r: map<nat, nat>)
    ensures r.Keys == times.Keys + {s}
    ensures r[s] <= ct && (s in times ==> r[s] <= times[s])
    ensures r[s] == ct || (s in times && r[s] == times[s])
    ensures forall s' | s' in times && s' != s :: r[s'] == times[s']
  {
    if s in times then
      if ct < times[s] then times[s := ct] else times
    else times[s := ct]
  }

  /** The ids of the bound instances in binding order (the order `order` keeps). */
  function IdsInOrder(entries: map<string, VertexInstance>, order: seq<string>): (r: seq<nat>)
    requires forall k | k in order :: k in entries
    ensures |r| == |order| && forall i | 0 <= i < |order| :: r[i] == entries[order[i]].id
  {
    seq(|order|, i requires 0 <= i < |order| => entries[order[i]].id)
  }

  /** The bound instances in binding order. */
  function EntriesInOrder(entries: map<string, VertexInstance>, order: seq<string>): (r: seq<VertexInstance>)
    requires forall k | k in order :: k in entries
    ensures |r| == |order| && forall i | 0 <= i < |order| :: r[i] == entries[order[i]]
  {
    seq(|order|, i requires 0 <= i < |order| => entries[order[i]])
  }

  /** What GetVertexInstanceId does to the bindings, given the id it settles on. */
  function BindEntry(entries: map<string, VertexInstance>, v: Vertex, s: nat, ct: nat, id: nat): map<string, VertexInstance> {
    if v.id in entries then
      if v.isNew then
        entries[v.id := entries[v.id].(streamCreationTimes := Clamp(entries[v.id].streamCreationTimes, s, ct))]
      else entries
    else if v.isNew then entries[v.id := VertexInstance(id, v.attributes, map[s := ct])]
    else entries[v.id := VertexInstance(id, v.attributes, map[])]
  }

  /** Binding can only add keys, and keeps every bound instance's id and attributes;
      emission times only gain streams or move earlier. */
  ghost predicate Extends(big: map<string, VertexInstance>, small: map<string, VertexInstance>) {
    forall k | k in small ::
      && k in big
      && big[k].id == small[k].id
      && big[k].attributes == small[k].attributes
      && forall s | s in small[k].streamCreationTimes ::
           s in big[k].streamCreationTimes && big[k].streamCreationTimes[s] <= small[k].streamCreationTimes[s]
  }

  lemma BindEntryExtends(entries: map<string, VertexInstance>, v: Vertex, s: nat, ct: nat, id: nat)
    ensures Extends(BindEntry(entries, v, s, ct, id), entries)
  {
    var big := BindEntry(entries, v, s, ct, id);
    forall k | k in entries
      ensures k in big && big[k].id == entries[k].id && big[k].attributes == entries[k].attributes
      ensures forall s' | s' in entries[k].streamCreationTimes ::
        s' in big[k].streamCreationTimes && big[k].streamCreationTimes[s'] <= entries[k].streamCreationTimes[s']
    {
      if k == v.id && v.isNew {
        var times := entries[k].streamCreationTimes;
        assert big[k].streamCreationTimes == Clamp(times, s, ct);
      }
    }
  }

  lemma ExtendsTransitive(a: map<string, VertexInstance>, b: map<string, VertexInstance>, c: map<string, VertexInstance>)
    requires Extends(a, b) && Extends(b, c)
    ensures Extends(a, c)
  {
    forall k | k in c
      ensures forall s | s in c[k].streamCreationTimes ::
        s in a[k].streamCreationTimes && a[k].streamCreationTimes[s] <= c[k].streamCreationTimes[s]
    {
      forall s | s in c[k].streamCreationTimes
        ensures s in a[k].streamCreationTimes && a[k].streamCreationTimes[s] <= c[k].streamCreationTimes[s]
      {
        assert s in b[k].streamCreationTimes;
      }
    }
  }

  // ----- The edge loop's invariant -----

  /** Every id in the stream histories is an assigned vertex id, at most n0. */
  ghost predicate HistoriesUpTo(histories: seq<seq<nat>>, n0: nat) {
    forall s, i | 0 <= s < |histories| && 0 <= i < |histories[s]| :: 1 <= histories[s][i] <= n0
  }

  /** Endpoint x of an edge created at ct on stream s is resolved by the bindings:
      it is in the stream's history, or a bound instance with id x is emitted on s
      no later than ct. */
  ghost predicate ResolvedIn(history: seq<nat>, entries: map<string, VertexInstance>, x: nat, s: nat, ct: nat) {
    || x in history
    || exists k | k in entries ::
         entries[k].id == x && s in entries[k].streamCreationTimes && entries[k].streamCreationTimes[s] <= ct
  }

  lemma ResolvedExtends(history: seq<nat>, small: map<string, VertexInstance>, big: map<string, VertexInstance>,
                        x: nat, s: nat, ct: nat)
    requires ResolvedIn(history, small, x, s, ct) && Extends(big, small)
    ensures ResolvedIn(history, big, x, s, ct)
  {
    if x !in history {
      var k :| k in small && small[k].id == x && s in small[k].streamCreationTimes
        && small[k].streamCreationTimes[s] <= ct;
      assert k in big && big[k].id == x && s in big[k].streamCreationTimes && big[k].streamCreationTimes[s] <= ct;
    }
  }

  /** The bound instance of template vertex k, given the histories when the occurrence
      started (every id at most n0), the vertex counter n now and the window [lo, hi] of
      emission times. A new vertex has a fresh id above n0 and is emitted on configured
      streams inside the window; an old one has an id from the history of every stream
      its edges use and is emitted nowhere. */
  ghost predicate BindingOk(p: Pattern, k: string, e: VertexInstance, histories: seq<seq<nat>>,
                            n0: nat, n: nat, lo: nat, hi: nat)
  {
    && GetVertexById(k, p.vertices).Some?
    && e.attributes == GetVertexById(k, p.vertices).value.attributes
    && 1 <= e.id <= n
    && (GetVertexById(k, p.vertices).value.isNew ==>
          && n0 < e.id
          && e.streamCreationTimes != map[]
          && forall s | s in e.streamCreationTimes ::
               1 <= s <= |histories| && lo <= e.streamCreationTimes[s] <= hi)
    && (!GetVertexById(k, p.vertices).value.isNew ==>
          && e.id <= n0
          && e.streamCreationTimes == map[]
          && forall i | 0 <= i < |p.edges| && Incident(p.edges[i], k) ::
               1 <= p.edges[i].streamNum <= |histories| && e.id in histories[p.edges[i].streamNum - 1])
  }

  /** The bindings of an occurrence in progress: the keys in binding order, each
      binding as above, and no two keys bound to the same id. */
  ghost predicate BindingsOk(p: Pattern, entries: map<string, VertexInstance>, order: seq<string>,
                             histories: seq<seq<nat>>, n0: nat, n: nat, lo: nat, hi: nat)
  {
    && n0 <= n
    && (forall i, j | 0 <= i < j < |order| :: order[i] != order[j])
    && (forall k | k in entries :: k in order)
    && (forall k | k in order :: k in entries)
    && (forall k | k in entries :: BindingOk(p, k, entries[k], histories, n0, n, lo, hi))
    && (forall k1, k2 | k1 in entries && k2 in entries && k1 != k2 :: entries[k1].id != entries[k2].id)
  }

  /** Every vertex in a stream's history is among the used ids. */
  ghost predicate Exhausted(history: seq<nat>, used: seq<nat>) {
    forall i | 0 <= i < |history| :: history[i] in used
  }

  /** Template vertex v cannot be bound on stream s: it is an old vertex not bound yet,
      and every vertex in the stream's history is bound in this occurrence already. */
  ghost predicate Unresolvable(entries: map<string, VertexInstance>, order: seq<string>,
                               histories: seq<seq<nat>>, v: Vertex, s: nat)
  {
    && v.id !in entries && !v.isNew && 1 <= s <= |histories|
    && (forall k | k in order :: k in entries)
    && Exhausted(histories[s - 1], IdsInOrder(entries, order))
  }

  /** What GetVertexInstanceId promises about the id it returns for template vertex v
      on stream s: the bound id when v is bound, the next counter value for a new
      vertex, and for an old vertex an id of the stream's history not bound yet, or 0
      when v is unresolvable (exactly then, for a history of real ids). */
  ghost predicate BindResult(entries: map<string, VertexInstance>, order: seq<string>, histories: seq<seq<nat>>,
                             v: Vertex, s: nat, n: nat, id: nat, n': nat)
  {
    if v.id in entries then id == entries[v.id].id && n' == n
    else if v.isNew then id == n + 1 && n' == n + 1
    else
      && n' == n
      && (id != 0 ==>
            && 1 <= s <= |histories| && id in histories[s - 1]
            && (forall k | k in order :: k in entries)
            && id !in IdsInOrder(entries, order))
      && (Unresolvable(entries, order, histories, v, s) ==> id == 0)
      && (id == 0 && 1 <= s <= |histories| && (forall k | k in order :: k in entries)
          && 0 !in histories[s - 1]
          ==> Unresolvable(entries, order, histories, v, s))
  }

  /** The resolver's answer for an unbound old vertex meets BindResult. */
  lemma ProbeBindResult(entries: map<string, VertexInstance>, order: seq<string>, histories: seq<seq<nat>>,
                        v: Vertex, s: nat, n: nat, start: nat, id: nat)
    requires v.id !in entries && !v.isNew && 1 <= s <= |histories|
    requires forall k | k in order :: k in entries
    requires |histories[s - 1]| > 0 ==> start < |histories[s - 1]|
    requires id == if |histories[s - 1]| == 0 then 0 else Probe(histories[s - 1], IdsInOrder(entries, order), start, 0)
    ensures BindResult(entries, order, histories, v, s, n, id, n)
  {
    ProbeSpec(histories[s - 1], IdsInOrder(entries, order), start);
  }

  /** One turn of the edge loop fails for an edge on stream s from sv to tv: the source
      cannot be bound, or, once the source is bound to ids (its edge created at ct), the
      target cannot. */
  ghost predicate EdgeBlocked(entries: map<string, VertexInstance>, order: seq<string>, histories: seq<seq<nat>>,
                              sv: Vertex, tv: Vertex, s: nat, ct: nat, ids: nat)
  {
    || Unresolvable(entries, order, histories, sv, s)
    || Unresolvable(BindEntry(entries, sv, s, ct, ids), if sv.id in entries then order else order + [sv.id],
                    histories, tv, s)
  }

  /** With bindings to real ids and a history of real ids, the resolver answers 0
      exactly when the vertex is unresolvable. */
  lemma ZeroIffUnresolvable(entries: map<string, VertexInstance>, order: seq<string>, histories: seq<seq<nat>>,
                            v: Vertex, s: nat, n: nat, id: nat, n': nat)
    requires (forall k | k in entries :: entries[k].id != 0) && (forall k | k in order :: k in entries)
    requires 1 <= s <= |histories| && 0 !in histories[s - 1]
    requires BindResult(entries, order, histories, v, s, n, id, n')
    ensures id == 0 <==> Unresolvable(entries, order, histories, v, s)
  {
  }

  /** Binding both endpoints of an edge yields two non-zero ids exactly when the edge is
      not blocked. */
  lemma EdgeBlockedIff(p: Pattern, histories: seq<seq<nat>>, n0: nat, lo: nat, hi: nat,
                       entries: map<string, VertexInstance>, order: seq<string>, n: nat,
                       sv: Vertex, tv: Vertex, s: nat, ct: nat, ids: nat, n1: nat, idt: nat, n2: nat)
    requires HistoriesUpTo(histories, n0) && BindingsOk(p, entries, order, histories, n0, n, lo, hi)
    requires 1 <= s <= |histories|
    requires BindResult(entries, order, histories, sv, s, n, ids, n1)
    requires BindResult(BindEntry(entries, sv, s, ct, ids), if sv.id in entries then order else order + [sv.id],
                        histories, tv, s, n1, idt, n2)
    ensures ids != 0 && idt != 0 <==> !EdgeBlocked(entries, order, histories, sv, tv, s, ct, ids)
  {
    var h := histories[s - 1];
    assert 0 !in h by {
      forall i | 0 <= i < |h| ensures h[i] != 0 {
        assert 1 <= histories[s - 1][i];
      }
    }
    assert forall k | k in entries :: entries[k].id != 0 by {
      forall k | k in entries ensures entries[k].id != 0 {
        assert BindingOk(p, k, entries[k], histories, n0, n, lo, hi);
      }
    }
    ZeroIffUnresolvable(entries, order, histories, sv, s, n, ids, n1);
    if ids != 0 {
      var big := BindEntry(entries, sv, s, ct, ids);
      var order1 := if sv.id in entries then order else order + [sv.id];
      assert forall k | k in big :: big[k].id != 0 by {
        forall k | k in big ensures big[k].id != 0 {
          if k != sv.id {
            assert big[k] == entries[k];
          }
        }
      }
      ZeroIffUnresolvable(big, order1, histories, tv, s, n1, idt, n2);
    }
  }

  /** Template edge j is blocked when drawn at ct, with its source bound the way
      GetVertexInstanceId binds it: to ids, the vertex counter going from n (never
      below n0, the counter when the occurrence started) to n1. */
  ghost predicate BlockedAt(p: Pattern, j: nat, entries: map<string, VertexInstance>, order: seq<string>,
                            histories: seq<seq<nat>>, n0: nat, ct: nat, n: nat, ids: nat, n1: nat)
    requires j < |p.edges| && 1 <= p.edges[j].streamNum
    requires GetVertexById(p.edges[j].source, p.vertices).Some?
    requires GetVertexById(p.edges[j].target, p.vertices).Some?
  {
    && n0 <= n
    && BindResult(entries, order, histories, GetVertexById(p.edges[j].source, p.vertices).value,
                  p.edges[j].streamNum as nat, n, ids, n1)
    && EdgeBlocked(entries, order, histories, GetVertexById(p.edges[j].source, p.vertices).value,
                   GetVertexById(p.edges[j].target, p.vertices).value, p.edges[j].streamNum as nat, ct, ids)
  }

  /** The occurrence is abandoned at template edge j: with the bindings of the edges
      before it, edge j is blocked for a creation time inside its window and some
      outcome of the source's binding (the draws are not fixed here). */
  ghost predicate AbandonedAt(p: Pattern, j: nat, entries: map<string, VertexInstance>, order: seq<string>,
                              histories: seq<seq<nat>>, n0: nat, t: nat)
  {
    && j < |p.edges| && 1 <= p.edges[j].streamNum
    && GetVertexById(p.edges[j].source, p.vertices).Some?
    && GetVertexById(p.edges[j].target, p.vertices).Some?
    && exists ct: nat, n: nat, ids: nat, n1: nat | t + p.edges[j].minOffset <= ct <= t + p.edges[j].maxOffset ::
         BlockedAt(p, j, entries, order, histories, n0, ct, n, ids, n1)
  }

  /** A new source bound for the first time takes an id above every history id, so it
      blocks its edge only when the target was unresolvable already. */
  lemma FreshSourceBlocks(entries: map<string, VertexInstance>, order: seq<string>, histories: seq<seq<nat>>,
                          n0: nat, sv: Vertex, tv: Vertex, s: nat, ct: nat, n: nat, ids: nat, n1: nat)
    requires HistoriesUpTo(histories, n0) && n0 <= n && 1 <= s <= |histories|
    requires forall k | k in order :: k in entries
    requires sv.id !in entries && sv.isNew && sv.id != tv.id
    requires BindResult(entries, order, histories, sv, s, n, ids, n1)
    requires EdgeBlocked(entries, order, histories, sv, tv, s, ct, ids)
    ensures Unresolvable(entries, order, histories, tv, s)
  {
    var big := BindEntry(entries, sv, s, ct, ids);
    var order1 := order + [sv.id];
    var h := histories[s - 1];
    var used := IdsInOrder(entries, order);
    var used1 := IdsInOrder(big, order1);
    assert Unresolvable(big, order1, histories, tv, s);
    assert |used1| == |order| + 1 && used1[|order|] == n + 1;
    forall i | 0 <= i < |h|
      ensures h[i] in used
    {
      assert h[i] <= n0;
      var k :| 0 <= k < |used1| && used1[k] == h[i];
      assert k < |order|;
      assert order[k] in entries && order[k] != sv.id;
      assert used[k] == h[i];
    }
  }

  /** Template edge j has an endpoint that is an old vertex. */
  ghost predicate OldEndpoint(p: Pattern, j: nat) {
    && j < |p.edges|
    && exists v | v in p.vertices :: !v.isNew && Incident(p.edges[j], v.id)
  }

  /** Only an edge with an old endpoint can stop an occurrence: a template of new
      vertices only is always instantiated. */
  lemma AbandonedOldEndpoint(p: Pattern, j: nat, entries: map<string, VertexInstance>, order: seq<string>,
                             histories: seq<seq<nat>>, n0: nat, t: nat)
    requires AbandonedAt(p, j, entries, order, histories, n0, t)
    ensures OldEndpoint(p, j)
  {
    var sv := GetVertexById(p.edges[j].source, p.vertices).value;
    var tv := GetVertexById(p.edges[j].target, p.vertices).value;
    var s := p.edges[j].streamNum as nat;
    var ct: nat, n: nat, ids: nat, n1: nat :| t + p.edges[j].minOffset <= ct <= t + p.edges[j].maxOffset
      && BlockedAt(p, j, entries, order, histories, n0, ct, n, ids, n1);
    if Unresolvable(entries, order, histories, sv, s) {
      assert sv in p.vertices && !sv.isNew && Incident(p.edges[j], sv.id);
    } else {
      assert tv in p.vertices && !tv.isNew && Incident(p.edges[j], tv.id);
    }
  }

  lemma StreamInRange(p: Pattern, numStreams: nat, j: nat)
    requires PatternAccepted(p, numStreams) && j < |p.edges|
    ensures 1 <= p.edges[j].streamNum <= numStreams
    ensures 0 <= p.edges[j].minOffset <= p.edges[j].maxOffset
    ensures GetVertexById(p.edges[j].source, p.vertices).Some?
    ensures GetVertexById(p.edges[j].target, p.vertices).Some?
  {
    assert EdgeWellFormed(p.edges[j], p.vertices, numStreams);
  }

  lemma BindingOkWider(p: Pattern, k: string, e: VertexInstance, histories: seq<seq<nat>>,
                       n0: nat, n: nat, n': nat, lo: nat, hi: nat)
    requires BindingOk(p, k, e, histories, n0, n, lo, hi) && n <= n'
    ensures BindingOk(p, k, e, histories, n0, n', lo, hi)
  {
  }

  /** Handing out more vertex ids keeps every binding consistent. */
  lemma BindingsOkWider(p: Pattern, entries: map<string, VertexInstance>, order: seq<string>,
                        histories: seq<seq<nat>>, n0: nat, n: nat, n': nat, lo: nat, hi: nat)
    requires BindingsOk(p, entries, order, histories, n0, n, lo, hi) && n <= n'
    ensures BindingsOk(p, entries, order, histories, n0, n', lo, hi)
  {
    forall k | k in entries
      ensures BindingOk(p, k, entries[k], histories, n0, n', lo, hi)
    {
      BindingOkWider(p, k, entries[k], histories, n0, n, n', lo, hi);
    }
  }

  /** Binding key to an instance that is consistent on its own, bound to an id no
      other key has, keeps the bindings consistent. */
  lemma BindingsOkUpdate(p: Pattern, entries: map<string, VertexInstance>, order: seq<string>,
                         histories: seq<seq<nat>>, n0: nat, n: nat, n': nat, lo: nat, hi: nat,
                         key: string, e: VertexInstance)
    requires BindingsOk(p, entries, order, histories, n0, n, lo, hi) && n <= n'
    requires BindingOk(p, key, e, histories, n0, n', lo, hi)
    requires forall k | k in entries && k != key :: entries[k].id != e.id
    ensures BindingsOk(p, entries[key := e], if key in entries then order else order + [key],
                       histories, n0, n', lo, hi)
  {
    var big := entries[key := e];
    var order' := if key in entries then order else order + [key];
    forall k | k in big
      ensures BindingOk(p, k, big[k], histories, n0, n', lo, hi)
    {
      if k != key {
        BindingOkWider(p, k, entries[k], histories, n0, n, n', lo, hi);
      }
    }
    forall i, i' | 0 <= i < i' < |order'|
      ensures order'[i] != order'[i']
    {
      if i' == |order| {
        assert order[i] in entries;
      }
    }
    forall k1, k2 | k1 in big && k2 in big && k1 != k2
      ensures big[k1].id != big[k2].id
    {
      if k1 != key && k2 != key {
        assert entries[k1].id != entries[k2].id;
      }
    }
    assert forall k | k in big :: k in order';
  }

  /** Binding a template vertex that is bound already. */
  lemma BindBound(p: Pattern, entries: map<string, VertexInstance>, order: seq<string>,
                  histories: seq<seq<nat>>, n0: nat, n: nat, lo: nat, hi: nat,
                  j: nat, v: Vertex, s: nat, ct: nat, id: nat, n': nat)
    requires BindingsOk(p, entries, order, histories, n0, n, lo, hi)
    requires j < |p.edges| && Incident(p.edges[j], v.id) && s == p.edges[j].streamNum
    requires GetVertexById(v.id, p.vertices) == Some(v)
    requires 1 <= s <= |histories| && lo <= ct <= hi
    requires v.id in entries && id == entries[v.id].id && n' == n
    ensures BindingsOk(p, BindEntry(entries, v, s, ct, id), order, histories, n0, n', lo, hi)
    ensures ResolvedIn(histories[s - 1], BindEntry(entries, v, s, ct, id), id, s, ct)
  {
    var e := entries[v.id];
    assert BindingOk(p, v.id, e, histories, n0, n, lo, hi);
    if v.isNew {
      var e' := e.(streamCreationTimes := Clamp(e.streamCreationTimes, s, ct));
      ClampBindingOk(p, v.id, e, histories, n0, n, lo, hi, s, ct);
      BindingsOkUpdate(p, entries, order, histories, n0, n, n, lo, hi, v.id, e');
      var big := entries[v.id := e'];
      assert v.id in big && big[v.id].id == e.id && s in big[v.id].streamCreationTimes
        && big[v.id].streamCreationTimes[s] <= ct;
    } else {
      assert e.id in histories[s - 1];
    }
  }

  lemma ClampBindingOk(p: Pattern, k: string, e: VertexInstance, histories: seq<seq<nat>>,
                       n0: nat, n: nat, lo: nat, hi: nat, s: nat, ct: nat)
    requires BindingOk(p, k, e, histories, n0, n, lo, hi)
    requires GetVertexById(k, p.vertices).Some? && GetVertexById(k, p.vertices).value.isNew
    requires 1 <= s <= |histories| && lo <= ct <= hi
    ensures BindingOk(p, k, e.(streamCreationTimes := Clamp(e.streamCreationTimes, s, ct)), histories, n0, n, lo, hi)
  {
  }

  /** Binding a new template vertex for the first time: the next counter value. */
  lemma BindFresh(p: Pattern, entries: map<string, VertexInstance>, order: seq<string>,
                  histories: seq<seq<nat>>, n0: nat, n: nat, lo: nat, hi: nat,
                  v: Vertex, s: nat, ct: nat, id: nat, n': nat)
    requires BindingsOk(p, entries, order, histories, n0, n, lo, hi)
    requires GetVertexById(v.id, p.vertices) == Some(v)
    requires 1 <= s <= |histories| && lo <= ct <= hi
    requires v.id !in entries && v.isNew && id == n + 1 && n' == n + 1
    ensures BindingsOk(p, BindEntry(entries, v, s, ct, id), order + [v.id], histories, n0, n', lo, hi)
    ensures ResolvedIn(histories[s - 1], BindEntry(entries, v, s, ct, id), id, s, ct)
  {
    var e := VertexInstance(n + 1, v.attributes, map[s := ct]);
    FreshBindingOk(p, v, histories, n0, n, lo, hi, s, ct);
    IdsAtMost(p, entries, order, histories, n0, n, lo, hi);
    BindingsOkUpdate(p, entries, order, histories, n0, n, n + 1, lo, hi, v.id, e);
    var big := entries[v.id := e];
    assert BindEntry(entries, v, s, ct, id) == big;
    assert v.id in big && big[v.id].id == n + 1 && s in big[v.id].streamCreationTimes;
  }

  lemma FreshBindingOk(p: Pattern, v: Vertex, histories: seq<seq<nat>>,
                       n0: nat, n: nat, lo: nat, hi: nat, s: nat, ct: nat)
    requires GetVertexById(v.id, p.vertices) == Some(v) && v.isNew && n0 <= n
    requires 1 <= s <= |histories| && lo <= ct <= hi
    ensures BindingOk(p, v.id, VertexInstance(n + 1, v.attributes, map[s := ct]), histories, n0, n + 1, lo, hi)
  {
    assert map[s := ct].Keys == {s};
  }

  lemma IdsAtMost(p: Pattern, entries: map<string, VertexInstance>, order: seq<string>,
                  histories: seq<seq<nat>>, n0: nat, n: nat, lo: nat, hi: nat)
    requires BindingsOk(p, entries, order, histories, n0, n, lo, hi)
    ensures forall k | k in entries :: 1 <= entries[k].id <= n
  {
    forall k | k in entries
      ensures 1 <= entries[k].id <= n
    {
      assert BindingOk(p, k, entries[k], histories, n0, n, lo, hi);
    }
  }

  /** Binding an old template vertex for the first time to an id the probe found. */
  lemma BindOld(p: Pattern, entries: map<string, VertexInstance>, order: seq<string>,
                histories: seq<seq<nat>>, n0: nat, n: nat, lo: nat, hi: nat,
                j: nat, v: Vertex, s: nat, ct: nat, id: nat, n': nat)
    requires OldVerticesSingleStream(p) && HistoriesUpTo(histories, n0) && n' == n
    requires BindingsOk(p, entries, order, histories, n0, n, lo, hi)
    requires j < |p.edges| && Incident(p.edges[j], v.id) && s == p.edges[j].streamNum
    requires GetVertexById(v.id, p.vertices) == Some(v)
    requires v.id !in entries && !v.isNew
    requires 1 <= s <= |histories| && id in histories[s - 1] && id !in IdsInOrder(entries, order)
    ensures BindingsOk(p, BindEntry(entries, v, s, ct, id), order + [v.id], histories, n0, n', lo, hi)
    ensures ResolvedIn(histories[s - 1], BindEntry(entries, v, s, ct, id), id, s, ct)
  {
    var e := VertexInstance(id, v.attributes, map[]);
    OldBindingOk(p, histories, n0, n, lo, hi, j, v, s, id);
    forall k | k in entries && k != v.id
      ensures entries[k].id != e.id
    {
      var i :| 0 <= i < |order| && order[i] == k;
      assert IdsInOrder(entries, order)[i] == entries[k].id;
    }
    BindingsOkUpdate(p, entries, order, histories, n0, n, n, lo, hi, v.id, e);
  }

  lemma OldBindingOk(p: Pattern, histories: seq<seq<nat>>, n0: nat, n: nat, lo: nat, hi: nat,
                     j: nat, v: Vertex, s: nat, id: nat)
    requires OldVerticesSingleStream(p) && HistoriesUpTo(histories, n0) && n0 <= n
    requires j < |p.edges| && Incident(p.edges[j], v.id) && s == p.edges[j].streamNum
    requires GetVertexById(v.id, p.vertices) == Some(v) && !v.isNew
    requires 1 <= s <= |histories| && id in histories[s - 1]
    ensures BindingOk(p, v.id, VertexInstance(id, v.attributes, map[]), histories, n0, n, lo, hi)
  {
    var h := histories[s - 1];
    var m :| 0 <= m < |h| && h[m] == id;
    assert 1 <= id <= n0;
    assert v in p.vertices;
    forall i | 0 <= i < |p.edges| && Incident(p.edges[i], v.id)
      ensures 1 <= p.edges[i].streamNum <= |histories| && id in histories[p.edges[i].streamNum - 1]
    {
      assert p.edges[i].streamNum == p.edges[j].streamNum;
    }
  }

  /** One binding step of the edge loop, dispatched on the three cases. */
  lemma BindStep(p: Pattern, entries: map<string, VertexInstance>, order: seq<string>,
                 histories: seq<seq<nat>>, n0: nat, n: nat, lo: nat, hi: nat,
                 j: nat, v: Vertex, s: nat, ct: nat, id: nat, n': nat)
    requires OldVerticesSingleStream(p) && HistoriesUpTo(histories, n0)
    requires BindingsOk(p, entries, order, histories, n0, n, lo, hi)
    requires j < |p.edges| && Incident(p.edges[j], v.id) && s == p.edges[j].streamNum
    requires GetVertexById(v.id, p.vertices) == Some(v)
    requires 1 <= s <= |histories| && lo <= ct <= hi
    requires BindResult(entries, order, histories, v, s, n, id, n') && id != 0
    ensures BindingsOk(p, BindEntry(entries, v, s, ct, id), if v.id in entries then order else order + [v.id],
                       histories, n0, n', lo, hi)
    ensures Extends(BindEntry(entries, v, s, ct, id), entries)
    ensures v.id in BindEntry(entries, v, s, ct, id) && BindEntry(entries, v, s, ct, id)[v.id].id == id
    ensures ResolvedIn(histories[s - 1], BindEntry(entries, v, s, ct, id), id, s, ct)
  {
    BindEntryExtends(entries, v, s, ct, id);
    if v.id in entries {
      BindBound(p, entries, order, histories, n0, n, lo, hi, j, v, s, ct, id, n');
    } else if v.isNew {
      BindFresh(p, entries, order, histories, n0, n, lo, hi, v, s, ct, id, n');
    } else {
      BindOld(p, entries, order, histories, n0, n, lo, hi, j, v, s, ct, id, n');
    }
  }

  // ----- The edge instances of one occurrence -----

  /** The j-th edge instance of an occurrence fired at tick t: numbered edgeId, with
      the template edge's fields, its endpoints the bound instances of the template's
      endpoints, created inside its offset window and no later than hi, and with both
      endpoints resolved on its stream. */
  ghost predicate EdgeMade(p: Pattern, j: nat, e: EdgeInstance, entries: map<string, VertexInstance>,
                           histories: seq<seq<nat>>, edgeId: nat, t: nat, hi: nat)
    requires j < |p.edges|
  {
    && e.id == edgeId
    && e.directed == p.edges[j].directed && e.attributes == p.edges[j].attributes
    && p.edges[j].source in entries && e.source == entries[p.edges[j].source].id
    && p.edges[j].target in entries && e.target == entries[p.edges[j].target].id
    && e.streamNum == p.edges[j].streamNum && 1 <= e.streamNum <= |histories|
    && t + p.edges[j].minOffset <= e.creationTime <= t + p.edges[j].maxOffset
    && e.creationTime <= hi
    && ResolvedIn(histories[e.streamNum - 1], entries, e.source, e.streamNum, e.creationTime)
    && ResolvedIn(histories[e.streamNum - 1], entries, e.target, e.streamNum, e.creationTime)
  }

  /** The edge instances made so far, numbered on from e0. */
  ghost predicate EdgesMade(p: Pattern, edges: seq<EdgeInstance>, entries: map<string, VertexInstance>,
                            histories: seq<seq<nat>>, e0: nat, t: nat, hi: nat)
  {
    && |edges| <= |p.edges|
    && forall j | 0 <= j < |edges| :: EdgeMade(p, j, edges[j], entries, histories, e0 + j + 1, t, hi)
  }

  lemma EdgesMadeExtends(p: Pattern, edges: seq<EdgeInstance>, small: map<string, VertexInstance>,
                         big: map<string, VertexInstance>, histories: seq<seq<nat>>, e0: nat, t: nat, hi: nat)
    requires EdgesMade(p, edges, small, histories, e0, t, hi) && Extends(big, small)
    ensures EdgesMade(p, edges, big, histories, e0, t, hi)
  {
    forall j | 0 <= j < |edges|
      ensures EdgeMade(p, j, edges[j], big, histories, e0 + j + 1, t, hi)
    {
      var e := edges[j];
      assert EdgeMade(p, j, e, small, histories, e0 + j + 1, t, hi);
      ResolvedExtends(histories[e.streamNum - 1], small, big, e.source, e.streamNum, e.creationTime);
      ResolvedExtends(histories[e.streamNum - 1], small, big, e.target, e.streamNum, e.creationTime);
    }
  }

  /** One completed turn of the edge loop: both endpoints bound to non-zero ids, the
      edge instance made from them is the next one numbered. */
  lemma EdgeLoopStep(p: Pattern, histories: seq<seq<nat>>, n0: nat, t: nat, hi: nat, e0: nat,
                     edges: seq<EdgeInstance>, ct: nat, s: nat, sv: Vertex, tv: Vertex,
                     entries0: map<string, VertexInstance>, order0: seq<string>, n: nat,
                     ids: nat, entries1: map<string, VertexInstance>, order1: seq<string>, n1: nat,
                     idt: nat, entries2: map<string, VertexInstance>, order2: seq<string>, n2: nat)
    requires OldVerticesSingleStream(p) && HistoriesUpTo(histories, n0)
    requires |edges| < |p.edges| && 0 <= p.edges[|edges|].minOffset
    requires BindingsOk(p, entries0, order0, histories, n0, n, t, hi)
    requires EdgesMade(p, edges, entries0, histories, e0, t, hi)
    requires s == p.edges[|edges|].streamNum && 1 <= s <= |histories|
    requires t + p.edges[|edges|].minOffset <= ct <= t + p.edges[|edges|].maxOffset && ct <= hi
    requires GetVertexById(p.edges[|edges|].source, p.vertices) == Some(sv)
    requires GetVertexById(p.edges[|edges|].target, p.vertices) == Some(tv)
    requires entries1 == BindEntry(entries0, sv, s, ct, ids)
    requires order1 == if sv.id in entries0 then order0 else order0 + [sv.id]
    requires BindResult(entries0, order0, histories, sv, s, n, ids, n1) && ids != 0
    requires entries2 == BindEntry(entries1, tv, s, ct, idt)
    requires order2 == if tv.id in entries1 then order1 else order1 + [tv.id]
    requires BindResult(entries1, order1, histories, tv, s, n1, idt, n2) && idt != 0
    ensures BindingsOk(p, entries2, order2, histories, n0, n2, t, hi)
    ensures EdgesMade(p, edges + [EdgeInstance(e0 + |edges| + 1, ids, idt, p.edges[|edges|].directed,
                                               p.edges[|edges|].attributes, s, ct)],
                      entries2, histories, e0, t, hi)
  {
    EdgeBindings(p, histories, n0, t, hi, |edges|, ct, s, sv, tv, entries0, order0, n,
                 ids, entries1, order1, n1, idt, entries2, order2, n2);
    EdgesMadeNext(p, edges, entries0, entries2, histories, e0, t, hi, ids, idt, s, ct);
  }

  /** Binding both endpoints of the j-th template edge. */
  lemma EdgeBindings(p: Pattern, histories: seq<seq<nat>>, n0: nat, t: nat, hi: nat,
                     j: nat, ct: nat, s: nat, sv: Vertex, tv: Vertex,
                     entries0: map<string, VertexInstance>, order0: seq<string>, n: nat,
                     ids: nat, entries1: map<string, VertexInstance>, order1: seq<string>, n1: nat,
                     idt: nat, entries2: map<string, VertexInstance>, order2: seq<string>, n2: nat)
    requires OldVerticesSingleStream(p) && HistoriesUpTo(histories, n0)
    requires j < |p.edges| && s == p.edges[j].streamNum && 1 <= s <= |histories| && t <= ct <= hi
    requires BindingsOk(p, entries0, order0, histories, n0, n, t, hi)
    requires GetVertexById(p.edges[j].source, p.vertices) == Some(sv)
    requires GetVertexById(p.edges[j].target, p.vertices) == Some(tv)
    requires entries1 == BindEntry(entries0, sv, s, ct, ids)
    requires order1 == if sv.id in entries0 then order0 else order0 + [sv.id]
    requires BindResult(entries0, order0, histories, sv, s, n, ids, n1) && ids != 0
    requires entries2 == BindEntry(entries1, tv, s, ct, idt)
    requires order2 == if tv.id in entries1 then order1 else order1 + [tv.id]
    requires BindResult(entries1, order1, histories, tv, s, n1, idt, n2) && idt != 0
    ensures BindingsOk(p, entries2, order2, histories, n0, n2, t, hi)
    ensures Extends(entries2, entries0)
    ensures p.edges[j].source in entries2 && entries2[p.edges[j].source].id == ids
    ensures p.edges[j].target in entries2 && entries2[p.edges[j].target].id == idt
    ensures ResolvedIn(histories[s - 1], entries2, ids, s, ct)
    ensures ResolvedIn(histories[s - 1], entries2, idt, s, ct)
  {
    BindStep(p, entries0, order0, histories, n0, n, t, hi, j, sv, s, ct, ids, n1);
    BindStep(p, entries1, order1, histories, n0, n1, t, hi, j, tv, s, ct, idt, n2);
    ResolvedExtends(histories[s - 1], entries1, entries2, ids, s, ct);
    ExtendsTransitive(entries2, entries1, entries0);
  }

  lemma EdgesMadeNext(p: Pattern, edges: seq<EdgeInstance>, small: map<string, VertexInstance>,
                      big: map<string, VertexInstance>, histories: seq<seq<nat>>, e0: nat, t: nat, hi: nat,
                      ids: nat, idt: nat, s: nat, ct: nat)
    requires EdgesMade(p, edges, small, histories, e0, t, hi) && Extends(big, small)
    requires |edges| < |p.edges| && s == p.edges[|edges|].streamNum && 1 <= s <= |histories|
    requires t + p.edges[|edges|].minOffset <= ct <= t + p.edges[|edges|].maxOffset && ct <= hi
    requires p.edges[|edges|].source in big && big[p.edges[|edges|].source].id == ids
    requires p.edges[|edges|].target in big && big[p.edges[|edges|].target].id == idt
    requires ResolvedIn(histories[s - 1], big, ids, s, ct)
    requires ResolvedIn(histories[s - 1], big, idt, s, ct)
    ensures EdgesMade(p, edges + [EdgeInstance(e0 + |edges| + 1, ids, idt, p.edges[|edges|].directed,
                                               p.edges[|edges|].attributes, s, ct)],
                      big, histories, e0, t, hi)
  {
    EdgeMadeOf(p, |edges|, big, histories, e0 + |edges| + 1, t, hi, ids, idt, s, ct);
    EdgesMadeSnoc(p, edges, small, big, histories, e0, t, hi,
                  EdgeInstance(e0 + |edges| + 1, ids, idt, p.edges[|edges|].directed, p.edges[|edges|].attributes, s, ct));
  }

  lemma EdgeMadeOf(p: Pattern, j: nat, entries: map<string, VertexInstance>, histories: seq<seq<nat>>,
                   edgeId: nat, t: nat, hi: nat, ids: nat, idt: nat, s: nat, ct: nat)
    requires j < |p.edges| && s == p.edges[j].streamNum && 1 <= s <= |histories|
    requires t + p.edges[j].minOffset <= ct <= t + p.edges[j].maxOffset && ct <= hi
    requires p.edges[j].source in entries && entries[p.edges[j].source].id == ids
    requires p.edges[j].target in entries && entries[p.edges[j].target].id == idt
    requires ResolvedIn(histories[s - 1], entries, ids, s, ct)
    requires ResolvedIn(histories[s - 1], entries, idt, s, ct)
    ensures EdgeMade(p, j, EdgeInstance(edgeId, ids, idt, p.edges[j].directed, p.edges[j].attributes, s, ct),
                     entries, histories, edgeId, t, hi)
  {
  }

  lemma EdgesMadeSnoc(p: Pattern, edges: seq<EdgeInstance>, small: map<string, VertexInstance>,
                      big: map<string, VertexInstance>, histories: seq<seq<nat>>, e0: nat, t: nat, hi: nat,
                      e: EdgeInstance)
    requires EdgesMade(p, edges, small, histories, e0, t, hi) && Extends(big, small)
    requires |edges| < |p.edges| && EdgeMade(p, |edges|, e, big, histories, e0 + |edges| + 1, t, hi)
    ensures EdgesMade(p, edges + [e], big, histories, e0, t, hi)
  {
    EdgesMadeExtends(p, edges, small, big, histories, e0, t, hi);
    var edges' := edges + [e];
    forall j | 0 <= j < |edges'|
      ensures EdgeMade(p, j, edges'[j], big, histories, e0 + j + 1, t, hi)
    {
      if j < |edges| {
        assert edges'[j] == edges[j];
      }
    }
  }

  // ----- From the bindings to the scheduled occurrence -----

  /** The edge instances copy their template edges' fields, are numbered on from e0
      in template order, and are created inside their offset windows from tick t. */
  ghost predicate EdgesFollowTemplate(p: Pattern, edges: seq<EdgeInstance>, e0: nat, t: nat) {
    && |edges| <= |p.edges|
    && forall j | 0 <= j < |edges| ::
         && edges[j].id == e0 + j + 1
         && edges[j].directed == p.edges[j].directed && edges[j].attributes == p.edges[j].attributes
         && edges[j].streamNum == p.edges[j].streamNum
         && t + p.edges[j].minOffset <= edges[j].creationTime <= t + p.edges[j].maxOffset
  }

  lemma EdgesMadeFollowTemplate(p: Pattern, edges: seq<EdgeInstance>, entries: map<string, VertexInstance>,
                                histories: seq<seq<nat>>, e0: nat, t: nat, hi: nat)
    requires EdgesMade(p, edges, entries, histories, e0, t, hi)
    ensures EdgesFollowTemplate(p, edges, e0, t)
  {
    forall j | 0 <= j < |edges|
      ensures edges[j].id == e0 + j + 1 && edges[j].streamNum == p.edges[j].streamNum
    {
      assert EdgeMade(p, j, edges[j], entries, histories, e0 + j + 1, t, hi);
    }
  }

  lemma ResolvedInOrder(history: seq<nat>, entries: map<string, VertexInstance>, order: seq<string>,
                        x: nat, s: nat, ct: nat)
    requires forall k | k in entries :: k in order
    requires forall k | k in order :: k in entries
    requires ResolvedIn(history, entries, x, s, ct)
    ensures EndpointResolved(history, EntriesInOrder(entries, order), x, s, ct)
  {
    if x !in history {
      var k :| k in entries && entries[k].id == x && s in entries[k].streamCreationTimes
        && entries[k].streamCreationTimes[s] <= ct;
      var i :| 0 <= i < |order| && order[i] == k;
      assert EntriesInOrder(entries, order)[i] == entries[k];
    }
  }

  /** A completed edge loop hands the scheduler an occurrence it can take: resolved,
      inside [t, hi], and with fresh distinct ids above n0 on the vertices it emits. */
  lemma OccurrenceReady(p: Pattern, entries: map<string, VertexInstance>, order: seq<string>,
                        edges: seq<EdgeInstance>, histories: seq<seq<nat>>,
                        n0: nat, n: nat, t: nat, hi: nat, e0: nat)
    requires PatternAccepted(p, |histories|)
    requires BindingsOk(p, entries, order, histories, n0, n, t, hi)
    requires EdgesMade(p, edges, entries, histories, e0, t, hi)
    ensures OccurrenceResolved(histories, EntriesInOrder(entries, order), edges)
    ensures OccurrenceNotBefore(EntriesInOrder(entries, order), edges, t)
    ensures OccurrenceNotAfter(EntriesInOrder(entries, order), edges, hi)
    ensures OccurrenceFreshIds(EntriesInOrder(entries, order), n0, n)
    ensures DistinctIds(EntriesInOrder(entries, order))
    ensures forall i, s | 0 <= i < |order| && s in EntriesInOrder(entries, order)[i].streamCreationTimes :: 1 <= s <= |histories|
  {
    var vs := EntriesInOrder(entries, order);
    forall j | 0 <= j < |edges|
      ensures 1 <= edges[j].streamNum <= |histories|
      ensures EndpointResolved(histories[edges[j].streamNum - 1], vs, edges[j].source, edges[j].streamNum, edges[j].creationTime)
      ensures EndpointResolved(histories[edges[j].streamNum - 1], vs, edges[j].target, edges[j].streamNum, edges[j].creationTime)
      ensures t <= edges[j].creationTime <= hi
    {
      var e := edges[j];
      assert EdgeMade(p, j, e, entries, histories, e0 + j + 1, t, hi);
      StreamInRange(p, |histories|, j);
      ResolvedInOrder(histories[e.streamNum - 1], entries, order, e.source, e.streamNum, e.creationTime);
      ResolvedInOrder(histories[e.streamNum - 1], entries, order, e.target, e.streamNum, e.creationTime);
    }
    VerticesReady(p, entries, order, histories, n0, n, t, hi);
  }

  /** No two instances of an occurrence share a vertex id. */
  ghost predicate DistinctIds(vertices: seq<VertexInstance>) {
    forall i, j | 0 <= i < j < |vertices| :: vertices[i].id != vertices[j].id
  }

  lemma VerticesReady(p: Pattern, entries: map<string, VertexInstance>, order: seq<string>,
                      histories: seq<seq<nat>>, n0: nat, n: nat, lo: nat, hi: nat)
    requires BindingsOk(p, entries, order, histories, n0, n, lo, hi)
    ensures forall i, s | 0 <= i < |order| && s in EntriesInOrder(entries, order)[i].streamCreationTimes ::
      1 <= s <= |histories| && lo <= EntriesInOrder(entries, order)[i].streamCreationTimes[s] <= hi
    ensures OccurrenceFreshIds(EntriesInOrder(entries, order), n0, n)
    ensures DistinctIds(EntriesInOrder(entries, order))
  {
    var vs := EntriesInOrder(entries, order);
    forall i | 0 <= i < |vs|
      ensures forall s | s in vs[i].streamCreationTimes :: 1 <= s <= |histories| && lo <= vs[i].streamCreationTimes[s] <= hi
      ensures vs[i].streamCreationTimes != map[] ==> n0 < vs[i].id <= n
    {
      assert BindingOk(p, order[i], entries[order[i]], histories, n0, n, lo, hi);
    }
    forall i, j | 0 <= i < j < |vs|
      ensures vs[i].id != vs[j].id
    {
      assert order[i] != order[j];
    }
  }
}
