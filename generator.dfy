/** The generation engine of gsg.py: the global state of one run as a class,
    occurrence instantiation, the old-vertex resolver, the per-stream
    schedules and the tick loop that flushes them. Each stream's lists and
    file live in one StreamFile object (streams.dfy).

    Randomness: `intDraw(k)` and `realDraw(k)` are the k-th values the
    random module would produce; `drawIndex` counts the draws made so far. */
module Generator {
  import opened Wrappers
  import opened Text
  import opened GsgClasses
  import opened Validation
  import opened Schedule
  import opened Output
  import opened Occurrence
  import opened Streams

  /** The run parameters gsg.py uses (numStreams, secondsPerUnitTime, duration, outputTimeFormat). */
  datatype Parameters = Parameters(numStreams: nat, secondsPerUnitTime: nat, duration: nat, outputTimeFormat: string)

  /** A pattern fires at a tick when its probability is at least the uniform draw. */
  predicate Fires(probability: real, draw: real) {
    probability >= draw
  }

  /** With draws in [0, 1], probability 1 always fires, probability 0 fires only on a
      draw of exactly 0, and a probability outside [0, 1] cannot reach the generator. */
  lemma FiringBounds(probability: real, draw: real)
    requires 0.0 <= draw <= 1.0
    ensures probability >= 1.0 ==> Fires(probability, draw)
    ensures probability == 0.0 ==> (Fires(probability, draw) <==> draw == 0.0)
    ensures probability < 0.0 ==> !Fires(probability, draw)
  {
  }

  /** The largest maxOffset of the given template edges (0 for none). */
  function MaxEdgeOffset(edges: seq<Edge>): (m: nat)
    ensures forall j | 0 <= j < |edges| :: edges[j].maxOffset <= m
    decreases |edges|
  {
    if edges == [] then 0
    else
      var rest := MaxEdgeOffset(edges[..|edges| - 1]);
      var last := edges[|edges| - 1].maxOffset;
      assert forall j | 0 <= j < |edges| - 1 :: edges[j] == edges[..|edges| - 1][j];
      if rest < last then last else rest
  }

  /** The largest maxOffset of any edge of any pattern: no occurrence fired at tick t
      emits anything after t + MaxOffset(patterns). */
  function MaxOffset(patterns: seq<Pattern>): (m: nat)
    ensures forall i, j | 0 <= i < |patterns| && 0 <= j < |patterns[i].edges| :: patterns[i].edges[j].maxOffset <= m
    decreases |patterns|
  {
    if patterns == [] then 0
    else
      var rest := MaxOffset(patterns[..|patterns| - 1]);
      var last := MaxEdgeOffset(patterns[|patterns| - 1].edges);
      assert forall i | 0 <= i < |patterns| - 1 :: patterns[i] == patterns[..|patterns| - 1][i];
      if rest < last then last else rest
  }

  /** The vertex lists of the streams, gStreamVertices. */
  ghost function HistoriesOf(streams: seq<StreamFile>): (r: seq<seq<nat>>)
    reads streams
    ensures |r| == |streams| && forall i | 0 <= i < |streams| :: r[i] == streams[i].vertices
    decreases |streams|
  {
    if streams == [] then []
    else HistoriesOf(streams[..|streams| - 1]) + [streams[|streams| - 1].vertices]
  }

  /** A completed occurrence of `pattern`: one edge per template edge, numbered on
      from `e0`, with the template's attributes and times in the drawn windows; its
      vertices resolved against the stream histories with fresh ids from `n0` on
      and no two sharing an id; and every stream number it names in range. */
  ghost predicate OccurrenceMade(pattern: Pattern, inst: PatternInstance, histories: seq<seq<nat>>,
                                 n0: nat, n1: nat, e0: nat, e1: nat, t: nat, hi: nat)
  {
    && inst.id == pattern.id && |inst.edges| == |pattern.edges|
    && EdgesFollowTemplate(pattern, inst.edges, e0, t)
    && e1 == e0 + |pattern.edges|
    && OccurrenceSchedulable(histories, inst.vertices, inst.edges, n0, n1, t, hi)
    && DistinctIds(inst.vertices)
    && (forall j | 0 <= j < |inst.edges| :: 1 <= inst.edges[j].streamNum <= |histories|)
    && (forall i, s | 0 <= i < |inst.vertices| && s in inst.vertices[i].streamCreationTimes :: 1 <= s <= |histories|)
  }

  /** An abandoned occurrence of `pattern`: it stopped at a template edge with an old
      endpoint, and the edge counter moved on by the edges made before it (e0 to e1). */
  ghost predicate OccurrenceAbandoned(pattern: Pattern, inst: PatternInstance, e0: nat, e1: nat) {
    && |inst.edges| < |pattern.edges| && OldEndpoint(pattern, |inst.edges|)
    && e1 == e0 + |inst.edges|
  }

  /** Every key of the binding order is bound in vertexInstancesDict. */
  predicate KeysKept(dict: map<string, VertexInstance>, order: seq<string>) {
    forall k | k in order :: k in dict
  }

  // ----- The generator -----

  class StreamGenerator {
    const numStreams: nat
    const secondsPerUnitTime: nat
    const outputTimeFormat: string
    const duration: nat
    const patterns: seq<Pattern>
    const intDraw: nat -> nat
    const realDraw: nat -> real
    /** gStreamFiles, each with its entries of gStreamVertices, gStreamSchedules and gStreamWrittenTo. */
    const streams: seq<StreamFile>

    var drawIndex: nat
    /** gNumVertices and gNumEdges: the last vertex and edge ids handed out. */
    var numVertices: nat
    var numEdges: nat
    /** The text written to the instances file after its opening bracket. */
    var instancesText: string
    /** gWroteAnInstance. */
    var wroteAnInstance: bool
    /** The tracked occurrences written to the instances file. */
    ghost var instanceRecords: seq<PatternInstance>

    ghost predicate Configured() {
      && outputTimeFormat != "datetime"
      && (forall i | 0 <= i < |patterns| :: PatternAccepted(patterns[i], numStreams))
      && |streams| == numStreams
      && (forall i, j | 0 <= i < j < |streams| :: streams[i] != streams[j])
      && (forall i | 0 <= i < |streams| ::
            streams[i].outputTimeFormat == outputTimeFormat && streams[i].secondsPerUnitTime == secondsPerUnitTime)
    }

    ghost predicate InstancesOk()
      reads this`instancesText, this`wroteAnInstance, this`instanceRecords
    {
      && instancesText == InstancesText(instanceRecords)
      && (wroteAnInstance <==> instanceRecords != [])
    }

    /** The state between two steps of the tick loop, at tick `now`. */
    ghost predicate Valid(now: nat)
      reads this`numVertices, this`instancesText, this`wroteAnInstance, this`instanceRecords, streams
    {
      && Configured()
      && StreamsOk(numVertices, now)
      && InstancesOk()
    }

    /** Every stream keeps the scheduler invariant with n vertex ids handed out. */
    ghost predicate StreamsOk(n: nat, now: nat)
      reads streams
    {
      forall s | 0 <= s < |streams| :: streams[s].Ok(n, now)
    }

    /** The tick by which every occurrence has been emitted. */
    function Horizon(): nat {
      duration + MaxOffset(patterns)
    }

    /** Every pending item is due before the horizon. */
    ghost predicate Bounded()
      reads streams
    {
      forall s | 0 <= s < |streams| :: Below(streams[s].schedule, Horizon())
    }

    /** The files are open and nothing has been written to them (OpenFiles). */
    ghost predicate Opened()
      reads this, streams
    {
      && Configured()
      && (forall s | 0 <= s < |streams| :: streams[s].Fresh())
      && instancesText == "" && instanceRecords == [] && !wroteAnInstance
    }

    /** Every stream has been drained: its file holds its records, every edge comes
        after its endpoints, and no vertex is written twice to it. */
    ghost predicate Finished()
      reads this, streams
    {
      && InstancesOk()
      && outputTimeFormat != "datetime"
      && forall s | 0 <= s < |streams| ::
           && streams[s].schedule == []
           && streams[s].vertices == VertexIds(streams[s].records)
           && WrittenCausal(streams[s].records)
           && AtMostOnce(multiset(VertexIds(streams[s].records)))
           && streams[s].text == StreamText(streams[s].records, outputTimeFormat, secondsPerUnitTime)
    }

    /** The parsed parameters and patterns, and OpenFiles. */
    constructor (params: Parameters, patterns: seq<Pattern>, intDraw: nat -> nat, realDraw: nat -> real)
      requires params.outputTimeFormat != "datetime"
      requires forall i | 0 <= i < |patterns| :: PatternAccepted(patterns[i], params.numStreams)
      ensures numStreams == params.numStreams && secondsPerUnitTime == params.secondsPerUnitTime
      ensures duration == params.duration && outputTimeFormat == params.outputTimeFormat
      ensures this.patterns == patterns && this.intDraw == intDraw && this.realDraw == realDraw
      ensures drawIndex == 0
      ensures Opened()
    {
      var files: seq<StreamFile> := [];
      for i := 0 to params.numStreams
        invariant |files| == i
        invariant forall a, b | 0 <= a < b < i :: files[a] != files[b]
        invariant forall a | 0 <= a < i :: fresh(files[a])
        invariant forall a | 0 <= a < i ::
          && files[a].outputTimeFormat == params.outputTimeFormat
          && files[a].secondsPerUnitTime == params.secondsPerUnitTime
          && files[a].Fresh()
      {
        var f := new StreamFile(params.outputTimeFormat, params.secondsPerUnitTime);
        files := files + [f];
      }
      numStreams := params.numStreams;
      secondsPerUnitTime := params.secondsPerUnitTime;
      outputTimeFormat := params.outputTimeFormat;
      duration := params.duration;
      this.patterns := patterns;
      this.intDraw := intDraw;
      this.realDraw := realDraw;
      streams := files;
      drawIndex := 0;
      numVertices := 0;
      numEdges := 0;
      instancesText := "";
      wroteAnInstance := false;
      instanceRecords := [];
    }

    // ----- Draws -----

    /** random.randint(lo, hi) with the k-th integer draw. */
    function RandIntAt(lo: int, hi: int, k: nat): (r: int)
      requires lo <= hi
      ensures lo <= r <= hi
    {
      lo + intDraw(k) % (hi - lo + 1)
    }

    method RandInt(lo: int, hi: int) returns (r: int)
      requires lo <= hi
      modifies this`drawIndex
      ensures r == RandIntAt(lo, hi, old(drawIndex)) && drawIndex == old(drawIndex) + 1
    {
      r := RandIntAt(lo, hi, drawIndex);
      drawIndex := drawIndex + 1;
    }

    /** random.uniform(0, 1). */
    method Uniform() returns (u: real)
      modifies this`drawIndex
      ensures u == realDraw(old(drawIndex)) && drawIndex == old(drawIndex) + 1
    {
      u := realDraw(drawIndex);
      drawIndex := drawIndex + 1;
    }

    // ----- The old-vertex resolver -----

    /** A vertex already written to stream `streamNum` whose id is not in
        `usedVertexIds`, probing with wrap-around from a random index; 0 when
        there is none (ProbeSpec states what that probe returns). The random
        index is drawn only when the stream has vertices. `tries` counts the
        probes made: at most one per vertex of the stream, every one before the
        last finding an excluded id. */
    method GetRandomVertexIdOnStream(streamNum: nat, usedVertexIds: seq<nat>) returns (id: nat, ghost tries: nat)
      requires 1 <= streamNum <= |streams|
      modifies this`drawIndex
      ensures var h := old(streams[streamNum - 1].vertices);
        && drawIndex == old(drawIndex) + (if |h| > 0 then 1 else 0)
        && id == (if |h| == 0 then 0 else Probe(h, usedVertexIds, RandIntAt(0, |h| - 1, old(drawIndex)), 0))
      ensures var h := old(streams[streamNum - 1].vertices);
        && (|h| == 0 ==> tries == 0)
        && (|h| > 0 ==> 1 <= tries <= |h|)
      ensures var h := old(streams[streamNum - 1].vertices);
        |h| > 0 ==>
          var start := RandIntAt(0, |h| - 1, old(drawIndex));
          && (forall k | 0 <= k < tries - 1 :: ProbeSlot(h, start, k) in usedVertexIds)
          && (tries < |h| || id != 0 ==> id == ProbeSlot(h, start, tries - 1) && id !in usedVertexIds)
    {
      var streamVertices := streams[streamNum - 1].vertices;
      var numStreamVertices := |streamVertices|;
      if numStreamVertices == 0 {
        return 0, 0;
      }
      var start := RandInt(0, numStreamVertices - 1);
      var randomVertexIndex := start;
      var numTries := 0;
      while numTries < numStreamVertices
        invariant 0 <= numTries <= numStreamVertices
        invariant randomVertexIndex
          == if start + numTries < numStreamVertices then start + numTries else start + numTries - numStreamVertices
        invariant Probe(streamVertices, usedVertexIds, start, 0) == Probe(streamVertices, usedVertexIds, start, numTries)
        invariant forall k | 0 <= k < numTries :: ProbeSlot(streamVertices, start, k) in usedVertexIds
        invariant drawIndex == old(drawIndex) + 1
        decreases numStreamVertices - numTries
      {
        ProbeSlotAt(streamVertices, start, numTries);
        var randomVertexId := streamVertices[randomVertexIndex];
        if randomVertexId !in usedVertexIds {
          assert Probe(streamVertices, usedVertexIds, start, numTries) == randomVertexId;
          return randomVertexId, numTries + 1;
        }
        randomVertexIndex := randomVertexIndex + 1;
        if randomVertexIndex == numStreamVertices {
          randomVertexIndex := 0;
        }
        numTries := numTries + 1;
      }
      return 0, numStreamVertices;
    }

    // ----- Occurrence instantiation -----

    /** The instance of template vertex `vertex` for an edge on stream `streamNum`
        created at `creationTime`, and the dict with it bound (BindEntry; BindStep
        states what that keeps). A bound vertex keeps its instance, and a bound new
        vertex moves its emission time on the stream to the earlier one. An unbound
        new vertex gets the next vertex id and is emitted at `creationTime`; an
        unbound old vertex takes an unused vertex of the stream, or 0 when there is
        none, and is emitted nowhere. */
    method GetVertexInstanceId(vertex: Vertex, streamNum: nat, creationTime: nat,
                               dict: map<string, VertexInstance>, order: seq<string>, ghost histories: seq<seq<nat>>)
      returns (id: nat, dict': map<string, VertexInstance>, order': seq<string>)
      requires 1 <= streamNum <= |streams| && streamNum <= |histories|
      requires histories[streamNum - 1] == streams[streamNum - 1].vertices
      requires KeysKept(dict, order)
      modifies this`numVertices, this`drawIndex
      ensures dict' == BindEntry(dict, vertex, streamNum, creationTime, id)
      ensures order' == (if vertex.id in dict then order else order + [vertex.id]) && KeysKept(dict', order')
      ensures BindResult(dict, order, histories, vertex, streamNum, old(numVertices), id, numVertices)
      ensures var h := histories[streamNum - 1];
        && (vertex.id !in dict && !vertex.isNew && |h| > 0 ==>
              && id == Probe(h, IdsInOrder(dict, order), RandIntAt(0, |h| - 1, old(drawIndex)), 0)
              && drawIndex == old(drawIndex) + 1)
        && (vertex.id !in dict && !vertex.isNew && |h| == 0 ==> id == 0 && drawIndex == old(drawIndex))
        && (vertex.id in dict || vertex.isNew ==> drawIndex == old(drawIndex))
    {
      var vertexInstance: VertexInstance;
      if vertex.id in dict {
        vertexInstance := dict[vertex.id];
        if vertex.isNew {
          var streamCreationTimes := vertexInstance.streamCreationTimes;
          if streamNum in streamCreationTimes {
            if creationTime < streamCreationTimes[streamNum] {
              streamCreationTimes := streamCreationTimes[streamNum := creationTime];
            }
          } else {
            streamCreationTimes := streamCreationTimes[streamNum := creationTime];
          }
          vertexInstance := vertexInstance.(streamCreationTimes := streamCreationTimes);
          dict' := dict[vertex.id := vertexInstance];
        } else {
          dict' := dict;
        }
        order' := order;
      } else {
        vertexInstance := VertexInstance(0, vertex.attributes, map[]);
        if vertex.isNew {
          numVertices := numVertices + 1;
          vertexInstance := vertexInstance.(id := numVertices, streamCreationTimes := map[streamNum := creationTime]);
        } else {
          var usedVertexIds := IdsInOrder(dict, order);
          ghost var draw := drawIndex;
          var randomId, tries := GetRandomVertexIdOnStream(streamNum, usedVertexIds);
          vertexInstance := vertexInstance.(id := randomId);
          ghost var h := histories[streamNum - 1];
          ProbeBindResult(dict, order, histories, vertex, streamNum, numVertices,
                          if |h| > 0 then RandIntAt(0, |h| - 1, draw) else 0, randomId);
        }
        dict' := dict[vertex.id := vertexInstance];
        order' := order + [vertex.id];
      }
      id := vertexInstance.id;
    }

    /** One turn of AddPatternInstance's loop over the template edges: draw the
        creation time, bind the source and then the target (both calls are made
        even when the source gets 0) and, when both are non-zero, number the edge.
        `ok` is false when the occurrence has to be abandoned. The ghost results
        are the bindings between the two calls. */
    method InstantiateEdge(pattern: Pattern, j: nat, timeUnit: nat, dict: map<string, VertexInstance>, order: seq<string>,
                           ghost histories: seq<seq<nat>>)
      returns (ok: bool, dict': map<string, VertexInstance>, order': seq<string>, e: EdgeInstance,
               ghost dict1: map<string, VertexInstance>, ghost order1: seq<string>, ghost n1: nat)
      requires j < |pattern.edges| && 1 <= pattern.edges[j].streamNum <= |streams|
      requires |histories| == |streams| && forall s | 0 <= s < |streams| :: histories[s] == streams[s].vertices
      requires 0 <= pattern.edges[j].minOffset <= pattern.edges[j].maxOffset
      requires GetVertexById(pattern.edges[j].source, pattern.vertices).Some?
      requires GetVertexById(pattern.edges[j].target, pattern.vertices).Some?
      requires KeysKept(dict, order)
      modifies this`drawIndex, this`numVertices, this`numEdges
      ensures KeysKept(dict', order')
      ensures var edge := pattern.edges[j];
        var sv := GetVertexById(edge.source, pattern.vertices).value;
        var tv := GetVertexById(edge.target, pattern.vertices).value;
        && e.directed == edge.directed && e.attributes == edge.attributes && e.streamNum == edge.streamNum
        && timeUnit + edge.minOffset <= e.creationTime <= timeUnit + edge.maxOffset
        && dict1 == BindEntry(dict, sv, e.streamNum, e.creationTime, e.source)
        && order1 == (if sv.id in dict then order else order + [sv.id])
        && BindResult(dict, order, histories, sv, e.streamNum, old(numVertices), e.source, n1)
        && dict' == BindEntry(dict1, tv, e.streamNum, e.creationTime, e.target)
        && order' == (if tv.id in dict1 then order1 else order1 + [tv.id])
        && BindResult(dict1, order1, histories, tv, e.streamNum, n1, e.target, numVertices)
      ensures ok <==> e.source != 0 && e.target != 0
      ensures numEdges == old(numEdges) + (if ok then 1 else 0) && (ok ==> e.id == numEdges)
      ensures old(numVertices) <= numVertices
    {
      var edge := pattern.edges[j];
      var streamNum: nat := edge.streamNum as nat;
      assert histories[streamNum - 1] == streams[streamNum - 1].vertices;
      var offset := RandInt(edge.minOffset, edge.maxOffset);
      var creationTime: nat := timeUnit + offset;
      var sourceVertex := GetVertexById(edge.source, pattern.vertices).value;
      var source, sourceDict, sourceOrder := GetVertexInstanceId(sourceVertex, streamNum, creationTime, dict, order, histories);
      dict1, order1, n1 := sourceDict, sourceOrder, numVertices;
      var targetVertex := GetVertexById(edge.target, pattern.vertices).value;
      var target;
      target, dict', order' := GetVertexInstanceId(targetVertex, streamNum, creationTime, sourceDict, sourceOrder, histories);
      if source == 0 || target == 0 {
        ok := false;
        e := EdgeInstance(0, source, target, edge.directed, edge.attributes, streamNum, creationTime);
      } else {
        numEdges := numEdges + 1;
        e := EdgeInstance(numEdges, source, target, edge.directed, edge.attributes, streamNum, creationTime);
        ok := true;
      }
    }

    /** One turn of the edge loop with its invariant: after the j-th edge is made the
        bindings and edges so far are consistent with one more edge; when it is not
        made, only the counters and the draws have moved. */
    method NextEdge(pattern: Pattern, j: nat, timeUnit: nat, dict: map<string, VertexInstance>, order: seq<string>,
                    ghost edges: seq<EdgeInstance>, ghost histories: seq<seq<nat>>, ghost n0: nat, ghost e0: nat, ghost hi: nat)
      returns (ok: bool, dict': map<string, VertexInstance>, order': seq<string>, e: EdgeInstance)
      requires PatternAccepted(pattern, |streams|)
      requires |histories| == |streams| && forall s | 0 <= s < |streams| :: histories[s] == streams[s].vertices
      requires HistoriesUpTo(histories, n0)
      requires forall j | 0 <= j < |pattern.edges| :: timeUnit + pattern.edges[j].maxOffset <= hi
      requires j == |edges| < |pattern.edges| && numEdges == e0 + j
      requires KeysKept(dict, order)
      requires BindingsOk(pattern, dict, order, histories, n0, numVertices, timeUnit, hi)
      requires EdgesMade(pattern, edges, dict, histories, e0, timeUnit, hi)
      modifies this`drawIndex, this`numVertices, this`numEdges
      ensures old(numVertices) <= numVertices
      ensures ok ==>
        && KeysKept(dict', order')
        && BindingsOk(pattern, dict', order', histories, n0, numVertices, timeUnit, hi)
        && EdgesMade(pattern, edges + [e], dict', histories, e0, timeUnit, hi)
        && numEdges == e0 + j + 1
      ensures !ok ==> numEdges == e0 + j
      ensures var edge := pattern.edges[j];
        && e.streamNum == edge.streamNum && timeUnit + edge.minOffset <= e.creationTime <= timeUnit + edge.maxOffset
        && (ok <==> !EdgeBlocked(dict, order, histories, GetVertexById(edge.source, pattern.vertices).value,
                                 GetVertexById(edge.target, pattern.vertices).value, e.streamNum, e.creationTime, e.source))
      ensures !ok ==> AbandonedAt(pattern, j, dict, order, histories, n0, timeUnit)
    {
      StreamInRange(pattern, |streams|, j);
      ghost var n := numVertices;
      ghost var dict1, order1, n1;
      ok, dict', order', e, dict1, order1, n1 := InstantiateEdge(pattern, j, timeUnit, dict, order, histories);
      ghost var sv := GetVertexById(pattern.edges[j].source, pattern.vertices).value;
      ghost var tv := GetVertexById(pattern.edges[j].target, pattern.vertices).value;
      EdgeBlockedIff(pattern, histories, n0, timeUnit, hi, dict, order, n, sv, tv, e.streamNum, e.creationTime,
                     e.source, n1, e.target, numVertices);
      if ok {
        assert e.creationTime <= hi;
        EdgeLoopStep(pattern, histories, n0, timeUnit, hi, e0, edges, e.creationTime, e.streamNum, sv, tv,
                     dict, order, n, e.source, dict1, order1, n1, e.target, dict', order', numVertices);
        assert e == EdgeInstance(e0 + |edges| + 1, e.source, e.target, pattern.edges[|edges|].directed,
                                 pattern.edges[|edges|].attributes, e.streamNum, e.creationTime);
      } else {
        assert BlockedAt(pattern, j, dict, order, histories, n0, e.creationTime, n, e.source, n1);
      }
    }

    /** AddPatternInstance's loop over the template edges, in order, stopping at the
        first edge with an endpoint bound to 0, which is an edge blocked by an old
        endpoint with no unbound vertex left on its stream. `created` says whether
        every edge was made; the bindings and edges returned are those of the edges made,
        numbered on from the edge counter, with the histories read when the
        occurrence started and emission times inside [timeUnit, hi]. */
    method InstantiateEdges(pattern: Pattern, timeUnit: nat, ghost histories: seq<seq<nat>>, ghost hi: nat)
      returns (created: bool, dict: map<string, VertexInstance>, order: seq<string>, edges: seq<EdgeInstance>)
      requires PatternAccepted(pattern, |streams|)
      requires |histories| == |streams| && forall s | 0 <= s < |streams| :: histories[s] == streams[s].vertices
      requires HistoriesUpTo(histories, numVertices)
      requires forall j | 0 <= j < |pattern.edges| :: timeUnit + pattern.edges[j].maxOffset <= hi
      modifies this`drawIndex, this`numVertices, this`numEdges
      ensures KeysKept(dict, order)
      ensures BindingsOk(pattern, dict, order, histories, old(numVertices), numVertices, timeUnit, hi)
      ensures EdgesMade(pattern, edges, dict, histories, old(numEdges), timeUnit, hi)
      ensures created <==> |edges| == |pattern.edges|
      ensures !created ==> AbandonedAt(pattern, |edges|, dict, order, histories, old(numVertices), timeUnit)
      ensures numEdges == old(numEdges) + |edges|
    {
      ghost var n0 := numVertices;
      ghost var e0 := numEdges;
      dict, order, edges := map[], [], [];
      created := true;
      var j := 0;
      while j < |pattern.edges|
        invariant j == |edges| <= |pattern.edges|
        invariant numEdges == e0 + j
        invariant KeysKept(dict, order)
        invariant BindingsOk(pattern, dict, order, histories, n0, numVertices, timeUnit, hi)
        invariant EdgesMade(pattern, edges, dict, histories, e0, timeUnit, hi)
        decreases |pattern.edges| - j
      {
        ghost var n := numVertices;
        var ok, dict', order', e := NextEdge(pattern, j, timeUnit, dict, order, edges, histories, n0, e0, hi);
        if !ok {
          BindingsOkWider(pattern, dict, order, histories, n0, n, numVertices, timeUnit, hi);
          created := false;
          break;
        }
        dict, order, edges := dict', order', edges + [e];
        j := j + 1;
      }
    }

    /** A configured pattern fired before the duration ends names only existing
        streams and emits nothing at or after the horizon. */
    lemma PatternReady(pattern: Pattern, timeUnit: nat)
      requires Configured() && pattern in patterns && timeUnit < duration
      ensures PatternAccepted(pattern, |streams|)
      ensures forall j | 0 <= j < |pattern.edges| :: timeUnit + pattern.edges[j].maxOffset <= Horizon() - 1
    {
      var pi :| 0 <= pi < |patterns| && patterns[pi] == pattern;
    }

    /** The streams' vertex lists; every id in them is an id handed out already. */
    lemma Histories(now: nat) returns (histories: seq<seq<nat>>)
      requires StreamsOk(numVertices, now)
      ensures |histories| == |streams| && forall s | 0 <= s < |streams| :: histories[s] == streams[s].vertices
      ensures HistoriesUpTo(histories, numVertices)
    {
      histories := HistoriesOf(streams);
      forall s, k | 0 <= s < |histories| && 0 <= k < |histories[s]|
        ensures 1 <= histories[s][k] <= numVertices
      {
        assert streams[s].Ok(numVertices, now);
        HistoryIdsBounded(streams[s].vertices, streams[s].schedule, streams[s].records, streams[s].writtenTo,
                          numVertices, now, histories[s][k]);
      }
    }

    /** AddPatternInstance: every template edge is instantiated in order; when an
        endpoint cannot be bound the occurrence is abandoned and nothing is written
        or scheduled (the counters and draws keep what the attempt used). Otherwise
        the occurrence, with its vertices in binding order and its edges in template
        order, is written to the instances file when the pattern is tracked and then
        scheduled. */
    method AddPatternInstance(pattern: Pattern, timeUnit: nat)
      returns (ghost created: bool, ghost inst: PatternInstance, ghost histories: seq<seq<nat>>)
      requires Valid(timeUnit) && Bounded() && pattern in patterns && timeUnit < duration
      modifies this`drawIndex, this`numVertices, this`numEdges, this`instancesText, this`wroteAnInstance,
               this`instanceRecords, streams`schedule
      ensures Valid(timeUnit) && Bounded()
      ensures old(numVertices) <= numVertices
      ensures |histories| == |streams| && forall s | 0 <= s < |streams| :: histories[s] == streams[s].vertices
      ensures created ==>
        OccurrenceMade(pattern, inst, histories, old(numVertices), numVertices,
                       old(numEdges), numEdges, timeUnit, Horizon() - 1)
      ensures !created ==> OccurrenceAbandoned(pattern, inst, old(numEdges), numEdges)
      ensures created ==> forall s | 0 <= s < |streams| ::
        streams[s].schedule == old(streams[s].schedule) + OccurrenceItems(inst.vertices, inst.edges, s + 1)
      ensures !created ==> forall s | 0 <= s < |streams| :: streams[s].schedule == old(streams[s].schedule)
      ensures instanceRecords == old(instanceRecords) + if created && pattern.track then [inst] else []
    {
      ghost var n0, e0 := numVertices, numEdges;
      var patternCreated, patternInstance;
      patternCreated, patternInstance, histories := InstantiatePattern(pattern, timeUnit);
      label made:
      created, inst := patternCreated, patternInstance;
      RecordOccurrence(pattern, patternCreated, patternInstance, timeUnit, histories, n0, e0);
      forall s | 0 <= s < |streams|
        ensures old@made(streams[s].schedule) == old(streams[s].schedule)
      {
      }
    }

    /** The second part of AddPatternInstance: a made occurrence is written to the
        instances file when its pattern is tracked, and then scheduled; an abandoned
        one changes nothing. */
    method RecordOccurrence(pattern: Pattern, created: bool, inst: PatternInstance, timeUnit: nat,
                            ghost histories: seq<seq<nat>>, ghost n0: nat, ghost e0: nat)
      requires forall a, b | 0 <= a < b < |streams| :: streams[a] != streams[b]
      requires timeUnit < duration && n0 <= numVertices
      requires |histories| == |streams| && forall s | 0 <= s < |streams| :: histories[s] == streams[s].vertices
      requires StreamsOk(n0, timeUnit) && Bounded() && InstancesOk()
      requires created ==> OccurrenceMade(pattern, inst, histories, n0, numVertices, e0, numEdges, timeUnit, Horizon() - 1)
      modifies this`instancesText, this`wroteAnInstance, this`instanceRecords, streams`schedule
      ensures created ==> forall s | 0 <= s < |streams| ::
        streams[s].schedule == old(streams[s].schedule) + OccurrenceItems(inst.vertices, inst.edges, s + 1)
      ensures !created ==> forall s | 0 <= s < |streams| :: streams[s].schedule == old(streams[s].schedule)
      ensures StreamsOk(numVertices, timeUnit) && Bounded() && InstancesOk()
      ensures instanceRecords == old(instanceRecords) + if created && pattern.track then [inst] else []
    {
      if !created {
        StreamsWider(n0, timeUnit);
      } else if pattern.track {
        assert Schedulable(inst, timeUnit, histories, n0);
        WriteAndScheduleOccurrence(inst, timeUnit, histories, n0);
      } else {
        assert Schedulable(inst, timeUnit, histories, n0);
        ScheduleOccurrence(inst, timeUnit, histories, n0);
      }
    }

    method WriteAndScheduleOccurrence(inst: PatternInstance, timeUnit: nat, ghost histories: seq<seq<nat>>, ghost n0: nat)
      requires Schedulable(inst, timeUnit, histories, n0) && InstancesOk()
      modifies this`instancesText, this`wroteAnInstance, this`instanceRecords, streams`schedule
      ensures forall s | 0 <= s < |streams| ::
        streams[s].schedule == old(streams[s].schedule) + OccurrenceItems(inst.vertices, inst.edges, s + 1)
      ensures StreamsOk(numVertices, timeUnit) && Bounded() && InstancesOk()
      ensures instanceRecords == old(instanceRecords) + [inst]
    {
      WritePatternInstance(inst);
      ScheduleOccurrence(inst, timeUnit, histories, n0);
    }

    /** The first part of AddPatternInstance: the edge loop and, when every edge was
        made, the occurrence with its vertices in binding order. */
    method InstantiatePattern(pattern: Pattern, timeUnit: nat)
      returns (created: bool, inst: PatternInstance, ghost histories: seq<seq<nat>>)
      requires Valid(timeUnit) && pattern in patterns && timeUnit < duration
      modifies this`drawIndex, this`numVertices, this`numEdges
      ensures old(numVertices) <= numVertices
      ensures |histories| == |streams| && forall s | 0 <= s < |streams| :: histories[s] == streams[s].vertices
      ensures created ==>
        OccurrenceMade(pattern, inst, histories, old(numVertices), numVertices, old(numEdges), numEdges,
                       timeUnit, Horizon() - 1)
      ensures !created ==> OccurrenceAbandoned(pattern, inst, old(numEdges), numEdges)
    {
      ghost var n0 := numVertices;
      ghost var e0 := numEdges;
      ghost var hi := Horizon() - 1;
      histories := Histories(timeUnit);
      PatternReady(pattern, timeUnit);
      var dict, vertexOrder, edgeInstances;
      created, dict, vertexOrder, edgeInstances := InstantiateEdges(pattern, timeUnit, histories, hi);
      inst := PatternInstance(pattern.id, EntriesInOrder(dict, vertexOrder), edgeInstances);
      if created {
        OccurrenceReady(pattern, dict, vertexOrder, edgeInstances, histories, n0, numVertices, timeUnit, hi, e0);
        EdgesMadeFollowTemplate(pattern, edgeInstances, dict, histories, e0, timeUnit, hi);
      } else {
        AbandonedOldEndpoint(pattern, |edgeInstances|, dict, vertexOrder, histories, n0, timeUnit);
      }
    }

    /** The abandoned occurrence's vertex ids are never used: each stream keeps its
        invariant with the advanced counter. */
    lemma StreamsWider(n0: nat, now: nat)
      requires n0 <= numVertices && StreamsOk(n0, now)
      ensures StreamsOk(numVertices, now)
    {
      forall s | 0 <= s < |streams|
        ensures streams[s].Ok(numVertices, now)
      {
        StreamInvariantWider(streams[s].vertices, streams[s].schedule, streams[s].records, streams[s].writtenTo,
                             n0, numVertices, now);
      }
    }

    /** What scheduling a made occurrence needs: the streams as they were when it
        was made (their vertex lists are `histories`, their invariant holds for the
        ids below `n0`), and the occurrence resolved against them. */
    ghost predicate Schedulable(inst: PatternInstance, timeUnit: nat, histories: seq<seq<nat>>, n0: nat)
      reads this`numVertices, streams
    {
      && (forall a, b | 0 <= a < b < |streams| :: streams[a] != streams[b])
      && timeUnit < duration && n0 <= numVertices
      && |histories| == |streams| && (forall s | 0 <= s < |streams| :: histories[s] == streams[s].vertices)
      && StreamsOk(n0, timeUnit) && Bounded()
      && OccurrenceSchedulable(histories, inst.vertices, inst.edges, n0, numVertices, timeUnit, Horizon() - 1)
      && (forall j | 0 <= j < |inst.edges| :: 1 <= inst.edges[j].streamNum <= |streams|)
      && (forall i, s | 0 <= i < |inst.vertices| && s in inst.vertices[i].streamCreationTimes :: 1 <= s <= |streams|)
    }

    /** SchedulePatternInstance for an occurrence AddPatternInstance has completed:
        every stream keeps its invariant with the new vertex counter and every
        pending item stays before the horizon. */
    method ScheduleOccurrence(inst: PatternInstance, timeUnit: nat, ghost histories: seq<seq<nat>>, ghost n0: nat)
      requires forall a, b | 0 <= a < b < |streams| :: streams[a] != streams[b]
      requires timeUnit < duration && n0 <= numVertices
      requires |histories| == |streams| && forall s | 0 <= s < |streams| :: histories[s] == streams[s].vertices
      requires StreamsOk(n0, timeUnit) && Bounded()
      requires OccurrenceSchedulable(histories, inst.vertices, inst.edges, n0, numVertices, timeUnit, Horizon() - 1)
      requires forall j | 0 <= j < |inst.edges| :: 1 <= inst.edges[j].streamNum <= |streams|
      requires forall i, s | 0 <= i < |inst.vertices| && s in inst.vertices[i].streamCreationTimes :: 1 <= s <= |streams|
      modifies streams`schedule
      ensures forall s | 0 <= s < |streams| ::
        streams[s].schedule == old(streams[s].schedule) + OccurrenceItems(inst.vertices, inst.edges, s + 1)
      ensures StreamsOk(numVertices, timeUnit) && Bounded()
    {
      forall s | 0 <= s < |streams|
        ensures streams[s].OkWith(streams[s].schedule + OccurrenceItems(inst.vertices, inst.edges, s + 1), numVertices, timeUnit)
        ensures Below(streams[s].schedule + OccurrenceItems(inst.vertices, inst.edges, s + 1), Horizon())
      {
        var f := streams[s];
        assert f.Ok(n0, timeUnit);
        ScheduledStreamOk(histories, s + 1, f.vertices, f.schedule, f.records, f.writtenTo, f.text,
                          f.outputTimeFormat, f.secondsPerUnitTime, n0, numVertices, timeUnit, Horizon(),
                          inst.vertices, inst.edges);
      }
      SchedulePatternInstance(inst);
    }

    /** SchedulePatternInstance: each vertex is appended to the schedule of every
        stream it has an emission time on, then each edge to its stream's schedule. */
    method SchedulePatternInstance(inst: PatternInstance)
      requires forall i, s | 0 <= i < |inst.vertices| && s in inst.vertices[i].streamCreationTimes :: 1 <= s <= |streams|
      requires forall j | 0 <= j < |inst.edges| :: 1 <= inst.edges[j].streamNum <= |streams|
      requires forall a, b | 0 <= a < b < |streams| :: streams[a] != streams[b]
      modifies streams`schedule
      ensures forall s | 0 <= s < |streams| ::
        streams[s].schedule == old(streams[s].schedule) + OccurrenceItems(inst.vertices, inst.edges, s + 1)
    {
      ScheduleVertices(inst.vertices);
      ScheduleEdges(inst.edges);
    }

    /** The loop of SchedulePatternInstance over the occurrence's vertices. */
    method ScheduleVertices(vertices: seq<VertexInstance>)
      requires forall i, s | 0 <= i < |vertices| && s in vertices[i].streamCreationTimes :: 1 <= s <= |streams|
      requires forall a, b | 0 <= a < b < |streams| :: streams[a] != streams[b]
      modifies streams`schedule
      ensures forall s | 0 <= s < |streams| :: streams[s].schedule == old(streams[s].schedule) + VertexItemsOn(vertices, s + 1)
    {
      for i := 0 to |vertices|
        invariant forall s | 0 <= s < |streams| ::
          streams[s].schedule == old(streams[s].schedule) + VertexItemsOn(vertices[..i], s + 1)
      {
        ScheduleVertex(vertices[i]);
        assert vertices[..i + 1][..i] == vertices[..i];
      }
      assert vertices[..|vertices|] == vertices;
    }

    /** The loop of SchedulePatternInstance over the occurrence's edges. */
    method ScheduleEdges(edges: seq<EdgeInstance>)
      requires forall j | 0 <= j < |edges| :: 1 <= edges[j].streamNum <= |streams|
      requires forall a, b | 0 <= a < b < |streams| :: streams[a] != streams[b]
      modifies streams`schedule
      ensures forall s | 0 <= s < |streams| :: streams[s].schedule == old(streams[s].schedule) + EdgeItemsOn(edges, s + 1)
    {
      for j := 0 to |edges|
        invariant forall s | 0 <= s < |streams| ::
          streams[s].schedule == old(streams[s].schedule) + EdgeItemsOn(edges[..j], s + 1)
      {
        var edgeInstance := edges[j];
        streams[edgeInstance.streamNum - 1].Enqueue(EdgeItem(edgeInstance));
        assert edges[..j + 1][..j] == edges[..j];
      }
      assert edges[..|edges|] == edges;
    }

    /** The inner loop of SchedulePatternInstance over one vertex's streams. */
    method ScheduleVertex(v: VertexInstance)
      requires forall s | s in v.streamCreationTimes :: 1 <= s <= |streams|
      requires forall a, b | 0 <= a < b < |streams| :: streams[a] != streams[b]
      modifies streams`schedule
      ensures forall s | 0 <= s < |streams| ::
        streams[s].schedule == old(streams[s].schedule)
          + if s + 1 in v.streamCreationTimes then [VertexItem(v.id, v.attributes, v.streamCreationTimes[s + 1])] else []
    {
      var keys := v.streamCreationTimes.Keys;
      while keys != {}
        invariant keys <= v.streamCreationTimes.Keys
        invariant forall s | 0 <= s < |streams| ::
          streams[s].schedule == old(streams[s].schedule)
            + if s + 1 in v.streamCreationTimes && s + 1 !in keys
              then [VertexItem(v.id, v.attributes, v.streamCreationTimes[s + 1])] else []
        decreases keys
      {
        var streamNum :| streamNum in keys;
        streams[streamNum - 1].Enqueue(VertexItem(v.id, v.attributes, v.streamCreationTimes[streamNum]));
        keys := keys - {streamNum};
      }
    }

    /** The quoted ids separated by ", ", as WritePatternInstance's loops write them. */
    method IdListText(ids: seq<nat>) returns (text: string)
      ensures text == Join(QuotedIds(ids), ", ")
    {
      text := "";
      var firstTime := true;
      for i := 0 to |ids|
        invariant firstTime <==> i == 0
        invariant text == Join(QuotedIds(ids[..i]), ", ")
      {
        JoinSnoc(QuotedIds(ids[..i]), QuotedId(ids[i]), ", ");
        assert QuotedIds(ids[..i + 1]) == QuotedIds(ids[..i]) + [QuotedId(ids[i])];
        if firstTime {
          firstTime := false;
        } else {
          text := text + ", ";
        }
        text := text + QuotedId(ids[i]);
      }
      assert ids[..|ids|] == ids;
    }

    /** WritePatternInstance: the occurrence's record, after ",\n" unless it is the
        first, appended to the instances file. */
    method WritePatternInstance(inst: PatternInstance)
      requires InstancesOk()
      modifies this`instancesText, this`wroteAnInstance, this`instanceRecords
      ensures instanceRecords == old(instanceRecords) + [inst]
      ensures InstancesOk()
    {
      InstancesTextSnoc(instanceRecords, inst);
      if wroteAnInstance {
        instancesText := instancesText + ",\n";
      } else {
        wroteAnInstance := true;
      }
      var vertexIdsText := IdListText(InstanceVertexIds(inst));
      var edgeIdsText := IdListText(InstanceEdgeIds(inst));
      var record := "  {\"patternId\": \"" + inst.id + "\",\n"
        + "   \"vertexIds\": [" + vertexIdsText + "],\n"
        + "   \"edgeIds\": [" + edgeIdsText + "]\n  }";
      assert record == InstanceText(inst);
      instancesText := instancesText + record;
      instanceRecords := instanceRecords + [inst];
    }

    // ----- The tick loop -----

    /** SchedulesEmpty: no stream has a pending item. */
    method SchedulesEmpty() returns (empty: bool)
      ensures empty <==> forall s | 0 <= s < |streams| :: streams[s].schedule == []
    {
      for i := 0 to |streams|
        invariant forall s | 0 <= s < i :: streams[s].schedule == []
      {
        if streams[i].schedule != [] {
          return false;
        }
      }
      return true;
    }

    /** Stream `f` before its turn in ProcessStreamSchedules at tick `t`. */
    ghost predicate Unprocessed(f: StreamFile, sched0: seq<Item>, rec0: seq<Item>, vert0: seq<nat>, n: nat, t: nat)
      reads f
    {
      && f.schedule == sched0 && f.records == rec0 && f.vertices == vert0
      && f.Ok(n, t) && Below(f.schedule, Horizon())
    }

    /** Stream `f` after its turn: what was due at `t` is written, in schedule order,
        and the rest is pending. */
    ghost predicate Processed(f: StreamFile, sched0: seq<Item>, rec0: seq<Item>, vert0: seq<nat>, n: nat, t: nat)
      reads f
    {
      && f.schedule == Kept(sched0, t)
      && f.records == rec0 + Due(sched0, t)
      && f.vertices == vert0 + VertexIds(Due(sched0, t))
      && f.Ok(n, t + 1) && Below(f.schedule, Horizon())
    }

    /** ProcessStreamSchedules: stream by stream, the items due at `timeUnit` are
        written in schedule order and the rest stay pending; every stream keeps its
        invariant for the next tick. */
    method ProcessStreamSchedules(timeUnit: nat)
      requires Valid(timeUnit) && Bounded()
      modifies streams`text, streams`writtenTo, streams`records, streams`vertices, streams`schedule
      ensures Valid(timeUnit + 1) && Bounded()
      ensures forall s | 0 <= s < |streams| ::
        && streams[s].schedule == Kept(old(streams[s].schedule), timeUnit)
        && streams[s].records == old(streams[s].records) + Due(old(streams[s].schedule), timeUnit)
        && streams[s].vertices == old(streams[s].vertices) + VertexIds(Due(old(streams[s].schedule), timeUnit))
    {
      ghost var sched0 := seq(|streams|, s requires 0 <= s < |streams| reads streams => streams[s].schedule);
      ghost var rec0 := seq(|streams|, s requires 0 <= s < |streams| reads streams => streams[s].records);
      ghost var vert0 := seq(|streams|, s requires 0 <= s < |streams| reads streams => streams[s].vertices);
      for i := 0 to |streams|
        invariant forall s | 0 <= s < i :: Processed(streams[s], sched0[s], rec0[s], vert0[s], numVertices, timeUnit)
        invariant forall s | i <= s < |streams| :: Unprocessed(streams[s], sched0[s], rec0[s], vert0[s], numVertices, timeUnit)
      {
        ProcessStream(i, timeUnit, sched0, rec0, vert0);
      }
    }

    /** One turn of ProcessStreamSchedules: stream `i` is processed and no other
        stream changes. */
    method ProcessStream(i: nat, timeUnit: nat, ghost sched0: seq<seq<Item>>, ghost rec0: seq<seq<Item>>,
                         ghost vert0: seq<seq<nat>>)
      requires i < |streams| == |sched0| == |rec0| == |vert0|
      requires forall a, b | 0 <= a < b < |streams| :: streams[a] != streams[b]
      requires forall s | 0 <= s < i :: Processed(streams[s], sched0[s], rec0[s], vert0[s], numVertices, timeUnit)
      requires forall s | i <= s < |streams| :: Unprocessed(streams[s], sched0[s], rec0[s], vert0[s], numVertices, timeUnit)
      modifies {streams[i]}`text, {streams[i]}`writtenTo, {streams[i]}`records, {streams[i]}`vertices, {streams[i]}`schedule
      ensures forall s | 0 <= s < i + 1 :: Processed(streams[s], sched0[s], rec0[s], vert0[s], numVertices, timeUnit)
      ensures forall s | i + 1 <= s < |streams| :: Unprocessed(streams[s], sched0[s], rec0[s], vert0[s], numVertices, timeUnit)
    {
      var f := streams[i];
      assert Unprocessed(f, sched0[i], rec0[i], vert0[i], numVertices, timeUnit);
      KeptBelow(f.schedule, timeUnit, Horizon());
      label before:
      f.ProcessSchedule(timeUnit, numVertices);
      forall s | 0 <= s < i
        ensures Processed(streams[s], sched0[s], rec0[s], vert0[s], numVertices, timeUnit)
      {
        assert streams[s] != f;
        assert old@before(Processed(streams[s], sched0[s], rec0[s], vert0[s], numVertices, timeUnit));
      }
      forall s | i < s < |streams|
        ensures Unprocessed(streams[s], sched0[s], rec0[s], vert0[s], numVertices, timeUnit)
      {
        assert streams[s] != f;
        assert old@before(Unprocessed(streams[s], sched0[s], rec0[s], vert0[s], numVertices, timeUnit));
      }
    }

    /** The list resets of GenerateStreams: every stream's vertex list and schedule
        are emptied and it is marked as not written to; with nothing written to the
        files yet and no ids handed out, every stream meets the invariant. */
    method ResetStreams()
      requires Configured() && numVertices == 0
      requires forall s | 0 <= s < |streams| :: streams[s].Fresh()
      modifies streams`vertices, streams`schedule, streams`writtenTo
      ensures StreamsOk(0, 0) && Bounded()
      ensures forall s | 0 <= s < |streams| ::
        streams[s].vertices == [] && streams[s].schedule == [] && !streams[s].writtenTo && streams[s].Fresh()
    {
      for i := 0 to |streams|
        invariant forall s | 0 <= s < i ::
          streams[s].vertices == [] && streams[s].schedule == [] && !streams[s].writtenTo
        invariant forall s | 0 <= s < |streams| :: streams[s].Fresh()
      {
        streams[i].ResetLists();
      }
      forall s | 0 <= s < |streams|
        ensures streams[s].Ok(0, 0)
      {
        assert StreamIds(streams[s].records, streams[s].schedule) == multiset{};
      }
    }

    /** GenerateStreams: the counters and lists start empty; at each tick of the
        duration every pattern fires with its probability and the tick's items are
        written; then ticks go on until every schedule is empty. */
    method GenerateStreams()
      requires Opened()
      modifies this`drawIndex, this`numVertices, this`numEdges, this`instancesText, this`wroteAnInstance,
               this`instanceRecords,
               streams`text, streams`writtenTo, streams`records, streams`vertices, streams`schedule
      ensures Finished()
    {
      numVertices := 0;
      numEdges := 0;
      ResetStreams();
      for timeUnit := 0 to duration
        invariant Valid(timeUnit) && Bounded()
      {
        GenerateTick(timeUnit);
      }
      DrainSchedules();
    }

    /** One tick of the duration: each pattern, in order, fires when its probability
        is at least a fresh uniform draw; then the tick's items are written. */
    method GenerateTick(timeUnit: nat)
      requires Valid(timeUnit) && Bounded() && timeUnit < duration
      modifies this`drawIndex, this`numVertices, this`numEdges, this`instancesText, this`wroteAnInstance,
               this`instanceRecords,
               streams`text, streams`writtenTo, streams`records, streams`vertices, streams`schedule
      ensures Valid(timeUnit + 1) && Bounded()
    {
      for p := 0 to |patterns|
        invariant Valid(timeUnit) && Bounded()
      {
        var u := Uniform();
        if Fires(patterns[p].probability, u) {
          ghost var created, inst, histories := AddPatternInstance(patterns[p], timeUnit);
        }
      }
      ProcessStreamSchedules(timeUnit);
    }

    /** The ticks after the duration: every pending item is due before the horizon,
        so the loop ends, and then every stream file holds exactly its records. */
    method DrainSchedules()
      requires Valid(duration) && Bounded()
      modifies streams`text, streams`writtenTo, streams`records, streams`vertices, streams`schedule
      ensures Finished()
    {
      var timeUnit := duration;
      var empty := SchedulesEmpty();
      while !empty
        invariant Valid(timeUnit) && Bounded()
        invariant empty <==> forall s | 0 <= s < |streams| :: streams[s].schedule == []
        decreases Horizon() - timeUnit
      {
        BeforeHorizon(timeUnit);
        ProcessStreamSchedules(timeUnit);
        timeUnit := timeUnit + 1;
        empty := SchedulesEmpty();
      }
      DrainedFinished(timeUnit);
    }

    /** While some stream has a pending item, the current tick is before the horizon. */
    lemma BeforeHorizon(now: nat)
      requires StreamsOk(numVertices, now) && Bounded()
      requires exists s | 0 <= s < |streams| :: streams[s].schedule != []
      ensures now < Horizon()
    {
      var s :| 0 <= s < |streams| && streams[s].schedule != [];
      assert streams[s].Ok(numVertices, now);
      PendingBeforeHorizon(streams[s].schedule, now, Horizon());
    }

    /** With every schedule empty, each stream's file holds exactly its records and
        they meet the causal and at-most-once properties. */
    lemma DrainedFinished(now: nat)
      requires Valid(now)
      requires forall s | 0 <= s < |streams| :: streams[s].schedule == []
      ensures Finished()
    {
      forall s | 0 <= s < |streams|
        ensures StreamIds(streams[s].records, []) == multiset(VertexIds(streams[s].records))
      {
      }
    }
  }
}
