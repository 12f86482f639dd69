/** Load-time checks of gsg.py (ParseVertices, ParseEdges, ParsePatterns,
    ValidPattern, GetVertexById) on already-decoded pattern documents.
    A failed check, which the source reports and answers with sys.exit,
    is a Failure carrying the reason. */
module Validation {
  import opened Wrappers
  import opened GsgClasses

  /** A decoded JSON vertex; `newFlag` is its "new" member. */
  datatype VertexData = VertexData(id: string, newFlag: string, attributes: Attributes)

  /** A decoded JSON edge, with its numeric members already converted by int(). */
  datatype EdgeData = EdgeData(
    id: string,
    source: string,
    target: string,
    directed: string,
    minOffset: int,
    maxOffset: int,
    streamNum: int,
    attributes: Attributes)

  /** A decoded JSON pattern, its probability already converted by float(). */
  datatype PatternData = PatternData(
    id: string,
    track: string,
    probability: real,
    vertices: seq<VertexData>,
    edges: seq<EdgeData>)

  /** Why a pattern document is refused; each message of the source names an edge or a pattern. */
  datatype ParseError =
    | SourceUndefined(edgeId: string)
    | TargetUndefined(edgeId: string)
    | IncorrectOffsets(edgeId: string)
    | StreamOutOfRange(edgeId: string)
    | ProbabilityOutOfRange(patternId: string)
    | OldVertexStreamConflict(patternId: string)

  // ----- Template lookup -----

  /** The first template vertex with the given id, or None. */
  function GetVertexById(id: string, vertices: seq<Vertex>): (r: Option<Vertex>)
    ensures r.None? <==> forall i | 0 <= i < |vertices| :: vertices[i].id != id
    ensures r.Some? ==> exists i | 0 <= i < |vertices| ::
      vertices[i] == r.value && r.value.id == id && forall j | 0 <= j < i :: vertices[j].id != id
    decreases |vertices|
  {
    if vertices == [] then None
    else if vertices[0].id == id then Some(vertices[0])
    else
      var r := GetVertexById(id, vertices[1..]);
      assert forall j | 1 <= j < |vertices| :: vertices[j] == vertices[1..][j - 1];
      r
  }

  // ----- Vertices -----

  method ParseVertices(data: seq<VertexData>) returns (vertices: seq<Vertex>)
    ensures |vertices| == |data|
    ensures forall i | 0 <= i < |data| ::
      && vertices[i].id == data[i].id
      && (vertices[i].isNew <==> data[i].newFlag == "true")
      && vertices[i].attributes == (if vertices[i].isNew then data[i].attributes else [])
  {
    vertices := [];
    for i := 0 to |data|
      invariant |vertices| == i
      invariant forall k | 0 <= k < i ::
        && vertices[k].id == data[k].id
        && (vertices[k].isNew <==> data[k].newFlag == "true")
        && vertices[k].attributes == (if vertices[k].isNew then data[k].attributes else [])
    {
      var vertex := DefaultVertex().(id := data[i].id);
      if data[i].newFlag == "true" {
        vertex := vertex.(isNew := true, attributes := data[i].attributes);
      } else {
        // an old vertex takes the attributes of the vertex it is resolved to
        vertex := vertex.(isNew := false, attributes := []);
      }
      vertices := vertices + [vertex];
    }
  }

  /** The vertex ParseVertices builds from one document vertex. */
  function VertexFromData(d: VertexData): Vertex {
    Vertex(d.id, d.newFlag == "true", if d.newFlag == "true" then d.attributes else [])
  }

  // ----- Edges -----

  /** The edge ParseEdges builds from one document edge, before checking it. */
  function EdgeFromData(d: EdgeData): Edge {
    Edge(d.id, d.source, d.target, d.directed == "true", d.minOffset, d.maxOffset, d.streamNum, d.attributes)
  }

  /** An edge passes every check of ParseEdges. */
  predicate EdgeWellFormed(e: Edge, vertices: seq<Vertex>, numStreams: int) {
    && GetVertexById(e.source, vertices).Some?
    && GetVertexById(e.target, vertices).Some?
    && 0 <= e.minOffset <= e.maxOffset
    && 1 <= e.streamNum <= numStreams
  }

  /** The error ParseEdges reports for an edge: the first failing check in the order
      source, target, offsets, stream number. */
  function EdgeError(e: Edge, vertices: seq<Vertex>, numStreams: int): (r: Option<ParseError>)
    ensures r.None? <==> EdgeWellFormed(e, vertices, numStreams)
  {
    if GetVertexById(e.source, vertices).None? then Some(SourceUndefined(e.id))
    else if GetVertexById(e.target, vertices).None? then Some(TargetUndefined(e.id))
    else if e.minOffset < 0 || e.minOffset > e.maxOffset then Some(IncorrectOffsets(e.id))
    else if e.streamNum < 1 || e.streamNum > numStreams then Some(StreamOutOfRange(e.id))
    else None
  }

  /** err is the error of the first edge that fails its checks. */
  predicate FirstEdgeErrorIs(edges: seq<Edge>, vertices: seq<Vertex>, numStreams: int, err: ParseError) {
    exists k | 0 <= k < |edges| ::
      && (forall m | 0 <= m < k :: EdgeWellFormed(edges[m], vertices, numStreams))
      && EdgeError(edges[k], vertices, numStreams) == Some(err)
  }

  function EdgesFromData(data: seq<EdgeData>): (r: seq<Edge>)
    ensures |r| == |data| && forall i | 0 <= i < |data| :: r[i] == EdgeFromData(data[i])
  {
    seq(|data|, i requires 0 <= i < |data| => EdgeFromData(data[i]))
  }

  /** The edge at index i is the first to fail when every earlier one passes. */
  lemma FirstEdgeErrorAt(data: seq<EdgeData>, vertices: seq<Vertex>, numStreams: int, i: nat)
    requires i < |data| && EdgeError(EdgeFromData(data[i]), vertices, numStreams).Some?
    requires forall k | 0 <= k < i :: EdgeWellFormed(EdgesFromData(data[..i])[k], vertices, numStreams)
    ensures !forall k | 0 <= k < |data| :: EdgeWellFormed(EdgeFromData(data[k]), vertices, numStreams)
    ensures FirstEdgeErrorIs(EdgesFromData(data), vertices, numStreams,
                             EdgeError(EdgeFromData(data[i]), vertices, numStreams).value)
  {
    var edges := EdgesFromData(data);
    forall m | 0 <= m < i
      ensures EdgeWellFormed(edges[m], vertices, numStreams)
    {
      assert EdgesFromData(data[..i])[m] == edges[m];
    }
  }

  method ParseEdges(data: seq<EdgeData>, vertices: seq<Vertex>, numStreams: int)
    returns (r: Result<seq<Edge>, ParseError>)
    ensures r.Success? <==> forall i | 0 <= i < |data| :: EdgeWellFormed(EdgeFromData(data[i]), vertices, numStreams)
    ensures r.Success? ==> r.value == EdgesFromData(data)
    ensures r.Failure? ==> FirstEdgeErrorIs(EdgesFromData(data), vertices, numStreams, r.error)
  {
    var edges: seq<Edge> := [];
    for i := 0 to |data|
      invariant edges == EdgesFromData(data[..i])
      invariant forall k | 0 <= k < i :: EdgeWellFormed(edges[k], vertices, numStreams)
    {
      var edge := EdgeFromData(data[i]);
      var err := EdgeError(edge, vertices, numStreams);
      if err.Some? {
        FirstEdgeErrorAt(data, vertices, numStreams, i);
        r := Failure(err.value);
        return;
      }
      assert data[..i + 1] == data[..i] + [data[i]];
      edges := edges + [edge];
    }
    assert data[..|data|] == data;
    r := Success(edges);
  }

  /** Default edge fields already satisfy the offset and stream bounds. */
  lemma DefaultEdgeWithinBounds(numStreams: int)
    requires numStreams >= 1
    ensures 0 <= DefaultEdge().minOffset <= DefaultEdge().maxOffset
    ensures 1 <= DefaultEdge().streamNum <= numStreams
  {
  }

  // ----- Old-vertex stream consistency (ValidPattern) -----

  predicate Incident(e: Edge, vid: string) {
    e.source == vid || e.target == vid
  }

  /** The inner loop of ValidPattern: scanning `edges` with `seen` as the stream of
      the first incident edge so far (-1 for none). True when a conflict is met. */
  function EdgesConflict(vid: string, edges: seq<Edge>, seen: int): bool
    decreases |edges|
  {
    if edges == [] then false
    else if Incident(edges[0], vid) then
      if seen == -1 then EdgesConflict(vid, edges[1..], edges[0].streamNum)
      else if seen != edges[0].streamNum then true
      else EdgesConflict(vid, edges[1..], seen)
    else EdgesConflict(vid, edges[1..], seen)
  }

  /** The outer loop of ValidPattern: some old vertex has conflicting edges. */
  function VerticesConflict(vertices: seq<Vertex>, edges: seq<Edge>): bool
    decreases |vertices|
  {
    if vertices == [] then false
    else
      || (!vertices[0].isNew && EdgesConflict(vertices[0].id, edges, -1))
      || VerticesConflict(vertices[1..], edges)
  }

  function ValidPattern(p: Pattern): (r: Outcome<ParseError>)
    ensures r.Fail? ==> r.error == OldVertexStreamConflict(p.id)
  {
    if VerticesConflict(p.vertices, p.edges) then Fail(OldVertexStreamConflict(p.id)) else Pass
  }

  /** The intended invariant: all edges touching an old vertex go to one stream. */
  ghost predicate OldVerticesSingleStream(p: Pattern) {
    forall v, i, j | v in p.vertices && !v.isNew && 0 <= i < |p.edges| && 0 <= j < |p.edges|
      && Incident(p.edges[i], v.id) && Incident(p.edges[j], v.id)
      :: p.edges[i].streamNum == p.edges[j].streamNum
  }

  lemma {:induction false} ConflictAgainstSeen(vid: string, edges: seq<Edge>, seen: int)
    requires seen != -1
    ensures EdgesConflict(vid, edges, seen)
        <==> exists i | 0 <= i < |edges| :: Incident(edges[i], vid) && edges[i].streamNum != seen
    decreases |edges|
  {
    if edges != [] {
      ConflictAgainstSeen(vid, edges[1..], seen);
      assert forall i | 1 <= i < |edges| :: edges[i] == edges[1..][i - 1];
    }
  }

  lemma {:induction false} ConflictFromStart(vid: string, edges: seq<Edge>)
    requires forall i | 0 <= i < |edges| :: edges[i].streamNum != -1
    ensures EdgesConflict(vid, edges, -1)
        <==> exists i, j | 0 <= i < |edges| && 0 <= j < |edges| ::
               Incident(edges[i], vid) && Incident(edges[j], vid) && edges[i].streamNum != edges[j].streamNum
    decreases |edges|
  {
    if edges != [] {
      var tail := edges[1..];
      assert forall i | 1 <= i < |edges| :: edges[i] == tail[i - 1];
      if Incident(edges[0], vid) {
        ConflictAgainstSeen(vid, tail, edges[0].streamNum);
        if EdgesConflict(vid, edges, -1) {
          var i :| 0 <= i < |tail| && Incident(tail[i], vid) && tail[i].streamNum != edges[0].streamNum;
          assert Incident(edges[i + 1], vid);
        } else {
          forall i, j | 0 <= i < |edges| && 0 <= j < |edges| && Incident(edges[i], vid) && Incident(edges[j], vid)
            ensures edges[i].streamNum == edges[j].streamNum
          {
            assert i > 0 ==> tail[i - 1] == edges[i];
            assert j > 0 ==> tail[j - 1] == edges[j];
          }
        }
      } else {
        ConflictFromStart(vid, tail);
        if EdgesConflict(vid, edges, -1) {
          var i, j :| 0 <= i < |tail| && 0 <= j < |tail|
            && Incident(tail[i], vid) && Incident(tail[j], vid) && tail[i].streamNum != tail[j].streamNum;
          assert Incident(edges[i + 1], vid) && Incident(edges[j + 1], vid);
        } else {
          forall i, j | 0 <= i < |edges| && 0 <= j < |edges| && Incident(edges[i], vid) && Incident(edges[j], vid)
            ensures edges[i].streamNum == edges[j].streamNum
          {
            assert tail[i - 1] == edges[i] && tail[j - 1] == edges[j];
          }
        }
      }
    }
  }

  lemma {:induction false} VerticesConflictIff(vertices: seq<Vertex>, edges: seq<Edge>)
    requires forall i | 0 <= i < |edges| :: edges[i].streamNum != -1
    ensures !VerticesConflict(vertices, edges)
        <==> OldVerticesSingleStream(Pattern("", false, 0.0, vertices, edges))
    decreases |vertices|
  {
    var p := Pattern("", false, 0.0, vertices, edges);
    if vertices != [] {
      var tail := vertices[1..];
      VerticesConflictIff(tail, edges);
      var q := Pattern("", false, 0.0, tail, edges);
      assert forall v :: v in vertices <==> v == vertices[0] || v in tail;
      ConflictFromStart(vertices[0].id, edges);
      if !VerticesConflict(vertices, edges) {
        assert OldVerticesSingleStream(q);
      } else if !vertices[0].isNew && EdgesConflict(vertices[0].id, edges, -1) {
        assert !OldVerticesSingleStream(p);
      } else {
        assert !OldVerticesSingleStream(q);
      }
    }
  }

  /** ValidPattern accepts a pattern (whose edges have passed ParseEdges, so no
      stream number is -1) exactly when every old vertex's edges use one stream. */
  lemma ValidPatternIff(p: Pattern)
    requires forall i | 0 <= i < |p.edges| :: p.edges[i].streamNum != -1
    ensures ValidPattern(p).Pass? <==> OldVerticesSingleStream(p)
  {
    VerticesConflictIff(p.vertices, p.edges);
  }

  // ----- Patterns -----

  /** A pattern that has passed every load-time check, as the engine requires. */
  ghost predicate PatternAccepted(p: Pattern, numStreams: int) {
    && 0.0 <= p.probability <= 1.0
    && (forall i | 0 <= i < |p.edges| :: EdgeWellFormed(p.edges[i], p.vertices, numStreams))
    && OldVerticesSingleStream(p)
  }

  function PatternFromData(d: PatternData): Pattern {
    var vertices := seq(|d.vertices|, i requires 0 <= i < |d.vertices| => VertexFromData(d.vertices[i]));
    Pattern(d.id, d.track == "true", d.probability, vertices, EdgesFromData(d.edges))
  }

  /** err is what ParsePatterns reports for a refused document pattern: the
      probability first, then the first bad edge, then the old-vertex streams. */
  ghost predicate ReportedError(d: PatternData, numStreams: int, err: ParseError) {
    var p := PatternFromData(d);
    if !(0.0 <= d.probability <= 1.0) then err == ProbabilityOutOfRange(d.id)
    else if exists i | 0 <= i < |p.edges| :: !EdgeWellFormed(p.edges[i], p.vertices, numStreams) then
      FirstEdgeErrorIs(p.edges, p.vertices, numStreams, err)
    else err == OldVertexStreamConflict(d.id)
  }

  /** The body of ParsePatterns' loop for one document pattern. */
  method ParsePattern(d: PatternData, numStreams: int) returns (r: Result<Pattern, ParseError>)
    ensures r.Success? <==> PatternAccepted(PatternFromData(d), numStreams)
    ensures r.Success? ==> r.value == PatternFromData(d)
    ensures r.Failure? ==> ReportedError(d, numStreams, r.error)
  {
    var pattern := DefaultPattern().(id := d.id, track := d.track == "true", probability := d.probability);
    if pattern.probability < 0.0 || pattern.probability > 1.0 {
      return Failure(ProbabilityOutOfRange(pattern.id));
    }
    var vertices := ParseVertices(d.vertices);
    var edges := ParseEdges(d.edges, vertices, numStreams);
    assert vertices == PatternFromData(d).vertices;
    if edges.Failure? {
      return Failure(edges.error);
    }
    pattern := pattern.(vertices := vertices, edges := edges.value);
    assert pattern == PatternFromData(d);
    ValidPatternIff(pattern);
    if ValidPattern(pattern).Fail? {
      return Failure(ValidPattern(pattern).error);
    }
    r := Success(pattern);
  }

  method ParsePatterns(data: seq<PatternData>, numStreams: int) returns (r: Result<seq<Pattern>, ParseError>)
    ensures r.Success? <==> forall i | 0 <= i < |data| :: PatternAccepted(PatternFromData(data[i]), numStreams)
    ensures r.Success? ==> |r.value| == |data| && forall i | 0 <= i < |data| :: r.value[i] == PatternFromData(data[i])
    ensures r.Failure? ==> exists i | 0 <= i < |data| ::
      && (forall j | 0 <= j < i :: PatternAccepted(PatternFromData(data[j]), numStreams))
      && !PatternAccepted(PatternFromData(data[i]), numStreams)
      && ReportedError(data[i], numStreams, r.error)
  {
    var patterns: seq<Pattern> := [];
    for i := 0 to |data|
      invariant |patterns| == i
      invariant forall k | 0 <= k < i :: patterns[k] == PatternFromData(data[k])
      invariant forall k | 0 <= k < i :: PatternAccepted(PatternFromData(data[k]), numStreams)
    {
      var pattern := ParsePattern(data[i], numStreams);
      if pattern.Failure? {
        r := Failure(pattern.error);
        return;
      }
      patterns := patterns + [pattern.value];
    }
    r := Success(patterns);
  }
}
