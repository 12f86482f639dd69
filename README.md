# Graph stream generator: the instantiation and scheduling engine

This project is a Dafny model of the core of the Graph Stream Generator
(`gsg.py` with `gsgClasses.py`). The generator reads pattern templates. Each
template has vertices (new ones, or "old" ones that stand for vertices already
emitted), edges with an offset window and a target stream, a firing
probability and a `track` flag. It then runs a tick loop over a number of
output streams. At every tick each pattern may fire, which produces an
occurrence:
- new template vertices get fresh global ids;
- old vertices are bound to vertices already written to the edge's stream,
  found by a probe with wrap-around from a random start;
- edges get fresh global ids and creation times inside their windows.

Each occurrence's vertices and edges are appended to per-stream pending
schedules. A tracked occurrence is also written to the instances file. A
stream's pending items are written to its file at the tick they are due, in
schedule order, and written vertices join that stream's history. After the
nominal duration the loop keeps ticking until every schedule is empty.

The model is organised as follows:
- `wrappers.dfy`: the `Option`/`Result`/`Outcome` types. `Result` and
  `Outcome` replace the `sys.exit` calls of the load-time checks, and `Option`
  is `GetVertexById`'s `None`. The instantiation code keeps the source's 0 for
  a vertex that cannot be found (`GetRandomVertexIdOnStream`,
  `GetVertexInstanceId`).
- `text.dfy`: Python's `str` on non-negative integers, its read-back, and the
  separator join that every string builder of the system uses.
- `classes.dfy`: the record types of `gsgClasses.py` as datatypes, plus
  `DictToString` and `DictToJSONString` as loops proved against join functions.
- `validation.dfy`: the load-time checks (`ParseVertices`, `ParseEdges`,
  `ParsePatterns`, `ValidPattern`, `GetVertexById`) on decoded documents, with
  each check's error as a `Failure`.
- `schedule.dfy`: the scheduler's theory on values. It covers:
  - pending items and the flush at one tick (`Due`, `Kept`);
  - what one occurrence adds to each stream;
  - the per-stream invariant: causal order, ids at most once, nothing due in
    the past.
- `occurrence.dfy`: the theory of one occurrence's binding. It covers what the
  old-vertex probe returns, what binding one template vertex does, and the
  invariant of the edge loop.
- `output.dfy`: `TimeStr` for the `units` and `seconds` formats, and the exact
  text of vertex, edge and instance records.
- `streams.dfy`: class `StreamFile`. It holds one stream's entries of
  `gStreamVertices`, `gStreamSchedules` and `gStreamWrittenTo` together with
  its file text. Its methods are the stream writers and the per-stream flush.
- `generator.dfy`: class `StreamGenerator`. It holds the run's global state
  (counters, draws, streams, instances file) and its methods are
  `AddPatternInstance`, `GetVertexInstanceId`, `GetRandomVertexIdOnStream`,
  `SchedulePatternInstance`, `WritePatternInstance`, `SchedulesEmpty`,
  `ProcessStreamSchedules` and `GenerateStreams`.

Main guarantees proved:
- **Causal order.** Every edge written to a stream comes after vertex records
  for both its endpoints on that stream. So the unconditional `",\n"` before an
  edge record is correct.
- **At most once.** No vertex id is written twice to one stream.
- **All or nothing.** An abandoned occurrence schedules nothing and writes
  nothing to the instances file. The edge loop stops at an edge exactly
  when one endpoint is an old vertex whose stream has no vertex left that
  the occurrence has not bound; a new source takes a fresh id, so for it
  only the target's exhaustion against the earlier bindings counts. So a
  template with only new vertices is always instantiated.
- **Exclusion.** Two template vertices of one occurrence never share an id.
- **Drain termination.** The drain loop ends with every schedule empty.
- **Output text.** Each stream's file body is its records joined by `",\n"`,
  and the instances file is the tracked occurrences joined by `",\n"`.

Randomness is a parameter. The constructor takes `intDraw` and `realDraw`,
the sequences of values `random.randint` and `random.uniform` would
produce. `drawIndex` counts the draws made, and `randint(lo, hi)` is taken as
`lo + intDraw(k) % (hi - lo + 1)`.

`gsg.py` keeps no per-vertex degree counters, does no degree-biased sampling,
has no seed or background patterns and writes no compact edge-line format. The
model has none of these either.

## Model

| member | source | states |
|---|---|---|
| GsgClasses.DictToString | gsgClasses.py:131-142 | the loop with its `first` flag builds `{`, then the entries `k=v` in iteration order joined by `", "`, then `}` |
| GsgClasses.DictToJSONString | gsgClasses.py:144-155 | the loop builds `{`, then the entries `"k": "v"` in iteration order joined by `", "` with no escaping, then `}` |
| GsgClasses.EmptyObjects | gsgClasses.py:131-155 | both serialisers give `"{}"` exactly when the mapping is empty |
| GsgClasses.JSONObjectSnoc | gsgClasses.py:147-153 | one more item in a non-empty mapping inserts `, "k": "v"` just before the closing brace |
| GsgClasses.SingleEntryObjects | gsgClasses.py:131-155 | a single item is rendered `{"k": "v"}` and `{k=v}` |
| Text.NatToStringRoundTrip | gsg.py:337 | `str` of a non-negative id is a non-empty digit string that reads back as the id, with no leading zero |
| Text.NatToStringInjective | gsg.py:337 | distinct ids give distinct strings |
| Text.JoinSnoc | gsgClasses.py:134-140 | a first-flag loop adds one separator per item except before the first |
| Validation.GetVertexById | gsg.py:249-253 | None exactly when no template vertex has the id; otherwise the first vertex with that id |
| Validation.ParseVertices | gsg.py:37-49 | one vertex per document vertex, in order; `new` holds exactly when the member is `"true"`; an old vertex's attributes are dropped |
| Validation.EdgeError | gsg.py:58-77 | no error exactly when source and target are declared, `0 <= minOffset <= maxOffset` and `1 <= streamNum <= numStreams`; otherwise the first failing check, in the source's order |
| Validation.FirstEdgeErrorAt | gsg.py:54-77 | an edge that fails after every earlier edge passed makes the whole list fail, and its error is the one reported |
| Validation.ParseEdges | gsg.py:51-80 | succeeds exactly when every edge passes all four checks, returning the edges in order; otherwise reports the first failing check of the first failing edge |
| Validation.DefaultEdgeWithinBounds | gsgClasses.py:86-88 | a fresh Edge's offsets `0, 0` and stream `1` pass the offset and stream checks whenever `numStreams >= 1` |
| Validation.ValidPattern | gsg.py:102-115 | the only way it refuses a pattern is the old-vertex stream conflict of that pattern |
| Validation.VerticesConflictIff | gsg.py:104-114 | the nested scan finds a conflict exactly when some old vertex has two incident edges on different streams |
| Validation.ValidPatternIff | gsg.py:102-115 | a pattern whose edges passed ParseEdges is accepted exactly when all edges of each old vertex use one stream |
| Validation.ParsePattern | gsg.py:86-100 | a document pattern is accepted exactly when its probability is in [0, 1], its edges are well formed and its old vertices are single-stream; the reported error is checked in that order |
| Validation.ParsePatterns | gsg.py:82-100 | succeeds exactly when every pattern is accepted, returning them in order; otherwise fails on the first refused pattern with its error |
| Occurrence.ProbeFrom | gsg.py:264-274 | after `tries` failed probes the result is 0 when every remaining slot is excluded, and otherwise the first remaining slot not excluded |
| Occurrence.ProbesCover | gsg.py:263-273 | starting anywhere, the n probes with wrap-around reach every entry of the history |
| Occurrence.ProbeBindResult | gsg.py:242-246 | the probe's answer for an unbound old vertex is an unbound id of the stream's history, or 0; it is 0 whenever every vertex of the history is bound already, and only then for a history of real ids |
| Occurrence.ZeroIffUnresolvable | gsg.py:242-247 | with bound and history ids all non-zero, the id `GetVertexInstanceId` returns is 0 exactly when the vertex is old, unbound and its stream has no unbound vertex left |
| Occurrence.EdgeBlockedIff | gsg.py:159-165 | binding source then target gives two non-zero ids exactly when neither the source nor, after the source is bound, the target is an old vertex whose stream has no vertex left unbound |
| Occurrence.FreshSourceBlocks | gsg.py:159-165 | when a new source takes its fresh id and the edge is still blocked, the target was already an old vertex whose stream had no vertex left unbound |
| Occurrence.AbandonedOldEndpoint | gsg.py:163-165 | an occurrence can only be abandoned at an edge with an old endpoint |
| Occurrence.ProbeSpec | gsg.py:257-274 | the result is 0 exactly when every history entry is excluded (the history holds real ids); otherwise it is in the history, not excluded, and the first such entry cyclically from the start index |
| Occurrence.Clamp | gsg.py:226-232 | the new time on the edge's stream is the smaller of the old time and the edge's creation time, or that creation time when there was none; the other streams' times are unchanged |
| Occurrence.BindBound | gsg.py:222-233 | reusing a bound vertex keeps every binding valid and resolves the endpoint on the edge's stream |
| Occurrence.BindFresh | gsg.py:236-246 | a first-bound new vertex gets counter+1, distinct from every bound id, and is emitted on the edge's stream at the edge's time |
| Occurrence.BindOld | gsg.py:242-246 | a first-bound old vertex takes an id of the edge stream's history not bound yet, is emitted nowhere, and is in the history of every stream its edges use |
| Occurrence.BindStep | gsg.py:220-247 | any binding with a non-zero id keeps all bindings valid and distinct, extends the dict, and resolves the endpoint on the edge's stream |
| Occurrence.EdgeLoopStep | gsg.py:153-169 | a loop turn with both endpoints non-zero keeps the bindings valid and adds the next edge, numbered counter+1, with resolved endpoints |
| Occurrence.EdgesMadeFollowTemplate | gsg.py:154-168 | the edges made are numbered on from the edge counter in template order, copy their template's fields, and are created inside their offset windows |
| Occurrence.OccurrenceReady | gsg.py:170-174 | a completed edge loop gives an occurrence the scheduler can take: edges resolved, times inside [t, horizon), fresh ids on the vertices it emits, and no two of its vertices sharing an id |
| Schedule.RemoveFirstAt | gsg.py:321 | `list.remove` takes out the item where the flush loop stands, when no earlier item equals it |
| Schedule.DueKeptIds | gsg.py:314-326 | the flush splits the pending vertex ids exactly between those written and those kept |
| Schedule.EndpointsFlushedFirst | gsg.py:322-326 | when the flush reaches a due edge, both endpoints are in the history extended by the vertices flushed before it at this tick |
| Schedule.FlushWritesCausally | gsg.py:310-326 | the records written by one flush keep every edge after its endpoints' vertex records |
| Schedule.FlushPreservesInvariant | gsg.py:310-326 | the flush at tick t keeps the per-stream invariant for tick t+1: causal, ids at most once, nothing pending due at or before t |
| Schedule.OccurrenceCausal | gsg.py:183-189 | since an occurrence's vertices are enqueued before its edges, each of its edges on a stream finds its endpoints in the history or among earlier pending vertices due no later |
| Schedule.ScheduleOccurrencePreservesInvariant | gsg.py:183-189 | appending a resolved occurrence with fresh ids to a stream keeps the per-stream invariant |
| Schedule.OccurrenceItemsBelow | gsg.py:158 | an occurrence whose times are at most hi schedules only items due before hi+1 |
| Schedule.PendingBeforeHorizon | gsg.py:297-299 | a pending item with nothing due in the past means the tick is before the horizon |
| Output.TimeStrValue | gsg.py:358-362 | a time stamp is a decimal string whose value is the tick in `units`, and the tick times seconds per unit in `seconds` |
| Output.TimeStrInjective | gsg.py:358-362 | distinct ticks give distinct stamps (for `seconds`, when a unit is at least one second) |
| Output.AppendRecord | gsg.py:332-335 | a record appended after the separator the writer chooses extends the file body by one record |
| Output.StreamTextIsJoin | gsg.py:332-355 | a stream file's body is its records' texts joined by `",\n"` |
| Output.VertexRecordReadBack | gsg.py:336-339 | a vertex record's id reads back, and the record is not taken for an edge record |
| Output.EdgeRecordReadBack | gsg.py:346-355 | an edge record's id reads back, and the record is not taken for a vertex record |
| Output.InstancesTextSnoc | gsg.py:195-217 | one more occurrence adds its record, after `",\n"` unless it is the first |
| Output.QuotedIdReadBack | gsg.py:207 | each quoted id in an instance record reads back as the id |
| Streams.ScheduledStreamOk | gsg.py:183-189 | scheduling a resolved occurrence keeps a stream's invariant and every pending item before the horizon |
| Streams.FlushVertexStep | gsg.py:319-321 | writing a vertex record and adding the id to the history keeps history, records, written flag and file text in agreement |
| Streams.FlushEdgeStep | gsg.py:325-326 | writing an edge whose endpoints are in the history keeps them in agreement; the unconditional `",\n"` is right |
| Streams.StreamFile.constructor | gsg.py:125-129 | a stream's file starts empty, with nothing scheduled, no history and not written to |
| Streams.StreamFile.ResetLists | gsg.py:287-289 | the stream's vertex list and schedule are emptied and its written flag cleared |
| Streams.StreamFile.Enqueue | gsg.py:187 | the item is appended at the end of the schedule |
| Streams.StreamFile.WriteVertexInstance | gsg.py:328-339 | the file gains the vertex record, after `",\n"` only when the stream was written to; the flag is then set |
| Streams.StreamFile.WriteEdgeInstance | gsg.py:341-355 | the file gains `",\n"` and the edge record, with the directedness line and time stamp |
| Streams.StreamFile.FlushVertex | gsg.py:316-321 | a due vertex is written, its id joins the history, and it leaves the schedule at its place |
| Streams.StreamFile.FlushEdge | gsg.py:322-326 | a due edge with endpoints in the history is written and leaves the schedule at its place |
| Streams.StreamFile.ProcessItem | gsg.py:315-326 | one turn of the loop over the schedule copy: a due item is written and removed, any other stays |
| Streams.StreamFile.ProcessSchedule | gsg.py:314-326 | the schedule becomes the items not due now, in order; the due items are written in schedule order; their vertex ids join the history in that order; the invariant holds for the next tick |
| Generator.FiringBounds | gsg.py:292 | a pattern fires when its probability is at least the draw; so probability 1 always fires and probability 0 fires only on a draw of 0 |
| Generator.MaxOffset | gsg.py:158 | no template edge of any pattern has a larger maxOffset |
| Generator.StreamGenerator.constructor | gsg.py:120-133 | every stream file is open and empty, the instances file is empty and not written to, and the patterns and draws are kept |
| Generator.StreamGenerator.RandIntAt | gsg.py:158 | the k-th integer draw, taken into [lo, hi] |
| Generator.StreamGenerator.RandInt | gsg.py:158 | `random.randint(lo, hi)` returns the next draw in [lo, hi] and uses one draw |
| Generator.StreamGenerator.Uniform | gsg.py:292 | `random.uniform(0, 1)` returns the next real draw and uses one draw |
| Generator.StreamGenerator.GetRandomVertexIdOnStream | gsg.py:257-274 | 0 for an empty history with no draw; otherwise one draw for the start index and the result of the probe from it, after at most one probe per vertex of the stream, every probe before the last finding an excluded id and the last one giving the result unless all probes failed |
| Generator.StreamGenerator.GetVertexInstanceId | gsg.py:220-247 | the dict gains or updates the vertex's binding; the id is the bound one, counter+1 for a new vertex, or the probe's result for an old one; the counter and draws follow the branch taken |
| Generator.StreamGenerator.InstantiateEdge | gsg.py:154-168 | the edge copies its template, is created inside the offset window, binds source then target, and is numbered counter+1 exactly when both ids are non-zero |
| Generator.StreamGenerator.NextEdge | gsg.py:153-169 | the edge is drawn inside its window on its template's stream; it is made exactly when it is not blocked by an old endpoint whose stream has no vertex left unbound; a made edge keeps the bindings valid and extends the edges made by one, otherwise only counters and draws moved |
| Generator.StreamGenerator.InstantiateEdges | gsg.py:150-169 | the loop stops at the first edge with a 0 endpoint; the occurrence is complete exactly when every template edge was made; when it is not, the first edge not made is blocked, with the bindings of the edges before it, for a time in its window and a binding of its source that GetVertexInstanceId can produce (a fresh id for a new source, an unbound history id or 0 for an old one); the edge counter grew by the edges made |
| Generator.StreamGenerator.InstantiatePattern | gsg.py:150-174 | a created occurrence has the pattern's id, its vertices in binding order with distinct ids, and one resolved edge per template edge; an abandoned one stopped at a template edge with an old endpoint, and the edge counter grew by the edges made before it |
| Generator.StreamGenerator.PatternReady | gsg.py:290-293 | a pattern fired during the duration passed validation and emits nothing at or after the horizon |
| Generator.StreamGenerator.StreamsWider | gsg.py:163-165 | the vertex ids an abandoned occurrence took are never used, so every stream keeps its invariant with the advanced counter |
| Generator.StreamGenerator.AddPatternInstance | gsg.py:147-181 | a created occurrence is appended to every stream's schedule (its vertices, then its edges) and, when tracked, to the instances file; an abandoned one stopped at an edge with an old endpoint, changes no schedule and writes nothing; counters are not rolled back (the edge counter grew by the edges made); the run invariant is kept |
| Generator.StreamGenerator.RecordOccurrence | gsg.py:170-181 | a made occurrence is written when its pattern is tracked, then scheduled on every stream; an abandoned one changes no schedule and writes nothing |
| Generator.StreamGenerator.WriteAndScheduleOccurrence | gsg.py:176-178 | the occurrence joins the instances file and then every stream's schedule |
| Generator.StreamGenerator.ScheduleOccurrence | gsg.py:178 | scheduling a resolved occurrence with fresh ids keeps every stream's invariant and pending items before the horizon |
| Generator.StreamGenerator.SchedulePatternInstance | gsg.py:183-189 | each stream's schedule gains the occurrence's vertex items on it, then its edge items on it |
| Generator.StreamGenerator.ScheduleVertices | gsg.py:185-187 | each vertex is appended to the schedule of every stream it has an emission time on, in binding order |
| Generator.StreamGenerator.ScheduleVertex | gsg.py:186-187 | one vertex is appended to the schedule of each stream in its time map, with its time on that stream |
| Generator.StreamGenerator.ScheduleEdges | gsg.py:188-189 | each edge is appended to its own stream's schedule, in template order |
| Generator.StreamGenerator.IdListText | gsg.py:201-207 | the first-flag loop writes the quoted ids joined by `", "` |
| Generator.StreamGenerator.WritePatternInstance | gsg.py:191-217 | the instances file becomes the tracked occurrences' records joined by `",\n"`, and the written flag says whether there is one |
| Generator.StreamGenerator.SchedulesEmpty | gsg.py:301-306 | true exactly when no stream has a pending item |
| Generator.StreamGenerator.ProcessStream | gsg.py:315-326 | one stream's turn at tick t flushes that stream and leaves every other stream as it was |
| Generator.StreamGenerator.ProcessStreamSchedules | gsg.py:310-326 | on every stream, exactly the items due now are removed and written; their vertex ids join the history in schedule order; the rest stay in order; the run invariant holds for the next tick |
| Generator.StreamGenerator.ResetStreams | gsg.py:285-289 | every stream's vertex list and schedule are emptied and it is marked not written to |
| Generator.StreamGenerator.GenerateTick | gsg.py:290-294 | one tick of the duration keeps the run invariant and moves it to the next tick |
| Generator.StreamGenerator.BeforeHorizon | gsg.py:297-299 | while some schedule is non-empty, the tick is before the horizon, which bounds the drain loop |
| Generator.StreamGenerator.DrainSchedules | gsg.py:296-299 | the drain loop terminates with every schedule empty |
| Generator.StreamGenerator.DrainedFinished | gsg.py:297 | with every schedule empty, each stream's file holds its records, edges follow their endpoints, and no vertex appears twice |
| Generator.StreamGenerator.GenerateStreams | gsg.py:276-299 | a run from freshly opened files ends with every schedule empty; each stream file holds exactly its records, edge after endpoints, each vertex once; the instances file holds the tracked occurrences |

## Left out

- File handling: file names, `open`/`close`, the opening `"[\n"` of `OpenFiles` and the closing `"\n]\n"` of `CloseFiles`. A file is its text after the opening bracket.
- `main`, `json.load`, `Parameters.parseFromJSON` and every `prettyprint`: decoding and console output. The validation model starts from decoded documents with `int()` and `float()` already applied.
- Console messages (`print`) and `sys.exit`: a refused document is a `Failure` carrying the reason and the edge or pattern id the message names.
- The `datetime` branch of `TimeStr` (`timedelta`, `strftime`): every member that formats a time requires a format other than `"datetime"`.
- The `random` module: draws are the supplied `intDraw`/`realDraw` sequences, so no distribution is modelled. `randint(lo, hi)` is `lo + draw % (hi - lo + 1)`.
- Configuration range: `numStreams`, `secondsPerUnitTime` and `duration` are taken as non-negative (`nat`). The source applies `int()` to them with no range check; a negative `secondsPerUnitTime` would give negative `seconds` stamps, and a negative `duration` would skip the tick loop. Neither case is modelled.
- Floating point: probabilities and uniform draws are Dafny `real`s, so only the comparison `probability >= draw` is modelled.
- gExportGraphML.py: a separate file-to-file converter, not part of this model.
- Object identity: `VertexInstance` is a value.
  - The source shares one object between the occurrence's dict, its vertex list and the schedules of several streams.
  - A schedule holds a per-stream snapshot (id, attributes, time on that stream).
  - This is faithful because the object is not changed once scheduled.
  - `list.remove` is removal of the first equal item; items on one stream are distinct because their ids are.
- Dict order: `gsg.py` runs on Python 2, where `vertexInstancesDict.values()` and the `keys()`/`items()` walks of `DictToString`, `DictToJSONString` and `SchedulePatternInstance` come out in an unspecified hash order. The model fixes one order: the occurrence's vertices are listed in binding order (a map plus the list of its keys in the order they were bound), and a rendered attribute dict is the list of its items in whatever order the dict yields them. No proved property depends on that order. It decides only the order of the ids in an instance record and the order of the vertex records written at one tick.
- Non-ASCII text: Python 2's `str()` raises `UnicodeEncodeError` on a `unicode` value with non-ASCII characters, as `json.load` can produce for attribute values. The model takes every key and value as already rendered and has no such failure.
- Generator.StreamGenerator.InstantiateEdges: says the first edge not made is blocked for some creation time in its window and some source binding the draws allow, not for the draws actually taken; NextEdge states the blocking condition for the actual draw.
- Generator.StreamGenerator.InstantiatePattern: for an abandoned occurrence states only that it stopped at an edge with an old endpoint; the exact blocking condition, which needs the bindings made so far, is stated by InstantiateEdges and NextEdge.
- Generator.StreamGenerator.AddPatternInstance: for an abandoned occurrence states the same as InstantiatePattern, not the exact blocking condition.
- The per-stream globals `gStreamVertices`, `gStreamSchedules`, `gStreamWrittenTo` and `gStreamFiles` are grouped per stream in `StreamFile` objects.
- Loop bodies are split into helper methods. Each helper is one turn of the source's loop.
- Generator.StreamGenerator.GenerateStreams: states the invariants of the end state, not the exact records a given sequence of draws produces.
- Generator.StreamGenerator.GenerateTick: states that the run invariant is kept, not which patterns fired at the tick.
- Generator.StreamGenerator.DrainSchedules: states termination and the end-state invariants, not how many drain ticks run.
- Generator.StreamGenerator.AddPatternInstance: its occurrence, its `created` flag and the histories it was resolved against are ghost results; the source returns nothing.
