/** One output stream of gsg.py: its entry in gStreamVertices, gStreamSchedules and
    gStreamWrittenTo together with the file it writes, as one object. The
    per-stream writers and the per-stream flush of ProcessStreamSchedules are
    its methods. */
module Streams {
  import opened Text
  import opened GsgClasses
  import opened Schedule
  import opened Output

  /** A stream's history, records, written flag and text agree: the history lists
      the written vertices, the flag says whether one was written, every written edge
      follows its endpoints, and the text holds the records. */
  ghost predicate StreamFlushing(history: seq<nat>, records: seq<Item>, writtenTo: bool, text: string,
                                 outputTimeFormat: string, secondsPerUnitTime: nat)
  {
    && history == VertexIds(records)
    && (writtenTo <==> |history| > 0)
    && WrittenCausal(records)
    && outputTimeFormat != "datetime"
    && text == StreamText(records, outputTimeFormat, secondsPerUnitTime)
  }

  /** A stream keeps the scheduler invariant at tick `now` with `n` vertex ids handed
      out, and its text holds its records. */
  ghost predicate StreamOk(history: seq<nat>, pending: seq<Item>, records: seq<Item>, writtenTo: bool, text: string,
                           outputTimeFormat: string, secondsPerUnitTime: nat, n: nat, now: nat)
  {
    && outputTimeFormat != "datetime"
    && StreamInvariant(history, pending, records, writtenTo, n, now)
    && text == StreamText(records, outputTimeFormat, secondsPerUnitTime)
  }

  /** Scheduling an occurrence on stream s keeps it in order and before the horizon h. */
  lemma ScheduledStreamOk(histories: seq<seq<nat>>, s: nat, history: seq<nat>, pending: seq<Item>, records: seq<Item>,
                          writtenTo: bool, text: string, outputTimeFormat: string, secondsPerUnitTime: nat,
                          n0: nat, n1: nat, now: nat, h: nat, vertices: seq<VertexInstance>, edges: seq<EdgeInstance>)
    requires 1 <= s <= |histories| && histories[s - 1] == history && n0 <= n1 && 1 <= h
    requires StreamOk(history, pending, records, writtenTo, text, outputTimeFormat, secondsPerUnitTime, n0, now)
    requires Below(pending, h)
    requires OccurrenceSchedulable(histories, vertices, edges, n0, n1, now, h - 1)
    ensures StreamOk(history, pending + OccurrenceItems(vertices, edges, s), records, writtenTo, text,
                     outputTimeFormat, secondsPerUnitTime, n1, now)
    ensures Below(pending + OccurrenceItems(vertices, edges, s), h)
  {
    ScheduleOccurrencePreservesInvariant(histories, s, pending, records, writtenTo, n0, n1, now, vertices, edges);
    OccurrenceItemsBelow(vertices, edges, s, h - 1);
    BelowAppend(pending, OccurrenceItems(vertices, edges, s), h);
  }

  /** Writing a vertex record, with the separator WriteVertexInstanceToStream chooses,
      and adding the vertex to the history keeps the stream in agreement. */
  lemma FlushVertexStep(history: seq<nat>, records: seq<Item>, writtenTo: bool, text: string,
                        outputTimeFormat: string, secondsPerUnitTime: nat, item: Item)
    requires StreamFlushing(history, records, writtenTo, text, outputTimeFormat, secondsPerUnitTime)
    requires item.VertexItem?
    ensures StreamFlushing(history + [item.id], records + [item], true,
      text + (if writtenTo then ",\n" else "") + RecordText(item, outputTimeFormat, secondsPerUnitTime),
      outputTimeFormat, secondsPerUnitTime)
  {
    VertexIdsSnoc(records, item);
    WrittenCausalSnoc(records, item);
    if !writtenTo {
      NoVertexNoRecord(records);
    }
    AppendRecord(text, records, item, if writtenTo then ",\n" else "", outputTimeFormat, secondsPerUnitTime);
  }

  /** Writing an edge record whose endpoints are in the history keeps the stream in
      agreement; the unconditional ",\n" of WriteEdgeInstanceToStream is right because
      a vertex record was written before. */
  lemma FlushEdgeStep(history: seq<nat>, records: seq<Item>, writtenTo: bool, text: string,
                      outputTimeFormat: string, secondsPerUnitTime: nat, item: Item)
    requires StreamFlushing(history, records, writtenTo, text, outputTimeFormat, secondsPerUnitTime)
    requires item.EdgeItem? && item.edge.source in history && item.edge.target in history
    ensures StreamFlushing(history, records + [item], writtenTo,
      text + ",\n" + RecordText(item, outputTimeFormat, secondsPerUnitTime),
      outputTimeFormat, secondsPerUnitTime)
  {
    VertexIdsSnoc(records, item);
    WrittenCausalSnoc(records, item);
    assert records != [];
    AppendRecord(text, records, item, ",\n", outputTimeFormat, secondsPerUnitTime);
  }

  class StreamFile {
    const outputTimeFormat: string
    const secondsPerUnitTime: nat
    /** gStreamVertices[i]: the ids of the vertices written to the stream, in order. */
    var vertices: seq<nat>
    /** gStreamSchedules[i]: the items waiting for their tick. */
    var schedule: seq<Item>
    /** gStreamWrittenTo[i]: whether some vertex was written to the stream. */
    var writtenTo: bool
    /** The text written to the stream file after its opening bracket. */
    var text: string
    /** The items written to the stream, in order. */
    ghost var records: seq<Item>

    /** The facts the flush keeps after every written item. */
    ghost predicate Flushing()
      reads this
    {
      StreamFlushing(vertices, records, writtenTo, text, outputTimeFormat, secondsPerUnitTime)
    }

    /** The stream keeps the scheduler invariant at tick `now` with `n` vertex ids
        handed out, and its file holds its records. */
    ghost predicate Ok(n: nat, now: nat)
      reads this
    {
      OkWith(schedule, n, now)
    }

    /** Ok with `pending` in place of the schedule; it does not read the schedule. */
    ghost predicate OkWith(pending: seq<Item>, n: nat, now: nat)
      reads this`vertices, this`records, this`writtenTo, this`text
    {
      StreamOk(vertices, pending, records, writtenTo, text, outputTimeFormat, secondsPerUnitTime, n, now)
    }

    /** The file is open and nothing has been written to it. */
    ghost predicate Fresh()
      reads this
    {
      outputTimeFormat != "datetime" && text == "" && records == []
    }

    /** OpenFiles for this stream: an empty file ("[\n" is not part of `text`). */
    constructor (outputTimeFormat: string, secondsPerUnitTime: nat)
      requires outputTimeFormat != "datetime"
      ensures this.outputTimeFormat == outputTimeFormat && this.secondsPerUnitTime == secondsPerUnitTime
      ensures vertices == [] && schedule == [] && !writtenTo
      ensures Fresh()
    {
      this.outputTimeFormat := outputTimeFormat;
      this.secondsPerUnitTime := secondsPerUnitTime;
      vertices := [];
      schedule := [];
      writtenTo := false;
      text := "";
      records := [];
    }

    /** GenerateStreams' fresh entries in gStreamVertices, gStreamSchedules and gStreamWrittenTo. */
    method ResetLists()
      modifies this`vertices, this`schedule, this`writtenTo
      ensures vertices == [] && schedule == [] && !writtenTo
    {
      vertices := [];
      schedule := [];
      writtenTo := false;
    }

    /** One append of SchedulePatternInstance. */
    method Enqueue(item: Item)
      modifies this`schedule
      ensures schedule == old(schedule) + [item]
    {
      schedule := schedule + [item];
    }

    /** WriteVertexInstanceToStream: the record, after ",\n" unless it is the first vertex. */
    method WriteVertexInstance(item: Item)
      requires item.VertexItem? && outputTimeFormat != "datetime"
      modifies this`text, this`writtenTo, this`records
      ensures writtenTo
      ensures records == old(records) + [item]
      ensures text == old(text) + (if old(writtenTo) then ",\n" else "")
        + RecordText(item, outputTimeFormat, secondsPerUnitTime)
    {
      if writtenTo {
        text := text + ",\n";
      } else {
        writtenTo := true;
        assert text + "" == text;
      }
      var attributesText := DictToJSONString(item.attributes);
      var timeStamp := TimeStr(item.time, outputTimeFormat, secondsPerUnitTime);
      var record := VertexHeader + NatToString(item.id)
        + ("\",\n     \"attributes\": " + attributesText + ",\n     \"timeStamp\": \"" + timeStamp + "\"}}");
      assert record == RecordText(item, outputTimeFormat, secondsPerUnitTime);
      text := text + record;
      records := records + [item];
    }

    /** WriteEdgeInstanceToStream: the record, always after ",\n". */
    method WriteEdgeInstance(item: Item)
      requires item.EdgeItem? && outputTimeFormat != "datetime"
      modifies this`text, this`records
      ensures records == old(records) + [item]
      ensures text == old(text) + ",\n" + RecordText(item, outputTimeFormat, secondsPerUnitTime)
    {
      var e := item.edge;
      text := text + ",\n";
      var attributesText := DictToJSONString(e.attributes);
      var directedText := if e.directed then "     \"directed\": \"true\",\n" else "     \"directed\": \"false\",\n";
      var timeStamp := TimeStr(e.creationTime, outputTimeFormat, secondsPerUnitTime);
      var record := EdgeHeader + NatToString(e.id)
        + ("\",\n     \"source\": \"" + NatToString(e.source)
           + "\",\n     \"target\": \"" + NatToString(e.target)
           + "\",\n     \"attributes\": " + attributesText + ",\n"
           + directedText
           + "     \"timeStamp\": \"" + timeStamp + "\"}}");
      assert record == RecordText(item, outputTimeFormat, secondsPerUnitTime);
      text := text + record;
      records := records + [item];
    }

    /** The flush of a due vertex item: write it, add it to the history and take
        it off the schedule. */
    method FlushVertex(item: Item, ghost before: seq<Item>, ghost after: seq<Item>)
      requires Flushing() && item.VertexItem?
      requires schedule == before + [item] + after && item !in before
      modifies this`text, this`writtenTo, this`records, this`vertices, this`schedule
      ensures Flushing()
      ensures schedule == before + after
      ensures records == old(records) + [item]
      ensures vertices == old(vertices) + [item.id]
    {
      FlushVertexStep(vertices, records, writtenTo, text, outputTimeFormat, secondsPerUnitTime, item);
      RemoveFirstAt(before, item, after);
      WriteVertexInstance(item);
      vertices := vertices + [item.id];
      schedule := RemoveFirst(schedule, item);
    }

    /** The flush of a due edge item whose endpoints are in the history: write it and
        take it off the schedule. */
    method FlushEdge(item: Item, ghost before: seq<Item>, ghost after: seq<Item>)
      requires Flushing() && item.EdgeItem?
      requires schedule == before + [item] + after && item !in before
      requires item.edge.source in vertices && item.edge.target in vertices
      modifies this`text, this`records, this`schedule
      ensures Flushing()
      ensures schedule == before + after
      ensures records == old(records) + [item]
    {
      FlushEdgeStep(vertices, records, writtenTo, text, outputTimeFormat, secondsPerUnitTime, item);
      RemoveFirstAt(before, item, after);
      WriteEdgeInstance(item);
      schedule := RemoveFirst(schedule, item);
    }

    /** The body of the flush loop for the j-th item of the copied schedule `items`:
        write it if it is due at `timeUnit`, otherwise leave it scheduled. */
    method ProcessItem(items: seq<Item>, j: nat, timeUnit: nat, ghost h0: seq<nat>, ghost r0: seq<Item>)
      requires j < |items| && PendingCausal(h0, items) && NotBefore(items, timeUnit)
      requires Flushing()
      requires schedule == Kept(items[..j], timeUnit) + items[j..]
      requires vertices == h0 + VertexIds(Due(items[..j], timeUnit))
      requires records == r0 + Due(items[..j], timeUnit)
      modifies this`text, this`writtenTo, this`records, this`vertices, this`schedule
      ensures Flushing()
      ensures schedule == Kept(items[..j + 1], timeUnit) + items[j + 1..]
      ensures vertices == h0 + VertexIds(Due(items[..j + 1], timeUnit))
      ensures records == r0 + Due(items[..j + 1], timeUnit)
    {
      var item := items[j];
      if item.Time() == timeUnit {
        DueStep(items, j, timeUnit);
        ghost var flushed := Due(items[..j], timeUnit);
        if item.VertexItem? {
          FlushVertex(item, Kept(items[..j], timeUnit), items[j + 1..]);
          SnocAssoc(h0, VertexIds(flushed), item.id);
        } else {
          EndpointsFlushedFirst(h0, items, timeUnit, j);
          FlushEdge(item, Kept(items[..j], timeUnit), items[j + 1..]);
          assert VertexIds(flushed) + [] == VertexIds(flushed);
        }
        SnocAssoc(r0, flushed, item);
      } else {
        NotDueStep(items, j, timeUnit);
      }
    }

    /** One stream's turn in ProcessStreamSchedules at tick `timeUnit`: going through a
        copy of the schedule in order, write every item due now, add every written vertex
        to the history and take the written items off the schedule. */
    method ProcessSchedule(timeUnit: nat, ghost n: nat)
      requires Ok(n, timeUnit)
      modifies this`text, this`writtenTo, this`records, this`vertices, this`schedule
      ensures schedule == Kept(old(schedule), timeUnit)
      ensures vertices == old(vertices) + VertexIds(Due(old(schedule), timeUnit))
      ensures records == old(records) + Due(old(schedule), timeUnit)
      ensures writtenTo == (old(writtenTo) || |VertexIds(Due(old(schedule), timeUnit))| > 0)
      ensures Ok(n, timeUnit + 1)
    {
      var items := schedule;
      ghost var h0 := vertices;
      ghost var r0 := records;
      ghost var w0 := writtenTo;
      FlushLoopStart(items, h0, r0, timeUnit);
      for j := 0 to |items|
        invariant Flushing()
        invariant schedule == Kept(items[..j], timeUnit) + items[j..]
        invariant vertices == h0 + VertexIds(Due(items[..j], timeUnit))
        invariant records == r0 + Due(items[..j], timeUnit)
      {
        ProcessItem(items, j, timeUnit, h0, r0);
      }
      FlushLoopEnd(items, timeUnit);
      FlushPreservesInvariant(h0, items, r0, w0, n, timeUnit);
    }
  }
}
