/** The text gsg.py writes: time stamps, the vertex and edge records of a
    stream file and the occurrence records of the instances file. Each
    file's opening "[\n" and closing "\n]\n" are not part of this model. */
module Output {
  import opened Wrappers
  import opened Text
  import opened GsgClasses
  import opened Schedule

  /** TimeStr for the "units" and "seconds" output formats: the tick itself,
      or the tick scaled by the seconds per unit time. Any other format
      string except "datetime" falls through to "units". */
  function TimeStr(timeUnit: nat, outputTimeFormat: string, secondsPerUnitTime: nat): string
    requires outputTimeFormat != "datetime"
  {
    if outputTimeFormat == "seconds" then NatToString(timeUnit * secondsPerUnitTime)
    else NatToString(timeUnit)
  }

  /** A time stamp reads back as the number of time units, or of seconds. */
  lemma TimeStrValue(timeUnit: nat, outputTimeFormat: string, secondsPerUnitTime: nat)
    requires outputTimeFormat != "datetime"
    ensures IsDecimal(TimeStr(timeUnit, outputTimeFormat, secondsPerUnitTime))
    ensures DecimalValue(TimeStr(timeUnit, outputTimeFormat, secondsPerUnitTime))
         == if outputTimeFormat == "seconds" then timeUnit * secondsPerUnitTime else timeUnit
  {
    if outputTimeFormat == "seconds" {
      NatToStringRoundTrip(timeUnit * secondsPerUnitTime);
    } else {
      NatToStringRoundTrip(timeUnit);
    }
  }

  /** Distinct ticks give distinct stamps (for seconds, when a unit is at least a second). */
  lemma TimeStrInjective(t1: nat, t2: nat, outputTimeFormat: string, secondsPerUnitTime: nat)
    requires outputTimeFormat != "datetime"
    requires outputTimeFormat == "seconds" ==> secondsPerUnitTime > 0
    requires TimeStr(t1, outputTimeFormat, secondsPerUnitTime) == TimeStr(t2, outputTimeFormat, secondsPerUnitTime)
    ensures t1 == t2
  {
    TimeStrValue(t1, outputTimeFormat, secondsPerUnitTime);
    TimeStrValue(t2, outputTimeFormat, secondsPerUnitTime);
    if outputTimeFormat == "seconds" {
      if t1 < t2 {
        MulStrict(t1, t2, secondsPerUnitTime);
      } else if t2 < t1 {
        MulStrict(t2, t1, secondsPerUnitTime);
      }
    }
  }

  lemma MulStrict(a: nat, b: nat, k: nat)
    requires a < b && k > 0
    ensures a * k < b * k
  {
  }

  // ----- Stream records -----

  const VertexHeader: string := "  {\"vertex\": {\n     \"id\": \""
  const EdgeHeader: string := "  {\"edge\": {\n     \"id\": \""

  /** The record WriteVertexInstanceToStream writes after its separator. */
  function VertexRecordText(id: nat, attributes: Attributes, timeStamp: string): string {
    VertexHeader + NatToString(id) + VertexRecordTail(attributes, timeStamp)
  }

  function VertexRecordTail(attributes: Attributes, timeStamp: string): string {
    "\",\n     \"attributes\": " + JSONObject(attributes) + ",\n     \"timeStamp\": \"" + timeStamp + "\"}}"
  }

  /** The record WriteEdgeInstanceToStream writes after its separator. */
  function EdgeRecordText(e: EdgeInstance, timeStamp: string): string {
    EdgeHeader + NatToString(e.id) + EdgeRecordTail(e, timeStamp)
  }

  function EdgeRecordTail(e: EdgeInstance, timeStamp: string): string {
    "\",\n     \"source\": \"" + NatToString(e.source)
    + "\",\n     \"target\": \"" + NatToString(e.target)
    + "\",\n     \"attributes\": " + JSONObject(e.attributes) + ",\n"
    + (if e.directed then "     \"directed\": \"true\",\n" else "     \"directed\": \"false\",\n")
    + "     \"timeStamp\": \"" + timeStamp + "\"}}"
  }

  /** The record text of one flushed item, stamped with its time on that stream. */
  function RecordText(item: Item, outputTimeFormat: string, secondsPerUnitTime: nat): string
    requires outputTimeFormat != "datetime"
  {
    match item
    case VertexItem(id, attributes, time) =>
      VertexRecordText(id, attributes, TimeStr(time, outputTimeFormat, secondsPerUnitTime))
    case EdgeItem(e) =>
      EdgeRecordText(e, TimeStr(e.creationTime, outputTimeFormat, secondsPerUnitTime))
  }

  function RecordTexts(records: seq<Item>, outputTimeFormat: string, secondsPerUnitTime: nat): (r: seq<string>)
    requires outputTimeFormat != "datetime"
    ensures |r| == |records|
    ensures forall i | 0 <= i < |records| :: r[i] == RecordText(records[i], outputTimeFormat, secondsPerUnitTime)
  {
    seq(|records|, i requires 0 <= i < |records| => RecordText(records[i], outputTimeFormat, secondsPerUnitTime))
  }

  /** The body of a stream file: its records, separated by ",\n". */
  function StreamText(records: seq<Item>, outputTimeFormat: string, secondsPerUnitTime: nat): string
    requires outputTimeFormat != "datetime"
  {
    if records == [] then ""
    else if |records| == 1 then RecordText(records[0], outputTimeFormat, secondsPerUnitTime)
    else
      StreamText(records[..|records| - 1], outputTimeFormat, secondsPerUnitTime) + ",\n"
      + RecordText(records[|records| - 1], outputTimeFormat, secondsPerUnitTime)
  }

  /** Writing one more record appends it, preceded by ",\n" unless it is the first. */
  lemma StreamTextSnoc(records: seq<Item>, item: Item, outputTimeFormat: string, secondsPerUnitTime: nat)
    requires outputTimeFormat != "datetime"
    ensures StreamText(records + [item], outputTimeFormat, secondsPerUnitTime)
         == if records == [] then RecordText(item, outputTimeFormat, secondsPerUnitTime)
            else StreamText(records, outputTimeFormat, secondsPerUnitTime) + ",\n"
                 + RecordText(item, outputTimeFormat, secondsPerUnitTime)
  {
    assert (records + [item])[..|records|] == records;
  }

  /** A record appended to a stream's text after the separator its writer chooses. */
  lemma AppendRecord(text: string, records: seq<Item>, item: Item, sep: string, outputTimeFormat: string, secondsPerUnitTime: nat)
    requires outputTimeFormat != "datetime"
    requires text == StreamText(records, outputTimeFormat, secondsPerUnitTime)
    requires sep == if records == [] then "" else ",\n"
    ensures text + sep + RecordText(item, outputTimeFormat, secondsPerUnitTime)
         == StreamText(records + [item], outputTimeFormat, secondsPerUnitTime)
  {
    StreamTextSnoc(records, item, outputTimeFormat, secondsPerUnitTime);
    if records == [] {
      assert text + sep == "";
    }
  }

  /** The stream text is the records' texts joined by ",\n". */
  lemma {:induction false} StreamTextIsJoin(records: seq<Item>, outputTimeFormat: string, secondsPerUnitTime: nat)
    requires outputTimeFormat != "datetime"
    ensures StreamText(records, outputTimeFormat, secondsPerUnitTime)
         == Join(RecordTexts(records, outputTimeFormat, secondsPerUnitTime), ",\n")
    decreases |records|
  {
    if records != [] {
      var init := records[..|records| - 1];
      var last := records[|records| - 1];
      assert init + [last] == records;
      StreamTextIsJoin(init, outputTimeFormat, secondsPerUnitTime);
      StreamTextSnoc(init, last, outputTimeFormat, secondsPerUnitTime);
      var texts := RecordTexts(init, outputTimeFormat, secondsPerUnitTime);
      var r := RecordText(last, outputTimeFormat, secondsPerUnitTime);
      assert RecordTexts(records, outputTimeFormat, secondsPerUnitTime) == texts + [r];
      JoinSnoc(texts, r, ",\n");
    }
  }

  // ----- Reading an id back -----

  /** The longest prefix of s made of decimal digits. */
  function LeadingDigits(s: string): (r: string)
    ensures |r| <= |s| && r == s[..|r|]
  {
    if s != [] && IsDigit(s[0]) then [s[0]] + LeadingDigits(s[1..]) else []
  }

  lemma {:induction false} LeadingDigitsAppend(digits: string, rest: string)
    requires forall i | 0 <= i < |digits| :: IsDigit(digits[i])
    requires rest == [] || !IsDigit(rest[0])
    ensures LeadingDigits(digits + rest) == digits
  {
    if digits != [] {
      assert (digits + rest)[1..] == digits[1..] + rest;
      LeadingDigitsAppend(digits[1..], rest);
    } else {
      assert digits + rest == rest;
    }
  }

  /** The id field of a record: the number right after `header`, if the record starts with it. */
  function ReadId(text: string, header: string): Option<nat> {
    if |header| <= |text| && text[..|header|] == header && IsDecimal(LeadingDigits(text[|header|..])) then
      Some(DecimalValue(LeadingDigits(text[|header|..])))
    else None
  }

  lemma ReadIdAfter(header: string, id: nat, rest: string)
    requires rest != [] && rest[0] == '"'
    ensures ReadId(header + NatToString(id) + rest, header) == Some(id)
  {
    NatToStringRoundTrip(id);
    var text := header + NatToString(id) + rest;
    assert text[..|header|] == header;
    assert text[|header|..] == NatToString(id) + rest;
    LeadingDigitsAppend(NatToString(id), rest);
  }

  lemma HeaderMismatch(h1: string, h2: string, digits: string, rest: string)
    requires 4 < |h1| && 4 < |h2| && h1[4] != h2[4]
    ensures ReadId(h1 + digits + rest, h2) == None
  {
    var text := h1 + digits + rest;
    assert text[4] == h1[4];
  }

  /** A vertex record reads back its id, and is not taken for an edge record. */
  lemma VertexRecordReadBack(id: nat, attributes: Attributes, timeStamp: string)
    ensures ReadId(VertexRecordText(id, attributes, timeStamp), VertexHeader) == Some(id)
    ensures ReadId(VertexRecordText(id, attributes, timeStamp), EdgeHeader) == None
  {
    var tail := VertexRecordTail(attributes, timeStamp);
    assert tail[0] == '"';
    ReadIdAfter(VertexHeader, id, tail);
    HeaderMismatch(VertexHeader, EdgeHeader, NatToString(id), VertexRecordTail(attributes, timeStamp));
  }

  /** An edge record reads back its id, and is not taken for a vertex record. */
  lemma EdgeRecordReadBack(e: EdgeInstance, timeStamp: string)
    ensures ReadId(EdgeRecordText(e, timeStamp), EdgeHeader) == Some(e.id)
    ensures ReadId(EdgeRecordText(e, timeStamp), VertexHeader) == None
  {
    var tail := EdgeRecordTail(e, timeStamp);
    assert tail[0] == '"';
    ReadIdAfter(EdgeHeader, e.id, tail);
    assert EdgeHeader[4] == 'e' && VertexHeader[4] == 'v';
    HeaderMismatch(EdgeHeader, VertexHeader, NatToString(e.id), tail);
  }

  // ----- The instances file -----

  function QuotedId(n: nat): string {
    "\"" + NatToString(n) + "\""
  }

  function QuotedIds(ids: seq<nat>): (r: seq<string>)
    ensures |r| == |ids|
    ensures forall i | 0 <= i < |ids| :: r[i] == QuotedId(ids[i])
  {
    seq(|ids|, i requires 0 <= i < |ids| => QuotedId(ids[i]))
  }

  function InstanceVertexIds(inst: PatternInstance): (r: seq<nat>)
    ensures |r| == |inst.vertices| && forall i | 0 <= i < |r| :: r[i] == inst.vertices[i].id
  {
    seq(|inst.vertices|, i requires 0 <= i < |inst.vertices| => inst.vertices[i].id)
  }

  function InstanceEdgeIds(inst: PatternInstance): (r: seq<nat>)
    ensures |r| == |inst.edges| && forall i | 0 <= i < |r| :: r[i] == inst.edges[i].id
  {
    seq(|inst.edges|, i requires 0 <= i < |inst.edges| => inst.edges[i].id)
  }

  /** The record WritePatternInstance writes after its separator. */
  function InstanceText(inst: PatternInstance): string {
    "  {\"patternId\": \"" + inst.id + "\",\n"
    + "   \"vertexIds\": [" + Join(QuotedIds(InstanceVertexIds(inst)), ", ") + "],\n"
    + "   \"edgeIds\": [" + Join(QuotedIds(InstanceEdgeIds(inst)), ", ") + "]\n  }"
  }

  function InstanceTexts(insts: seq<PatternInstance>): (r: seq<string>)
    ensures |r| == |insts| && forall i | 0 <= i < |insts| :: r[i] == InstanceText(insts[i])
  {
    seq(|insts|, i requires 0 <= i < |insts| => InstanceText(insts[i]))
  }

  /** The body of the instances file: the tracked occurrences, separated by ",\n". */
  function InstancesText(insts: seq<PatternInstance>): string {
    Join(InstanceTexts(insts), ",\n")
  }

  lemma InstancesTextSnoc(insts: seq<PatternInstance>, inst: PatternInstance)
    ensures InstancesText(insts + [inst])
         == if insts == [] then InstanceText(inst) else InstancesText(insts) + ",\n" + InstanceText(inst)
  {
    assert InstanceTexts(insts + [inst]) == InstanceTexts(insts) + [InstanceText(inst)];
    JoinSnoc(InstanceTexts(insts), InstanceText(inst), ",\n");
  }

  /** Every id in an instance's id list reads back from its quoted form. */
  lemma QuotedIdReadBack(n: nat)
    ensures |QuotedId(n)| >= 3 && QuotedId(n)[0] == '"' && QuotedId(n)[|QuotedId(n)| - 1] == '"'
    ensures IsDecimal(QuotedId(n)[1..|QuotedId(n)| - 1])
    ensures DecimalValue(QuotedId(n)[1..|QuotedId(n)| - 1]) == n
  {
    NatToStringRoundTrip(n);
    assert QuotedId(n)[1..|QuotedId(n)| - 1] == NatToString(n);
  }
}
