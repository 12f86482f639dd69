/** The record types of gsgClasses.py and its two dictionary serialisers.

    A Python dict is modelled by the list of its items in the order the dict
    yields them (a hash order in Python 2), each key and value already
    rendered with str(). */
module GsgClasses {
  import opened Text

  type Attributes = seq<(string, string)>

  /** A template vertex; `isNew` is the source's `new` field. */
  datatype Vertex = Vertex(id: string, isNew: bool, attributes: Attributes)

  /** A template edge: endpoints by template-local vertex id, the offset
      window of its creation time and the 1-based stream it goes to. */
  datatype Edge = Edge(
    id: string,
    source: string,
    target: string,
    directed: bool,
    minOffset: int,
    maxOffset: int,
    streamNum: int,
    attributes: Attributes)

  datatype Pattern = Pattern(
    id: string,
    track: bool,
    probability: real,
    vertices: seq<Vertex>,
    edges: seq<Edge>)

  /** The field values Vertex() starts with. */
  function DefaultVertex(): Vertex {
    Vertex("", true, [])
  }

  /** The field values Edge() starts with. */
  function DefaultEdge(): Edge {
    Edge("", "", "", false, 0, 0, 1, [])
  }

  /** The field values Pattern() starts with. */
  function DefaultPattern(): Pattern {
    Pattern("", false, 0.0, [], [])
  }

  /** One concrete vertex of an occurrence: its id, its attributes, and the time at
      which it is emitted on each stream it is created on. An empty map means "an
      existing vertex, emitted nowhere". */
  datatype VertexInstance = VertexInstance(id: nat, attributes: Attributes, streamCreationTimes: map<nat, nat>)

  /** A concrete edge; id 0 means "not yet assigned". */
  datatype EdgeInstance = EdgeInstance(
    id: nat,
    source: nat,
    target: nat,
    directed: bool,
    attributes: Attributes,
    streamNum: nat,
    creationTime: nat)

  /** The field values EdgeInstance() starts with. */
  function DefaultEdgeInstance(): EdgeInstance {
    EdgeInstance(0, 0, 0, false, [], 0, 0)
  }

  /** One successful occurrence: the pattern's id, its vertices in binding
      order and its edges in template order. */
  datatype PatternInstance = PatternInstance(id: string, vertices: seq<VertexInstance>, edges: seq<EdgeInstance>)

  // ----- DictToString -----

  function PlainEntry(kv: (string, string)): string {
    kv.0 + "=" + kv.1
  }

  function PlainEntries(dict: Attributes): (r: seq<string>)
    ensures |r| == |dict|
    ensures forall i | 0 <= i < |dict| :: r[i] == PlainEntry(dict[i])
  {
    seq(|dict|, i requires 0 <= i < |dict| => PlainEntry(dict[i]))
  }

  /** What DictToString builds: `{k1=v1, k2=v2}`, and "{}" for no entries. */
  function PlainObject(dict: Attributes): string {
    "{" + Join(PlainEntries(dict), ", ") + "}"
  }

  method DictToString(dict: Attributes) returns (dictStr: string)
    ensures dictStr == PlainObject(dict)
  {
    dictStr := "{";
    ghost var done: seq<string> := [];
    if |dict| > 0 {
      var first := true;
      for i := 0 to |dict|
        invariant first <==> i == 0
        invariant |done| == i && forall j | 0 <= j < i :: done[j] == PlainEntry(dict[j])
        invariant dictStr == "{" + Join(done, ", ")
      {
        JoinSnoc(done, PlainEntry(dict[i]), ", ");
        if first {
          first := false;
        } else {
          dictStr := dictStr + ", ";
        }
        dictStr := dictStr + PlainEntry(dict[i]);
        done := done + [PlainEntry(dict[i])];
      }
    }
    assert done == PlainEntries(dict);
    dictStr := dictStr + "}";
  }


  // ----- DictToJSONString -----

  function JSONEntry(kv: (string, string)): string {
    "\"" + kv.0 + "\": \"" + kv.1 + "\""
  }

  function JSONEntries(dict: Attributes): (r: seq<string>)
    ensures |r| == |dict|
    ensures forall i | 0 <= i < |dict| :: r[i] == JSONEntry(dict[i])
  {
    seq(|dict|, i requires 0 <= i < |dict| => JSONEntry(dict[i]))
  }

  /** What DictToJSONString builds: `{"k1": "v1", "k2": "v2"}` with no
      escaping, and "{}" for no entries. */
  function JSONObject(dict: Attributes): string {
    "{" + Join(JSONEntries(dict), ", ") + "}"
  }

  method DictToJSONString(dict: Attributes) returns (dictStr: string)
    ensures dictStr == JSONObject(dict)
  {
    dictStr := "{";
    ghost var done: seq<string> := [];
    if |dict| > 0 {
      var first := true;
      for i := 0 to |dict|
        invariant first <==> i == 0
        invariant |done| == i && forall j | 0 <= j < i :: done[j] == JSONEntry(dict[j])
        invariant dictStr == "{" + Join(done, ", ")
      {
        JoinSnoc(done, JSONEntry(dict[i]), ", ");
        if first {
          first := false;
        } else {
          dictStr := dictStr + ", ";
        }
        dictStr := dictStr + JSONEntry(dict[i]);
        done := done + [JSONEntry(dict[i])];
      }
    }
    assert done == JSONEntries(dict);
    dictStr := dictStr + "}";
  }


  /** Both serialisers give "{}" exactly for the empty mapping. */
  lemma EmptyObjects(dict: Attributes)
    ensures JSONObject(dict) == "{}" <==> dict == []
    ensures PlainObject(dict) == "{}" <==> dict == []
  {
    if dict != [] {
      JoinEnds(JSONEntries(dict), ", ");
      JoinEnds(PlainEntries(dict), ", ");
      assert |JSONObject(dict)| > 2;
      assert |PlainEntry(dict[0])| >= 1;
      assert |PlainObject(dict)| > 2;
    }
  }

  /** Adding one item to a non-empty mapping inserts `, "k": "v"` before
      the closing brace: the output is the entries in iteration order. */
  lemma JSONObjectSnoc(dict: Attributes, k: string, v: string)
    requires dict != []
    ensures JSONObject(dict + [(k, v)])
         == JSONObject(dict)[..|JSONObject(dict)| - 1] + ", \"" + k + "\": \"" + v + "\"}"
  {
    assert JSONEntries(dict + [(k, v)]) == JSONEntries(dict) + [JSONEntry((k, v))];
    JoinSnoc(JSONEntries(dict), JSONEntry((k, v)), ", ");
    var j := Join(JSONEntries(dict), ", ");
    assert JSONObject(dict)[..|JSONObject(dict)| - 1] == "{" + j;
    assert ", \"" == ", " + "\"" && "\"}" == "\"" + "}";
  }

  /** A single item is rendered `{"k": "v"}` and `{k=v}`. */
  lemma SingleEntryObjects(k: string, v: string)
    ensures JSONObject([(k, v)]) == "{\"" + k + "\": \"" + v + "\"}"
    ensures PlainObject([(k, v)]) == "{" + k + "=" + v + "}"
  {
    assert JSONEntries([(k, v)]) == [JSONEntry((k, v))];
    assert PlainEntries([(k, v)]) == [PlainEntry((k, v))];
  }
}
