/** JSON trees, and the contract of the path edits the Canvas compiler applies to its document text. */
module CanvasJson {
  import opened Options
  import opened JsonValues

  datatype Segment = Key(name: string) | Index(at: int)

  /** Sets the value at `path`, or removes it when there is no value; an index equal to the length appends. */
  function Modify(doc: Json, path: seq<Segment>, value: Option<Json>): Json
    requires path != []
    decreases |path|
  {
    match path[0]
    case Key(k) =>
      if !doc.Obj? then doc
      else if |path| == 1 then
        if value.Some? then Obj(doc.fields[k := value.value]) else Obj(doc.fields - {k})
      else if k in doc.fields then Obj(doc.fields[k := Modify(doc.fields[k], path[1..], value)])
      else doc
    case Index(i) =>
      if !doc.Arr? || i < 0 || i > |doc.items| then doc
      else if |path| == 1 then
        if value.None? then (if i < |doc.items| then Arr(doc.items[..i] + doc.items[i + 1..]) else doc)
        else if i < |doc.items| then Arr(doc.items[i := value.value])
        else Arr(doc.items + [value.value])
      else if i < |doc.items| then Arr(doc.items[i := Modify(doc.items[i], path[1..], value)])
      else doc
  }

  type Entity = map<string, Json>

  /** The entities listed under a key of the document, when that is an array of objects. */
  function Entities(doc: Json, key: string): Option<seq<Entity>> {
    if doc.Obj? && key in doc.fields && doc.fields[key].Arr? && (forall item :: item in doc.fields[key].items ==> item.Obj?)
    then var items := doc.fields[key].items; Some(seq(|items|, i requires 0 <= i < |items| => items[i].fields))
    else None
  }

  function Objects(entities: seq<Entity>): seq<Json> {
    seq(|entities|, i requires 0 <= i < |entities| => Obj(entities[i]))
  }

  /** A Canvas as the compiler's intent sees it: the entities, and every other root field. */
  datatype Graph = Graph(rest: map<string, Json>, nodes: seq<Entity>, edges: seq<Entity>)

  function ToJson(g: Graph): Json {
    Obj(g.rest["nodes" := Arr(Objects(g.nodes))]["edges" := Arr(Objects(g.edges))])
  }

  function FromJson(doc: Json): Option<Graph> {
    if !doc.Obj? then None
    else
      var nodes, edges := Entities(doc, "nodes"), Entities(doc, "edges");
      if nodes.None? || edges.None? then None
      else Some(Graph(doc.fields - {"nodes", "edges"}, nodes.value, edges.value))
  }

  function IdOf(e: Entity): Option<string> {
    if "id" in e && e["id"].Str? then Some(e["id"].text) else None
  }

  function IndexById(items: seq<Entity>, id: string): (i: int)
    ensures -1 <= i < |items|
    ensures i >= 0 ==> IdOf(items[i]) == Some(id)
    ensures i == -1 <==> forall k :: 0 <= k < |items| ==> IdOf(items[k]) != Some(id)
  {
    if items == [] then -1
    else if IdOf(items[0]) == Some(id) then 0
    else var rest := IndexById(items[1..], id); if rest == -1 then -1 else rest + 1
  }

  predicate UniqueIds(items: seq<Entity>) {
    && (forall i :: 0 <= i < |items| ==> IdOf(items[i]).Some?)
    && (forall i, j :: 0 <= i < j < |items| ==> IdOf(items[i]) != IdOf(items[j]))
  }
}
