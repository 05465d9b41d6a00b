/**
 The governed Canvas patch compiler. Every operation is applied twice: to the
 expected graph by entity id, and to the document by paths whose indices are
 found again in the document of the moment.
 */
module CanvasPatch {
  import opened Options
  import opened JsonValues
  import opened CanvasJson

  datatype Operation =
    | AddTextNode(id: string, text: string, x: int, y: int, width: int, height: int, color: Option<string>)
    | AddNode(id: string, kind: string, x: int, y: int, width: int, height: int, fields: map<string, string>)
    | SetText(id: string, text: string)
    | MoveNode(id: string, x: int, y: int, newWidth: Option<int>, newHeight: Option<int>)
    | DeleteNode(id: string)
    | ConnectNodes(id: string, fromNode: string, toNode: string, fields: map<string, string>)
    | DeleteEdge(id: string)
    | SetNodeFields(id: string, updates: seq<(string, Option<string>)>)
    | UpdateEdge(id: string, updates: seq<(string, Option<string>)>)

  datatype Reason =
    | PatchSize | OperationId | FieldUnsupported | FieldInvalid | NodeTypeInvalid | GeometryInvalid | DuplicateTarget
    | GraphInvalidBefore | EntityArrayRequired
    | NodeExists | NodeMissing | NodeNotText | EdgeExists | EdgeMissing | EdgeNodeMissing
    | EdgeReuseAfterRemoval | EdgeChangedBeforeRemoval
    | ProjectionMismatch | GraphInvalidAfter | RootProjectionMismatch | EntityProjectionMismatch

  datatype Result<+T> = Ok(value: T) | Fail(reason: Reason)

  const NodeTypes: set<string> := {"text", "file", "link", "group"}
  const NodeFields: set<string> := {"color", "text", "file", "subpath", "url", "label", "background", "backgroundStyle"}
  const EdgeFields: set<string> := {"label", "color", "fromSide", "toSide", "fromEnd", "toEnd", "fromNode", "toNode"}
  const EdgeOptions: set<string> := {"label", "color", "fromSide", "toSide", "fromEnd", "toEnd"}
  const MaxOperations: nat := 64
  const MaxIdLength: nat := 256

  function TypeFields(kind: string): set<string> {
    if kind == "text" then {"text", "color"}
    else if kind == "file" then {"file", "subpath", "color"}
    else if kind == "link" then {"url", "color"}
    else if kind == "group" then {"label", "background", "backgroundStyle", "color"}
    else {}
  }

  predicate TargetsEdge(op: Operation) { op.ConnectNodes? || op.DeleteEdge? || op.UpdateEdge? }

  // -------------------------------------------------------------------------
  // Checks of one operation and of a whole patch
  // -------------------------------------------------------------------------

  predicate IsSpace(c: char) {
    var n := c as int;
    || 9 <= n <= 13 || n == 32 || n == 0xA0 || n == 0x1680 || 0x2000 <= n <= 0x200A
    || n == 0x2028 || n == 0x2029 || n == 0x202F || n == 0x205F || n == 0x3000 || n == 0xFEFF
  }

  predicate ValidId(id: string) {
    0 < |id| <= MaxIdLength && !IsSpace(id[0]) && !IsSpace(id[|id| - 1])
  }

  function CheckOperation(op: Operation): Option<Reason> {
    if !ValidId(op.id) then Some(OperationId)
    else
      match op
      case SetNodeFields(_, updates) => CheckUpdates(updates, NodeFields)
      case UpdateEdge(_, updates) => CheckUpdates(updates, EdgeFields)
      case AddNode(_, kind, _, _, width, height, fields) =>
        if kind !in NodeTypes then Some(NodeTypeInvalid)
        else if !(fields.Keys <= TypeFields(kind)) then Some(FieldInvalid)
        else if width <= 0 || height <= 0 then Some(GeometryInvalid)
        else None
      case AddTextNode(_, _, _, _, width, height, _) => if width <= 0 || height <= 0 then Some(GeometryInvalid) else None
      case MoveNode(_, _, _, w, h) =>
        if (w.Some? && w.value <= 0) || (h.Some? && h.value <= 0) then Some(GeometryInvalid) else None
      case ConnectNodes(_, _, _, fields) => if fields.Keys <= EdgeOptions then None else Some(FieldUnsupported)
      case _ => None
  }

  function CheckUpdates(updates: seq<(string, Option<string>)>, allowed: set<string>): Option<Reason> {
    if updates == [] || exists u :: u in updates && u.0 !in allowed then Some(FieldUnsupported)
    else if exists u :: u in updates && u.1.None? && u.0 in {"fromNode", "toNode"} then Some(FieldInvalid)
    else None
  }

  /** The first reason to refuse the operations, given the targets already taken. */
  function CheckAll(ops: seq<Operation>, nodes: set<string>, edges: set<string>): Option<Reason> {
    if ops == [] then None
    else
      var op := ops[0];
      if CheckOperation(op).Some? then CheckOperation(op)
      else if op.id in (if TargetsEdge(op) then edges else nodes) then Some(DuplicateTarget)
      else if TargetsEdge(op) then CheckAll(ops[1..], nodes, edges + {op.id})
      else CheckAll(ops[1..], nodes + {op.id}, edges)
  }

  function Canonicalize(ops: seq<Operation>): Option<Reason> {
    if |ops| < 1 || |ops| > MaxOperations then Some(PatchSize) else CheckAll(ops, {}, {})
  }

  // -------------------------------------------------------------------------
  // Well-formed graphs
  // -------------------------------------------------------------------------

  predicate HasText(e: Entity, field: string) { field in e && e[field].Str? }

  predicate TextOrAbsent(e: Entity, field: string) { field in e ==> e[field].Str? }

  predicate OneOfOrAbsent(e: Entity, field: string, allowed: set<string>) {
    field in e ==> e[field].Str? && e[field].text in allowed
  }

  predicate HasInteger(e: Entity, field: string) {
    field in e && e[field].Num? && e[field].number == e[field].number.Floor as real
  }

  predicate NodeOk(n: Entity) {
    && IdOf(n).Some? && ValidId(IdOf(n).value)
    && HasText(n, "type") && n["type"].text in NodeTypes
    && HasInteger(n, "x") && HasInteger(n, "y") && HasInteger(n, "width") && HasInteger(n, "height")
    && n["width"].number > 0.0 && n["height"].number > 0.0
    && TextOrAbsent(n, "color")
    && (forall f :: f in n && f in NodeFields - {"color"} ==> f in TypeFields(n["type"].text))
    && (n["type"].text == "text" ==> HasText(n, "text"))
    && (n["type"].text == "file" ==>
          HasText(n, "file") && TextOrAbsent(n, "subpath") && ("subpath" in n ==> "#" <= n["subpath"].text))
    && (n["type"].text == "link" ==> HasText(n, "url"))
    && (n["type"].text == "group" ==>
          && TextOrAbsent(n, "label") && TextOrAbsent(n, "background")
          && OneOfOrAbsent(n, "backgroundStyle", {"cover", "ratio", "repeat"}))
  }

  predicate EdgeOk(e: Entity) {
    && IdOf(e).Some? && ValidId(IdOf(e).value)
    && OneOfOrAbsent(e, "fromSide", {"top", "right", "bottom", "left"})
    && OneOfOrAbsent(e, "toSide", {"top", "right", "bottom", "left"})
    && OneOfOrAbsent(e, "fromEnd", {"none", "arrow"}) && OneOfOrAbsent(e, "toEnd", {"none", "arrow"})
    && TextOrAbsent(e, "color") && TextOrAbsent(e, "label")
  }

  predicate Present(nodes: seq<Entity>, id: string) {
    exists n :: 0 <= n < |nodes| && IdOf(nodes[n]) == Some(id)
  }

  /** Both endpoints of the edge exist. */
  predicate Anchored(nodes: seq<Entity>, e: Entity) {
    && HasText(e, "fromNode") && HasText(e, "toNode")
    && Present(nodes, e["fromNode"].text) && Present(nodes, e["toNode"].text)
  }

  predicate AllAnchored(g: Graph) {
    forall k :: 0 <= k < |g.edges| ==> Anchored(g.nodes, g.edges[k])
  }

  predicate GraphOk(g: Graph) {
    && (forall k :: 0 <= k < |g.nodes| ==> NodeOk(g.nodes[k])) && UniqueIds(g.nodes)
    && (forall k :: 0 <= k < |g.edges| ==> EdgeOk(g.edges[k])) && UniqueIds(g.edges)
    && AllAnchored(g)
  }

  // -------------------------------------------------------------------------
  // One operation, on both representations
  // -------------------------------------------------------------------------

  datatype Progress = Progress(
    expected: Graph,
    next: Json,
    changedNodes: set<string>,
    changedEdges: set<string>,
    removedIncident: set<string>)

  function Number(n: int): Json { Num(n as real) }

  function Texts(fields: map<string, string>): Entity {
    map f | f in fields :: Str(fields[f])
  }

  function NewTextNode(op: Operation): Entity
    requires op.AddTextNode?
  {
    var base := map["id" := Str(op.id), "type" := Str("text"), "x" := Number(op.x), "y" := Number(op.y),
                    "width" := Number(op.width), "height" := Number(op.height), "text" := Str(op.text)];
    if op.color.Some? then base["color" := Str(op.color.value)] else base
  }

  function NewNode(op: Operation): Entity
    requires op.AddNode?
  {
    map["id" := Str(op.id), "type" := Str(op.kind), "x" := Number(op.x), "y" := Number(op.y),
        "width" := Number(op.width), "height" := Number(op.height)] + Texts(op.fields)
  }

  function NewEdge(op: Operation): Entity
    requires op.ConnectNodes?
  {
    map["id" := Str(op.id), "fromNode" := Str(op.fromNode), "toNode" := Str(op.toNode)] + Texts(op.fields)
  }

  type Edit = (string, Option<Json>)

  function EditsOf(op: Operation): seq<Edit>
    requires op.SetText? || op.MoveNode? || op.SetNodeFields? || op.UpdateEdge?
  {
    match op
    case SetText(_, text) => [("text", Some(Str(text)))]
    case MoveNode(_, x, y, w, h) =>
      [("x", Some(Number(x))), ("y", Some(Number(y)))]
      + (if w.Some? then [("width", Some(Number(w.value)))] else [])
      + (if h.Some? then [("height", Some(Number(h.value)))] else [])
    case SetNodeFields(_, updates) => TextEdits(updates)
    case UpdateEdge(_, updates) => TextEdits(updates)
  }

  function TextEdits(updates: seq<(string, Option<string>)>): seq<Edit> {
    seq(|updates|, i requires 0 <= i < |updates| =>
      (updates[i].0, if updates[i].1.Some? then Some(Str(updates[i].1.value)) else None))
  }

  /** The field edits, in order, on the entity itself. */
  function EditEntity(e: Entity, edits: seq<Edit>): Entity
    decreases |edits|
  {
    if edits == [] then e
    else EditEntity(if edits[0].1.Some? then e[edits[0].0 := edits[0].1.value] else e - {edits[0].0}, edits[1..])
  }

  /** The same edits, one path edit each, on the document. */
  function EditDocument(doc: Json, list: string, at: int, edits: seq<Edit>): Json
    decreases |edits|
  {
    if edits == [] then doc
    else EditDocument(Modify(doc, [Key(list), Index(at), Key(edits[0].0)], edits[0].1), list, at, edits[1..])
  }

  predicate Touches(e: Entity, node: string) {
    (HasText(e, "fromNode") && e["fromNode"].text == node) || (HasText(e, "toNode") && e["toNode"].text == node)
  }

  function Incident(edges: seq<Entity>, node: string): set<string> {
    set k | 0 <= k < |edges| && Touches(edges[k], node) && IdOf(edges[k]).Some? :: IdOf(edges[k]).value
  }

  function NotTouching(edges: seq<Entity>, node: string): seq<Entity> {
    if edges == [] then []
    else (if Touches(edges[0], node) then [] else [edges[0]]) + NotTouching(edges[1..], node)
  }

  /** The entities whose id is not in `ids`, in order. */
  function Outside(items: seq<Entity>, ids: set<string>): seq<Entity> {
    if items == [] then []
    else (if IdOf(items[0]).Some? && IdOf(items[0]).value in ids then [] else [items[0]]) + Outside(items[1..], ids)
  }

  /** The document after its array splice: only edges outside `ids` remain. */
  function RemoveEdgesById(doc: Json, ids: set<string>): Json {
    var edges := Entities(doc, "edges");
    if ids == {} || edges.None? then doc
    else Modify(doc, [Key("edges")], Some(Arr(Objects(Outside(edges.value, ids)))))
  }

  function AddEntity(p: Progress, node: Entity, id: string, isNode: bool): Result<Progress> {
    var list := if isNode then "nodes" else "edges";
    var current := Entities(p.next, list);
    if current.None? then Fail(EntityArrayRequired)
    else
      var next := Modify(p.next, [Key(list), Index(|current.value|)], Some(Obj(node)));
      if isNode then
        Ok(p.(expected := p.expected.(nodes := p.expected.nodes + [node]), next := next, changedNodes := p.changedNodes + {id}))
      else
        Ok(p.(expected := p.expected.(edges := p.expected.edges + [node]), next := next, changedEdges := p.changedEdges + {id}))
  }

  function StepAdd(p: Progress, op: Operation): Result<Progress>
    requires op.AddTextNode? || op.AddNode?
  {
    if IndexById(p.expected.nodes, op.id) != -1 then Fail(NodeExists)
    else AddEntity(p, if op.AddTextNode? then NewTextNode(op) else NewNode(op), op.id, true)
  }

  function StepEdit(p: Progress, op: Operation): Result<Progress>
    requires op.SetText? || op.MoveNode? || op.SetNodeFields? || op.UpdateEdge?
  {
    var isNode := !op.UpdateEdge?;
    var list := if isNode then "nodes" else "edges";
    var items := if isNode then p.expected.nodes else p.expected.edges;
    var current := Entities(p.next, list);
    if !isNode && op.id in p.removedIncident then Fail(EdgeReuseAfterRemoval)
    else
      var index := IndexById(items, op.id);
      if index == -1 then Fail(if isNode then NodeMissing else EdgeMissing)
      else if op.SetText? && !(HasText(items[index], "type") && items[index]["type"].text == "text") then Fail(NodeNotText)
      else if current.None? then Fail(EntityArrayRequired)
      else
        var edited := items[index := EditEntity(items[index], EditsOf(op))];
        var next := EditDocument(p.next, list, IndexById(current.value, op.id), EditsOf(op));
        if isNode then
          Ok(p.(expected := p.expected.(nodes := edited), next := next, changedNodes := p.changedNodes + {op.id}))
        else
          Ok(p.(expected := p.expected.(edges := edited), next := next, changedEdges := p.changedEdges + {op.id}))
  }

  function StepDeleteNode(p: Progress, op: Operation): Result<Progress>
    requires op.DeleteNode?
  {
    var index := IndexById(p.expected.nodes, op.id);
    if index == -1 then Fail(NodeMissing)
    else
      var incident := Incident(p.expected.edges, op.id);
      if incident !! p.changedEdges then
        var kept := RemoveEdgesById(p.next, incident);
        var nodes := Entities(kept, "nodes");
        if nodes.None? then Fail(EntityArrayRequired)
        else
          Ok(p.(expected := p.expected.(nodes := p.expected.nodes[..index] + p.expected.nodes[index + 1..],
                                        edges := NotTouching(p.expected.edges, op.id)),
                next := Modify(kept, [Key("nodes"), Index(IndexById(nodes.value, op.id))], None),
                changedNodes := p.changedNodes + {op.id},
                changedEdges := p.changedEdges + incident,
                removedIncident := p.removedIncident + incident))
      else Fail(EdgeChangedBeforeRemoval)
  }

  function StepConnect(p: Progress, op: Operation): Result<Progress>
    requires op.ConnectNodes?
  {
    if op.id in p.removedIncident then Fail(EdgeReuseAfterRemoval)
    else if IndexById(p.expected.edges, op.id) != -1 then Fail(EdgeExists)
    else if IndexById(p.expected.nodes, op.fromNode) == -1 || IndexById(p.expected.nodes, op.toNode) == -1 then Fail(EdgeNodeMissing)
    else AddEntity(p, NewEdge(op), op.id, false)
  }

  function StepDeleteEdge(p: Progress, op: Operation): Result<Progress>
    requires op.DeleteEdge?
  {
    var index := IndexById(p.expected.edges, op.id);
    var current := Entities(p.next, "edges");
    if index == -1 then Fail(EdgeMissing)
    else if current.None? then Fail(EntityArrayRequired)
    else
      Ok(p.(expected := p.expected.(edges := p.expected.edges[..index] + p.expected.edges[index + 1..]),
            next := Modify(p.next, [Key("edges"), Index(IndexById(current.value, op.id))], None),
            changedEdges := p.changedEdges + {op.id}))
  }

  function Step(p: Progress, op: Operation): Result<Progress> {
    match op
    case AddTextNode(_, _, _, _, _, _, _) => StepAdd(p, op)
    case AddNode(_, _, _, _, _, _, _) => StepAdd(p, op)
    case DeleteNode(_) => StepDeleteNode(p, op)
    case ConnectNodes(_, _, _, _) => StepConnect(p, op)
    case DeleteEdge(_) => StepDeleteEdge(p, op)
    case _ => StepEdit(p, op)
  }

  function Begin(doc: Json, g: Graph): Progress { Progress(g, doc, {}, {}, {}) }

  /** The progress after all operations, or the first refusal. */
  function Steps(p: Progress, ops: seq<Operation>): Result<Progress>
    decreases |ops|
  {
    if ops == [] then Ok(p)
    else
      var before := Steps(p, ops[..|ops| - 1]);
      if before.Fail? then before else Step(before.value, ops[|ops| - 1])
  }

  // -------------------------------------------------------------------------
  // The checks after the last operation
  // -------------------------------------------------------------------------

  /** The effect counts published with the compiled document. */
  datatype Proof = Proof(
    changedNodes: set<string>,
    changedEdges: set<string>,
    changedEdgeCount: nat,
    removedIncidentEdges: set<string>,
    removedIncidentEdgeCount: nat,
    nodesBefore: nat, edgesBefore: nat,
    nodesAfter: nat, edgesAfter: nat)

  datatype Compiled = Compiled(next: Json, proof: Proof)

  function Finish(before: Graph, p: Progress): Result<Compiled> {
    var parsed := FromJson(p.next);
    if parsed.None? then Fail(EntityArrayRequired)
    else
      var after := parsed.value;
      if p.next != ToJson(p.expected) then Fail(ProjectionMismatch)
      else if !GraphOk(after) then Fail(GraphInvalidAfter)
      else if before.rest != after.rest then Fail(RootProjectionMismatch)
      else if Outside(before.nodes, p.changedNodes) != Outside(after.nodes, p.changedNodes)
              || Outside(before.edges, p.changedEdges) != Outside(after.edges, p.changedEdges) then Fail(EntityProjectionMismatch)
      else
        Ok(Compiled(p.next, Proof(p.changedNodes, p.changedEdges - p.removedIncident, |p.changedEdges|, p.removedIncident, |p.removedIncident|,
                                  |before.nodes|, |before.edges|, |after.nodes|, |after.edges|)))
  }
}
