/** What an accepted Canvas patch does: both representations stay equal, and every effect is counted. */
module CanvasPatchProofs {
  import opened Options
  import opened JsonValues
  import opened CanvasJson
  import opened CanvasPatch

  // -------------------------------------------------------------------------
  // Path edits on the document of a graph
  // -------------------------------------------------------------------------

  lemma EntitiesOfGraph(g: Graph)
    ensures Entities(ToJson(g), "nodes") == Some(g.nodes)
    ensures Entities(ToJson(g), "edges") == Some(g.edges)
  {
    var doc := ToJson(g);
    assert "nodes" != "edges";
    assert doc.fields["nodes"] == Arr(Objects(g.nodes));
    assert doc.fields["edges"] == Arr(Objects(g.edges));
    assert Entities(doc, "nodes").value == g.nodes;
    assert Entities(doc, "edges").value == g.edges;
  }

  function WithList(g: Graph, isNode: bool, items: seq<Entity>): Graph {
    if isNode then g.(nodes := items) else g.(edges := items)
  }

  function ListOf(g: Graph, isNode: bool): seq<Entity> {
    if isNode then g.nodes else g.edges
  }

  function ListKey(isNode: bool): string {
    if isNode then "nodes" else "edges"
  }

  lemma ReplacedList(g: Graph, isNode: bool, items: seq<Entity>)
    ensures Obj(ToJson(g).fields[ListKey(isNode) := Arr(Objects(items))]) == ToJson(WithList(g, isNode, items))
  {
    assert "nodes" != "edges";
  }

  lemma AppendToDocument(g: Graph, isNode: bool, e: Entity)
    ensures Modify(ToJson(g), [Key(ListKey(isNode)), Index(|ListOf(g, isNode)|)], Some(Obj(e)))
            == ToJson(WithList(g, isNode, ListOf(g, isNode) + [e]))
  {
    var items := ListOf(g, isNode);
    assert [Key(ListKey(isNode)), Index(|items|)][1..] == [Index(|items|)];
    assert Objects(items + [e]) == Objects(items) + [Obj(e)];
    ReplacedList(g, isNode, items + [e]);
  }

  lemma RemoveFromDocument(g: Graph, isNode: bool, at: int)
    requires 0 <= at < |ListOf(g, isNode)|
    ensures var items := ListOf(g, isNode);
            Modify(ToJson(g), [Key(ListKey(isNode)), Index(at)], None) == ToJson(WithList(g, isNode, items[..at] + items[at + 1..]))
  {
    var items := ListOf(g, isNode);
    assert [Key(ListKey(isNode)), Index(at)][1..] == [Index(at)];
    assert Objects(items[..at] + items[at + 1..]) == Objects(items)[..at] + Objects(items)[at + 1..];
    ReplacedList(g, isNode, items[..at] + items[at + 1..]);
  }

  lemma EditOneField(g: Graph, isNode: bool, at: int, field: string, value: Option<Json>)
    requires 0 <= at < |ListOf(g, isNode)|
    ensures var items := ListOf(g, isNode);
            Modify(ToJson(g), [Key(ListKey(isNode)), Index(at), Key(field)], value)
            == ToJson(WithList(g, isNode, items[at := EditEntity(items[at], [(field, value)])]))
  {
    var items := ListOf(g, isNode);
    var path := [Key(ListKey(isNode)), Index(at), Key(field)];
    assert path[1..] == [Index(at), Key(field)] && path[1..][1..] == [Key(field)];
    var edited := if value.Some? then items[at][field := value.value] else items[at] - {field};
    assert EditEntity(items[at], [(field, value)]) == edited by {
      assert [(field, value)][1..] == [];
    }
    assert Objects(items)[at] == Obj(items[at]);
    assert Modify(Obj(items[at]), [Key(field)], value) == Obj(edited);
    assert Modify(Arr(Objects(items)), [Index(at), Key(field)], value) == Arr(Objects(items)[at := Obj(edited)]);
    assert Objects(items[at := edited]) == Objects(items)[at := Obj(edited)];
    ReplacedList(g, isNode, items[at := edited]);
  }

  lemma {:induction false} EditFields(g: Graph, isNode: bool, at: int, edits: seq<Edit>)
    requires 0 <= at < |ListOf(g, isNode)|
    ensures var items := ListOf(g, isNode);
            EditDocument(ToJson(g), ListKey(isNode), at, edits) == ToJson(WithList(g, isNode, items[at := EditEntity(items[at], edits)]))
    decreases |edits|
  {
    var items := ListOf(g, isNode);
    if edits == [] {
      assert items[at := items[at]] == items;
    } else {
      EditOneField(g, isNode, at, edits[0].0, edits[0].1);
      var first := EditEntity(items[at], [edits[0]]);
      assert [edits[0]][1..] == [];
      EditFields(WithList(g, isNode, items[at := first]), isNode, at, edits[1..]);
      assert items[at := first][at := EditEntity(first, edits[1..])] == items[at := EditEntity(items[at], edits)];
    }
  }

  // -------------------------------------------------------------------------
  // Removing incident edges by id is removing the edges that touch the node
  // -------------------------------------------------------------------------

  lemma SameIdSameIndex(items: seq<Entity>, i: nat, j: nat)
    requires UniqueIds(items) && i < |items| && j < |items| && IdOf(items[i]) == IdOf(items[j])
    ensures i == j
  {
  }

  lemma IncidentHas(edges: seq<Entity>, node: string, k: nat)
    requires UniqueIds(edges) && k < |edges|
    ensures IdOf(edges[k]).value in Incident(edges, node) <==> Touches(edges[k], node)
  {
    if IdOf(edges[k]).value in Incident(edges, node) {
      var j :| 0 <= j < |edges| && Touches(edges[j], node) && IdOf(edges[j]).Some? && IdOf(edges[j]).value == IdOf(edges[k]).value;
      SameIdSameIndex(edges, j, k);
    }
  }

  lemma {:induction false} OutsideIsNotTouching(edges: seq<Entity>, ids: set<string>, node: string)
    requires forall k :: 0 <= k < |edges| ==> IdOf(edges[k]).Some? && (IdOf(edges[k]).value in ids <==> Touches(edges[k], node))
    ensures Outside(edges, ids) == NotTouching(edges, node)
  {
    if edges != [] { OutsideIsNotTouching(edges[1..], ids, node); }
  }

  lemma {:induction false} OutsideNothing(items: seq<Entity>, ids: set<string>)
    requires forall k :: 0 <= k < |items| && IdOf(items[k]).Some? ==> IdOf(items[k]).value !in ids
    ensures Outside(items, ids) == items
  {
    if items != [] { OutsideNothing(items[1..], ids); }
  }

  /** Deleting the incident edges by index is deleting the edges that touch the node. */
  lemma CascadeAgrees(g: Graph, node: string)
    requires UniqueIds(g.edges)
    ensures RemoveEdgesById(ToJson(g), Incident(g.edges, node)) == ToJson(g.(edges := NotTouching(g.edges, node)))
  {
    var ids := Incident(g.edges, node);
    EntitiesOfGraph(g);
    forall k | 0 <= k < |g.edges| ensures IdOf(g.edges[k]).Some? && (IdOf(g.edges[k]).value in ids <==> Touches(g.edges[k], node)) {
      IncidentHas(g.edges, node, k);
    }
    OutsideIsNotTouching(g.edges, ids, node);
    if ids == {} { OutsideNothing(g.edges, ids); }
    assert Modify(ToJson(g), [Key("edges")], Some(Arr(Objects(Outside(g.edges, ids))))) ==
           Obj(ToJson(g).fields["edges" := Arr(Objects(Outside(g.edges, ids)))]);
    ReplacedList(g, false, NotTouching(g.edges, node));
  }

  // -------------------------------------------------------------------------
  // Lockstep
  // -------------------------------------------------------------------------

  predicate Lockstep(p: Progress) {
    && p.next == ToJson(p.expected)
    && UniqueIds(p.expected.nodes) && UniqueIds(p.expected.edges)
  }

  /** Field edits never name the id. */
  predicate KeepsId(edits: seq<Edit>) {
    forall k :: 0 <= k < |edits| ==> edits[k].0 != "id"
  }

  lemma {:induction false} EditKeepsId(e: Entity, edits: seq<Edit>)
    requires KeepsId(edits)
    ensures IdOf(EditEntity(e, edits)) == IdOf(e)
    decreases |edits|
  {
    if edits != [] {
      assert edits[0].0 != "id";
      EditKeepsId(if edits[0].1.Some? then e[edits[0].0 := edits[0].1.value] else e - {edits[0].0}, edits[1..]);
    }
  }

  lemma CheckedEditsKeepId(op: Operation)
    requires op.SetText? || op.MoveNode? || op.SetNodeFields? || op.UpdateEdge?
    requires CheckOperation(op).None?
    ensures KeepsId(EditsOf(op))
  {
    if op.SetNodeFields? || op.UpdateEdge? {
      forall k | 0 <= k < |op.updates| ensures op.updates[k].0 != "id" { assert op.updates[k] in op.updates; }
    }
  }

  lemma UniqueAppend(items: seq<Entity>, e: Entity, id: string)
    requires UniqueIds(items) && IdOf(e) == Some(id) && IndexById(items, id) == -1
    ensures UniqueIds(items + [e])
  {
  }

  lemma UniqueEdit(items: seq<Entity>, at: int, e: Entity)
    requires UniqueIds(items) && 0 <= at < |items| && IdOf(e) == IdOf(items[at])
    ensures UniqueIds(items[at := e])
  {
    var edited := items[at := e];
    forall i, j | 0 <= i < j < |edited| ensures IdOf(edited[i]) != IdOf(edited[j]) {
      assert IdOf(items[i]) != IdOf(items[j]);
    }
  }

  lemma UniqueRemove(items: seq<Entity>, at: int)
    requires UniqueIds(items) && 0 <= at < |items|
    ensures UniqueIds(items[..at] + items[at + 1..])
  {
    var shorter := items[..at] + items[at + 1..];
    forall i, j | 0 <= i < j < |shorter| ensures IdOf(shorter[i]) != IdOf(shorter[j]) {
      var a, b := if i < at then i else i + 1, if j < at then j else j + 1;
      assert IdOf(items[a]) != IdOf(items[b]);
    }
  }

  lemma {:induction false} NotTouchingFrom(edges: seq<Entity>, node: string)
    ensures forall e :: e in NotTouching(edges, node) <==> e in edges && !Touches(e, node)
    ensures UniqueIds(edges) ==> UniqueIds(NotTouching(edges, node))
  {
    if edges != [] {
      NotTouchingFrom(edges[1..], node);
      var kept := NotTouching(edges[1..], node);
      if UniqueIds(edges) {
        assert UniqueIds(edges[1..]) by {
          forall i, j | 0 <= i < j < |edges| - 1 ensures IdOf(edges[1..][i]) != IdOf(edges[1..][j]) {
            assert IdOf(edges[i + 1]) != IdOf(edges[j + 1]);
          }
        }
        forall k | 0 <= k < |kept| ensures IdOf(edges[0]) != IdOf(kept[k]) {
          assert kept[k] in edges[1..];
          var j :| 0 <= j < |edges| - 1 && edges[1..][j] == kept[k];
          assert IdOf(edges[0]) != IdOf(edges[j + 1]);
        }
      }
    }
  }

  lemma NewEntityIds(op: Operation)
    requires CheckOperation(op).None?
    ensures op.AddTextNode? ==> IdOf(NewTextNode(op)) == Some(op.id)
    ensures op.AddNode? ==> IdOf(NewNode(op)) == Some(op.id)
    ensures op.ConnectNodes? ==> IdOf(NewEdge(op)) == Some(op.id)
  {
    if op.AddNode? { assert "id" !in op.fields; }
    if op.ConnectNodes? { assert "id" !in op.fields; }
  }

  lemma StepEditLockstep(p: Progress, op: Operation)
    requires op.SetText? || op.MoveNode? || op.SetNodeFields? || op.UpdateEdge?
    requires Lockstep(p) && CheckOperation(op).None?
    ensures var r := StepEdit(p, op); r != Fail(EntityArrayRequired) && (r.Ok? ==> Lockstep(r.value))
  {
    EntitiesOfGraph(p.expected);
    var isNode := !op.UpdateEdge?;
    var items := ListOf(p.expected, isNode);
    var index := IndexById(items, op.id);
    if index != -1 {
      EditFields(p.expected, isNode, index, EditsOf(op));
      CheckedEditsKeepId(op);
      EditKeepsId(items[index], EditsOf(op));
      UniqueEdit(items, index, EditEntity(items[index], EditsOf(op)));
    }
  }

  /** The node removed from both sides, once its edges are gone from both. */
  lemma CutNode(g: Graph, kept: Json, id: string)
    requires kept == ToJson(g) && IndexById(g.nodes, id) != -1
    ensures var index := IndexById(g.nodes, id);
            && Entities(kept, "nodes") == Some(g.nodes)
            && Modify(kept, [Key("nodes"), Index(index)], None) == ToJson(g.(nodes := g.nodes[..index] + g.nodes[index + 1..]))
  {
    EntitiesOfGraph(g);
    RemoveFromDocument(g, true, IndexById(g.nodes, id));
  }

  lemma StepDeleteNodeLockstep(p: Progress, op: Operation)
    requires op.DeleteNode? && Lockstep(p)
    ensures var r := StepDeleteNode(p, op); r != Fail(EntityArrayRequired) && (r.Ok? ==> Lockstep(r.value))
  {
    var index := IndexById(p.expected.nodes, op.id);
    if index != -1 {
      CascadeAgrees(p.expected, op.id);
      CutNode(p.expected.(edges := NotTouching(p.expected.edges, op.id)), RemoveEdgesById(p.next, Incident(p.expected.edges, op.id)), op.id);
      UniqueRemove(p.expected.nodes, index);
      NotTouchingFrom(p.expected.edges, op.id);
    }
  }

  /** The document edited by index and the graph edited by id stay equal over every operation. */
  lemma StepLockstep(p: Progress, op: Operation)
    requires Lockstep(p) && CheckOperation(op).None?
    ensures var r := Step(p, op); r != Fail(EntityArrayRequired) && (r.Ok? ==> Lockstep(r.value))
  {
    EntitiesOfGraph(p.expected);
    NewEntityIds(op);
    if op.AddTextNode? || op.AddNode? {
      var node := if op.AddTextNode? then NewTextNode(op) else NewNode(op);
      AppendToDocument(p.expected, true, node);
      if IndexById(p.expected.nodes, op.id) == -1 { UniqueAppend(p.expected.nodes, node, op.id); }
    } else if op.ConnectNodes? {
      AppendToDocument(p.expected, false, NewEdge(op));
      if IndexById(p.expected.edges, op.id) == -1 { UniqueAppend(p.expected.edges, NewEdge(op), op.id); }
    } else if op.DeleteNode? {
      StepDeleteNodeLockstep(p, op);
    } else if op.DeleteEdge? {
      var index := IndexById(p.expected.edges, op.id);
      if index != -1 {
        RemoveFromDocument(p.expected, false, index);
        UniqueRemove(p.expected.edges, index);
      }
    } else {
      StepEditLockstep(p, op);
    }
  }

  // -------------------------------------------------------------------------
  // Filters over entity lists
  // -------------------------------------------------------------------------

  lemma {:induction false} OutsideConcat(a: seq<Entity>, b: seq<Entity>, ids: set<string>)
    ensures Outside(a + b, ids) == Outside(a, ids) + Outside(b, ids)
  {
    if a == [] {
      assert a + b == b;
    } else {
      assert (a + b)[1..] == a[1..] + b;
      OutsideConcat(a[1..], b, ids);
    }
  }

  lemma {:induction false} OutsideTwice(items: seq<Entity>, fewer: set<string>, more: set<string>)
    requires fewer <= more
    ensures Outside(Outside(items, fewer), more) == Outside(items, more)
  {
    if items != [] {
      OutsideTwice(items[1..], fewer, more);
      var head := Outside([items[0]], fewer);
      assert [items[0]][1..] == [];
      assert Outside([], fewer) == [];
      assert head == (if IdOf(items[0]).Some? && IdOf(items[0]).value in fewer then [] else [items[0]]);
      assert Outside(items, fewer) == head + Outside(items[1..], fewer);
      OutsideConcat(head, Outside(items[1..], fewer), more);
    }
  }

  lemma OutsideOne(e: Entity, ids: set<string>)
    requires IdOf(e).Some? && IdOf(e).value in ids
    ensures Outside([e], ids) == []
  {
    assert [e][1..] == [];
  }

  lemma OutsideReplace(items: seq<Entity>, at: int, replacement: seq<Entity>, ids: set<string>)
    requires 0 <= at < |items| && IdOf(items[at]).Some? && IdOf(items[at]).value in ids
    requires Outside(replacement, ids) == []
    ensures Outside(items[..at] + replacement + items[at + 1..], ids) == Outside(items, ids)
  {
    OutsideOne(items[at], ids);
    assert items == items[..at] + [items[at]] + items[at + 1..];
    OutsideConcat(items[..at] + [items[at]], items[at + 1..], ids);
    OutsideConcat(items[..at], [items[at]], ids);
    OutsideConcat(items[..at] + replacement, items[at + 1..], ids);
    OutsideConcat(items[..at], replacement, ids);
  }

  lemma OutsideAfterCascade(edges: seq<Entity>, node: string, ids: set<string>)
    requires UniqueIds(edges) && Incident(edges, node) <= ids
    ensures Outside(NotTouching(edges, node), ids) == Outside(edges, ids)
  {
    forall k | 0 <= k < |edges| ensures IdOf(edges[k]).Some? && (IdOf(edges[k]).value in Incident(edges, node) <==> Touches(edges[k], node)) {
      IncidentHas(edges, node, k);
    }
    OutsideIsNotTouching(edges, Incident(edges, node), node);
    OutsideTwice(edges, Incident(edges, node), ids);
  }

  lemma RestUnique(edges: seq<Entity>, node: string)
    requires UniqueIds(edges) && edges != []
    ensures UniqueIds(edges[1..]) && IdOf(edges[0]).Some? && IdOf(edges[0]).value !in Incident(edges[1..], node)
  {
    var rest := edges[1..];
    forall i, j | 0 <= i < j < |rest| ensures IdOf(rest[i]) != IdOf(rest[j]) { assert IdOf(edges[i + 1]) != IdOf(edges[j + 1]); }
    forall k | 0 <= k < |rest| ensures IdOf(rest[k]) != IdOf(edges[0]) { assert IdOf(edges[0]) != IdOf(edges[k + 1]); }
  }

  lemma IncidentCons(edges: seq<Entity>, node: string)
    requires UniqueIds(edges) && edges != []
    ensures IdOf(edges[0]).Some?
    ensures Incident(edges, node) == Incident(edges[1..], node) + (if Touches(edges[0], node) then {IdOf(edges[0]).value} else {})
  {
    RestUnique(edges, node);
    var rest, id := edges[1..], IdOf(edges[0]).value;
    forall x | x in Incident(rest, node) ensures x in Incident(edges, node) {
      var k :| 0 <= k < |rest| && Touches(rest[k], node) && IdOf(rest[k]).Some? && IdOf(rest[k]).value == x;
      assert edges[k + 1] == rest[k];
    }
    forall x | x in Incident(edges, node) && x != id ensures x in Incident(rest, node) {
      var k :| 0 <= k < |edges| && Touches(edges[k], node) && IdOf(edges[k]).Some? && IdOf(edges[k]).value == x;
      assert rest[k - 1] == edges[k];
    }
    if id in Incident(edges, node) { IncidentHas(edges, node, 0); }
  }

  lemma {:induction false} CascadeCount(edges: seq<Entity>, node: string)
    requires UniqueIds(edges)
    ensures |edges| == |NotTouching(edges, node)| + |Incident(edges, node)|
  {
    if edges == [] {
      assert Incident(edges, node) == {};
    } else {
      RestUnique(edges, node);
      IncidentCons(edges, node);
      CascadeCount(edges[1..], node);
    }
  }

  // -------------------------------------------------------------------------
  // What the canonical operations guarantee
  // -------------------------------------------------------------------------

  /** Different operations on the same side target different entities. */
  predicate DistinctTargets(ops: seq<Operation>) {
    forall i, j :: 0 <= i < j < |ops| && TargetsEdge(ops[i]) == TargetsEdge(ops[j]) ==> ops[i].id != ops[j].id
  }

  predicate AllChecked(ops: seq<Operation>) {
    forall i :: 0 <= i < |ops| ==> CheckOperation(ops[i]).None?
  }

  predicate Untaken(ops: seq<Operation>, nodes: set<string>, edges: set<string>) {
    forall i :: 0 <= i < |ops| ==> ops[i].id !in (if TargetsEdge(ops[i]) then edges else nodes)
  }

  /** The running check of the targets accepts exactly the checked operations with distinct targets. */
  lemma {:induction false} CheckAllMeans(ops: seq<Operation>, nodes: set<string>, edges: set<string>)
    ensures CheckAll(ops, nodes, edges).None? <==> AllChecked(ops) && Untaken(ops, nodes, edges) && DistinctTargets(ops)
  {
    if ops != [] {
      var op, rest := ops[0], ops[1..];
      var nodes', edges' := if TargetsEdge(op) then nodes else nodes + {op.id}, if TargetsEdge(op) then edges + {op.id} else edges;
      CheckAllMeans(rest, nodes', edges');
      if AllChecked(ops) && Untaken(ops, nodes, edges) && DistinctTargets(ops) {
        assert forall i :: 0 <= i < |rest| ==> rest[i] == ops[i + 1];
      }
      if CheckAll(ops, nodes, edges).None? {
        forall i | 0 <= i < |ops| ensures CheckOperation(ops[i]).None? && ops[i].id !in (if TargetsEdge(ops[i]) then edges else nodes) {
          if i > 0 { assert ops[i] == rest[i - 1]; }
        }
        forall i, j | 0 <= i < j < |ops| && TargetsEdge(ops[i]) == TargetsEdge(ops[j]) ensures ops[i].id != ops[j].id {
          assert ops[j] == rest[j - 1];
          if i > 0 { assert ops[i] == rest[i - 1]; }
        }
      }
    }
  }

  // -------------------------------------------------------------------------
  // Exact accounting
  // -------------------------------------------------------------------------

  predicate TargetsNode(op: Operation) { !TargetsEdge(op) }
  predicate AddsNode(op: Operation) { op.AddTextNode? || op.AddNode? }
  predicate RemovesNode(op: Operation) { op.DeleteNode? }
  predicate AddsEdge(op: Operation) { op.ConnectNodes? }
  predicate RemovesEdge(op: Operation) { op.DeleteEdge? }

  function Count(ops: seq<Operation>, f: Operation -> bool): nat {
    if ops == [] then 0 else Count(ops[..|ops| - 1], f) + (if f(ops[|ops| - 1]) then 1 else 0)
  }

  function NodeTargets(ops: seq<Operation>): set<string> {
    set k | 0 <= k < |ops| && !TargetsEdge(ops[k]) :: ops[k].id
  }

  function EdgeTargets(ops: seq<Operation>): set<string> {
    set k | 0 <= k < |ops| && TargetsEdge(ops[k]) :: ops[k].id
  }

  predicate Absent(items: seq<Entity>, ids: set<string>) {
    forall k :: 0 <= k < |items| && IdOf(items[k]).Some? ==> IdOf(items[k]).value !in ids
  }

  predicate NodesAccounted(before: Graph, ops: seq<Operation>, p: Progress) {
    && p.changedNodes == NodeTargets(ops) && |p.changedNodes| == Count(ops, TargetsNode)
    && |p.expected.nodes| == |before.nodes| + Count(ops, AddsNode) - Count(ops, RemovesNode)
    && Outside(p.expected.nodes, p.changedNodes) == Outside(before.nodes, p.changedNodes)
  }

  predicate EdgesAccounted(before: Graph, ops: seq<Operation>, p: Progress) {
    && p.removedIncident <= p.changedEdges
    && p.changedEdges - p.removedIncident == EdgeTargets(ops)
    && |p.changedEdges| == Count(ops, TargetsEdge) + |p.removedIncident|
    && Absent(p.expected.edges, p.removedIncident)
    && |p.expected.edges| == |before.edges| + Count(ops, AddsEdge) - Count(ops, RemovesEdge) - |p.removedIncident|
    && Outside(p.expected.edges, p.changedEdges) == Outside(before.edges, p.changedEdges)
  }

  /** The change sets and sizes after `ops`, against the graph before them. */
  predicate Accounted(before: Graph, ops: seq<Operation>, p: Progress) {
    p.expected.rest == before.rest && NodesAccounted(before, ops, p) && EdgesAccounted(before, ops, p)
  }

  /** The last operation targets nothing that an earlier one targeted. */
  predicate NewTarget(ops: seq<Operation>, op: Operation) {
    forall k :: 0 <= k < |ops| && TargetsEdge(ops[k]) == TargetsEdge(op) ==> ops[k].id != op.id
  }

  lemma TargetsGrow(ops: seq<Operation>, op: Operation)
    requires NewTarget(ops, op)
    ensures NodeTargets(ops + [op]) == NodeTargets(ops) + (if TargetsEdge(op) then {} else {op.id})
    ensures EdgeTargets(ops + [op]) == EdgeTargets(ops) + (if TargetsEdge(op) then {op.id} else {})
    ensures if TargetsEdge(op) then op.id !in EdgeTargets(ops) else op.id !in NodeTargets(ops)
    ensures forall f: Operation -> bool {:trigger Count(ops + [op], f)} :: Count(ops + [op], f) == Count(ops, f) + (if f(op) then 1 else 0)
  {
    var all := ops + [op];
    assert all[..|all| - 1] == ops && all[|all| - 1] == op;
    forall x | x in NodeTargets(ops) ensures x in NodeTargets(all) {
      var k :| 0 <= k < |ops| && !TargetsEdge(ops[k]) && ops[k].id == x;
      assert all[k] == ops[k];
    }
    forall x | x in EdgeTargets(ops) ensures x in EdgeTargets(all) {
      var k :| 0 <= k < |ops| && TargetsEdge(ops[k]) && ops[k].id == x;
      assert all[k] == ops[k];
    }
  }

  /** One more explicit edge change. */
  lemma OneMoreEdge(changed: set<string>, removed: set<string>, targets: set<string>, id: string)
    requires removed <= changed && changed - removed == targets && id !in targets && id !in removed
    ensures (changed + {id}) - removed == targets + {id} && |changed + {id}| == |changed| + 1
  {
    assert id !in changed;
  }

  lemma NodesUntouched(before: Graph, ops: seq<Operation>, p: Progress, op: Operation, p': Progress)
    requires NodesAccounted(before, ops, p) && NewTarget(ops, op) && TargetsEdge(op)
    requires p'.changedNodes == p.changedNodes && p'.expected.nodes == p.expected.nodes
    ensures NodesAccounted(before, ops + [op], p')
  {
    TargetsGrow(ops, op);
  }

  lemma EdgesUntouched(before: Graph, ops: seq<Operation>, p: Progress, op: Operation, p': Progress)
    requires EdgesAccounted(before, ops, p) && NewTarget(ops, op) && TargetsNode(op)
    requires p'.changedEdges == p.changedEdges && p'.removedIncident == p.removedIncident && p'.expected.edges == p.expected.edges
    ensures EdgesAccounted(before, ops + [op], p')
  {
    TargetsGrow(ops, op);
  }

  lemma NodesChanged(before: Graph, ops: seq<Operation>, p: Progress, op: Operation, p': Progress, items: seq<Entity>)
    requires NodesAccounted(before, ops, p) && NewTarget(ops, op) && TargetsNode(op)
    requires |items| == |p.expected.nodes| + (if AddsNode(op) then 1 else 0) - (if RemovesNode(op) then 1 else 0)
    requires Outside(items, p.changedNodes + {op.id}) == Outside(p.expected.nodes, p.changedNodes + {op.id})
    requires p'.changedNodes == p.changedNodes + {op.id} && p'.expected.nodes == items
    ensures NodesAccounted(before, ops + [op], p')
  {
    TargetsGrow(ops, op);
    OutsideTwice(p.expected.nodes, p.changedNodes, p.changedNodes + {op.id});
    OutsideTwice(before.nodes, p.changedNodes, p.changedNodes + {op.id});
  }

  lemma EdgesChanged(before: Graph, ops: seq<Operation>, p: Progress, op: Operation, p': Progress, items: seq<Entity>)
    requires EdgesAccounted(before, ops, p) && NewTarget(ops, op) && TargetsEdge(op) && op.id !in p.removedIncident
    requires |items| == |p.expected.edges| + (if AddsEdge(op) then 1 else 0) - (if RemovesEdge(op) then 1 else 0)
    requires Outside(items, p.changedEdges + {op.id}) == Outside(p.expected.edges, p.changedEdges + {op.id})
    requires Absent(items, p.removedIncident)
    requires p'.changedEdges == p.changedEdges + {op.id} && p'.removedIncident == p.removedIncident && p'.expected.edges == items
    ensures EdgesAccounted(before, ops + [op], p')
  {
    TargetsGrow(ops, op);
    OneMoreEdge(p.changedEdges, p.removedIncident, EdgeTargets(ops), op.id);
    OutsideTwice(p.expected.edges, p.changedEdges, p.changedEdges + {op.id});
    OutsideTwice(before.edges, p.changedEdges, p.changedEdges + {op.id});
  }

  /** The edges after an operation on an edge. */
  function EdgesAfter(edges: seq<Entity>, op: Operation): seq<Entity>
    requires TargetsEdge(op) && (op.ConnectNodes? || IndexById(edges, op.id) != -1)
  {
    var at := IndexById(edges, op.id);
    match op
    case ConnectNodes(_, _, _, _) => edges + [NewEdge(op)]
    case DeleteEdge(_) => edges[..at] + edges[at + 1..]
    case UpdateEdge(_, _) => edges[at := EditEntity(edges[at], EditsOf(op))]
  }

  predicate ChangesEdges(p: Progress, op: Operation, p': Progress)
    requires TargetsEdge(op) && (op.ConnectNodes? || IndexById(p.expected.edges, op.id) != -1)
  {
    && p'.expected == p.expected.(edges := EdgesAfter(p.expected.edges, op))
    && p'.changedNodes == p.changedNodes && p'.changedEdges == p.changedEdges + {op.id} && p'.removedIncident == p.removedIncident
  }

  lemma ConnectStep(p: Progress, op: Operation)
    requires op.ConnectNodes? && StepConnect(p, op).Ok?
    ensures ChangesEdges(p, op, StepConnect(p, op).value) && op.id !in p.removedIncident
  {
  }

  lemma DeleteEdgeStep(p: Progress, op: Operation)
    requires op.DeleteEdge? && StepDeleteEdge(p, op).Ok?
    ensures IndexById(p.expected.edges, op.id) != -1 && ChangesEdges(p, op, StepDeleteEdge(p, op).value)
  {
  }

  lemma UpdateEdgeStep(p: Progress, op: Operation)
    requires op.UpdateEdge? && StepEdit(p, op).Ok?
    ensures IndexById(p.expected.edges, op.id) != -1 && ChangesEdges(p, op, StepEdit(p, op).value) && op.id !in p.removedIncident
  {
  }

  lemma EdgeStep(p: Progress, op: Operation)
    requires TargetsEdge(op) && Step(p, op).Ok?
    ensures op.ConnectNodes? || IndexById(p.expected.edges, op.id) != -1
    ensures ChangesEdges(p, op, Step(p, op).value)
    ensures !op.DeleteEdge? ==> op.id !in p.removedIncident
  {
    match op
    case ConnectNodes(_, _, _, _) => ConnectStep(p, op);
    case DeleteEdge(_) => DeleteEdgeStep(p, op);
    case UpdateEdge(_, _) => UpdateEdgeStep(p, op);
  }

  lemma AbsentEdge(items: seq<Entity>, ids: set<string>, at: nat)
    requires Absent(items, ids) && at < |items| && IdOf(items[at]).Some?
    ensures IdOf(items[at]).value !in ids
  {
  }

  lemma AbsentAfter(edges: seq<Entity>, op: Operation, ids: set<string>)
    requires TargetsEdge(op) && (op.ConnectNodes? || IndexById(edges, op.id) != -1) && CheckOperation(op).None?
    requires Absent(edges, ids) && op.id !in ids
    ensures Absent(EdgesAfter(edges, op), ids)
  {
    var after := EdgesAfter(edges, op);
    match op
    case ConnectNodes(_, _, _, _) => NewEntityIds(op);
    case DeleteEdge(_) =>
      var at := IndexById(edges, op.id);
      forall k | 0 <= k < |after| && IdOf(after[k]).Some? ensures IdOf(after[k]).value !in ids {
        AbsentEdge(edges, ids, if k < at then k else k + 1);
      }
    case UpdateEdge(_, _) =>
      var at := IndexById(edges, op.id);
      CheckedEditsKeepId(op);
      EditKeepsId(edges[at], EditsOf(op));
  }

  lemma OutsideAfter(edges: seq<Entity>, op: Operation, ids: set<string>)
    requires TargetsEdge(op) && (op.ConnectNodes? || IndexById(edges, op.id) != -1) && CheckOperation(op).None? && op.id in ids
    ensures Outside(EdgesAfter(edges, op), ids) == Outside(edges, ids)
    ensures |EdgesAfter(edges, op)| == |edges| + (if AddsEdge(op) then 1 else 0) - (if RemovesEdge(op) then 1 else 0)
  {
    var at := IndexById(edges, op.id);
    match op
    case ConnectNodes(_, _, _, _) =>
      NewEntityIds(op);
      OutsideOne(NewEdge(op), ids);
      OutsideConcat(edges, [NewEdge(op)], ids);
    case DeleteEdge(_) =>
      OutsideReplace(edges, at, [], ids);
      assert edges[..at] + [] + edges[at + 1..] == edges[..at] + edges[at + 1..];
    case UpdateEdge(_, _) => EditedOutside(edges, at, op, ids);
  }

  lemma EdgeStepAccounted(before: Graph, ops: seq<Operation>, p: Progress, op: Operation)
    requires Accounted(before, ops, p) && NewTarget(ops, op) && CheckOperation(op).None? && TargetsEdge(op) && Step(p, op).Ok?
    ensures Accounted(before, ops + [op], Step(p, op).value)
  {
    EdgeStep(p, op);
    if op.DeleteEdge? { AbsentEdge(p.expected.edges, p.removedIncident, IndexById(p.expected.edges, op.id)); }
    AbsentAfter(p.expected.edges, op, p.removedIncident);
    OutsideAfter(p.expected.edges, op, p.changedEdges + {op.id});
    EdgesChanged(before, ops, p, op, Step(p, op).value, EdgesAfter(p.expected.edges, op));
    NodesUntouched(before, ops, p, op, Step(p, op).value);
  }

  lemma AddNodeAccounted(before: Graph, ops: seq<Operation>, p: Progress, op: Operation)
    requires Lockstep(p) && Accounted(before, ops, p) && NewTarget(ops, op) && CheckOperation(op).None?
    requires AddsNode(op) && Step(p, op).Ok?
    ensures Accounted(before, ops + [op], Step(p, op).value)
  {
    EntitiesOfGraph(p.expected);
    NewEntityIds(op);
    var node := if op.AddTextNode? then NewTextNode(op) else NewNode(op);
    OutsideOne(node, p.changedNodes + {op.id});
    OutsideConcat(p.expected.nodes, [node], p.changedNodes + {op.id});
    NodesChanged(before, ops, p, op, Step(p, op).value, p.expected.nodes + [node]);
    EdgesUntouched(before, ops, p, op, Step(p, op).value);
  }

  lemma EditNodeAccounted(before: Graph, ops: seq<Operation>, p: Progress, op: Operation)
    requires Lockstep(p) && Accounted(before, ops, p) && NewTarget(ops, op) && CheckOperation(op).None?
    requires (op.SetText? || op.MoveNode? || op.SetNodeFields?) && Step(p, op).Ok?
    ensures Accounted(before, ops + [op], Step(p, op).value)
  {
    var p' := Step(p, op).value;
    var items := p.expected.nodes;
    var at := IndexById(items, op.id);
    EditedOutside(items, at, op, p.changedNodes + {op.id});
    NodesChanged(before, ops, p, op, p', items[at := EditEntity(items[at], EditsOf(op))]);
    EdgesUntouched(before, ops, p, op, p');
  }

  lemma EditedOutside(items: seq<Entity>, at: int, op: Operation, ids: set<string>)
    requires op.SetText? || op.MoveNode? || op.SetNodeFields? || op.UpdateEdge?
    requires CheckOperation(op).None? && 0 <= at < |items| && IdOf(items[at]) == Some(op.id) && op.id in ids
    ensures var edited := EditEntity(items[at], EditsOf(op));
            IdOf(edited) == Some(op.id) && Outside(items[at := edited], ids) == Outside(items, ids)
  {
    var edited := EditEntity(items[at], EditsOf(op));
    CheckedEditsKeepId(op);
    EditKeepsId(items[at], EditsOf(op));
    OutsideOne(edited, ids);
    OutsideReplace(items, at, [edited], ids);
    assert items[at := edited] == items[..at] + [edited] + items[at + 1..];
  }

  lemma NodesAfterDelete(before: Graph, ops: seq<Operation>, p: Progress, op: Operation, p': Progress)
    requires NodesAccounted(before, ops, p) && NewTarget(ops, op) && op.DeleteNode?
    requires var at := IndexById(p.expected.nodes, op.id);
             at != -1 && p'.expected.nodes == p.expected.nodes[..at] + p.expected.nodes[at + 1..]
    requires p'.changedNodes == p.changedNodes + {op.id}
    ensures NodesAccounted(before, ops + [op], p')
  {
    var nodes := p.expected.nodes;
    var at := IndexById(nodes, op.id);
    OutsideReplace(nodes, at, [], p.changedNodes + {op.id});
    assert nodes[..at] + [] + nodes[at + 1..] == nodes[..at] + nodes[at + 1..];
    NodesChanged(before, ops, p, op, p', nodes[..at] + nodes[at + 1..]);
  }

  /** Removed edges count among the changed ones, apart from the ones operations target. */
  lemma MoreRemoved(changed: set<string>, removed: set<string>, incident: set<string>)
    requires removed <= changed && incident !! changed
    ensures (changed + incident) - (removed + incident) == changed - removed
    ensures |changed + incident| == |changed| + |incident| && |removed + incident| == |removed| + |incident|
  {
  }

  lemma EdgesAfterCascade(before: Graph, ops: seq<Operation>, p: Progress, op: Operation, p': Progress)
    requires EdgesAccounted(before, ops, p) && NewTarget(ops, op) && op.DeleteNode? && UniqueIds(p.expected.edges)
    requires var incident := Incident(p.expected.edges, op.id);
             && incident !! p.changedEdges
             && p'.changedEdges == p.changedEdges + incident && p'.removedIncident == p.removedIncident + incident
    requires p'.expected.edges == NotTouching(p.expected.edges, op.id)
    ensures EdgesAccounted(before, ops + [op], p')
  {
    var edges, incident := p.expected.edges, Incident(p.expected.edges, op.id);
    TargetsGrow(ops, op);
    MoreRemoved(p.changedEdges, p.removedIncident, incident);
    CascadeCount(edges, op.id);
    CascadeAbsent(edges, op.id, p.removedIncident);
    CascadeOutside(edges, before.edges, op.id, p.changedEdges, incident);
  }

  lemma CascadeOutside(edges: seq<Entity>, before: seq<Entity>, node: string, changed: set<string>, incident: set<string>)
    requires UniqueIds(edges) && incident == Incident(edges, node) && Outside(edges, changed) == Outside(before, changed)
    ensures Outside(NotTouching(edges, node), changed + incident) == Outside(before, changed + incident)
  {
    OutsideAfterCascade(edges, node, changed + incident);
    OutsideTwice(edges, changed, changed + incident);
    OutsideTwice(before, changed, changed + incident);
  }

  lemma DeleteNodeAccounted(before: Graph, ops: seq<Operation>, p: Progress, op: Operation)
    requires Lockstep(p) && Accounted(before, ops, p) && NewTarget(ops, op)
    requires op.DeleteNode? && Step(p, op).Ok?
    ensures Accounted(before, ops + [op], Step(p, op).value)
  {
    NodesAfterDelete(before, ops, p, op, Step(p, op).value);
    EdgesAfterCascade(before, ops, p, op, Step(p, op).value);
  }

  lemma CascadeAbsent(edges: seq<Entity>, node: string, removed: set<string>)
    requires UniqueIds(edges) && Absent(edges, removed)
    ensures Absent(NotTouching(edges, node), removed + Incident(edges, node))
  {
    NotTouchingFrom(edges, node);
    var kept := NotTouching(edges, node);
    forall k | 0 <= k < |kept| && IdOf(kept[k]).Some? ensures IdOf(kept[k]).value !in removed + Incident(edges, node) {
      assert kept[k] in kept;
      var j :| 0 <= j < |edges| && edges[j] == kept[k];
      IncidentHas(edges, node, j);
    }
  }

  /** Every operation on a new target keeps the accounting of entities, changes and cascades. */
  lemma StepAccounted(before: Graph, ops: seq<Operation>, p: Progress, op: Operation)
    requires Lockstep(p) && Accounted(before, ops, p) && NewTarget(ops, op) && CheckOperation(op).None? && Step(p, op).Ok?
    ensures Accounted(before, ops + [op], Step(p, op).value)
  {
    if AddsNode(op) { AddNodeAccounted(before, ops, p, op); }
    else if TargetsEdge(op) { EdgeStepAccounted(before, ops, p, op); }
    else if op.DeleteNode? { DeleteNodeAccounted(before, ops, p, op); }
    else { EditNodeAccounted(before, ops, p, op); }
  }

  lemma BeginAccounted(before: Graph)
    ensures Accounted(before, [], Begin(ToJson(before), before))
  {
  }

  /** Lockstep and exact accounting after any number of operations of an accepted patch. */
  lemma {:induction false} PatchAccounted(before: Graph, ops: seq<Operation>)
    requires UniqueIds(before.nodes) && UniqueIds(before.edges) && AllChecked(ops) && DistinctTargets(ops)
    ensures var r := Steps(Begin(ToJson(before), before), ops);
            r != Fail(EntityArrayRequired) && (r.Ok? ==> Lockstep(r.value) && Accounted(before, ops, r.value))
    decreases |ops|
  {
    if ops == [] {
      BeginAccounted(before);
    } else {
      var shorter, last := ops[..|ops| - 1], ops[|ops| - 1];
      PatchAccounted(before, shorter);
      var r := Steps(Begin(ToJson(before), before), shorter);
      assert shorter + [last] == ops;
      if r.Ok? { OneMoreAccounted(before, shorter, r.value, last); }
    }
  }

  lemma OneMoreAccounted(before: Graph, ops: seq<Operation>, p: Progress, op: Operation)
    requires Lockstep(p) && Accounted(before, ops, p) && NewTarget(ops, op) && CheckOperation(op).None?
    ensures Step(p, op) != Fail(EntityArrayRequired)
    ensures Step(p, op).Ok? ==> Lockstep(Step(p, op).value) && Accounted(before, ops + [op], Step(p, op).value)
  {
    StepLockstep(p, op);
    if Step(p, op).Ok? { StepAccounted(before, ops, p, op); }
  }

  // -------------------------------------------------------------------------
  // No dangling edge without re-targeting
  // -------------------------------------------------------------------------

  predicate Retargets(op: Operation) {
    op.UpdateEdge? && exists k :: 0 <= k < |op.updates| && op.updates[k].0 in {"fromNode", "toNode"}
  }

  predicate LeavesEndpoints(edits: seq<Edit>) {
    forall k :: 0 <= k < |edits| ==> edits[k].0 !in {"fromNode", "toNode"}
  }

  lemma {:induction false} EditKeepsEndpoints(e: Entity, edits: seq<Edit>)
    requires LeavesEndpoints(edits)
    ensures forall f :: f in {"fromNode", "toNode"} ==>
              HasText(EditEntity(e, edits), f) == HasText(e, f) && (HasText(e, f) ==> EditEntity(e, edits)[f] == e[f])
    decreases |edits|
  {
    if edits != [] {
      assert edits[0].0 !in {"fromNode", "toNode"};
      EditKeepsEndpoints(if edits[0].1.Some? then e[edits[0].0 := edits[0].1.value] else e - {edits[0].0}, edits[1..]);
    }
  }

  lemma NodeStepKeepsPresence(p: Progress, op: Operation)
    requires Lockstep(p) && CheckOperation(op).None? && Step(p, op).Ok? && TargetsNode(op) && !op.DeleteNode?
    ensures forall id :: Present(p.expected.nodes, id) ==> Present(Step(p, op).value.expected.nodes, id)
  {
    EntitiesOfGraph(p.expected);
    var nodes, nodes' := p.expected.nodes, Step(p, op).value.expected.nodes;
    if !AddsNode(op) {
      CheckedEditsKeepId(op);
      EditKeepsId(nodes[IndexById(nodes, op.id)], EditsOf(op));
    }
    forall id | Present(nodes, id) ensures Present(nodes', id) {
      var n :| 0 <= n < |nodes| && IdOf(nodes[n]) == Some(id);
      assert IdOf(nodes'[n]) == Some(id);
    }
  }

  lemma DeleteNodeKeepsAnchors(p: Progress, op: Operation)
    requires Lockstep(p) && AllAnchored(p.expected) && op.DeleteNode? && Step(p, op).Ok?
    ensures AllAnchored(Step(p, op).value.expected)
  {
    var g, g' := p.expected, Step(p, op).value.expected;
    NotTouchingFrom(g.edges, op.id);
    var at := IndexById(g.nodes, op.id);
    forall k | 0 <= k < |g'.edges| ensures Anchored(g'.nodes, g'.edges[k]) {
      var e := g'.edges[k];
      assert e in g'.edges;
      var j :| 0 <= j < |g.edges| && g.edges[j] == e;
      assert Anchored(g.nodes, g.edges[j]);
      SurvivesRemoval(g.nodes, at, e["fromNode"].text);
      SurvivesRemoval(g.nodes, at, e["toNode"].text);
    }
  }

  lemma SurvivesRemoval(nodes: seq<Entity>, at: int, id: string)
    requires 0 <= at < |nodes| && Present(nodes, id) && IdOf(nodes[at]) != Some(id)
    ensures Present(nodes[..at] + nodes[at + 1..], id)
  {
    var n :| 0 <= n < |nodes| && IdOf(nodes[n]) == Some(id);
    var shorter := nodes[..at] + nodes[at + 1..];
    assert IdOf(shorter[if n < at then n else n - 1]) == Some(id);
  }

  /** Every step that re-targets no endpoint leaves every edge on existing nodes. */
  lemma StepKeepsAnchors(p: Progress, op: Operation)
    requires Lockstep(p) && AllAnchored(p.expected) && CheckOperation(op).None? && !Retargets(op) && Step(p, op).Ok?
    ensures AllAnchored(Step(p, op).value.expected)
  {
    EntitiesOfGraph(p.expected);
    var g, g' := p.expected, Step(p, op).value.expected;
    if op.DeleteNode? {
      DeleteNodeKeepsAnchors(p, op);
    } else if TargetsNode(op) {
      NodeStepKeepsPresence(p, op);
      forall k | 0 <= k < |g'.edges| ensures Anchored(g'.nodes, g'.edges[k]) { assert Anchored(g.nodes, g.edges[k]); }
    } else if op.ConnectNodes? {
      NewEdgeAnchored(p, op);
    } else if op.UpdateEdge? {
      UpdatedEdgeAnchored(p, op);
    } else {
      OtherEdgesAnchored(p, op);
    }
  }

  lemma UpdatedEdgeAnchored(p: Progress, op: Operation)
    requires Lockstep(p) && AllAnchored(p.expected) && !Retargets(op) && op.UpdateEdge? && Step(p, op).Ok?
    ensures AllAnchored(Step(p, op).value.expected)
  {
    EntitiesOfGraph(p.expected);
    var g := p.expected;
    var at := IndexById(g.edges, op.id);
    EditKeepsEndpoints(g.edges[at], EditsOf(op));
    assert Anchored(g.nodes, g.edges[at]);
  }

  lemma OtherEdgesAnchored(p: Progress, op: Operation)
    requires Lockstep(p) && AllAnchored(p.expected) && op.DeleteEdge? && Step(p, op).Ok?
    ensures AllAnchored(Step(p, op).value.expected)
  {
    EntitiesOfGraph(p.expected);
    var g, g' := p.expected, Step(p, op).value.expected;
    var at := IndexById(g.edges, op.id);
    forall k | 0 <= k < |g'.edges| ensures Anchored(g'.nodes, g'.edges[k]) { assert Anchored(g.nodes, g.edges[if k < at then k else k + 1]); }
  }

  lemma NewEdgeAnchored(p: Progress, op: Operation)
    requires Lockstep(p) && AllAnchored(p.expected) && CheckOperation(op).None? && op.ConnectNodes? && Step(p, op).Ok?
    ensures AllAnchored(Step(p, op).value.expected)
  {
    EntitiesOfGraph(p.expected);
    var g, g' := p.expected, Step(p, op).value.expected;
    assert "fromNode" !in op.fields && "toNode" !in op.fields;
    forall k | 0 <= k < |g'.edges| ensures Anchored(g'.nodes, g'.edges[k]) {
      if k < |g.edges| { assert Anchored(g.nodes, g.edges[k]); }
    }
  }

  /** A patch that re-targets no endpoint leaves every edge on existing nodes. */
  lemma {:induction false} PatchKeepsAnchors(before: Graph, ops: seq<Operation>)
    requires GraphOk(before) && AllChecked(ops) && DistinctTargets(ops)
    requires forall i :: 0 <= i < |ops| ==> !Retargets(ops[i])
    ensures var r := Steps(Begin(ToJson(before), before), ops); r.Ok? ==> AllAnchored(r.value.expected)
    decreases |ops|
  {
    if ops != [] {
      var shorter, last := ops[..|ops| - 1], ops[|ops| - 1];
      PatchKeepsAnchors(before, shorter);
      PatchAccounted(before, shorter);
      var r := Steps(Begin(ToJson(before), before), shorter);
      if r.Ok? && Step(r.value, last).Ok? { StepKeepsAnchors(r.value, last); }
    }
  }

  // -------------------------------------------------------------------------
  // The compiler
  // -------------------------------------------------------------------------

  lemma ObjectsOfEntities(doc: Json, key: string)
    requires Entities(doc, key).Some?
    ensures doc.fields[key] == Arr(Objects(Entities(doc, key).value))
  {
    var items, entities := doc.fields[key].items, Entities(doc, key).value;
    forall i | 0 <= i < |items| ensures Objects(entities)[i] == items[i] { assert items[i] in items; }
    assert Objects(entities) == items;
  }

  lemma RoundTrip(doc: Json)
    ensures FromJson(doc).Some? ==>
              ToJson(FromJson(doc).value) == doc && "nodes" !in FromJson(doc).value.rest && "edges" !in FromJson(doc).value.rest
  {
    if FromJson(doc).Some? {
      var g := FromJson(doc).value;
      ObjectsOfEntities(doc, "nodes");
      ObjectsOfEntities(doc, "edges");
      assert ToJson(g).fields == doc.fields;
    }
  }

  lemma ParseBack(g: Graph)
    requires "nodes" !in g.rest && "edges" !in g.rest
    ensures FromJson(ToJson(g)) == Some(g)
  {
    EntitiesOfGraph(g);
    assert ToJson(g).fields - {"nodes", "edges"} == g.rest;
  }

  /** The refusals that guard against the compiler's own mistakes cannot fire; only an invalid result is refused. */
  lemma FinishDecides(before: Graph, ops: seq<Operation>, p: Progress)
    requires Lockstep(p) && Accounted(before, ops, p) && "nodes" !in before.rest && "edges" !in before.rest
    ensures Finish(before, p).Ok? <==> GraphOk(p.expected)
    ensures Finish(before, p).Fail? ==> Finish(before, p).reason == GraphInvalidAfter
  {
    ParseBack(p.expected);
  }

  /** Everything the published counts promise about an accepted patch. */
  predicate Published(before: Graph, ops: seq<Operation>, proof: Proof, after: Graph) {
    && proof.changedNodes == NodeTargets(ops) && |proof.changedNodes| == Count(ops, TargetsNode)
    && proof.changedEdges == EdgeTargets(ops) && |proof.changedEdges| == Count(ops, TargetsEdge)
    && proof.changedEdges !! proof.removedIncidentEdges && proof.removedIncidentEdgeCount == |proof.removedIncidentEdges|
    && proof.changedEdgeCount == |proof.changedEdges| + proof.removedIncidentEdgeCount
    && proof.nodesBefore == |before.nodes| && proof.edgesBefore == |before.edges|
    && proof.nodesAfter == |after.nodes| == |before.nodes| + Count(ops, AddsNode) - Count(ops, RemovesNode)
    && proof.edgesAfter == |after.edges|
       == |before.edges| + Count(ops, AddsEdge) - Count(ops, RemovesEdge) - proof.removedIncidentEdgeCount
    && after.rest == before.rest && GraphOk(after)
    && Outside(after.nodes, proof.changedNodes) == Outside(before.nodes, proof.changedNodes)
    && var edges := proof.changedEdges + proof.removedIncidentEdges; Outside(after.edges, edges) == Outside(before.edges, edges)
  }

  /** What is published is the graph edited by id, with a proof that counts its changes exactly. */
  lemma FinishPublishes(before: Graph, ops: seq<Operation>, p: Progress)
    requires Lockstep(p) && Accounted(before, ops, p) && Finish(before, p).Ok?
    requires "nodes" !in before.rest && "edges" !in before.rest
    ensures Finish(before, p).value.next == ToJson(p.expected)
    ensures Published(before, ops, Finish(before, p).value.proof, p.expected)
  {
    ParseBack(p.expected);
    DisjointSizes(p.changedEdges, p.removedIncident);
    assert (p.changedEdges - p.removedIncident) + p.removedIncident == p.changedEdges;
  }

  lemma DisjointSizes(all: set<string>, part: set<string>)
    requires part <= all
    ensures |all - part| == |all| - |part|
  {
    assert all == (all - part) + part;
  }
}
