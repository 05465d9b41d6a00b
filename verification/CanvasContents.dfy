/** What an accepted Canvas patch leaves in the graph, entity by entity and field by field. */
module CanvasContents {
  import opened Options
  import opened JsonValues
  import opened CanvasJson
  import opened CanvasPatch
  import opened CanvasPatchProofs

  /** The entity with this id. */
  function Lookup(items: seq<Entity>, id: string): Option<Entity> {
    var i := IndexById(items, id);
    if i == -1 then None else Some(items[i])
  }

  function FieldOf(e: Entity, field: string): Option<Json> { if field in e then Some(e[field]) else None }

  function TextOf(value: Option<string>): Option<Json> { if value.Some? then Some(Str(value.value)) else None }

  function IntegerOf(value: int): Option<Json> { Some(Num(value as real)) }

  /** The updates of one field, in their order: set or removed. */
  function Updated(updates: seq<(string, Option<string>)>, field: string, was: Option<Json>): Option<Json> {
    if updates == [] then was
    else Updated(updates[1..], field, if updates[0].0 == field then TextOf(updates[0].1) else was)
  }

  function Listed(fields: map<string, string>, field: string): Option<Json> { if field in fields then Some(Str(fields[field])) else None }

  predicate Adds(op: Operation) { op.AddTextNode? || op.AddNode? || op.ConnectNodes? }

  predicate Deletes(op: Operation) { op.DeleteNode? || op.DeleteEdge? }

  /** What an operation says one field of its entity is, given what it was. */
  function Asked(op: Operation, field: string, was: Option<Json>): Option<Json> {
    match op
    case AddTextNode(id, text, x, y, width, height, color) =>
      if field == "id" then Some(Str(id))
      else if field == "type" then Some(Str("text"))
      else if field == "x" then IntegerOf(x)
      else if field == "y" then IntegerOf(y)
      else if field == "width" then IntegerOf(width)
      else if field == "height" then IntegerOf(height)
      else if field == "text" then Some(Str(text))
      else if field == "color" then TextOf(color)
      else None
    case AddNode(id, kind, x, y, width, height, fields) =>
      if field == "id" then Some(Str(id))
      else if field == "type" then Some(Str(kind))
      else if field == "x" then IntegerOf(x)
      else if field == "y" then IntegerOf(y)
      else if field == "width" then IntegerOf(width)
      else if field == "height" then IntegerOf(height)
      else Listed(fields, field)
    case ConnectNodes(id, fromNode, toNode, fields) =>
      if field == "id" then Some(Str(id))
      else if field == "fromNode" then Some(Str(fromNode))
      else if field == "toNode" then Some(Str(toNode))
      else Listed(fields, field)
    case SetText(_, text) => if field == "text" then Some(Str(text)) else was
    case MoveNode(_, x, y, newWidth, newHeight) =>
      if field == "x" then IntegerOf(x)
      else if field == "y" then IntegerOf(y)
      else if field == "width" && newWidth.Some? then IntegerOf(newWidth.value)
      else if field == "height" && newHeight.Some? then IntegerOf(newHeight.value)
      else was
    case SetNodeFields(_, updates) => Updated(updates, field, was)
    case UpdateEdge(_, updates) => Updated(updates, field, was)
    case DeleteNode(_) => None
    case DeleteEdge(_) => None
  }

  /** The entity of an operation before and after it: added with the fields asked, gone, or edited as asked and nothing else. */
  ghost predicate AsAsked(op: Operation, before: Option<Entity>, after: Option<Entity>) {
    if Deletes(op) then before.Some? && after.None?
    else
      && after.Some? && before.Some? == !Adds(op)
      && forall field :: FieldOf(after.value, field) == Asked(op, field, if before.Some? then FieldOf(before.value, field) else None)
  }

  // -------------------------------------------------------------------------
  // Fields
  // -------------------------------------------------------------------------

  function LastEdit(edits: seq<Edit>, field: string, was: Option<Json>): Option<Json> {
    if edits == [] then was else LastEdit(edits[1..], field, if edits[0].0 == field then edits[0].1 else was)
  }

  lemma {:induction false} EditedField(e: Entity, edits: seq<Edit>, field: string)
    ensures FieldOf(EditEntity(e, edits), field) == LastEdit(edits, field, FieldOf(e, field))
    decreases |edits|
  {
    if edits != [] {
      EditedField(if edits[0].1.Some? then e[edits[0].0 := edits[0].1.value] else e - {edits[0].0}, edits[1..], field);
    }
  }

  lemma {:induction false} UpdatesAre(updates: seq<(string, Option<string>)>, field: string, was: Option<Json>)
    ensures LastEdit(TextEdits(updates), field, was) == Updated(updates, field, was)
    decreases |updates|
  {
    if updates != [] {
      assert TextEdits(updates)[1..] == TextEdits(updates[1..]);
      UpdatesAre(updates[1..], field, if updates[0].0 == field then TextOf(updates[0].1) else was);
    }
  }

  lemma FourEdits(edits: seq<Edit>, field: string, was: Option<Json>)
    requires |edits| <= 4
    ensures LastEdit(edits, field, was)
            == (if |edits| > 3 && edits[3].0 == field then edits[3].1
                else if |edits| > 2 && edits[2].0 == field then edits[2].1
                else if |edits| > 1 && edits[1].0 == field then edits[1].1
                else if |edits| > 0 && edits[0].0 == field then edits[0].1
                else was)
    decreases |edits|
  {
    if edits != [] { FourEdits(edits[1..], field, if edits[0].0 == field then edits[0].1 else was); }
  }

  lemma EditAsAsked(e: Entity, op: Operation)
    requires op.SetText? || op.MoveNode? || op.SetNodeFields? || op.UpdateEdge?
    ensures AsAsked(op, Some(e), Some(EditEntity(e, EditsOf(op))))
  {
    forall field ensures FieldOf(EditEntity(e, EditsOf(op)), field) == Asked(op, field, FieldOf(e, field)) {
      EditedField(e, EditsOf(op), field);
      if op.SetNodeFields? || op.UpdateEdge? {
        UpdatesAre(op.updates, field, FieldOf(e, field));
      } else {
        FourEdits(EditsOf(op), field, FieldOf(e, field));
      }
    }
  }

  lemma NewTextNodeAsAsked(op: Operation)
    requires op.AddTextNode?
    ensures AsAsked(op, None, Some(NewTextNode(op)))
  {
  }

  lemma NewNodeAsAsked(op: Operation)
    requires op.AddNode? && CheckOperation(op).None?
    ensures AsAsked(op, None, Some(NewNode(op)))
  {
    assert forall f :: f in {"id", "type", "x", "y", "width", "height"} ==> f !in op.fields;
  }

  lemma NewEdgeAsAsked(op: Operation)
    requires op.ConnectNodes? && CheckOperation(op).None?
    ensures AsAsked(op, None, Some(NewEdge(op)))
  {
    assert forall f :: f in {"id", "fromNode", "toNode"} ==> f !in op.fields;
  }

  // -------------------------------------------------------------------------
  // Lookups
  // -------------------------------------------------------------------------

  lemma LookupIff(items: seq<Entity>, id: string, e: Entity)
    requires UniqueIds(items)
    ensures Lookup(items, id) == Some(e) <==> e in items && IdOf(e) == Some(id)
  {
    if e in items && IdOf(e) == Some(id) {
      var k :| 0 <= k < |items| && items[k] == e;
      SameIdSameIndex(items, k, IndexById(items, id));
    }
  }

  lemma AppendLookup(items: seq<Entity>, e: Entity, own: string, id: string)
    requires UniqueIds(items) && UniqueIds(items + [e]) && IdOf(e) == Some(own)
    ensures Lookup(items + [e], id) == if id == own then Some(e) else Lookup(items, id)
  {
    if id == own {
      LookupIff(items + [e], id, e);
    } else if Lookup(items, id).Some? {
      LookupIff(items, id, Lookup(items, id).value);
      LookupIff(items + [e], id, Lookup(items, id).value);
    }
  }

  lemma EditLookup(items: seq<Entity>, at: nat, e: Entity, own: string, id: string)
    requires UniqueIds(items) && at < |items| && IdOf(items[at]) == IdOf(e) == Some(own)
    ensures UniqueIds(items[at := e]) && Lookup(items[at := e], id) == if id == own then Some(e) else Lookup(items, id)
  {
    UniqueEdit(items, at, e);
    var edited := items[at := e];
    if id == own {
      assert edited[at] == e;
      LookupIff(edited, id, e);
    } else if Lookup(items, id).Some? {
      var x := items[IndexById(items, id)];
      assert edited[IndexById(items, id)] == x;
      LookupIff(edited, id, x);
    } else {
      assert forall k :: 0 <= k < |edited| ==> IdOf(edited[k]) == IdOf(items[k]);
    }
  }

  lemma RemoveLookup(items: seq<Entity>, at: nat, own: string, id: string)
    requires UniqueIds(items) && at < |items| && IdOf(items[at]) == Some(own)
    ensures Lookup(items[..at] + items[at + 1..], id) == if id == own then None else Lookup(items, id)
  {
    UniqueRemove(items, at);
    var shorter := items[..at] + items[at + 1..];
    if id == own {
      forall k | 0 <= k < |shorter| ensures IdOf(shorter[k]) != Some(id) {
        assert shorter[k] == items[if k < at then k else k + 1];
        assert IdOf(items[if k < at then k else k + 1]) != IdOf(items[at]);
      }
    } else if Lookup(items, id).Some? {
      var k := IndexById(items, id);
      assert shorter[if k < at then k else k - 1] == items[k];
      LookupIff(shorter, id, items[k]);
    } else {
      forall k | 0 <= k < |shorter| ensures IdOf(shorter[k]) != Some(id) { assert shorter[k] == items[if k < at then k else k + 1]; }
    }
  }

  /** One end of the edge is this node. */
  predicate EndsAt(e: Entity, node: string) { FieldOf(e, "fromNode") == Some(Str(node)) || FieldOf(e, "toNode") == Some(Str(node)) }

  lemma TouchesIsEndsAt(e: Entity, node: string)
    ensures Touches(e, node) <==> EndsAt(e, node)
  {
  }

  lemma CascadeLookup(edges: seq<Entity>, node: string, id: string)
    requires UniqueIds(edges)
    ensures UniqueIds(NotTouching(edges, node))
    ensures Lookup(NotTouching(edges, node), id) == (if Lookup(edges, id).Some? && EndsAt(Lookup(edges, id).value, node) then None else Lookup(edges, id))
    ensures id in Incident(edges, node) <==> Lookup(edges, id).Some? && EndsAt(Lookup(edges, id).value, node)
  {
    NotTouchingFrom(edges, node);
    var kept := NotTouching(edges, node);
    if Lookup(edges, id).Some? {
      var k := IndexById(edges, id);
      var e := edges[k];
      TouchesIsEndsAt(e, node);
      IncidentHas(edges, node, k);
      LookupIff(kept, id, e);
      if Lookup(kept, id).Some? { FromEdges(edges, node, id); }
    } else {
      if Lookup(kept, id).Some? { FromEdges(edges, node, id); }
    }
  }

  lemma FromEdges(edges: seq<Entity>, node: string, id: string)
    requires UniqueIds(edges) && UniqueIds(NotTouching(edges, node)) && Lookup(NotTouching(edges, node), id).Some?
    ensures Lookup(edges, id) == Lookup(NotTouching(edges, node), id) && !EndsAt(Lookup(edges, id).value, node)
  {
    NotTouchingFrom(edges, node);
    var e := Lookup(NotTouching(edges, node), id).value;
    LookupIff(NotTouching(edges, node), id, e);
    LookupIff(edges, id, e);
    TouchesIsEndsAt(e, node);
  }

  // -------------------------------------------------------------------------
  // One operation
  // -------------------------------------------------------------------------

  /** The operation does what it asks to its own entity, and leaves every other as it was. */
  ghost predicate OnlyAsked(op: Operation, items: seq<Entity>, items': seq<Entity>) {
    && AsAsked(op, Lookup(items, op.id), Lookup(items', op.id))
    && forall id: string :: id != op.id ==> Lookup(items', id) == Lookup(items, id)
  }

  lemma AppendOnly(items: seq<Entity>, e: Entity, op: Operation)
    requires UniqueIds(items) && Adds(op) && IdOf(e) == Some(op.id) && IndexById(items, op.id) == -1 && AsAsked(op, None, Some(e))
    ensures OnlyAsked(op, items, items + [e])
  {
    UniqueAppend(items, e, op.id);
    forall id: string ensures Lookup(items + [e], id) == if id == op.id then Some(e) else Lookup(items, id) { AppendLookup(items, e, op.id, id); }
  }

  lemma EditOnly(items: seq<Entity>, op: Operation)
    requires op.SetText? || op.MoveNode? || op.SetNodeFields? || op.UpdateEdge?
    requires UniqueIds(items) && IndexById(items, op.id) != -1 && CheckOperation(op).None?
    ensures var at := IndexById(items, op.id); OnlyAsked(op, items, items[at := EditEntity(items[at], EditsOf(op))])
  {
    var at := IndexById(items, op.id);
    var e := EditEntity(items[at], EditsOf(op));
    CheckedEditsKeepId(op);
    EditKeepsId(items[at], EditsOf(op));
    EditAsAsked(items[at], op);
    forall id: string ensures Lookup(items[at := e], id) == if id == op.id then Some(e) else Lookup(items, id) { EditLookup(items, at, e, op.id, id); }
  }

  lemma RemoveOnly(items: seq<Entity>, op: Operation)
    requires UniqueIds(items) && Deletes(op) && IndexById(items, op.id) != -1
    ensures var at := IndexById(items, op.id); OnlyAsked(op, items, items[..at] + items[at + 1..])
  {
    var at := IndexById(items, op.id);
    forall id: string ensures Lookup(items[..at] + items[at + 1..], id) == if id == op.id then None else Lookup(items, id) {
      RemoveLookup(items, at, op.id, id);
    }
  }

  lemma NodeStepAsked(p: Progress, op: Operation)
    requires Lockstep(p) && CheckOperation(op).None? && TargetsNode(op) && Step(p, op).Ok?
    ensures OnlyAsked(op, p.expected.nodes, Step(p, op).value.expected.nodes)
  {
    EntitiesOfGraph(p.expected);
    var nodes := p.expected.nodes;
    if op.AddTextNode? || op.AddNode? {
      NewEntityIds(op);
      if op.AddTextNode? { NewTextNodeAsAsked(op); } else { NewNodeAsAsked(op); }
      AppendOnly(nodes, if op.AddTextNode? then NewTextNode(op) else NewNode(op), op);
    } else if op.DeleteNode? {
      RemoveOnly(nodes, op);
    } else {
      EditOnly(nodes, op);
    }
  }

  lemma EdgeStepAsked(p: Progress, op: Operation)
    requires Lockstep(p) && CheckOperation(op).None? && TargetsEdge(op) && Step(p, op).Ok?
    ensures OnlyAsked(op, p.expected.edges, Step(p, op).value.expected.edges)
  {
    EdgeStep(p, op);
    var edges := p.expected.edges;
    match op
    case ConnectNodes(_, _, _, _) =>
      NewEntityIds(op);
      NewEdgeAsAsked(op);
      AppendOnly(edges, NewEdge(op), op);
    case DeleteEdge(_) => RemoveOnly(edges, op);
    case UpdateEdge(_, _) => EditOnly(edges, op);
  }

  lemma OtherNodesStay(p: Progress, op: Operation)
    requires TargetsEdge(op) && Step(p, op).Ok?
    ensures Step(p, op).value.expected.nodes == p.expected.nodes
  {
    EdgeStep(p, op);
  }

  lemma OtherEdgesStay(p: Progress, op: Operation)
    requires TargetsNode(op) && !op.DeleteNode? && Step(p, op).Ok?
    ensures Step(p, op).value.expected.edges == p.expected.edges && Step(p, op).value.removedIncident == p.removedIncident
  {
  }

  // -------------------------------------------------------------------------
  // A whole patch
  // -------------------------------------------------------------------------

  ghost predicate NodeFollows(before: seq<Entity>, op: Operation, after: seq<Entity>) {
    TargetsNode(op) ==> AsAsked(op, Lookup(before, op.id), Lookup(after, op.id))
  }

  /** Every targeted node is as its operation asks, and every other as before. */
  ghost predicate NodesFollow(before: seq<Entity>, ops: seq<Operation>, after: seq<Entity>) {
    && (forall k :: 0 <= k < |ops| ==> NodeFollows(before, ops[k], after))
    && (forall id: string :: id !in NodeTargets(ops) ==> Lookup(after, id) == Lookup(before, id))
  }

  /** The edge ends at a node that the patch deletes. */
  predicate EndsAtDeleted(ops: seq<Operation>, e: Entity) { exists k :: 0 <= k < |ops| && ops[k].DeleteNode? && EndsAt(e, ops[k].id) }

  ghost predicate EdgeFollows(before: seq<Entity>, op: Operation, after: seq<Entity>) {
    TargetsEdge(op) ==> AsAsked(op, Lookup(before, op.id), Lookup(after, op.id))
  }

  predicate LosesNode(before: seq<Entity>, ops: seq<Operation>, id: string) {
    id !in EdgeTargets(ops) && Lookup(before, id).Some? && EndsAtDeleted(ops, Lookup(before, id).value)
  }

  /** Every targeted edge is as its operation asks; of the others exactly those that end at a deleted node are gone. */
  ghost predicate EdgesFollow(before: seq<Entity>, ops: seq<Operation>, after: seq<Entity>) {
    && (forall k :: 0 <= k < |ops| ==> EdgeFollows(before, ops[k], after))
    && (forall id: string :: id !in EdgeTargets(ops) ==> Lookup(after, id) == if LosesNode(before, ops, id) then None else Lookup(before, id))
  }

  ghost predicate RemovedAre(before: seq<Entity>, ops: seq<Operation>, removed: set<string>) {
    forall id: string :: id in removed <==> LosesNode(before, ops, id)
  }

  lemma NodesStep(before: seq<Entity>, ops: seq<Operation>, p: Progress, op: Operation)
    requires Lockstep(p) && NewTarget(ops, op) && CheckOperation(op).None? && Step(p, op).Ok? && NodesFollow(before, ops, p.expected.nodes)
    ensures NodesFollow(before, ops + [op], Step(p, op).value.expected.nodes)
  {
    var nodes, nodes' := p.expected.nodes, Step(p, op).value.expected.nodes;
    TargetsGrow(ops, op);
    if TargetsNode(op) { NodeStepAsked(p, op); } else { OtherNodesStay(p, op); }
    var all := ops + [op];
    forall k | 0 <= k < |all| ensures NodeFollows(before, all[k], nodes') {
      if k < |ops| {
        assert NodeFollows(before, ops[k], nodes);
        assert TargetsNode(op) && TargetsNode(ops[k]) ==> ops[k].id != op.id;
      } else {
        assert TargetsNode(op) ==> Lookup(nodes, op.id) == Lookup(before, op.id);
      }
    }
  }

  lemma EdgesStep(before: Graph, ops: seq<Operation>, p: Progress, op: Operation)
    requires Lockstep(p) && NewTarget(ops, op) && CheckOperation(op).None? && TargetsEdge(op) && Step(p, op).Ok?
    requires EdgesFollow(before.edges, ops, p.expected.edges) && RemovedAre(before.edges, ops, p.removedIncident)
    ensures EdgesFollow(before.edges, ops + [op], Step(p, op).value.expected.edges)
    ensures RemovedAre(before.edges, ops + [op], Step(p, op).value.removedIncident)
  {
    var edges, edges' := p.expected.edges, Step(p, op).value.expected.edges;
    TargetsGrow(ops, op);
    EdgeStep(p, op);
    EdgeStepAsked(p, op);
    assert !LosesNode(before.edges, ops, op.id);
    var all := ops + [op];
    forall k | 0 <= k < |all| ensures EdgeFollows(before.edges, all[k], edges') {
      if k < |ops| {
        assert EdgeFollows(before.edges, ops[k], edges);
        assert TargetsEdge(ops[k]) ==> ops[k].id != op.id;
      } else {
        assert Lookup(edges, op.id) == Lookup(before.edges, op.id);
      }
    }
    forall id: string ensures LosesNode(before.edges, all, id) <==> id != op.id && LosesNode(before.edges, ops, id) {
      if Lookup(before.edges, id).Some? { DeletedSame(ops, op, Lookup(before.edges, id).value); }
    }
  }

  lemma DeletedSame(ops: seq<Operation>, op: Operation, e: Entity)
    ensures EndsAtDeleted(ops + [op], e) <==> EndsAtDeleted(ops, e) || (op.DeleteNode? && EndsAt(e, op.id))
  {
    var all := ops + [op];
    if k :| 0 <= k < |ops| && ops[k].DeleteNode? && EndsAt(e, ops[k].id) { assert all[k] == ops[k]; }
    if op.DeleteNode? && EndsAt(e, op.id) { assert all[|ops|] == op; }
  }

  lemma PlainEdgesStep(before: Graph, ops: seq<Operation>, p: Progress, op: Operation)
    requires NewTarget(ops, op) && TargetsNode(op) && !op.DeleteNode? && Step(p, op).Ok?
    requires EdgesFollow(before.edges, ops, p.expected.edges) && RemovedAre(before.edges, ops, p.removedIncident)
    ensures EdgesFollow(before.edges, ops + [op], Step(p, op).value.expected.edges)
    ensures RemovedAre(before.edges, ops + [op], Step(p, op).value.removedIncident)
  {
    TargetsGrow(ops, op);
    OtherEdgesStay(p, op);
    var all := ops + [op];
    forall k | 0 <= k < |all| ensures EdgeFollows(before.edges, all[k], p.expected.edges) {
      if k < |ops| { assert EdgeFollows(before.edges, ops[k], p.expected.edges); }
    }
    forall id: string ensures LosesNode(before.edges, all, id) <==> LosesNode(before.edges, ops, id) {
      if Lookup(before.edges, id).Some? { DeletedSame(ops, op, Lookup(before.edges, id).value); }
    }
  }

  lemma DeletedEdge(before: seq<Entity>, ops: seq<Operation>, edges: seq<Entity>, op: Operation, removed: set<string>, changed: set<string>, id: string)
    requires UniqueIds(edges) && op.DeleteNode? && EdgesFollow(before, ops, edges) && RemovedAre(before, ops, removed)
    requires EdgeTargets(ops + [op]) == EdgeTargets(ops) && EdgeTargets(ops) <= changed && Incident(edges, op.id) !! changed
    ensures LosesNode(before, ops + [op], id) <==> id in removed + Incident(edges, op.id)
    ensures id in EdgeTargets(ops) ==> Lookup(NotTouching(edges, op.id), id) == Lookup(edges, id)
    ensures id !in EdgeTargets(ops) ==>
              Lookup(NotTouching(edges, op.id), id) == if LosesNode(before, ops + [op], id) then None else Lookup(before, id)
  {
    CascadeLookup(edges, op.id, id);
    if Lookup(before, id).Some? { DeletedSame(ops, op, Lookup(before, id).value); }
  }

  lemma DeletionIs(p: Progress, op: Operation)
    requires op.DeleteNode? && Step(p, op).Ok?
    ensures var p' := Step(p, op).value;
            && p'.expected.edges == NotTouching(p.expected.edges, op.id) && Incident(p.expected.edges, op.id) !! p.changedEdges
            && p'.removedIncident == p.removedIncident + Incident(p.expected.edges, op.id)
  {
  }

  lemma CascadeStep(before: Graph, ops: seq<Operation>, p: Progress, op: Operation)
    requires Lockstep(p) && Accounted(before, ops, p) && NewTarget(ops, op) && op.DeleteNode? && Step(p, op).Ok?
    requires EdgesFollow(before.edges, ops, p.expected.edges) && RemovedAre(before.edges, ops, p.removedIncident)
    ensures EdgesFollow(before.edges, ops + [op], Step(p, op).value.expected.edges)
    ensures RemovedAre(before.edges, ops + [op], Step(p, op).value.removedIncident)
  {
    DeletionIs(p, op);
    TargetsGrow(ops, op);
    CascadeFollows(before.edges, ops, p.expected.edges, op, p.removedIncident, p.changedEdges);
  }

  lemma CascadeFollows(before: seq<Entity>, ops: seq<Operation>, edges: seq<Entity>, op: Operation, removed: set<string>, changed: set<string>)
    requires UniqueIds(edges) && op.DeleteNode? && EdgesFollow(before, ops, edges) && RemovedAre(before, ops, removed)
    requires EdgeTargets(ops + [op]) == EdgeTargets(ops) && EdgeTargets(ops) <= changed && Incident(edges, op.id) !! changed
    ensures EdgesFollow(before, ops + [op], NotTouching(edges, op.id)) && RemovedAre(before, ops + [op], removed + Incident(edges, op.id))
  {
    var all, edges' := ops + [op], NotTouching(edges, op.id);
    forall id: string ensures LosesNode(before, all, id) <==> id in removed + Incident(edges, op.id) {
      DeletedEdge(before, ops, edges, op, removed, changed, id);
    }
    forall id: string | id !in EdgeTargets(all) ensures Lookup(edges', id) == if LosesNode(before, all, id) then None else Lookup(before, id) {
      DeletedEdge(before, ops, edges, op, removed, changed, id);
    }
    forall k | 0 <= k < |all| ensures EdgeFollows(before, all[k], edges') {
      if k < |ops| && TargetsEdge(ops[k]) {
        assert EdgeFollows(before, ops[k], edges) && ops[k].id in EdgeTargets(ops);
        DeletedEdge(before, ops, edges, op, removed, changed, ops[k].id);
      }
    }
  }

  /** After an accepted list of operations the graph holds exactly what they ask, entity by entity. */
  ghost predicate PatchedAsAsked(before: Graph, ops: seq<Operation>, after: Graph) {
    NodesFollow(before.nodes, ops, after.nodes) && EdgesFollow(before.edges, ops, after.edges)
  }

  lemma {:induction false} PatchIsAsAsked(before: Graph, ops: seq<Operation>)
    requires UniqueIds(before.nodes) && UniqueIds(before.edges) && AllChecked(ops) && DistinctTargets(ops)
    ensures var r := Steps(Begin(ToJson(before), before), ops);
            r.Ok? ==> PatchedAsAsked(before, ops, r.value.expected) && RemovedAre(before.edges, ops, r.value.removedIncident)
    decreases |ops|
  {
    if ops != [] {
      var shorter, last := ops[..|ops| - 1], ops[|ops| - 1];
      assert shorter + [last] == ops;
      PatchIsAsAsked(before, shorter);
      PatchAccounted(before, shorter);
      var r := Steps(Begin(ToJson(before), before), shorter);
      if r.Ok? && Step(r.value, last).Ok? { OneMoreAsAsked(before, shorter, r.value, last); }
    }
  }

  lemma OneMoreAsAsked(before: Graph, ops: seq<Operation>, p: Progress, op: Operation)
    requires Lockstep(p) && Accounted(before, ops, p) && NewTarget(ops, op) && CheckOperation(op).None? && Step(p, op).Ok?
    requires PatchedAsAsked(before, ops, p.expected) && RemovedAre(before.edges, ops, p.removedIncident)
    ensures PatchedAsAsked(before, ops + [op], Step(p, op).value.expected)
    ensures RemovedAre(before.edges, ops + [op], Step(p, op).value.removedIncident)
  {
    NodesStep(before.nodes, ops, p, op);
    if TargetsEdge(op) { EdgesStep(before, ops, p, op); }
    else if op.DeleteNode? { CascadeStep(before, ops, p, op); }
    else { PlainEdgesStep(before, ops, p, op); }
  }

  // -------------------------------------------------------------------------
  // When an operation is refused
  // -------------------------------------------------------------------------

  /** An edge changed before ends at this node. */
  ghost predicate ChangedEdgeAt(p: Progress, node: string) {
    exists id: string :: id in p.changedEdges && Lookup(p.expected.edges, id).Some? && EndsAt(Lookup(p.expected.edges, id).value, node)
  }

  /** The reason to refuse an operation, from the graph of the moment and the edges that have changed or gone. */
  ghost function Refusal(p: Progress, op: Operation): Option<Reason> {
    var node, edge := Lookup(p.expected.nodes, op.id), Lookup(p.expected.edges, op.id);
    match op
    case AddTextNode(_, _, _, _, _, _, _) => if node.Some? then Some(NodeExists) else None
    case AddNode(_, _, _, _, _, _, _) => if node.Some? then Some(NodeExists) else None
    case SetText(_, _) =>
      if node.None? then Some(NodeMissing) else if FieldOf(node.value, "type") != Some(Str("text")) then Some(NodeNotText) else None
    case MoveNode(_, _, _, _, _) => if node.None? then Some(NodeMissing) else None
    case SetNodeFields(_, _) => if node.None? then Some(NodeMissing) else None
    case DeleteNode(id) =>
      if node.None? then Some(NodeMissing) else if ChangedEdgeAt(p, id) then Some(EdgeChangedBeforeRemoval) else None
    case ConnectNodes(id, fromNode, toNode, _) =>
      if id in p.removedIncident then Some(EdgeReuseAfterRemoval)
      else if edge.Some? then Some(EdgeExists)
      else if Lookup(p.expected.nodes, fromNode).None? || Lookup(p.expected.nodes, toNode).None? then Some(EdgeNodeMissing)
      else None
    case DeleteEdge(_) => if edge.None? then Some(EdgeMissing) else None
    case UpdateEdge(id, _) =>
      if id in p.removedIncident then Some(EdgeReuseAfterRemoval) else if edge.None? then Some(EdgeMissing) else None
  }

  lemma IncidentIsChanged(p: Progress, node: string)
    requires UniqueIds(p.expected.edges)
    ensures Incident(p.expected.edges, node) !! p.changedEdges <==> !ChangedEdgeAt(p, node)
  {
    forall id: string
      ensures id in Incident(p.expected.edges, node) <==> Lookup(p.expected.edges, id).Some? && EndsAt(Lookup(p.expected.edges, id).value, node)
    {
      CascadeLookup(p.expected.edges, node, id);
    }
    if !(Incident(p.expected.edges, node) !! p.changedEdges) {
      var id :| id in Incident(p.expected.edges, node) && id in p.changedEdges;
      assert ChangedEdgeAt(p, node);
    }
  }

  /** An operation is refused exactly for these reasons, and otherwise applies. */
  lemma StepRefuses(p: Progress, op: Operation)
    requires Lockstep(p) && CheckOperation(op).None?
    ensures match Refusal(p, op) case None => Step(p, op).Ok? case Some(reason) => Step(p, op) == Fail(reason)
  {
    EntitiesOfGraph(p.expected);
    if op.DeleteNode? {
      IncidentIsChanged(p, op.id);
      StepLockstep(p, op);
    }
  }
}
