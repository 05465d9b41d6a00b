/** Which operations are supported and which graphs are valid, said of the fields as they are written. */
module CanvasValidity {
  import opened Options
  import opened JsonValues
  import opened CanvasJson
  import opened CanvasPatch
  import opened CanvasPatchProofs
  import opened CanvasContents

  // -------------------------------------------------------------------------
  // Identifiers
  // -------------------------------------------------------------------------

  /** The white space and line terminators of ECMAScript, by code point. */
  const WhiteSpace: set<int> := {
    0x09, 0x0A, 0x0B, 0x0C, 0x0D, 0x20, 0xA0, 0x1680, 0x2000, 0x2001, 0x2002, 0x2003, 0x2004, 0x2005, 0x2006, 0x2007,
    0x2008, 0x2009, 0x200A, 0x2028, 0x2029, 0x202F, 0x205F, 0x3000, 0xFEFF}

  function TrimmedStart(text: string): string {
    if text != [] && text[0] as int in WhiteSpace then TrimmedStart(text[1..]) else text
  }

  function TrimmedEnd(text: string): string {
    if text != [] && text[|text| - 1] as int in WhiteSpace then TrimmedEnd(text[..|text| - 1]) else text
  }

  function Trimmed(text: string): string { TrimmedEnd(TrimmedStart(text)) }

  lemma {:induction false} StartNotLonger(text: string)
    ensures |TrimmedStart(text)| <= |text|
  {
    if text != [] { StartNotLonger(text[1..]); }
  }

  lemma {:induction false} EndNotLonger(text: string)
    ensures |TrimmedEnd(text)| <= |text|
  {
    if text != [] { EndNotLonger(text[..|text| - 1]); }
  }

  /** An identifier is accepted exactly when it is not empty, not too long, and trimming leaves it as it is. */
  lemma ValidIdIff(id: string)
    ensures ValidId(id) <==> 1 <= |id| <= 256 && Trimmed(id) == id
  {
    if id != [] {
      StartNotLonger(id[1..]);
      EndNotLonger(TrimmedStart(id));
      EndNotLonger(id[..|id| - 1]);
    }
  }

  // -------------------------------------------------------------------------
  // Operations
  // -------------------------------------------------------------------------

  /** The fields of a type of node, besides the common ones. */
  predicate OwnField(kind: string, field: string) {
    || (field == "color" && kind in {"text", "file", "link", "group"})
    || (field == "text" && kind == "text")
    || (field in {"file", "subpath"} && kind == "file")
    || (field == "url" && kind == "link")
    || (field in {"label", "background", "backgroundStyle"} && kind == "group")
  }

  predicate NodeField(field: string) { OwnField("text", field) || OwnField("file", field) || OwnField("link", field) || OwnField("group", field) }

  predicate EdgeOption(field: string) { field in {"fromSide", "toSide", "fromEnd", "toEnd", "label", "color"} }

  /** Every operation names an entity; sizes are positive, and fields belong to what is written. */
  predicate Supported(op: Operation) {
    && 1 <= |op.id| <= 256 && Trimmed(op.id) == op.id
    && match op
       case AddTextNode(_, _, _, _, width, height, _) => width > 0 && height > 0
       case AddNode(_, kind, _, _, width, height, fields) =>
         kind in {"text", "file", "link", "group"} && width > 0 && height > 0 && forall field :: field in fields ==> OwnField(kind, field)
       case SetText(_, _) => true
       case MoveNode(_, _, _, newWidth, newHeight) => (newWidth.Some? ==> newWidth.value > 0) && (newHeight.Some? ==> newHeight.value > 0)
       case DeleteNode(_) => true
       case ConnectNodes(_, _, _, fields) => forall field :: field in fields ==> EdgeOption(field)
       case DeleteEdge(_) => true
       case SetNodeFields(_, updates) =>
         updates != [] && forall k :: 0 <= k < |updates| ==> NodeField(updates[k].0)
       case UpdateEdge(_, updates) => updates != [] && forall k :: 0 <= k < |updates| ==> EdgeUpdate(updates[k])
  }

  /** An end of an edge may be moved, but not removed. */
  predicate EdgeUpdate(update: (string, Option<string>)) { EdgeOption(update.0) || (update.0 in {"fromNode", "toNode"} && update.1.Some?) }

  lemma TypeFieldsAre(kind: string, field: string)
    ensures field in TypeFields(kind) <==> OwnField(kind, field)
  {
  }

  lemma SupportedIff(op: Operation)
    ensures CheckOperation(op).None? <==> Supported(op)
  {
    ValidIdIff(op.id);
    match op
    case AddNode(_, kind, _, _, _, _, fields) => forall field: string ensures field in TypeFields(kind) <==> OwnField(kind, field) { TypeFieldsAre(kind, field); }
    case SetNodeFields(_, updates) => NodeUpdatesAre(updates);
    case UpdateEdge(_, updates) => EdgeUpdatesAre(updates);
    case _ =>
  }

  lemma NodeUpdatesAre(updates: seq<(string, Option<string>)>)
    ensures CheckUpdates(updates, NodeFields).None? <==> updates != [] && forall k :: 0 <= k < |updates| ==> NodeField(updates[k].0)
  {
    forall k | 0 <= k < |updates| ensures updates[k] in updates && (updates[k].0 in NodeFields <==> NodeField(updates[k].0)) {}
    forall u | u in updates ensures u.0 in NodeFields ==> u.0 !in {"fromNode", "toNode"} {}
  }

  lemma EdgeUpdatesAre(updates: seq<(string, Option<string>)>)
    ensures CheckUpdates(updates, EdgeFields).None? <==> updates != [] && forall k :: 0 <= k < |updates| ==> EdgeUpdate(updates[k])
  {
    forall k | 0 <= k < |updates| ensures updates[k] in updates {}
  }

  /** A list is accepted exactly when it has one to sixty-four operations, all supported, with distinct targets. */
  lemma AcceptedListIff(ops: seq<Operation>)
    ensures Canonicalize(ops).None? <==> 1 <= |ops| <= 64 && (forall k :: 0 <= k < |ops| ==> Supported(ops[k])) && DistinctTargets(ops)
  {
    CheckAllMeans(ops, {}, {});
    forall k | 0 <= k < |ops| ensures CheckOperation(ops[k]).None? <==> Supported(ops[k]) { SupportedIff(ops[k]); }
  }

  // -------------------------------------------------------------------------
  // Graphs
  // -------------------------------------------------------------------------

  ghost predicate TextAt(e: Entity, field: string) { exists text: string :: FieldOf(e, field) == Some(Str(text)) }

  ghost predicate MissingOrText(e: Entity, field: string) { FieldOf(e, field).None? || TextAt(e, field) }

  ghost predicate MissingOrOneOf(e: Entity, field: string, texts: set<string>) {
    FieldOf(e, field).None? || exists text: string :: text in texts && FieldOf(e, field) == Some(Str(text))
  }

  ghost predicate IntegerAt(e: Entity, field: string, least: Option<int>) {
    exists n: int :: FieldOf(e, field) == IntegerOf(n) && (least.Some? ==> n >= least.value)
  }

  ghost predicate IdAt(e: Entity) { exists id: string :: FieldOf(e, "id") == Some(Str(id)) && 1 <= |id| <= 256 && Trimmed(id) == id }

  /** A node: an identifier, a type, a place, a positive size, and fields of its own type only. */
  ghost predicate ValidNode(n: Entity) {
    && IdAt(n)
    && IntegerAt(n, "x", None) && IntegerAt(n, "y", None) && IntegerAt(n, "width", Some(1)) && IntegerAt(n, "height", Some(1))
    && MissingOrText(n, "color")
    && exists kind: string :: FieldOf(n, "type") == Some(Str(kind)) && ValidOf(n, kind)
  }

  ghost predicate ValidOf(n: Entity, kind: string) {
    && (forall field :: field in {"text", "file", "subpath", "url", "label", "background", "backgroundStyle"} && FieldOf(n, field).Some? ==> OwnField(kind, field))
    && match kind
       case "text" => TextAt(n, "text")
       case "file" => TextAt(n, "file") && (FieldOf(n, "subpath").None? || exists text: string :: FieldOf(n, "subpath") == Some(Str("#" + text)))
       case "link" => TextAt(n, "url")
       case "group" => MissingOrText(n, "label") && MissingOrText(n, "background") && MissingOrOneOf(n, "backgroundStyle", {"cover", "ratio", "repeat"})
       case _ => false
  }

  ghost predicate ValidEdge(e: Entity) {
    && IdAt(e)
    && MissingOrOneOf(e, "fromSide", {"top", "right", "bottom", "left"}) && MissingOrOneOf(e, "toSide", {"top", "right", "bottom", "left"})
    && MissingOrOneOf(e, "fromEnd", {"none", "arrow"}) && MissingOrOneOf(e, "toEnd", {"none", "arrow"})
    && MissingOrText(e, "label") && MissingOrText(e, "color")
  }

  /** Both ends of the edge are nodes of the graph. */
  ghost predicate Joined(nodes: seq<Entity>, e: Entity) {
    exists a: string, b: string ::
      FieldOf(e, "fromNode") == Some(Str(a)) && FieldOf(e, "toNode") == Some(Str(b)) && Lookup(nodes, a).Some? && Lookup(nodes, b).Some?
  }

  /** Valid nodes and edges, of which no two nodes and no two edges share an identifier, and edges between nodes of the graph. */
  ghost predicate ValidGraph(g: Graph) {
    && (forall k :: 0 <= k < |g.nodes| ==> ValidNode(g.nodes[k]))
    && (forall k :: 0 <= k < |g.edges| ==> ValidEdge(g.edges[k]) && Joined(g.nodes, g.edges[k]))
    && (forall i, j :: 0 <= i < j < |g.nodes| ==> FieldOf(g.nodes[i], "id") != FieldOf(g.nodes[j], "id"))
    && (forall i, j :: 0 <= i < j < |g.edges| ==> FieldOf(g.edges[i], "id") != FieldOf(g.edges[j], "id"))
  }

  lemma TextIs(e: Entity, field: string)
    ensures HasText(e, field) <==> TextAt(e, field)
    ensures TextOrAbsent(e, field) <==> MissingOrText(e, field)
  {
    if HasText(e, field) { assert FieldOf(e, field) == Some(Str(e[field].text)); }
  }

  lemma OneOfIs(e: Entity, field: string, texts: set<string>)
    ensures OneOfOrAbsent(e, field, texts) <==> MissingOrOneOf(e, field, texts)
  {
    if OneOfOrAbsent(e, field, texts) && field in e { assert e[field].text in texts && FieldOf(e, field) == Some(Str(e[field].text)); }
  }

  lemma IntegerIs(e: Entity, field: string)
    ensures HasInteger(e, field) <==> IntegerAt(e, field, None)
    ensures HasInteger(e, field) && e[field].number > 0.0 <==> IntegerAt(e, field, Some(1))
  {
    if HasInteger(e, field) {
      var n := e[field].number.Floor;
      assert FieldOf(e, field) == IntegerOf(n);
    }
  }

  lemma IdIs(e: Entity)
    ensures IdOf(e).Some? && ValidId(IdOf(e).value) <==> IdAt(e)
  {
    if IdOf(e).Some? {
      ValidIdIff(IdOf(e).value);
      assert FieldOf(e, "id") == Some(Str(IdOf(e).value));
    }
    if id: string :| FieldOf(e, "id") == Some(Str(id)) && 1 <= |id| <= 256 && Trimmed(id) == id { ValidIdIff(id); }
  }

  lemma SubpathIs(n: Entity)
    ensures TextOrAbsent(n, "subpath") && ("subpath" in n ==> "#" <= n["subpath"].text)
            <==> FieldOf(n, "subpath").None? || exists text: string :: FieldOf(n, "subpath") == Some(Str("#" + text))
  {
    if "subpath" in n && n["subpath"].Str? && "#" <= n["subpath"].text {
      var text := n["subpath"].text;
      assert "#" + text[1..] == text;
    }
  }

  /** The part of the check that depends on the type. */
  predicate OfType(n: Entity, kind: string) {
    && (forall f :: f in n && f in NodeFields - {"color"} ==> f in TypeFields(kind))
    && (kind == "text" ==> HasText(n, "text"))
    && (kind == "file" ==>
          HasText(n, "file") && TextOrAbsent(n, "subpath") && ("subpath" in n ==> "#" <= n["subpath"].text))
    && (kind == "link" ==> HasText(n, "url"))
    && (kind == "group" ==>
          && TextOrAbsent(n, "label") && TextOrAbsent(n, "background")
          && OneOfOrAbsent(n, "backgroundStyle", {"cover", "ratio", "repeat"}))
  }

  lemma OwnFieldsAre(n: Entity, kind: string)
    ensures (forall f :: f in n && f in NodeFields - {"color"} ==> f in TypeFields(kind))
            <==> forall field :: field in {"text", "file", "subpath", "url", "label", "background", "backgroundStyle"} && FieldOf(n, field).Some? ==> OwnField(kind, field)
  {
    assert NodeFields - {"color"} == {"text", "file", "subpath", "url", "label", "background", "backgroundStyle"};
    forall field: string ensures field in TypeFields(kind) <==> OwnField(kind, field) { TypeFieldsAre(kind, field); }
  }

  lemma OfTypeIs(n: Entity, kind: string)
    ensures kind in NodeTypes && OfType(n, kind) <==> ValidOf(n, kind)
  {
    OwnFieldsAre(n, kind);
    TextIs(n, "text");
    TextIs(n, "file");
    TextIs(n, "url");
    TextIs(n, "label");
    TextIs(n, "background");
    OneOfIs(n, "backgroundStyle", {"cover", "ratio", "repeat"});
    SubpathIs(n);
  }

  lemma NodeOkIff(n: Entity)
    ensures NodeOk(n) <==> ValidNode(n)
  {
    IdIs(n);
    IntegerIs(n, "x");
    IntegerIs(n, "y");
    IntegerIs(n, "width");
    IntegerIs(n, "height");
    TextIs(n, "color");
    if HasText(n, "type") {
      OfTypeIs(n, n["type"].text);
      assert FieldOf(n, "type") == Some(Str(n["type"].text));
    }
    if ValidNode(n) {
      var kind: string :| FieldOf(n, "type") == Some(Str(kind)) && ValidOf(n, kind);
      OfTypeIs(n, kind);
    }
  }

  lemma EdgeOkIff(e: Entity)
    ensures EdgeOk(e) <==> ValidEdge(e)
  {
    IdIs(e);
    OneOfIs(e, "fromSide", {"top", "right", "bottom", "left"});
    OneOfIs(e, "toSide", {"top", "right", "bottom", "left"});
    OneOfIs(e, "fromEnd", {"none", "arrow"});
    OneOfIs(e, "toEnd", {"none", "arrow"});
    TextIs(e, "label");
    TextIs(e, "color");
  }

  lemma JoinedIff(nodes: seq<Entity>, e: Entity)
    ensures Anchored(nodes, e) <==> Joined(nodes, e)
  {
    if Anchored(nodes, e) {
      var a, b := e["fromNode"].text, e["toNode"].text;
      assert FieldOf(e, "fromNode") == Some(Str(a)) && FieldOf(e, "toNode") == Some(Str(b));
      assert Lookup(nodes, a).Some? && Lookup(nodes, b).Some?;
    }
    if a: string, b: string :|
      FieldOf(e, "fromNode") == Some(Str(a)) && FieldOf(e, "toNode") == Some(Str(b)) && Lookup(nodes, a).Some? && Lookup(nodes, b).Some?
    {
      assert IdOf(nodes[IndexById(nodes, a)]) == Some(a) && IdOf(nodes[IndexById(nodes, b)]) == Some(b);
    }
  }

  lemma DistinctIdsIff(items: seq<Entity>)
    requires forall k :: 0 <= k < |items| ==> IdAt(items[k])
    ensures UniqueIds(items) <==> forall i, j :: 0 <= i < j < |items| ==> FieldOf(items[i], "id") != FieldOf(items[j], "id")
  {
    forall k | 0 <= k < |items| ensures IdOf(items[k]).Some? && FieldOf(items[k], "id") == Some(Str(IdOf(items[k]).value)) { IdIs(items[k]); }
    if UniqueIds(items) {
      forall i, j | 0 <= i < j < |items| ensures FieldOf(items[i], "id") != FieldOf(items[j], "id") { assert IdOf(items[i]) != IdOf(items[j]); }
    }
    if forall i, j :: 0 <= i < j < |items| ==> FieldOf(items[i], "id") != FieldOf(items[j], "id") {
      forall i, j | 0 <= i < j < |items| ensures IdOf(items[i]) != IdOf(items[j]) { assert FieldOf(items[i], "id") != FieldOf(items[j], "id"); }
    }
  }

  lemma NodesIff(nodes: seq<Entity>)
    ensures (forall k :: 0 <= k < |nodes| ==> NodeOk(nodes[k])) && UniqueIds(nodes)
            <==> (forall k :: 0 <= k < |nodes| ==> ValidNode(nodes[k]))
                 && forall i, j :: 0 <= i < j < |nodes| ==> FieldOf(nodes[i], "id") != FieldOf(nodes[j], "id")
  {
    forall k | 0 <= k < |nodes| ensures NodeOk(nodes[k]) <==> ValidNode(nodes[k]) { NodeOkIff(nodes[k]); }
    if forall k :: 0 <= k < |nodes| ==> ValidNode(nodes[k]) { DistinctIdsIff(nodes); }
  }

  lemma EdgesIff(nodes: seq<Entity>, edges: seq<Entity>)
    ensures (forall k :: 0 <= k < |edges| ==> EdgeOk(edges[k])) && UniqueIds(edges) && (forall k :: 0 <= k < |edges| ==> Anchored(nodes, edges[k]))
            <==> (forall k :: 0 <= k < |edges| ==> ValidEdge(edges[k]) && Joined(nodes, edges[k]))
                 && forall i, j :: 0 <= i < j < |edges| ==> FieldOf(edges[i], "id") != FieldOf(edges[j], "id")
  {
    forall k | 0 <= k < |edges| ensures EdgeOk(edges[k]) <==> ValidEdge(edges[k]) { EdgeOkIff(edges[k]); }
    forall k | 0 <= k < |edges| ensures Anchored(nodes, edges[k]) <==> Joined(nodes, edges[k]) { JoinedIff(nodes, edges[k]); }
    if forall k :: 0 <= k < |edges| ==> ValidEdge(edges[k]) { DistinctIdsIff(edges); }
  }

  /** The check of a graph accepts exactly the valid ones. */
  lemma ValidGraphIff(g: Graph)
    ensures GraphOk(g) <==> ValidGraph(g)
  {
    NodesIff(g.nodes);
    EdgesIff(g.nodes, g.edges);
  }
}
