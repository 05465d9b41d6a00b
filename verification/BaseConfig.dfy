/**
 The governed edit of a whole Obsidian Base configuration. Every operation is
 interpreted twice: on plain data (`ApplyModel`), and on the ordered YAML
 document whose comments survive (`ApplyYaml`).
 */
module BaseConfig {
  import opened Options
  import opened JsonValues

  // -------------------------------------------------------------------------
  // YAML nodes
  // -------------------------------------------------------------------------

  /** A mapping keeps the order of its pairs; a pair keeps the comment lines written above its key. */
  datatype Node = Scalar(value: Json) | Sequence(items: seq<Node>) | Mapping(pairs: seq<Pair>)

  datatype Pair = Pair(key: string, comment: seq<string>, value: Node)

  datatype Document = Document(commentBefore: seq<string>, leading: seq<string>, pairs: seq<Pair>, comment: seq<string>)

  function Abs(n: Node): Json
    decreases n, 1
  {
    match n
    case Scalar(v) => v
    case Sequence(items) => Arr(AbsItems(items))
    case Mapping(pairs) => Obj(AbsPairs(pairs))
  }

  function AbsItems(items: seq<Node>): seq<Json>
    decreases items, 0
  {
    if items == [] then [] else [Abs(items[0])] + AbsItems(items[1..])
  }

  function AbsPairs(pairs: seq<Pair>): map<string, Json>
    decreases pairs, 0
  {
    if pairs == [] then map[] else AbsPairs(pairs[1..])[pairs[0].key := Abs(pairs[0].value)]
  }

  predicate UniqueKeys(pairs: seq<Pair>) {
    pairs == [] || (Find(pairs[1..], pairs[0].key) == -1 && UniqueKeys(pairs[1..]))
  }

  /** What the YAML parser guarantees: unique keys everywhere, and scalars are not collections. */
  predicate Sound(n: Node)
    decreases n, 1
  {
    match n
    case Scalar(v) => !v.Arr? && !v.Obj?
    case Sequence(items) => SoundItems(items)
    case Mapping(pairs) => SoundPairs(pairs)
  }

  predicate SoundItems(items: seq<Node>)
    decreases items, 0
  {
    forall i :: 0 <= i < |items| ==> Sound(items[i])
  }

  predicate SoundPairs(pairs: seq<Pair>)
    decreases pairs, 0
  {
    UniqueKeys(pairs) && forall i :: 0 <= i < |pairs| ==> Sound(pairs[i].value)
  }

  predicate KeyAt(pairs: seq<Pair>, k: nat, key: string)
    requires k < |pairs|
  {
    pairs[k].key == key
  }

  function Find(pairs: seq<Pair>, key: string): (i: int)
    ensures -1 <= i < |pairs|
    ensures i >= 0 ==> pairs[i].key == key
    ensures i == -1 <==> forall k :: 0 <= k < |pairs| ==> !KeyAt(pairs, k, key)
  {
    assert pairs != [] ==> forall k :: 0 < k < |pairs| ==> KeyAt(pairs, k, key) == KeyAt(pairs[1..], k - 1, key);
    if pairs == [] then -1
    else if KeyAt(pairs, 0, key) then 0
    else
      var rest := Find(pairs[1..], key);
      if rest == -1 then -1 else assert KeyAt(pairs, rest + 1, key); rest + 1
  }

  function Get(pairs: seq<Pair>, key: string): Option<Node> {
    var i := Find(pairs, key);
    if i == -1 then None else Some(pairs[i].value)
  }

  function Put(pairs: seq<Pair>, key: string, value: Node): seq<Pair> {
    var i := Find(pairs, key);
    if i == -1 then pairs + [Pair(key, [], value)] else pairs[i := pairs[i].(value := value)]
  }

  function Drop(pairs: seq<Pair>, key: string): seq<Pair> {
    var i := Find(pairs, key);
    if i == -1 then pairs else pairs[..i] + pairs[i + 1..]
  }

  // -------------------------------------------------------------------------
  // Operations
  // -------------------------------------------------------------------------

  /** Values given as JSON keep their key order, so they are nodes; plain data is their `Abs`. */
  datatype Operation =
    | SetFilters(filters: Node)
    | DeleteFilters
    | SetFormula(name: string, expression: string)
    | DeleteFormula(name: string)
    | SetProperty(property: string, key: string, value: Node)
    | DeleteProperty(property: string, settings: Option<string>)
    | SetSummary(name: string, formula: string)
    | DeleteSummary(name: string)
    | AddView(pairs: seq<Pair>, position: Option<nat>)
    | DeleteView(view: string)
    | MoveView(view: string, to: nat)
    | SetViewKey(view: string, key: string, value: Node)
    | DeleteViewKey(view: string, key: string)

  datatype Reason =
    | NameInvalid | SectionInvalid | TargetMissing | ViewExists | ViewMissing | ViewAmbiguous | LastView | ProjectionMismatch | ResultInvalid

  datatype Result<+T> = Ok(value: T) | Fail(reason: Reason)

  const ForbiddenKeys: set<string> := {"__proto__", "constructor", "prototype", "<<"}

  /** The part of the operation check that both interpreters rely on. */
  predicate Canonical(op: Operation) {
    match op
    case SetFilters(f) => Sound(f)
    case SetProperty(p, _, v) => p !in ForbiddenKeys && Sound(v)
    case DeleteProperty(p, _) => p !in ForbiddenKeys
    case AddView(pairs, _) =>
      SoundPairs(pairs) && Get(pairs, "name").Some? && IsText(Get(pairs, "name").value) && Get(pairs, "type").Some?
    case SetViewKey(_, key, v) => Sound(v) && (key == "name" ==> IsText(v))
    case DeleteViewKey(_, key) => key != "name" && key != "type"
    case _ => true
  }

  predicate IsText(n: Node) { n.Scalar? && n.value.Str? }

  function TextNode(s: string): Node { Scalar(Str(s)) }

  // -------------------------------------------------------------------------
  // The intent on plain data
  // -------------------------------------------------------------------------

  type Model = map<string, Json>

  function MapAt(model: Model, key: string): Result<Model> {
    if key in ForbiddenKeys then Fail(NameInvalid)
    else if key !in model || model[key].Null? then Ok(map[])
    else if !model[key].Obj? then Fail(SectionInvalid)
    else Ok(model[key].fields)
  }

  function ViewsOf(model: Model): Result<seq<Json>> {
    if "views" !in model then Ok([])
    else if !model["views"].Arr? then Fail(SectionInvalid)
    else Ok(model["views"].items)
  }

  predicate Named(item: Json, view: string) {
    item.Obj? && "name" in item.fields && item.fields["name"] == Str(view)
  }

  function Matches(views: seq<Json>, view: string): seq<nat> {
    if views == [] then []
    else
      var n := |views| - 1;
      Matches(views[..n], view) + (if Named(views[n], view) then [n] else [])
  }

  function ViewIndex(views: seq<Json>, view: string): Result<nat> {
    var m := Matches(views, view);
    if |m| == 0 then Fail(ViewMissing) else if |m| > 1 then Fail(ViewAmbiguous) else Ok(m[0])
  }

  function Min(a: nat, b: nat): nat { if a < b then a else b }

  function RemoveAt<T>(s: seq<T>, i: nat): seq<T>
    requires i < |s|
  {
    s[..i] + s[i + 1..]
  }

  function InsertAt<T>(s: seq<T>, i: nat, x: T): seq<T>
    requires i <= |s|
  {
    s[..i] + [x] + s[i..]
  }

  function ModelDeleteEntry(model: Model, section: string, name: string): Result<Model> {
    var m := MapAt(model, section);
    if m.Fail? then Fail(m.reason)
    else if name !in m.value then Fail(TargetMissing)
    else if |m.value| == 1 then Ok(model - {section})
    else Ok(model[section := Obj(m.value - {name})])
  }

  function ModelSetEntry(model: Model, section: string, name: string, value: Json): Result<Model> {
    var m := MapAt(model, section);
    if m.Fail? then Fail(m.reason) else Ok(model[section := Obj(m.value[name := value])])
  }

  function ModelDeleteProperty(model: Model, property: string, settings: Option<string>): Result<Model> {
    var m := MapAt(model, "properties");
    if m.Fail? then Fail(m.reason)
    else if property !in m.value then Fail(TargetMissing)
    else
      var left: Result<Model> :=
        if settings.None? then Ok(m.value - {property})
        else
          var p := MapAt(m.value, property);
          if p.Fail? then Fail(p.reason)
          else if settings.value !in p.value then Fail(TargetMissing)
          else
            var rest := p.value - {settings.value};
            if |rest| == 0 then Ok(m.value - {property}) else Ok(m.value[property := Obj(rest)]);
      if left.Fail? then left
      else if |left.value| == 0 then Ok(model - {"properties"})
      else Ok(model["properties" := Obj(left.value)])
  }

  function WithViews(model: Model, views: seq<Json>): Model {
    model["views" := Arr(views)]
  }

  function ModelAddView(model: Model, pairs: seq<Pair>, position: Option<nat>): Result<Model>
    requires Get(pairs, "name").Some? && IsText(Get(pairs, "name").value)
  {
    var views := ViewsOf(model);
    var name := Get(pairs, "name").value.value.text;
    if views.Fail? then Fail(views.reason)
    else if exists i :: 0 <= i < |views.value| && Named(views.value[i], name) then Fail(ViewExists)
    else
      var at := if position.None? then |views.value| else Min(position.value, |views.value|);
      Ok(WithViews(model, InsertAt(views.value, at, Obj(AbsPairs(pairs)))))
  }

  function MoveItem<T>(s: seq<T>, i: nat, position: nat): seq<T>
    requires i < |s|
  {
    var rest := RemoveAt(s, i);
    InsertAt(rest, Min(position, |rest|), s[i])
  }

  /** The views operations that start by finding one view. */
  function ModelOnView(model: Model, op: Operation): Result<Model>
    requires op.DeleteView? || op.MoveView? || op.SetViewKey? || op.DeleteViewKey?
    requires Canonical(op)
  {
    var views := ViewsOf(model);
    if views.Fail? then Fail(views.reason)
    else
      var index := ViewIndex(views.value, op.view);
      if index.Fail? then Fail(index.reason)
      else
        MatchesInside(views.value, op.view);
        var i, list := index.value, views.value;
        match op
        case DeleteView(_) => if |list| == 1 then Fail(LastView) else Ok(WithViews(model, RemoveAt(list, i)))
        case MoveView(_, to) => Ok(WithViews(model, MoveItem(list, i, to)))
        case SetViewKey(view, key, value) =>
          if key == "name" && Abs(value) != Str(view)
             && (exists k :: 0 <= k < |list| && list[k].Obj? && "name" in list[k].fields && list[k].fields["name"] == Abs(value))
          then Fail(ViewExists)
          else Ok(WithViews(model, list[i := Obj(list[i].fields[key := Abs(value)])]))
        case DeleteViewKey(_, key) =>
          if key !in list[i].fields then Fail(TargetMissing)
          else Ok(WithViews(model, list[i := Obj(list[i].fields - {key})]))
  }

  lemma {:induction false} MatchesInside(views: seq<Json>, view: string)
    ensures forall k :: 0 <= k < |Matches(views, view)| ==>
              Matches(views, view)[k] < |views| && Named(views[Matches(views, view)[k]], view)
  {
    if views != [] { MatchesInside(views[..|views| - 1], view); }
  }

  function ApplyModel(model: Model, op: Operation): Result<Model>
    requires Canonical(op)
  {
    match op
    case SetFilters(filters) => Ok(model["filters" := Abs(filters)])
    case DeleteFilters => if "filters" !in model then Fail(TargetMissing) else Ok(model - {"filters"})
    case SetFormula(name, expression) => ModelSetEntry(model, "formulas", name, Str(expression))
    case DeleteFormula(name) => ModelDeleteEntry(model, "formulas", name)
    case SetProperty(property, key, value) =>
      var m := MapAt(model, "properties");
      if m.Fail? then Fail(m.reason)
      else
        var p := ModelSetEntry(m.value, property, key, Abs(value));
        if p.Fail? then p else Ok(model["properties" := Obj(p.value)])
    case DeleteProperty(property, settings) => ModelDeleteProperty(model, property, settings)
    case SetSummary(name, formula) => ModelSetEntry(model, "summaries", name, Str(formula))
    case DeleteSummary(name) => ModelDeleteEntry(model, "summaries", name)
    case AddView(pairs, position) => ModelAddView(model, pairs, position)
    case DeleteView(_) => ModelOnView(model, op)
    case MoveView(_, _) => ModelOnView(model, op)
    case SetViewKey(_, _, _) => ModelOnView(model, op)
    case DeleteViewKey(_, _) => ModelOnView(model, op)
  }

  // -------------------------------------------------------------------------
  // The edit of the YAML document
  // -------------------------------------------------------------------------

  /** The section as a mapping, created empty where there is none or a null. */
  function EnsureMap(pairs: seq<Pair>, key: string): Result<seq<Pair>> {
    var value := Get(pairs, key);
    if value.None? || value.value == Scalar(Null) then Ok(Put(pairs, key, Mapping([])))
    else if !value.value.Mapping? then Fail(SectionInvalid)
    else Ok(pairs)
  }

  function Section(pairs: seq<Pair>, key: string): seq<Pair>
    requires Get(pairs, key).Some? && Get(pairs, key).value.Mapping?
  {
    Get(pairs, key).value.pairs
  }

  function YamlSetEntry(pairs: seq<Pair>, section: string, name: string, value: Node): Result<seq<Pair>> {
    var ensured := EnsureMap(pairs, section);
    if ensured.Fail? then ensured
    else
      EnsureMapGives(pairs, section);
      Ok(Put(ensured.value, section, Mapping(Put(Section(ensured.value, section), name, value))))
  }

  lemma EnsureMapGives(pairs: seq<Pair>, key: string)
    requires EnsureMap(pairs, key).Ok?
    ensures Get(EnsureMap(pairs, key).value, key).Some? && Get(EnsureMap(pairs, key).value, key).value.Mapping?
  {
    PutThenGet(pairs, key, Mapping([]));
  }

  lemma {:induction false} PutThenGet(pairs: seq<Pair>, key: string, value: Node)
    ensures Get(Put(pairs, key, value), key) == Some(value)
  {
    if pairs == [] {
    } else if pairs[0].key == key {
    } else {
      PutThenGet(pairs[1..], key, value);
      assert Put(pairs, key, value) == [pairs[0]] + Put(pairs[1..], key, value);
      assert Put(pairs, key, value)[1..] == Put(pairs[1..], key, value);
    }
  }

  /** Deletion of one entry of a section: refused where there is no collection, without effect on a list. */
  function DeleteIn(pairs: seq<Pair>, section: string, name: string): Result<seq<Pair>> {
    var value := Get(pairs, section);
    if value.None? || value.value.Scalar? then Fail(SectionInvalid)
    else if value.value.Sequence? then Ok(pairs)
    else Ok(Put(pairs, section, Mapping(Drop(value.value.pairs, name))))
  }

  /** Removes a top-level key; the comments above it move to the next key, or to the document. */
  function DeleteTop(doc: Document, key: string): Document {
    var i := Find(doc.pairs, key);
    if i == -1 then doc
    else
      var kept := (if i == 0 then doc.leading else []) + doc.pairs[i].comment;
      var rest := RemoveAt(doc.pairs, i);
      var cleared := doc.(pairs := rest, leading := if i == 0 then [] else doc.leading);
      if i < |rest| then cleared.(pairs := rest[i := rest[i].(comment := kept + rest[i].comment)])
      else if i == 0 then cleared.(commentBefore := doc.commentBefore + kept)
      else cleared.(comment := doc.comment + kept)
  }

  function PruneEmpty(doc: Document, key: string): Document {
    if Get(doc.pairs, key) == Some(Mapping([])) then DeleteTop(doc, key) else doc
  }

  function OnPairs(doc: Document, pairs: Result<seq<Pair>>): Result<Document> {
    if pairs.Fail? then Fail(pairs.reason) else Ok(doc.(pairs := pairs.value))
  }

  function YamlDeleteEntry(doc: Document, section: string, name: string): Result<Document> {
    var cut := DeleteIn(doc.pairs, section, name);
    if cut.Fail? then Fail(cut.reason) else Ok(PruneEmpty(doc.(pairs := cut.value), section))
  }

  function YamlDeleteProperty(doc: Document, property: string, settings: Option<string>): Result<Document> {
    if settings.None? then YamlDeleteEntry(doc, "properties", property)
    else
      var section := Get(doc.pairs, "properties");
      if section.None? || !section.value.Mapping? then Fail(SectionInvalid)
      else
        var inner := DeleteIn(section.value.pairs, property, settings.value);
        if inner.Fail? then Fail(inner.reason)
        else
          var left := if Get(inner.value, property) == Some(Mapping([])) then Drop(inner.value, property) else inner.value;
          Ok(PruneEmpty(doc.(pairs := Put(doc.pairs, "properties", Mapping(left))), "properties"))
  }

  predicate NodeNamed(n: Node, view: string) {
    n.Mapping? && Get(n.pairs, "name") == Some(TextNode(view))
  }

  function NodeMatches(items: seq<Node>, view: string): seq<nat> {
    if items == [] then []
    else
      var n := |items| - 1;
      NodeMatches(items[..n], view) + (if NodeNamed(items[n], view) then [n] else [])
  }

  function YamlViews(pairs: seq<Pair>): seq<Node> {
    var views := Get(pairs, "views");
    if views.Some? && views.value.Sequence? then views.value.items else []
  }

  function YamlViewIndex(pairs: seq<Pair>, view: string): Result<nat> {
    var views := Get(pairs, "views");
    if views.None? || !views.value.Sequence? then Fail(SectionInvalid)
    else
      var m := NodeMatches(views.value.items, view);
      if |m| != 1 then Fail(ViewMissing) else Ok(m[0])
  }

  lemma {:induction false} NodeMatchesInside(items: seq<Node>, view: string)
    ensures forall k :: 0 <= k < |NodeMatches(items, view)| ==>
              NodeMatches(items, view)[k] < |items| && NodeNamed(items[NodeMatches(items, view)[k]], view)
  {
    if items != [] { NodeMatchesInside(items[..|items| - 1], view); }
  }

  function PutViews(pairs: seq<Pair>, items: seq<Node>): seq<Pair> {
    Put(pairs, "views", Sequence(items))
  }

  function YamlOnView(pairs: seq<Pair>, op: Operation): Result<seq<Pair>>
    requires op.DeleteView? || op.MoveView? || op.SetViewKey? || op.DeleteViewKey?
  {
    var index := YamlViewIndex(pairs, op.view);
    if index.Fail? then Fail(index.reason)
    else
      var list := YamlViews(pairs);
      NodeMatchesInside(list, op.view);
      var i := index.value;
      match op
      case DeleteView(_) => Ok(PutViews(pairs, RemoveAt(list, i)))
      case MoveView(_, to) => Ok(PutViews(pairs, MoveItem(list, i, to)))
      case SetViewKey(_, key, value) => Ok(PutViews(pairs, list[i := Mapping(Put(list[i].pairs, key, value))]))
      case DeleteViewKey(_, key) => Ok(PutViews(pairs, list[i := Mapping(Drop(list[i].pairs, key))]))
  }

  function YamlSetProperty(pairs: seq<Pair>, property: string, key: string, value: Node): Result<seq<Pair>> {
    var ensured := EnsureMap(pairs, "properties");
    if ensured.Fail? then ensured
    else
      EnsureMapGives(pairs, "properties");
      var inner := YamlSetEntry(Section(ensured.value, "properties"), property, key, value);
      if inner.Fail? then inner else Ok(Put(ensured.value, "properties", Mapping(inner.value)))
  }

  function ApplyYaml(doc: Document, op: Operation): Result<Document> {
    match op
    case SetFilters(filters) => Ok(doc.(pairs := Put(doc.pairs, "filters", filters)))
    case DeleteFilters => Ok(DeleteTop(doc, "filters"))
    case SetFormula(name, expression) => OnPairs(doc, YamlSetEntry(doc.pairs, "formulas", name, TextNode(expression)))
    case DeleteFormula(name) => YamlDeleteEntry(doc, "formulas", name)
    case SetProperty(property, key, value) => OnPairs(doc, YamlSetProperty(doc.pairs, property, key, value))
    case DeleteProperty(property, settings) => YamlDeleteProperty(doc, property, settings)
    case SetSummary(name, formula) => OnPairs(doc, YamlSetEntry(doc.pairs, "summaries", name, TextNode(formula)))
    case DeleteSummary(name) => YamlDeleteEntry(doc, "summaries", name)
    case AddView(pairs, position) =>
      var items := YamlViews(doc.pairs);
      var at := if position.None? then |items| else Min(position.value, |items|);
      Ok(doc.(pairs := PutViews(doc.pairs, InsertAt(items, at, Mapping(pairs)))))
    case DeleteView(_) => OnPairs(doc, YamlOnView(doc.pairs, op))
    case MoveView(_, _) => OnPairs(doc, YamlOnView(doc.pairs, op))
    case SetViewKey(_, _, _) => OnPairs(doc, YamlOnView(doc.pairs, op))
    case DeleteViewKey(_, _) => OnPairs(doc, YamlOnView(doc.pairs, op))
  }
}
