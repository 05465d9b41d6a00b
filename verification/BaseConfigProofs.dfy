/** The YAML interpreter refines the interpreter on plain data, operation by operation and over whole patches. */
module BaseConfigProofs {
  import opened Options
  import opened JsonValues
  import opened BaseConfig

  // -------------------------------------------------------------------------
  // Ordered pairs against maps, node lists against value lists
  // -------------------------------------------------------------------------

  lemma {:induction false} FindAbs(pairs: seq<Pair>, key: string)
    ensures Find(pairs, key) != -1 <==> key in AbsPairs(pairs)
    ensures key in AbsPairs(pairs) ==> AbsPairs(pairs)[key] == Abs(pairs[Find(pairs, key)].value)
  {
    if pairs != [] { FindAbs(pairs[1..], key); }
  }

  lemma PutCons(pairs: seq<Pair>, key: string, value: Node)
    requires pairs != []
    ensures Put(pairs, key, value) == if pairs[0].key == key then [pairs[0].(value := value)] + pairs[1..]
                                      else [pairs[0]] + Put(pairs[1..], key, value)
  {
  }

  lemma ConsAbs(first: Pair, rest: seq<Pair>)
    ensures AbsPairs([first] + rest) == AbsPairs(rest)[first.key := Abs(first.value)]
  {
    assert ([first] + rest)[1..] == rest;
  }

  lemma {:induction false} PutAbs(pairs: seq<Pair>, key: string, value: Node)
    ensures AbsPairs(Put(pairs, key, value)) == AbsPairs(pairs)[key := Abs(value)]
  {
    if pairs == [] {
      ConsAbs(Pair(key, [], value), []);
    } else {
      PutCons(pairs, key, value);
      if pairs[0].key == key {
        ConsAbs(pairs[0].(value := value), pairs[1..]);
      } else {
        PutAbs(pairs[1..], key, value);
        ConsAbs(pairs[0], Put(pairs[1..], key, value));
      }
    }
  }

  lemma UniqueCons(first: Pair, rest: seq<Pair>)
    requires UniqueKeys(rest) && Find(rest, first.key) == -1
    ensures UniqueKeys([first] + rest)
  {
    assert ([first] + rest)[1..] == rest;
  }

  lemma {:induction false} PutUnique(pairs: seq<Pair>, key: string, value: Node)
    requires UniqueKeys(pairs)
    ensures UniqueKeys(Put(pairs, key, value))
    ensures forall x :: x != key ==> (Find(Put(pairs, key, value), x) == -1 <==> Find(pairs, x) == -1)
  {
    if pairs == [] {
      UniqueCons(Pair(key, [], value), []);
    } else {
      PutCons(pairs, key, value);
      if pairs[0].key == key {
        UniqueCons(pairs[0].(value := value), pairs[1..]);
      } else {
        PutUnique(pairs[1..], key, value);
        UniqueCons(pairs[0], Put(pairs[1..], key, value));
      }
    }
  }

  lemma PutSound(pairs: seq<Pair>, key: string, value: Node)
    requires SoundPairs(pairs) && Sound(value)
    ensures SoundPairs(Put(pairs, key, value))
  {
    PutUnique(pairs, key, value);
  }

  lemma DropCons(pairs: seq<Pair>, key: string)
    requires pairs != []
    ensures Drop(pairs, key) == if pairs[0].key == key then pairs[1..] else [pairs[0]] + Drop(pairs[1..], key)
  {
    if pairs[0].key == key {
      DropFirst(pairs, key);
    } else if Find(pairs[1..], key) >= 0 {
      DropLater(pairs, key, Find(pairs[1..], key));
    } else {
      DropNone(pairs, key);
    }
  }

  lemma DropFirst(pairs: seq<Pair>, key: string)
    requires pairs != [] && pairs[0].key == key
    ensures Drop(pairs, key) == pairs[1..]
  {
  }

  lemma DropLater(pairs: seq<Pair>, key: string, i: nat)
    requires pairs != [] && pairs[0].key != key && Find(pairs[1..], key) == i
    ensures Drop(pairs, key) == [pairs[0]] + Drop(pairs[1..], key)
  {
    var rest := pairs[1..];
    assert Drop(rest, key) == rest[..i] + rest[i + 1..];
    assert Drop(pairs, key) == pairs[..i + 1] + pairs[i + 2..];
    RemoveBehind(pairs, rest, i);
  }

  lemma DropNone(pairs: seq<Pair>, key: string)
    requires pairs != [] && pairs[0].key != key && Find(pairs[1..], key) == -1
    ensures Drop(pairs, key) == [pairs[0]] + Drop(pairs[1..], key)
  {
  }

  lemma RemoveBehind<T>(s: seq<T>, rest: seq<T>, i: nat)
    requires s != [] && rest == s[1..] && i < |rest|
    ensures s[..i + 1] + s[i + 2..] == [s[0]] + (rest[..i] + rest[i + 1..])
  {
  }

  lemma UpdateThenRemove<V>(m: map<string, V>, k: string, v: V, key: string)
    ensures m[k := v] - {key} == if k == key then m - {key} else (m - {key})[k := v]
    ensures key !in m ==> m - {key} == m
  {
  }

  lemma {:induction false} DropAbs(pairs: seq<Pair>, key: string)
    requires UniqueKeys(pairs)
    ensures AbsPairs(Drop(pairs, key)) == AbsPairs(pairs) - {key}
  {
    if pairs != [] {
      var first, rest := pairs[0], pairs[1..];
      DropCons(pairs, key);
      UpdateThenRemove(AbsPairs(rest), first.key, Abs(first.value), key);
      if first.key == key {
        FindAbs(rest, key);
      } else {
        DropAbs(rest, key);
        ConsAbs(first, Drop(rest, key));
      }
    }
  }

  lemma {:induction false} DropUnique(pairs: seq<Pair>, key: string)
    requires UniqueKeys(pairs)
    ensures UniqueKeys(Drop(pairs, key)) && forall x :: Find(pairs, x) == -1 ==> Find(Drop(pairs, key), x) == -1
  {
    if pairs != [] {
      DropCons(pairs, key);
      DropUnique(pairs[1..], key);
      if pairs[0].key != key { assert Drop(pairs, key)[1..] == Drop(pairs[1..], key); }
    }
  }

  lemma DropSound(pairs: seq<Pair>, key: string)
    requires SoundPairs(pairs)
    ensures SoundPairs(Drop(pairs, key))
  {
    DropUnique(pairs, key);
    var i, d := Find(pairs, key), Drop(pairs, key);
    forall a | 0 <= a < |d| ensures Sound(d[a].value) {
      assert Sound(pairs[if i == -1 || a < i then a else a + 1].value);
    }
  }

  lemma {:induction false} SizeAbs(pairs: seq<Pair>)
    requires UniqueKeys(pairs)
    ensures |AbsPairs(pairs)| == |pairs|
  {
    if pairs != [] {
      SizeAbs(pairs[1..]);
      FindAbs(pairs[1..], pairs[0].key);
    }
  }

  lemma {:induction false} ItemsAbs(items: seq<Node>)
    ensures |AbsItems(items)| == |items|
    ensures forall i :: 0 <= i < |items| ==> AbsItems(items)[i] == Abs(items[i])
  {
    if items != [] {
      ItemsAbs(items[1..]);
      forall i | 0 <= i < |items| ensures AbsItems(items)[i] == Abs(items[i]) {
        if i > 0 { assert items[i] == items[1..][i - 1]; }
      }
    }
  }

  lemma GetAbs(pairs: seq<Pair>, key: string)
    ensures Get(pairs, key).Some? <==> key in AbsPairs(pairs)
    ensures Get(pairs, key).Some? ==> AbsPairs(pairs)[key] == Abs(Get(pairs, key).value)
  {
    FindAbs(pairs, key);
  }

  lemma GetSound(pairs: seq<Pair>, key: string)
    requires SoundPairs(pairs) && Get(pairs, key).Some?
    ensures Sound(Get(pairs, key).value)
  {
  }

  // -------------------------------------------------------------------------
  // Sections
  // -------------------------------------------------------------------------

  lemma SectionAgrees(pairs: seq<Pair>, key: string)
    requires SoundPairs(pairs) && key !in ForbiddenKeys
    ensures EnsureMap(pairs, key).Ok? <==> MapAt(AbsPairs(pairs), key).Ok?
    ensures EnsureMap(pairs, key).Ok? ==>
              var ensured := EnsureMap(pairs, key).value;
              && SoundPairs(ensured) && Get(ensured, key).Some? && Get(ensured, key).value.Mapping?
              && SoundPairs(Section(ensured, key)) && AbsPairs(Section(ensured, key)) == MapAt(AbsPairs(pairs), key).value
              && (AbsPairs(ensured) == AbsPairs(pairs) || AbsPairs(ensured) == AbsPairs(pairs)[key := Obj(map[])])
  {
    GetAbs(pairs, key);
    if Get(pairs, key).Some? { GetSound(pairs, key); }
    if EnsureMap(pairs, key).Ok? {
      EnsureMapGives(pairs, key);
      PutThenGet(pairs, key, Mapping([]));
      PutAbs(pairs, key, Mapping([]));
      PutSound(pairs, key, Mapping([]));
      GetSound(EnsureMap(pairs, key).value, key);
    }
  }

  /** A changed section written over the ensured document gives the data with that section replaced. */
  lemma WriteBack(ensured: seq<Pair>, data: Model, section: string, left: seq<Pair>)
    requires SoundPairs(ensured) && SoundPairs(left)
    requires AbsPairs(ensured) == data || AbsPairs(ensured) == data[section := Obj(map[])]
    ensures SoundPairs(Put(ensured, section, Mapping(left)))
    ensures AbsPairs(Put(ensured, section, Mapping(left))) == data[section := Obj(AbsPairs(left))]
  {
    PutAbs(ensured, section, Mapping(left));
    PutSound(ensured, section, Mapping(left));
  }

  lemma SetEntryRefines(pairs: seq<Pair>, section: string, name: string, value: Node)
    requires SoundPairs(pairs) && Sound(value) && section !in ForbiddenKeys
    ensures var y, m := YamlSetEntry(pairs, section, name, value), ModelSetEntry(AbsPairs(pairs), section, name, Abs(value));
            (m.Ok? <==> y.Ok?) && (y.Ok? ==> SoundPairs(y.value) && AbsPairs(y.value) == m.value)
  {
    SectionAgrees(pairs, section);
    if EnsureMap(pairs, section).Ok? { SetEntryWrites(pairs, section, name, value); }
  }

  lemma SetEntryWrites(pairs: seq<Pair>, section: string, name: string, value: Node)
    requires SoundPairs(pairs) && Sound(value) && section !in ForbiddenKeys && EnsureMap(pairs, section).Ok?
    ensures var y, m := YamlSetEntry(pairs, section, name, value), ModelSetEntry(AbsPairs(pairs), section, name, Abs(value));
            m.Ok? && y.Ok? && SoundPairs(y.value) && AbsPairs(y.value) == m.value
  {
    SectionAgrees(pairs, section);
    var ensured := EnsureMap(pairs, section).value;
    var inner := Section(ensured, section);
    PutAbs(inner, name, value);
    PutSound(inner, name, value);
    WriteBack(ensured, AbsPairs(pairs), section, Put(inner, name, value));
  }

  /** Removing a top-level key of the document is removing it from the data, whatever happens to comments. */
  lemma DeleteTopAbs(doc: Document, key: string)
    requires SoundPairs(doc.pairs)
    ensures SoundPairs(DeleteTop(doc, key).pairs) && AbsPairs(DeleteTop(doc, key).pairs) == AbsPairs(doc.pairs) - {key}
  {
    DropAbs(doc.pairs, key);
    DropSound(doc.pairs, key);
    var i := Find(doc.pairs, key);
    if i == -1 {
      FindAbs(doc.pairs, key);
    } else {
      SameDataAbs(Drop(doc.pairs, key), DeleteTop(doc, key).pairs);
    }
  }

  lemma SameKeys(a: seq<Pair>, b: seq<Pair>, key: string)
    requires |a| == |b| && forall i :: 0 <= i < |a| ==> a[i].key == b[i].key
    ensures Find(a, key) == Find(b, key)
  {
  }

  /** Comments are not part of the data. */
  lemma {:induction false} SameDataAbs(a: seq<Pair>, b: seq<Pair>)
    requires |a| == |b| && forall i :: 0 <= i < |a| ==> a[i].key == b[i].key && a[i].value == b[i].value
    ensures AbsPairs(a) == AbsPairs(b) && (SoundPairs(a) ==> SoundPairs(b))
  {
    if a != [] {
      SameDataAbs(a[1..], b[1..]);
      SameKeys(a[1..], b[1..], a[0].key);
    }
  }

  /** The section left after a deletion is written back, or dropped when nothing is left in it. */
  lemma PruneAbs(doc: Document, section: string, left: seq<Pair>)
    requires SoundPairs(doc.pairs) && SoundPairs(left)
    ensures var d := PruneEmpty(doc.(pairs := Put(doc.pairs, section, Mapping(left))), section);
            && SoundPairs(d.pairs)
            && AbsPairs(d.pairs) == (if |AbsPairs(left)| == 0 then AbsPairs(doc.pairs) - {section}
                                     else AbsPairs(doc.pairs)[section := Obj(AbsPairs(left))])
  {
    var written := doc.(pairs := Put(doc.pairs, section, Mapping(left)));
    PutAbs(doc.pairs, section, Mapping(left));
    PutSound(doc.pairs, section, Mapping(left));
    PutThenGet(doc.pairs, section, Mapping(left));
    SizeAbs(left);
    if left == [] {
      DeleteTopAbs(written, section);
      UpdateThenRemove(AbsPairs(doc.pairs), section, Abs(Mapping(left)), section);
    }
  }

  lemma DeleteEntryRefines(doc: Document, section: string, name: string)
    requires SoundPairs(doc.pairs) && section !in ForbiddenKeys
    requires ModelDeleteEntry(AbsPairs(doc.pairs), section, name).Ok?
    ensures var y := YamlDeleteEntry(doc, section, name);
            y.Ok? && SoundPairs(y.value.pairs) && AbsPairs(y.value.pairs) == ModelDeleteEntry(AbsPairs(doc.pairs), section, name).value
  {
    GetAbs(doc.pairs, section);
    GetSound(doc.pairs, section);
    var inner := Section(doc.pairs, section);
    DropAbs(inner, name);
    DropSound(inner, name);
    PruneAbs(doc, section, Drop(inner, name));
  }

  /** One setting of one property removed, and the property with it when it was the last. */
  function CutSetting(section: seq<Pair>, property: string, setting: string): seq<Pair>
    requires Get(section, property).Some? && Get(section, property).value.Mapping?
  {
    var cut := Put(section, property, Mapping(Drop(Section(section, property), setting)));
    if Get(cut, property) == Some(Mapping([])) then Drop(cut, property) else cut
  }

  lemma CutSettingAbs(section: seq<Pair>, property: string, setting: string)
    requires SoundPairs(section) && Get(section, property).Some? && Get(section, property).value.Mapping?
    ensures var left, rest := CutSetting(section, property, setting), AbsPairs(Section(section, property)) - {setting};
            && SoundPairs(left)
            && AbsPairs(left) == (if |rest| == 0 then AbsPairs(section) - {property} else AbsPairs(section)[property := Obj(rest)])
  {
    GetSound(section, property);
    var inner := Section(section, property);
    DropAbs(inner, setting);
    DropSound(inner, setting);
    var cut := Drop(inner, setting);
    SizeAbs(cut);
    WrittenOrDropped(section, property, cut);
  }

  lemma WrittenOrDropped(section: seq<Pair>, property: string, cut: seq<Pair>)
    requires SoundPairs(section) && SoundPairs(cut)
    ensures var written := Put(section, property, Mapping(cut));
            && Get(written, property) == Some(Mapping(cut))
            && SoundPairs(written) && AbsPairs(written) == AbsPairs(section)[property := Obj(AbsPairs(cut))]
            && SoundPairs(Drop(written, property)) && AbsPairs(Drop(written, property)) == AbsPairs(section) - {property}
  {
    var written := Put(section, property, Mapping(cut));
    PutThenGet(section, property, Mapping(cut));
    WriteBack(section, AbsPairs(section), property, cut);
    DropAbs(written, property);
    DropSound(written, property);
    assert AbsPairs(section)[property := Obj(AbsPairs(cut))] - {property} == AbsPairs(section) - {property};
  }

  /** What the model leaves of the properties section. */
  lemma ModelSettingIs(model: Model, property: string, setting: string)
    requires ModelDeleteProperty(model, property, Some(setting)).Ok?
    ensures var m := MapAt(model, "properties");
            && m.Ok? && property in m.value
            && var p := MapAt(m.value, property);
            && p.Ok? && setting in p.value
            && var left := if |p.value - {setting}| == 0 then m.value - {property} else m.value[property := Obj(p.value - {setting})];
               ModelDeleteProperty(model, property, Some(setting)).value
               == if |left| == 0 then model - {"properties"} else model["properties" := Obj(left)]
  {
  }

  lemma DeleteSettingRefines(doc: Document, property: string, setting: string)
    requires SoundPairs(doc.pairs) && property !in ForbiddenKeys
    requires ModelDeleteProperty(AbsPairs(doc.pairs), property, Some(setting)).Ok?
    ensures var y := YamlDeleteProperty(doc, property, Some(setting));
            && y.Ok? && SoundPairs(y.value.pairs)
            && AbsPairs(y.value.pairs) == ModelDeleteProperty(AbsPairs(doc.pairs), property, Some(setting)).value
  {
    ModelSettingIs(AbsPairs(doc.pairs), property, setting);
    FoundSection(doc.pairs, "properties");
    var section := Section(doc.pairs, "properties");
    FoundSection(section, property);
    CutSettingAbs(section, property, setting);
    YamlSettingIs(doc, property, setting);
    PruneAbs(doc, "properties", CutSetting(section, property, setting));
  }

  lemma YamlSettingIs(doc: Document, property: string, setting: string)
    requires Get(doc.pairs, "properties").Some? && Get(doc.pairs, "properties").value.Mapping?
    requires var section := Section(doc.pairs, "properties");
             Get(section, property).Some? && Get(section, property).value.Mapping?
    ensures var left := CutSetting(Section(doc.pairs, "properties"), property, setting);
            YamlDeleteProperty(doc, property, Some(setting))
            == Ok(PruneEmpty(doc.(pairs := Put(doc.pairs, "properties", Mapping(left))), "properties"))
  {
  }

  /** A section the model can read entries from is a mapping of the document, with the same entries. */
  lemma FoundSection(pairs: seq<Pair>, key: string)
    requires SoundPairs(pairs) && MapAt(AbsPairs(pairs), key).Ok? && |MapAt(AbsPairs(pairs), key).value| > 0
    ensures Get(pairs, key).Some? && Get(pairs, key).value.Mapping?
    ensures SoundPairs(Section(pairs, key)) && AbsPairs(Section(pairs, key)) == MapAt(AbsPairs(pairs), key).value
  {
    GetAbs(pairs, key);
    GetSound(pairs, key);
  }

  lemma DeletePropertyRefines(doc: Document, property: string, settings: Option<string>)
    requires SoundPairs(doc.pairs) && property !in ForbiddenKeys
    requires ModelDeleteProperty(AbsPairs(doc.pairs), property, settings).Ok?
    ensures var y := YamlDeleteProperty(doc, property, settings);
            && y.Ok? && SoundPairs(y.value.pairs)
            && AbsPairs(y.value.pairs) == ModelDeleteProperty(AbsPairs(doc.pairs), property, settings).value
  {
    if settings.Some? {
      DeleteSettingRefines(doc, property, settings.value);
    } else {
      GetAbs(doc.pairs, "properties");
      GetSound(doc.pairs, "properties");
      var section := Section(doc.pairs, "properties");
      DropAbs(section, property);
      DropSound(section, property);
      PruneAbs(doc, "properties", Drop(section, property));
    }
  }

  lemma SetPropertyRefines(pairs: seq<Pair>, property: string, key: string, value: Node)
    requires SoundPairs(pairs) && Sound(value) && property !in ForbiddenKeys
    requires MapAt(AbsPairs(pairs), "properties").Ok?
    requires ModelSetEntry(MapAt(AbsPairs(pairs), "properties").value, property, key, Abs(value)).Ok?
    ensures var y, m := YamlSetProperty(pairs, property, key, value), MapAt(AbsPairs(pairs), "properties").value;
            && y.Ok? && SoundPairs(y.value)
            && AbsPairs(y.value) == AbsPairs(pairs)["properties" := Obj(ModelSetEntry(m, property, key, Abs(value)).value)]
  {
    SectionAgrees(pairs, "properties");
    var ensured := EnsureMap(pairs, "properties").value;
    var section := Section(ensured, "properties");
    SetEntryRefines(section, property, key, value);
    WriteBack(ensured, AbsPairs(pairs), "properties", YamlSetEntry(section, property, key, value).value);
  }

  // -------------------------------------------------------------------------
  // Views
  // -------------------------------------------------------------------------

  lemma NamedAgrees(n: Node, view: string)
    requires Sound(n)
    ensures NodeNamed(n, view) <==> Named(Abs(n), view)
  {
    if n.Mapping? { GetAbs(n.pairs, "name"); }
  }

  lemma {:induction false} MatchesAgree(items: seq<Node>, view: string)
    requires SoundItems(items)
    ensures NodeMatches(items, view) == Matches(AbsItems(items), view)
  {
    ItemsAbs(items);
    if items != [] {
      var n := |items| - 1;
      MatchesAgree(items[..n], view);
      ItemsAbs(items[..n]);
      assert AbsItems(items)[..n] == AbsItems(items[..n]);
      NamedAgrees(items[n], view);
    }
  }

  lemma ViewsAgree(pairs: seq<Pair>)
    requires SoundPairs(pairs) && ViewsOf(AbsPairs(pairs)).Ok?
    ensures AbsItems(YamlViews(pairs)) == ViewsOf(AbsPairs(pairs)).value
    ensures SoundItems(YamlViews(pairs))
  {
    GetAbs(pairs, "views");
    if Get(pairs, "views").Some? { GetSound(pairs, "views"); }
  }

  lemma PutViewsAbs(pairs: seq<Pair>, items: seq<Node>)
    requires SoundPairs(pairs) && SoundItems(items)
    ensures SoundPairs(PutViews(pairs, items)) && AbsPairs(PutViews(pairs, items)) == WithViews(AbsPairs(pairs), AbsItems(items))
  {
    PutAbs(pairs, "views", Sequence(items));
    PutSound(pairs, "views", Sequence(items));
  }

  lemma RemoveAtAbs(items: seq<Node>, i: nat)
    requires i < |items|
    ensures |AbsItems(items)| == |items| && AbsItems(RemoveAt(items, i)) == RemoveAt(AbsItems(items), i)
  {
    ItemsAbs(items);
    ItemsAbs(RemoveAt(items, i));
    forall k | 0 <= k < |items| - 1 ensures AbsItems(RemoveAt(items, i))[k] == RemoveAt(AbsItems(items), i)[k] {
      RemovedAt(items, i, k);
      RemovedAt(AbsItems(items), i, k);
    }
  }

  lemma InsertAtAbs(items: seq<Node>, i: nat, n: Node)
    requires i <= |items|
    ensures |AbsItems(items)| == |items| && AbsItems(InsertAt(items, i, n)) == InsertAt(AbsItems(items), i, Abs(n))
  {
    ItemsAbs(items);
    ItemsAbs(InsertAt(items, i, n));
    forall k | 0 <= k <= |items| ensures AbsItems(InsertAt(items, i, n))[k] == InsertAt(AbsItems(items), i, Abs(n))[k] {
      InsertedAt(items, i, n, k);
      InsertedAt(AbsItems(items), i, Abs(n), k);
    }
  }

  lemma UpdateAbs(items: seq<Node>, i: nat, n: Node)
    requires i < |items|
    ensures |AbsItems(items)| == |items| && AbsItems(items[i := n]) == AbsItems(items)[i := Abs(n)]
  {
    ItemsAbs(items);
    ItemsAbs(items[i := n]);
    assert AbsItems(items[i := n]) == AbsItems(items)[i := Abs(n)];
  }

  lemma AddViewRefines(doc: Document, op: Operation)
    requires SoundPairs(doc.pairs) && op.AddView? && Canonical(op)
    requires ApplyModel(AbsPairs(doc.pairs), op).Ok?
    ensures var y := ApplyYaml(doc, op);
            y.Ok? && SoundPairs(y.value.pairs) && AbsPairs(y.value.pairs) == ApplyModel(AbsPairs(doc.pairs), op).value
  {
    ViewsAgree(doc.pairs);
    var items := YamlViews(doc.pairs);
    ItemsAbs(items);
    var at := if op.position.None? then |items| else Min(op.position.value, |items|);
    AddedAbs(doc.pairs, items, at, op.pairs);
  }

  lemma AddedAbs(pairs: seq<Pair>, items: seq<Node>, at: nat, view: seq<Pair>)
    requires SoundPairs(pairs) && SoundItems(items) && SoundPairs(view) && at <= |items|
    ensures var after := PutViews(pairs, InsertAt(items, at, Mapping(view)));
            && SoundPairs(after) && |AbsItems(items)| == |items|
            && AbsPairs(after) == WithViews(AbsPairs(pairs), InsertAt(AbsItems(items), at, Obj(AbsPairs(view))))
  {
    ItemsAbs(items);
    InsertAtAbs(items, at, Mapping(view));
    PutViewsAbs(pairs, InsertAt(items, at, Mapping(view)));
    SoundInsert(items, at, Mapping(view));
  }

  /** Both interpreters find the same view. */
  lemma FoundView(pairs: seq<Pair>, view: string)
    requires SoundPairs(pairs) && ViewsOf(AbsPairs(pairs)).Ok? && ViewIndex(ViewsOf(AbsPairs(pairs)).value, view).Ok?
    ensures YamlViewIndex(pairs, view) == Ok(ViewIndex(ViewsOf(AbsPairs(pairs)).value, view).value)
    ensures var items, i := YamlViews(pairs), YamlViewIndex(pairs, view).value;
            && AbsItems(items) == ViewsOf(AbsPairs(pairs)).value && |AbsItems(items)| == |items|
            && i < |items| && items[i].Mapping? && SoundPairs(items[i].pairs)
            && AbsItems(items)[i] == Obj(AbsPairs(items[i].pairs))
            && SoundItems(items)
  {
    ViewsAgree(pairs);
    GetAbs(pairs, "views");
    var items := YamlViews(pairs);
    ItemsAbs(items);
    MatchesAgree(items, view);
    NodeMatchesInside(items, view);
    assert Sound(items[YamlViewIndex(pairs, view).value]);
  }

  lemma ReplaceViewRefines(pairs: seq<Pair>, i: nat, view: seq<Pair>)
    requires SoundPairs(pairs) && i < |YamlViews(pairs)| && SoundPairs(view)
    requires SoundItems(YamlViews(pairs))
    ensures var items := YamlViews(pairs);
            var written := PutViews(pairs, items[i := Mapping(view)]);
            && |AbsItems(items)| == |items| && SoundPairs(written)
            && AbsPairs(written) == WithViews(AbsPairs(pairs), AbsItems(items)[i := Obj(AbsPairs(view))])
  {
    var items := YamlViews(pairs);
    UpdateAbs(items, i, Mapping(view));
    PutViewsAbs(pairs, items[i := Mapping(view)]);
  }

  lemma EditViewRefines(doc: Document, op: Operation)
    requires op.SetViewKey? || op.DeleteViewKey?
    requires SoundPairs(doc.pairs) && Canonical(op) && ModelOnView(AbsPairs(doc.pairs), op).Ok?
    ensures var y := YamlOnView(doc.pairs, op);
            y.Ok? && SoundPairs(y.value) && AbsPairs(y.value) == ModelOnView(AbsPairs(doc.pairs), op).value
  {
    FoundView(doc.pairs, op.view);
    var i := YamlViewIndex(doc.pairs, op.view).value;
    var view := YamlViews(doc.pairs)[i].pairs;
    if op.SetViewKey? {
      PutAbs(view, op.key, op.value);
      PutSound(view, op.key, op.value);
      ReplaceViewRefines(doc.pairs, i, Put(view, op.key, op.value));
    } else {
      DropAbs(view, op.key);
      DropSound(view, op.key);
      ReplaceViewRefines(doc.pairs, i, Drop(view, op.key));
    }
  }

  lemma MoveItemAbs(items: seq<Node>, i: nat, to: nat)
    requires i < |items|
    ensures |AbsItems(items)| == |items| && AbsItems(MoveItem(items, i, to)) == MoveItem(AbsItems(items), i, to)
  {
    var rest := RemoveAt(items, i);
    ItemsAbs(items);
    RemoveAtAbs(items, i);
    InsertAtAbs(rest, Min(to, |rest|), items[i]);
  }

  lemma SoundReorder(items: seq<Node>, i: nat, to: nat)
    requires SoundItems(items) && i < |items|
    ensures SoundItems(RemoveAt(items, i)) && SoundItems(MoveItem(items, i, to))
  {
    var rest := RemoveAt(items, i);
    SoundRemove(items, i);
    SoundInsert(rest, Min(to, |rest|), items[i]);
  }

  lemma SoundRemove(items: seq<Node>, i: nat)
    requires SoundItems(items) && i < |items|
    ensures SoundItems(RemoveAt(items, i))
  {
    var rest := RemoveAt(items, i);
    forall k | 0 <= k < |rest| ensures Sound(rest[k]) { RemovedAt(items, i, k); }
  }

  lemma SoundInsert(items: seq<Node>, at: nat, item: Node)
    requires SoundItems(items) && at <= |items| && Sound(item)
    ensures SoundItems(InsertAt(items, at, item))
  {
    var longer := InsertAt(items, at, item);
    forall k | 0 <= k < |longer| ensures Sound(longer[k]) { InsertedAt(items, at, item, k); }
  }

  lemma RemovedAt<T>(s: seq<T>, i: nat, k: nat)
    requires i < |s| && k < |s| - 1
    ensures RemoveAt(s, i)[k] == s[if k < i then k else k + 1]
  {
  }

  lemma InsertedAt<T>(s: seq<T>, i: nat, x: T, k: nat)
    requires i <= |s| && k <= |s|
    ensures InsertAt(s, i, x)[k] == if k == i then x else s[if k < i then k else k - 1]
  {
  }

  lemma ReorderViewsRefines(doc: Document, op: Operation)
    requires op.DeleteView? || op.MoveView?
    requires SoundPairs(doc.pairs) && Canonical(op) && ModelOnView(AbsPairs(doc.pairs), op).Ok?
    ensures var y := YamlOnView(doc.pairs, op);
            y.Ok? && SoundPairs(y.value) && AbsPairs(y.value) == ModelOnView(AbsPairs(doc.pairs), op).value
  {
    FoundView(doc.pairs, op.view);
    var items, i := YamlViews(doc.pairs), YamlViewIndex(doc.pairs, op.view).value;
    if op.DeleteView? {
      SoundReorder(items, i, 0);
      RemoveAtAbs(items, i);
      PutViewsAbs(doc.pairs, RemoveAt(items, i));
    } else {
      SoundReorder(items, i, op.to);
      MoveItemAbs(items, i, op.to);
      PutViewsAbs(doc.pairs, MoveItem(items, i, op.to));
    }
  }

  // -------------------------------------------------------------------------
  // Refinement
  // -------------------------------------------------------------------------

  /** Whatever the model accepts, the document accepts, and its data is exactly the model afterwards. */
  lemma StepRefines(doc: Document, op: Operation)
    requires SoundPairs(doc.pairs) && Canonical(op) && ApplyModel(AbsPairs(doc.pairs), op).Ok?
    ensures var y := ApplyYaml(doc, op);
            y.Ok? && SoundPairs(y.value.pairs) && AbsPairs(y.value.pairs) == ApplyModel(AbsPairs(doc.pairs), op).value
  {
    match op
    case SetFilters(filters) =>
      PutAbs(doc.pairs, "filters", filters);
      PutSound(doc.pairs, "filters", filters);
    case DeleteFilters => DeleteTopAbs(doc, "filters");
    case SetFormula(name, expression) => SetEntryRefines(doc.pairs, "formulas", name, TextNode(expression));
    case DeleteFormula(name) => DeleteEntryRefines(doc, "formulas", name);
    case SetProperty(property, key, value) => SetPropertyRefines(doc.pairs, property, key, value);
    case DeleteProperty(property, settings) => DeletePropertyRefines(doc, property, settings);
    case SetSummary(name, formula) => SetEntryRefines(doc.pairs, "summaries", name, TextNode(formula));
    case DeleteSummary(name) => DeleteEntryRefines(doc, "summaries", name);
    case AddView(_, _) => AddViewRefines(doc, op);
    case DeleteView(_) => ReorderViewsRefines(doc, op);
    case MoveView(_, _) => ReorderViewsRefines(doc, op);
    case SetViewKey(_, _, _) => EditViewRefines(doc, op);
    case DeleteViewKey(_, _) => EditViewRefines(doc, op);
  }

  /** The intent of a whole patch on plain data. */
  function ModelAll(model: Model, ops: seq<Operation>): Result<Model>
    requires forall i :: 0 <= i < |ops| ==> Canonical(ops[i])
    decreases |ops|
  {
    if ops == [] then Ok(model)
    else
      var before := ModelAll(model, ops[..|ops| - 1]);
      if before.Fail? then before else ApplyModel(before.value, ops[|ops| - 1])
  }

  lemma {:induction false} ModelAllFails(model: Model, ops: seq<Operation>, k: nat)
    requires k <= |ops| && forall i :: 0 <= i < |ops| ==> Canonical(ops[i])
    requires ModelAll(model, ops[..k]).Fail?
    ensures ModelAll(model, ops) == ModelAll(model, ops[..k])
    decreases |ops|
  {
    if k == |ops| {
      assert ops[..k] == ops;
    } else {
      assert ops[..|ops| - 1][..k] == ops[..k];
      ModelAllFails(model, ops[..|ops| - 1], k);
    }
  }

  /**
   The compiler's loop: each operation on both representations, then the comparison of the document read
   back with the intent, and the check of the resulting Base (`valid`, a parameter). The comparison never fails
   and the document never refuses what the intent accepts.
   */
  method CompileBaseConfigPatch(source: Document, operations: seq<Operation>, valid: Model -> bool) returns (r: Result<Document>)
    requires SoundPairs(source.pairs)
    requires forall i :: 0 <= i < |operations| ==> Canonical(operations[i])
    ensures var intended := ModelAll(AbsPairs(source.pairs), operations);
            && (r.Ok? <==> intended.Ok? && valid(intended.value))
            && (r.Ok? ==> SoundPairs(r.value.pairs) && AbsPairs(r.value.pairs) == intended.value)
            && (r.Fail? ==> r.reason == if intended.Fail? then intended.reason else ResultInvalid)
  {
    var model, doc := AbsPairs(source.pairs), source;
    var i := 0;
    while i < |operations|
      invariant 0 <= i <= |operations|
      invariant SoundPairs(doc.pairs) && AbsPairs(doc.pairs) == model
      invariant ModelAll(AbsPairs(source.pairs), operations[..i]) == Ok(model)
    {
      var intended := ApplyModel(model, operations[i]);
      assert operations[..i + 1][..i] == operations[..i];
      if intended.Fail? {
        ModelAllFails(AbsPairs(source.pairs), operations, i + 1);
        return Fail(intended.reason);
      }
      StepRefines(doc, operations[i]);
      doc := ApplyYaml(doc, operations[i]).value;
      model := intended.value;
      i := i + 1;
    }
    assert operations[..i] == operations;
    r := ReadBack(doc, model, valid);
  }

  /** The final comparison of the edited document, read back as data, with the intent, and the check of the result. */
  function ReadBack(doc: Document, model: Model, valid: Model -> bool): Result<Document> {
    if AbsPairs(doc.pairs) != model then Fail(ProjectionMismatch)
    else if !valid(AbsPairs(doc.pairs)) then Fail(ResultInvalid)
    else Ok(doc)
  }

  // -------------------------------------------------------------------------
  // Views stay named apart, in order, and at least one
  // -------------------------------------------------------------------------

  predicate SameName(a: Json, b: Json) {
    && a.Obj? && b.Obj? && "name" in a.fields && "name" in b.fields
    && a.fields["name"].Str? && a.fields["name"] == b.fields["name"]
  }

  predicate UniqueViewNames(views: seq<Json>) {
    forall i, j :: 0 <= i < j < |views| ==> !SameName(views[i], views[j])
  }

  lemma UniqueAfterInsert(views: seq<Json>, at: nat, view: Json)
    requires UniqueViewNames(views) && at <= |views|
    requires forall i :: 0 <= i < |views| ==> !SameName(views[i], view)
    ensures UniqueViewNames(InsertAt(views, at, view))
  {
    var longer := InsertAt(views, at, view);
    forall i, j | 0 <= i < j < |longer| ensures !SameName(longer[i], longer[j]) {
      if i != at && j != at { assert !SameName(views[if i < at then i else i - 1], views[if j < at then j else j - 1]); }
      else if i == at { assert !SameName(views[j - 1], view); }
    }
  }

  lemma UniqueAfterRemove(views: seq<Json>, at: nat)
    requires UniqueViewNames(views) && at < |views|
    ensures UniqueViewNames(RemoveAt(views, at))
    ensures forall i :: 0 <= i < |views| - 1 ==> !SameName(RemoveAt(views, at)[i], views[at])
  {
    var shorter := RemoveAt(views, at);
    forall i, j | 0 <= i < j < |shorter| ensures !SameName(shorter[i], shorter[j]) {
      assert !SameName(views[if i < at then i else i + 1], views[if j < at then j else j + 1]);
    }
    forall i | 0 <= i < |shorter| ensures !SameName(shorter[i], views[at]) {
      if i < at { assert !SameName(views[i], views[at]); } else { assert !SameName(views[at], views[i + 1]); }
    }
  }

  lemma UniqueAfterUpdate(views: seq<Json>, at: nat, view: Json)
    requires UniqueViewNames(views) && at < |views|
    requires forall i :: 0 <= i < |views| && i != at ==> !SameName(views[i], view)
    ensures UniqueViewNames(views[at := view])
  {
    var updated := views[at := view];
    forall i, j | 0 <= i < j < |updated| ensures !SameName(updated[i], updated[j]) {
      if i != at && j != at { assert !SameName(views[i], views[j]); }
      else if i == at { assert !SameName(views[j], view); }
    }
  }

  /** Moving one item is a permutation that puts it in place and keeps the order of all others. */
  lemma MoveIsPermutation(s: seq<Json>, i: nat, to: nat)
    requires i < |s|
    ensures var moved, at := MoveItem(s, i, to), Min(to, |s| - 1);
            && |moved| == |s| && moved[at] == s[i] && RemoveAt(moved, at) == RemoveAt(s, i)
            && multiset(moved) == multiset(s)
  {
    var rest, at := RemoveAt(s, i), Min(to, |s| - 1);
    InsertThenRemove(rest, at, s[i]);
    RemovedItems(s, i);
    RemovedItems(MoveItem(s, i, to), at);
  }

  lemma InsertThenRemove<T>(s: seq<T>, at: nat, x: T)
    requires at <= |s|
    ensures var longer := InsertAt(s, at, x); |longer| == |s| + 1 && longer[at] == x && RemoveAt(longer, at) == s
  {
  }

  lemma RemovedItems<T>(s: seq<T>, i: nat)
    requires i < |s|
    ensures multiset(s) == multiset(RemoveAt(s, i)) + multiset{s[i]}
  {
    assert s == s[..i] + [s[i]] + s[i + 1..];
  }

  predicate OnView(op: Operation) { op.DeleteView? || op.MoveView? || op.SetViewKey? || op.DeleteViewKey? }

  /** The list after an operation on one view: exactly one view of that name, and what happened to it. */
  lemma ViewOperation(model: Model, op: Operation)
    requires OnView(op) && Canonical(op) && ModelOnView(model, op).Ok?
    ensures var views, after := ViewsOf(model).value, ViewsOf(ModelOnView(model, op).value);
            && after.Ok? && after.value != []
            && exists i: nat :: i < |views| && Named(views[i], op.view)
                 && (op.DeleteView? ==> after.value == RemoveAt(views, i))
                 && (op.MoveView? ==> after.value == MoveItem(views, i, op.to))
                 && (op.SetViewKey? ==> after.value == views[i := Obj(views[i].fields[op.key := Abs(op.value)])])
                 && (op.DeleteViewKey? ==> after.value == views[i := Obj(views[i].fields - {op.key})])
  {
    var views := ViewsOf(model).value;
    MatchesInside(views, op.view);
    var i := ViewIndex(views, op.view).value;
    assert Named(views[i], op.view);
  }

  /** No operation makes two views share a name. */
  lemma ViewNamesStayUnique(model: Model, op: Operation)
    requires Canonical(op) && ApplyModel(model, op).Ok?
    requires ViewsOf(model).Ok? && UniqueViewNames(ViewsOf(model).value)
    ensures ViewsOf(ApplyModel(model, op).value).Ok? && UniqueViewNames(ViewsOf(ApplyModel(model, op).value).value)
  {
    var views := ViewsOf(model).value;
    if op.AddView? {
      GetAbs(op.pairs, "name");
      var at := if op.position.None? then |views| else Min(op.position.value, |views|);
      UniqueAfterInsert(views, at, Obj(AbsPairs(op.pairs)));
    } else if OnView(op) {
      UniqueOnView(model, op);
    }
  }

  lemma UniqueOnView(model: Model, op: Operation)
    requires OnView(op) && Canonical(op) && ModelOnView(model, op).Ok?
    requires ViewsOf(model).Ok? && UniqueViewNames(ViewsOf(model).value)
    ensures var after := ViewsOf(ModelOnView(model, op).value); after.Ok? && UniqueViewNames(after.value)
  {
    var views := ViewsOf(model).value;
    MatchesInside(views, op.view);
    var i := ViewIndex(views, op.view).value;
    UniqueAfterRemove(views, i);
    match op
    case DeleteView(_) =>
    case MoveView(_, to) => UniqueAfterInsert(RemoveAt(views, i), Min(to, |views| - 1), views[i]);
    case SetViewKey(_, key, value) => RenamedApart(views, i, op);
    case DeleteViewKey(_, key) =>
      forall k | 0 <= k < |views| && k != i ensures !SameName(views[k], Obj(views[i].fields - {key})) {
        assert !SameName(views[k], views[i]) by { if k < i { assert !SameName(views[k], views[i]); } else { assert !SameName(views[i], views[k]); } }
      }
      UniqueAfterUpdate(views, i, Obj(views[i].fields - {key}));
  }

  lemma RenamedApart(views: seq<Json>, i: nat, op: Operation)
    requires op.SetViewKey? && Canonical(op) && UniqueViewNames(views) && i < |views| && Named(views[i], op.view)
    requires op.key == "name" && Abs(op.value) != Str(op.view) ==>
               !exists k :: 0 <= k < |views| && views[k].Obj? && "name" in views[k].fields && views[k].fields["name"] == Abs(op.value)
    ensures UniqueViewNames(views[i := Obj(views[i].fields[op.key := Abs(op.value)])])
  {
    var changed := Obj(views[i].fields[op.key := Abs(op.value)]);
    forall k | 0 <= k < |views| && k != i ensures !SameName(views[k], changed) {
      if k < i { assert !SameName(views[k], views[i]); } else { assert !SameName(views[i], views[k]); }
    }
    UniqueAfterUpdate(views, i, changed);
  }

  // -------------------------------------------------------------------------
  // Only the addressed entry changes
  // -------------------------------------------------------------------------

  /** The value of one entry of a section; a missing or null section has none. */
  function EntryAt(model: Model, section: string, name: string): Option<Json> {
    if section in model && model[section].Obj? && name in model[section].fields then Some(model[section].fields[name]) else None
  }

  function SectionOf(op: Operation): string {
    match op
    case SetFilters(_) => "filters"
    case DeleteFilters => "filters"
    case SetFormula(_, _) => "formulas"
    case DeleteFormula(_) => "formulas"
    case SetProperty(_, _, _) => "properties"
    case DeleteProperty(_, _) => "properties"
    case SetSummary(_, _) => "summaries"
    case DeleteSummary(_) => "summaries"
    case _ => "views"
  }

  /** What a formula or summary operation says about one entry: its new value, or that it is gone. */
  function EntryIntent(op: Operation): (string, Option<Json>)
    requires op.SetFormula? || op.DeleteFormula? || op.SetSummary? || op.DeleteSummary?
  {
    match op
    case SetFormula(name, expression) => (name, Some(Str(expression)))
    case DeleteFormula(name) => (name, None)
    case SetSummary(name, formula) => (name, Some(Str(formula)))
    case DeleteSummary(name) => (name, None)
  }

  /** An operation changes nothing outside its own section. */
  lemma OnlyTheSectionChanges(model: Model, op: Operation)
    requires Canonical(op) && ApplyModel(model, op).Ok?
    ensures ApplyModel(model, op).value - {SectionOf(op)} == model - {SectionOf(op)}
  {
  }

  /** Within its section an operation changes the one entry it names, as it asks. */
  lemma OnlyTheEntryChanges(model: Model, op: Operation, name: string)
    requires op.SetFormula? || op.DeleteFormula? || op.SetSummary? || op.DeleteSummary?
    requires ApplyModel(model, op).Ok?
    ensures EntryAt(ApplyModel(model, op).value, SectionOf(op), name)
            == if name == EntryIntent(op).0 then EntryIntent(op).1 else EntryAt(model, SectionOf(op), name)
  {
    var section, target := SectionOf(op), EntryIntent(op).0;
    if (op.DeleteFormula? || op.DeleteSummary?) && name != target {
      var m := MapAt(model, section).value;
      if |m| == 1 && name in m { TwoKeys(m, name, target); }
    }
  }

  /** One setting of one property. */
  function SettingAt(model: Model, property: string, key: string): Option<Json> {
    var entry := EntryAt(model, "properties", property);
    if entry.Some? && entry.value.Obj? && key in entry.value.fields then Some(entry.value.fields[key]) else None
  }

  /** The setting an operation addresses; without one named, a deletion addresses all settings of its property. */
  predicate Addresses(op: Operation, property: string, key: string)
    requires op.SetProperty? || op.DeleteProperty?
  {
    property == op.property && match op
                               case SetProperty(_, k, _) => k == key
                               case DeleteProperty(_, settings) => settings.None? || settings.value == key
  }

  /** Within the properties an operation changes the settings it addresses, as it asks, and leaves no property empty behind. */
  lemma OnlyTheSettingChanges(model: Model, op: Operation, property: string, key: string)
    requires (op.SetProperty? || op.DeleteProperty?) && Canonical(op) && ApplyModel(model, op).Ok?
    ensures var after := ApplyModel(model, op).value;
            && SettingAt(after, property, key)
               == (if !Addresses(op, property, key) then SettingAt(model, property, key)
                   else if op.SetProperty? then Some(Abs(op.value)) else None)
            && (property != op.property ==> EntryAt(after, "properties", property) == EntryAt(model, "properties", property))
            && (op.DeleteProperty? ==> EntryAt(after, "properties", op.property) != Some(Obj(map[])))
  {
    var m := MapAt(model, "properties").value;
    if op.DeleteProperty? && property != op.property && property in m {
      assert property in m - {op.property};
    }
  }

  lemma TwoKeys(m: Model, a: string, b: string)
    requires a in m && b in m && a != b
    ensures |m| >= 2
  {
    assert {a, b} <= m.Keys;
    assert |m.Keys - {a, b}| == |m.Keys| - 2;
  }

  // -------------------------------------------------------------------------
  // Comments survive the removal of a key
  // -------------------------------------------------------------------------

  function KeyComments(pairs: seq<Pair>): seq<string> {
    if pairs == [] then [] else pairs[0].comment + KeyComments(pairs[1..])
  }

  function Comments(doc: Document): seq<string> {
    doc.commentBefore + doc.leading + KeyComments(doc.pairs) + doc.comment
  }

  lemma {:induction false} KeyCommentsConcat(a: seq<Pair>, b: seq<Pair>)
    ensures KeyComments(a + b) == KeyComments(a) + KeyComments(b)
  {
    if a == [] {
      assert a + b == b;
    } else {
      assert (a + b)[1..] == a[1..] + b;
      KeyCommentsConcat(a[1..], b);
    }
  }

  lemma KeyCommentsAround(before: seq<Pair>, pair: Pair, after: seq<Pair>)
    ensures KeyComments(before + ([pair] + after)) == KeyComments(before) + (pair.comment + KeyComments(after))
  {
    KeyCommentsConcat(before, [pair] + after);
    assert ([pair] + after)[1..] == after;
  }

  lemma FourTexts(a: seq<string>, b: seq<string>, c: seq<string>, d: seq<string>)
    ensures a + b + c + d == a + (b + (c + d))
  {
  }

  lemma NextTakesComments(before: seq<Pair>, pair: Pair, after: seq<Pair>, extra: seq<string>)
    requires after != []
    ensures var next := after[0].(comment := extra + pair.comment + after[0].comment);
            KeyComments(before + ([next] + after[1..])) == KeyComments(before) + (extra + (pair.comment + KeyComments(after)))
  {
    var next, tail := after[0].(comment := extra + pair.comment + after[0].comment), after[1..];
    KeyCommentsAround(before, next, tail);
    FourTexts(extra, pair.comment, after[0].comment, KeyComments(tail));
  }

  /** No comment line is lost, repeated or moved past another, except that the last key's go behind the closing ones. */
  lemma DeleteTopKeepsComments(doc: Document, key: string)
    ensures multiset(Comments(DeleteTop(doc, key))) == multiset(Comments(doc))
    ensures var i := Find(doc.pairs, key);
            (i <= 0 || i < |doc.pairs| - 1) ==> Comments(DeleteTop(doc, key)) == Comments(doc)
  {
    var i := Find(doc.pairs, key);
    if i == 0 {
      FirstKeyComments(doc, key);
    } else if i > 0 && i + 1 < |doc.pairs| {
      InnerKeyComments(doc, key);
    } else if i > 0 {
      LastKeyComments(doc, key);
    }
  }

  lemma FirstKeyComments(doc: Document, key: string)
    requires Find(doc.pairs, key) == 0
    ensures Comments(DeleteTop(doc, key)) == Comments(doc)
  {
    var pair, after := doc.pairs[0], doc.pairs[1..];
    if after == [] {
      assert RemoveAt(doc.pairs, 0) == [];
    } else {
      var next := after[0].(comment := doc.leading + pair.comment + after[0].comment);
      assert DeleteTop(doc, key).pairs == [] + ([next] + after[1..]);
      NextTakesComments([], pair, after, doc.leading);
    }
  }

  /** The key goes, and the next one takes its comment. */
  lemma InnerDelete(doc: Document, key: string, before: seq<Pair>, pair: Pair, after: seq<Pair>)
    requires 0 < |before| == Find(doc.pairs, key) && after != [] && doc.pairs == before + ([pair] + after)
    ensures var next := after[0].(comment := [] + pair.comment + after[0].comment);
            DeleteTop(doc, key) == doc.(pairs := before + ([next] + after[1..]))
  {
    var i := |before|;
    assert doc.pairs[i] == pair;
    var rest := RemoveAt(doc.pairs, i);
    assert rest == before + after;
    var next := after[0].(comment := [] + pair.comment + after[0].comment);
    assert rest[i := next] == before + ([next] + after[1..]);
  }

  lemma InnerKeyComments(doc: Document, key: string)
    requires 0 < Find(doc.pairs, key) < |doc.pairs| - 1
    ensures Comments(DeleteTop(doc, key)) == Comments(doc)
  {
    var i := Find(doc.pairs, key);
    var pair, before, after := doc.pairs[i], doc.pairs[..i], doc.pairs[i + 1..];
    assert doc.pairs == before + ([pair] + after);
    InnerDelete(doc, key, before, pair, after);
    KeyCommentsAround(before, pair, after);
    NextTakesComments(before, pair, after, []);
    assert [] + (pair.comment + KeyComments(after)) == pair.comment + KeyComments(after);
  }

  lemma LastKeyComments(doc: Document, key: string)
    requires 0 < Find(doc.pairs, key) == |doc.pairs| - 1
    ensures multiset(Comments(DeleteTop(doc, key))) == multiset(Comments(doc))
  {
    var i := Find(doc.pairs, key);
    var pair, before := doc.pairs[i], doc.pairs[..i];
    assert doc.pairs == before + ([pair] + []);
    KeyCommentsAround(before, pair, []);
    assert RemoveAt(doc.pairs, i) == before;
    assert DeleteTop(doc, key) == doc.(pairs := before, comment := doc.comment + ([] + pair.comment));
    assert [] + pair.comment == pair.comment;
    assert pair.comment + KeyComments([]) == pair.comment;
  }
}
