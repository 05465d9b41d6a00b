/** Exactly when an operation on a Base configuration is accepted, why it is refused otherwise, and what becomes of the views. */
module BaseConfigAnswers {
  import opened Options
  import opened JsonValues
  import opened BaseConfig
  import opened BaseConfigProofs

  // -------------------------------------------------------------------------
  // What an operation finds
  // -------------------------------------------------------------------------

  /** A section of entries may be missing or null, but must be a mapping otherwise. */
  predicate Fits(m: Model, key: string) { key in m ==> m[key].Null? || m[key].Obj? }

  /** The list of views may be missing, but must be a list otherwise. */
  predicate ViewsFit(m: Model) { "views" in m ==> m["views"].Arr? }

  /** The property's settings, where the property exists, are a mapping or null. */
  predicate PropertyFits(m: Model, property: string) {
    EntryAt(m, "properties", property).Some? ==>
      EntryAt(m, "properties", property).value.Null? || EntryAt(m, "properties", property).value.Obj?
  }

  /** What the operation writes into has the right shape. */
  predicate SectionFits(m: Model, op: Operation) {
    match op
    case SetFilters(_) => true
    case DeleteFilters => true
    case SetProperty(property, _, _) => Fits(m, "properties") && PropertyFits(m, property)
    case DeleteProperty(property, settings) => Fits(m, "properties") && (settings.Some? ==> PropertyFits(m, property))
    case SetFormula(_, _) => Fits(m, "formulas")
    case DeleteFormula(_) => Fits(m, "formulas")
    case SetSummary(_, _) => Fits(m, "summaries")
    case DeleteSummary(_) => Fits(m, "summaries")
    case _ => ViewsFit(m)
  }

  /** The views there are; none when there is no list. */
  function Views(m: Model): seq<Json> { if "views" in m && m["views"].Arr? then m["views"].items else [] }

  /** View `i` has this name. */
  predicate Bears(views: seq<Json>, i: nat, name: Json) {
    i < |views| && views[i].Obj? && "name" in views[i].fields && views[i].fields["name"] == name
  }

  predicate Borne(views: seq<Json>, name: Json) { exists i :: 0 <= i < |views| && Bears(views, i, name) }

  /** View `i` and no other has this name. */
  predicate OnlyBears(views: seq<Json>, i: nat, name: Json) {
    Bears(views, i, name) && forall k :: 0 <= k < |views| && k != i ==> !Bears(views, k, name)
  }

  predicate BorneOnce(views: seq<Json>, name: Json) { exists i :: 0 <= i < |views| && OnlyBears(views, i, name) }

  /** What the operation deletes or changes is there. */
  predicate TargetThere(m: Model, op: Operation) {
    match op
    case DeleteFilters => "filters" in m
    case DeleteFormula(name) => EntryAt(m, "formulas", name).Some?
    case DeleteSummary(name) => EntryAt(m, "summaries", name).Some?
    case DeleteProperty(property, settings) =>
      if settings.None? then EntryAt(m, "properties", property).Some? else SettingAt(m, property, settings.value).Some?
    case DeleteViewKey(view, key) =>
      exists i :: 0 <= i < |Views(m)| && Bears(Views(m), i, Str(view)) && key in Views(m)[i].fields
    case _ => true
  }

  /** The name an operation gives to a view that did not have it. */
  function NewName(op: Operation): Option<Json>
    requires Canonical(op)
  {
    match op
    case AddView(pairs, _) => Some(Get(pairs, "name").value.value)
    case SetViewKey(view, key, value) => if key == "name" && Abs(value) != Str(view) then Some(Abs(value)) else None
    case _ => None
  }

  /** Why an operation is refused, the first reason that applies. */
  function Why(m: Model, op: Operation): Option<Reason>
    requires Canonical(op)
  {
    if !SectionFits(m, op) then Some(SectionInvalid)
    else if OnView(op) && !Borne(Views(m), Str(op.view)) then Some(ViewMissing)
    else if OnView(op) && !BorneOnce(Views(m), Str(op.view)) then Some(ViewAmbiguous)
    else if NewName(op).Some? && Borne(Views(m), NewName(op).value) then Some(ViewExists)
    else if op.DeleteView? && |Views(m)| == 1 then Some(LastView)
    else if !TargetThere(m, op) then Some(TargetMissing)
    else None
  }

  // -------------------------------------------------------------------------
  // Answers
  // -------------------------------------------------------------------------

  lemma {:induction false} MatchesAre(views: seq<Json>, view: string)
    ensures forall k :: k in Matches(views, view) <==> 0 <= k < |views| && Bears(views, k, Str(view))
    ensures forall a, b :: 0 <= a < b < |Matches(views, view)| ==> Matches(views, view)[a] < Matches(views, view)[b]
  {
    if views != [] {
      var n := |views| - 1;
      var before := views[..n];
      MatchesAre(before, view);
      forall k | 0 <= k < n ensures Bears(views, k, Str(view)) <==> Bears(before, k, Str(view)) {}
      var at := Matches(before, view);
      forall a | 0 <= a < |at| ensures at[a] < n { assert at[a] in at; }
    }
  }

  /** One view is found exactly when one bears the name, none when none does. */
  lemma IndexIs(views: seq<Json>, view: string)
    ensures var index := ViewIndex(views, view);
            && (index == Fail(ViewMissing) <==> !Borne(views, Str(view)))
            && (index.Ok? <==> BorneOnce(views, Str(view))) && (index.Ok? ==> OnlyBears(views, index.value, Str(view)))
            && (index.Fail? ==> index.reason == ViewMissing || index.reason == ViewAmbiguous)
  {
    var at := Matches(views, view);
    MatchesAre(views, view);
    if |at| > 0 { assert at[0] in at && Bears(views, at[0], Str(view)); }
    if BorneOnce(views, Str(view)) {
      var i :| 0 <= i < |views| && OnlyBears(views, i, Str(view));
      assert i in at;
      SameItems(at, i);
    }
    if |at| == 1 {
      forall k | 0 <= k < |views| && k != at[0] ensures !Bears(views, k, Str(view)) { assert k !in at; }
      assert OnlyBears(views, at[0], Str(view));
    }
    if Borne(views, Str(view)) {
      var i :| 0 <= i < |views| && Bears(views, i, Str(view));
      assert i in at;
    }
  }

  lemma SameItems(at: seq<nat>, i: nat)
    requires i in at && forall k :: k in at ==> k == i
    requires forall a, b :: 0 <= a < b < |at| ==> at[a] < at[b]
    ensures at == [i]
  {
    if |at| > 1 { TwoOf(at); }
    assert at[0] in at;
  }

  lemma TwoOf(at: seq<nat>)
    requires |at| > 1 && forall a, b :: 0 <= a < b < |at| ==> at[a] < at[b]
    ensures at[0] in at && at[1] in at && at[0] != at[1]
  {
  }

  /** What an operation outside the views answers. */
  lemma EntryAnswer(m: Model, op: Operation)
    requires Canonical(op) && !op.AddView? && !OnView(op)
    ensures ApplyModel(m, op).Ok? <==> Why(m, op).None?
    ensures ApplyModel(m, op).Fail? ==> Why(m, op) == Some(ApplyModel(m, op).reason)
  {
    if op.SetProperty? || op.DeleteProperty? {
      PropertiesAnswer(m, op);
    } else if op.DeleteFormula? || op.DeleteSummary? {
      DeleteAnswer(m, op);
    }
  }

  lemma DeleteAnswer(m: Model, op: Operation)
    requires op.DeleteFormula? || op.DeleteSummary?
    ensures ApplyModel(m, op).Ok? <==> Why(m, op).None?
    ensures ApplyModel(m, op).Fail? ==> Why(m, op) == Some(ApplyModel(m, op).reason)
  {
  }

  lemma PropertiesAnswer(m: Model, op: Operation)
    requires Canonical(op) && (op.SetProperty? || op.DeleteProperty?)
    ensures ApplyModel(m, op).Ok? <==> Why(m, op).None?
    ensures ApplyModel(m, op).Fail? ==> Why(m, op) == Some(ApplyModel(m, op).reason)
  {
    if op.SetProperty? {
      SetPropertyAnswer(m, op);
    } else {
      DeletePropertyAnswer(m, op);
    }
  }

  lemma SetPropertyAnswer(m: Model, op: Operation)
    requires Canonical(op) && op.SetProperty?
    ensures ApplyModel(m, op).Ok? <==> Why(m, op).None?
    ensures ApplyModel(m, op).Fail? ==> Why(m, op) == Some(ApplyModel(m, op).reason)
  {
    PropertyAnswer(m, op.property);
  }

  lemma DeletePropertyAnswer(m: Model, op: Operation)
    requires Canonical(op) && op.DeleteProperty?
    ensures ApplyModel(m, op).Ok? <==> Why(m, op).None?
    ensures ApplyModel(m, op).Fail? ==> Why(m, op) == Some(ApplyModel(m, op).reason)
  {
    PropertyAnswer(m, op.property);
    if op.settings.None? { DeleteAllAnswer(m, op.property); } else { DeleteSettingAnswer(m, op.property, op.settings.value); }
  }

  lemma DeleteAllAnswer(m: Model, property: string)
    requires property !in ForbiddenKeys
    ensures var r := ModelDeleteProperty(m, property, None);
            && (r.Ok? <==> Fits(m, "properties") && EntryAt(m, "properties", property).Some?)
            && (r.Fail? ==> r.reason == if Fits(m, "properties") then TargetMissing else SectionInvalid)
  {
  }

  lemma DeleteSettingAnswer(m: Model, property: string, key: string)
    requires property !in ForbiddenKeys
    ensures var r := ModelDeleteProperty(m, property, Some(key));
            && (r.Ok? <==> Fits(m, "properties") && PropertyFits(m, property) && SettingAt(m, property, key).Some?)
            && (r.Fail? ==> r.reason == if Fits(m, "properties") && PropertyFits(m, property) then TargetMissing else SectionInvalid)
  {
    PropertyAnswer(m, property);
  }

  /** The mapping of a property is found exactly where the section and the property have the right shape. */
  lemma PropertyAnswer(m: Model, property: string)
    requires property !in ForbiddenKeys
    ensures MapAt(m, "properties").Ok? <==> Fits(m, "properties")
    ensures Fits(m, "properties") ==>
              var p := MapAt(m, "properties").value;
              && (property in p <==> EntryAt(m, "properties", property).Some?)
              && (property in p ==> EntryAt(m, "properties", property).value == p[property])
              && (MapAt(p, property).Ok? <==> PropertyFits(m, property))
  {
  }

  lemma AddAnswer(m: Model, op: Operation)
    requires Canonical(op) && op.AddView?
    ensures ApplyModel(m, op).Ok? <==> Why(m, op).None?
    ensures ApplyModel(m, op).Fail? ==> Why(m, op) == Some(ApplyModel(m, op).reason)
  {
    var views, name := Views(m), Get(op.pairs, "name").value.value;
    assert (exists i :: 0 <= i < |views| && Named(views[i], name.text)) <==> Borne(views, name) by {
      if i :| 0 <= i < |views| && Named(views[i], name.text) { assert Bears(views, i, name); }
      if i :| 0 <= i < |views| && Bears(views, i, name) { assert Named(views[i], name.text); }
    }
  }

  lemma ViewAnswer(m: Model, op: Operation)
    requires Canonical(op) && OnView(op)
    ensures ApplyModel(m, op).Ok? <==> Why(m, op).None?
    ensures ApplyModel(m, op).Fail? ==> Why(m, op) == Some(ApplyModel(m, op).reason)
  {
    var views := Views(m);
    IndexIs(views, op.view);
    MatchesInside(views, op.view);
    if ViewsFit(m) && ViewIndex(views, op.view).Ok? { FoundAnswer(m, op, ViewIndex(views, op.view).value); }
  }

  lemma FoundAnswer(m: Model, op: Operation, i: nat)
    requires Canonical(op) && OnView(op) && ViewsFit(m) && ViewIndex(Views(m), op.view) == Ok(i) && OnlyBears(Views(m), i, Str(op.view))
    requires Borne(Views(m), Str(op.view)) && BorneOnce(Views(m), Str(op.view))
    ensures ApplyModel(m, op).Ok? <==> Why(m, op).None?
    ensures ApplyModel(m, op).Fail? ==> Why(m, op) == Some(ApplyModel(m, op).reason)
  {
    var views := Views(m);
    match op
    case DeleteView(_) =>
    case MoveView(_, _) =>
    case SetViewKey(view, key, value) =>
      assert (exists k :: 0 <= k < |views| && views[k].Obj? && "name" in views[k].fields && views[k].fields["name"] == Abs(value))
             <==> Borne(views, Abs(value)) by {
        if k :| 0 <= k < |views| && views[k].Obj? && "name" in views[k].fields && views[k].fields["name"] == Abs(value) {
          assert Bears(views, k, Abs(value));
        }
        if k :| 0 <= k < |views| && Bears(views, k, Abs(value)) { assert views[k].fields["name"] == Abs(value); }
      }
    case DeleteViewKey(view, key) =>
      if TargetThere(m, op) { var k :| 0 <= k < |views| && Bears(views, k, Str(view)) && key in views[k].fields; assert k == i; }
  }

  /**
   An operation is accepted exactly when what it writes into has the right shape, the one view it names is there, the
   name it gives is free, a view is left, and what it deletes is there. Otherwise the first of these that fails is the reason.
   */
  lemma AcceptedIff(m: Model, op: Operation)
    requires Canonical(op)
    ensures ApplyModel(m, op).Ok? <==> Why(m, op).None?
    ensures ApplyModel(m, op).Fail? ==> Why(m, op) == Some(ApplyModel(m, op).reason)
  {
    if op.AddView? { AddAnswer(m, op); } else if OnView(op) { ViewAnswer(m, op); } else { EntryAnswer(m, op); }
  }

  // -------------------------------------------------------------------------
  // What becomes of the filters and the views
  // -------------------------------------------------------------------------

  /** The list without its item at `at`. */
  predicate OneMore(longer: seq<Json>, at: nat, item: Json, shorter: seq<Json>) {
    at <= |shorter| && |longer| == |shorter| + 1 && longer[at] == item
    && forall k :: 0 <= k < |shorter| ==> shorter[k] == longer[if k < at then k else k + 1]
  }

  /** The view that bears the name stands at its new position, or at the end; all others keep their order. */
  predicate MovedTo(views: seq<Json>, i: nat, to: nat, after: seq<Json>, rest: seq<Json>)
    requires i < |views|
  {
    OneMore(views, i, views[i], rest) && OneMore(after, if to <= |rest| then to else |rest|, views[i], rest)
  }

  /** One field of the view has this value or is gone; its other fields, and the other views, are as before. */
  predicate FieldSet(views: seq<Json>, i: nat, key: string, value: Option<Json>, after: seq<Json>)
    requires i < |views| && views[i].Obj?
  {
    && |after| == |views| && after[i].Obj? && (forall k :: 0 <= k < |views| && k != i ==> after[k] == views[k])
    && (key in after[i].fields <==> value.Some?) && (value.Some? ==> after[i].fields[key] == value.value)
    && after[i].fields - {key} == views[i].fields - {key}
  }

  /** What the operation asks of the views has been done to view `i`. */
  ghost predicate Done(views: seq<Json>, i: nat, op: Operation, after: seq<Json>)
    requires OnView(op) && i < |views| && views[i].Obj?
  {
    match op
    case DeleteView(_) => OneMore(views, i, views[i], after)
    case MoveView(_, to) => exists rest :: MovedTo(views, i, to, after, rest)
    case SetViewKey(_, key, value) => FieldSet(views, i, key, Some(Abs(value)), after)
    case DeleteViewKey(_, key) => FieldSet(views, i, key, None, after)
  }

  lemma RemovedIs(s: seq<Json>, i: nat)
    requires i < |s|
    ensures OneMore(s, i, s[i], RemoveAt(s, i))
  {
  }

  lemma InsertedIs(s: seq<Json>, at: nat, x: Json)
    requires at <= |s|
    ensures OneMore(InsertAt(s, at, x), at, x, s)
  {
  }

  /** An accepted operation on a view does what it asks to the one view of that name. */
  lemma ViewIsDone(m: Model, op: Operation)
    requires Canonical(op) && OnView(op) && ApplyModel(m, op).Ok?
    ensures var after := ApplyModel(m, op).value;
            ViewsFit(after) && exists i: nat :: OnlyBears(Views(m), i, Str(op.view)) && Done(Views(m), i, op, Views(after))
  {
    var views, after := Views(m), Views(ApplyModel(m, op).value);
    IndexIs(views, op.view);
    MatchesInside(views, op.view);
    var i := ViewIndex(views, op.view).value;
    match op
    case DeleteView(_) => RemovedIs(views, i);
    case MoveView(_, to) =>
      RemovedIs(views, i);
      InsertedIs(RemoveAt(views, i), Min(to, |views| - 1), views[i]);
      assert MovedTo(views, i, to, after, RemoveAt(views, i));
    case SetViewKey(_, key, value) => assert FieldSet(views, i, key, Some(Abs(value)), after);
    case DeleteViewKey(_, key) => assert FieldSet(views, i, key, None, after);
    assert OnlyBears(views, i, Str(op.view)) && Done(views, i, op, after);
  }

  /** An added view stands where it was asked for, or last; the others keep their order. Filters are as given, or gone. */
  lemma AddedOrFiltered(m: Model, op: Operation)
    requires Canonical(op) && ApplyModel(m, op).Ok?
    ensures var after := ApplyModel(m, op).value;
            && (op.SetFilters? ==> "filters" in after && after["filters"] == Abs(op.filters))
            && (op.DeleteFilters? ==> "filters" !in after)
            && (op.AddView? ==>
                  && ViewsFit(after)
                  && var n := |Views(m)|;
                     OneMore(Views(after), if op.position.Some? && op.position.value < n then op.position.value else n, Obj(AbsPairs(op.pairs)), Views(m)))
  {
    if op.AddView? {
      var n := |Views(m)|;
      InsertedIs(Views(m), if op.position.None? then n else Min(op.position.value, n), Obj(AbsPairs(op.pairs)));
    }
  }

  /** A deletion leaves no empty section behind, and of a property deleted whole nothing at all. */
  lemma EmptiedSectionGoes(m: Model, op: Operation)
    requires Canonical(op) && ApplyModel(m, op).Ok? && (op.DeleteFormula? || op.DeleteSummary? || op.DeleteProperty?)
    ensures var after := ApplyModel(m, op).value;
            && (SectionOf(op) in after ==> after[SectionOf(op)].Obj? && after[SectionOf(op)].fields != map[])
            && (op.DeleteProperty? && op.settings.None? ==> EntryAt(after, "properties", op.property).None?)
  {
    if op.DeleteProperty? {
      PropertyAnswer(m, op.property);
    } else {
      var entries, name := MapAt(m, SectionOf(op)).value, EntryIntent(op).0;
      if |entries| > 1 { SmallerByOne(entries, name); }
    }
  }

  lemma SmallerByOne(entries: Model, name: string)
    requires name in entries && |entries| > 1
    ensures entries - {name} != map[]
  {
    var rest := entries.Keys - {name};
    assert |entries.Keys| == |rest| + 1;
    var k :| k in rest;
    assert k in entries - {name};
  }

  predicate Typed(view: Json) { view.Obj? && "name" in view.fields && "type" in view.fields }

  predicate NamedAndTyped(views: seq<Json>) {
    forall i :: 0 <= i < |views| ==> Typed(views[i])
  }

  /** No operation leaves a view without its name or its type. */
  lemma ViewsKeepNameAndType(m: Model, op: Operation)
    requires Canonical(op) && ApplyModel(m, op).Ok? && NamedAndTyped(Views(m))
    ensures NamedAndTyped(Views(ApplyModel(m, op).value))
  {
    if op.AddView? {
      GetAbs(op.pairs, "name");
      GetAbs(op.pairs, "type");
      AddedOrFiltered(m, op);
      OneMoreTyped(Views(ApplyModel(m, op).value), if op.position.Some? && op.position.value < |Views(m)| then op.position.value else |Views(m)|, Obj(AbsPairs(op.pairs)), Views(m));
    } else if OnView(op) {
      ViewIsDone(m, op);
      var i: nat :| OnlyBears(Views(m), i, Str(op.view)) && Done(Views(m), i, op, Views(ApplyModel(m, op).value));
      DoneTyped(Views(m), i, op, Views(ApplyModel(m, op).value));
    } else {
      OnlyTheSectionChanges(m, op);
      assert Views(ApplyModel(m, op).value) == Views(m);
    }
  }

  lemma OneMoreTyped(longer: seq<Json>, at: nat, item: Json, shorter: seq<Json>)
    requires OneMore(longer, at, item, shorter)
    ensures NamedAndTyped(longer) <==> NamedAndTyped(shorter) && Typed(item)
  {
    if NamedAndTyped(shorter) && Typed(item) {
      forall i | 0 <= i < |longer| ensures Typed(longer[i]) {
        if i < at { assert shorter[i] == longer[i]; } else if i > at { assert shorter[i - 1] == longer[i]; }
      }
    }
  }

  lemma DoneTyped(views: seq<Json>, i: nat, op: Operation, after: seq<Json>)
    requires Canonical(op) && OnView(op) && i < |views| && NamedAndTyped(views) && Done(views, i, op, after)
    ensures NamedAndTyped(after)
  {
    match op
    case DeleteView(_) => OneMoreTyped(views, i, views[i], after);
    case MoveView(_, to) =>
      var rest :| MovedTo(views, i, to, after, rest);
      OneMoreTyped(views, i, views[i], rest);
      OneMoreTyped(after, if to <= |rest| then to else |rest|, views[i], rest);
    case SetViewKey(_, key, value) => FieldTyped(views, i, key, Some(Abs(value)), after);
    case DeleteViewKey(_, key) => FieldTyped(views, i, key, None, after);
  }

  lemma FieldTyped(views: seq<Json>, i: nat, key: string, value: Option<Json>, after: seq<Json>)
    requires i < |views| && NamedAndTyped(views) && FieldSet(views, i, key, value, after)
    requires value.None? ==> key != "name" && key != "type"
    ensures NamedAndTyped(after)
  {
    forall k | k == "name" || k == "type" ensures k in after[i].fields {
      assert Typed(views[i]);
      if k != key { assert k in after[i].fields - {key}; }
    }
    forall j | 0 <= j < |after| ensures Typed(after[j]) { if j != i { assert Typed(views[j]); } }
  }
}
