/** The vault paths a call would write, when the call names all of them. */
module InstructionTargets {
  import opened Options
  import opened VaultPaths
  import opened InstructionRules

  /** A parameter of a call: missing, a text, or something else. */
  datatype Value = Absent | Text(value: string) | Other

  datatype Resolution = Targets(targets: seq<Target>) | Unresolved

  function FileOf(value: Value): seq<Target> {
    if !value.Text? then []
    else
      var path := NormalizeVaultPath(value.value);
      if path.None? || path.value == "" then [] else [Target(path.value, false)]
  }

  function Explicit(targets: seq<Target>, expected: nat): Resolution {
    if |targets| >= expected && targets != [] then Targets(targets) else Unresolved
  }

  /** The path parameter names a file of the vault. */
  predicate Names(value: Value) { FileOf(value) != [] }

  lemma {:induction false} AllResolve(values: seq<Value>)
    ensures |FlatMap(values, FileOf)| <= |values|
    ensures |FlatMap(values, FileOf)| == |values| <==> forall i :: 0 <= i < |values| ==> Names(values[i])
  {
    if values != [] {
      AllResolve(values[1..]);
      if forall i :: 0 <= i < |values[1..]| ==> Names(values[1..][i]) {
        if Names(values[0]) {
          forall i | 0 <= i < |values| ensures Names(values[i]) { if i > 0 { assert Names(values[1..][i - 1]); } }
        }
      }
      if forall i :: 0 <= i < |values| ==> Names(values[i]) {
        assert Names(values[0]);
        forall i | 0 <= i < |values| - 1 ensures Names(values[1..][i]) { assert Names(values[i + 1]); }
      }
    }
  }

  /** A call is resolved exactly when it names at least one path and every path it names resolves. */
  lemma ExplicitIff(values: seq<Value>)
    ensures Explicit(FlatMap(values, FileOf), |values|).Targets? <==> values != [] && forall i :: 0 <= i < |values| ==> Names(values[i])
  {
    AllResolve(values);
    if values != [] && FlatMap(values, FileOf) == [] {
      FlatMapEmpty(values, FileOf);
      assert !Names(values[0]);
    }
  }

  /** The paths of these parameters, in their order and each as a file, in its canonical form. */
  predicate TargetsOf(values: seq<Value>, targets: seq<Target>) {
    && |targets| == |values|
    && forall i :: 0 <= i < |values| ==>
         && values[i].Text? && !targets[i].folder && targets[i].path != ""
         && NormalizeVaultPath(values[i].value) == Some(targets[i].path)
  }

  /** A resolved call has one target for each path it names: that file. */
  lemma {:induction false} ResolvedAre(values: seq<Value>)
    requires forall i :: 0 <= i < |values| ==> Names(values[i])
    ensures TargetsOf(values, FlatMap(values, FileOf))
  {
    if values != [] {
      assert Names(values[0]);
      forall i | 0 <= i < |values| - 1 ensures Names(values[1..][i]) { assert Names(values[i + 1]); }
      ResolvedAre(values[1..]);
      TargetsCons(values[0], values[1..], FlatMap(values[1..], FileOf));
      assert values == [values[0]] + values[1..];
    }
  }

  lemma TargetsCons(first: Value, values: seq<Value>, targets: seq<Target>)
    requires Names(first) && TargetsOf(values, targets)
    ensures TargetsOf([first] + values, FileOf(first) + targets)
  {
  }

  // -------------------------------------------------------------------------
  // Calls on several files
  // -------------------------------------------------------------------------

  datatype AdminItem = AdminItem(sourcePath: Value, targetPath: Value)

  /** Where an item goes: an archive derives it from the source, other operations name it. */
  function Destination(archive: bool, archived: string -> string, item: AdminItem): Value {
    if archive then (if item.sourcePath.Text? then Text(archived(item.sourcePath.value)) else Text("")) else item.targetPath
  }

  /** Every path an item must resolve: its source, and its destination when it has one. */
  function PathsOfItem(archive: bool, archived: string -> string, item: AdminItem): seq<Value> {
    var destination := Destination(archive, archived, item);
    [item.sourcePath] + (if destination.Absent? then [] else [destination])
  }

  function PathsOfItems(archive: bool, archived: string -> string, items: seq<AdminItem>): seq<Value> {
    if items == [] then []
    else PathsOfItems(archive, archived, items[..|items| - 1]) + PathsOfItem(archive, archived, items[|items| - 1])
  }

  lemma {:induction false} FlatMapConcat<A, B>(a: seq<A>, b: seq<A>, f: A -> seq<B>)
    ensures FlatMap(a + b, f) == FlatMap(a, f) + FlatMap(b, f)
  {
    if a == [] {
      assert a + b == b;
    } else {
      assert (a + b)[1..] == a[1..] + b;
      FlatMapConcat(a[1..], b, f);
    }
  }

  /** Each source, and each destination as the handler derives it, counted as the items are gone through. */
  method AdminTargets(archive: bool, archived: string -> string, items: seq<AdminItem>) returns (r: Resolution)
    ensures var paths := PathsOfItems(archive, archived, items); r == Explicit(FlatMap(paths, FileOf), |paths|)
  {
    var expected := |items|;
    var targets: seq<Target> := [];
    var i := 0;
    while i < |items|
      invariant 0 <= i <= |items|
      invariant targets == FlatMap(PathsOfItems(archive, archived, items[..i]), FileOf)
      invariant expected == |PathsOfItems(archive, archived, items[..i])| + (|items| - i)
    {
      assert items[..i + 1][..i] == items[..i];
      FlatMapConcat(PathsOfItems(archive, archived, items[..i]), PathsOfItem(archive, archived, items[i]), FileOf);
      var destination := Destination(archive, archived, items[i]);
      OneItem(archive, archived, items[i]);
      targets := targets + (FileOf(items[i].sourcePath) + (if destination.Absent? then [] else FileOf(destination)));
      if !destination.Absent? { expected := expected + 1; }
      i := i + 1;
    }
    assert items[..i] == items;
    r := Explicit(targets, expected);
  }

  lemma OneItem(archive: bool, archived: string -> string, item: AdminItem)
    ensures var destination := Destination(archive, archived, item);
            FlatMap(PathsOfItem(archive, archived, item), FileOf)
            == FileOf(item.sourcePath) + (if destination.Absent? then [] else FileOf(destination))
  {
    var destination := Destination(archive, archived, item);
    var rest := if destination.Absent? then [] else [destination];
    assert ([item.sourcePath] + rest)[1..] == rest;
    assert FlatMap(PathsOfItem(archive, archived, item), FileOf) == FileOf(item.sourcePath) + FlatMap(rest, FileOf);
    if !destination.Absent? {
      assert rest[1..] == [];
      assert FlatMap(rest, FileOf) == FileOf(destination) + FlatMap(rest[1..], FileOf);
    }
  }

  predicate ItemResolves(archive: bool, archived: string -> string, item: AdminItem) {
    var destination := Destination(archive, archived, item);
    Names(item.sourcePath) && (destination.Absent? || Names(destination))
  }

  predicate AllName(values: seq<Value>) { forall i :: 0 <= i < |values| ==> Names(values[i]) }

  predicate AllItemsResolve(archive: bool, archived: string -> string, items: seq<AdminItem>) {
    forall k :: 0 <= k < |items| ==> ItemResolves(archive, archived, items[k])
  }

  lemma {:induction false} ItemsResolve(archive: bool, archived: string -> string, items: seq<AdminItem>)
    ensures AllName(PathsOfItems(archive, archived, items)) <==> AllItemsResolve(archive, archived, items)
    ensures PathsOfItems(archive, archived, items) != [] <==> items != []
  {
    if items != [] {
      var before, last := items[..|items| - 1], items[|items| - 1];
      ItemsResolve(archive, archived, before);
      BothName(PathsOfItems(archive, archived, before), PathsOfItem(archive, archived, last));
      OneItemResolves(archive, archived, last);
      OneMoreResolves(archive, archived, before, last);
      assert items == before + [last];
    }
  }

  lemma OneMoreResolves(archive: bool, archived: string -> string, before: seq<AdminItem>, last: AdminItem)
    ensures AllItemsResolve(archive, archived, before + [last])
            <==> AllItemsResolve(archive, archived, before) && ItemResolves(archive, archived, last)
  {
    var items := before + [last];
    if AllItemsResolve(archive, archived, items) {
      forall k | 0 <= k < |before| ensures ItemResolves(archive, archived, before[k]) { assert before[k] == items[k]; }
      assert items[|before|] == last;
    }
  }

  lemma OneItemResolves(archive: bool, archived: string -> string, item: AdminItem)
    ensures AllName(PathsOfItem(archive, archived, item)) <==> ItemResolves(archive, archived, item)
  {
    var paths := PathsOfItem(archive, archived, item);
    assert paths[0] == item.sourcePath;
    if |paths| > 1 { assert paths[1] == Destination(archive, archived, item); }
  }

  lemma BothName(a: seq<Value>, b: seq<Value>)
    ensures AllName(a + b) <==> AllName(a) && AllName(b)
  {
    if AllName(a + b) {
      forall i | 0 <= i < |a| ensures Names(a[i]) { assert (a + b)[i] == a[i]; }
      forall i | 0 <= i < |b| ensures Names(b[i]) { assert (a + b)[|a| + i] == b[i]; }
    }
  }

  /** A filesystem call is resolved exactly when it has items and every source and every destination of them resolves. */
  lemma AdminResolvedIff(archive: bool, archived: string -> string, items: seq<AdminItem>)
    ensures var paths := PathsOfItems(archive, archived, items);
            Explicit(FlatMap(paths, FileOf), |paths|).Targets?
            <==> items != [] && AllItemsResolve(archive, archived, items)
  {
    ExplicitIff(PathsOfItems(archive, archived, items));
    ItemsResolve(archive, archived, items);
  }

  /** A move is resolved exactly when both its source and its destination are. */
  lemma MoveResolvedIff(source: Value, destination: Value)
    ensures Explicit(FileOf(source) + FileOf(destination), 2).Targets? <==> Names(source) && Names(destination)
  {
    AllResolve([source, destination]);
  }

  /** The affected paths of a move's receipt, unless one of them is not a vault path. */
  function RevealedBy(affected: Option<seq<Value>>): Option<seq<Target>> {
    if affected.None? then None
    else if exists i :: 0 <= i < |affected.value| && !Names(affected.value[i]) then None
    else Some(FlatMap(affected.value, FileOf))
  }

  /** Targets revealed by a plan are the files of all its affected paths. */
  lemma RevealedMean(affected: seq<Value>)
    ensures RevealedBy(Some(affected)).Some? <==> forall i :: 0 <= i < |affected| ==> Names(affected[i])
    ensures RevealedBy(Some(affected)).Some? ==>
              forall i :: 0 <= i < |affected| ==> FileOf(affected[i])[0] in RevealedBy(Some(affected)).value
  {
    if RevealedBy(Some(affected)).Some? {
      forall i | 0 <= i < |affected| ensures FileOf(affected[i])[0] in RevealedBy(Some(affected)).value {
        assert Names(affected[i]);
        FlatMapItems(affected, FileOf, FileOf(affected[i])[0]);
      }
    }
  }
}
