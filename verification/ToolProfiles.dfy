/** Which registered tools a profile exposes: whole governed families, and fallbacks only without their alternative. */
module ToolProfiles {
  import opened Options
  import opened StableSort

  datatype Mode = Live | HybridLive | HybridDegraded | HeadlessReadonly | HeadlessGuarded | HeadlessFilesystem

  datatype Role = Plan | Apply | Status | Recover

  datatype Requirement = VaultCache | AssetPolicy

  datatype Rule = Rule(modes: set<Mode>, needs: set<Requirement>)

  datatype Entry = Entry(
    name: string, group: string, family: string, modes: set<Mode>, role: Option<Role>, alternative: Option<string>, rules: seq<Rule>)

  datatype ProfileId = Standard | Authoring | Tasks | Full | Operational

  datatype Profile = Profile(id: ProfileId, groups: set<string>, prefersAlternatives: bool)

  /** The registry, the tools whose reading needs a live backend, and the collation of names. */
  datatype Catalogue = Catalogue(registry: seq<Entry>, liveOnlyReads: set<string>, allGroups: set<string>, less: (string, string) -> bool)

  const OperonWrite: string := "tasks.operon.write"
  const OperonRead: string := "tasks.operon.read"
  const LiveMarker: string := "obsidian_note_replace_plan"
  const HistoricalTool: string := "bases_upsert_config"
  const AssetFamily: string := "asset-import"

  const ShortFamilies: set<string> :=
    {"note-move", "note-delete", "note-create", "base-create", "canvas-create", "base-rows", "asset-import"}

  /** Recovery is part of the lifecycle of some families only. */
  function LifecycleRoles(family: string): set<Role> {
    if family in ShortFamilies then {Plan, Apply, Status} else {Plan, Apply, Status, Recover}
  }

  // -------------------------------------------------------------------------
  // Filters
  // -------------------------------------------------------------------------

  function Keep(entries: seq<Entry>, f: Entry -> bool): seq<Entry> {
    if entries == [] then []
    else Keep(entries[..|entries| - 1], f) + (if f(entries[|entries| - 1]) then [entries[|entries| - 1]] else [])
  }

  lemma {:induction false} KeepItems(entries: seq<Entry>, f: Entry -> bool)
    ensures forall e :: e in Keep(entries, f) <==> e in entries && f(e)
  {
    if entries != [] {
      KeepItems(entries[..|entries| - 1], f);
      assert entries == entries[..|entries| - 1] + [entries[|entries| - 1]];
    }
  }

  predicate NamesDistinct(entries: seq<Entry>) { forall i, j :: 0 <= i < j < |entries| ==> entries[i].name != entries[j].name }

  lemma {:induction false} KeepDistinct(entries: seq<Entry>, f: Entry -> bool)
    requires NamesDistinct(entries)
    ensures NamesDistinct(Keep(entries, f))
  {
    if entries != [] {
      var before, last := entries[..|entries| - 1], entries[|entries| - 1];
      KeepDistinct(before, f);
      KeepItems(before, f);
      forall i | 0 <= i < |Keep(before, f)| ensures Keep(before, f)[i].name != last.name {
        assert Keep(before, f)[i] in before;
        var k :| 0 <= k < |before| && before[k] == Keep(before, f)[i];
        assert entries[k].name != entries[|entries| - 1].name;
      }
    }
  }

  predicate HasFamily(entries: seq<Entry>, family: string) { exists i :: 0 <= i < |entries| && entries[i].family == family }

  /** The lifecycle roles a family has among these entries. */
  function Roles(entries: seq<Entry>, family: string): set<Role> {
    if entries == [] then {}
    else
      var last := entries[|entries| - 1];
      Roles(entries[..|entries| - 1], family) + (if last.role.Some? && last.family == family then {last.role.value} else {})
  }

  lemma {:induction false} RolesMean(entries: seq<Entry>, family: string)
    ensures forall r :: r in Roles(entries, family) <==> HasRole(entries, family, r)
  {
    if entries != [] {
      var before, last := entries[..|entries| - 1], entries[|entries| - 1];
      RolesMean(before, family);
      forall r ensures r in Roles(entries, family) <==> HasRole(entries, family, r) {
        if HasRole(before, family, r) {
          var i :| 0 <= i < |before| && before[i].family == family && before[i].role == Some(r);
          assert entries[i] == before[i];
        }
        if last.family == family && last.role == Some(r) { assert entries[|entries| - 1].role == Some(r); }
      }
    }
  }

  predicate HasRole(entries: seq<Entry>, family: string, r: Role) {
    exists i :: 0 <= i < |entries| && entries[i].family == family && entries[i].role == Some(r)
  }

  predicate Complete(entries: seq<Entry>, family: string) { Roles(entries, family) == LifecycleRoles(family) }

  /** The map of roles by family, filled entry by entry. */
  method LifecycleRolesByFamily(entries: seq<Entry>) returns (roles: map<string, set<Role>>)
    ensures forall family :: family in roles <==> Roles(entries, family) != {}
    ensures forall family :: family in roles ==> roles[family] == Roles(entries, family)
  {
    roles := map[];
    var i := 0;
    while i < |entries|
      invariant 0 <= i <= |entries|
      invariant forall family :: family in roles <==> Roles(entries[..i], family) != {}
      invariant forall family :: family in roles ==> roles[family] == Roles(entries[..i], family)
    {
      assert entries[..i + 1][..i] == entries[..i];
      var e := entries[i];
      if e.role.Some? {
        var known := if e.family in roles then roles[e.family] else {};
        roles := roles[e.family := known + {e.role.value}];
      }
      i := i + 1;
    }
    assert entries[..i] == entries;
  }

  // -------------------------------------------------------------------------
  // Selection
  // -------------------------------------------------------------------------

  predicate RuntimeAvailable(c: Catalogue, e: Entry, live: bool) {
    if e.group == OperonWrite then live
    else if e.group == OperonRead && e.name in c.liveOnlyReads then live
    else true
  }

  function Runs(c: Catalogue, p: Profile, live: bool): Entry -> bool {
    (e: Entry) => p.id.Full? || p.id.Operational? || RuntimeAvailable(c, e, live)
  }

  function Whole(entries: seq<Entry>): Entry -> bool { (e: Entry) => e.role.None? || Complete(entries, e.family) }

  function NotReplaced(entries: seq<Entry>): Entry -> bool {
    (e: Entry) => e.alternative.None? || !HasFamily(entries, e.alternative.value)
  }

  function NotHistorical(p: Profile): Entry -> bool { (e: Entry) => !p.id.Operational? || e.name != HistoricalTool }

  function InGroups(groups: set<string>): Entry -> bool { (e: Entry) => e.group in groups }

  function OnSurface(mode: Mode, groups: set<string>, available: Option<set<Requirement>>): Entry -> bool {
    (e: Entry) => e.group in groups && mode in e.modes && RequirementsMet(e, mode, available)
  }

  function Modern(c: Catalogue, p: Profile, entries: seq<Entry>, live: bool): seq<Entry> { Keep(entries, Runs(c, p, live)) }

  function HideIncomplete(entries: seq<Entry>): seq<Entry> { Keep(entries, Whole(entries)) }

  function Suppress(entries: seq<Entry>): seq<Entry> { Keep(entries, NotReplaced(entries)) }

  function WithoutHistorical(p: Profile, entries: seq<Entry>): seq<Entry> { Keep(entries, NotHistorical(p)) }

  /** What is left after the filters, before the check that families are whole. */
  function Filtered(c: Catalogue, p: Profile, entries: seq<Entry>, live: bool, tolerant: bool): seq<Entry> {
    var modern := Modern(c, p, entries, live);
    var whole := if tolerant then HideIncomplete(modern) else modern;
    WithoutHistorical(p, if p.prefersAlternatives then Suppress(whole) else whole)
  }

  predicate FamiliesWhole(entries: seq<Entry>) {
    forall i :: 0 <= i < |entries| && entries[i].role.Some? ==> Complete(entries, entries[i].family)
  }

  function ByName(c: Catalogue): (Entry, Entry) -> bool { (a: Entry, b: Entry) => c.less(a.name, b.name) }

  /** None stands for the error that a governed family is incomplete. */
  function Finalize(c: Catalogue, p: Profile, entries: seq<Entry>, live: bool, tolerant: bool): Option<seq<Entry>> {
    var left := Filtered(c, p, entries, live, tolerant);
    if FamiliesWhole(left) then Some(SortBy(ByName(c), left)) else None
  }

  function Find(registry: seq<Entry>, name: string): (e: Option<Entry>)
    ensures e.Some? ==> e.value in registry && e.value.name == name
    ensures e.None? ==> forall x :: x in registry ==> x.name != name
  {
    if registry == [] then None else if registry[0].name == name then Some(registry[0]) else Find(registry[1..], name)
  }

  /** The known tools among the names, each once. */
  function Known(registry: seq<Entry>, names: seq<string>): seq<Entry> {
    if names == [] then []
    else
      var before, last := names[..|names| - 1], names[|names| - 1];
      var e := Find(registry, last);
      Known(registry, before) + (if last in before || e.None? then [] else [e.value])
  }

  function Grouped(p: Profile, entries: seq<Entry>): seq<Entry> { Keep(entries, InGroups(p.groups)) }

  /** The tools a profile exposes of those that are registered; not for the full profile, which exposes all. */
  function SelectEntries(c: Catalogue, p: Profile, names: seq<string>): Option<seq<Entry>> {
    Finalize(c, p, Grouped(p, Known(c.registry, names)), LiveMarker in names, true)
  }

  predicate LiveMode(mode: Mode) { mode.Live? || mode.HybridLive? }

  predicate RequirementsMet(e: Entry, mode: Mode, available: Option<set<Requirement>>) {
    if available.None? then e.family != AssetFamily
    else forall i :: 0 <= i < |e.rules| && mode in e.rules[i].modes ==> e.rules[i].needs <= available.value
  }

  /** The surface of a mode, limited to some groups. */
  function Surface(c: Catalogue, mode: Mode, groups: set<string>, available: Option<set<Requirement>>): seq<Entry> {
    SortBy(ByName(c), Keep(c.registry, OnSurface(mode, groups, available)))
  }

  /** The static profile of a mode. */
  function CompileProfile(c: Catalogue, p: Profile, mode: Mode, available: Option<set<Requirement>>): Option<seq<Entry>> {
    Finalize(c, p, Surface(c, mode, p.groups, available), LiveMode(mode), false)
  }

  // -------------------------------------------------------------------------
  // What a registry must be
  // -------------------------------------------------------------------------

  ghost predicate StrictTotal(less: (string, string) -> bool) {
    Transitive(less) && Asymmetric(less) && forall a, b :: a == b || less(a, b) || less(b, a)
  }

  /** Members of one governed family: of one group, available together, one for each role. */
  predicate Together(a: Entry, b: Entry) {
    a.role.Some? && b.role.Some? && a.family == b.family ==>
      && a.group == b.group && a.modes == b.modes && a.rules == b.rules
      && (a.role == b.role ==> a == b)
  }

  /** A governed tool is never a fallback, nor withdrawn one by one. */
  predicate GovernedOk(c: Catalogue, e: Entry) {
    e.role.Some? ==> e.alternative.None? && e.name != HistoricalTool && e.name !in c.liveOnlyReads && Complete(c.registry, e.family)
  }

  /** The alternative of a fallback is a family of tools that are no fallbacks, and that no profile withdraws. */
  predicate AlternativeOk(e: Entry, x: Entry) {
    e.alternative == Some(x.family) ==> x.alternative.None? && x.name != HistoricalTool
  }

  ghost predicate WellFormed(c: Catalogue) {
    && StrictTotal(c.less) && NamesDistinct(c.registry)
    && (forall a, b :: a in c.registry && b in c.registry ==> Together(a, b))
    && (forall e :: e in c.registry ==> GovernedOk(c, e))
    && (forall e, x :: e in c.registry && x in c.registry ==> AlternativeOk(e, x))
  }

  // -------------------------------------------------------------------------
  // The registration gate
  // -------------------------------------------------------------------------

  /** The gate on one server: every registered tool and whether it is enabled. */
  class RegistrationGate {
    const catalogue: Catalogue
    const profile: Profile
    var names: seq<string>
    var enabled: map<string, bool>

    constructor (catalogue: Catalogue, profile: Profile)
      ensures this.catalogue == catalogue && this.profile == profile && names == [] && enabled == map[]
    {
      this.catalogue, this.profile := catalogue, profile;
      names, enabled := [], map[];
    }

    /** The handles are those of the registered names. */
    ghost predicate Valid()
      reads this
    {
      forall name :: name in enabled.Keys <==> name in names
    }

    /** Each registered tool is enabled exactly when the profile selects it. */
    ghost predicate Reconciled(allowed: seq<Entry>)
      reads this
    {
      Valid() && forall name :: name in names ==> (enabled[name] <==> Exposed(allowed, name))
    }

    /** Updates every handle to what is allowed. */
    method Reconcile(allowed: seq<Entry>)
      requires Valid()
      modifies this`enabled
      ensures Reconciled(allowed)
    {
      var i := 0;
      while i < |names|
        invariant 0 <= i <= |names| && Valid()
        invariant forall k :: 0 <= k < i ==> (enabled[names[k]] <==> Exposed(allowed, names[k]))
      {
        var shouldEnable := Exposed(allowed, names[i]);
        if enabled[names[i]] != shouldEnable { enabled := enabled[names[i] := shouldEnable]; }
        i := i + 1;
      }
    }

    /** Registers a tool, recomputes the selection and updates every handle; `failed` when the selection is refused. */
    method RegisterTool(name: string) returns (failed: bool)
      requires Valid()
      modifies this
      ensures names == (if name in old(names) then old(names) else old(names) + [name]) && Valid()
      ensures failed <==> SelectEntries(catalogue, profile, names).None?
      ensures !failed ==> Reconciled(SelectEntries(catalogue, profile, names).value)
    {
      if name !in names { names := names + [name]; }
      enabled := enabled[name := true];
      var allowed := SelectEntries(catalogue, profile, names);
      if allowed.None? { return true; }
      Reconcile(allowed.value);
      failed := false;
    }
  }

  predicate Exposed(allowed: seq<Entry>, name: string) { exists i :: 0 <= i < |allowed| && allowed[i].name == name }
}
