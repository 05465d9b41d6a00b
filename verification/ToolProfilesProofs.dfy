/** What selection by profile guarantees, for every registry and every set of registered names. */
module ToolProfilesProofs {
  import opened Options
  import opened StableSort
  import opened ToolProfiles

  // -------------------------------------------------------------------------
  // The tools known among the names
  // -------------------------------------------------------------------------

  lemma FindIs(registry: seq<Entry>, e: Entry)
    requires NamesDistinct(registry) && e in registry
    ensures Find(registry, e.name) == Some(e)
  {
    var found := Find(registry, e.name).value;
    var i :| 0 <= i < |registry| && registry[i] == e;
    var j :| 0 <= j < |registry| && registry[j] == found;
    assert i == j;
  }

  lemma {:induction false} KnownItems(registry: seq<Entry>, names: seq<string>)
    requires NamesDistinct(registry)
    ensures forall e :: e in Known(registry, names) <==> e in registry && e.name in names
    ensures NamesDistinct(Known(registry, names))
  {
    if names != [] {
      var before, last := names[..|names| - 1], names[|names| - 1];
      KnownItems(registry, before);
      assert names == before + [last];
      forall e ensures e in Known(registry, names) <==> e in registry && e.name in names {
        if e in registry && e.name == last { FindIs(registry, e); }
      }
      forall i | 0 <= i < |Known(registry, before)| ensures Known(registry, before)[i].name in before {
        assert Known(registry, before)[i] in Known(registry, before);
      }
    }
  }

  /** Registered, of the profile's groups, and available at run time. */
  predicate Offered(c: Catalogue, p: Profile, names: seq<string>, e: Entry) {
    e in c.registry && e.name in names && e.group in p.groups && Runs(c, p, LiveMarker in names)(e)
  }

  function Offer(c: Catalogue, p: Profile, names: seq<string>): seq<Entry> {
    Modern(c, p, Grouped(p, Known(c.registry, names)), LiveMarker in names)
  }

  lemma OfferIs(c: Catalogue, p: Profile, names: seq<string>)
    requires NamesDistinct(c.registry)
    ensures forall e :: e in Offer(c, p, names) <==> Offered(c, p, names, e)
    ensures NamesDistinct(Offer(c, p, names))
  {
    KnownItems(c.registry, names);
    KeepItems(Known(c.registry, names), InGroups(p.groups));
    KeepDistinct(Known(c.registry, names), InGroups(p.groups));
    KeepItems(Grouped(p, Known(c.registry, names)), Runs(c, p, LiveMarker in names));
    KeepDistinct(Grouped(p, Known(c.registry, names)), Runs(c, p, LiveMarker in names));
  }

  // -------------------------------------------------------------------------
  // Whole families
  // -------------------------------------------------------------------------

  predicate Within(c: Catalogue, entries: seq<Entry>) { forall e :: e in entries ==> e in c.registry }

  /** Every governed tool of the family is among the entries. */
  predicate AllOf(c: Catalogue, entries: seq<Entry>, family: string) {
    forall e :: e in c.registry && e.role.Some? && e.family == family ==> e in entries
  }

  lemma CompleteHasAll(c: Catalogue, entries: seq<Entry>, b: Entry)
    requires WellFormed(c) && Within(c, entries) && b in c.registry && b.role.Some? && Complete(entries, b.family)
    ensures b in entries
  {
    assert GovernedOk(c, b);
    RolesMean(c.registry, b.family);
    RolesMean(entries, b.family);
    assert HasRole(c.registry, b.family, b.role.value);
    var i :| 0 <= i < |entries| && entries[i].family == b.family && entries[i].role == Some(b.role.value);
    assert entries[i] in entries;
    assert Together(entries[i], b);
  }

  lemma AllIsComplete(c: Catalogue, entries: seq<Entry>, b: Entry)
    requires WellFormed(c) && Within(c, entries) && b in c.registry && b.role.Some? && AllOf(c, entries, b.family)
    ensures Complete(entries, b.family)
  {
    assert GovernedOk(c, b);
    RolesMean(c.registry, b.family);
    RolesMean(entries, b.family);
    forall r ensures HasRole(entries, b.family, r) <==> HasRole(c.registry, b.family, r) {
      if HasRole(entries, b.family, r) {
        var i :| 0 <= i < |entries| && entries[i].family == b.family && entries[i].role == Some(r);
        assert entries[i] in entries;
        var j :| 0 <= j < |c.registry| && c.registry[j] == entries[i];
      }
      if HasRole(c.registry, b.family, r) {
        var j :| 0 <= j < |c.registry| && c.registry[j].family == b.family && c.registry[j].role == Some(r);
        assert c.registry[j] in entries;
        var i :| 0 <= i < |entries| && entries[i] == c.registry[j];
      }
    }
  }

  /** For a governed tool, its family is complete exactly when all of it is there. */
  lemma CompleteIffAll(c: Catalogue, entries: seq<Entry>, b: Entry)
    requires WellFormed(c) && Within(c, entries) && b in c.registry && b.role.Some?
    ensures Complete(entries, b.family) <==> AllOf(c, entries, b.family)
  {
    if Complete(entries, b.family) {
      forall e | e in c.registry && e.role.Some? && e.family == b.family ensures e in entries { CompleteHasAll(c, entries, e); }
    }
    if AllOf(c, entries, b.family) { AllIsComplete(c, entries, b); }
  }

  /** What stays of the offered tools: whole families, fallbacks without their alternative, and no historical tool. */
  predicate Stays(c: Catalogue, p: Profile, offer: seq<Entry>, e: Entry) {
    && e in offer && Whole(offer)(e)
    && (p.prefersAlternatives ==> NotReplaced(HideIncomplete(offer))(e))
    && NotHistorical(p)(e)
  }

  function Left(p: Profile, offer: seq<Entry>): seq<Entry> {
    var whole := HideIncomplete(offer);
    WithoutHistorical(p, if p.prefersAlternatives then Suppress(whole) else whole)
  }

  lemma LeftIs(c: Catalogue, p: Profile, offer: seq<Entry>)
    requires NamesDistinct(offer)
    ensures forall e :: e in Left(p, offer) <==> Stays(c, p, offer, e)
    ensures NamesDistinct(Left(p, offer))
  {
    var whole := HideIncomplete(offer);
    KeepItems(offer, Whole(offer));
    KeepDistinct(offer, Whole(offer));
    KeepItems(whole, NotReplaced(whole));
    KeepDistinct(whole, NotReplaced(whole));
    var kept := if p.prefersAlternatives then Suppress(whole) else whole;
    KeepItems(kept, NotHistorical(p));
    KeepDistinct(kept, NotHistorical(p));
  }

  /** A governed tool stays exactly when its whole family is offered. */
  lemma GovernedStays(c: Catalogue, p: Profile, offer: seq<Entry>, e: Entry)
    requires WellFormed(c) && Within(c, offer) && e in c.registry && e.role.Some?
    ensures Stays(c, p, offer, e) <==> AllOf(c, offer, e.family)
  {
    assert GovernedOk(c, e);
    CompleteIffAll(c, offer, e);
  }

  /** The check on families never fails after the incomplete ones are hidden. */
  lemma LeftIsWhole(c: Catalogue, p: Profile, offer: seq<Entry>)
    requires WellFormed(c) && Within(c, offer) && NamesDistinct(offer)
    ensures FamiliesWhole(Left(p, offer))
  {
    var left := Left(p, offer);
    LeftIs(c, p, offer);
    assert Within(c, left);
    forall i | 0 <= i < |left| && left[i].role.Some? ensures Complete(left, left[i].family) {
      assert left[i] in left;
      GovernedStays(c, p, offer, left[i]);
      forall e | e in c.registry && e.role.Some? && e.family == left[i].family ensures e in left { GovernedStays(c, p, offer, e); }
      AllIsComplete(c, left, left[i]);
    }
  }

  lemma ByNameIsStrict(c: Catalogue)
    requires StrictTotal(c.less)
    ensures Transitive(ByName(c)) && Asymmetric(ByName(c))
  {
    forall a, b, d | ByName(c)(a, b) && ByName(c)(b, d) ensures ByName(c)(a, d) {
      assert c.less(a.name, b.name) && c.less(b.name, d.name);
    }
    forall a, b | ByName(c)(a, b) ensures !ByName(c)(b, a) { assert c.less(a.name, b.name); }
  }

  lemma SortedEntries(c: Catalogue, entries: seq<Entry>)
    requires StrictTotal(c.less) && NamesDistinct(entries)
    ensures SortedBy(ByName(c), SortBy(ByName(c), entries)) && forall e :: e in SortBy(ByName(c), entries) <==> e in entries
  {
    ByNameIsStrict(c);
    forall i, j | 0 <= i < j < |entries|
      ensures if ByName(c)(entries[j], entries[i]) then ByName(c)(entries[j], entries[i]) else ByName(c)(entries[i], entries[j])
    {
      assert entries[i].name != entries[j].name;
    }
    SortsInto(ByName(c), ByName(c), entries);
    SortItems(ByName(c), entries);
    forall e ensures e in SortBy(ByName(c), entries) <==> e in entries {
      assert e in SortBy(ByName(c), entries) <==> e in multiset(SortBy(ByName(c), entries));
      assert e in entries <==> e in multiset(entries);
    }
  }

  /** The selection never fails, and its members are what stays of what is offered. */
  lemma SelectionIs(c: Catalogue, p: Profile, names: seq<string>)
    requires WellFormed(c)
    ensures SelectEntries(c, p, names).Some?
    ensures SortedBy(ByName(c), SelectEntries(c, p, names).value)
    ensures forall e :: e in SelectEntries(c, p, names).value <==> Stays(c, p, Offer(c, p, names), e)
  {
    var offer := Offer(c, p, names);
    OfferIs(c, p, names);
    LeftIsWhole(c, p, offer);
    LeftIs(c, p, offer);
    SortedEntries(c, Left(p, offer));
  }

  // -------------------------------------------------------------------------
  // The properties
  // -------------------------------------------------------------------------

  /** Of one governed family either every tool is exposed, or none. */
  lemma FamiliesAreAtomic(c: Catalogue, p: Profile, names: seq<string>, a: Entry, b: Entry)
    requires WellFormed(c) && a in c.registry && b in c.registry && a.role.Some? && b.role.Some? && a.family == b.family
    ensures SelectEntries(c, p, names).Some?
    ensures a in SelectEntries(c, p, names).value <==> b in SelectEntries(c, p, names).value
  {
    SelectionIs(c, p, names);
    OfferIs(c, p, names);
    GovernedStays(c, p, Offer(c, p, names), a);
    GovernedStays(c, p, Offer(c, p, names), b);
  }

  /** A governed family is exposed exactly when all of its tools are registered and available in the profile. */
  lemma FamilyExposedIff(c: Catalogue, p: Profile, names: seq<string>, a: Entry)
    requires WellFormed(c) && a in c.registry && a.role.Some?
    ensures SelectEntries(c, p, names).Some?
    ensures a in SelectEntries(c, p, names).value
            <==> forall e :: e in c.registry && e.role.Some? && e.family == a.family ==> Offered(c, p, names, e)
  {
    SelectionIs(c, p, names);
    OfferIs(c, p, names);
    GovernedStays(c, p, Offer(c, p, names), a);
    if AllOf(c, Offer(c, p, names), a.family) {
      forall e | e in c.registry && e.role.Some? && e.family == a.family ensures Offered(c, p, names, e) { assert e in Offer(c, p, names); }
    }
  }

  predicate ExposesFamily(selected: seq<Entry>, family: string) { exists e :: e in selected && e.family == family }

  /** An offered ungoverned tool is withheld exactly when it is a fallback of a family that is itself exposed, or historical. */
  lemma FallbackWithheldIff(c: Catalogue, p: Profile, names: seq<string>, e: Entry)
    requires WellFormed(c) && Offered(c, p, names, e) && e.role.None?
    ensures SelectEntries(c, p, names).Some?
    ensures e !in SelectEntries(c, p, names).value <==>
              || !NotHistorical(p)(e)
              || (p.prefersAlternatives && e.alternative.Some? && ExposesFamily(SelectEntries(c, p, names).value, e.alternative.value))
  {
    SelectionIs(c, p, names);
    OfferIs(c, p, names);
    var offer, selected := Offer(c, p, names), SelectEntries(c, p, names).value;
    if e.alternative.Some? { AlternativeExposed(c, p, offer, selected, e); }
  }

  lemma AlternativeExposed(c: Catalogue, p: Profile, offer: seq<Entry>, selected: seq<Entry>, e: Entry)
    requires WellFormed(c) && Within(c, offer) && e in c.registry && e.alternative.Some?
    requires forall x :: x in selected <==> Stays(c, p, offer, x)
    ensures HasFamily(HideIncomplete(offer), e.alternative.value) <==> ExposesFamily(selected, e.alternative.value)
  {
    var whole := HideIncomplete(offer);
    KeepItems(offer, Whole(offer));
    if HasFamily(whole, e.alternative.value) {
      var i :| 0 <= i < |whole| && whole[i].family == e.alternative.value;
      assert whole[i] in whole;
      assert AlternativeOk(e, whole[i]);
      assert Stays(c, p, offer, whole[i]);
    }
    if x :| x in selected && x.family == e.alternative.value {
      assert x in whole;
      var i :| 0 <= i < |whole| && whole[i] == x;
    }
  }

  /** The outcome depends on the set of registered names only, not on the order they came in. */
  lemma OnlyTheSetMatters(c: Catalogue, p: Profile, a: seq<string>, b: seq<string>)
    requires WellFormed(c) && forall name :: name in a <==> name in b
    ensures SelectEntries(c, p, a) == SelectEntries(c, p, b)
  {
    SelectionIs(c, p, a);
    SelectionIs(c, p, b);
    OfferIs(c, p, a);
    OfferIs(c, p, b);
    SameOfferSameStays(c, p, Offer(c, p, a), Offer(c, p, b));
    ByNameIsStrict(c);
    SameMembers(ByName(c), SelectEntries(c, p, a).value, SelectEntries(c, p, b).value);
  }

  lemma SameRoles(a: seq<Entry>, b: seq<Entry>, family: string)
    requires forall e :: e in a <==> e in b
    ensures Roles(a, family) == Roles(b, family)
  {
    RolesMean(a, family);
    RolesMean(b, family);
    forall r ensures HasRole(a, family, r) <==> HasRole(b, family, r) { SameHasRole(a, b, family, r); SameHasRole(b, a, family, r); }
  }

  lemma SameHasRole(a: seq<Entry>, b: seq<Entry>, family: string, r: Role)
    requires forall e :: e in a ==> e in b
    ensures HasRole(a, family, r) ==> HasRole(b, family, r)
  {
    if HasRole(a, family, r) {
      var i :| 0 <= i < |a| && a[i].family == family && a[i].role == Some(r);
      assert a[i] in b;
      var j :| 0 <= j < |b| && b[j] == a[i];
    }
  }

  lemma SameHasFamily(a: seq<Entry>, b: seq<Entry>, family: string)
    requires forall e :: e in a ==> e in b
    ensures HasFamily(a, family) ==> HasFamily(b, family)
  {
    if HasFamily(a, family) {
      var i :| 0 <= i < |a| && a[i].family == family;
      assert a[i] in b;
      var j :| 0 <= j < |b| && b[j] == a[i];
    }
  }

  lemma SameWhole(a: seq<Entry>, b: seq<Entry>)
    requires forall e :: e in a <==> e in b
    ensures forall e :: e in HideIncomplete(a) <==> e in HideIncomplete(b)
    ensures forall e :: Whole(a)(e) <==> Whole(b)(e)
  {
    KeepItems(a, Whole(a));
    KeepItems(b, Whole(b));
    forall e ensures Whole(a)(e) <==> Whole(b)(e) { SameRoles(a, b, e.family); }
  }

  lemma SameOfferSameStays(c: Catalogue, p: Profile, a: seq<Entry>, b: seq<Entry>)
    requires forall e :: e in a <==> e in b
    ensures forall e :: Stays(c, p, a, e) <==> Stays(c, p, b, e)
  {
    SameWhole(a, b);
    forall e ensures Stays(c, p, a, e) <==> Stays(c, p, b, e) {
      if e.alternative.Some? {
        SameHasFamily(HideIncomplete(a), HideIncomplete(b), e.alternative.value);
        SameHasFamily(HideIncomplete(b), HideIncomplete(a), e.alternative.value);
      }
    }
  }

  // -------------------------------------------------------------------------
  // The whole surface of a mode
  // -------------------------------------------------------------------------

  function NamesOf(entries: seq<Entry>): seq<string> { seq(|entries|, i requires 0 <= i < |entries| => entries[i].name) }

  /** The tool that marks a live backend is on the surface of live modes only. */
  predicate MarkerTells(c: Catalogue, mode: Mode, available: Option<set<Requirement>>) {
    LiveMarker in NamesOf(Surface(c, mode, c.allGroups, available)) <==> LiveMode(mode)
  }

  lemma SurfaceItems(c: Catalogue, mode: Mode, groups: set<string>, available: Option<set<Requirement>>)
    requires StrictTotal(c.less) && NamesDistinct(c.registry)
    ensures forall e :: e in Surface(c, mode, groups, available) <==> e in c.registry && OnSurface(mode, groups, available)(e)
    ensures NamesDistinct(Keep(c.registry, OnSurface(mode, groups, available)))
    ensures SortedBy(ByName(c), Surface(c, mode, groups, available))
  {
    KeepItems(c.registry, OnSurface(mode, groups, available));
    KeepDistinct(c.registry, OnSurface(mode, groups, available));
    SortedEntries(c, Keep(c.registry, OnSurface(mode, groups, available)));
  }

  lemma NameListed(entries: seq<Entry>, e: Entry)
    requires e in entries
    ensures e.name in NamesOf(entries)
  {
    var i :| 0 <= i < |entries| && entries[i] == e;
    assert NamesOf(entries)[i] == e.name;
  }

  lemma ListedName(c: Catalogue, entries: seq<Entry>, e: Entry)
    requires NamesDistinct(c.registry) && Within(c, entries) && e in c.registry && e.name in NamesOf(entries)
    ensures e in entries
  {
    var i :| 0 <= i < |entries| && NamesOf(entries)[i] == e.name;
    assert entries[i] in entries;
    FindIs(c.registry, e);
    FindIs(c.registry, entries[i]);
  }

  function StaticOffer(c: Catalogue, p: Profile, mode: Mode, available: Option<set<Requirement>>): seq<Entry> {
    Modern(c, p, Surface(c, mode, p.groups, available), LiveMode(mode))
  }

  lemma SortedDistinct(c: Catalogue, entries: seq<Entry>)
    requires StrictTotal(c.less) && SortedBy(ByName(c), entries)
    ensures NamesDistinct(entries)
  {
    forall i, j | 0 <= i < j < |entries| ensures entries[i].name != entries[j].name { assert ByName(c)(entries[i], entries[j]); }
  }

  /** What is offered on the whole surface of a mode is what the static profile starts from. */
  lemma SameOffer(c: Catalogue, p: Profile, mode: Mode, available: Option<set<Requirement>>)
    requires WellFormed(c) && p.groups <= c.allGroups && MarkerTells(c, mode, available)
    ensures var names := NamesOf(Surface(c, mode, c.allGroups, available));
            forall e :: e in Offer(c, p, names) <==> e in StaticOffer(c, p, mode, available)
    ensures NamesDistinct(StaticOffer(c, p, mode, available))
  {
    var all, mine := Surface(c, mode, c.allGroups, available), Surface(c, mode, p.groups, available);
    var names := NamesOf(all);
    SurfaceItems(c, mode, c.allGroups, available);
    SurfaceItems(c, mode, p.groups, available);
    OfferIs(c, p, names);
    KeepItems(mine, Runs(c, p, LiveMode(mode)));
    SortedDistinct(c, mine);
    KeepDistinct(mine, Runs(c, p, LiveMode(mode)));
    forall e ensures e in Offer(c, p, names) <==> e in StaticOffer(c, p, mode, available) {
      if e in all { NameListed(all, e); }
      if e in c.registry && e.name in names { ListedName(c, all, e); }
    }
  }

  lemma SurfaceTogether(c: Catalogue, p: Profile, mode: Mode, available: Option<set<Requirement>>, a: Entry, b: Entry)
    requires WellFormed(c) && a in StaticOffer(c, p, mode, available) && b in c.registry
    requires a.role.Some? && b.role.Some? && a.family == b.family
    ensures a in c.registry && b in StaticOffer(c, p, mode, available)
  {
    var mine := Surface(c, mode, p.groups, available);
    SurfaceItems(c, mode, p.groups, available);
    KeepItems(mine, Runs(c, p, LiveMode(mode)));
    assert Together(a, b) && GovernedOk(c, a) && GovernedOk(c, b);
  }

  /** On the surface of a mode every governed family is whole, so nothing is hidden as incomplete. */
  lemma NothingHidden(c: Catalogue, p: Profile, mode: Mode, available: Option<set<Requirement>>)
    requires WellFormed(c)
    ensures HideIncomplete(StaticOffer(c, p, mode, available)) == StaticOffer(c, p, mode, available)
  {
    var offer := StaticOffer(c, p, mode, available);
    SurfaceItems(c, mode, p.groups, available);
    KeepItems(Surface(c, mode, p.groups, available), Runs(c, p, LiveMode(mode)));
    forall e | e in offer ensures Whole(offer)(e) {
      if e.role.Some? {
        forall b | b in c.registry && b.role.Some? && b.family == e.family ensures b in offer { SurfaceTogether(c, p, mode, available, e, b); }
        AllIsComplete(c, offer, e);
      }
    }
    KeepAll(offer, Whole(offer));
  }

  lemma {:induction false} KeepAll(entries: seq<Entry>, f: Entry -> bool)
    requires forall e :: e in entries ==> f(e)
    ensures Keep(entries, f) == entries
  {
    if entries != [] {
      assert entries == entries[..|entries| - 1] + [entries[|entries| - 1]];
      assert entries[|entries| - 1] in entries;
      KeepAll(entries[..|entries| - 1], f);
    }
  }

  /** The static profile never fails, and is what stays of its offer, in order. */
  lemma StaticIs(c: Catalogue, p: Profile, mode: Mode, available: Option<set<Requirement>>)
    requires WellFormed(c) && NamesDistinct(StaticOffer(c, p, mode, available)) && Within(c, StaticOffer(c, p, mode, available))
    ensures CompileProfile(c, p, mode, available).Some?
    ensures SortedBy(ByName(c), CompileProfile(c, p, mode, available).value)
    ensures forall e :: e in CompileProfile(c, p, mode, available).value <==> Stays(c, p, StaticOffer(c, p, mode, available), e)
  {
    var offer := StaticOffer(c, p, mode, available);
    NothingHidden(c, p, mode, available);
    LeftIsWhole(c, p, offer);
    LeftIs(c, p, offer);
    SortedEntries(c, Left(p, offer));
    assert Filtered(c, p, Surface(c, mode, p.groups, available), LiveMode(mode), false) == Left(p, offer);
  }

  lemma StaticWithin(c: Catalogue, p: Profile, mode: Mode, available: Option<set<Requirement>>)
    requires WellFormed(c)
    ensures Within(c, StaticOffer(c, p, mode, available))
  {
    SurfaceItems(c, mode, p.groups, available);
    KeepItems(Surface(c, mode, p.groups, available), Runs(c, p, LiveMode(mode)));
  }

  /** On the whole surface of a mode, the tools exposed at run time are the static profile of that mode. */
  lemma RuntimeIsStatic(c: Catalogue, p: Profile, mode: Mode, available: Option<set<Requirement>>)
    requires WellFormed(c) && p.groups <= c.allGroups && MarkerTells(c, mode, available)
    ensures CompileProfile(c, p, mode, available).Some?
    ensures SelectEntries(c, p, NamesOf(Surface(c, mode, c.allGroups, available))) == CompileProfile(c, p, mode, available)
  {
    var names := NamesOf(Surface(c, mode, c.allGroups, available));
    SelectionIs(c, p, names);
    SameOffer(c, p, mode, available);
    StaticWithin(c, p, mode, available);
    StaticIs(c, p, mode, available);
    SameOfferSameStays(c, p, Offer(c, p, names), StaticOffer(c, p, mode, available));
    ByNameIsStrict(c);
    SameMembers(ByName(c), SelectEntries(c, p, names).value, CompileProfile(c, p, mode, available).value);
  }

  // -------------------------------------------------------------------------
  // The gate
  // -------------------------------------------------------------------------

  function NamesAfter(registered: seq<string>): seq<string> {
    if registered == [] then []
    else
      var before := NamesAfter(registered[..|registered| - 1]);
      if registered[|registered| - 1] in before then before else before + [registered[|registered| - 1]]
  }

  lemma {:induction false} NamesAfterItems(registered: seq<string>)
    ensures forall name :: name in NamesAfter(registered) <==> name in registered
  {
    if registered != [] {
      NamesAfterItems(registered[..|registered| - 1]);
      assert registered == registered[..|registered| - 1] + [registered[|registered| - 1]];
    }
  }

  /**
   Registers any tools in any order: the gate never fails, and at the end each registered tool is enabled
   exactly when the profile selects it from the set of registered names.
   */
  method RegisterAll(catalogue: Catalogue, profile: Profile, registered: seq<string>) returns (gate: RegistrationGate)
    requires WellFormed(catalogue) && registered != []
    ensures gate.Valid() && forall name :: name in gate.names <==> name in registered
    ensures SelectEntries(catalogue, profile, registered).Some?
    ensures gate.Reconciled(SelectEntries(catalogue, profile, registered).value)
  {
    gate := new RegistrationGate(catalogue, profile);
    var i := 0;
    while i < |registered|
      invariant 0 <= i <= |registered| && fresh(gate) && gate.Valid() && gate.catalogue == catalogue && gate.profile == profile
      invariant gate.names == NamesAfter(registered[..i])
      invariant SelectEntries(catalogue, profile, gate.names).Some?
      invariant i > 0 ==> gate.Reconciled(SelectEntries(catalogue, profile, gate.names).value)
    {
      assert registered[..i + 1][..i] == registered[..i];
      var failed := gate.RegisterTool(registered[i]);
      SelectionIs(catalogue, profile, gate.names);
      i := i + 1;
    }
    assert registered[..i] == registered;
    NamesAfterItems(registered);
    OnlyTheSetMatters(catalogue, profile, gate.names, registered);
  }
}
