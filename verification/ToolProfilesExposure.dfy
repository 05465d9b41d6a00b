/** Which tools a profile exposes, told from the registry and the registered names alone. */
module ToolProfilesExposure {
  import opened Options
  import opened ToolProfiles
  import opened ToolProfilesProofs

  /** The tool works without a live backend. */
  predicate WorksOffline(c: Catalogue, e: Entry) {
    e.group != "tasks.operon.write" && (e.group == "tasks.operon.read" ==> e.name !in c.liveOnlyReads)
  }

  /** The full and operational profiles take a tool whether or not it works now. */
  predicate Takes(c: Catalogue, p: Profile, e: Entry, live: bool) {
    e.group in p.groups && (p.id == Full || p.id == Operational || live || WorksOffline(c, e))
  }

  /** Tools left after the first choice; `present` says which the choice is made from. */
  ghost predicate Chosen(c: Catalogue, p: Profile, present: Entry -> bool, live: bool, e: Entry) {
    && e in c.registry && present(e) && Takes(c, p, e, live)
    && (e.role.Some? ==> forall g :: g in c.registry && g.role.Some? && g.family == e.family ==> present(g) && Takes(c, p, g, live))
  }

  ghost predicate FamilyChosen(c: Catalogue, p: Profile, present: Entry -> bool, live: bool, family: string) {
    exists x :: x in c.registry && x.family == family && Chosen(c, p, present, live, x)
  }

  /** Chosen, not withdrawn, and no fallback of a family that is there. */
  ghost predicate Shows(c: Catalogue, p: Profile, present: Entry -> bool, live: bool, e: Entry) {
    && Chosen(c, p, present, live, e) && (p.id == Operational ==> e.name != "bases_upsert_config")
    && (p.prefersAlternatives && e.alternative.Some? ==> !FamilyChosen(c, p, present, live, e.alternative.value))
  }

  /** Of a whole offer, what stays is what shows. */
  lemma StaysIffShows(c: Catalogue, p: Profile, offer: seq<Entry>, present: Entry -> bool, live: bool, e: Entry)
    requires WellFormed(c) && e in c.registry
    requires forall x :: x in offer <==> x in c.registry && present(x) && Takes(c, p, x, live)
    ensures Stays(c, p, offer, e) <==> Shows(c, p, present, live, e)
  {
    WholeIffChosen(c, p, offer, present, live, e);
    if e.alternative.Some? { AlternativeIffChosen(c, p, offer, present, live, e.alternative.value); }
  }

  lemma WholeIffChosen(c: Catalogue, p: Profile, offer: seq<Entry>, present: Entry -> bool, live: bool, e: Entry)
    requires WellFormed(c) && e in c.registry
    requires forall x :: x in offer <==> x in c.registry && present(x) && Takes(c, p, x, live)
    ensures (e in offer && Whole(offer)(e)) <==> Chosen(c, p, present, live, e)
  {
    if e.role.Some? { CompleteIffAll(c, offer, e); }
  }

  lemma AlternativeIffChosen(c: Catalogue, p: Profile, offer: seq<Entry>, present: Entry -> bool, live: bool, family: string)
    requires WellFormed(c)
    requires forall x :: x in offer <==> x in c.registry && present(x) && Takes(c, p, x, live)
    ensures HasFamily(HideIncomplete(offer), family) <==> FamilyChosen(c, p, present, live, family)
  {
    var whole := HideIncomplete(offer);
    KeepItems(offer, Whole(offer));
    if HasFamily(whole, family) {
      var i :| 0 <= i < |whole| && whole[i].family == family;
      assert whole[i] in whole;
      WholeIffChosen(c, p, offer, present, live, whole[i]);
    }
    if FamilyChosen(c, p, present, live, family) {
      var x :| x in c.registry && x.family == family && Chosen(c, p, present, live, x);
      WholeIffChosen(c, p, offer, present, live, x);
      assert x in whole;
      var i :| 0 <= i < |whole| && whole[i] == x;
    }
  }

  function IsNamed(names: seq<string>): Entry -> bool { (e: Entry) => e.name in names }

  /**
   A profile exposes a known tool exactly when it is registered, of the profile's groups, and works now, with its whole
   family if it is governed, unless it is a fallback whose alternative family is there in the same sense, or the
   historical tool of the operational profile. The marker of a live backend tells whether one is there.
   */
  lemma ExposedIff(c: Catalogue, p: Profile, names: seq<string>, e: Entry)
    requires WellFormed(c) && e in c.registry
    ensures SelectEntries(c, p, names).Some?
    ensures e in SelectEntries(c, p, names).value <==> Shows(c, p, IsNamed(names), "obsidian_note_replace_plan" in names, e)
  {
    var live := "obsidian_note_replace_plan" in names;
    SelectionIs(c, p, names);
    OfferIs(c, p, names);
    assert forall x :: Runs(c, p, live)(x) && x.group in p.groups <==> Takes(c, p, x, live);
    StaysIffShows(c, p, Offer(c, p, names), IsNamed(names), live, e);
  }

  /** The tool exists in this mode and what it needs there is available; unknown availability withholds asset imports only. */
  predicate ExistsIn(mode: Mode, available: Option<set<Requirement>>, e: Entry) {
    && mode in e.modes
    && match available
       case None => e.family != "asset-import"
       case Some(has) => forall r, need :: r in e.rules && mode in r.modes && need in r.needs ==> need in has
  }

  function IsIn(mode: Mode, available: Option<set<Requirement>>): Entry -> bool { (e: Entry) => ExistsIn(mode, available, e) }

  /** The static profile of a mode has exactly the tools that show among those of the mode; two modes are live. */
  lemma CompiledIff(c: Catalogue, p: Profile, mode: Mode, available: Option<set<Requirement>>, e: Entry)
    requires WellFormed(c) && e in c.registry
    ensures CompileProfile(c, p, mode, available).Some?
    ensures e in CompileProfile(c, p, mode, available).value <==> Shows(c, p, IsIn(mode, available), mode == Live || mode == HybridLive, e)
  {
    var live := mode == Live || mode == HybridLive;
    var mine := Surface(c, mode, p.groups, available);
    SurfaceItems(c, mode, p.groups, available);
    KeepItems(mine, Runs(c, p, live));
    SortedDistinct(c, mine);
    KeepDistinct(mine, Runs(c, p, live));
    StaticWithin(c, p, mode, available);
    StaticIs(c, p, mode, available);
    forall x | x in c.registry ensures RequirementsMet(x, mode, available) && mode in x.modes <==> ExistsIn(mode, available, x) {
      MetIff(x, mode, available);
    }
    OfferedIff(c, p, mode, available, live);
    StaysIffShows(c, p, StaticOffer(c, p, mode, available), IsIn(mode, available), live, e);
  }

  lemma OfferedIff(c: Catalogue, p: Profile, mode: Mode, available: Option<set<Requirement>>, live: bool)
    requires WellFormed(c) && (live <==> mode == Live || mode == HybridLive)
    requires forall x :: x in c.registry ==> (RequirementsMet(x, mode, available) && mode in x.modes <==> ExistsIn(mode, available, x))
    ensures forall x :: x in StaticOffer(c, p, mode, available) <==> x in c.registry && IsIn(mode, available)(x) && Takes(c, p, x, live)
  {
    SurfaceItems(c, mode, p.groups, available);
    KeepItems(Surface(c, mode, p.groups, available), Runs(c, p, live));
  }

  lemma MetIff(e: Entry, mode: Mode, available: Option<set<Requirement>>)
    ensures RequirementsMet(e, mode, available) && mode in e.modes <==> ExistsIn(mode, available, e)
  {
    if available.Some? && ExistsIn(mode, available, e) {
      forall i | 0 <= i < |e.rules| && mode in e.rules[i].modes ensures e.rules[i].needs <= available.value { assert e.rules[i] in e.rules; }
    }
  }

  /** A family is whole with a plan, an apply and a status tool; recovery goes with it except for the seven short families. */
  lemma WholeIff(entries: seq<Entry>, family: string)
    ensures Complete(entries, family) <==>
              && HasRole(entries, family, Plan) && HasRole(entries, family, Apply) && HasRole(entries, family, Status)
              && (HasRole(entries, family, Recover) <==>
                    family !in ["note-move", "note-delete", "note-create", "base-create", "canvas-create", "base-rows", "asset-import"])
  {
    RolesMean(entries, family);
    var roles, wanted := Roles(entries, family), LifecycleRoles(family);
    if Plan in roles && Apply in roles && Status in roles && (Recover in roles <==> Recover in wanted) {
      forall r: Role ensures r in roles <==> r in wanted {
        match r case Plan => case Apply => case Status => case Recover =>
      }
    }
  }
}
