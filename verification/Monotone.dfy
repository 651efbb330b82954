/** Composing more can only widen access, and narrowing a rule can only narrow it, up to empty conjunctions. */
module Monotone {
  import opened Outcomes
  import opened Values
  import opened Predicates
  import opened Base
  import opened Registry
  import opened Grants
  import opened Resolver
  import opened Denotation
  import opened Listing
  import opened Tables
  import opened DatabaseStore
  import opened Validation
  import opened Views
  import opened SpecFile
  import opened SpecProperties

  // ----- grant lists

  /** Whenever the grants compile at all and none is an empty conjunction, the scope is their union. */
  lemma OkDenotes(reg: Reg, spec: KeySpec, ctx: Context, gs: seq<ObjectGrant>, row: Row)
    requires gs != [] && CompileGrants(reg, spec, ctx, gs).Ok? && NoEmptyConjunction(reg, ctx, gs)
    ensures InScope(CompileGrants(reg, spec, ctx, gs).value, row) <==> exists g :: g in gs && Admits(reg, ctx, g, row)
  {
    OutcomeDecided(reg, spec, ctx, gs);
    if Undecided(reg, spec, gs) {
      UnionExact(reg, spec, ctx, gs, row);
    } else {
      var i: nat :| Decides(reg, spec, gs, i) && gs[i].conditions == [];
      VacuousAdmits(reg, ctx, gs[i], row);
      assert gs[i] in gs;
    }
  }

  ghost predicate AllVacuous(reg: Reg, ctx: Context, gs: seq<ObjectGrant>) {
    forall g | g in gs :: Vacuous(reg, ctx, g)
  }

  /** Nothing in the longer list opens everything, something in it narrows, and nothing that narrows admits
      the row. */
  ghost predicate Shuts(reg: Reg, ctx: Context, hs: seq<ObjectGrant>, row: Row) {
    && (forall h | h in hs :: h.conditions != [])
    && !AllVacuous(reg, ctx, hs)
    && forall h | h in hs && !Vacuous(reg, ctx, h) :: !Admits(reg, ctx, h, row)
  }

  /** More grants keep a row exactly unless the fewer were all empty conjunctions and the more shut it out. */
  lemma MoreGrants(reg: Reg, spec: KeySpec, ctx: Context, gs: seq<ObjectGrant>, hs: seq<ObjectGrant>, row: Row)
    requires gs != [] && forall g | g in gs :: g in hs
    requires CompileGrants(reg, spec, ctx, gs).Ok? && CompileGrants(reg, spec, ctx, hs).Ok?
    ensures var s, t := CompileGrants(reg, spec, ctx, gs).value, CompileGrants(reg, spec, ctx, hs).value;
      (InScope(s, row) ==> InScope(t, row)) <==> !(AllVacuous(reg, ctx, gs) && Shuts(reg, ctx, hs, row))
  {
    OutcomeDecided(reg, spec, ctx, gs);
    OutcomeDecided(reg, spec, ctx, hs);
    assert gs[0] in gs;
    hide CompileGrants, GrantFails, Vacuous, Admits;
    if !Undecided(reg, spec, hs) {
      var i: nat :| Decides(reg, spec, hs, i) && hs[i].conditions == [];
      assert hs[i] in hs;
    } else {
      FilteredMeaning(reg, spec, ctx, gs, row);
      FilteredMeaning(reg, spec, ctx, hs, row);
    }
  }

  /** A new rule beside an empty one takes every row away. */
  lemma MoreGrantsMayRemove(reg: Reg, spec: KeySpec, ctx: Context, row: Row)
    requires reg.conditions == TwoFilters()
    ensures CompileGrants(reg, spec, ctx, [OpenGrant()]).Ok? &&
      CompileGrants(reg, spec, ctx, [OpenGrant(), ClosedGrant()]).Ok?
    ensures InScope(CompileGrants(reg, spec, ctx, [OpenGrant()]).value, row)
    ensures !InScope(CompileGrants(reg, spec, ctx, [OpenGrant(), ClosedGrant()]).value, row)
  {
    MixtureNarrows(reg, spec, ctx, row);
    TwoGrants(reg, spec, ctx, row);
    hide Vacuous, Admits, GrantFails, CompileGrants, TwoFilters;
    FilteredMeaning(reg, spec, ctx, [OpenGrant()], row);
  }

  /** Each grant of the second list has the conditions of the one it stands for, and perhaps more. */
  ghost predicate Tightens(gs: seq<ObjectGrant>, hs: seq<ObjectGrant>) {
    |gs| == |hs| && forall i | 0 <= i < |gs| :: Weaker(gs[i], hs[i])
  }

  ghost predicate Weaker(g: ObjectGrant, h: ObjectGrant) {
    forall c | c in g.conditions :: c in h.conditions
  }

  lemma WeakerMeans(reg: Reg, ctx: Context, g: ObjectGrant, h: ObjectGrant, row: Row)
    requires Weaker(g, h)
    ensures h.conditions == [] ==> g.conditions == []
    ensures Vacuous(reg, ctx, h) ==> Vacuous(reg, ctx, g)
    ensures Admits(reg, ctx, h, row) ==> Admits(reg, ctx, g, row)
  {
    if g.conditions != [] {
      assert g.conditions[0] in h.conditions;
    }
  }

  /** A grant that was an empty conjunction narrows now, and lets the row through. */
  ghost predicate Opened(reg: Reg, ctx: Context, g: ObjectGrant, h: ObjectGrant, row: Row) {
    Vacuous(reg, ctx, g) && !Vacuous(reg, ctx, h) && Admits(reg, ctx, h, row)
  }

  /** Further conditions add no row exactly unless the row was shut out by a mixture and one of the empty
      conjunctions in it now narrows and admits it. */
  lemma MoreConditions(reg: Reg, spec: KeySpec, ctx: Context, gs: seq<ObjectGrant>, hs: seq<ObjectGrant>, row: Row)
    requires gs != [] && Tightens(gs, hs)
    requires CompileGrants(reg, spec, ctx, gs).Ok? && CompileGrants(reg, spec, ctx, hs).Ok?
    ensures var s, t := CompileGrants(reg, spec, ctx, gs).value, CompileGrants(reg, spec, ctx, hs).value;
      (InScope(t, row) ==> InScope(s, row)) <==>
        !(Shuts(reg, ctx, gs, row) && exists i :: 0 <= i < |gs| && Opened(reg, ctx, gs[i], hs[i], row))
  {
    ScopeShuts(reg, spec, ctx, gs, row);
    ScopeShuts(reg, spec, ctx, hs, row);
    hide CompileGrants, InScope, Opened, Tightens, Shuts;
    if Shuts(reg, ctx, gs, row) {
      ShutStays(reg, ctx, gs, hs, row);
    }
  }

  /** A resolved scope lacks a row exactly when its grants shut it out. */
  lemma ScopeShuts(reg: Reg, spec: KeySpec, ctx: Context, gs: seq<ObjectGrant>, row: Row)
    requires gs != [] && CompileGrants(reg, spec, ctx, gs).Ok?
    ensures !InScope(CompileGrants(reg, spec, ctx, gs).value, row) <==> Shuts(reg, ctx, gs, row)
  {
    OutcomeDecided(reg, spec, ctx, gs);
    hide CompileGrants, GrantFails, Vacuous, Admits;
    if Undecided(reg, spec, gs) {
      FilteredMeaning(reg, spec, ctx, gs, row);
    } else {
      var i: nat :| Decides(reg, spec, gs, i) && gs[i].conditions == [];
      assert gs[i] in gs;
    }
  }

  /** What was shut out stays so exactly unless one of the empty conjunctions now narrows and admits the row. */
  lemma ShutStays(reg: Reg, ctx: Context, gs: seq<ObjectGrant>, hs: seq<ObjectGrant>, row: Row)
    requires Tightens(gs, hs) && Shuts(reg, ctx, gs, row)
    ensures Shuts(reg, ctx, hs, row) <==> !exists i :: 0 <= i < |gs| && Opened(reg, ctx, gs[i], hs[i], row)
  {
    forall i | 0 <= i < |gs|
      ensures hs[i].conditions != [] && (Vacuous(reg, ctx, hs[i]) ==> Vacuous(reg, ctx, gs[i]))
      ensures Opened(reg, ctx, gs[i], hs[i], row) <==> !Vacuous(reg, ctx, hs[i]) && Admits(reg, ctx, hs[i], row)
    {
      assert gs[i] in gs;
      hide Vacuous, Admits;
      WeakerMeans(reg, ctx, gs[i], hs[i], row);
    }
    hide Vacuous, Admits, Opened, Tightens;
    assert |gs| == |hs|;
    var g :| g in gs && !Vacuous(reg, ctx, g);
    var i :| 0 <= i < |gs| && gs[i] == g;
    assert hs[i] in hs && !Vacuous(reg, ctx, hs[i]);
    if k :| 0 <= k < |gs| && Opened(reg, ctx, gs[k], hs[k], row) {
      assert hs[k] in hs;
    }
  }

  ghost predicate Narrows(p: Policy, user: User, key: string) {
    NoEmptyConjunction(p.reg, p.contextOf(user), GrantsFor(p, user, key))
  }

  // ----- a condition that adds rows, concretely

  ghost function ThreeFilters(): map<string, ConditionSpec> {
    TwoFilters()["every" := ConditionSpec("every", (c, ps) => Column(r => true), map[], false, None, "")]
  }

  ghost function ReopenedGrant(): ObjectGrant { ObjectGrant("a", "w.view", [("open", map[]), ("every", map[])]) }

  lemma ThreeGrants(reg: Reg, spec: KeySpec, ctx: Context, row: Row)
    requires reg.conditions == ThreeFilters()
    ensures forall g | g in [OpenGrant(), ClosedGrant(), ReopenedGrant()] ::
      g.conditions != [] && !GrantFails(reg, spec, g)
    ensures Vacuous(reg, ctx, OpenGrant())
    ensures !Vacuous(reg, ctx, ClosedGrant()) && !Admits(reg, ctx, ClosedGrant(), row)
    ensures !Vacuous(reg, ctx, ReopenedGrant()) && Admits(reg, ctx, ReopenedGrant(), row)
  {
    assert ("none", map[]) in ClosedGrant().conditions && ("every", map[]) in ReopenedGrant().conditions;
    var p := Partners(row)[0];
    assert p in Partners(row);
    assert ConditionHolds(reg, ctx, ("open", map[]), row, p) && ConditionHolds(reg, ctx, ("every", map[]), row, p);
    assert AllHold(reg, ctx, ReopenedGrant().conditions, row, p);
    forall p ensures !AllHold(reg, ctx, ClosedGrant().conditions, row, p) {
      assert !ConditionHolds(reg, ctx, ("none", map[]), row, p);
    }
  }

  /** An empty rule beside one that admits nothing shuts every row out; a condition every row meets, added to the
      empty rule, lets every row in. */
  lemma MoreConditionsMayAdd(reg: Reg, spec: KeySpec, ctx: Context, row: Row)
    requires reg.conditions == ThreeFilters()
    ensures var gs, hs := [OpenGrant(), ClosedGrant()], [ReopenedGrant(), ClosedGrant()];
      && Tightens(gs, hs)
      && CompileGrants(reg, spec, ctx, gs).Ok? && CompileGrants(reg, spec, ctx, hs).Ok?
      && !InScope(CompileGrants(reg, spec, ctx, gs).value, row)
      && InScope(CompileGrants(reg, spec, ctx, hs).value, row)
  {
    var gs, hs := [OpenGrant(), ClosedGrant()], [ReopenedGrant(), ClosedGrant()];
    assert OpenGrant().conditions[0] in ReopenedGrant().conditions;
    assert Tightens(gs, hs);
    ThreeGrants(reg, spec, ctx, row);
    hide Vacuous, Admits, GrantFails, CompileGrants, ThreeFilters, OpenGrant, ClosedGrant, ReopenedGrant;
    assert OpenGrant() in gs && ClosedGrant() in gs && ReopenedGrant() in hs;
    assert Undecided(reg, spec, gs) && Undecided(reg, spec, hs);
    assert Shuts(reg, ctx, gs, row) && !Shuts(reg, ctx, hs, row);
    OutcomeDecided(reg, spec, ctx, gs);
    OutcomeDecided(reg, spec, ctx, hs);
    ScopeShuts(reg, spec, ctx, gs, row);
    ScopeShuts(reg, spec, ctx, hs, row);
  }

  // ----- tables

  /** What these roles hold is all still there, and they may hold more. */
  ghost predicate Grows(c: Composition, c': Composition, roles: seq<string>) {
    && Held(c, roles) <= Held(c', roles)
    && forall q | q in Held(c, roles) ::
      EndpointsOf(c, q) <= EndpointsOf(c', q) && DocsKept(RulesOf(c, q), RulesOf(c', q))
  }

  ghost predicate DocsKept(d: map<nat, RuleDoc>, d': map<nat, RuleDoc>) {
    forall r | r in d :: r in d' && d'[r] == d[r]
  }

  lemma SameDocSameGrant(cat: Catalogue, c: Composition, c': Composition, key: string, r: nat)
    requires r in c.rules && r in c'.rules && DocOf(c, r) == DocOf(c', r) &&
      c.rules[r].permission == c'.rules[r].permission
    ensures RuleGrant(cat, c', key, r) == RuleGrant(cat, c, key, r)
  {
    SameFilters(cat, c, c', r);
    var fs, cs, cs' := Listed(ConditionFilters(cat, c, r)), ConditionsOf(cat, c, r), ConditionsOf(cat, c', r);
    forall i | 0 <= i < |fs|
      ensures cs[i] == cs'[i]
    {
      assert fs[i] in ConditionFilters(cat, c, r);
      InConditions(c, r, fs[i]);
      InConditions(c', r, fs[i]);
    }
    assert cs == cs';
  }

  lemma SameFilters(cat: Catalogue, c: Composition, c': Composition, r: nat)
    requires ConditionsIn(c, r) == ConditionsIn(c', r)
    ensures ConditionFilters(cat, c, r) == ConditionFilters(cat, c', r)
  {
    forall f
      ensures f in ConditionFilters(cat, c, r) <==> f in ConditionFilters(cat, c', r)
    {
      InConditions(c, r, f);
      InConditions(c', r, f);
      assert (r, f).1 == f;
    }
  }

  /** The store answers at least as much. */
  lemma GrowingStore(cat: Catalogue, c: Composition, c': Composition, roles: seq<string>, key: string)
    requires Grows(c, c', roles)
    ensures HasEndpointGrant(cat, c, roles, key) ==> HasEndpointGrant(cat, c', roles, key)
    ensures forall g | g in ObjectGrants(cat, c, roles, key) :: g in ObjectGrants(cat, c', roles, key)
  {
    if HasEndpointGrant(cat, c, roles, key) {
      var e :| e in c.endpoints && e.0 in Held(c, roles) && e.1 in cat.endpoints && cat.endpoints[e.1].cols.key == key;
      assert e.1 in EndpointsOf(c, e.0);
      assert e.1 in EndpointsOf(c', e.0);
      var x :| x in c'.endpoints && x.0 == e.0 && x.1 == e.1;
    }
    hide ObjectGrants, RuleGrant, Held;
    forall g | g in ObjectGrants(cat, c, roles, key)
      ensures g in ObjectGrants(cat, c', roles, key)
    {
      GrantMembers(cat, c, roles, key, g);
      var r :| r in RulesFor(cat, c, roles, key) && g == RuleGrant(cat, c, key, r);
      assert r in RulesOf(c, c.rules[r].permission);
      assert RulesOf(c', c.rules[r].permission)[r] == DocOf(c', r);
      SameDocSameGrant(cat, c, c', key, r);
      GrantMembers(cat, c', roles, key, g);
    }
  }

  /** What a policy that reads these tables is told. */
  lemma ReadsAre(cat: Catalogue, c: Composition, p: Policy, user: User, key: string)
    requires ReadsFrom(p, cat, c)
    ensures GrantsFor(p, user, key) == ObjectGrants(cat, c, p.principals(user), key)
    ensures Reaches(p, user, key) <==> p.principals(user) != [] && HasEndpointGrant(cat, c, p.principals(user), key)
  {
    hide Lookup, ObjectGrants, HasEndpointGrant;
    assert p.store.endpoint(p.principals(user), key) == HasEndpointGrant(cat, c, p.principals(user), key);
  }

  /** Growth takes a row away exactly when all a user had for the key were empty conjunctions, and what was added
      shuts the row out. */
  lemma GrowthExactly(cat: Catalogue, c: Composition, c': Composition, p: Policy, q: Policy, user: User, key: string,
                      row: Row)
    requires q == p.(store := q.store) && ReadsFrom(p, cat, c) && ReadsFrom(q, cat, c')
    requires Grows(c, c', p.principals(user)) && !Bypasses(p, user)
    requires ScopeOf(p, user, key).Ok? && ScopeOf(q, user, key).Ok?
    ensures var reg, ctx, gs, hs := p.reg, p.contextOf(user), GrantsFor(p, user, key), GrantsFor(q, user, key);
      (InScope(ScopeOf(p, user, key).value, row) ==> InScope(ScopeOf(q, user, key).value, row)) <==>
        !(Reaches(p, user, key) && gs != [] && AllVacuous(reg, ctx, gs) && Shuts(reg, ctx, hs, row))
  {
    var roles, gs, hs := p.principals(user), GrantsFor(p, user, key), GrantsFor(q, user, key);
    GrowingStore(cat, c, c', roles, key);
    ReadsAre(cat, c, p, user, key);
    ReadsAre(cat, c', q, user, key);
    ScopeByCases(p, user, key);
    ScopeByCases(q, user, key);
    hide ObjectGrants, HasEndpointGrant, ScopeOf, Grows, ReadsFrom, AllVacuous, Shuts, CompileGrants, Lookup, GrantsFor,
      Reaches;
    if Reaches(p, user, key) && gs != [] {
      assert gs[0] in hs;
      MoreGrants(p.reg, Lookup(p.reg, key).value, p.contextOf(user), gs, hs, row);
    }
  }

  /** So it never takes a row away from a user who held no empty conjunction. */
  lemma GrowthWidens(cat: Catalogue, c: Composition, c': Composition, p: Policy, q: Policy, user: User, key: string,
                     row: Row)
    requires q == p.(store := q.store) && ReadsFrom(p, cat, c) && ReadsFrom(q, cat, c')
    requires Grows(c, c', p.principals(user))
    requires ScopeOf(p, user, key).Ok? && ScopeOf(q, user, key).Ok? && Narrows(p, user, key)
    ensures InScope(ScopeOf(p, user, key).value, row) ==> InScope(ScopeOf(q, user, key).value, row)
  {
    if !Bypasses(p, user) {
      GrowthExactly(cat, c, c', p, q, user, key, row);
      ReadsAre(cat, c, p, user, key);
      ReadsAre(cat, c', q, user, key);
      GrowingStore(cat, c, c', p.principals(user), key);
      hide ObjectGrants, HasEndpointGrant, ScopeOf, InScope, Grows, ReadsFrom, Vacuous, CompileGrants, Lookup;
      var gs := GrantsFor(p, user, key);
      if gs != [] {
        assert gs[0] in gs;
      }
    }
  }

  /** Adding a role, a permission, a binding, an endpoint or a rule, conditions and all, is growth. */
  lemma AdditionsGrow(c: Composition, c': Composition, roles: seq<string>)
    requires c.bindings <= c'.bindings && c.endpoints <= c'.endpoints
    requires forall r | r in c.rules :: r in c'.rules && c'.rules[r] == c.rules[r]
    requires forall x: (nat, nat) | x.0 in c.rules ::
      (x in c.conditions <==> x in c'.conditions) && (x in c.conditions ==> c'.conditions[x] == c.conditions[x])
    ensures Grows(c, c', roles)
  {
    forall r | r in c.rules
      ensures DocOf(c', r) == DocOf(c, r)
    {
      assert ConditionsIn(c', r) == ConditionsIn(c, r);
    }
    hide DocOf;
    forall q | q in Held(c, roles)
      ensures EndpointsOf(c, q) <= EndpointsOf(c', q) && DocsKept(RulesOf(c, q), RulesOf(c', q))
    {
    }
  }

  // ----- conditions

  /** Conditions added to existing rules, and nothing else. */
  ghost predicate Tightened(c: Composition, c': Composition) {
    && c' == c.(conditions := c'.conditions)
    && forall x | x in c.conditions :: x in c'.conditions && c'.conditions[x] == c.conditions[x]
  }

  lemma TighterRule(cat: Catalogue, c: Composition, c': Composition, key: string, r: nat)
    requires Tightened(c, c') && r in c.rules
    ensures Weaker(RuleGrant(cat, c, key, r), RuleGrant(cat, c', key, r))
  {
    var g, g' := RuleGrant(cat, c, key, r), RuleGrant(cat, c', key, r);
    forall x | x in g.conditions
      ensures x in g'.conditions
    {
      ConditionMembers(cat, c, r, x);
      var f :| (r, f) in c.conditions && f in cat.filters && x == ConditionOf(cat, c, r, f);
      assert x == ConditionOf(cat, c', r, f);
      ConditionMembers(cat, c', r, x);
    }
  }

  /** The store lists the rules it listed, each with its conditions and perhaps more. */
  lemma TighterStore(cat: Catalogue, c: Composition, c': Composition, roles: seq<string>, key: string)
    requires Tightened(c, c')
    ensures HasEndpointGrant(cat, c, roles, key) <==> HasEndpointGrant(cat, c', roles, key)
    ensures Tightens(ObjectGrants(cat, c, roles, key), ObjectGrants(cat, c', roles, key))
  {
    assert RulesFor(cat, c, roles, key) == RulesFor(cat, c', roles, key);
    var rs := Listed(RulesFor(cat, c, roles, key));
    var gs, hs := ObjectGrants(cat, c, roles, key), ObjectGrants(cat, c', roles, key);
    forall i | 0 <= i < |rs|
      ensures Weaker(gs[i], hs[i])
    {
      assert rs[i] in RulesFor(cat, c, roles, key);
      TighterRule(cat, c, c', key, rs[i]);
    }
  }

  /** Conditions added to rules add a row exactly when a mixture shut it out and one of the empty conjunctions in
      it now narrows and admits it. */
  lemma TighteningExactly(cat: Catalogue, c: Composition, c': Composition, p: Policy, q: Policy, user: User,
                          key: string, row: Row)
    requires q == p.(store := q.store) && ReadsFrom(p, cat, c) && ReadsFrom(q, cat, c')
    requires Tightened(c, c') && !Bypasses(p, user)
    requires ScopeOf(p, user, key).Ok? && ScopeOf(q, user, key).Ok?
    ensures var reg, ctx, gs, hs := p.reg, p.contextOf(user), GrantsFor(p, user, key), GrantsFor(q, user, key);
      && |gs| == |hs|
      && ((InScope(ScopeOf(q, user, key).value, row) ==> InScope(ScopeOf(p, user, key).value, row)) <==>
            !(Reaches(p, user, key) && Shuts(reg, ctx, gs, row) &&
              exists i :: 0 <= i < |gs| && Opened(reg, ctx, gs[i], hs[i], row)))
  {
    var gs, hs := GrantsFor(p, user, key), GrantsFor(q, user, key);
    TighterStore(cat, c, c', p.principals(user), key);
    ReadsAre(cat, c, p, user, key);
    ReadsAre(cat, c', q, user, key);
    ScopeByCases(p, user, key);
    ScopeByCases(q, user, key);
    hide ObjectGrants, HasEndpointGrant, ScopeOf, ReadsFrom, Shuts, CompileGrants, Lookup, GrantsFor, Reaches, Weaker,
      Opened, Tightened;
    if Reaches(p, user, key) && gs != [] {
      MoreConditions(p.reg, Lookup(p.reg, key).value, p.contextOf(user), gs, hs, row);
    }
  }

  /** So it adds none for a user who held no empty conjunction. */
  lemma ConditionsNarrow(cat: Catalogue, c: Composition, c': Composition, p: Policy, q: Policy, user: User, key: string,
                         row: Row)
    requires q == p.(store := q.store) && ReadsFrom(p, cat, c) && ReadsFrom(q, cat, c')
    requires Tightened(c, c')
    requires ScopeOf(p, user, key).Ok? && ScopeOf(q, user, key).Ok? && Narrows(p, user, key)
    ensures InScope(ScopeOf(q, user, key).value, row) ==> InScope(ScopeOf(p, user, key).value, row)
  {
    if !Bypasses(p, user) {
      TighteningExactly(cat, c, c', p, q, user, key, row);
      hide ScopeOf, InScope, ReadsFrom, Tightened, Vacuous, Admits, GrantsFor;
      var gs := GrantsFor(p, user, key);
      assert forall i | 0 <= i < |gs| :: gs[i] in gs;
    }
  }

  // ----- a deploy

  /** Applying a file takes nothing from a user none of whose permissions it names. */
  lemma DeployNeverRevokes(cat: Catalogue, c0: Composition, c1: Composition, file: File, lo: nat, p: Policy, q: Policy,
                           user: User, key: string, row: Row)
    requires Applied(cat, c0, c1, file, lo)
    requires forall x | x in Held(c0, p.principals(user)) :: !Names(file, x)
    requires q == p.(store := q.store) && ReadsFrom(p, cat, c0) && ReadsFrom(q, cat, c1)
    requires ScopeOf(p, user, key).Ok? && ScopeOf(q, user, key).Ok? && Narrows(p, user, key)
    ensures InScope(ScopeOf(p, user, key).value, row) ==> InScope(ScopeOf(q, user, key).value, row)
  {
    DeployGrows(cat, c0, c1, file, lo, p.principals(user));
    hide Applied, Grows, ScopeOf, InScope, ReadsFrom;
    GrowthWidens(cat, c0, c1, p, q, user, key, row);
  }

  lemma DeployGrows(cat: Catalogue, c0: Composition, c1: Composition, file: File, lo: nat, roles: seq<string>)
    requires Applied(cat, c0, c1, file, lo)
    requires forall x | x in Held(c0, roles) :: !Names(file, x)
    ensures Grows(c0, c1, roles)
  {
    BindingsOnlyAdded(cat, c0, c1, file, lo);
    hide PermissionApplied, Linked, RolesAfter, FilePairs;
    forall x | x in Held(c0, roles)
      ensures EndpointsOf(c0, x) <= EndpointsOf(c1, x) && DocsKept(RulesOf(c0, x), RulesOf(c1, x))
    {
      assert SamePermission(c0, c1, x);
    }
  }
}
