/** What a resolved scope means, against a reference that never mentions `Q` composition. */
module Denotation {
  import opened Outcomes
  import opened Values
  import opened Predicates
  import opened Base
  import opened Registry
  import opened Grants
  import opened Resolver

  // ----- the reference meaning

  /** The filter is declared, its params bind, and what it compiles to holds of the row. */
  ghost predicate ConditionHolds(reg: Reg, ctx: Context, c: (string, Params), row: Row, partner: Option<Columns>) {
    && c.0 in reg.conditions
    && Bind(reg.conditions[c.0], c.1).Ok?
    && Eval(reg.conditions[c.0].asQ(ctx, Bind(reg.conditions[c.0], c.1).value), row, partner)
  }

  /** All the grant's conditions hold, of one and the same joined row. */
  ghost predicate Admits(reg: Reg, ctx: Context, g: ObjectGrant, row: Row) {
    exists p :: p in Partners(row) && AllHold(reg, ctx, g.conditions, row, p)
  }

  ghost predicate AllHold(reg: Reg, ctx: Context, cs: seq<(string, Params)>, row: Row, partner: Option<Columns>) {
    forall c | c in cs :: ConditionHolds(reg, ctx, c, row, partner)
  }

  /** Every condition compiles to the empty predicate (trivially so when there is none). */
  ghost predicate Vacuous(reg: Reg, ctx: Context, g: ObjectGrant) {
    forall c | c in g.conditions ::
      c.0 in reg.conditions && Bind(reg.conditions[c.0], c.1).Ok?
      && reg.conditions[c.0].asQ(ctx, Bind(reg.conditions[c.0], c.1).value).Empty?
  }

  /** A condition the resolver refuses to compile. */
  ghost predicate Fails(reg: Reg, spec: KeySpec, c: (string, Params)) {
    || c.0 !in reg.conditions
    || (reg.conditions[c.0].objectKey.Some? && reg.conditions[c.0].objectKey.value != spec.resource)
    || Bind(reg.conditions[c.0], c.1).Err?
  }

  ghost predicate GrantFails(reg: Reg, spec: KeySpec, g: ObjectGrant) {
    exists c :: c in g.conditions && Fails(reg, spec, c)
  }

  ghost predicate MultiValued(reg: Reg, g: ObjectGrant) {
    exists c :: c in g.conditions && c.0 in reg.conditions && reg.conditions[c.0].multiValued
  }

  /** A grant with conditions, all of them empty, listed beside one that really narrows: the one
      mixture for which OR-ing with collapse is not the union. */
  ghost predicate Mixed(reg: Reg, ctx: Context, gs: seq<ObjectGrant>) {
    (exists g :: g in gs && Vacuous(reg, ctx, g)) && (exists g :: g in gs && !Vacuous(reg, ctx, g))
  }

  ghost predicate NoEmptyConjunction(reg: Reg, ctx: Context, gs: seq<ObjectGrant>) {
    forall g | g in gs && g.conditions != [] :: !Vacuous(reg, ctx, g)
  }

  ghost predicate InScope(s: Scope, row: Row) {
    match s
    case Deny => false
    case All => true
    case Filtered(q, _) => Matches(q, row)
  }

  // ----- one grant

  /** A grant compiles to the intersection of its conditions, or fails exactly when one of them does. */
  lemma {:induction false} GrantMeaning(reg: Reg, spec: KeySpec, ctx: Context, g: ObjectGrant)
    ensures CompileGrant(reg, spec, ctx, g.conditions).Err? <==> GrantFails(reg, spec, g)
    ensures !GrantFails(reg, spec, g) ==>
      var r := CompileGrant(reg, spec, ctx, g.conditions).value;
      && (forall row, p :: Eval(r.q, row, p) <==> AllHold(reg, ctx, g.conditions, row, p))
      && (r.q.Empty? <==> Vacuous(reg, ctx, g))
      && (r.distinct <==> MultiValued(reg, g))
    decreases |g.conditions|
  {
    var cs := g.conditions;
    if cs != [] {
      var last := cs[|cs| - 1];
      var init := g.(conditions := cs[..|cs| - 1]);
      assert forall c :: c in cs <==> c in init.conditions || c == last;
      GrantMeaning(reg, spec, ctx, init);
      assert CompileCondition(reg, spec, ctx, last).Err? <==> Fails(reg, spec, last);
      if !GrantFails(reg, spec, g) {
        assert !GrantFails(reg, spec, init);
        GrantStep(reg, spec, ctx, g, init, last);
      }
    }
  }

  lemma GrantStep(reg: Reg, spec: KeySpec, ctx: Context, g: ObjectGrant, init: ObjectGrant, last: (string, Params))
    requires |g.conditions| > 0 && last == g.conditions[|g.conditions| - 1]
    requires init == g.(conditions := g.conditions[..|g.conditions| - 1])
    requires forall c :: c in g.conditions <==> c in init.conditions || c == last
    requires !GrantFails(reg, spec, g) && CompileGrant(reg, spec, ctx, init.conditions).Ok?
    requires var r := CompileGrant(reg, spec, ctx, init.conditions).value;
      && (forall row, p :: Eval(r.q, row, p) <==> AllHold(reg, ctx, init.conditions, row, p))
      && (r.q.Empty? <==> Vacuous(reg, ctx, init))
      && (r.distinct <==> MultiValued(reg, init))
    ensures CompileGrant(reg, spec, ctx, g.conditions).Ok?
    ensures var r := CompileGrant(reg, spec, ctx, g.conditions).value;
      && (forall row, p :: Eval(r.q, row, p) <==> AllHold(reg, ctx, g.conditions, row, p))
      && (r.q.Empty? <==> Vacuous(reg, ctx, g))
      && (r.distinct <==> MultiValued(reg, g))
  {
    assert !Fails(reg, spec, last);
    var a := CompileGrant(reg, spec, ctx, init.conditions).value;
    var b := CompileCondition(reg, spec, ctx, last).value;
    assert CompileGrant(reg, spec, ctx, g.conditions) == Ok(Compiled(Conj(a.q, b.q), a.distinct || b.distinct));
    forall row, p
      ensures Eval(Conj(a.q, b.q), row, p) <==> AllHold(reg, ctx, g.conditions, row, p)
    {
      ConjMeaning(a.q, b.q, row, p);
      assert Eval(b.q, row, p) <==> ConditionHolds(reg, ctx, last, row, p);
    }
  }

  lemma GrantAdmitsRow(reg: Reg, spec: KeySpec, ctx: Context, g: ObjectGrant, row: Row)
    requires !GrantFails(reg, spec, g)
    ensures CompileGrant(reg, spec, ctx, g.conditions).Ok?
    ensures Matches(CompileGrant(reg, spec, ctx, g.conditions).value.q, row) <==> Admits(reg, ctx, g, row)
  {
    GrantMeaning(reg, spec, ctx, g);
    var q := CompileGrant(reg, spec, ctx, g.conditions).value.q;
    forall p ensures Eval(q, row, p) <==> AllHold(reg, ctx, g.conditions, row, p) {
    }
  }

  lemma VacuousAdmits(reg: Reg, ctx: Context, g: ObjectGrant, row: Row)
    requires Vacuous(reg, ctx, g)
    ensures Admits(reg, ctx, g, row)
  {
    assert Partners(row)[0] in Partners(row);
    assert AllHold(reg, ctx, g.conditions, row, Partners(row)[0]);
  }

  // ----- all grants

  /** Which of the three outcomes: everything, an error, or a predicate.  The first grant that is
      either unconditional or broken decides. */
  ghost predicate Decides(reg: Reg, spec: KeySpec, gs: seq<ObjectGrant>, i: nat) {
    i < |gs| && (gs[i].conditions == [] || GrantFails(reg, spec, gs[i]))
    && forall j | 0 <= j < i :: gs[j].conditions != [] && !GrantFails(reg, spec, gs[j])
  }

  ghost predicate Undecided(reg: Reg, spec: KeySpec, gs: seq<ObjectGrant>) {
    forall g | g in gs :: g.conditions != [] && !GrantFails(reg, spec, g)
  }

  lemma {:induction false} OutcomeDecided(reg: Reg, spec: KeySpec, ctx: Context, gs: seq<ObjectGrant>)
    ensures CompileGrants(reg, spec, ctx, gs).Ok? && CompileGrants(reg, spec, ctx, gs).value.Filtered?
      <==> Undecided(reg, spec, gs)
    ensures CompileGrants(reg, spec, ctx, gs) == Ok(All) <==>
      exists i: nat :: Decides(reg, spec, gs, i) && gs[i].conditions == []
    ensures CompileGrants(reg, spec, ctx, gs).Err? <==>
      exists i: nat :: Decides(reg, spec, gs, i) && GrantFails(reg, spec, gs[i])
  {
    if exists i: nat :: Decides(reg, spec, gs, i) {
      var i: nat :| Decides(reg, spec, gs, i);
      var before := gs[..i];
      UndecidedCompiles(reg, spec, ctx, before);
      assert gs[..i + 1][..i] == before;
      GrantMeaning(reg, spec, ctx, gs[i]);
      SettledByPrefix(reg, spec, ctx, gs, i + 1);
      assert forall i': nat | Decides(reg, spec, gs, i') :: i' == i;
      assert gs[i] in gs;
    } else {
      forall g | g in gs
        ensures g.conditions != [] && !GrantFails(reg, spec, g)
      {
        var i :| 0 <= i < |gs| && gs[i] == g;
        NoneBefore(reg, spec, gs, i);
      }
      UndecidedCompiles(reg, spec, ctx, gs);
    }
  }

  lemma {:induction false} NoneBefore(reg: Reg, spec: KeySpec, gs: seq<ObjectGrant>, i: nat)
    requires i < |gs| && forall k: nat :: !Decides(reg, spec, gs, k)
    ensures gs[i].conditions != [] && !GrantFails(reg, spec, gs[i])
  {
    forall j | 0 <= j < i
      ensures gs[j].conditions != [] && !GrantFails(reg, spec, gs[j])
    {
      NoneBefore(reg, spec, gs, j);
    }
    assert !Decides(reg, spec, gs, i);
  }

  lemma {:induction false} UndecidedCompiles(reg: Reg, spec: KeySpec, ctx: Context, gs: seq<ObjectGrant>)
    requires Undecided(reg, spec, gs)
    ensures CompileGrants(reg, spec, ctx, gs).Ok? && CompileGrants(reg, spec, ctx, gs).value.Filtered?
  {
    if gs != [] {
      UndecidedCompiles(reg, spec, ctx, gs[..|gs| - 1]);
      GrantMeaning(reg, spec, ctx, gs[|gs| - 1]);
    }
  }

  /** The compiled disjunction, exactly: a row matches when some grant that really narrows admits it,
      or when no grant narrows at all. */
  lemma {:induction false} FilteredMeaning(reg: Reg, spec: KeySpec, ctx: Context, gs: seq<ObjectGrant>, row: Row)
    requires Undecided(reg, spec, gs)
    ensures CompileGrants(reg, spec, ctx, gs).Ok? && CompileGrants(reg, spec, ctx, gs).value.Filtered?
    ensures var s := CompileGrants(reg, spec, ctx, gs).value;
      && (s.q.Empty? <==> forall g | g in gs :: Vacuous(reg, ctx, g))
      && (Matches(s.q, row) <==> s.q.Empty? || exists g :: g in gs && !Vacuous(reg, ctx, g) && Admits(reg, ctx, g, row))
      && (s.distinct <==> exists g :: g in gs && MultiValued(reg, g))
  {
    UndecidedCompiles(reg, spec, ctx, gs);
    if gs == [] {
      assert Partners(row)[0] in Partners(row);
      assert Eval(Empty, row, Partners(row)[0]);
    } else {
      var init, last := gs[..|gs| - 1], gs[|gs| - 1];
      assert forall g :: g in gs <==> g in init || g == last;
      FilteredMeaning(reg, spec, ctx, init, row);
      GrantMeaning(reg, spec, ctx, last);
      GrantAdmitsRow(reg, spec, ctx, last, row);
      var a := CompileGrants(reg, spec, ctx, init).value;
      var b := CompileGrant(reg, spec, ctx, last.conditions).value;
      DisjMatches(a.q, b.q, row);
      assert CompileGrants(reg, spec, ctx, gs).value == Filtered(Disj(a.q, b.q), a.distinct || b.distinct);
    }
  }

  lemma DisjMatches(a: Q, b: Q, row: Row)
    ensures Disj(a, b).Empty? <==> a.Empty? && b.Empty?
    ensures Matches(Empty, row)
    ensures Matches(Disj(a, b), row) <==>
      (a.Empty? && b.Empty?) || (!a.Empty? && Matches(a, row)) || (!b.Empty? && Matches(b, row))
  {
    assert Partners(row)[0] in Partners(row);
    assert Eval(Empty, row, Partners(row)[0]);
    if !a.Empty? && !b.Empty? {
      forall p ensures Eval(Or(a, b), row, p) <==> Eval(a, row, p) || Eval(b, row, p) {
      }
    }
  }

  /** When the scope is the union over grants of the intersections of their conditions: for every row
      but those of a mixture that no narrowing grant admits. */
  lemma UnionExact(reg: Reg, spec: KeySpec, ctx: Context, gs: seq<ObjectGrant>, row: Row)
    requires gs != [] && Undecided(reg, spec, gs)
    ensures CompileGrants(reg, spec, ctx, gs).Ok?
    ensures (InScope(CompileGrants(reg, spec, ctx, gs).value, row) <==> exists g :: g in gs && Admits(reg, ctx, g, row))
      <==> !(Mixed(reg, ctx, gs) && forall g | g in gs && !Vacuous(reg, ctx, g) :: !Admits(reg, ctx, g, row))
  {
    FilteredMeaning(reg, spec, ctx, gs, row);
    forall g | g in gs && Vacuous(reg, ctx, g)
      ensures Admits(reg, ctx, g, row)
    {
      VacuousAdmits(reg, ctx, g, row);
    }
    assert gs[0] in gs;
  }

  /** Two filters: one that compiles to nothing, one no row passes. */
  ghost function TwoFilters(): map<string, ConditionSpec> {
    map["open" := ConditionSpec("open", (c, ps) => Empty, map[], false, None, ""),
        "none" := ConditionSpec("none", (c, ps) => Column(r => false), map[], false, None, "")]
  }

  ghost function OpenGrant(): ObjectGrant { ObjectGrant("a", "w.view", [("open", map[])]) }

  ghost function ClosedGrant(): ObjectGrant { ObjectGrant("b", "w.view", [("none", map[])]) }

  lemma TwoGrants(reg: Reg, spec: KeySpec, ctx: Context, row: Row)
    requires reg.conditions == TwoFilters()
    ensures !GrantFails(reg, spec, OpenGrant()) && !GrantFails(reg, spec, ClosedGrant())
    ensures Vacuous(reg, ctx, OpenGrant()) && Admits(reg, ctx, OpenGrant(), row)
    ensures !Vacuous(reg, ctx, ClosedGrant()) && !Admits(reg, ctx, ClosedGrant(), row)
  {
    assert ("none", map[]) in ClosedGrant().conditions;
    assert Vacuous(reg, ctx, OpenGrant());
    VacuousAdmits(reg, ctx, OpenGrant(), row);
    forall p ensures !AllHold(reg, ctx, ClosedGrant().conditions, row, p) {
      assert !ConditionHolds(reg, ctx, ("none", map[]), row, p);
    }
  }

  /** The mixture at its worst: the first grant admits every row, the resolved scope admits none. */
  lemma MixtureNarrows(reg: Reg, spec: KeySpec, ctx: Context, row: Row)
    requires reg.conditions == TwoFilters()
    ensures Admits(reg, ctx, OpenGrant(), row)
    ensures CompileGrants(reg, spec, ctx, [OpenGrant(), ClosedGrant()]).Ok?
    ensures !InScope(CompileGrants(reg, spec, ctx, [OpenGrant(), ClosedGrant()]).value, row)
  {
    TwoGrants(reg, spec, ctx, row);
    hide Vacuous, Admits, GrantFails, CompileGrants, TwoFilters;
    var gs := [OpenGrant(), ClosedGrant()];
    assert OpenGrant() in gs && ClosedGrant() in gs;
    FilteredMeaning(reg, spec, ctx, gs, row);
  }

  // ----- the whole resolution

  /** The endpoint tier lets this non-superuser through. */
  ghost predicate Reaches(p: Policy, user: User, key: string) {
    p.principals(user) != [] && p.store.endpoint(p.principals(user), key)
  }

  ghost function GrantsFor(p: Policy, user: User, key: string): seq<ObjectGrant> {
    p.store.objects(p.principals(user), key)
  }

  /** The exits of the resolution, in their order. */
  lemma ScopeByCases(p: Policy, user: User, key: string)
    ensures Lookup(p.reg, key).Err? ==> ScopeOf(p, user, key) == Err(Lookup(p.reg, key).error)
    ensures var looked, gs := Lookup(p.reg, key), GrantsFor(p, user, key);
      looked.Ok? ==>
        (ScopeOf(p, user, key) ==
         if Bypasses(p, user) then Ok(All)
         else if !Reaches(p, user, key) || gs == [] then Ok(Deny)
         else CompileGrants(p.reg, looked.value, p.contextOf(user), gs))
  {
    hide CompileGrants, Lookup, Bypasses;
  }

  /** Who bypasses: a superuser, and only where the policy lets superusers.  They reach every resolving key and
      every row; nobody else reaches anything without a role, the endpoint and a grant. */
  lemma BypassExactly(p: Policy, user: User, key: string)
    requires Lookup(p.reg, key).Ok?
    ensures p.superuserBypass && user.superuser ==>
      CheckEndpoint(p, user, key) == Ok(true) && ScopeOf(p, user, key) == Ok(All)
    ensures !p.superuserBypass || !user.superuser ==>
      var roles := p.principals(user);
      && CheckEndpoint(p, user, key) == Ok(roles != [] && p.store.endpoint(roles, key))
      && (ScopeOf(p, user, key) == Ok(Deny) <==>
            roles == [] || !p.store.endpoint(roles, key) || p.store.objects(roles, key) == [])
      && (ScopeOf(p, user, key) != Ok(Deny) ==>
            ScopeOf(p, user, key) ==
            CompileGrants(p.reg, Lookup(p.reg, key).value, p.contextOf(user), p.store.objects(roles, key)))
  {
    hide Lookup, CompileGrants;
  }

  /** No grant for this key is broken. */
  ghost predicate Sound(p: Policy, user: User, key: string) {
    Lookup(p.reg, key).Ok? && forall g | g in GrantsFor(p, user, key) :: !GrantFails(p.reg, Lookup(p.reg, key).value, g)
  }

  /** The main statement about a scope: with no broken grant and no empty conjunction, a row is in scope
      exactly when the user bypasses, or reaches the endpoint and some grant admits the row.  No grant
      means no row; an unconditional one means every row. */
  lemma ScopeDenotes(p: Policy, user: User, key: string, row: Row)
    requires Sound(p, user, key)
    requires NoEmptyConjunction(p.reg, p.contextOf(user), GrantsFor(p, user, key))
    ensures ScopeOf(p, user, key).Ok?
    ensures InScope(ScopeOf(p, user, key).value, row) <==>
      Bypasses(p, user)
      || (Reaches(p, user, key) && exists g :: g in GrantsFor(p, user, key) && Admits(p.reg, p.contextOf(user), g, row))
  {
    if !Bypasses(p, user) && Reaches(p, user, key) {
      var reg, spec, ctx, gs := p.reg, Lookup(p.reg, key).value, p.contextOf(user), GrantsFor(p, user, key);
      if gs != [] {
        if Undecided(reg, spec, gs) {
          UnionExact(reg, spec, ctx, gs, row);
        } else {
          var g :| g in gs && g.conditions == [];
          VacuousAdmits(reg, ctx, g, row);
          OutcomeDecided(reg, spec, ctx, gs);
        }
      }
    }
  }

  /** The order in which a store lists unbroken grants changes neither the kind of scope, nor its rows,
      nor whether it needs `distinct`. */
  lemma OrderIrrelevant(reg: Reg, spec: KeySpec, ctx: Context, gs: seq<ObjectGrant>, hs: seq<ObjectGrant>, row: Row)
    requires forall g :: g in gs <==> g in hs
    requires forall g | g in gs :: !GrantFails(reg, spec, g)
    ensures CompileGrants(reg, spec, ctx, gs).Ok? && CompileGrants(reg, spec, ctx, hs).Ok?
    ensures var s, t := CompileGrants(reg, spec, ctx, gs).value, CompileGrants(reg, spec, ctx, hs).value;
      && (s.All? <==> t.All?)
      && (InScope(s, row) <==> InScope(t, row))
      && (s.Filtered? ==> s.distinct == t.distinct)
  {
    OutcomeDecided(reg, spec, ctx, gs);
    OutcomeDecided(reg, spec, ctx, hs);
    assert forall i: nat | Decides(reg, spec, gs, i) :: gs[i] in gs;
    assert forall i: nat | Decides(reg, spec, hs, i) :: hs[i] in hs;
    if Undecided(reg, spec, gs) {
      assert Undecided(reg, spec, hs);
      FilteredMeaning(reg, spec, ctx, gs, row);
      FilteredMeaning(reg, spec, ctx, hs, row);
    } else {
      assert !Undecided(reg, spec, hs);
    }
  }
}
