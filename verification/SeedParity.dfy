/** Both stores answer alike once a fixture has been seeded. */
module SeedParity {
  import opened Keys
  import opened Values
  import opened Base
  import opened Registry
  import opened Grants
  import opened Resolver
  import opened Denotation
  import opened Upserting
  import opened Tables
  import opened DatabaseStore
  import opened Validation
  import opened SpecFile
  import opened MemoryStores
  import opened Seeding
  import opened Sorting
  import Writes

  // ----- grant lists that say the same

  ghost predicate SameConditions(g: ObjectGrant, h: ObjectGrant) {
    forall c :: c in g.conditions <==> c in h.conditions
  }

  ghost predicate Matched(gs: seq<ObjectGrant>, hs: seq<ObjectGrant>) {
    forall g | g in gs :: exists h :: h in hs && SameConditions(g, h)
  }

  ghost predicate HasOpen(gs: seq<ObjectGrant>) {
    exists g :: g in gs && g.conditions == []
  }

  ghost predicate HasBroken(reg: Reg, spec: KeySpec, gs: seq<ObjectGrant>) {
    exists g :: g in gs && GrantFails(reg, spec, g)
  }

  ghost predicate HasNarrow(reg: Reg, ctx: Context, gs: seq<ObjectGrant>) {
    exists g :: g in gs && !Vacuous(reg, ctx, g)
  }

  ghost predicate HasAdmitting(reg: Reg, ctx: Context, gs: seq<ObjectGrant>, row: Row) {
    exists g :: g in gs && !Vacuous(reg, ctx, g) && Admits(reg, ctx, g, row)
  }

  /** All that a compiled scope depends on. */
  lemma ScopeSummary(reg: Reg, spec: KeySpec, ctx: Context, gs: seq<ObjectGrant>, row: Row)
    ensures var s := CompileGrants(reg, spec, ctx, gs);
      && (!HasBroken(reg, spec, gs) ==> s.Ok?)
      && (!HasOpen(gs) ==> (s.Ok? <==> !HasBroken(reg, spec, gs)))
      && (s.Ok? ==>
        (InScope(s.value, row) <==> HasOpen(gs) || !HasNarrow(reg, ctx, gs) || HasAdmitting(reg, ctx, gs, row)))
  {
    OutcomeDecided(reg, spec, ctx, gs);
    assert forall i: nat | Decides(reg, spec, gs, i) :: gs[i] in gs;
    hide CompileGrants, GrantFails, Vacuous, Admits;
    if Undecided(reg, spec, gs) {
      FilteredMeaning(reg, spec, ctx, gs, row);
    }
  }

  /** Lists matching each other compile to scopes with the same rows, whenever both compile; where nothing is
      unconditional both compile or neither does; and where nothing is broken both do. */
  lemma MatchedScopes(reg: Reg, spec: KeySpec, ctx: Context, gs: seq<ObjectGrant>, hs: seq<ObjectGrant>, row: Row)
    requires Matched(gs, hs) && Matched(hs, gs)
    ensures var s, t := CompileGrants(reg, spec, ctx, gs), CompileGrants(reg, spec, ctx, hs);
      && (s.Ok? && t.Ok? ==> (InScope(s.value, row) <==> InScope(t.value, row)))
      && (!HasOpen(gs) ==> (s.Ok? <==> t.Ok?))
      && (!HasBroken(reg, spec, gs) ==> s.Ok? && t.Ok?)
  {
    ScopeSummary(reg, spec, ctx, gs, row);
    ScopeSummary(reg, spec, ctx, hs, row);
    OneWay(reg, spec, ctx, gs, hs, row);
    OneWay(reg, spec, ctx, hs, gs, row);
    hide *;
  }

  /** What one list has, the other has. */
  lemma OneWay(reg: Reg, spec: KeySpec, ctx: Context, gs: seq<ObjectGrant>, hs: seq<ObjectGrant>, row: Row)
    requires Matched(gs, hs)
    ensures HasOpen(gs) ==> HasOpen(hs)
    ensures HasBroken(reg, spec, gs) ==> HasBroken(reg, spec, hs)
    ensures HasNarrow(reg, ctx, gs) ==> HasNarrow(reg, ctx, hs)
    ensures HasAdmitting(reg, ctx, gs, row) ==> HasAdmitting(reg, ctx, hs, row)
  {
    hide CompileGrants, GrantFails, Vacuous, Admits, SameConditions;
    forall g | g in gs
      ensures g.conditions == [] ==> HasOpen(hs)
      ensures GrantFails(reg, spec, g) ==> HasBroken(reg, spec, hs)
      ensures !Vacuous(reg, ctx, g) ==> HasNarrow(reg, ctx, hs)
      ensures !Vacuous(reg, ctx, g) && Admits(reg, ctx, g, row) ==> HasAdmitting(reg, ctx, hs, row)
    {
      var h :| h in hs && SameConditions(g, h);
      SameMeaning(reg, spec, ctx, g, h, row);
    }
  }

  lemma SameMeaning(reg: Reg, spec: KeySpec, ctx: Context, g: ObjectGrant, h: ObjectGrant, row: Row)
    requires SameConditions(g, h)
    ensures g.conditions == [] <==> h.conditions == []
    ensures GrantFails(reg, spec, g) <==> GrantFails(reg, spec, h)
    ensures Vacuous(reg, ctx, g) <==> Vacuous(reg, ctx, h)
    ensures Admits(reg, ctx, g, row) <==> Admits(reg, ctx, h, row)
  {
    if g.conditions != [] {
      assert g.conditions[0] in h.conditions;
    }
    if h.conditions != [] {
      assert h.conditions[0] in g.conditions;
    }
  }

  // ----- what is assumed of fixture and tables

  /** A grant name fixes its conditions, key by key. */
  ghost predicate NamesFix(f: Fixture) {
    forall a, b | a in f.objects && b in f.objects && a.1.name == b.1.name && a.1.key == b.1.key ::
      a.1.conditions == b.1.conditions
  }

  /** No grant repeats a filter. */
  ghost predicate NoRepeats(f: Fixture) {
    forall o | o in f.objects :: Unrepeated(o.1.conditions)
  }

  ghost predicate Unrepeated(cs: seq<(string, Params)>) {
    forall i, j | 0 <= i < j < |cs| :: cs[i].0 != cs[j].0
  }

  /** These roles hold nothing yet, and neither do the permissions seeding will give them. */
  ghost predicate Untouched(c: Composition, prefix: string, roles: seq<string>) {
    && (forall b | b in c.bindings :: b.0 !in roles)
    && forall r | r in roles :: Bare(c, SeedKey(prefix, r))
  }

  ghost predicate Bare(c: Composition, p: string) {
    && (forall e | e in c.endpoints :: e.0 != p)
    && (forall r | r in c.rules :: c.rules[r].permission != p)
    && (forall g | g in c.grants :: g.0 != p)
  }

  ghost predicate ObjectsNamed(cat: Catalogue) {
    forall o | o in cat.objects :: cat.objects[o].cols.key != ""
  }

  lemma SeedKeyInjective(prefix: string, a: string, b: string)
    ensures SeedKey(prefix, a) == SeedKey(prefix, b) <==> a == b
  {
    assert SeedKey(prefix, a)[|prefix| + 1..] == a && SeedKey(prefix, b)[|prefix| + 1..] == b;
  }

  /** Seeded tables over untouched ones. */
  ghost predicate Over(cat: Catalogue, c0: Composition, c: Composition, prefix: string, f: Fixture, lo: nat,
                       roles: seq<string>) {
    && CatalogueValid(cat) && ObjectsNamed(cat) && Linked(c0)
    && FixtureOk(cat, c0, prefix, f) && Seeded(cat, c0, c, prefix, f, lo)
    && Untouched(c0, prefix, roles)
  }

  /** The roles hold exactly their own seeded permissions. */
  lemma HeldSeeded(cat: Catalogue, c0: Composition, c: Composition, prefix: string, f: Fixture, lo: nat,
                   roles: seq<string>, p: string)
    requires Over(cat, c0, c, prefix, f, lo, roles)
    ensures p in Held(c, roles) <==> exists r :: r in roles && r in UsedRoles(cat, f) && p == SeedKey(prefix, r)
  {
    hide UsedRoles, RulesSeeded, ConditionsSeeded, GrantsSeeded, SeedKey, Bare, HolderRoles, HolderPermissions,
      FixtureOk, CatalogueValid, Linked;
    if p in Held(c, roles) {
      var b :| b in c.bindings && b.0 in roles && b.1 == p;
      assert b !in c0.bindings;
    }
    if r :| r in roles && r in UsedRoles(cat, f) && p == SeedKey(prefix, r) {
      assert (r, p) in c.bindings;
    }
  }

  // ----- endpoints

  lemma EndpointParity(cat: Catalogue, c0: Composition, c: Composition, prefix: string, f: Fixture, lo: nat,
                       roles: seq<string>, key: string)
    requires Over(cat, c0, c, prefix, f, lo, roles)
    ensures HasEndpointGrant(cat, c, roles, key) <==> FixtureEndpoint(f, roles, key)
  {
    hide ObjectsOk, RulesSeeded, ConditionsSeeded, GrantsSeeded, WithHolders, Held, SeedKey, GrantRoles, FieldRoles;
    if HasEndpointGrant(cat, c, roles, key) {
      var e :| e in c.endpoints && e.0 in Held(c, roles) && e.1 in cat.endpoints && cat.endpoints[e.1].cols.key == key;
      HeldSeeded(cat, c0, c, prefix, f, lo, roles, e.0);
      var r :| r in roles && r in UsedRoles(cat, f) && e.0 == SeedKey(prefix, r);
      assert e !in c0.endpoints;
      var x :| x in f.endpoints && e == (SeedKey(prefix, x.0), Pk(cat.endpoints, EndpointNatural, x.1));
      SeedKeyInjective(prefix, x.0, r);
      assert x == (r, key);
    }
    if r :| r in roles && (r, key) in f.endpoints {
      var x := (r, key);
      HeldSeeded(cat, c0, c, prefix, f, lo, roles, SeedKey(prefix, r));
      assert x.0 in RolesIn(f.endpoints);
      assert (SeedKey(prefix, r), Pk(cat.endpoints, EndpointNatural, key)) in SeedPairs(cat, prefix, f.endpoints);
    }
  }

  // ----- object grants

  lemma {:induction false} WantsMembers(cat: Catalogue, prefix: string, objects: seq<(string, ObjectGrant)>, w: Want)
    ensures w in AllWants(cat, prefix, objects) <==>
      exists o, i ::
        o in objects && 0 <= i < |o.1.conditions| && w == WantOf(cat, GrantIdent(cat, prefix, o), o.1.conditions[i], i)
  {
    hide GrantIdent, WantOf;
    if objects != [] {
      var init, last := objects[..|objects| - 1], objects[|objects| - 1];
      WantsMembers(cat, prefix, init, w);
      assert forall o :: o in objects <==> o in init || o == last;
      var ws := WantsOf(cat, GrantIdent(cat, prefix, last), last.1.conditions);
      if w in ws {
        var i :| 0 <= i < |ws| && ws[i] == w;
        assert w == WantOf(cat, GrantIdent(cat, prefix, last), last.1.conditions[i], i);
      }
      if o, i :|
        o in objects && 0 <= i < |o.1.conditions| && w == WantOf(cat, GrantIdent(cat, prefix, o), o.1.conditions[i], i)
      {
        if o == last {
          assert ws[i] == w;
        }
      }
    }
  }

  /** Grants with one identity are of one role, one name and one key. */
  lemma SameIdentity(cat: Catalogue, prefix: string, a: (string, ObjectGrant), b: (string, ObjectGrant))
    requires ObjectsNamed(cat) && ObjectKnown(cat, a) && ObjectKnown(cat, b)
    requires GrantIdent(cat, prefix, a) == GrantIdent(cat, prefix, b)
    ensures a.0 == b.0 && a.1.name == b.1.name && a.1.key == b.1.key
  {
    SeedKeyInjective(prefix, a.0, b.0);
    hide RPartition, SeedKey;
    assert RPartition(a.1.key).objectKey == RPartition(b.1.key).objectKey != "";
    SameHalves(a.1.key, b.1.key);
  }

  lemma FilterRow(cat: Catalogue, k: string)
    requires Holds(cat.filters, FilterNatural, k)
    ensures Pk(cat.filters, FilterNatural, k) in cat.filters
    ensures cat.filters[Pk(cat.filters, FilterNatural, k)].cols.key == k
  {
  }

  lemma Known(cat: Catalogue, c0: Composition, c: Composition, prefix: string, f: Fixture, lo: nat, roles: seq<string>,
              o: (string, ObjectGrant))
    requires Over(cat, c0, c, prefix, f, lo, roles) && o in f.objects
    ensures ObjectKnown(cat, o)
  {
    hide ObjectKnown, OneRow, PairsKnown, Seeded, Untouched, CatalogueValid, Linked;
    var i :| 0 <= i < |f.objects| && f.objects[i] == o;
    assert ObjectKnown(cat, f.objects[i]);
  }

  lemma WantBehind(rules: map<nat, RuleRow>, conds0: map<(nat, nat), ConditionRow>,
                   conds: map<(nat, nat), ConditionRow>, wants: seq<Want>, x: (nat, nat)) returns (w: Want)
    requires ConditionsSeeded(rules, conds0, conds, wants) && x in conds && x !in conds0
    ensures w in wants && Supplies(rules, w, x) && conds[x] == w.row
  {
    var k: nat :| FirstSupplies(rules, wants, k, x) && conds[x] == wants[k].row;
    w := wants[k];
  }

  /** A condition row of a new rule was wanted by the rule's grants. */
  lemma ConditionWanted(cat: Catalogue, c0: Composition, c: Composition, prefix: string, f: Fixture, lo: nat,
                        roles: seq<string>, o: (string, ObjectGrant), r: nat, x: nat)
    requires Over(cat, c0, c, prefix, f, lo, roles) && NamesFix(f) && o in f.objects
    requires r in c.rules && r !in c0.rules && RowIdent(c.rules[r]) == GrantIdent(cat, prefix, o)
    requires (r, x) in c.conditions && x in cat.filters
    ensures ConditionOf(cat, c, r, x) in o.1.conditions
  {
    hide Over, RulesSeeded, GrantsSeeded, RowIdent, GrantIdent, AllWants, ObjectKnown, ObjectsNamed, ConditionsSeeded,
      NamesFix, Pk;
    SeededParts(cat, c0, c, prefix, f, lo, roles);
    NoOldConditions(c0, r, x);
    var w := WantBehind(c.rules, c0.conditions, c.conditions, AllWants(cat, prefix, f.objects), (r, x));
    WantsMembers(cat, prefix, f.objects, w);
    var o', i :| o' in f.objects && 0 <= i < |o'.1.conditions| &&
      w == WantOf(cat, GrantIdent(cat, prefix, o'), o'.1.conditions[i], i);
    Known(cat, c0, c, prefix, f, lo, roles, o);
    Known(cat, c0, c, prefix, f, lo, roles, o');
    SameIdentity(cat, prefix, o, o');
    NamesFixed(f, o, o');
    KnownFilter(cat, o', i);
    FilterRow(cat, o'.1.conditions[i].0);
    assert ConditionOf(cat, c, r, x) == o.1.conditions[i];
  }

  lemma NamesFixed(f: Fixture, a: (string, ObjectGrant), b: (string, ObjectGrant))
    requires NamesFix(f) && a in f.objects && b in f.objects && a.1.name == b.1.name && a.1.key == b.1.key
    ensures a.1.conditions == b.1.conditions
  {
  }

  lemma KnownFilter(cat: Catalogue, o: (string, ObjectGrant), i: nat)
    requires ObjectKnown(cat, o) && i < |o.1.conditions|
    ensures Holds(cat.filters, FilterNatural, o.1.conditions[i].0)
  {
  }

  lemma NoOldConditions(c0: Composition, r: nat, x: nat)
    requires Linked(c0) && r !in c0.rules
    ensures (r, x) !in c0.conditions
  {
  }

  lemma SeededParts(cat: Catalogue, c0: Composition, c: Composition, prefix: string, f: Fixture, lo: nat,
                    roles: seq<string>)
    requires Over(cat, c0, c, prefix, f, lo, roles)
    ensures ObjectsNamed(cat) && Linked(c0)
    ensures ConditionsSeeded(c.rules, c0.conditions, c.conditions, AllWants(cat, prefix, f.objects))
  {
    hide CatalogueValid, ObjectsNamed, Linked, FixtureOk, Untouched, RulesSeeded, ConditionsSeeded, GrantsSeeded,
      WithHolders;
  }

  /** The conditions of a seeded rule are those of its grant. */
  lemma SeededConditions(cat: Catalogue, c0: Composition, c: Composition, prefix: string, f: Fixture, lo: nat,
                         roles: seq<string>, key: string, o: (string, ObjectGrant), r: nat)
    requires Over(cat, c0, c, prefix, f, lo, roles) && NamesFix(f) && NoRepeats(f) && o in f.objects
    requires r in c.rules && r !in c0.rules && RowIdent(c.rules[r]) == GrantIdent(cat, prefix, o)
    ensures SameConditions(RuleGrant(cat, c, key, r), o.1)
  {
    hide Over, RowIdent, GrantIdent;
    forall pair
      ensures pair in RuleGrant(cat, c, key, r).conditions <==> pair in o.1.conditions
    {
      ConditionMembers(cat, c, r, pair);
      if pair in RuleGrant(cat, c, key, r).conditions {
        var x :| (r, x) in c.conditions && x in cat.filters && pair == ConditionOf(cat, c, r, x);
        ConditionWanted(cat, c0, c, prefix, f, lo, roles, o, r, x);
      }
      if pair in o.1.conditions {
        var i :| 0 <= i < |o.1.conditions| && o.1.conditions[i] == pair;
        var x := WantedStored(cat, c0, c, prefix, f, lo, roles, o, r, i);
        ConditionWanted(cat, c0, c, prefix, f, lo, roles, o, r, x);
        OnlyPair(o.1.conditions, pair, ConditionOf(cat, c, r, x));
      }
    }
  }

  lemma OnlyPair(cs: seq<(string, Params)>, a: (string, Params), b: (string, Params))
    requires Unrepeated(cs) && a in cs && b in cs && a.0 == b.0
    ensures a == b
  {
    var i :| 0 <= i < |cs| && cs[i] == a;
    var j :| 0 <= j < |cs| && cs[j] == b;
  }

  lemma WantedStored(cat: Catalogue, c0: Composition, c: Composition, prefix: string, f: Fixture, lo: nat,
                     roles: seq<string>, o: (string, ObjectGrant), r: nat, i: nat) returns (x: nat)
    requires Over(cat, c0, c, prefix, f, lo, roles) && o in f.objects && i < |o.1.conditions|
    requires r in c.rules && RowIdent(c.rules[r]) == GrantIdent(cat, prefix, o)
    ensures (r, x) in c.conditions && x in cat.filters && cat.filters[x].cols.key == o.1.conditions[i].0
  {
    Known(cat, c0, c, prefix, f, lo, roles, o);
    hide RulesSeeded, GrantsSeeded, WithHolders, RowIdent, GrantIdent, FixtureOk, Untouched, CatalogueValid, Linked;
    FilterRow(cat, o.1.conditions[i].0);
    x := Pk(cat.filters, FilterNatural, o.1.conditions[i].0);
    var wants, w := AllWants(cat, prefix, f.objects), WantOf(cat, GrantIdent(cat, prefix, o), o.1.conditions[i], i);
    WantsMembers(cat, prefix, f.objects, w);
    var k :| 0 <= k < |wants| && wants[k] == w;
    assert Supplies(c.rules, wants[k], (r, x));
  }

  /** A rule of a held permission came from a grant of that role, and the other way round. */
  lemma RuleFromGrant(cat: Catalogue, c0: Composition, c: Composition, prefix: string, f: Fixture, lo: nat,
                      roles: seq<string>, key: string, r: nat)
    returns (o: (string, ObjectGrant))
    requires Over(cat, c0, c, prefix, f, lo, roles) && r in RulesFor(cat, c, roles, key)
    ensures o in f.objects && o.0 in roles && o.1.key == key && r !in c0.rules &&
      RowIdent(c.rules[r]) == GrantIdent(cat, prefix, o)
  {
    var p := c.rules[r].permission;
    HeldSeeded(cat, c0, c, prefix, f, lo, roles, p);
    var role :| role in roles && role in UsedRoles(cat, f) && p == SeedKey(prefix, role);
    hide UsedRoles, ConditionsSeeded, GrantsSeeded, WithHolders, FixtureOk, SeedKey, CatalogueValid, Linked,
      RPartition, Holds;
    assert Bare(c0, p) && r !in c0.rules;
    assert RowIdent(c.rules[r]) in Idents(cat, prefix, f.objects);
    var i :| 0 <= i < |f.objects| && Idents(cat, prefix, f.objects)[i] == RowIdent(c.rules[r]);
    o := f.objects[i];
    SeedKeyInjective(prefix, o.0, role);
    Known(cat, c0, c, prefix, f, lo, roles, o);
    ObjectRow(cat, o);
    SameHalves(o.1.key, key);
  }

  lemma ObjectRow(cat: Catalogue, o: (string, ObjectGrant))
    requires ObjectsNamed(cat) && ObjectKnown(cat, o)
    ensures var k := RPartition(o.1.key).objectKey;
      var a := Pk(cat.objects, ObjectNatural, k);
      k != "" && a in cat.objects && cat.objects[a].cols.key == k
  {
  }

  lemma RuleForGrant(cat: Catalogue, c0: Composition, c: Composition, prefix: string, f: Fixture, lo: nat,
                     roles: seq<string>, o: (string, ObjectGrant))
    returns (r: nat)
    requires Over(cat, c0, c, prefix, f, lo, roles) && o in f.objects && o.0 in roles
    ensures r in RulesFor(cat, c, roles, o.1.key) && r !in c0.rules &&
      RowIdent(c.rules[r]) == GrantIdent(cat, prefix, o)
  {
    HeldSeeded(cat, c0, c, prefix, f, lo, roles, SeedKey(prefix, o.0));
    assert o.0 in UsedRoles(cat, f);
    Known(cat, c0, c, prefix, f, lo, roles, o);
    ObjectRow(cat, o);
    hide UsedRoles, ConditionsSeeded, GrantsSeeded, WithHolders, FixtureOk, SeedKey, CatalogueValid, Linked,
      RPartition, Holds;
    var i :| 0 <= i < |f.objects| && f.objects[i] == o;
    assert Idents(cat, prefix, f.objects)[i] == GrantIdent(cat, prefix, o);
    assert SomeRow(c.rules, GrantIdent(cat, prefix, o));
    r :| r in c.rules && RowIdent(c.rules[r]) == GrantIdent(cat, prefix, o);
    assert Bare(c0, SeedKey(prefix, o.0));
  }

  /** The two stores list grants that match each other. */
  lemma ObjectParity(cat: Catalogue, c0: Composition, c: Composition, prefix: string, f: Fixture, lo: nat,
                     roles: seq<string>, key: string)
    requires Over(cat, c0, c, prefix, f, lo, roles) && NamesFix(f) && NoRepeats(f)
    ensures Matched(ByName(NamedObjects(f, roles, key)), ObjectGrants(cat, c, roles, key))
    ensures Matched(ObjectGrants(cat, c, roles, key), ByName(NamedObjects(f, roles, key)))
  {
    LastWins(f.objects, ObjectName, ObjectKeyOf, roles, key);
    var named := NamedObjects(f, roles, key);
    var gs, hs := ByName(named), ObjectGrants(cat, c, roles, key);
    hide Over, RowIdent, GrantIdent, ByName, ObjectGrants, SameConditions, NoRepeats, RuleGrant, LastNamed;
    forall g | g in gs
      ensures exists h :: h in hs && SameConditions(g, h)
    {
      ByNameMembers(named, g);
      var n :| n in named && named[n] == g;
      var i: nat :| Wins(f.objects, ObjectName, ObjectKeyOf, roles, key, i) && ObjectName(f.objects[i].1) == n &&
        named[n] == f.objects[i].1;
      var o := f.objects[i];
      var r := RuleForGrant(cat, c0, c, prefix, f, lo, roles, o);
      SeededConditions(cat, c0, c, prefix, f, lo, roles, key, o, r);
      GrantMembers(cat, c, roles, key, RuleGrant(cat, c, key, r));
      SameBothWays(RuleGrant(cat, c, key, r), g);
    }
    forall h | h in hs
      ensures exists g :: g in gs && SameConditions(h, g)
    {
      GrantMembers(cat, c, roles, key, h);
      var r :| r in RulesFor(cat, c, roles, key) && h == RuleGrant(cat, c, key, r);
      var o := RuleFromGrant(cat, c0, c, prefix, f, lo, roles, key, r);
      SeededConditions(cat, c0, c, prefix, f, lo, roles, key, o, r);
      assert Concerns(o, ObjectKeyOf, roles, key);
      var n := ObjectName(o.1);
      var i: nat :| Wins(f.objects, ObjectName, ObjectKeyOf, roles, key, i) && ObjectName(f.objects[i].1) == n &&
        named[n] == f.objects[i].1;
      assert f.objects[i] in f.objects;
      ByNameMembers(named, named[n]);
      SameAlike(h, o.1, named[n]);
    }
  }

  lemma SameBothWays(g: ObjectGrant, h: ObjectGrant)
    requires SameConditions(g, h)
    ensures SameConditions(h, g)
  {
  }

  lemma SameAlike(g: ObjectGrant, h: ObjectGrant, k: ObjectGrant)
    requires SameConditions(g, h) && h.conditions == k.conditions
    ensures SameConditions(g, k)
  {
  }

  /** Two policies that differ only in their store: the fixture, and the tables it was seeded into. */
  ghost predicate Twins(p: Policy, q: Policy, f: Fixture, cat: Catalogue, c: Composition) {
    p.store == MemoryStoreOf(f) && q == p.(store := q.store) && ReadsFrom(q, cat, c)
  }

  /** Seeding parity: the same endpoint answers, and the same rows in scope whenever both resolve, which they do
      when no grant of the fixture is broken for the key. */
  lemma SeedingParity(cat: Catalogue, c0: Composition, c: Composition, prefix: string, f: Fixture, lo: nat, p: Policy,
                      q: Policy, user: User, key: string, row: Row)
    requires Over(cat, c0, c, prefix, f, lo, p.principals(user)) && NamesFix(f) && NoRepeats(f) &&
      Twins(p, q, f, cat, c)
    ensures CheckEndpoint(q, user, key) == CheckEndpoint(p, user, key)
    ensures ScopeOf(p, user, key).Ok? && ScopeOf(q, user, key).Ok? ==>
      (InScope(ScopeOf(q, user, key).value, row) <==> InScope(ScopeOf(p, user, key).value, row))
    ensures Sound(p, user, key) ==> ScopeOf(p, user, key).Ok? && ScopeOf(q, user, key).Ok?
  {
    var roles := p.principals(user);
    EndpointParity(cat, c0, c, prefix, f, lo, roles, key);
    ObjectParity(cat, c0, c, prefix, f, lo, roles, key);
    assert GrantsFor(p, user, key) == ByName(NamedObjects(f, roles, key)) &&
      GrantsFor(q, user, key) == ObjectGrants(cat, c, roles, key);
    assert p.store.endpoint(roles, key) == FixtureEndpoint(f, roles, key);
    assert q.store.endpoint(roles, key) == HasEndpointGrant(cat, c, roles, key);
    hide Over, NamedObjects, ObjectGrants, ByName, HasEndpointGrant, FixtureEndpoint, NamesFix, NoRepeats, ReadsFrom;
    hide ScopeOf, CheckEndpoint, InScope, Sound, Matched;
    AlikeEndpoints(p, q, user, key);
    AlikeStores(p, q, user, key, row);
  }

  lemma AlikeEndpoints(p: Policy, q: Policy, user: User, key: string)
    requires q == p.(store := q.store)
    requires p.store.endpoint(p.principals(user), key) == q.store.endpoint(p.principals(user), key)
    ensures CheckEndpoint(q, user, key) == CheckEndpoint(p, user, key)
  {
  }

  /** Stores that answer alike at the endpoint and list matching grants resolve alike. */
  lemma AlikeStores(p: Policy, q: Policy, user: User, key: string, row: Row)
    requires q == p.(store := q.store)
    requires p.store.endpoint(p.principals(user), key) == q.store.endpoint(p.principals(user), key)
    requires Matched(GrantsFor(p, user, key), GrantsFor(q, user, key)) &&
      Matched(GrantsFor(q, user, key), GrantsFor(p, user, key))
    ensures ScopeOf(p, user, key).Ok? && ScopeOf(q, user, key).Ok? ==>
      (InScope(ScopeOf(q, user, key).value, row) <==> InScope(ScopeOf(p, user, key).value, row))
    ensures Sound(p, user, key) ==> ScopeOf(p, user, key).Ok? && ScopeOf(q, user, key).Ok?
  {
    var gs, hs := GrantsFor(p, user, key), GrantsFor(q, user, key);
    if Sound(p, user, key) {
      SoundUnbroken(p, user, key);
    }
    NoneAlike(gs, hs);
    ScopeByCases(p, user, key);
    ScopeByCases(q, user, key);
    assert Reaches(p, user, key) <==> Reaches(q, user, key);
    hide *;
    if Lookup(p.reg, key).Ok? {
      MatchedScopes(p.reg, Lookup(p.reg, key).value, p.contextOf(user), gs, hs, row);
    }
  }

  lemma NoneAlike(gs: seq<ObjectGrant>, hs: seq<ObjectGrant>)
    requires Matched(gs, hs) && Matched(hs, gs)
    ensures gs == [] <==> hs == []
  {
    hide SameConditions;
    assert gs != [] ==> gs[0] in gs;
    assert hs != [] ==> hs[0] in hs;
  }

  lemma SoundUnbroken(p: Policy, user: User, key: string)
    requires Sound(p, user, key)
    ensures Lookup(p.reg, key).Ok? && !HasBroken(p.reg, Lookup(p.reg, key).value, GrantsFor(p, user, key))
  {
  }

  // ----- field grants

  /** A field grant name fixes its fields, key by key. */
  ghost predicate FieldNamesFix(f: Fixture) {
    forall a, b | a in f.fields && b in f.fields && a.1.name == b.1.name && a.1.key == b.1.key ::
      a.1.allowedFields == b.1.allowedFields
  }

  /** The row a grant offers for a group. */
  function RowFor(prefix: string, o: (string, FieldGrant), g: nat): (string, nat, string) {
    (SeedKey(prefix, o.0), g, RPartition(o.1.key).verb)
  }

  /** Entry `a` concerns the question, its list contains the group, and no earlier one offers the same row. */
  ghost predicate GrantsGroup(cat: Catalogue, prefix: string, f: Fixture, roles: seq<string>, key: string, a: nat,
                              g: nat) {
    && a < |f.fields| && Concerns(f.fields[a], FieldKeyOf, roles, key)
    && FirstOffers(cat, prefix, f.fields, a, RowFor(prefix, f.fields[a], g))
  }

  lemma OffersRow(cat: Catalogue, prefix: string, o: (string, FieldGrant), x: (string, nat, string))
    requires Offers(cat, prefix, o, x)
    ensures x == RowFor(prefix, o, x.1)
  {
    hide SeedKey, RPartition, GroupFits;
  }

  /** What seeding says of a row of a permission that held nothing before. */
  lemma SeededRow(cat: Catalogue, c0: Composition, c: Composition, prefix: string, f: Fixture, lo: nat,
                  roles: seq<string>, role: string, x: (string, nat, string))
    requires Over(cat, c0, c, prefix, f, lo, roles) && role in roles && x.0 == SeedKey(prefix, role)
    ensures x in c.grants ==> exists a: nat ::
      FirstOffers(cat, prefix, f.fields, a, x) && ValuesFrom(f.fields[a].1, GroupFields(cat, x.1), c.grants[x])
    ensures forall a | 0 <= a < |f.fields| && Offers(cat, prefix, f.fields[a], x) :: x in c.grants
  {
    hide UsedRoles, ConditionsSeeded, RulesSeeded, WithHolders, FixtureOk, SeedKey, CatalogueValid, Linked,
      ValuesFrom, FirstOffers, Offers, Numbered, SeedPairs;
    assert Bare(c0, x.0) && x !in c0.grants;
  }

  /** A row granted in the tables was first offered by a grant of that role and key, and has its values. */
  lemma OfferOfRow(cat: Catalogue, c0: Composition, c: Composition, prefix: string, f: Fixture, lo: nat,
                   roles: seq<string>, key: string, x: (string, nat, string)) returns (a: nat)
    requires Over(cat, c0, c, prefix, f, lo, roles) && x in DatabaseStore.FieldGrantsFor(cat, c, roles, key)
    ensures GrantsGroup(cat, prefix, f, roles, key, a, x.1) && x == RowFor(prefix, f.fields[a], x.1)
    ensures ValuesFrom(f.fields[a].1, GroupFields(cat, x.1), c.grants[x])
  {
    HeldSeeded(cat, c0, c, prefix, f, lo, roles, x.0);
    hide Over, UsedRoles, SeedKey, RPartition, ValuesFrom, Held, Offers, GrantMatches, Concerns;
    var role :| role in roles && role in UsedRoles(cat, f) && x.0 == SeedKey(prefix, role);
    SeededRow(cat, c0, c, prefix, f, lo, roles, role, x);
    a :| FirstOffers(cat, prefix, f.fields, a, x) &&
      ValuesFrom(f.fields[a].1, GroupFields(cat, x.1), c.grants[x]);
    OffersRow(cat, prefix, f.fields[a], x);
    OverNamed(cat, c0, c, prefix, f, lo, roles);
    OfferIsAbout(cat, prefix, f.fields[a], x, roles, role, key);
  }

  /** A row offered for a role and read for a key was offered by a grant of that role and key. */
  lemma OfferIsAbout(cat: Catalogue, prefix: string, o: (string, FieldGrant), x: (string, nat, string),
                     roles: seq<string>, role: string, key: string)
    requires ObjectsNamed(cat) && Offers(cat, prefix, o, x) && GrantMatches(cat, x, key)
    requires role in roles && x.0 == SeedKey(prefix, role)
    ensures Concerns(o, FieldKeyOf, roles, key)
  {
    SeedKeyInjective(prefix, o.0, role);
    hide SeedKey, RPartition;
    SameHalves(o.1.key, key);
  }

  lemma OverNamed(cat: Catalogue, c0: Composition, c: Composition, prefix: string, f: Fixture, lo: nat,
                  roles: seq<string>)
    requires Over(cat, c0, c, prefix, f, lo, roles)
    ensures ObjectsNamed(cat)
  {
    hide CatalogueValid, Linked, FixtureOk, Seeded, Untouched;
  }

  /** Every group wholly inside the list of a grant that concerns the question is granted. */
  lemma RowOfOffer(cat: Catalogue, c0: Composition, c: Composition, prefix: string, f: Fixture, lo: nat,
                   roles: seq<string>, key: string, o: (string, FieldGrant), g: nat)
    requires Over(cat, c0, c, prefix, f, lo, roles)
    requires o in f.fields && Concerns(o, FieldKeyOf, roles, key) && GroupFits(cat, o.1, g)
    ensures RowFor(prefix, o, g) in DatabaseStore.FieldGrantsFor(cat, c, roles, key)
  {
    OfferUses(cat, f, o, g);
    HeldSeeded(cat, c0, c, prefix, f, lo, roles, SeedKey(prefix, o.0));
    SeededRow(cat, c0, c, prefix, f, lo, roles, o.0, RowFor(prefix, o, g));
    hide Over, UsedRoles, SeedKey, RPartition, Held;
    var i :| 0 <= i < |f.fields| && f.fields[i] == o;
    assert Offers(cat, prefix, f.fields[i], RowFor(prefix, o, g));
  }

  lemma OfferUses(cat: Catalogue, f: Fixture, o: (string, FieldGrant), g: nat)
    requires o in f.fields && GroupFits(cat, o.1, g)
    ensures o.0 in UsedRoles(cat, f)
  {
    hide RolesIn, GrantRoles;
    assert g in cat.groups.Keys;
    assert AnyFits(cat, o.1, cat.groups.Keys);
  }

  /** Of the entries that offer a row there is a first. */
  lemma {:induction false} FirstOffer(cat: Catalogue, prefix: string, fields: seq<(string, FieldGrant)>, b: nat,
                                      x: (string, nat, string)) returns (a: nat)
    requires b < |fields| && Offers(cat, prefix, fields[b], x)
    ensures FirstOffers(cat, prefix, fields, a, x)
  {
    hide Offers;
    if i: nat :| i < b && Offers(cat, prefix, fields[i], x) {
      a := FirstOffer(cat, prefix, fields, i, x);
    } else {
      a := b;
    }
  }

  lemma SortedSame(r: seq<Value>, values: set<Value>)
    requires SortedList(r, values)
    ensures forall v :: v in r <==> v in values
  {
    assert forall v :: v in r <==> v in multiset(r);
  }

  /** Some grant that concerns the question has the field in a group wholly inside its list. */
  ghost predicate Reached(cat: Catalogue, f: Fixture, roles: seq<string>, key: string, field: string) {
    exists o, g :: o in f.fields && Concerns(o, FieldKeyOf, roles, key) && GroupFits(cat, o.1, g) &&
      field in GroupFields(cat, g)
  }

  /** Some grant that concerns the question lists the field. */
  ghost predicate Listing(f: Fixture, roles: seq<string>, key: string, field: string) {
    exists o :: o in f.fields && Concerns(o, FieldKeyOf, roles, key) && field in o.1.allowedFields
  }

  /** Some grant permits the value for a field of a group it was the first to offer. */
  ghost predicate ValueKept(cat: Catalogue, prefix: string, f: Fixture, roles: seq<string>, key: string, field: string,
                            v: Value) {
    exists a: nat, g: nat :: GrantsGroup(cat, prefix, f, roles, key, a, g) && field in GroupFields(cat, g) &&
      field in f.fields[a].1.allowedValues && v in f.fields[a].1.allowedValues[field]
  }

  /** Some grant that concerns the question permits the value for the field. */
  ghost predicate ValueListed(f: Fixture, roles: seq<string>, key: string, field: string, v: Value) {
    exists o :: o in f.fields && Concerns(o, FieldKeyOf, roles, key) && field in o.1.allowedValues &&
      v in o.1.allowedValues[field]
  }

  /** What the tables say: a field is granted when a grant reaches it, a value is permitted when the first grant to
      offer the group permits it. */
  lemma TablesSay(cat: Catalogue, c0: Composition, c: Composition, prefix: string, f: Fixture, lo: nat,
                  roles: seq<string>, key: string, field: string, v: Value)
    requires Over(cat, c0, c, prefix, f, lo, roles)
    ensures var gs := FieldGrants(cat, c, roles, key);
      && (field in Writes.UnionOfFields(gs) <==> Reached(cat, f, roles, key, field))
      && (v in Writes.UnionOfValues(gs, field) <==> ValueKept(cat, prefix, f, roles, key, field, v))
  {
    var gs := FieldGrants(cat, c, roles, key);
    hide Over, FieldGrants, GroupFits, FirstOffers, SeedKey, RPartition;
    if field in Writes.UnionOfFields(gs) {
      var g :| g in gs && field in g.allowedFields;
      var x := RowBehind(cat, c, roles, key, g);
      var a := OfferOfRow(cat, c0, c, prefix, f, lo, roles, key, x);
      FirstFits(cat, prefix, f.fields, a, x);
      assert f.fields[a] in f.fields;
    }
    if Reached(cat, f, roles, key, field) {
      var o, g :| o in f.fields && Concerns(o, FieldKeyOf, roles, key) && GroupFits(cat, o.1, g) &&
        field in GroupFields(cat, g);
      RowOfOffer(cat, c0, c, prefix, f, lo, roles, key, o, g);
      RowSays(cat, c, roles, key, RowFor(prefix, o, g));
    }
    if v in Writes.UnionOfValues(gs, field) {
      var g :| g in gs && field in g.allowedValues && v in g.allowedValues[field];
      var x := RowBehind(cat, c, roles, key, g);
      var a := OfferOfRow(cat, c0, c, prefix, f, lo, roles, key, x);
      SortedSame(c.grants[x][field], f.fields[a].1.allowedValues[field]);
    }
    if ValueKept(cat, prefix, f, roles, key, field, v) {
      KeptIsSaid(cat, c0, c, prefix, f, lo, roles, key, field, v);
    }
  }

  lemma KeptIsSaid(cat: Catalogue, c0: Composition, c: Composition, prefix: string, f: Fixture, lo: nat,
                   roles: seq<string>, key: string, field: string, v: Value)
    requires Over(cat, c0, c, prefix, f, lo, roles) && ValueKept(cat, prefix, f, roles, key, field, v)
    ensures v in Writes.UnionOfValues(FieldGrants(cat, c, roles, key), field)
  {
    hide Over, FieldGrants, GroupFits, SeedKey, RPartition, FirstOffers;
    var a: nat, g: nat :| GrantsGroup(cat, prefix, f, roles, key, a, g) && field in GroupFields(cat, g) &&
      field in f.fields[a].1.allowedValues && v in f.fields[a].1.allowedValues[field];
    var o, x := f.fields[a], RowFor(prefix, f.fields[a], g);
    FirstFits(cat, prefix, f.fields, a, x);
    assert o in f.fields;
    RowOfOffer(cat, c0, c, prefix, f, lo, roles, key, o, g);
    var b := OfferOfRow(cat, c0, c, prefix, f, lo, roles, key, x);
    OnlyFirst(cat, prefix, f.fields, a, b, x);
    SortedSame(c.grants[x][field], o.1.allowedValues[field]);
    RowSays(cat, c, roles, key, x);
  }

  lemma OnlyFirst(cat: Catalogue, prefix: string, fields: seq<(string, FieldGrant)>, a: nat, b: nat,
                  x: (string, nat, string))
    requires FirstOffers(cat, prefix, fields, a, x) && FirstOffers(cat, prefix, fields, b, x)
    ensures a == b
  {
    hide Offers;
  }

  lemma FirstFits(cat: Catalogue, prefix: string, fields: seq<(string, FieldGrant)>, a: nat, x: (string, nat, string))
    requires FirstOffers(cat, prefix, fields, a, x)
    ensures GroupFits(cat, fields[a].1, x.1)
  {
    hide GroupFits, SeedKey, RPartition;
  }

  lemma RowBehind(cat: Catalogue, c: Composition, roles: seq<string>, key: string, g: FieldGrant)
    returns (x: (string, nat, string))
    requires g in FieldGrants(cat, c, roles, key)
    ensures x in DatabaseStore.FieldGrantsFor(cat, c, roles, key)
    ensures g.allowedFields == set f | f in GroupFields(cat, x.1)
    ensures g.allowedValues == map f | f in c.grants[x] :: set v | v in c.grants[x][f]
  {
    FieldGrantMembers(cat, c, roles, key, g);
    x :| x in DatabaseStore.FieldGrantsFor(cat, c, roles, key) && g == GroupGrant(cat, c, key, x);
  }

  lemma RowSays(cat: Catalogue, c: Composition, roles: seq<string>, key: string, x: (string, nat, string))
    requires x in DatabaseStore.FieldGrantsFor(cat, c, roles, key)
    ensures forall f | f in GroupFields(cat, x.1) :: f in Writes.UnionOfFields(FieldGrants(cat, c, roles, key))
    ensures forall f, v | f in c.grants[x] && v in c.grants[x][f] ::
      v in Writes.UnionOfValues(FieldGrants(cat, c, roles, key), f)
  {
    var g := GroupGrant(cat, c, key, x);
    FieldGrantMembers(cat, c, roles, key, g);
    assert g in FieldGrants(cat, c, roles, key);
    hide FieldGrants;
    forall f | f in GroupFields(cat, x.1)
      ensures f in Writes.UnionOfFields(FieldGrants(cat, c, roles, key))
    {
      assert f in g.allowedFields;
    }
    forall f, v | f in c.grants[x] && v in c.grants[x][f]
      ensures v in Writes.UnionOfValues(FieldGrants(cat, c, roles, key), f)
    {
      assert f in g.allowedValues && v in g.allowedValues[f];
    }
  }

  /** A field grant name fixes what it permits, key by key. */
  ghost predicate ValueNamesFix(f: Fixture) {
    forall a, b | a in f.fields && b in f.fields && a.1.name == b.1.name && a.1.key == b.1.key ::
      a.1.allowedValues == b.1.allowedValues
  }

  /** What the fixture itself says. */
  lemma FixtureSays(f: Fixture, roles: seq<string>, key: string, field: string, v: Value)
    ensures var gs := ByName(NamedFields(f, roles, key));
      && (FieldNamesFix(f) ==> (field in Writes.UnionOfFields(gs) <==> Listing(f, roles, key, field)))
      && (ValueNamesFix(f) ==> (v in Writes.UnionOfValues(gs, field) <==> ValueListed(f, roles, key, field, v)))
  {
    var named := NamedFields(f, roles, key);
    var gs := ByName(named);
    hide ByName, LastNamed;
    forall g | g in gs
      ensures exists o :: o in f.fields && Concerns(o, FieldKeyOf, roles, key) && o.1 == g
    {
      NamedIsListed(f, roles, key, g);
    }
    if o :| o in f.fields && Concerns(o, FieldKeyOf, roles, key) && field in o.1.allowedFields && FieldNamesFix(f) {
      var g := ListedIsNamed(f, roles, key, o);
    }
    if ValueNamesFix(f) && ValueListed(f, roles, key, field, v) {
      var o :| o in f.fields && Concerns(o, FieldKeyOf, roles, key) && field in o.1.allowedValues &&
        v in o.1.allowedValues[field];
      var g := ListedIsNamed(f, roles, key, o);
    }
  }

  lemma NamedIsListed(f: Fixture, roles: seq<string>, key: string, g: FieldGrant)
    requires g in ByName(NamedFields(f, roles, key))
    ensures exists o :: o in f.fields && Concerns(o, FieldKeyOf, roles, key) && o.1 == g
  {
    var named := NamedFields(f, roles, key);
    LastWins(f.fields, FieldName, FieldKeyOf, roles, key);
    ByNameMembers(named, g);
    hide ByName, LastNamed;
    var n :| n in named && named[n] == g;
    var i: nat :| Wins(f.fields, FieldName, FieldKeyOf, roles, key, i) && named[n] == f.fields[i].1;
    assert f.fields[i] in f.fields;
  }

  /** Of the grants of a name the last is looked up. */
  lemma ListedIsNamed(f: Fixture, roles: seq<string>, key: string, o: (string, FieldGrant)) returns (g: FieldGrant)
    requires o in f.fields && Concerns(o, FieldKeyOf, roles, key)
    ensures g in ByName(NamedFields(f, roles, key))
    ensures FieldNamesFix(f) ==> g.allowedFields == o.1.allowedFields
    ensures ValueNamesFix(f) ==> g.allowedValues == o.1.allowedValues
  {
    var named, n := NamedFields(f, roles, key), FieldName(o.1);
    LastWins(f.fields, FieldName, FieldKeyOf, roles, key);
    g := named[n];
    ByNameMembers(named, g);
    hide ByName, LastNamed;
    var i: nat :| Wins(f.fields, FieldName, FieldKeyOf, roles, key, i) && FieldName(f.fields[i].1) == n &&
      named[n] == f.fields[i].1;
    assert f.fields[i] in f.fields;
  }

  /** Field parity.  Nobody is granted a field in the tables that the fixture did not grant, and the two grant the
      same fields exactly when every field a grant lists is in some group wholly inside the list of some grant. */
  lemma FieldParity(cat: Catalogue, c0: Composition, c: Composition, prefix: string, f: Fixture, lo: nat,
                    roles: seq<string>, key: string)
    requires Over(cat, c0, c, prefix, f, lo, roles) && FieldNamesFix(f)
    ensures var seeded := Writes.UnionOfFields(FieldGrants(cat, c, roles, key));
      var told := Writes.UnionOfFields(ByName(NamedFields(f, roles, key)));
      && seeded <= told
      && (seeded == told <==> forall field | Listing(f, roles, key, field) :: Reached(cat, f, roles, key, field))
  {
    hide Over, ByName, FieldGrants, NamedFields, Listing, Reached, FieldNamesFix;
    hide Writes.UnionOfFields;
    forall field
      ensures field in Writes.UnionOfFields(FieldGrants(cat, c, roles, key)) <==> Reached(cat, f, roles, key, field)
      ensures field in Writes.UnionOfFields(ByName(NamedFields(f, roles, key))) <==> Listing(f, roles, key, field)
      ensures Reached(cat, f, roles, key, field) ==> Listing(f, roles, key, field)
    {
      TablesSay(cat, c0, c, prefix, f, lo, roles, key, field, Null);
      FixtureSays(f, roles, key, field, Null);
      ReachedIsListed(cat, f, roles, key, field);
    }
  }

  lemma ReachedIsListed(cat: Catalogue, f: Fixture, roles: seq<string>, key: string, field: string)
    ensures Reached(cat, f, roles, key, field) ==> Listing(f, roles, key, field)
  {
  }

  /** Value parity.  No value is permitted in the tables that the fixture did not permit, and the two permit the
      same values for a field exactly when each is permitted by a grant that was the first of its role to offer some
      group with that field. */
  lemma ValueParity(cat: Catalogue, c0: Composition, c: Composition, prefix: string, f: Fixture, lo: nat,
                    roles: seq<string>, key: string, field: string)
    requires Over(cat, c0, c, prefix, f, lo, roles) && ValueNamesFix(f)
    ensures var seeded := Writes.UnionOfValues(FieldGrants(cat, c, roles, key), field);
      var told := Writes.UnionOfValues(ByName(NamedFields(f, roles, key)), field);
      && seeded <= told
      && (seeded == told <==>
            forall v | ValueListed(f, roles, key, field, v) :: ValueKept(cat, prefix, f, roles, key, field, v))
  {
    hide Over, ByName, FieldGrants, NamedFields, ValueListed, ValueKept, ValueNamesFix;
    hide Writes.UnionOfValues;
    forall v
      ensures v in Writes.UnionOfValues(FieldGrants(cat, c, roles, key), field) <==>
        ValueKept(cat, prefix, f, roles, key, field, v)
      ensures v in Writes.UnionOfValues(ByName(NamedFields(f, roles, key)), field) <==>
        ValueListed(f, roles, key, field, v)
      ensures ValueKept(cat, prefix, f, roles, key, field, v) ==> ValueListed(f, roles, key, field, v)
    {
      TablesSay(cat, c0, c, prefix, f, lo, roles, key, field, v);
      FixtureSays(f, roles, key, field, v);
      KeptIsListed(cat, prefix, f, roles, key, field, v);
    }
  }

  lemma KeptIsListed(cat: Catalogue, prefix: string, f: Fixture, roles: seq<string>, key: string, field: string,
                     v: Value)
    ensures ValueKept(cat, prefix, f, roles, key, field, v) ==> ValueListed(f, roles, key, field, v)
  {
    hide FirstOffers;
    if ValueKept(cat, prefix, f, roles, key, field, v) {
      var a: nat, g: nat :| GrantsGroup(cat, prefix, f, roles, key, a, g) && field in GroupFields(cat, g) &&
        field in f.fields[a].1.allowedValues && v in f.fields[a].1.allowedValues[field];
      assert f.fields[a] in f.fields;
    }
  }
}
