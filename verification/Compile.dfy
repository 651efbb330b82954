/** The permission file as a program: what its author reads in it is what the resolver enforces. */
module Compile {
  import opened Keys
  import opened Values
  import opened Predicates
  import opened Base
  import opened Registry
  import opened Grants
  import opened Resolver
  import opened Denotation
  import opened Upserting
  import opened Tables
  import opened DatabaseStore
  import opened Validation
  import opened Views
  import opened SpecFile
  import opened SpecRun
  import opened SpecProperties

  // ----- the meaning of a file, from its text alone

  /** No later entry of the rule names the same filter. */
  ghost predicate Chosen(entries: seq<ConditionEntry>, j: nat) {
    j < |entries| && forall k | j < k < |entries| :: entries[k].filter != entries[j].filter
  }

  function Pair(e: ConditionEntry): (string, Params) {
    (e.filter, e.params)
  }

  /** All conditions of the rule, keyed by filter, hold of one joined row. */
  ghost predicate EntryAdmits(reg: Reg, ctx: Context, e: RuleEntry, row: Row) {
    exists p ::
      p in Partners(row) && forall j: nat | Chosen(e.conditions, j) ::
        ConditionHolds(reg, ctx, Pair(e.conditions[j]), row, p)
  }

  /** The rule has conditions and they all compile to the empty predicate. */
  ghost predicate EntryEmpty(reg: Reg, ctx: Context, e: RuleEntry) {
    e.conditions != [] && forall j: nat | Chosen(e.conditions, j) :: EmptyCondition(reg, ctx, Pair(e.conditions[j]))
  }

  ghost predicate EmptyCondition(reg: Reg, ctx: Context, c: (string, Params)) {
    && c.0 in reg.conditions && Bind(reg.conditions[c.0], c.1).Ok?
    && reg.conditions[c.0].asQ(ctx, Bind(reg.conditions[c.0], c.1).value).Empty?
  }

  /** Some held permission lists the endpoint. */
  ghost predicate FileOpens(file: File, held: set<string>, key: string) {
    exists i :: 0 <= i < |file.permissions| && file.permissions[i].0 in held && key in file.permissions[i].1.endpoints
  }

  /** A rule for the key in some held permission. */
  ghost predicate FileRule(file: File, held: set<string>, key: string, e: RuleEntry) {
    exists i ::
      0 <= i < |file.permissions| && file.permissions[i].0 in held && e in file.permissions[i].1.rules && e.key == key
  }

  /** Some held permission has a rule for the key that admits the row. */
  ghost predicate FileAdmits(reg: Reg, ctx: Context, file: File, held: set<string>, key: string, row: Row) {
    exists e :: FileRule(file, held, key, e) && EntryAdmits(reg, ctx, e, row)
  }

  ghost predicate FileNarrows(reg: Reg, ctx: Context, file: File, held: set<string>, key: string) {
    forall e | FileRule(file, held, key, e) :: !EntryEmpty(reg, ctx, e)
  }

  // ----- one stored rule means its entry

  lemma KeyedByFilter(cat: Catalogue, reg: Reg, owner: nat, e: ConditionEntry, f: nat)
    requires CatalogueValid(cat) && EntryOk(cat, reg, owner, e)
    ensures Pk(cat.filters, FilterNatural, e.filter) in cat.filters
    ensures f in cat.filters ==> (NamesFilter(cat, e, f) <==> cat.filters[f].cols.key == e.filter)
  {
  }

  lemma ChosenIsLast(cat: Catalogue, reg: Reg, owner: nat, entries: seq<ConditionEntry>, f: nat, j: nat)
    requires CatalogueValid(cat) && forall e | e in entries :: EntryOk(cat, reg, owner, e)
    requires f in cat.filters && j < |entries|
    ensures LastNaming(cat, entries, f, j) <==> Chosen(entries, j) && entries[j].filter == cat.filters[f].cols.key
  {
    hide CatalogueValid, EntryOk, NamesFilter;
    forall k | 0 <= k < |entries|
      ensures NamesFilter(cat, entries[k], f) <==> cat.filters[f].cols.key == entries[k].filter
    {
      assert entries[k] in entries;
      KeyedByFilter(cat, reg, owner, entries[k], f);
    }
  }

  /** The store hands out, for a stored rule, the chosen entries of the rule in the file. */
  lemma {:induction false} RuleMeansEntry(cat: Catalogue, reg: Reg, c: Composition, key: string, r: nat, e: RuleEntry,
                                          pair: (string, Params))
    requires CatalogueValid(cat) && Refers(c, cat) && r in c.rules
    requires Stores(cat, DocOf(c, r), e) && RuleOk(cat, reg, e)
    ensures pair in RuleGrant(cat, c, key, r).conditions
      <==> exists j: nat :: Chosen(e.conditions, j) && pair == Pair(e.conditions[j])
  {
    var owner := IdentOf(cat, e).0;
    assert forall f: nat :: f in DocOf(c, r).conditions <==> (r, f) in c.conditions by {
      forall f: nat | (r, f) in c.conditions ensures f in ConditionsIn(c, r) {
        assert (r, f).1 == f;
      }
    }
    ConditionMembers(cat, c, r, pair);
    if pair in RuleGrant(cat, c, key, r).conditions {
      var f :| (r, f) in c.conditions && f in cat.filters && pair == ConditionOf(cat, c, r, f);
      WantedExact(cat, e.conditions, f);
      var j: nat :| LastNaming(cat, e.conditions, f, j);
      ChosenIsLast(cat, reg, owner, e.conditions, f, j);
      assert pair == Pair(e.conditions[j]);
    }
    if j: nat :| Chosen(e.conditions, j) && pair == Pair(e.conditions[j]) {
      var f := Pk(cat.filters, FilterNatural, e.conditions[j].filter);
      KeyedByFilter(cat, reg, owner, e.conditions[j], f);
      ChosenIsLast(cat, reg, owner, e.conditions, f, j);
      WantedExact(cat, e.conditions, f);
      assert pair == ConditionOf(cat, c, r, f);
    }
  }

  /** So its grant fails for no reason, admits the rows the entry admits, and is empty when the entry is. */
  lemma GrantMeansEntry(cat: Catalogue, reg: Reg, ctx: Context, spec: KeySpec, c: Composition, key: string, r: nat,
                        e: RuleEntry, row: Row)
    requires CatalogueValid(cat) && Refers(c, cat) && r in c.rules
    requires Stores(cat, DocOf(c, r), e) && RuleOk(cat, reg, e)
    requires FiltersDeclared(reg, cat) && spec.resource == RPartition(e.key).objectKey
    ensures !GrantFails(reg, spec, RuleGrant(cat, c, key, r))
    ensures Admits(reg, ctx, RuleGrant(cat, c, key, r), row) <==> EntryAdmits(reg, ctx, e, row)
    ensures RuleGrant(cat, c, key, r).conditions != [] && Vacuous(reg, ctx, RuleGrant(cat, c, key, r)) ==>
      EntryEmpty(reg, ctx, e)
  {
    var g := RuleGrant(cat, c, key, r);
    hide CatalogueValid, Refers, Stores, RuleOk, ConditionHolds, EmptyCondition, RuleGrant, FiltersDeclared;
    forall pair
      ensures pair in g.conditions <==> exists j: nat :: Chosen(e.conditions, j) && pair == Pair(e.conditions[j])
    {
      RuleMeansEntry(cat, reg, c, key, r, e, pair);
    }
    forall pair | pair in g.conditions
      ensures !Fails(reg, spec, pair)
    {
      var j: nat :| Chosen(e.conditions, j) && pair == Pair(e.conditions[j]);
      EntryBinds(cat, reg, spec, e, j);
    }
    forall p
      ensures AllHold(reg, ctx, g.conditions, row, p)
        <==> forall j: nat | Chosen(e.conditions, j) :: ConditionHolds(reg, ctx, Pair(e.conditions[j]), row, p)
    {
    }
    if g.conditions != [] && Vacuous(reg, ctx, g) {
      assert g.conditions[0] in g.conditions;
      forall j: nat | Chosen(e.conditions, j)
        ensures EmptyCondition(reg, ctx, Pair(e.conditions[j]))
      {
        assert Pair(e.conditions[j]) in g.conditions;
        EmptyIs(reg, ctx, Pair(e.conditions[j]));
      }
    }
  }

  lemma EmptyIs(reg: Reg, ctx: Context, c: (string, Params))
    requires c.0 in reg.conditions && Bind(reg.conditions[c.0], c.1).Ok?
    requires reg.conditions[c.0].asQ(ctx, Bind(reg.conditions[c.0], c.1).value).Empty?
    ensures EmptyCondition(reg, ctx, c)
  {
  }

  lemma EntryBinds(cat: Catalogue, reg: Reg, spec: KeySpec, e: RuleEntry, j: nat)
    requires CatalogueValid(cat) && RuleOk(cat, reg, e) && j < |e.conditions|
    requires FiltersDeclared(reg, cat) && spec.resource == RPartition(e.key).objectKey
    ensures !Fails(reg, spec, Pair(e.conditions[j]))
  {
    assert e.conditions[j] in e.conditions;
    assert EntryOk(cat, reg, IdentOf(cat, e).0, e.conditions[j]);
    assert cat.filters[PkOf(cat.filters, FilterNatural, e.conditions[j].filter)].live;
  }

  // ----- stored rules and entries correspond

  lemma StoredColumns(cat: Catalogue, c: Composition, r: nat, e: RuleEntry)
    requires CatalogueValid(cat) && r in c.rules && Stores(cat, DocOf(c, r), e)
    requires LiveAt(cat.objects, ObjectNatural, RPartition(e.key).objectKey)
    ensures c.rules[r].owner in cat.objects
    ensures cat.objects[c.rules[r].owner].cols.key == RPartition(e.key).objectKey &&
      c.rules[r].verb == RPartition(e.key).verb
  {
    hide RPartition, WantedParams, CatalogueValid, ConditionsIn;
  }

  /** A stored rule is about a key exactly when its entry is. */
  lemma SameKey(cat: Catalogue, reg: Reg, c: Composition, r: nat, e: RuleEntry, key: string)
    requires CatalogueValid(cat) && r in c.rules && Stores(cat, DocOf(c, r), e) && RuleOk(cat, reg, e)
    ensures RuleMatches(cat, c.rules[r], key) <==> e.key == key
  {
    assert RPartition(e.key).objectKey != "";
    hide RPartition, Stores, SplitOk, CatalogueValid, LiveAt;
    StoredColumns(cat, c, r, e);
    SameHalves(e.key, key);
  }

  ghost predicate Distinguished(cat: Catalogue, rules: seq<RuleEntry>) {
    forall j, k | 0 <= j < k < |rules| :: IdentOf(cat, rules[j]) != IdentOf(cat, rules[k])
  }

  lemma RuleInView(c: Composition, p: string, r: nat)
    ensures r in RulesOf(c, p) <==> r in c.rules && c.rules[r].permission == p
    ensures r in RulesOf(c, p) ==> RulesOf(c, p)[r] == DocOf(c, r)
  {
  }

  lemma EntryOfRule(cat: Catalogue, c: Composition, p: string, body: PermissionBody, r: nat) returns (e: RuleEntry)
    requires PermissionMatches(cat, c, p, body) && Distinguished(cat, body.rules)
    requires r in c.rules && c.rules[r].permission == p
    ensures e in body.rules && Stores(cat, DocOf(c, r), e)
  {
    RulesCorrespond(cat, c, p, body);
    RuleInView(c, p, r);
    hide PermissionMatches, Stores, IdentOf, RulesOf, DocOf;
    var i :| 0 <= i < |body.rules| && Stores(cat, RulesOf(c, p)[r], body.rules[i]);
    e := body.rules[i];
  }

  lemma RuleOfEntry(cat: Catalogue, c: Composition, p: string, body: PermissionBody, e: RuleEntry) returns (r: nat)
    requires PermissionMatches(cat, c, p, body) && Distinguished(cat, body.rules) && e in body.rules
    ensures r in c.rules && c.rules[r].permission == p && Stores(cat, DocOf(c, r), e)
  {
    RulesCorrespond(cat, c, p, body);
    hide PermissionMatches, Stores, IdentOf, RulesOf, DocOf;
    var i :| 0 <= i < |body.rules| && body.rules[i] == e;
    assert StoredIn(cat, RulesOf(c, p), body.rules[i]);
    r :| r in RulesOf(c, p) && Stores(cat, RulesOf(c, p)[r], e);
    RuleInView(c, p, r);
  }

  /** Tables that match a file every permission of which was accepted. */
  ghost predicate Built(cat: Catalogue, reg: Reg, c: Composition, file: File) {
    && CatalogueValid(cat) && Refers(c, cat)
    && AllMatch(cat, c, file.permissions)
    && forall i | 0 <= i < |file.permissions| ::
      BodyOk(cat, reg, RulesOf(c, file.permissions[i].0), file.permissions[i].1)
  }

  /** The same over a catalogue whose live filters the registry declares. */
  ghost predicate Deployed(cat: Catalogue, reg: Reg, c: Composition, file: File) {
    Built(cat, reg, c, file) && FiltersDeclared(reg, cat)
  }

  ghost predicate OnlyNamed(file: File, held: set<string>) {
    forall q | q in held :: Names(file, q)
  }

  lemma RulesAre(cat: Catalogue, reg: Reg, c: Composition, file: File, i: nat)
    requires Built(cat, reg, c, file) && i < |file.permissions|
    ensures PermissionMatches(cat, c, file.permissions[i].0, file.permissions[i].1)
    ensures Distinguished(cat, file.permissions[i].1.rules)
    ensures forall e | e in file.permissions[i].1.rules :: RuleOk(cat, reg, e)
    ensures EndpointsOk(cat, file.permissions[i].1.endpoints)
  {
    hide PermissionMatches, RuleOk, AtMostOne, CatalogueValid, Refers, FiltersDeclared, FieldsOk, EndpointsOk;
    assert BodyOk(cat, reg, RulesOf(c, file.permissions[i].0), file.permissions[i].1);
  }

  lemma FieldsAre(cat: Catalogue, reg: Reg, c: Composition, file: File, i: nat)
    requires Built(cat, reg, c, file) && i < |file.permissions|
    ensures CatalogueValid(cat) && FieldsOk(cat, file.permissions[i].1.fields)
    ensures GrantsOf(c, file.permissions[i].0) == WantedGrants(cat, file.permissions[i].1.fields)
    ensures EndpointsOf(c, file.permissions[i].0) == WantedEndpoints(cat, file.permissions[i].1.endpoints)
  {
    hide RulesOk, FieldsOk, EndpointsOk, GrantsOf, EndpointsOf, RulesMatch, Goals, WantedGrants, WantedEndpoints,
      CatalogueValid, Refers;
    assert PermissionMatches(cat, c, file.permissions[i].0, file.permissions[i].1);
    assert BodyOk(cat, reg, RulesOf(c, file.permissions[i].0), file.permissions[i].1);
  }

  /** Every grant the store lists comes from an entry of the file for this key, and means it. */
  lemma GrantFromFile(cat: Catalogue, reg: Reg, ctx: Context, spec: KeySpec, c: Composition, file: File,
                      roles: seq<string>, key: string, g: ObjectGrant, row: Row) returns (e: RuleEntry)
    requires Deployed(cat, reg, c, file) && OnlyNamed(file, Held(c, roles)) &&
      spec.resource == RPartition(key).objectKey
    requires g in ObjectGrants(cat, c, roles, key)
    ensures FileRule(file, Held(c, roles), key, e)
    ensures !GrantFails(reg, spec, g)
    ensures Admits(reg, ctx, g, row) <==> EntryAdmits(reg, ctx, e, row)
    ensures g.conditions != [] && Vacuous(reg, ctx, g) ==> EntryEmpty(reg, ctx, e)
  {
    hide PermissionMatches, Stores, RuleOk, CatalogueValid, Refers, FiltersDeclared, EntryAdmits, EntryEmpty, Admits,
      GrantFails, Vacuous,
      AllMatch, BodyOk, ObjectGrants, RuleGrant, RuleMatches, EndpointsOk, Held, Distinguished;
    GrantMembers(cat, c, roles, key, g);
    var r :| r in RulesFor(cat, c, roles, key) && g == RuleGrant(cat, c, key, r);
    var p := c.rules[r].permission;
    assert Names(file, p);
    var i :| 0 <= i < |file.permissions| && file.permissions[i].0 == p;
    RulesAre(cat, reg, c, file, i);
    e := EntryOfRule(cat, c, p, file.permissions[i].1, r);
    SameKey(cat, reg, c, r, e, key);
    GrantMeansEntry(cat, reg, ctx, spec, c, key, r, e, row);
  }

  /** Every entry of the file for this key is handed out as a grant that means it. */
  lemma GrantForEntry(cat: Catalogue, reg: Reg, ctx: Context, spec: KeySpec, c: Composition, file: File,
                      roles: seq<string>, key: string, e: RuleEntry, row: Row) returns (g: ObjectGrant)
    requires Deployed(cat, reg, c, file) && spec.resource == RPartition(key).objectKey
    requires FileRule(file, Held(c, roles), key, e)
    ensures g in ObjectGrants(cat, c, roles, key)
    ensures Admits(reg, ctx, g, row) <==> EntryAdmits(reg, ctx, e, row)
  {
    hide PermissionMatches, Stores, RuleOk, CatalogueValid, Refers, FiltersDeclared, EntryAdmits, EntryEmpty, Admits,
      GrantFails, Vacuous,
      AllMatch, BodyOk, ObjectGrants, RuleGrant, RuleMatches, EndpointsOk, Held, Distinguished;
    var i :| 0 <= i < |file.permissions| && file.permissions[i].0 in Held(c, roles) &&
      e in file.permissions[i].1.rules && e.key == key;
    RulesAre(cat, reg, c, file, i);
    var r := RuleOfEntry(cat, c, file.permissions[i].0, file.permissions[i].1, e);
    SameKey(cat, reg, c, r, e, key);
    GrantMeansEntry(cat, reg, ctx, spec, c, key, r, e, row);
    g := RuleGrant(cat, c, key, r);
    GrantMembers(cat, c, roles, key, g);
  }

  /** The endpoint tier of the store is the file's. */
  lemma {:induction false} EndpointsFromFile(cat: Catalogue, reg: Reg, c: Composition, file: File, roles: seq<string>,
                                             key: string)
    requires Built(cat, reg, c, file) && OnlyNamed(file, Held(c, roles))
    ensures HasEndpointGrant(cat, c, roles, key) <==> FileOpens(file, Held(c, roles), key)
  {
    hide AllMatch, BodyOk, Held;
    if HasEndpointGrant(cat, c, roles, key) {
      var x :| x in c.endpoints && x.0 in Held(c, roles) && x.1 in cat.endpoints && cat.endpoints[x.1].cols.key == key;
      assert Names(file, x.0);
      var i :| 0 <= i < |file.permissions| && file.permissions[i].0 == x.0;
      RulesAre(cat, reg, c, file, i);
      assert x.1 in EndpointsOf(c, x.0);
      var k :| k in file.permissions[i].1.endpoints && Pk(cat.endpoints, EndpointNatural, k) == x.1;
      assert LiveAt(cat.endpoints, EndpointNatural, k);
    }
    if FileOpens(file, Held(c, roles), key) {
      var i :| 0 <= i < |file.permissions| && file.permissions[i].0 in Held(c, roles) &&
        key in file.permissions[i].1.endpoints;
      RulesAre(cat, reg, c, file, i);
      var e := Pk(cat.endpoints, EndpointNatural, key);
      assert LiveAt(cat.endpoints, EndpointNatural, key);
      assert e in EndpointsOf(c, file.permissions[i].0);
      var x :| x in c.endpoints && x.0 == file.permissions[i].0 && x.1 == e;
      assert HasEndpointGrant(cat, c, roles, key);
    }
  }

  // ----- the theorem

  /** Over tables that match the file, a user all of whose permissions the file names reaches a row under a key
      exactly when some held permission lists the endpoint and some held permission, possibly another, has a
      rule for the key all of whose filter-keyed conditions hold of the row.  Resolution never errors. */
  lemma {:induction false} DeployedMeaning(cat: Catalogue, c: Composition, file: File, p: Policy, user: User,
                                           key: string, row: Row)
    requires Deployed(cat, p.reg, c, file) && ReadsFrom(p, cat, c)
    requires OnlyNamed(file, Held(c, p.principals(user)))
    requires Lookup(p.reg, key).Ok? && Lookup(p.reg, key).value.resource == RPartition(key).objectKey
    requires !Bypasses(p, user)
    requires FileNarrows(p.reg, p.contextOf(user), file, Held(c, p.principals(user)), key)
    ensures ScopeOf(p, user, key).Ok?
    ensures var held := Held(c, p.principals(user));
      InScope(ScopeOf(p, user, key).value, row) <==>
        FileOpens(file, held, key) && FileAdmits(p.reg, p.contextOf(user), file, held, key, row)
  {
    var spec, ctx, roles := Lookup(p.reg, key).value, p.contextOf(user), p.principals(user);
    var gs := GrantsFor(p, user, key);
    assert gs == ObjectGrants(cat, c, roles, key);
    assert p.store.endpoint(roles, key) == HasEndpointGrant(cat, c, roles, key);
    EndpointsFromFile(cat, p.reg, c, file, roles, key);
    NobodyHoldsNothing(c, roles);
    hide Deployed, ObjectGrants, HasEndpointGrant, Held, ReadsFrom, ScopeOf, InScope, Lookup, EntryAdmits, EntryEmpty,
      Admits, GrantFails,
      Vacuous, OnlyNamed, FileRule, FileOpens;
    forall g | g in gs
      ensures !GrantFails(p.reg, spec, g)
      ensures g.conditions != [] ==> !Vacuous(p.reg, ctx, g)
      ensures Admits(p.reg, ctx, g, row) ==> FileAdmits(p.reg, ctx, file, Held(c, roles), key, row)
    {
      var e := GrantFromFile(cat, p.reg, ctx, spec, c, file, roles, key, g, row);
    }
    if FileAdmits(p.reg, ctx, file, Held(c, roles), key, row) {
      var e :| FileRule(file, Held(c, roles), key, e) && EntryAdmits(p.reg, ctx, e, row);
      var g := GrantForEntry(cat, p.reg, ctx, spec, c, file, roles, key, e, row);
    }
    OpensNeedsHeld(file, Held(c, roles), key);
    ScopeDenotes(p, user, key, row);
  }

  lemma NobodyHoldsNothing(c: Composition, roles: seq<string>)
    ensures roles == [] ==> Held(c, roles) == {}
  {
  }

  lemma OpensNeedsHeld(file: File, held: set<string>, key: string)
    ensures FileOpens(file, held, key) ==> held != {}
  {
  }

  lemma BuiltIsDeployed(cat: Catalogue, reg: Reg, c: Composition, file: File)
    requires Built(cat, reg, c, file) && FiltersDeclared(reg, cat)
    ensures Deployed(cat, reg, c, file)
  {
  }

  lemma AppliedIsBuilt(cat: Catalogue, reg: Reg, c0: Composition, c1: Composition, file: File, lo: nat)
    requires WellFormed(cat, c0, lo)
    requires Acceptable(cat, reg, c0, file) && Applied(cat, c0, c1, file, lo)
    ensures Built(cat, reg, c1, file)
  {
    AppliedRefers(cat, reg, c0, c1, file, lo);
    SpecConverges(cat, c0, c1, file, lo);
    StillAcceptable(cat, reg, c0, c1, file, lo);
    hide Applied, AllMatch, Refers, Linked, Fits, CatalogueValid, BodyOk;
  }

  /** The permissions the file gives some of these roles. */
  ghost function Given(file: File, roles: seq<string>): set<string> {
    set i, j | 0 <= i < |file.roles| && file.roles[i].0 in roles && 0 <= j < |file.roles[i].1.permissions| ::
      file.roles[i].1.permissions[j]
  }

  lemma GivenBinds(file: File, roles: seq<string>, q: string)
    ensures q in Given(file, roles) <==> exists role :: role in roles && Binds(file, role, q)
  {
    if role :| role in roles && Binds(file, role, q) {
      var i :| 0 <= i < |file.roles| && file.roles[i].0 == role && q in file.roles[i].1.permissions;
      var j :| 0 <= j < |file.roles[i].1.permissions| && file.roles[i].1.permissions[j] == q;
    }
    if q in Given(file, roles) {
      var i, j :| 0 <= i < |file.roles| && file.roles[i].0 in roles && 0 <= j < |file.roles[i].1.permissions|
        && file.roles[i].1.permissions[j] == q;
      assert Binds(file, file.roles[i].0, q);
    }
  }

  lemma HeldFromEmpty(cat: Catalogue, reg: Reg, c0: Composition, c1: Composition, file: File, lo: nat,
                      roles: seq<string>)
    requires c0.permissions == map[] && c0.bindings == {}
    requires Acceptable(cat, reg, c0, file) && Applied(cat, c0, c1, file, lo)
    ensures Held(c1, roles) == Given(file, roles) && OnlyNamed(file, Held(c1, roles))
  {
    BindingsOnlyAdded(cat, c0, c1, file, lo);
    hide Applied, BodyOk;
    forall q
      ensures q in Held(c1, roles) <==> q in Given(file, roles)
      ensures q in Held(c1, roles) ==> Names(file, q)
    {
      GivenBinds(file, roles, q);
      if role :| role in roles && Binds(file, role, q) {
        assert (role, q) in c1.bindings;
      }
      if q in Held(c1, roles) {
        var b :| b in c1.bindings && b.0 in roles && b.1 == q;
        assert (b.0, q) in c1.bindings;
        assert Binds(file, b.0, q);
      }
    }
  }

  /** Compiling a file into empty tables preserves its meaning: what a user may reach is read off the file,
      from the roles it binds, the endpoints it lists and the conditions it writes. */
  lemma {:induction false} SpecCompiles(cat: Catalogue, c0: Composition, c1: Composition, file: File, lo: nat,
                                        p: Policy, user: User, key: string, row: Row)
    requires WellFormed(cat, c0, lo) && c0.permissions == map[] && c0.bindings == {}
    requires FiltersDeclared(p.reg, cat) && Acceptable(cat, p.reg, c0, file) && Applied(cat, c0, c1, file, lo)
    requires ReadsFrom(p, cat, c1)
    requires Lookup(p.reg, key).Ok? && Lookup(p.reg, key).value.resource == RPartition(key).objectKey
    requires !Bypasses(p, user)
    requires FileNarrows(p.reg, p.contextOf(user), file, Given(file, p.principals(user)), key)
    ensures ScopeOf(p, user, key).Ok?
    ensures var given := Given(file, p.principals(user));
      InScope(ScopeOf(p, user, key).value, row) <==>
        FileOpens(file, given, key) && FileAdmits(p.reg, p.contextOf(user), file, given, key, row)
  {
    hide WellFormed, Acceptable, Applied, Deployed, Built, ReadsFrom, FiltersDeclared, Lookup, ScopeOf, InScope,
      FileOpens, FileAdmits, FileNarrows,
      Given, Held, OnlyNamed;
    AppliedIsBuilt(cat, p.reg, c0, c1, file, lo);
    BuiltIsDeployed(cat, p.reg, c1, file);
    HeldFromEmpty(cat, p.reg, c0, c1, file, lo, p.principals(user));
    DeployedMeaning(cat, c1, file, p, user, key, row);
  }
}
