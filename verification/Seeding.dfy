/** Persisting an in-memory fixture as composed permissions, one per role. */
module Seeding {
  import opened Outcomes
  import opened Listing
  import opened Keys
  import opened Values
  import opened Grants
  import opened Upserting
  import opened Tables
  import opened Views
  import opened SpecFile
  import opened Spec
  import opened MemoryStores
  import opened Sorting

  // ----- one permission per role

  function SeedKey(prefix: string, role: string): string {
    prefix + "-" + role
  }

  function HolderRoles(roles: map<string, RoleRow>, used: set<string>): map<string, RoleRow> {
    (map r | r in used :: RoleRow(r, "")) + roles
  }

  function SeedKeys(prefix: string, used: set<string>): set<string> {
    set r | r in used :: SeedKey(prefix, r)
  }

  function HolderPermissions(permissions: map<string, PermissionRow>, prefix: string, used: set<string>)
    : map<string, PermissionRow> {
    (map k | k in SeedKeys(prefix, used) :: PermissionRow(k[|prefix| + 1..] + " (seeded)", "")) + permissions
  }

  function HolderBindings(bindings: set<(string, string)>, prefix: string, used: set<string>): set<(string, string)> {
    bindings + set r | r in used :: (r, SeedKey(prefix, r))
  }

  /** The rows that hold the grants of these roles, where they were missing. */
  function WithHolders(c: Composition, prefix: string, used: set<string>): Composition {
    c.(roles := HolderRoles(c.roles, used),
       permissions := HolderPermissions(c.permissions, prefix, used),
       bindings := HolderBindings(c.bindings, prefix, used))
  }

  lemma OneHolder(c: Composition, prefix: string, role: string)
    ensures HolderRoles(c.roles, {role}) == if role in c.roles then c.roles else c.roles[role := RoleRow(role, "")]
    ensures var p := SeedKey(prefix, role);
      HolderPermissions(c.permissions, prefix, {role}) ==
        if p in c.permissions then c.permissions else c.permissions[p := PermissionRow(role + " (seeded)", "")]
    ensures HolderBindings(c.bindings, prefix, {role}) == c.bindings + {(role, SeedKey(prefix, role))}
  {
    assert SeedKey(prefix, role)[|prefix| + 1..] == role;
    assert SeedKeys(prefix, {role}) == {SeedKey(prefix, role)};
  }

  /** Three `get_or_create`: the role, its permission, and the binding between them. */
  method PermissionFor(c: Composition, prefix: string, role: string) returns (c': Composition, p: string)
    ensures c' == WithHolders(c, prefix, {role}) && p == SeedKey(prefix, role)
  {
    c', p := c, SeedKey(prefix, role);
    OneHolder(c, prefix, role);
    hide HolderRoles, HolderPermissions, HolderBindings, SeedKey;
    if role !in c'.roles {
      c' := c'.(roles := c'.roles[role := RoleRow(role, "")]);
    }
    if p !in c'.permissions {
      c' := c'.(permissions := c'.permissions[p := PermissionRow(role + " (seeded)", "")]);
    }
    if (role, p) !in c'.bindings {
      c' := c'.(bindings := c'.bindings + {(role, p)});
    }
  }

  lemma MoreRoles(roles: map<string, RoleRow>, used: set<string>, role: string)
    ensures HolderRoles(HolderRoles(roles, used), {role}) == HolderRoles(roles, used + {role})
  {
  }

  lemma MorePermissions(permissions: map<string, PermissionRow>, prefix: string, used: set<string>, role: string)
    ensures HolderPermissions(HolderPermissions(permissions, prefix, used), prefix,
      {role}) == HolderPermissions(permissions, prefix, used + {role})
  {
    hide SeedKey;
    assert SeedKeys(prefix, used + {role}) == SeedKeys(prefix, used) + SeedKeys(prefix, {role});
    hide SeedKeys;
  }

  lemma MoreBindings(bindings: set<(string, string)>, prefix: string, used: set<string>, role: string)
    ensures HolderBindings(HolderBindings(bindings, prefix, used), prefix, {role}) == HolderBindings(bindings, prefix,
      used + {role})
  {
    hide SeedKey;
  }

  lemma MoreHolders(c: Composition, prefix: string, used: set<string>, role: string)
    ensures WithHolders(WithHolders(c, prefix, used), prefix, {role}) == WithHolders(c, prefix, used + {role})
  {
    MoreRoles(c.roles, used, role);
    MorePermissions(c.permissions, prefix, used, role);
    MoreBindings(c.bindings, prefix, used, role);
    hide HolderRoles, HolderPermissions, HolderBindings;
  }

  lemma NoMoreHolders(c: Composition, prefix: string)
    ensures WithHolders(c, prefix, {}) == c
  {
    assert SeedKeys(prefix, {}) == {};
    assert HolderBindings(c.bindings, prefix, {}) == c.bindings;
  }

  lemma HoldersLinked(c: Composition, prefix: string, used: set<string>)
    requires Linked(c)
    ensures Linked(WithHolders(c, prefix, used))
    ensures forall r | r in used :: SeedKey(prefix, r) in WithHolders(c, prefix, used).permissions
  {
    var w := WithHolders(c, prefix, used);
    forall b | b in w.bindings
      ensures b.0 in w.roles && b.1 in w.permissions
    {
      if b !in c.bindings {
        assert b.0 in used && b.1 == SeedKey(prefix, b.0);
      }
    }
  }

  /** Tables whose references and primary keys are in order. */
  ghost predicate Sane(cat: Catalogue, c: Composition, next: nat) {
    Linked(c) && Refers(c, cat) && RulesBelow(c, next)
  }

  lemma HoldersSane(cat: Catalogue, c: Composition, prefix: string, used: set<string>, next: nat)
    requires Sane(cat, c, next)
    ensures Sane(cat, WithHolders(c, prefix, used), next)
  {
    HoldersLinked(c, prefix, used);
  }

  // ----- endpoints

  ghost function SeedPairs(cat: Catalogue, prefix: string, pairs: set<(string, string)>): set<(string, nat)> {
    set x | x in pairs :: (SeedKey(prefix, x.0), Pk(cat.endpoints, EndpointNatural, x.1))
  }

  function RolesIn(pairs: set<(string, string)>): set<string> {
    set x | x in pairs :: x.0
  }

  ghost predicate PairsKnown(cat: Catalogue, pairs: set<(string, string)>) {
    forall x | x in pairs :: Holds(cat.endpoints, EndpointNatural, x.1)
  }

  ghost predicate EndpointsSeeded(cat: Catalogue, c: Composition, c': Composition, prefix: string,
                                  pairs: set<(string, string)>) {
    c' == WithHolders(c, prefix, RolesIn(pairs)).(endpoints := c.endpoints + SeedPairs(cat, prefix, pairs))
  }

  /** `objects.get`: the one row with this natural key, live or not. */
  method GetRow<V(!new), N(==,!new)>(t: Table<V>, natural: V -> N, n: N, what: string) returns (r: Result<nat>)
    requires UniqueNatural(t, natural)
    ensures r.Ok? <==> Holds(t, natural, n)
    ensures r.Ok? ==> r.value in t && r.value == Pk(t, natural, n)
  {
    if !(exists a | a in t :: natural(t[a].cols) == n) {
      return Err(MissingRow(what));
    }
    var a :| a in t && natural(t[a].cols) == n;
    r := Ok(a);
  }

  method SeedEndpoint(cat: Catalogue, c: Composition, prefix: string, x: (string, string))
    returns (r: Result<()>, c': Composition)
    requires CatalogueValid(cat)
    ensures r.Ok? <==> Holds(cat.endpoints, EndpointNatural, x.1)
    ensures r.Ok? ==> EndpointsSeeded(cat, c, c', prefix, {x})
    ensures r.Err? ==> c' == WithHolders(c, prefix, {x.0})
  {
    var p;
    c', p := PermissionFor(c, prefix, x.0);
    var row := GetRow(cat.endpoints, EndpointNatural, x.1, "endpoint");
    if row.Err? {
      return Err(row.error), c';
    }
    assert RolesIn({x}) == {x.0};
    assert SeedPairs(cat, prefix, {x}) == {(p, row.value)};
    c' := c'.(endpoints := c'.endpoints + {(p, row.value)});
    r := Ok(());
  }

  lemma SeededMore(cat: Catalogue, c: Composition, c1: Composition, c2: Composition, prefix: string,
                   done: set<(string, string)>, x: (string, string))
    requires EndpointsSeeded(cat, c, c1, prefix, done) && EndpointsSeeded(cat, c1, c2, prefix, {x})
    ensures EndpointsSeeded(cat, c, c2, prefix, done + {x})
  {
    hide HolderRoles, HolderPermissions, HolderBindings, SeedKey;
    MoreHolders(c, prefix, RolesIn(done), x.0);
    assert RolesIn({x}) == {x.0} && RolesIn(done + {x}) == RolesIn(done) + {x.0};
    assert SeedPairs(cat, prefix, done + {x}) == SeedPairs(cat, prefix, done) + SeedPairs(cat, prefix, {x});
    assert WithHolders(c1, prefix,
      {x.0}).(endpoints := c.endpoints) == WithHolders(WithHolders(c, prefix, RolesIn(done)), prefix, {x.0});
    assert c.endpoints + SeedPairs(cat, prefix, done) + SeedPairs(cat, prefix, {x}) == c.endpoints + SeedPairs(cat,
      prefix, done + {x});
  }

  lemma SeededSane(cat: Catalogue, c: Composition, c': Composition, prefix: string, pairs: set<(string, string)>,
                   next: nat)
    requires Sane(cat, c, next) && EndpointsSeeded(cat, c, c', prefix, pairs)
    requires PairsKnown(cat, pairs)
    ensures Sane(cat, c', next)
  {
    HoldersSane(cat, c, prefix, RolesIn(pairs), next);
    HoldersLinked(c, prefix, RolesIn(pairs));
    forall e | e in c'.endpoints
      ensures e.0 in c'.permissions && e.1 in cat.endpoints
    {
      if e !in c.endpoints {
        var x :| x in pairs && e == (SeedKey(prefix, x.0), Pk(cat.endpoints, EndpointNatural, x.1));
      }
    }
  }

  lemma NoneSeeded(cat: Catalogue, c: Composition, prefix: string)
    ensures EndpointsSeeded(cat, c, c, prefix, {}) && PairsKnown(cat, {})
  {
    NoMoreHolders(c, prefix);
    hide WithHolders;
    assert RolesIn({}) == {} && SeedPairs(cat, prefix, {}) == {};
  }

  method NextEndpoint(cat: Catalogue, ghost c0: Composition, c: Composition, prefix: string,
                      ghost done: set<(string, string)>, x: (string, string), ghost next: nat)
    returns (r: Result<()>, c': Composition)
    requires CatalogueValid(cat) && Sane(cat, c, next) && EndpointsSeeded(cat, c0, c, prefix, done)
    ensures Sane(cat, c', next)
    ensures r.Ok? <==> Holds(cat.endpoints, EndpointNatural, x.1)
    ensures r.Ok? ==> EndpointsSeeded(cat, c0, c', prefix, done + {x})
  {
    hide CatalogueValid, Sane, EndpointsSeeded, WithHolders, Holds;
    HoldersSane(cat, c, prefix, {x.0}, next);
    r, c' := SeedEndpoint(cat, c, prefix, x);
    if r.Ok? {
      SeededMore(cat, c0, c, c', prefix, done, x);
      assert PairsKnown(cat, {x});
      SeededSane(cat, c, c', prefix, {x}, next);
    }
  }

  method SeedEndpoints(cat: Catalogue, c: Composition, prefix: string, pairs: set<(string, string)>, ghost next: nat)
    returns (r: Result<()>, c': Composition)
    requires CatalogueValid(cat) && Sane(cat, c, next)
    ensures Sane(cat, c', next)
    ensures r.Ok? <==> PairsKnown(cat, pairs)
    ensures r.Ok? ==> EndpointsSeeded(cat, c, c', prefix, pairs)
  {
    c' := c;
    var todo := pairs;
    ghost var done: set<(string, string)> := {};
    NoneSeeded(cat, c, prefix);
    hide *;
    while todo != {}
      invariant todo <= pairs && done == pairs - todo
      invariant PairsKnown(cat, done)
      invariant EndpointsSeeded(cat, c, c', prefix, done) && Sane(cat, c', next)
      decreases |todo|
    {
      var x :| x in todo;
      todo := todo - {x};
      PairKnown(cat, done, pairs, x);
      var one;
      one, c' := NextEndpoint(cat, c, c', prefix, done, x, next);
      if one.Err? {
        return Err(one.error), c';
      }
      done := done + {x};
    }
    assert done == pairs;
    r := Ok(());
  }

  lemma PairKnown(cat: Catalogue, done: set<(string, string)>, pairs: set<(string, string)>, x: (string, string))
    requires PairsKnown(cat, done) && x in pairs
    ensures !Holds(cat.endpoints, EndpointNatural, x.1) ==> !PairsKnown(cat, pairs)
    ensures Holds(cat.endpoints, EndpointNatural, x.1) ==> PairsKnown(cat, done + {x})
  {
    hide Holds;
  }

  // ----- rules and their conditions

  /** What tells one rule from another: permission, object, verb and label. */
  type SeedIdent = (string, nat, string, string)

  function RowIdent(row: RuleRow): SeedIdent {
    (row.permission, row.owner, row.verb, row.title)
  }

  ghost function GrantIdent(cat: Catalogue, prefix: string, o: (string, ObjectGrant)): SeedIdent {
    var h := RPartition(o.1.key);
    (SeedKey(prefix, o.0), Pk(cat.objects, ObjectNatural, h.objectKey), h.verb, o.1.name)
  }

  ghost predicate SomeRow(rules: map<nat, RuleRow>, id: SeedIdent) {
    exists r :: r in rules && RowIdent(rules[r]) == id
  }

  ghost predicate OneRow(rules: map<nat, RuleRow>, id: SeedIdent) {
    forall r, s | r in rules && s in rules && RowIdent(rules[r]) == id && RowIdent(rules[s]) == id :: r == s
  }

  /** Old rules are kept, new ones are those named, and each named one is there once. */
  ghost predicate RulesSeeded(rules0: map<nat, RuleRow>, rules: map<nat, RuleRow>, ids: seq<SeedIdent>, lo: nat) {
    && (forall r | r in rules0 :: r in rules && rules[r] == rules0[r])
    && (forall r | r in rules && r !in rules0 :: r >= lo && RowIdent(rules[r]) in ids)
    && (forall id | id in ids :: SomeRow(rules, id) && OneRow(rules, id))
  }

  function CountRules(rules: map<nat, RuleRow>, p: string): nat {
    |set r | r in rules && rules[r].permission == p|
  }

  /** The rules of the same permission that were there before this one. */
  ghost function Earlier(rules: map<nat, RuleRow>, r: nat): set<nat>
    requires r in rules
  {
    set s | s in rules && s < r && rules[s].permission == rules[r].permission
  }

  /** New rules are numbered on from those their permission had. */
  ghost predicate Numbered(rules0: map<nat, RuleRow>, rules: map<nat, RuleRow>) {
    forall r | r in rules && r !in rules0 :: rules[r].order == |Earlier(rules, r)|
  }

  lemma NumberedStep(rules0: map<nat, RuleRow>, rules: map<nat, RuleRow>, next: nat, row: RuleRow)
    requires Numbered(rules0, rules) && (forall r | r in rules :: r < next) &&
      row.order == CountRules(rules, row.permission)
    requires forall r | r in rules0 :: r in rules
    ensures Numbered(rules0, rules[next := row])
  {
    var rules' := rules[next := row];
    forall r | r in rules' && r !in rules0
      ensures rules'[r].order == |Earlier(rules', r)|
    {
      if r == next {
        assert Earlier(rules', r) == set s | s in rules && rules[s].permission == row.permission;
      } else {
        assert Earlier(rules', r) == Earlier(rules, r);
      }
    }
  }

  /** One condition of one grant, in the order the fixture is worked through. */
  datatype Want = Want(id: SeedIdent, filter: nat, row: ConditionRow)

  ghost function WantOf(cat: Catalogue, id: SeedIdent, c: (string, Params), order: nat): Want {
    Want(id, Pk(cat.filters, FilterNatural, c.0), ConditionRow(c.1, order))
  }

  ghost function WantsOf(cat: Catalogue, id: SeedIdent, cs: seq<(string, Params)>): seq<Want> {
    seq(|cs|, i requires 0 <= i < |cs| => WantOf(cat, id, cs[i], i))
  }

  ghost function AllWants(cat: Catalogue, prefix: string, objects: seq<(string, ObjectGrant)>): seq<Want> {
    if objects == [] then []
    else
      var last := objects[|objects| - 1];
      AllWants(cat, prefix, objects[..|objects| - 1]) + WantsOf(cat, GrantIdent(cat, prefix, last), last.1.conditions)
  }

  ghost function Idents(cat: Catalogue, prefix: string, objects: seq<(string, ObjectGrant)>): seq<SeedIdent> {
    seq(|objects|, i requires 0 <= i < |objects| => GrantIdent(cat, prefix, objects[i]))
  }

  ghost predicate Supplies(rules: map<nat, RuleRow>, w: Want, x: (nat, nat)) {
    x.0 in rules && RowIdent(rules[x.0]) == w.id && x.1 == w.filter
  }

  ghost predicate FirstSupplies(rules: map<nat, RuleRow>, wants: seq<Want>, k: nat, x: (nat, nat)) {
    k < |wants| && Supplies(rules, wants[k], x) && forall j | 0 <= j < k :: !Supplies(rules, wants[j], x)
  }

  /** Old conditions are kept, every wanted one is there, and a new one carries what was wanted first. */
  ghost predicate ConditionsSeeded(rules: map<nat, RuleRow>, conds0: map<(nat, nat), ConditionRow>,
                                   conds: map<(nat, nat), ConditionRow>, wants: seq<Want>)
  {
    && (forall x | x in conds0 :: x in conds && conds[x] == conds0[x])
    && (forall x | x in conds && x !in conds0 ::
      exists k: nat :: FirstSupplies(rules, wants, k, x) && conds[x] == wants[k].row)
    && (forall k, x | 0 <= k < |wants| && Supplies(rules, wants[k], x) :: x in conds)
  }

  lemma WantStep(rules: map<nat, RuleRow>, conds0: map<(nat, nat), ConditionRow>, conds: map<(nat, nat), ConditionRow>,
                 wants: seq<Want>, w: Want, rule: nat)
    requires ConditionsSeeded(rules, conds0, conds, wants)
    requires rule in rules && RowIdent(rules[rule]) == w.id && OneRow(rules, w.id)
    ensures ConditionsSeeded(rules, conds0,
      if (rule, w.filter) in conds then conds else conds[(rule, w.filter) := w.row], wants + [w])
  {
    hide RowIdent;
    var x, more := (rule, w.filter), wants + [w];
    var after := if x in conds then conds else conds[x := w.row];
    assert more[|wants|] == w && forall k | 0 <= k < |wants| :: more[k] == wants[k];
    assert forall y :: Supplies(rules, w, y) <==> y == x;
    forall y | y in after && y !in conds0
      ensures exists k: nat :: FirstSupplies(rules, more, k, y) && after[y] == more[k].row
    {
      if y in conds {
        var k: nat :| FirstSupplies(rules, wants, k, y) && conds[y] == wants[k].row;
        assert FirstSupplies(rules, more, k, y);
      } else {
        assert FirstSupplies(rules, more, |wants|, y);
      }
    }
  }

  /** A new rule that nothing earlier wants anything of changes nothing about conditions. */
  lemma NewRuleStep(rules: map<nat, RuleRow>, conds0: map<(nat, nat), ConditionRow>,
                    conds: map<(nat, nat), ConditionRow>, wants: seq<Want>, rule: nat, row: RuleRow)
    requires ConditionsSeeded(rules, conds0, conds, wants)
    requires rule !in rules && forall x | x in conds :: x.0 in rules
    requires forall k | 0 <= k < |wants| :: wants[k].id != RowIdent(row)
    ensures ConditionsSeeded(rules[rule := row], conds0, conds, wants)
  {
    hide RowIdent;
    var rules' := rules[rule := row];
    forall k, x | 0 <= k < |wants|
      ensures Supplies(rules', wants[k], x) <==> Supplies(rules, wants[k], x)
    {
    }
    forall x | x in conds && x !in conds0
      ensures exists k: nat :: FirstSupplies(rules', wants, k, x) && conds[x] == wants[k].row
    {
      var k: nat :| FirstSupplies(rules, wants, k, x) && conds[x] == wants[k].row;
      assert FirstSupplies(rules', wants, k, x);
    }
  }

  lemma {:induction false} WantedIdents(cat: Catalogue, prefix: string, objects: seq<(string, ObjectGrant)>)
    ensures forall w | w in AllWants(cat, prefix, objects) :: w.id in Idents(cat, prefix, objects)
  {
    if objects != [] {
      hide GrantIdent;
      var init, last := objects[..|objects| - 1], objects[|objects| - 1];
      WantedIdents(cat, prefix, init);
      assert Idents(cat, prefix, objects) == Idents(cat, prefix, init) + [GrantIdent(cat, prefix, last)];
    }
  }

  lemma SameRows(c: Composition, id: SeedIdent)
    ensures AtMostOne(RulesOf(c, id.0), (id.1, id.2, id.3)) <==> OneRow(c.rules, id)
    ensures HasIdent(RulesOf(c, id.0), (id.1, id.2, id.3)) <==> SomeRow(c.rules, id)
    ensures forall r | r in RulesOf(c, id.0) && IdentOfDoc(RulesOf(c, id.0)[r]) == (id.1, id.2, id.3) ::
      r in c.rules && RowIdent(c.rules[r]) == id
  {
    var d, short := RulesOf(c, id.0), (id.1, id.2, id.3);
    forall r
      ensures r in d && IdentOfDoc(d[r]) == short <==> r in c.rules && RowIdent(c.rules[r]) == id
    {
    }
    hide RulesOf, IdentOfDoc, RowIdent;
  }

  /** `get_or_create` of a rule; a new one goes last. */
  method SeedRule(c: Composition, id: SeedIdent, next: nat) returns (r: Result<nat>, c': Composition, next': nat)
    requires RulesBelow(c, next)
    ensures r.Ok? <==> OneRow(c.rules, id)
    ensures r.Ok? && SomeRow(c.rules, id) ==>
      c' == c && next' == next && r.value in c.rules && RowIdent(c.rules[r.value]) == id
    ensures r.Ok? && !SomeRow(c.rules, id) ==> r.value == next && next' == next + 1
    ensures r.Ok? && !SomeRow(c.rules, id) ==>
      c' == c.(rules := c.rules[next := RuleRow(id.0, id.1, id.2, id.3, CountRules(c.rules, id.0))])
    ensures r.Err? ==> c' == c && next' == next
  {
    SameRows(c, id);
    var got;
    got, c', next' := GetOrCreateRule(c, id.0, (id.1, id.2, id.3), CountRules(c.rules, id.0), next);
    if got.Err? {
      return Err(got.error), c', next';
    }
    hide RulesOf, AtMostOne, OneRow, SomeRow, HasIdent, CountRules;
    FoundHas(RulesOf(c, id.0), (id.1, id.2, id.3), got.value.0);
    r := Ok(got.value.0);
  }

  lemma FoundHas(d: map<nat, RuleDoc>, id: Ident, r: nat)
    ensures r in d && IdentOfDoc(d[r]) == id ==> HasIdent(d, id)
  {
  }

  ghost predicate FiltersKnown(cat: Catalogue, cs: seq<(string, Params)>) {
    forall i | 0 <= i < |cs| :: Holds(cat.filters, FilterNatural, cs[i].0)
  }

  /** Any condition that was not there belongs to this rule. */
  ghost predicate ConditionsOn(cat: Catalogue, c: Composition, conds: map<(nat, nat), ConditionRow>, rule: nat) {
    forall x | x in conds :: x in c.conditions || (x.0 == rule && x.1 in cat.filters)
  }

  method SeedCondition(cat: Catalogue, ghost c: Composition, rule: nat, ghost id: SeedIdent, one: (string, Params),
                       order: nat, conds: map<(nat, nat), ConditionRow>, ghost conds0: map<(nat, nat), ConditionRow>,
                       ghost wants: seq<Want>)
    returns (r: Result<()>, conds': map<(nat, nat), ConditionRow>)
    requires CatalogueValid(cat) && rule in c.rules && RowIdent(c.rules[rule]) == id && OneRow(c.rules, id)
    requires ConditionsSeeded(c.rules, conds0, conds, wants) && ConditionsOn(cat, c, conds, rule)
    ensures r.Ok? <==> Holds(cat.filters, FilterNatural, one.0)
    ensures ConditionsOn(cat, c, conds', rule)
    ensures r.Ok? ==> ConditionsSeeded(c.rules, conds0, conds', wants + [WantOf(cat, id, one, order)])
  {
    assert UniqueNatural(cat.filters, FilterNatural);
    hide CatalogueValid, ConditionsSeeded, OneRow, RowIdent, Holds, Pk, UniqueNatural;
    conds' := conds;
    var row := GetRow(cat.filters, FilterNatural, one.0, "filter");
    if row.Err? {
      return Err(row.error), conds';
    }
    WantStep(c.rules, conds0, conds, wants, WantOf(cat, id, one, order), rule);
    if (rule, row.value) !in conds' {
      conds' := conds'[(rule, row.value) := ConditionRow(one.1, order)];
    }
    r := Ok(());
  }

  method SeedConditions(cat: Catalogue, c: Composition, rule: nat, ghost id: SeedIdent, cs: seq<(string, Params)>,
                        ghost conds0: map<(nat, nat), ConditionRow>, ghost wants: seq<Want>)
    returns (r: Result<()>, conds: map<(nat, nat), ConditionRow>)
    requires CatalogueValid(cat) && rule in c.rules && RowIdent(c.rules[rule]) == id && OneRow(c.rules, id)
    requires ConditionsSeeded(c.rules, conds0, c.conditions, wants)
    ensures r.Ok? <==> FiltersKnown(cat, cs)
    ensures ConditionsOn(cat, c, conds, rule)
    ensures r.Ok? ==> ConditionsSeeded(c.rules, conds0, conds, wants + WantsOf(cat, id, cs))
  {
    conds := c.conditions;
    ghost var dealt: seq<(string, Params)> := [];
    assert wants + WantsOf(cat, id, dealt) == wants;
    hide CatalogueValid, ConditionsSeeded, OneRow, RowIdent, Holds, WantsOf, Pk;
    for i := 0 to |cs|
      invariant |dealt| == i && dealt <= cs
      invariant FiltersKnown(cat, dealt)
      invariant ConditionsSeeded(c.rules, conds0, conds, wants + WantsOf(cat, id, dealt))
      invariant ConditionsOn(cat, c, conds, rule)
    {
      var one;
      one, conds := SeedCondition(cat, c, rule, id, cs[i], i, conds, conds0, wants + WantsOf(cat, id, dealt));
      if one.Err? {
        return Err(one.error), conds;
      }
      WantsMore(cat, id, wants, dealt, cs[i]);
      dealt := dealt + [cs[i]];
    }
    assert dealt == cs;
    r := Ok(());
  }

  lemma WantsMore(cat: Catalogue, id: SeedIdent, wants: seq<Want>, dealt: seq<(string, Params)>, c: (string, Params))
    ensures (wants + WantsOf(cat, id, dealt)) + [WantOf(cat, id, c, |dealt|)] == wants + WantsOf(cat, id, dealt + [c])
  {
    hide WantOf;
    assert WantsOf(cat, id, dealt + [c]) == WantsOf(cat, id, dealt) + [WantOf(cat, id, c, |dealt|)];
  }

  function GrantRoles<G(==)>(entries: seq<(string, G)>): set<string> {
    set o | o in entries :: o.0
  }

  ghost predicate ObjectKnown(cat: Catalogue, o: (string, ObjectGrant)) {
    Holds(cat.objects, ObjectNatural, RPartition(o.1.key).objectKey) && FiltersKnown(cat, o.1.conditions)
  }

  /** Every grant names catalogue rows, and no table row stands twice for it. */
  ghost predicate ObjectsOk(cat: Catalogue, rules: map<nat, RuleRow>, prefix: string,
                            objects: seq<(string, ObjectGrant)>) {
    forall i | 0 <= i < |objects| :: ObjectKnown(cat, objects[i]) && OneRow(rules, GrantIdent(cat, prefix, objects[i]))
  }

  /** The tables once the object grants in `dealt` have been written. */
  ghost predicate ObjectsSeeded(cat: Catalogue, c0: Composition, c: Composition, prefix: string,
                                dealt: seq<(string, ObjectGrant)>, lo: nat) {
    && c == WithHolders(c0, prefix, GrantRoles(dealt)).(rules := c.rules, conditions := c.conditions)
    && RulesSeeded(c0.rules, c.rules, Idents(cat, prefix, dealt), lo) && Numbered(c0.rules, c.rules)
    && ConditionsSeeded(c.rules, c0.conditions, c.conditions, AllWants(cat, prefix, dealt))
  }

  /** The one row of the identity: the row it had, or else a new one. */
  ghost predicate OneRowPlaced(rules: map<nat, RuleRow>, rules': map<nat, RuleRow>, id: SeedIdent, rule: nat, lo: nat) {
    && rule in rules' && RowIdent(rules'[rule]) == id
    && (SomeRow(rules, id) ==> rules' == rules)
    && (!SomeRow(rules, id) ==> rule !in rules && rule >= lo && rules' == rules[rule := rules'[rule]])
  }

  /** Which rule the grant lands on, before its conditions are looked at. */
  ghost predicate RulePlaced(c: Composition, c': Composition, id: SeedIdent, rule: nat, lo: nat) {
    && c' == c.(rules := c'.rules)
    && OneRowPlaced(c.rules, c'.rules, id, rule, lo)
    && (!SomeRow(c.rules, id) ==> NumberedLast(c.rules, rule, c'.rules[rule]))
  }

  /** A new row, numbered after the rules its permission has. */
  ghost predicate NumberedLast(rules: map<nat, RuleRow>, rule: nat, row: RuleRow) {
    (forall r | r in rules :: r < rule) && row.order == CountRules(rules, row.permission)
  }

  lemma RulesPlaced(rules0: map<nat, RuleRow>, rules: map<nat, RuleRow>, rules': map<nat, RuleRow>, ids: seq<SeedIdent>,
                    id: SeedIdent, rule: nat, lo: nat)
    requires RulesSeeded(rules0, rules, ids, lo) && OneRow(rules, id)
    requires OneRowPlaced(rules, rules', id, rule, lo)
    ensures RulesSeeded(rules0, rules', ids + [id], lo) && OneRow(rules', id)
  {
    hide RowIdent, SomeRow, OneRow, OneRowPlaced;
    ThisPlaced(rules, rules', id, rule, lo);
    RestPlaced(rules, rules', id, rule, lo);
    forall i | i in ids + [id]
      ensures SomeRow(rules', i) && OneRow(rules', i)
    {
      if i in ids {
        OtherPlaced(rules, rules', id, rule, lo, i);
      }
    }
    InLonger(ids, id);
  }

  lemma InLonger(ids: seq<SeedIdent>, id: SeedIdent)
    ensures id in ids + [id] && forall i | i in ids :: i in ids + [id]
  {
  }

  /** Old rows stay, and only the new one is new. */
  lemma RestPlaced(rules: map<nat, RuleRow>, rules': map<nat, RuleRow>, id: SeedIdent, rule: nat, lo: nat)
    requires OneRowPlaced(rules, rules', id, rule, lo)
    ensures forall r | r in rules :: r in rules' && rules'[r] == rules[r]
    ensures forall r | r in rules' && r !in rules :: r >= lo && RowIdent(rules'[r]) == id
  {
    hide RowIdent, SomeRow;
  }

  lemma ThisPlaced(rules: map<nat, RuleRow>, rules': map<nat, RuleRow>, id: SeedIdent, rule: nat, lo: nat)
    requires OneRow(rules, id) && OneRowPlaced(rules, rules', id, rule, lo)
    ensures SomeRow(rules', id) && OneRow(rules', id)
  {
    hide RowIdent;
    assert rule in rules' && RowIdent(rules'[rule]) == id;
  }

  lemma OtherPlaced(rules: map<nat, RuleRow>, rules': map<nat, RuleRow>, id: SeedIdent, rule: nat, lo: nat,
                    i: SeedIdent)
    requires SomeRow(rules, i) && OneRow(rules, i) && OneRowPlaced(rules, rules', id, rule, lo)
    ensures SomeRow(rules', i) && OneRow(rules', i)
  {
    hide RowIdent;
    var r :| r in rules && RowIdent(rules[r]) == i;
    assert r in rules' && RowIdent(rules'[r]) == i;
  }

  lemma ConditionsPlaced(cat: Catalogue, c0: Composition, c: Composition, c1: Composition, c2: Composition,
                         prefix: string, dealt: seq<(string, ObjectGrant)>, id: SeedIdent, rule: nat, lo: nat,
                         next: nat)
    requires ObjectsSeeded(cat, c0, c, prefix, dealt, lo) && Sane(cat, c1, next)
    requires c1.rules == c.rules && c1.conditions == c.conditions && RulePlaced(c1, c2, id, rule, lo)
    ensures ConditionsSeeded(c2.rules, c0.conditions, c2.conditions, AllWants(cat, prefix, dealt))
  {
    hide RowIdent, WithHolders, ConditionsSeeded;
    if !SomeRow(c.rules, id) {
      var wants := AllWants(cat, prefix, dealt);
      WantedIdents(cat, prefix, dealt);
      forall k | 0 <= k < |wants|
        ensures wants[k].id != RowIdent(c2.rules[rule])
      {
        assert wants[k] in wants;
        assert SomeRow(c.rules, wants[k].id);
      }
      NewRuleStep(c.rules, c0.conditions, c.conditions, wants, rule, c2.rules[rule]);
    }
  }

  lemma OneRowStill(cat: Catalogue, c0: Composition, c: Composition, prefix: string, dealt: seq<(string, ObjectGrant)>,
                    id: SeedIdent, lo: nat)
    requires ObjectsSeeded(cat, c0, c, prefix, dealt, lo)
    ensures OneRow(c.rules, id) <==> OneRow(c0.rules, id)
  {
    hide RowIdent, WithHolders, ConditionsSeeded;
    if id in Idents(cat, prefix, dealt) {
      assert OneRow(c.rules, id);
    } else {
      assert forall r | r in c.rules && RowIdent(c.rules[r]) == id :: r in c0.rules && c0.rules[r] == c.rules[r];
    }
  }

  lemma ObjectsStep(cat: Catalogue, c0: Composition, c: Composition, c1: Composition, c2: Composition, prefix: string,
                    dealt: seq<(string, ObjectGrant)>, o: (string, ObjectGrant), rule: nat, lo: nat,
                    conds: map<(nat, nat), ConditionRow>)
    requires ObjectsSeeded(cat, c0, c, prefix, dealt, lo)
    requires c1 == WithHolders(c, prefix, {o.0}) && OneRow(c.rules, GrantIdent(cat, prefix, o))
    requires RulePlaced(c1, c2, GrantIdent(cat, prefix, o), rule, lo)
    requires ConditionsSeeded(c2.rules, c0.conditions, conds,
      AllWants(cat, prefix, dealt) + WantsOf(cat, GrantIdent(cat, prefix, o), o.1.conditions))
    ensures ObjectsSeeded(cat, c0, c2.(conditions := conds), prefix, dealt + [o], lo)
  {
    ObjectLists(cat, prefix, dealt, o);
    HoldersFrame(c0, c, c1, c2.(conditions := conds), prefix, GrantRoles(dealt), o.0);
    RulesPlaced(c0.rules, c.rules, c2.rules, Idents(cat, prefix, dealt), GrantIdent(cat, prefix, o), rule, lo);
    if !SomeRow(c.rules, GrantIdent(cat, prefix, o)) {
      NumberedStep(c0.rules, c.rules, rule, c2.rules[rule]);
    }
    hide Numbered, RowIdent, WithHolders, ConditionsSeeded, GrantIdent, WantsOf, AllWants, Idents, GrantRoles, OneRow,
      SomeRow, RulesSeeded;
  }

  lemma ObjectLists(cat: Catalogue, prefix: string, dealt: seq<(string, ObjectGrant)>, o: (string, ObjectGrant))
    ensures Idents(cat, prefix, dealt + [o]) == Idents(cat, prefix, dealt) + [GrantIdent(cat, prefix, o)]
    ensures AllWants(cat, prefix, dealt + [o]) ==
      AllWants(cat, prefix, dealt) + WantsOf(cat, GrantIdent(cat, prefix, o), o.1.conditions)
    ensures GrantRoles(dealt + [o]) == GrantRoles(dealt) + {o.0}
  {
    hide GrantIdent, WantsOf;
    var all := dealt + [o];
    assert all[..|dealt|] == dealt && all[|dealt|] == o;
    assert forall x :: x in all <==> x in dealt || x == o;
  }

  lemma HoldersFrame(c0: Composition, c: Composition, c1: Composition, c2: Composition, prefix: string,
                     used: set<string>, role: string)
    requires c == WithHolders(c0, prefix, used).(rules := c.rules, conditions := c.conditions)
    requires c1 == WithHolders(c, prefix, {role}) && c2 == c1.(rules := c2.rules, conditions := c2.conditions)
    ensures c2 == WithHolders(c0, prefix, used + {role}).(rules := c2.rules, conditions := c2.conditions)
  {
    MoreHolders(c0, prefix, used, role);
    OnlyRules(c0, c, prefix, used, role);
    hide WithHolders;
  }

  /** Holders come and go without a look at rules and conditions. */
  lemma OnlyRules(c0: Composition, c: Composition, prefix: string, used: set<string>, role: string)
    requires c == WithHolders(c0, prefix, used).(rules := c.rules, conditions := c.conditions)
    ensures WithHolders(c, prefix, {role}) ==
      WithHolders(WithHolders(c0, prefix, used), prefix, {role}).(rules := c.rules, conditions := c.conditions)
  {
    hide HolderRoles, HolderPermissions, HolderBindings;
  }

  method SeedObject(cat: Catalogue, ghost c0: Composition, c: Composition, ghost dealt: seq<(string, ObjectGrant)>,
                    prefix: string, o: (string, ObjectGrant), ghost lo: nat, next: nat)
    returns (r: Result<()>, c': Composition, next': nat)
    requires CatalogueValid(cat) && Sane(cat, c, next) && lo <= next
    requires ObjectsSeeded(cat, c0, c, prefix, dealt, lo)
    ensures Sane(cat, c', next') && next <= next'
    ensures r.Ok? <==> ObjectKnown(cat, o) && OneRow(c0.rules, GrantIdent(cat, prefix, o))
    ensures r.Ok? ==> ObjectsSeeded(cat, c0, c', prefix, dealt + [o], lo)
  {
    next' := next;
    var p;
    c', p := PermissionFor(c, prefix, o.0);
    ghost var c1 := c';
    HoldersSane(cat, c, prefix, {o.0}, next);
    HoldersLinked(c, prefix, {o.0});
    assert c1.rules == c.rules && c1.conditions == c.conditions && p in c1.permissions;
    var h := RPartition(o.1.key);
    hide CatalogueValid, ObjectsSeeded, WithHolders, RPartition, OneRow, SomeRow, FiltersKnown, Holds, SeedKey, Linked,
      Refers, RulesBelow, RowIdent,
      ConditionsSeeded, AllWants, WantsOf;
    var owner := GetRow(cat.objects, ObjectNatural, h.objectKey, "object");
    if owner.Err? {
      return Err(owner.error), c', next';
    }
    var id := (p, owner.value, h.verb, o.1.name);
    OneRowStill(cat, c0, c, prefix, dealt, id, lo);
    var rule;
    rule, c', next' := SeedRule(c', id, next);
    if rule.Err? {
      return Err(rule.error), c', next';
    }
    Placed(cat, c1, c', id, rule.value, lo, next, next');
    ConditionsPlaced(cat, c0, c, c1, c', prefix, dealt, id, rule.value, lo, next);
    PlacedOneRow(c1, c', id, rule.value, lo);
    ghost var c2 := c';
    var done,
      conds := SeedConditions(cat, c', rule.value, id, o.1.conditions, c0.conditions, AllWants(cat, prefix, dealt));
    c' := c'.(conditions := conds);
    ConditionsSane(cat, c2, conds, rule.value, next');
    if done.Err? {
      return Err(done.error), c', next';
    }
    ObjectsStep(cat, c0, c, c1, c2, prefix, dealt, o, rule.value, lo, conds);
    r := Ok(());
  }

  lemma PlacedOneRow(c: Composition, c': Composition, id: SeedIdent, rule: nat, lo: nat)
    requires RulePlaced(c, c', id, rule, lo) && OneRow(c.rules, id)
    ensures OneRow(c'.rules, id)
  {
    hide RowIdent;
  }

  lemma Placed(cat: Catalogue, c: Composition, c': Composition, id: SeedIdent, rule: nat, lo: nat, next: nat,
               next': nat)
    requires Sane(cat, c, next) && lo <= next && id.0 in c.permissions && id.1 in cat.objects
    requires SomeRow(c.rules, id) ==> c' == c && next' == next && rule in c.rules && RowIdent(c.rules[rule]) == id
    requires !SomeRow(c.rules, id) ==> rule == next && next' == next + 1
    requires !SomeRow(c.rules, id) ==>
      c' == c.(rules := c.rules[next := RuleRow(id.0, id.1, id.2, id.3, CountRules(c.rules, id.0))])
    ensures RulePlaced(c, c', id, rule, lo) && Sane(cat, c', next') && next <= next'
  {
    hide SomeRow, CountRules;
  }

  lemma ConditionsSane(cat: Catalogue, c: Composition, conds: map<(nat, nat), ConditionRow>, rule: nat, next: nat)
    requires Sane(cat, c, next) && rule in c.rules
    requires ConditionsOn(cat, c, conds, rule)
    ensures Sane(cat, c.(conditions := conds), next)
  {
  }

  lemma NoObjects(cat: Catalogue, c: Composition, prefix: string, lo: nat)
    ensures ObjectsSeeded(cat, c, c, prefix, [], lo) && ObjectsOk(cat, c.rules, prefix, [])
  {
    NoMoreHolders(c, prefix);
    hide WithHolders;
    var none: seq<(string, ObjectGrant)> := [];
    assert GrantRoles(none) == {};
  }

  lemma ObjectFails(cat: Catalogue, rules: map<nat, RuleRow>, prefix: string, objects: seq<(string, ObjectGrant)>,
                    i: nat)
    requires i < |objects| && !(ObjectKnown(cat, objects[i]) && OneRow(rules, GrantIdent(cat, prefix, objects[i])))
    ensures !ObjectsOk(cat, rules, prefix, objects)
  {
    hide OneRow, ObjectKnown, GrantIdent;
  }

  lemma ObjectsOkStep(cat: Catalogue, rules: map<nat, RuleRow>, prefix: string, dealt: seq<(string, ObjectGrant)>,
                      o: (string, ObjectGrant))
    requires ObjectsOk(cat, rules, prefix, dealt) && ObjectKnown(cat, o) && OneRow(rules, GrantIdent(cat, prefix, o))
    ensures ObjectsOk(cat, rules, prefix, dealt + [o])
  {
    hide OneRow, ObjectKnown, GrantIdent;
  }

  method SeedObjects(cat: Catalogue, c: Composition, prefix: string, objects: seq<(string, ObjectGrant)>, next: nat)
    returns (r: Result<()>, c': Composition, next': nat)
    requires CatalogueValid(cat) && Sane(cat, c, next)
    ensures Sane(cat, c', next') && next <= next'
    ensures r.Ok? <==> ObjectsOk(cat, c.rules, prefix, objects)
    ensures r.Ok? ==> ObjectsSeeded(cat, c, c', prefix, objects, next)
  {
    c', next' := c, next;
    ghost var dealt: seq<(string, ObjectGrant)> := [];
    NoObjects(cat, c, prefix, next);
    assert Dealt(dealt, objects, 0);
    hide *;
    for i := 0 to |objects|
      invariant Dealt(dealt, objects, i)
      invariant ObjectsSeeded(cat, c, c', prefix, dealt, next) && Sane(cat, c', next') && next <= next'
      invariant ObjectsOk(cat, c.rules, prefix, dealt)
    {
      var one;
      one, c', next' := SeedObject(cat, c, c', dealt, prefix, objects[i], next, next');
      if one.Err? {
        ObjectFails(cat, c.rules, prefix, objects, i);
        return Err(one.error), c', next';
      }
      ObjectsOkStep(cat, c.rules, prefix, dealt, objects[i]);
      DealtNext(dealt, objects, i);
      dealt := dealt + [objects[i]];
    }
    DealtAll(dealt, objects);
    r := Ok(());
  }

  // ----- field grants

  /** A group of the grant's object wholly contained in its list of fields. */
  predicate GroupFits(cat: Catalogue, fg: FieldGrant, g: nat) {
    && g in cat.groups
    && cat.groups[g].cols.owner in cat.objects
    && cat.objects[cat.groups[g].cols.owner].cols.key == RPartition(fg.key).objectKey
    && forall f | f in cat.groups[g].cols.fields :: f in fg.allowedFields
  }

  function GroupFields(cat: Catalogue, g: nat): seq<string> {
    if g in cat.groups then cat.groups[g].cols.fields else []
  }

  predicate Offers(cat: Catalogue, prefix: string, o: (string, FieldGrant), x: (string, nat, string)) {
    x.0 == SeedKey(prefix, o.0) && x.2 == RPartition(o.1.key).verb && GroupFits(cat, o.1, x.1)
  }

  ghost predicate FirstOffers(cat: Catalogue, prefix: string, fields: seq<(string, FieldGrant)>, a: nat,
                              x: (string, nat, string)) {
    a < |fields| && Offers(cat, prefix, fields[a], x) && forall b | 0 <= b < a :: !Offers(cat, prefix, fields[b], x)
  }

  /** The permitted values of the group's fields, in order. */
  ghost predicate ValuesFrom(fg: FieldGrant, fields: seq<string>, row: AllowedValues) {
    && (forall f :: f in row <==> f in fg.allowedValues && f in fields)
    && forall f | f in row :: SortedList(row[f], fg.allowedValues[f])
  }

  /** The values of the group's fields can be put in order. */
  ghost predicate ValuesSort(fg: FieldGrant, fields: seq<string>) {
    forall f | f in fg.allowedValues && f in fields :: Sortable(fg.allowedValues[f])
  }

  /** Old grants are kept, every offered group is granted, and a new grant has the values of the first offer. */
  ghost predicate GrantsSeeded(cat: Catalogue, gs0: map<(string, nat, string), AllowedValues>,
                               gs: map<(string, nat, string), AllowedValues>, prefix: string,
                               fields: seq<(string, FieldGrant)>)
  {
    && (forall x | x in gs0 :: x in gs && gs[x] == gs0[x])
    && (forall x | x in gs && x !in gs0 :: exists a: nat ::
          FirstOffers(cat, prefix, fields, a, x) && ValuesFrom(fields[a].1, GroupFields(cat, x.1), gs[x]))
    && (forall a, x | 0 <= a < |fields| && Offers(cat, prefix, fields[a], x) :: x in gs)
  }

  /** One field grant written for the groups in `done`. */
  ghost predicate Offered(cat: Catalogue, gs: map<(string, nat, string), AllowedValues>,
                          gs': map<(string, nat, string), AllowedValues>, prefix: string, o: (string, FieldGrant),
                          done: set<nat>)
  {
    && (forall x | x in gs :: x in gs' && gs'[x] == gs[x])
    && (forall x | x in gs' && x !in gs :: Offers(cat, prefix, o, x) && ValuesFrom(o.1, GroupFields(cat, x.1), gs'[x]))
    && (forall x | Offers(cat, prefix, o, x) && x.1 in done :: x in gs')
  }

  lemma OffersGroup(cat: Catalogue, prefix: string, o: (string, FieldGrant), x: (string, nat, string))
    requires Offers(cat, prefix, o, x)
    ensures x.1 in cat.groups.Keys
  {
  }

  lemma OfferedAll(cat: Catalogue, gs0: map<(string, nat, string), AllowedValues>,
                   gs: map<(string, nat, string), AllowedValues>, gs': map<(string, nat, string), AllowedValues>,
                   prefix: string, dealt: seq<(string, FieldGrant)>, o: (string, FieldGrant))
    requires GrantsSeeded(cat, gs0, gs, prefix, dealt) && Offered(cat, gs, gs', prefix, o, cat.groups.Keys)
    ensures GrantsSeeded(cat, gs0, gs', prefix, dealt + [o])
  {
    hide Offers, ValuesFrom;
    var all := dealt + [o];
    assert all[|dealt|] == o && forall a | 0 <= a < |dealt| :: all[a] == dealt[a];
    forall x | x in gs' && x !in gs0
      ensures exists a: nat ::
        FirstOffers(cat, prefix, all, a, x) && ValuesFrom(all[a].1, GroupFields(cat, x.1), gs'[x])
    {
      if x in gs {
        var a: nat :| FirstOffers(cat, prefix, dealt, a, x) && ValuesFrom(dealt[a].1, GroupFields(cat, x.1), gs[x]);
        assert FirstOffers(cat, prefix, all, a, x);
      } else {
        assert FirstOffers(cat, prefix, all, |dealt|, x);
      }
    }
    forall a, x | 0 <= a < |all| && Offers(cat, prefix, all[a], x)
      ensures x in gs'
    {
      if a == |dealt| {
        OffersGroup(cat, prefix, o, x);
      } else {
        assert Offers(cat, prefix, dealt[a], x);
      }
    }
  }

  method GroupValues(fg: FieldGrant, fields: seq<string>) returns (r: Result<AllowedValues>)
    ensures r.Ok? <==> ValuesSort(fg, fields)
    ensures r.Ok? ==> ValuesFrom(fg, fields, r.value)
  {
    hide Sortable, SortedList;
    var row: AllowedValues := map[];
    var todo := set f | f in fg.allowedValues && f in fields;
    while todo != {}
      invariant todo <= set f | f in fg.allowedValues && f in fields
      invariant forall f :: f in row <==> f in fg.allowedValues && f in fields && f !in todo
      invariant forall f | f in row :: Sortable(fg.allowedValues[f]) && SortedList(row[f], fg.allowedValues[f])
      decreases |todo|
    {
      var f :| f in todo;
      todo := todo - {f};
      var values := SortValues(fg.allowedValues[f]);
      if values.Err? {
        return Err(values.error);
      }
      row := row[f := values.value];
    }
    r := Ok(row);
  }

  ghost predicate GroupsSort(cat: Catalogue, fg: FieldGrant, done: set<nat>) {
    forall g | g in done && GroupFits(cat, fg, g) :: ValuesSort(fg, GroupFields(cat, g))
  }

  lemma GroupsSortStep(cat: Catalogue, fg: FieldGrant, done: set<nat>, g: nat)
    requires GroupsSort(cat, fg, done) && (GroupFits(cat, fg, g) ==> ValuesSort(fg, GroupFields(cat, g)))
    ensures GroupsSort(cat, fg, done + {g})
  {
    hide GroupFits, ValuesSort;
  }

  lemma GroupsDoNotSort(cat: Catalogue, fg: FieldGrant, g: nat)
    requires g in cat.groups && GroupFits(cat, fg, g) && !ValuesSort(fg, GroupFields(cat, g))
    ensures !GroupsSort(cat, fg, cat.groups.Keys)
  {
    hide GroupFits, ValuesSort;
  }

  ghost predicate AnyFits(cat: Catalogue, fg: FieldGrant, done: set<nat>) {
    exists g :: g in done && GroupFits(cat, fg, g)
  }

  ghost function HolderOf(cat: Catalogue, o: (string, FieldGrant), done: set<nat>): set<string> {
    if AnyFits(cat, o.1, done) then {o.0} else {}
  }

  /** The tables once one field grant has been written for the groups in `done`. */
  ghost predicate FieldWritten(cat: Catalogue, c: Composition, c': Composition, prefix: string, o: (string, FieldGrant),
                               done: set<nat>) {
    && c' == WithHolders(c, prefix, HolderOf(cat, o, done)).(grants := c'.grants)
    && Offered(cat, c.grants, c'.grants, prefix, o, done)
  }

  lemma NothingWritten(cat: Catalogue, c: Composition, prefix: string, o: (string, FieldGrant))
    ensures FieldWritten(cat, c, c, prefix, o, {})
  {
    NoMoreHolders(c, prefix);
    hide WithHolders;
  }

  lemma SkippedGroup(cat: Catalogue, c: Composition, c': Composition, prefix: string, o: (string, FieldGrant),
                     done: set<nat>, g: nat)
    requires FieldWritten(cat, c, c', prefix, o, done) && !GroupFits(cat, o.1, g)
    ensures FieldWritten(cat, c, c', prefix, o, done + {g})
  {
    hide WithHolders, GroupFits, ValuesFrom;
    if x :| x in done + {g} && GroupFits(cat, o.1, x) {
      assert x in done;
    }
    assert AnyFits(cat, o.1, done + {g}) <==> AnyFits(cat, o.1, done);
  }

  lemma OfferedGroup(cat: Catalogue, gs: map<(string, nat, string), AllowedValues>,
                     gs1: map<(string, nat, string), AllowedValues>, prefix: string, o: (string, FieldGrant),
                     done: set<nat>, g: nat, row: AllowedValues)
    requires Offered(cat, gs, gs1, prefix, o, done) && GroupFits(cat, o.1, g) &&
      ValuesFrom(o.1, GroupFields(cat, g), row)
    ensures var x := (SeedKey(prefix, o.0), g, RPartition(o.1.key).verb);
      Offered(cat, gs, if x in gs1 then gs1 else gs1[x := row], prefix, o, done + {g})
  {
    var x := (SeedKey(prefix, o.0), g, RPartition(o.1.key).verb);
    OnlyOffer(cat, prefix, o, g);
    hide GroupFits, ValuesFrom, SeedKey, RPartition, Offers;
  }

  lemma OnlyOffer(cat: Catalogue, prefix: string, o: (string, FieldGrant), g: nat)
    requires GroupFits(cat, o.1, g)
    ensures var x := (SeedKey(prefix, o.0), g, RPartition(o.1.key).verb);
      Offers(cat, prefix, o, x) && forall y | Offers(cat, prefix, o, y) && y.1 == g :: y == x
  {
    hide GroupFits, SeedKey, RPartition;
  }

  lemma GrantedGroup(cat: Catalogue, c: Composition, c1: Composition, c2: Composition, prefix: string,
                     o: (string, FieldGrant), done: set<nat>, g: nat, row: AllowedValues)
    requires FieldWritten(cat, c, c1, prefix, o, done) && GroupFits(cat, o.1, g)
    requires ValuesFrom(o.1, GroupFields(cat, g), row)
    requires var x := (SeedKey(prefix, o.0), g, RPartition(o.1.key).verb);
      c2 == WithHolders(c1, prefix, {o.0}).(grants := if x in c1.grants then c1.grants else c1.grants[x := row])
    ensures FieldWritten(cat, c, c2, prefix, o, done + {g})
  {
    OfferedGroup(cat, c.grants, c1.grants, prefix, o, done, g, row);
    GrantedFrame(c, c1, c2, prefix, HolderOf(cat, o, done), o.0);
    NowHolder(cat, o, done, g);
    hide WithHolders, GroupFits, ValuesFrom, SeedKey, RPartition, Offered, HolderOf;
  }

  lemma NowHolder(cat: Catalogue, o: (string, FieldGrant), done: set<nat>, g: nat)
    requires GroupFits(cat, o.1, g)
    ensures HolderOf(cat, o, done) + {o.0} == HolderOf(cat, o, done + {g})
  {
    hide GroupFits;
    assert g in done + {g};
  }

  lemma GrantedFrame(c: Composition, c1: Composition, c2: Composition, prefix: string, used: set<string>, role: string)
    requires c1 == WithHolders(c, prefix, used).(grants := c1.grants)
    requires c2 == WithHolders(c1, prefix, {role}).(grants := c2.grants)
    ensures c2 == WithHolders(c, prefix, used + {role}).(grants := c2.grants)
  {
    MoreHolders(c, prefix, used, role);
    hide HolderRoles, HolderPermissions, HolderBindings;
  }

  lemma GrantSane(cat: Catalogue, c: Composition, x: (string, nat, string), row: AllowedValues, next: nat)
    requires Sane(cat, c, next) && x.0 in c.permissions && x.1 in cat.groups
    ensures Sane(cat, c.(grants := c.grants[x := row]), next)
  {
  }

  /** Where the loop over the groups stands. */
  ghost predicate FieldLoop(cat: Catalogue, c: Composition, c': Composition, prefix: string, o: (string, FieldGrant),
                            done: set<nat>, next: nat) {
    Sane(cat, c', next) && FieldWritten(cat, c, c', prefix, o, done) && GroupsSort(cat, o.1, done)
  }

  lemma FieldLoopStarts(cat: Catalogue, c: Composition, prefix: string, o: (string, FieldGrant), next: nat)
    requires Sane(cat, c, next)
    ensures FieldLoop(cat, c, c, prefix, o, {}, next)
  {
    NothingWritten(cat, c, prefix, o);
    hide Sane, FieldWritten;
  }

  lemma FieldLoopEnds(cat: Catalogue, c: Composition, c': Composition, prefix: string, o: (string, FieldGrant),
                      next: nat)
    requires FieldLoop(cat, c, c', prefix, o, cat.groups.Keys, next)
    ensures Sane(cat, c', next) && FieldWritten(cat, c, c', prefix, o, cat.groups.Keys)
    ensures GroupsSort(cat, o.1, cat.groups.Keys)
  {
  }

  /** What one group contributes: nothing if it does not fit, and otherwise one row with sorted values. */
  method SeedGroup(cat: Catalogue, ghost c: Composition, c1: Composition, prefix: string, o: (string, FieldGrant),
                   ghost done: set<nat>, g: nat, ghost next: nat)
    returns (r: Result<()>, c': Composition)
    requires FieldLoop(cat, c, c1, prefix, o, done, next) && g in cat.groups
    ensures Sane(cat, c', next)
    ensures r.Ok? <==> (GroupFits(cat, o.1, g) ==> ValuesSort(o.1, GroupFields(cat, g)))
    ensures r.Ok? ==> FieldLoop(cat, c, c', prefix, o, done + {g}, next)
  {
    hide Sane, FieldWritten, GroupFits, GroupsSort, ValuesFrom, ValuesSort, SeedKey, RPartition, WithHolders;
    if !GroupFits(cat, o.1, g) {
      SkippedGroup(cat, c, c1, prefix, o, done, g);
      GroupsSortStep(cat, o.1, done, g);
      return Ok(()), c1;
    }
    var p;
    c', p := PermissionFor(c1, prefix, o.0);
    HoldersSane(cat, c1, prefix, {o.0}, next);
    HoldersGrants(cat, c1, prefix, o.0, next);
    var row := GroupValues(o.1, GroupFields(cat, g));
    if row.Err? {
      return Err(row.error), c';
    }
    var x := (p, g, RPartition(o.1.key).verb);
    if x !in c'.grants {
      GrantSane(cat, c', x, row.value, next);
      c' := c'.(grants := c'.grants[x := row.value]);
    }
    GrantedGroup(cat, c, c1, c', prefix, o, done, g, row.value);
    GroupsSortStep(cat, o.1, done, g);
    r := Ok(());
  }

  method SeedField(cat: Catalogue, c: Composition, prefix: string, o: (string, FieldGrant), ghost next: nat)
    returns (r: Result<()>, c': Composition)
    requires Sane(cat, c, next)
    ensures Sane(cat, c', next)
    ensures r.Ok? <==> GroupsSort(cat, o.1, cat.groups.Keys)
    ensures r.Ok? ==> FieldWritten(cat, c, c', prefix, o, cat.groups.Keys)
  {
    hide Sane, FieldWritten, FieldLoop, GroupFits, GroupsSort, ValuesSort;
    c' := c;
    var todo := cat.groups.Keys;
    FieldLoopStarts(cat, c, prefix, o, next);
    assert cat.groups.Keys - todo == {};
    while todo != {}
      invariant todo <= cat.groups.Keys
      invariant FieldLoop(cat, c, c', prefix, o, cat.groups.Keys - todo, next)
      decreases |todo|
    {
      var g :| g in todo;
      r, c' := SeedGroup(cat, c, c', prefix, o, cat.groups.Keys - todo, g, next);
      if r.Err? {
        GroupsDoNotSort(cat, o.1, g);
        return;
      }
      assert cat.groups.Keys - (todo - {g}) == cat.groups.Keys - todo + {g};
      todo := todo - {g};
    }
    assert cat.groups.Keys - todo == cat.groups.Keys;
    FieldLoopEnds(cat, c, c', prefix, o, next);
    r := Ok(());
  }

  lemma HoldersGrants(cat: Catalogue, c: Composition, prefix: string, role: string, next: nat)
    requires Sane(cat, c, next)
    ensures WithHolders(c, prefix, {role}).grants == c.grants
    ensures SeedKey(prefix, role) in WithHolders(c, prefix, {role}).permissions
  {
    HoldersLinked(c, prefix, {role});
  }

  ghost function FieldRoles(cat: Catalogue, fields: seq<(string, FieldGrant)>): set<string> {
    set o | o in fields && AnyFits(cat, o.1, cat.groups.Keys) :: o.0
  }

  ghost predicate FieldsSeeded(cat: Catalogue, c: Composition, c': Composition, prefix: string,
                               dealt: seq<(string, FieldGrant)>) {
    && c' == WithHolders(c, prefix, FieldRoles(cat, dealt)).(grants := c'.grants)
    && GrantsSeeded(cat, c.grants, c'.grants, prefix, dealt)
  }

  lemma NoFields(cat: Catalogue, c: Composition, prefix: string)
    ensures FieldsSeeded(cat, c, c, prefix, [])
  {
    NoMoreHolders(c, prefix);
    hide WithHolders;
    assert FieldRoles(cat, []) == {};
  }

  lemma FieldsStep(cat: Catalogue, c: Composition, c1: Composition, c2: Composition, prefix: string,
                   dealt: seq<(string, FieldGrant)>, o: (string, FieldGrant))
    requires FieldsSeeded(cat, c, c1, prefix, dealt) && FieldWritten(cat, c1, c2, prefix, o, cat.groups.Keys)
    ensures FieldsSeeded(cat, c, c2, prefix, dealt + [o])
  {
    OfferedAll(cat, c.grants, c1.grants, c2.grants, prefix, dealt, o);
    FieldRolesStep(cat, dealt, o);
    FieldFrame(cat, c, c1, c2, prefix, FieldRoles(cat, dealt), o);
    hide WithHolders, GrantsSeeded, Offered, FieldRoles, AnyFits, HolderOf;
  }

  lemma FieldFrame(cat: Catalogue, c: Composition, c1: Composition, c2: Composition, prefix: string, used: set<string>,
                   o: (string, FieldGrant))
    requires c1 == WithHolders(c, prefix, used).(grants := c1.grants)
    requires c2 == WithHolders(c1, prefix, HolderOf(cat, o, cat.groups.Keys)).(grants := c2.grants)
    ensures c2 == WithHolders(c, prefix, used + HolderOf(cat, o, cat.groups.Keys)).(grants := c2.grants)
  {
    hide AnyFits, WithHolders;
    if AnyFits(cat, o.1, cat.groups.Keys) {
      GrantedFrame(c, c1, c2, prefix, used, o.0);
    } else {
      NoMoreHolders(c1, prefix);
      assert used + {} == used;
    }
  }

  lemma FieldRolesStep(cat: Catalogue, dealt: seq<(string, FieldGrant)>, o: (string, FieldGrant))
    ensures FieldRoles(cat, dealt + [o]) == FieldRoles(cat, dealt) + HolderOf(cat, o, cat.groups.Keys)
  {
    hide AnyFits;
    assert forall x :: x in dealt + [o] <==> x in dealt || x == o;
  }

  ghost predicate FieldsSort(cat: Catalogue, fields: seq<(string, FieldGrant)>) {
    forall i | 0 <= i < |fields| :: GroupsSort(cat, fields[i].1, cat.groups.Keys)
  }

  lemma FieldsSortStep(cat: Catalogue, dealt: seq<(string, FieldGrant)>, o: (string, FieldGrant))
    requires FieldsSort(cat, dealt) && GroupsSort(cat, o.1, cat.groups.Keys)
    ensures FieldsSort(cat, dealt + [o])
  {
    hide GroupsSort;
  }

  lemma FieldsDoNotSort(cat: Catalogue, fields: seq<(string, FieldGrant)>, i: nat)
    requires i < |fields| && !GroupsSort(cat, fields[i].1, cat.groups.Keys)
    ensures !FieldsSort(cat, fields)
  {
    hide GroupsSort;
  }

  method SeedFields(cat: Catalogue, c: Composition, prefix: string, fields: seq<(string, FieldGrant)>, ghost next: nat)
    returns (r: Result<()>, c': Composition)
    requires Sane(cat, c, next)
    ensures Sane(cat, c', next)
    ensures r.Ok? <==> FieldsSort(cat, fields)
    ensures r.Ok? ==> FieldsSeeded(cat, c, c', prefix, fields)
  {
    c' := c;
    ghost var dealt: seq<(string, FieldGrant)> := [];
    NoFields(cat, c, prefix);
    assert Dealt(dealt, fields, 0) && FieldsSort(cat, dealt);
    hide *;
    for i := 0 to |fields|
      invariant Dealt(dealt, fields, i) && FieldsSort(cat, dealt)
      invariant Sane(cat, c', next) && FieldsSeeded(cat, c, c', prefix, dealt)
    {
      ghost var was := c';
      var one;
      one, c' := SeedField(cat, c', prefix, fields[i], next);
      if one.Err? {
        FieldsDoNotSort(cat, fields, i);
        return one, c';
      }
      FieldsStep(cat, c, was, c', prefix, dealt, fields[i]);
      FieldsSortStep(cat, dealt, fields[i]);
      DealtNext(dealt, fields, i);
      dealt := dealt + [fields[i]];
    }
    DealtAll(dealt, fields);
    r := Ok(());
  }

  // ----- the whole seeding

  ghost function UsedRoles(cat: Catalogue, f: Fixture): set<string> {
    RolesIn(f.endpoints) + GrantRoles(f.objects) + FieldRoles(cat, f.fields)
  }

  ghost predicate FixtureOk(cat: Catalogue, c: Composition, prefix: string, f: Fixture) {
    PairsKnown(cat, f.endpoints) && ObjectsOk(cat, c.rules, prefix, f.objects) && FieldsSort(cat, f.fields)
  }

  /** The tables after the fixture has been written into them. */
  ghost predicate Seeded(cat: Catalogue, c0: Composition, c: Composition, prefix: string, f: Fixture, lo: nat) {
    && c == WithHolders(c0, prefix, UsedRoles(cat, f)).(endpoints := c.endpoints, rules := c.rules,
      conditions := c.conditions, grants := c.grants)
    && c.endpoints == c0.endpoints + SeedPairs(cat, prefix, f.endpoints)
    && RulesSeeded(c0.rules, c.rules, Idents(cat, prefix, f.objects), lo) && Numbered(c0.rules, c.rules)
    && ConditionsSeeded(c.rules, c0.conditions, c.conditions, AllWants(cat, prefix, f.objects))
    && GrantsSeeded(cat, c0.grants, c.grants, prefix, f.fields)
  }

  lemma RolesJoin(roles: map<string, RoleRow>, a: set<string>, b: set<string>)
    ensures HolderRoles(HolderRoles(roles, a), b) == HolderRoles(roles, a + b)
  {
  }

  lemma BindingsJoin(bindings: set<(string, string)>, prefix: string, a: set<string>, b: set<string>)
    ensures HolderBindings(HolderBindings(bindings, prefix, a), prefix, b) == HolderBindings(bindings, prefix, a + b)
  {
    hide SeedKey;
  }

  lemma HoldersJoin(c: Composition, prefix: string, a: set<string>, b: set<string>)
    ensures WithHolders(WithHolders(c, prefix, a), prefix, b) == WithHolders(c, prefix, a + b)
  {
    RolesJoin(c.roles, a, b);
    BindingsJoin(c.bindings, prefix, a, b);
    PermissionsJoin(c.permissions, prefix, a, b);
    hide HolderRoles, HolderPermissions, HolderBindings;
  }

  lemma PermissionsJoin(permissions: map<string, PermissionRow>, prefix: string, a: set<string>, b: set<string>)
    ensures HolderPermissions(HolderPermissions(permissions, prefix, a), prefix, b) == HolderPermissions(permissions,
      prefix, a + b)
  {
    hide SeedKey;
    assert SeedKeys(prefix, a + b) == SeedKeys(prefix, a) + SeedKeys(prefix, b);
    hide SeedKeys;
  }

  /** Holders, then rows, then more holders: as if all holders had come first. */
  lemma HoldersFirst(c0: Composition, c: Composition, prefix: string, a: set<string>, b: set<string>)
    requires c == WithHolders(c0, prefix, a).(endpoints := c.endpoints, rules := c.rules, conditions := c.conditions,
      grants := c.grants)
    ensures WithHolders(c, prefix, b) ==
      WithHolders(c0, prefix, a + b).(endpoints := c.endpoints, rules := c.rules, conditions := c.conditions,
        grants := c.grants)
  {
    HoldersJoin(c0, prefix, a, b);
    hide HolderRoles, HolderPermissions, HolderBindings;
  }

  lemma SeededAll(cat: Catalogue, c0: Composition, c1: Composition, c2: Composition, c3: Composition, prefix: string,
                  f: Fixture, lo: nat)
    requires EndpointsSeeded(cat, c0, c1, prefix, f.endpoints)
    requires ObjectsSeeded(cat, c1, c2, prefix, f.objects, lo) && FieldsSeeded(cat, c2, c3, prefix, f.fields)
    ensures Seeded(cat, c0, c3, prefix, f, lo)
  {
    var a, b, d := RolesIn(f.endpoints), GrantRoles(f.objects), FieldRoles(cat, f.fields);
    hide HolderRoles, HolderPermissions, HolderBindings, RulesSeeded, ConditionsSeeded, GrantsSeeded, RolesIn,
      GrantRoles, FieldRoles;
    HoldersFirst(c0, c1, prefix, a, b);
    HoldersFirst(c0, c2, prefix, a + b, d);
  }

  lemma EndpointRules(cat: Catalogue, c: Composition, c': Composition, prefix: string, pairs: set<(string, string)>)
    requires EndpointsSeeded(cat, c, c', prefix, pairs)
    ensures c'.rules == c.rules
  {
  }

  method SeedTables(cat: Catalogue, c0: Composition, f: Fixture, prefix: string, next: nat)
    returns (r: Result<()>, c: Composition, next': nat)
    requires CatalogueValid(cat) && Sane(cat, c0, next)
    ensures Sane(cat, c, next') && next <= next'
    ensures r.Ok? <==> FixtureOk(cat, c0, prefix, f)
    ensures r.Ok? ==> Seeded(cat, c0, c, prefix, f, next)
  {
    hide CatalogueValid, Sane, EndpointsSeeded, ObjectsSeeded, FieldsSeeded, Seeded, PairsKnown, ObjectsOk, FieldsSort;
    next' := next;
    r, c := SeedEndpoints(cat, c0, prefix, f.endpoints, next);
    if r.Err? {
      return;
    }
    ghost var c1 := c;
    EndpointRules(cat, c0, c1, prefix, f.endpoints);
    r, c, next' := SeedObjects(cat, c, prefix, f.objects, next);
    if r.Err? {
      return;
    }
    ghost var c2 := c;
    r, c := SeedFields(cat, c, prefix, f.fields, next');
    if r.Err? {
      return;
    }
    SeededAll(cat, c0, c1, c2, c, prefix, f, next);
  }

  /** The whole of `seed_database_from`.  There is no transaction around it: a fixture that names a missing
      row leaves what was written before, in good order. */
  method SeedDatabaseFrom(db: Database, store: MemoryStore, prefix: string) returns (r: Result<()>)
    requires db.Valid()
    modifies db`comp, db`nextPk
    ensures db.Valid()
    ensures r.Ok? <==> FixtureOk(db.cat, old(db.comp), prefix, store.Contents())
    ensures r.Ok? ==> Seeded(db.cat, old(db.comp), db.comp, prefix, store.Contents(), old(db.nextPk))
  {
    var cat, c0, next := db.cat, db.comp, db.nextPk;
    var f := Fixture(store.endpoints, store.objects, store.fields);
    assert WellFormed(cat, c0, next) && f == store.Contents();
    SaneTables(cat, c0, next);
    hide WellFormed, CatalogueValid, Sane, Seeded, FixtureOk;
    var c, next';
    r, c, next' := SeedTables(cat, c0, f, prefix, next);
    ValidAgain(cat, c0, c, next, next');
    db.comp, db.nextPk := c, next';
  }

  lemma SaneTables(cat: Catalogue, c: Composition, next: nat)
    requires WellFormed(cat, c, next)
    ensures CatalogueValid(cat) && Sane(cat, c, next)
  {
    hide CatalogueValid, Linked, Refers, CatalogueBelow;
  }

  lemma ValidAgain(cat: Catalogue, c0: Composition, c: Composition, next: nat, next': nat)
    requires WellFormed(cat, c0, next) && Sane(cat, c, next') && next <= next'
    ensures WellFormed(cat, c, next')
  {
    hide CatalogueValid, Linked, Refers;
  }
}
