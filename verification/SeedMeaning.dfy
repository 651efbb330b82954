/** What seeding demands of a fixture and what it writes, told from the fixture and the tables. */
module SeedMeaning {
  import opened Keys
  import opened Values
  import opened Upserting
  import opened Tables
  import opened Grants
  import opened MemoryStores
  import opened SpecFile
  import opened Sorting
  import opened Seeding

  // ----- which fixtures can be seeded

  /** The row of an object, live or not. */
  ghost predicate ObjectAt(cat: Catalogue, a: nat, o: string) {
    a in cat.objects && cat.objects[a].cols.key == o
  }

  ghost predicate FilterAt(cat: Catalogue, a: nat, id: string) {
    a in cat.filters && cat.filters[a].cols.key == id
  }

  ghost predicate EndpointAt(cat: Catalogue, a: nat, key: string) {
    a in cat.endpoints && cat.endpoints[a].cols.key == key
  }

  ghost predicate ObjectThere(cat: Catalogue, o: string) {
    exists a :: ObjectAt(cat, a, o)
  }

  ghost predicate FilterThere(cat: Catalogue, id: string) {
    exists a :: FilterAt(cat, a, id)
  }

  ghost predicate EndpointThere(cat: Catalogue, key: string) {
    exists a :: EndpointAt(cat, a, key)
  }

  /** A rule of the role's permission, about the object and the verb of the grant's key, labelled with its name. */
  ghost predicate RuleFor(cat: Catalogue, rules: map<nat, RuleRow>, prefix: string, o: (string, ObjectGrant), r: nat) {
    && r in rules && rules[r].permission == prefix + "-" + o.0 && rules[r].title == o.1.name
    && rules[r].verb == RPartition(o.1.key).verb && ObjectAt(cat, rules[r].owner, RPartition(o.1.key).objectKey)
  }

  lemma PkIs<V, N>(t: Table<V>, natural: V -> N, n: N, a: nat)
    requires UniqueNatural(t, natural) && a in t
    ensures natural(t[a].cols) == n <==> Holds(t, natural, n) && Pk(t, natural, n) == a
  {
  }

  lemma RuleForExactly(cat: Catalogue, rules: map<nat, RuleRow>, prefix: string, o: (string, ObjectGrant), r: nat)
    requires UniqueNatural(cat.objects, ObjectNatural)
    requires Holds(cat.objects, ObjectNatural, RPartition(o.1.key).objectKey) && r in rules
    ensures RuleFor(cat, rules, prefix, o, r) <==> RowIdent(rules[r]) == GrantIdent(cat, prefix, o)
  {
    var h := RPartition(o.1.key);
    hide RPartition, UniqueNatural;
    if rules[r].owner in cat.objects {
      PkIs(cat.objects, ObjectNatural, h.objectKey, rules[r].owner);
    }
  }

  lemma RuleForIsRule(cat: Catalogue, rules: map<nat, RuleRow>, prefix: string, o: (string, ObjectGrant), r: nat)
    requires RuleFor(cat, rules, prefix, o, r)
    ensures r in rules
  {
  }

  lemma OneRowExactly(cat: Catalogue, rules: map<nat, RuleRow>, prefix: string, o: (string, ObjectGrant))
    requires UniqueNatural(cat.objects, ObjectNatural)
    requires Holds(cat.objects, ObjectNatural, RPartition(o.1.key).objectKey)
    ensures OneRow(rules, GrantIdent(cat, prefix, o)) <==>
      forall r, s | RuleFor(cat, rules, prefix, o, r) && RuleFor(cat, rules, prefix, o, s) :: r == s
  {
    forall r | r in rules
      ensures RuleFor(cat, rules, prefix, o, r) <==> RowIdent(rules[r]) == GrantIdent(cat, prefix, o)
    {
      RuleForExactly(cat, rules, prefix, o, r);
    }
    assert forall r | RuleFor(cat, rules, prefix, o, r) :: r in rules;
    hide RuleFor, GrantIdent, RowIdent, UniqueNatural;
  }

  /** An object grant whose rows are there, and whose rule is not stored twice. */
  ghost predicate Placeable(cat: Catalogue, rules: map<nat, RuleRow>, prefix: string, o: (string, ObjectGrant)) {
    && ObjectThere(cat, RPartition(o.1.key).objectKey)
    && (forall i | 0 <= i < |o.1.conditions| :: FilterThere(cat, o.1.conditions[i].0))
    && forall r, s | RuleFor(cat, rules, prefix, o, r) && RuleFor(cat, rules, prefix, o, s) :: r == s
  }

  lemma ObjectHolds(cat: Catalogue, o: string)
    ensures Holds(cat.objects, ObjectNatural, o) <==> ObjectThere(cat, o)
  {
    if a :| ObjectAt(cat, a, o) {
      assert ObjectNatural(cat.objects[a].cols) == o;
    }
    if Holds(cat.objects, ObjectNatural, o) {
      assert ObjectAt(cat, PkOf(cat.objects, ObjectNatural, o), o);
    }
  }

  lemma FilterHolds(cat: Catalogue, id: string)
    ensures Holds(cat.filters, FilterNatural, id) <==> FilterThere(cat, id)
  {
    if a :| FilterAt(cat, a, id) {
      assert FilterNatural(cat.filters[a].cols) == id;
    }
    if Holds(cat.filters, FilterNatural, id) {
      assert FilterAt(cat, PkOf(cat.filters, FilterNatural, id), id);
    }
  }

  lemma PlaceableExactly(cat: Catalogue, rules: map<nat, RuleRow>, prefix: string, o: (string, ObjectGrant))
    requires UniqueNatural(cat.objects, ObjectNatural)
    ensures Placeable(cat, rules, prefix, o) <==> ObjectKnown(cat, o) && OneRow(rules, GrantIdent(cat, prefix, o))
  {
    hide RPartition, OneRow, RuleFor, UniqueNatural, Holds, ObjectThere, FilterThere, GrantIdent;
    ObjectHolds(cat, RPartition(o.1.key).objectKey);
    forall id
      ensures Holds(cat.filters, FilterNatural, id) <==> FilterThere(cat, id)
    {
      FilterHolds(cat, id);
    }
    if Holds(cat.objects, ObjectNatural, RPartition(o.1.key).objectKey) {
      OneRowExactly(cat, rules, prefix, o);
    }
  }

  /** Any two of the values are both strings or both numbers. */
  ghost predicate Ordered(values: set<Value>) {
    forall a, b | a in values && b in values && a != b ::
      (a.Str? && b.Str?) || ((a.Int? || a.Bool?) && (b.Int? || b.Bool?))
  }

  /** A group of the object of the grant, every field of which the grant lists. */
  ghost predicate Listable(cat: Catalogue, fg: FieldGrant, g: nat) {
    && g in cat.groups && ObjectAt(cat, cat.groups[g].cols.owner, RPartition(fg.key).objectKey)
    && forall f | f in cat.groups[g].cols.fields :: f in fg.allowedFields
  }

  lemma SortableFields(cat: Catalogue, fg: FieldGrant)
    ensures GroupsSort(cat, fg, cat.groups.Keys) <==>
      forall g, f | Listable(cat, fg, g) && f in cat.groups[g].cols.fields && f in fg.allowedValues ::
        Ordered(fg.allowedValues[f])
  {
    hide RPartition, Ordered, Sortable;
    forall values
      ensures Sortable(values) <==> Ordered(values)
    {
      SortableAlike(values);
    }
    forall g
      ensures Listable(cat, fg, g) <==> g in cat.groups.Keys && GroupFits(cat, fg, g)
    {
    }
    hide Listable, GroupFits;
  }

  lemma SortableAlike(values: set<Value>)
    ensures Sortable(values) <==> Ordered(values)
  {
    SortableExactly(values);
  }

  /** Seeding succeeds exactly when every endpoint, object and filter the fixture names has a row, no rule of its is
      stored twice, and the values permitted for a field of a group it grants can be put in order. */
  lemma SeedableExactly(cat: Catalogue, c: Composition, prefix: string, f: Fixture)
    requires CatalogueValid(cat)
    ensures FixtureOk(cat, c, prefix, f) <==>
      && (forall x | x in f.endpoints :: EndpointThere(cat, x.1))
      && (forall i | 0 <= i < |f.objects| :: Placeable(cat, c.rules, prefix, f.objects[i]))
      && (forall i, g, name | 0 <= i < |f.fields| && Listable(cat, f.fields[i].1, g)
            && name in cat.groups[g].cols.fields && name in f.fields[i].1.allowedValues ::
            Ordered(f.fields[i].1.allowedValues[name]))
  {
    forall key
      ensures Holds(cat.endpoints, EndpointNatural, key) <==> EndpointThere(cat, key)
    {
      if e :| EndpointAt(cat, e, key) {
        assert EndpointNatural(cat.endpoints[e].cols) == key;
      }
      if Holds(cat.endpoints, EndpointNatural, key) {
        assert EndpointAt(cat, PkOf(cat.endpoints, EndpointNatural, key), key);
      }
    }
    forall i | 0 <= i < |f.objects|
      ensures Placeable(cat, c.rules, prefix, f.objects[i]) <==>
        ObjectKnown(cat, f.objects[i]) && OneRow(c.rules, GrantIdent(cat, prefix, f.objects[i]))
    {
      PlaceableExactly(cat, c.rules, prefix, f.objects[i]);
    }
    forall i | 0 <= i < |f.fields|
      ensures GroupsSort(cat, f.fields[i].1, cat.groups.Keys) <==>
        forall g, name | Listable(cat, f.fields[i].1, g) && name in cat.groups[g].cols.fields
          && name in f.fields[i].1.allowedValues :: Ordered(f.fields[i].1.allowedValues[name])
    {
      SortableFields(cat, f.fields[i].1);
    }
    hide Holds, EndpointThere, Placeable, ObjectKnown, OneRow, GrantIdent, GroupsSort, Listable, Ordered,
      CatalogueValid;
  }

  // ----- who holds what is seeded

  /** The fixture gives the role an endpoint, an object grant, or a field grant with a group to grant. */
  ghost predicate Uses(cat: Catalogue, f: Fixture, role: string) {
    || (exists key :: (role, key) in f.endpoints)
    || (exists i :: 0 <= i < |f.objects| && f.objects[i].0 == role)
    || (exists i, g :: 0 <= i < |f.fields| && f.fields[i].0 == role && Listable(cat, f.fields[i].1, g))
  }

  lemma PairUses(f: Fixture, role: string)
    ensures role in RolesIn(f.endpoints) <==> exists key :: (role, key) in f.endpoints
  {
    if x :| x in f.endpoints && x.0 == role {
      assert (role, x.1) in f.endpoints;
    }
    if key :| (role, key) in f.endpoints {
      assert (role, key).0 == role;
    }
  }

  lemma FieldUses(cat: Catalogue, f: Fixture, role: string)
    ensures role in FieldRoles(cat, f.fields) <==>
      exists i, g :: 0 <= i < |f.fields| && f.fields[i].0 == role && Listable(cat, f.fields[i].1, g)
  {
    forall fg, g
      ensures Listable(cat, fg, g) <==> g in cat.groups.Keys && GroupFits(cat, fg, g)
    {
    }
    hide Listable, GroupFits;
    if i, g :| 0 <= i < |f.fields| && f.fields[i].0 == role && Listable(cat, f.fields[i].1, g) {
      assert f.fields[i] in f.fields && AnyFits(cat, f.fields[i].1, cat.groups.Keys);
    }
    if role in FieldRoles(cat, f.fields) {
      var o :| o in f.fields && AnyFits(cat, o.1, cat.groups.Keys) && o.0 == role;
      var i :| 0 <= i < |f.fields| && f.fields[i] == o;
      var g :| g in cat.groups.Keys && GroupFits(cat, o.1, g);
      assert Listable(cat, f.fields[i].1, g);
    }
  }

  lemma UsesExactly(cat: Catalogue, f: Fixture, role: string)
    ensures role in UsedRoles(cat, f) <==> Uses(cat, f, role)
  {
    PairUses(f, role);
    FieldUses(cat, f, role);
    hide Listable, RolesIn, FieldRoles;
    assert role in GrantRoles(f.objects) <==> exists i :: 0 <= i < |f.objects| && f.objects[i].0 == role;
    hide GrantRoles;
  }

  /** Each role the fixture uses is there, labelled with its key if it is new, and is bound to the permission of its
      own, named after it if that is new; no row that was there is changed, and no other role, permission or binding
      is made. */
  lemma HoldersExactly(cat: Catalogue, c0: Composition, c: Composition, prefix: string, f: Fixture, lo: nat,
                       role: string)
    requires Seeded(cat, c0, c, prefix, f, lo)
    ensures role in c.roles <==> role in c0.roles || Uses(cat, f, role)
    ensures role in c0.roles ==> c.roles[role] == c0.roles[role]
    ensures role in c.roles && role !in c0.roles ==> c.roles[role] == RoleRow(role, "")
    ensures var p := prefix + "-" + role;
      && (p in c.permissions <==> p in c0.permissions || Uses(cat, f, role))
      && (p in c0.permissions ==> c.permissions[p] == c0.permissions[p])
      && (p in c.permissions && p !in c0.permissions ==> c.permissions[p] == PermissionRow(role + " (seeded)", ""))
    ensures forall p | p in c.permissions && p !in c0.permissions ::
      exists r :: Uses(cat, f, r) && p == prefix + "-" + r
    ensures forall p :: (role, p) in c.bindings <==>
      (role, p) in c0.bindings || (p == prefix + "-" + role && Uses(cat, f, role))
  {
    var used := UsedRoles(cat, f);
    forall r
      ensures r in used <==> Uses(cat, f, r)
    {
      UsesExactly(cat, f, r);
    }
    hide UsedRoles, Uses, SeedPairs, RulesSeeded, Numbered, ConditionsSeeded, GrantsSeeded;
    assert SeedKey(prefix, role)[|prefix| + 1..] == role;
    forall r
      ensures SeedKey(prefix, r) == SeedKey(prefix, role) ==> r == role
    {
      assert SeedKey(prefix, r)[|prefix| + 1..] == r;
    }
  }

  // ----- what they hold

  /** The endpoints afterwards are those of before and, for each pair of the fixture, the row of its endpoint. */
  lemma EndpointsExactly(cat: Catalogue, c0: Composition, c: Composition, prefix: string, f: Fixture, lo: nat,
                         p: string, e: nat)
    requires CatalogueValid(cat) && Seeded(cat, c0, c, prefix, f, lo) && FixtureOk(cat, c0, prefix, f)
    ensures (p, e) in c.endpoints <==>
      (p, e) in c0.endpoints || exists role, key ::
        (role, key) in f.endpoints && p == prefix + "-" + role && EndpointAt(cat, e, key)
  {
    hide WithHolders, RulesSeeded, Numbered, ConditionsSeeded, GrantsSeeded, ObjectsOk, FieldsSort;
    assert UniqueNatural(cat.endpoints, EndpointNatural);
    hide CatalogueValid;
    if (p, e) in SeedPairs(cat, prefix, f.endpoints) {
      var x :| x in f.endpoints && (p, e) == (SeedKey(prefix, x.0), Pk(cat.endpoints, EndpointNatural, x.1));
      assert (x.0, x.1) in f.endpoints && EndpointAt(cat, e, x.1);
    }
    if role, key :| (role, key) in f.endpoints && p == prefix + "-" + role && EndpointAt(cat, e, key) {
      PkIs(cat.endpoints, EndpointNatural, key, e);
      assert (SeedKey(prefix, (role, key).0), Pk(cat.endpoints, EndpointNatural, (role, key).1)) in
        SeedPairs(cat, prefix, f.endpoints);
    }
  }

  ghost predicate HasRule(cat: Catalogue, rules: map<nat, RuleRow>, prefix: string, o: (string, ObjectGrant)) {
    exists r :: RuleFor(cat, rules, prefix, o, r)
  }

  ghost predicate HasOneRule(cat: Catalogue, rules: map<nat, RuleRow>, prefix: string, o: (string, ObjectGrant)) {
    && HasRule(cat, rules, prefix, o)
    && forall r, s | RuleFor(cat, rules, prefix, o, r) && RuleFor(cat, rules, prefix, o, s) :: r == s
  }

  lemma RuleThere(cat: Catalogue, rules0: map<nat, RuleRow>, rules: map<nat, RuleRow>, prefix: string, f: Fixture,
                  lo: nat, i: nat)
    requires UniqueNatural(cat.objects, ObjectNatural) && i < |f.objects| && ObjectKnown(cat, f.objects[i])
    requires RulesSeeded(rules0, rules, Idents(cat, prefix, f.objects), lo)
    ensures HasOneRule(cat, rules, prefix, f.objects[i])
  {
    var id, o := GrantIdent(cat, prefix, f.objects[i]), f.objects[i];
    assert Idents(cat, prefix, f.objects)[i] == id;
    hide Idents, GrantIdent, UniqueNatural, RPartition;
    assert SomeRow(rules, id) && OneRow(rules, id);
    OneRowExactly(cat, rules, prefix, o);
    var r :| r in rules && RowIdent(rules[r]) == id;
    RuleForExactly(cat, rules, prefix, o, r);
  }

  ghost predicate IsOfGrant(cat: Catalogue, rules: map<nat, RuleRow>, prefix: string, f: Fixture, r: nat) {
    exists i :: 0 <= i < |f.objects| && RuleFor(cat, rules, prefix, f.objects[i], r)
  }

  lemma NewRule(cat: Catalogue, rules0: map<nat, RuleRow>, rules: map<nat, RuleRow>, prefix: string, f: Fixture,
                lo: nat, r: nat)
    requires UniqueNatural(cat.objects, ObjectNatural)
    requires forall i | 0 <= i < |f.objects| :: ObjectKnown(cat, f.objects[i])
    requires RulesSeeded(rules0, rules, Idents(cat, prefix, f.objects), lo) && r in rules && r !in rules0
    ensures IsOfGrant(cat, rules, prefix, f, r)
  {
    var ids := Idents(cat, prefix, f.objects);
    assert RowIdent(rules[r]) in ids;
    var i :| 0 <= i < |ids| && ids[i] == RowIdent(rules[r]);
    hide UniqueNatural, RPartition, RuleFor;
    RuleForExactly(cat, rules, prefix, f.objects[i], r);
  }

  /** Each object grant has its one rule; rules that were there are unchanged, and a new one is of some grant and has
      as its place how many rules its permission had before it. */
  lemma RulesExactly(cat: Catalogue, c0: Composition, c: Composition, prefix: string, f: Fixture, lo: nat)
    requires CatalogueValid(cat) && Seeded(cat, c0, c, prefix, f, lo) && FixtureOk(cat, c0, prefix, f)
    ensures forall i | 0 <= i < |f.objects| :: HasOneRule(cat, c.rules, prefix, f.objects[i])
    ensures forall r | r in c0.rules :: r in c.rules && c.rules[r] == c0.rules[r]
    ensures forall r | r in c.rules && r !in c0.rules ::
      && IsOfGrant(cat, c.rules, prefix, f, r)
      && c.rules[r].order == |set s | s in c.rules && s < r && c.rules[s].permission == c.rules[r].permission|
  {
    assert UniqueNatural(cat.objects, ObjectNatural);
    hide WithHolders, ConditionsSeeded, GrantsSeeded, PairsKnown, FieldsSort, RuleFor, ObjectKnown, OneRow,
      CatalogueValid, UniqueNatural, Idents, UsedRoles, SeedPairs;
    forall i | 0 <= i < |f.objects|
      ensures HasOneRule(cat, c.rules, prefix, f.objects[i])
    {
      RuleThere(cat, c0.rules, c.rules, prefix, f, lo, i);
    }
    hide HasOneRule, IsOfGrant;
    forall r | r in c.rules && r !in c0.rules
      ensures IsOfGrant(cat, c.rules, prefix, f, r)
    {
      NewRule(cat, c0.rules, c.rules, prefix, f, lo, r);
    }
  }
}
