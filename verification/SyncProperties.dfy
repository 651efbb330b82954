/** What a whole sync run guarantees, and what it leaves alone. */
module SyncProperties {
  import opened Keys
  import opened Registry
  import opened Upserting
  import opened Tables
  import opened Sync
  import opened DatabaseStore

  /** Two catalogues that differ at most in when rows were last seen. */
  ghost predicate SameCatalogue(a: Catalogue, b: Catalogue) {
    && SameButSeen(a.objects, b.objects)
    && SameButSeen(a.endpoints, b.endpoints)
    && SameButSeen(a.filters, b.filters)
    && SameButSeen(a.groups, b.groups)
    && SameButSeen(a.points, b.points)
  }

  /** A run reports a change exactly when some column other than the time last seen differs. */
  lemma SyncChangedExactly(before: Catalogue, after: Catalogue, reg: Reg, now: int, r: TablesReport)
    requires CatalogueValid(before)
    requires Synced(before, after, reg, now)
    requires Reported(before, reg, Places(reg, after.objects), r)
    ensures r.Changed() <==> !SameCatalogue(before, after)
  {
    var pks := Places(reg, after.objects);
    ChangedExactly(before.objects, after.objects, ObjectWanted(reg), ObjectNatural, now, r.objects);
    ChangedExactly(before.endpoints, after.endpoints, EndpointWanted(reg), EndpointNatural, now, r.endpoints);
    ChangedExactly(before.filters, after.filters, FilterWanted(reg, pks), FilterNatural, now, r.filters);
    ChangedExactly(before.groups, after.groups, GroupWanted(reg, pks), GroupNatural, now, r.groups);
    ChangedExactly(before.points, after.points, PointWanted(reg, pks), PointNatural, now, r.points);
  }

  lemma PlacesStay(reg: Reg, t: Table<ObjectCols>, t': Table<ObjectCols>)
    requires UniqueNatural(t, ObjectNatural) && UniqueNatural(t', ObjectNatural)
    requires SameButSeen(t, t')
    ensures Places(reg, t) == Places(reg, t')
  {
    forall k | k in Places(reg, t)
      ensures k in Places(reg, t') && Places(reg, t')[k] == Places(reg, t)[k]
    {
      var a := Places(reg, t)[k];
      assert a in t' && ObjectNatural(t'[a].cols) == k;
    }
    forall k | k in Places(reg, t')
      ensures k in Places(reg, t)
    {
      var a := Places(reg, t')[k];
      assert a in t && ObjectNatural(t[a].cols) == k;
    }
  }

  lemma QuietTable<V, N>(t0: Table<V>, t1: Table<V>, t2: Table<V>, wanted: map<N, V>, natural: V -> N, now: int,
                         later: int, r: TableReport)
    requires Reconciled(t0, t1, wanted, natural, now)
    requires Reconciled(t1, t2, wanted, natural, later)
    requires Accounts(t1, wanted, natural, r)
    ensures !r.Changed() && SameButSeen(t1, t2)
  {
    SecondRunQuiet(t0, t1, wanted, natural, now);
    QuietExactly(t1, wanted, natural, r);
    ChangedExactly(t1, t2, wanted, natural, later, r);
  }

  /** A second run against an unchanged registry creates, updates, revives and retires nothing; only the
      time last seen moves. */
  lemma SyncIdempotent(c0: Catalogue, c1: Catalogue, c2: Catalogue, reg: Reg, now: int, later: int, r: TablesReport)
    requires Synced(c0, c1, reg, now)
    requires Synced(c1, c2, reg, later)
    requires Reported(c1, reg, Places(reg, c2.objects), r)
    ensures !r.Changed() && SameCatalogue(c1, c2)
  {
    QuietTable(c0.objects, c1.objects, c2.objects, ObjectWanted(reg), ObjectNatural, now, later, r.objects);
    PlacesStay(reg, c1.objects, c2.objects);
    var pks := Places(reg, c2.objects);
    QuietTable(c0.endpoints, c1.endpoints, c2.endpoints, EndpointWanted(reg), EndpointNatural, now, later, r.endpoints);
    QuietTable(c0.filters, c1.filters, c2.filters, FilterWanted(reg, pks), FilterNatural, now, later, r.filters);
    QuietTable(c0.groups, c1.groups, c2.groups, GroupWanted(reg, pks), GroupNatural, now, later, r.groups);
    QuietTable(c0.points, c1.points, c2.points, PointWanted(reg, pks), PointNatural, now, later, r.points);
  }

  // ----- grants do not move

  /** Old rows keep their primary and natural keys. */
  ghost predicate NaturalsKept<V, N>(before: Table<V>, after: Table<V>, natural: V -> N) {
    forall a | a in before :: a in after && natural(after[a].cols) == natural(before[a].cols)
  }

  lemma ReconciledKeepsNaturals<V, N>(before: Table<V>, after: Table<V>, wanted: map<N, V>, natural: V -> N, now: int)
    requires Reconciled(before, after, wanted, natural, now)
    ensures NaturalsKept(before, after, natural)
  {
    forall a | a in before
      ensures a in after && natural(after[a].cols) == natural(before[a].cols)
    {
      LiveMeansDeclared(before, after, wanted, natural, now, a);
    }
  }

  ghost predicate CatalogueKept(before: Catalogue, after: Catalogue) {
    && NaturalsKept(before.objects, after.objects, ObjectNatural)
    && NaturalsKept(before.endpoints, after.endpoints, EndpointNatural)
    && NaturalsKept(before.filters, after.filters, FilterNatural)
    && NaturalsKept(before.groups, after.groups, GroupNatural)
  }

  lemma SyncKeepsNaturals(before: Catalogue, after: Catalogue, reg: Reg, now: int)
    requires Synced(before, after, reg, now)
    ensures CatalogueKept(before, after)
  {
    var pks := Places(reg, after.objects);
    ReconciledKeepsNaturals(before.objects, after.objects, ObjectWanted(reg), ObjectNatural, now);
    ReconciledKeepsNaturals(before.endpoints, after.endpoints, EndpointWanted(reg), EndpointNatural, now);
    ReconciledKeepsNaturals(before.filters, after.filters, FilterWanted(reg, pks), FilterNatural, now);
    ReconciledKeepsNaturals(before.groups, after.groups, GroupWanted(reg, pks), GroupNatural, now);
  }

  lemma ObjectKeysKept(before: Catalogue, after: Catalogue, o: nat)
    requires CatalogueKept(before, after) && o in before.objects
    ensures o in after.objects && after.objects[o].cols.key == before.objects[o].cols.key
  {
    assert ObjectNatural(after.objects[o].cols) == ObjectNatural(before.objects[o].cols);
  }

  lemma EndpointGrantsKept(before: Catalogue, after: Catalogue, comp: Composition, roles: seq<string>, key: string)
    requires CatalogueKept(before, after) && Refers(comp, before)
    ensures HasEndpointGrant(before, comp, roles, key) <==> HasEndpointGrant(after, comp, roles, key)
  {
    forall e | e in comp.endpoints
      ensures e.1 in after.endpoints && after.endpoints[e.1].cols.key == before.endpoints[e.1].cols.key
    {
      assert EndpointNatural(after.endpoints[e.1].cols) == EndpointNatural(before.endpoints[e.1].cols);
    }
  }

  lemma ConditionsKept(before: Catalogue, after: Catalogue, comp: Composition, r: nat)
    requires CatalogueKept(before, after) && Refers(comp, before)
    ensures ConditionsOf(before, comp, r) == ConditionsOf(after, comp, r)
  {
    assert ConditionFilters(before, comp, r) == ConditionFilters(after, comp, r);
    forall f | f in ConditionFilters(before, comp, r)
      ensures ConditionOf(before, comp, r, f) == ConditionOf(after, comp, r, f)
    {
      assert FilterNatural(after.filters[f].cols) == FilterNatural(before.filters[f].cols);
    }
  }

  lemma ObjectGrantsKept(before: Catalogue, after: Catalogue, comp: Composition, roles: seq<string>, key: string)
    requires CatalogueKept(before, after) && Refers(comp, before)
    ensures ObjectGrants(before, comp, roles, key) == ObjectGrants(after, comp, roles, key)
  {
    forall r | r in comp.rules
      ensures RuleMatches(before, comp.rules[r], key) <==> RuleMatches(after, comp.rules[r], key)
    {
      ObjectKeysKept(before, after, comp.rules[r].owner);
    }
    assert RulesFor(before, comp, roles, key) == RulesFor(after, comp, roles, key);
    hide RuleMatches;
    forall r | r in RulesFor(before, comp, roles, key)
      ensures RuleGrant(before, comp, key, r) == RuleGrant(after, comp, key, r)
    {
      ConditionsKept(before, after, comp, r);
    }
    hide CatalogueKept, Refers, RuleGrant;
  }

  /** A sync never alters what composed permissions grant: the endpoint and object answers are the same
      before and after it, for every registry, roles and key. */
  lemma SyncKeepsGrants(before: Catalogue, after: Catalogue, comp: Composition, reg: Reg, now: int, roles: seq<string>,
                        key: string)
    requires Refers(comp, before)
    requires Synced(before, after, reg, now)
    ensures HasEndpointGrant(before, comp, roles, key) <==> HasEndpointGrant(after, comp, roles, key)
    ensures ObjectGrants(before, comp, roles, key) == ObjectGrants(after, comp, roles, key)
  {
    SyncKeepsNaturals(before, after, reg, now);
    EndpointGrantsKept(before, after, comp, roles, key);
    ObjectGrantsKept(before, after, comp, roles, key);
  }

  /** The field answer can move in one way only: the grants are the same, and the fields of a group differ
      only if the registry still declares that group. */
  lemma SyncMovesOnlyDeclaredGroups(before: Catalogue, after: Catalogue, comp: Composition, reg: Reg, now: int,
                                    roles: seq<string>, key: string)
    requires CatalogueValid(before) && Refers(comp, before)
    requires Synced(before, after, reg, now)
    ensures FieldGrantsFor(before, comp, roles, key) == FieldGrantsFor(after, comp, roles, key)
    ensures forall g | g in FieldGrantsFor(before, comp, roles, key) :: OnlyFieldsMove(before, after, comp, reg, key, g)
  {
    SyncKeepsNaturals(before, after, reg, now);
    FieldGrantsStay(before, after, comp, roles, key);
    forall g | g in FieldGrantsFor(before, comp, roles, key)
      ensures OnlyFieldsMove(before, after, comp, reg, key, g)
    {
      GroupMoves(before, after, comp, reg, now, key, g);
    }
  }

  lemma FieldGrantsStay(before: Catalogue, after: Catalogue, comp: Composition, roles: seq<string>, key: string)
    requires CatalogueValid(before) && CatalogueKept(before, after) && Refers(comp, before)
    ensures FieldGrantsFor(before, comp, roles, key) == FieldGrantsFor(after, comp, roles, key)
  {
    forall g | g in comp.grants
      ensures GrantMatches(before, g, key) <==> GrantMatches(after, g, key)
    {
      GrantMatchStays(before, after, g, key);
    }
  }

  lemma GroupMoves(before: Catalogue, after: Catalogue, comp: Composition, reg: Reg, now: int, key: string,
                   g: (string, nat, string))
    requires CatalogueValid(before) && CatalogueKept(before, after)
    requires Synced(before, after, reg, now)
    requires g in comp.grants && GrantMatches(before, g, key)
    ensures OnlyFieldsMove(before, after, comp, reg, key, g)
  {
    UndeclaredGroupStays(before, after, reg, now, g.1);
    GroupStays(before, after, g.1);
    ObjectKeysKept(before, after, before.groups[g.1].cols.owner);
  }

  ghost predicate OnlyFieldsMove(before: Catalogue, after: Catalogue, comp: Composition, reg: Reg, key: string,
                                 g: (string, nat, string)) {
    && g in comp.grants && g.1 in before.groups && g.1 in after.groups
    && var was, next := GroupGrant(before, comp, key, g), GroupGrant(after, comp, key, g);
    && next == was.(allowedFields := next.allowedFields)
    && (next != was ==> (RPartition(key).objectKey, before.groups[g.1].cols.key) in reg.groups)
  }

  lemma GrantMatchStays(before: Catalogue, after: Catalogue, g: (string, nat, string), key: string)
    requires CatalogueValid(before) && CatalogueKept(before, after) && g.1 in before.groups
    ensures GrantMatches(before, g, key) <==> GrantMatches(after, g, key)
  {
    GroupStays(before, after, g.1);
    ObjectKeysKept(before, after, before.groups[g.1].cols.owner);
  }

  lemma GroupStays(before: Catalogue, after: Catalogue, g: nat)
    requires CatalogueKept(before, after) && g in before.groups
    ensures g in after.groups
    ensures after.groups[g].cols.owner == before.groups[g].cols.owner &&
      after.groups[g].cols.key == before.groups[g].cols.key
  {
    assert GroupNatural(after.groups[g].cols) == GroupNatural(before.groups[g].cols);
  }

  lemma UndeclaredGroupStays(before: Catalogue, after: Catalogue, reg: Reg, now: int, g: nat)
    requires CatalogueValid(before)
    requires Synced(before, after, reg, now) && g in before.groups
    ensures before.groups[g].cols.owner in after.objects
    ensures after.groups[g].cols != before.groups[g].cols ==>
      (after.objects[before.groups[g].cols.owner].cols.key, before.groups[g].cols.key) in reg.groups
  {
    var pks := Places(reg, after.objects);
    var wanted := GroupWanted(reg, pks);
    SyncKeepsNaturals(before, after, reg, now);
    if Upserting.Retired(before.groups, after.groups, wanted, GroupNatural, g) {
    } else {
      assert Declared(before.groups, after.groups, wanted, GroupNatural, now, g);
      var n := GroupNatural(after.groups[g].cols);
      var d :| d in reg.groups && n == (pks[d.0], d.1);
      assert ObjectNatural(after.objects[pks[d.0]].cols) == d.0;
    }
  }
}
