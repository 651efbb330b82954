/** Publishing the registry to the catalogue tables. */
module Sync {
  import opened Keys
  import opened Registry
  import opened Upserting
  import opened Tables

  // ----- scraping: what each table should hold, by natural key

  /** Every object key anything mentions, bound to a model or not. */
  function ObjectKeys(reg: Reg): set<string> {
    reg.objects.Keys
    + (set id | id in reg.conditions && reg.conditions[id].objectKey.Some? :: reg.conditions[id].objectKey.value)
    + (set g | g in reg.groups :: g.0)
    + (set p | p in reg.points :: p.0)
  }

  function ObjectWanted(reg: Reg): map<string, ObjectCols> {
    map k | k in ObjectKeys(reg) ::
      if k in reg.objects then
        var spec := reg.objects[k];
        ObjectCols(k, if spec.title != "" then spec.title else Capitalize(k), spec.model.GetOr(""))
      else ObjectCols(k, Capitalize(k), "")
  }

  function EndpointWanted(reg: Reg): map<string, EndpointCols> {
    map k | k in reg.endpoints :: EndpointCols(k, reg.endpoints[k].title, reg.endpoints[k].targets)
  }

  /** The row each object key ended up in. */
  ghost predicate Placed(reg: Reg, pks: map<string, nat>) {
    && ObjectKeys(reg) <= pks.Keys
    && forall a, b | a in pks && b in pks && pks[a] == pks[b] :: a == b
  }

  /** A filter declared for no object has nowhere to hang and gets no row. */
  function FilterWanted(reg: Reg, pks: map<string, nat>): map<string, FilterCols>
    requires Placed(reg, pks)
  {
    map id | id in reg.conditions && reg.conditions[id].objectKey.Some? ::
      var spec := reg.conditions[id];
      FilterCols(pks[spec.objectKey.value], id, if spec.title != "" then spec.title else id, spec.params,
        spec.multiValued)
  }

  function GroupWanted(reg: Reg, pks: map<string, nat>): map<(nat, string), GroupCols>
    requires Placed(reg, pks)
  {
    map g | g in reg.groups ::
      (pks[g.0], g.1) := GroupCols(pks[g.0], g.1, reg.groups[g].title, reg.groups[g].fields)
  }

  /** A site listed twice for one pair is one row. */
  function PointWanted(reg: Reg, pks: map<string, nat>): map<(nat, string, string), PointCols>
    requires Placed(reg, pks)
  {
    map p, t | p in reg.points && t in reg.points[p] ::
      (pks[p.0], p.1, t) := PointCols(pks[p.0], p.1, t, JoinKey(p.0, p.1))
  }

  lemma WantedKeyedByNatural(reg: Reg, pks: map<string, nat>)
    requires Placed(reg, pks)
    ensures forall n | n in GroupWanted(reg, pks) :: GroupNatural(GroupWanted(reg, pks)[n]) == n
    ensures forall n | n in PointWanted(reg, pks) :: PointNatural(PointWanted(reg, pks)[n]) == n
  {
  }

  // ----- the run

  ghost function Places(reg: Reg, t: Table<ObjectCols>): map<string, nat>
    requires UniqueNatural(t, ObjectNatural)
  {
    map a | a in t && ObjectNatural(t[a].cols) in ObjectKeys(reg) :: ObjectNatural(t[a].cols) := a
  }

  /** What a run leaves: every table reconciled, those with an owner against the object rows just written. */
  ghost predicate Synced(before: Catalogue, after: Catalogue, reg: Reg, now: int) {
    && Reconciled(before.objects, after.objects, ObjectWanted(reg), ObjectNatural, now)
    && Reconciled(before.endpoints, after.endpoints, EndpointWanted(reg), EndpointNatural, now)
    && Placed(reg, Places(reg, after.objects))
    && SyncedOwned(before, after, reg, Places(reg, after.objects), now)
  }

  ghost predicate SyncedOwned(before: Catalogue, after: Catalogue, reg: Reg, pks: map<string, nat>, now: int)
    requires Placed(reg, pks)
  {
    && Reconciled(before.filters, after.filters, FilterWanted(reg, pks), FilterNatural, now)
    && Reconciled(before.groups, after.groups, GroupWanted(reg, pks), GroupNatural, now)
    && Reconciled(before.points, after.points, PointWanted(reg, pks), PointNatural, now)
  }

  datatype TablesReport = TablesReport(
    objects: TableReport,
    endpoints: TableReport,
    filters: TableReport,
    groups: TableReport,
    points: TableReport)
  {
    predicate Changed() {
      objects.Changed() || endpoints.Changed() || filters.Changed() || groups.Changed() || points.Changed()
    }
  }

  ghost predicate Accounts<V, N>(before: Table<V>, wanted: map<N, V>, natural: V -> N, r: TableReport) {
    && Counted(before, wanted, natural, r)
    && r.retired == |Stale(before, wanted, natural)|
    && r.created + r.updated + r.kept + r.revived == |wanted|
  }

  ghost predicate Reported(before: Catalogue, reg: Reg, pks: map<string, nat>, r: TablesReport)
    requires Placed(reg, pks)
  {
    && Accounts(before.objects, ObjectWanted(reg), ObjectNatural, r.objects)
    && Accounts(before.endpoints, EndpointWanted(reg), EndpointNatural, r.endpoints)
    && Accounts(before.filters, FilterWanted(reg, pks), FilterNatural, r.filters)
    && Accounts(before.groups, GroupWanted(reg, pks), GroupNatural, r.groups)
    && Accounts(before.points, PointWanted(reg, pks), PointNatural, r.points)
  }

  lemma LiveRowsArePlaces(reg: Reg, t: Table<ObjectCols>, live: map<string, nat>, next: nat)
    requires UniqueNatural(t, ObjectNatural)
    requires Tracks(t, ObjectWanted(reg), ObjectNatural, live, next)
    ensures live == Places(reg, t) && Placed(reg, live)
  {
    hide Places, Tracks, UniqueNatural, ObjectWanted, ObjectKeys;
    forall k
      ensures k in live <==> k in ObjectKeys(reg)
      ensures k in live <==> k in Places(reg, t)
      ensures k in live ==> Places(reg, t)[k] == live[k] && live[k] in t && t[live[k]].cols.key == k
    {
      PlaceOf(reg, t, live, next, k);
    }
  }

  lemma PlaceOf(reg: Reg, t: Table<ObjectCols>, live: map<string, nat>, next: nat, k: string)
    requires UniqueNatural(t, ObjectNatural)
    requires Tracks(t, ObjectWanted(reg), ObjectNatural, live, next)
    ensures k in live <==> k in ObjectKeys(reg)
    ensures k in live <==> k in Places(reg, t)
    ensures k in live ==> live[k] in t && t[live[k]].cols.key == k && Places(reg, t)[k] == live[k]
  {
    hide ObjectKeys;
    if k in live {
      assert ObjectNatural(t[live[k]].cols) == k;
    }
  }

  /** One table of a run. */
  method Publish<V(==,!new), N(==,!new)>(before: Table<V>, wanted: map<N, V>, natural: V -> N, now: int, bound: nat)
    returns (after: Table<V>, report: TableReport, next: nat, liveRows: map<N, nat>)
    requires UniqueNatural(before, natural) && Below(before, bound)
    requires forall n | n in wanted :: natural(wanted[n]) == n
    ensures Reconciled(before, after, wanted, natural, now)
    ensures Accounts(before, wanted, natural, report)
    ensures Tracks(after, wanted, natural, liveRows, next) && bound <= next
    ensures forall later: nat | next <= later :: Below(after, later)
  {
    var rows := RowsOf(wanted, natural);
    after, report, next, liveRows := Upsert(before, rows, natural, now, bound);
  }

  method PublishAll(before: Catalogue, reg: Reg, now: int, bound: nat)
    returns (after: Catalogue, report: TablesReport, next: nat)
    requires CatalogueValid(before)
    requires CatalogueBelow(before, bound)
    ensures Synced(before, after, reg, now)
    ensures Reported(before, reg, Places(reg, after.objects), report)
    ensures CatalogueBelow(after, next) && bound <= next
  {
    var objects, objectsReport, next1, pks := Publish(before.objects, ObjectWanted(reg), ObjectNatural, now, bound);
    LiveRowsArePlaces(reg, objects, pks, next1);
    WantedKeyedByNatural(reg, pks);
    var endpoints, endpointsReport, next2, _ :=
      Publish(before.endpoints, EndpointWanted(reg), EndpointNatural, now, next1);
    var filters, filtersReport, next3, _ := Publish(before.filters, FilterWanted(reg, pks), FilterNatural, now, next2);
    var groups, groupsReport, next4, _ := Publish(before.groups, GroupWanted(reg, pks), GroupNatural, now, next3);
    var points, pointsReport, next5, _ := Publish(before.points, PointWanted(reg, pks), PointNatural, now, next4);
    report := TablesReport(objectsReport, endpointsReport, filtersReport, groupsReport, pointsReport);
    after := Catalogue(objects, endpoints, filters, groups, points);
    next := next5;
  }

  method SyncTables(db: Database, reg: Reg, now: int) returns (report: TablesReport)
    requires db.Valid()
    modifies db`cat, db`nextPk
    ensures db.Valid()
    ensures Synced(old(db.cat), db.cat, reg, now)
    ensures Reported(old(db.cat), reg, Places(reg, db.cat.objects), report)
  {
    var after, next;
    after, report, next := PublishAll(db.cat, reg, now, db.nextPk);
    Assembled(db.cat, after, db.comp, reg, now);
    db.Publish(after, next);
  }

  /** Every declared row hangs from an object row, and old rows stay where foreign keys expect them. */
  lemma Assembled(before: Catalogue, after: Catalogue, comp: Composition, reg: Reg, now: int)
    requires CatalogueValid(before) && Refers(comp, before)
    requires Synced(before, after, reg, now)
    ensures CatalogueValid(after) && Refers(comp, after)
  {
    OwnersAreRows(before, after, reg, now);
    RowsStay(before, after, reg, now);
  }

  lemma RowsStay(before: Catalogue, after: Catalogue, reg: Reg, now: int)
    requires Synced(before, after, reg, now)
    ensures before.objects.Keys <= after.objects.Keys && before.endpoints.Keys <= after.endpoints.Keys
    ensures before.filters.Keys <= after.filters.Keys && before.groups.Keys <= after.groups.Keys
  {
  }

  lemma OwnersAreRows(before: Catalogue, after: Catalogue, reg: Reg, now: int)
    requires CatalogueValid(before)
    requires Synced(before, after, reg, now)
    ensures CatalogueValid(after)
  {
    RowsStay(before, after, reg, now);
    var pks := Places(reg, after.objects);
    var ids := before.objects.Keys + pks.Values;
    assert ids <= after.objects.Keys;
    FiltersOwned(before.filters, after.filters, reg, pks, now, before.objects.Keys);
    GroupsOwned(before.groups, after.groups, reg, pks, now, before.objects.Keys);
    PointsOwned(before.points, after.points, reg, pks, now, before.objects.Keys);
  }

  lemma FiltersOwned(before: Table<FilterCols>, after: Table<FilterCols>, reg: Reg, pks: map<string, nat>, now: int,
                     ids: set<nat>)
    requires Placed(reg, pks) && Reconciled(before, after, FilterWanted(reg, pks), FilterNatural, now)
    requires forall f | f in before :: before[f].cols.owner in ids
    ensures forall f | f in after :: after[f].cols.owner in ids + pks.Values
  {
    WantedOwners(reg, pks);
    OwnersKept(before, after, FilterWanted(reg, pks), FilterNatural, now, FilterOwner, ids, pks.Values);
    assert forall f | f in after :: FilterOwner(after[f].cols) in ids + pks.Values;
  }

  lemma GroupsOwned(before: Table<GroupCols>, after: Table<GroupCols>, reg: Reg, pks: map<string, nat>, now: int,
                    ids: set<nat>)
    requires Placed(reg, pks) && Reconciled(before, after, GroupWanted(reg, pks), GroupNatural, now)
    requires forall g | g in before :: before[g].cols.owner in ids
    ensures forall g | g in after :: after[g].cols.owner in ids + pks.Values
  {
    WantedOwners(reg, pks);
    OwnersKept(before, after, GroupWanted(reg, pks), GroupNatural, now, GroupOwner, ids, pks.Values);
    assert forall g | g in after :: GroupOwner(after[g].cols) in ids + pks.Values;
  }

  lemma PointsOwned(before: Table<PointCols>, after: Table<PointCols>, reg: Reg, pks: map<string, nat>, now: int,
                    ids: set<nat>)
    requires Placed(reg, pks) && Reconciled(before, after, PointWanted(reg, pks), PointNatural, now)
    requires forall p | p in before :: before[p].cols.owner in ids
    ensures forall p | p in after :: after[p].cols.owner in ids + pks.Values
  {
    WantedOwners(reg, pks);
    OwnersKept(before, after, PointWanted(reg, pks), PointNatural, now, PointOwner, ids, pks.Values);
    assert forall p | p in after :: PointOwner(after[p].cols) in ids + pks.Values;
  }

  function FilterOwner(c: FilterCols): nat { c.owner }
  function GroupOwner(c: GroupCols): nat { c.owner }
  function PointOwner(c: PointCols): nat { c.owner }

  ghost predicate OwnedBy<V, N>(wanted: map<N, V>, owner: V -> nat, ids: set<nat>) {
    forall n | n in wanted :: owner(wanted[n]) in ids
  }

  lemma WantedOwners(reg: Reg, pks: map<string, nat>)
    requires Placed(reg, pks)
    ensures OwnedBy(FilterWanted(reg, pks), FilterOwner, pks.Values)
    ensures OwnedBy(GroupWanted(reg, pks), GroupOwner, pks.Values)
    ensures OwnedBy(PointWanted(reg, pks), PointOwner, pks.Values)
  {
    assert forall k | k in pks :: pks[k] in pks.Values;
  }

  lemma OwnersKept<V, N>(before: Table<V>, after: Table<V>, wanted: map<N, V>, natural: V -> N, now: int,
                         owner: V -> nat, known: set<nat>, placed: set<nat>)
    requires Reconciled(before, after, wanted, natural, now)
    requires forall a | a in before :: owner(before[a].cols) in known
    requires OwnedBy(wanted, owner, placed)
    ensures forall a | a in after :: owner(after[a].cols) in known + placed
  {
    forall a | a in after
      ensures owner(after[a].cols) in known + placed
    {
      assert Declared(before, after, wanted, natural, now, a) || Upserting.Retired(before, after, wanted, natural, a);
    }
  }
}
