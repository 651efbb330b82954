/** What the catalogue tables hold after a sync, column by column, told from the registry. */
module Published {
  import opened Keys
  import opened Registry
  import opened Upserting
  import opened Tables
  import opened Sync
  import opened DatabaseStore
  import opened Reporting

  ghost predicate Live<V>(t: Table<V>, a: nat) {
    a in t && t[a].live
  }

  // ----- one reconciled table

  lemma LiveHolds<V(!new), N(!new)>(before: Table<V>, after: Table<V>, wanted: map<N, V>, natural: V -> N, now: int,
                                    a: nat)
    requires Reconciled(before, after, wanted, natural, now) && Live(after, a)
    ensures natural(after[a].cols) in wanted && after[a].cols == wanted[natural(after[a].cols)]
  {
    LiveMeansDeclared(before, after, wanted, natural, now, a);
  }

  lemma WantedLives<V(!new), N(!new)>(before: Table<V>, after: Table<V>, wanted: map<N, V>, natural: V -> N, now: int,
                                      n: N) returns (a: nat)
    requires Reconciled(before, after, wanted, natural, now) && n in wanted
    ensures Live(after, a) && natural(after[a].cols) == n
    ensures forall b | b in after && natural(after[b].cols) == n :: a == b
  {
    assert Holds(after, natural, n);
    a := PkOf(after, natural, n);
    LiveMeansDeclared(before, after, wanted, natural, now, a);
  }

  // ----- objects and endpoints

  /** A live object row with this key. */
  ghost predicate OwnerIs(cat: Catalogue, a: nat, o: string) {
    Live(cat.objects, a) && cat.objects[a].cols.key == o
  }

  /** Its columns: its model's label if the object is bound, and the object's own label if it has one. */
  ghost predicate ObjectRow(reg: Reg, cols: ObjectCols) {
    var o := cols.key;
    && cols.model == (if Bound(reg, o) then reg.objects[o].model.value else "")
    && cols.title == if o in reg.objects && reg.objects[o].title != "" then reg.objects[o].title else Capitalize(o)
  }

  lemma ObjectWantedIs(reg: Reg, o: string)
    ensures o in ObjectWanted(reg) <==> Mentioned(reg, o)
    ensures o in ObjectWanted(reg) ==> ObjectWanted(reg)[o].key == o && ObjectRow(reg, ObjectWanted(reg)[o])
  {
  }

  /** There is one live row for an object anything mentions, as declared, and none for any other. */
  lemma ObjectPublished(before: Catalogue, after: Catalogue, reg: Reg, now: int, o: string)
    requires Synced(before, after, reg, now)
    ensures Mentioned(reg, o) <==> exists a :: OwnerIs(after, a, o)
    ensures forall a | OwnerIs(after, a, o) :: ObjectRow(reg, after.objects[a].cols)
    ensures forall a, b | OwnerIs(after, a, o) && OwnerIs(after, b, o) :: a == b
  {
    ObjectWantedIs(reg, o);
    hide Reconciled, ObjectWanted, Mentioned, ObjectRow, SyncedOwned, Placed, Places;
    forall a | OwnerIs(after, a, o)
      ensures o in ObjectWanted(reg) && after.objects[a].cols == ObjectWanted(reg)[o]
    {
      LiveHolds(before.objects, after.objects, ObjectWanted(reg), ObjectNatural, now, a);
    }
    if o in ObjectWanted(reg) {
      var a := WantedLives(before.objects, after.objects, ObjectWanted(reg), ObjectNatural, now, o);
      assert OwnerIs(after, a, o);
      forall b | OwnerIs(after, b, o) ensures b == a {
        assert ObjectNatural(after.objects[b].cols) == o;
      }
    }
  }

  /** A live endpoint row with this key. */
  ghost predicate EndpointIs(cat: Catalogue, a: nat, key: string) {
    Live(cat.endpoints, a) && cat.endpoints[a].cols.key == key
  }

  /** There is one live row for a declared endpoint, with its label and every place that enforces it. */
  lemma EndpointPublished(before: Catalogue, after: Catalogue, reg: Reg, now: int, key: string)
    requires Synced(before, after, reg, now)
    ensures key in reg.endpoints <==> exists a :: EndpointIs(after, a, key)
    ensures forall a | EndpointIs(after, a, key) ::
      after.endpoints[a].cols == EndpointCols(key, reg.endpoints[key].title, reg.endpoints[key].targets)
    ensures forall a, b | EndpointIs(after, a, key) && EndpointIs(after, b, key) :: a == b
  {
    hide Reconciled, ObjectWanted, SyncedOwned, Placed, Places;
    forall a | EndpointIs(after, a, key)
      ensures key in EndpointWanted(reg) && after.endpoints[a].cols == EndpointWanted(reg)[key]
    {
      LiveHolds(before.endpoints, after.endpoints, EndpointWanted(reg), EndpointNatural, now, a);
    }
    if key in EndpointWanted(reg) {
      var a := WantedLives(before.endpoints, after.endpoints, EndpointWanted(reg), EndpointNatural, now, key);
      assert EndpointIs(after, a, key);
      forall b | EndpointIs(after, b, key) ensures b == a {
        assert EndpointNatural(after.endpoints[b].cols) == key;
      }
    }
  }

  // ----- rows that hang from an object

  /** The row an object was put in is the live one with its key. */
  lemma PlaceIsOwner(before: Catalogue, after: Catalogue, reg: Reg, now: int, o: string)
    requires Synced(before, after, reg, now) && Mentioned(reg, o)
    ensures o in Places(reg, after.objects)
    ensures forall a :: OwnerIs(after, a, o) <==> a == Places(reg, after.objects)[o]
  {
    ObjectPublished(before, after, reg, now, o);
    var a :| OwnerIs(after, a, o);
    assert o in ObjectKeys(reg);
    hide Reconciled, ObjectWanted, SyncedOwned, Mentioned, ObjectKeys;
    assert ObjectNatural(after.objects[a].cols) == o && Places(reg, after.objects)[o] == a;
  }

  /** The two tables of rows that hang from an object and are told apart by it. */
  lemma OwnedSynced(before: Catalogue, after: Catalogue, reg: Reg, now: int)
    requires Synced(before, after, reg, now)
    ensures UniqueNatural(after.objects, ObjectNatural) && Placed(reg, Places(reg, after.objects))
    ensures var pks := Places(reg, after.objects);
      && Reconciled(before.groups, after.groups, GroupWanted(reg, pks), GroupNatural, now)
      && Reconciled(before.points, after.points, PointWanted(reg, pks), PointNatural, now)
  {
    hide Declared, Retired, GroupWanted, PointWanted, Placed, ObjectWanted;
  }

  lemma OneOwner(cat: Catalogue, a: nat, o: string, x: string)
    requires OwnerIs(cat, a, o) && OwnerIs(cat, a, x)
    ensures o == x
  {
  }

  /** A live filter row with this key. */
  ghost predicate FilterIs(cat: Catalogue, a: nat, id: string) {
    Live(cat.filters, a) && cat.filters[a].cols.key == id
  }

  /** Its columns: under its object's row, with its params and its flag. */
  ghost predicate FilterRow(cat: Catalogue, reg: Reg, cols: FilterCols) {
    cols.key in reg.conditions && reg.conditions[cols.key].objectKey.Some? &&
    var spec := reg.conditions[cols.key];
    && OwnerIs(cat, cols.owner, spec.objectKey.value)
    && cols.openParams == spec.params && cols.multiValued == spec.multiValued
    && cols.title == if spec.title != "" then spec.title else cols.key
  }

  lemma FilterWantedIs(before: Catalogue, after: Catalogue, reg: Reg, now: int, id: string)
    requires Synced(before, after, reg, now)
    ensures var wanted := FilterWanted(reg, Places(reg, after.objects));
      && (id in wanted <==> id in reg.conditions && reg.conditions[id].objectKey.Some?)
      && (id in wanted ==> FilterRow(after, reg, wanted[id]))
  {
    if id in reg.conditions && reg.conditions[id].objectKey.Some? {
      var o := reg.conditions[id].objectKey.value;
      assert Filtered(reg, o);
      PlaceIsOwner(before, after, reg, now, o);
      assert OwnerIs(after, Places(reg, after.objects)[o], o);
    }
    hide Places, OwnerIs, Reconciled, ObjectWanted;
  }

  /** There is one live row for a filter declared for an object, and none for one declared for no object. */
  lemma FilterPublished(before: Catalogue, after: Catalogue, reg: Reg, now: int, id: string)
    requires Synced(before, after, reg, now)
    ensures id in reg.conditions && reg.conditions[id].objectKey.Some? <==> exists a :: FilterIs(after, a, id)
    ensures forall a | FilterIs(after, a, id) :: FilterRow(after, reg, after.filters[a].cols)
    ensures forall a, b | FilterIs(after, a, id) && FilterIs(after, b, id) :: a == b
  {
    FilterWantedIs(before, after, reg, now, id);
    hide Reconciled, ObjectWanted, Places, Placed, FilterWanted, FilterRow;
    var wanted := FilterWanted(reg, Places(reg, after.objects));
    forall a | FilterIs(after, a, id)
      ensures id in wanted && after.filters[a].cols == wanted[id]
    {
      LiveHolds(before.filters, after.filters, wanted, FilterNatural, now, a);
    }
    if id in wanted {
      var a := WantedLives(before.filters, after.filters, wanted, FilterNatural, now, id);
      assert FilterIs(after, a, id);
      forall b | FilterIs(after, b, id) ensures b == a {
        assert FilterNatural(after.filters[b].cols) == id;
      }
    }
  }

  /** A live row of this group of this object. */
  ghost predicate GroupIs(cat: Catalogue, a: nat, o: string, g: string) {
    Live(cat.groups, a) && cat.groups[a].cols.key == g && OwnerIs(cat, cat.groups[a].cols.owner, o)
  }

  lemma GroupWantedIs(reg: Reg, pks: map<string, nat>, o: string, g: string)
    requires Placed(reg, pks) && (o, g) in reg.groups && o in pks && (pks[o], g) in GroupWanted(reg, pks)
    ensures GroupWanted(reg, pks)[(pks[o], g)] ==
      GroupCols(pks[o], g, reg.groups[(o, g)].title, reg.groups[(o, g)].fields)
  {
    assert (o, g).0 == o && (o, g).1 == g;
  }

  /** What a live group row was published for: a declared group, under its object's row, with its fields. */
  lemma LiveGroup(before: Catalogue, after: Catalogue, reg: Reg, now: int, a: nat) returns (o: string, g: string)
    requires Synced(before, after, reg, now) && Live(after.groups, a)
    ensures (o, g) in reg.groups && GroupIs(after, a, o, g)
    ensures after.groups[a].cols.fields == reg.groups[(o, g)].fields
    ensures after.groups[a].cols.title == reg.groups[(o, g)].title
    ensures o in Places(reg, after.objects) && after.groups[a].cols.owner == Places(reg, after.objects)[o]
  {
    var pks := Places(reg, after.objects);
    hide Reconciled, ObjectWanted, Places;
    LiveHolds(before.groups, after.groups, GroupWanted(reg, pks), GroupNatural, now, a);
    var x :| x in reg.groups && (pks[x.0], x.1) == GroupNatural(after.groups[a].cols);
    o, g := x.0, x.1;
    assert (o, g) == x;
    assert Mentioned(reg, o);
    PlaceIsOwner(before, after, reg, now, o);
    GroupWantedIs(reg, pks, o, g);
  }

  lemma GroupMentions(reg: Reg, o: string, g: string)
    requires (o, g) in reg.groups
    ensures Mentioned(reg, o)
  {
    assert (o, g).0 == o;
  }

  lemma GroupWantedHas(reg: Reg, pks: map<string, nat>, o: string, g: string)
    requires Placed(reg, pks) && (o, g) in reg.groups
    ensures o in pks && (pks[o], g) in GroupWanted(reg, pks)
  {
    assert (o, g).0 == o && (pks[(o, g).0], (o, g).1) in GroupWanted(reg, pks);
  }

  /** There is one live row for a declared group of an object, with the fields it was declared with. */
  lemma GroupPublished(before: Catalogue, after: Catalogue, reg: Reg, now: int, o: string, g: string)
    requires Synced(before, after, reg, now)
    ensures (o, g) in reg.groups <==> exists a :: GroupIs(after, a, o, g)
    ensures forall a | GroupIs(after, a, o, g) ::
      after.groups[a].cols.fields == reg.groups[(o, g)].fields && after.groups[a].cols.title == reg.groups[(o, g)].title
    ensures forall a, b | GroupIs(after, a, o, g) && GroupIs(after, b, o, g) :: a == b
  {
    hide Synced;
    forall a | GroupIs(after, a, o, g)
      ensures (o, g) in reg.groups && after.groups[a].cols.fields == reg.groups[(o, g)].fields
      ensures after.groups[a].cols.title == reg.groups[(o, g)].title
    {
      GroupIsDeclared(before, after, reg, now, a, o, g);
    }
    if (o, g) in reg.groups {
      var a := GroupLives(before, after, reg, now, o, g);
    }
  }

  lemma GroupIsDeclared(before: Catalogue, after: Catalogue, reg: Reg, now: int, a: nat, o: string, g: string)
    requires Synced(before, after, reg, now) && GroupIs(after, a, o, g)
    ensures (o, g) in reg.groups
    ensures after.groups[a].cols.fields == reg.groups[(o, g)].fields
    ensures after.groups[a].cols.title == reg.groups[(o, g)].title
    ensures o in Places(reg, after.objects) && after.groups[a].cols.owner == Places(reg, after.objects)[o]
  {
    var o', g' := LiveGroup(before, after, reg, now, a);
    OneOwner(after, after.groups[a].cols.owner, o, o');
    hide Reconciled, ObjectWanted, Places, Placed, OwnerIs, SyncedOwned;
  }

  lemma GroupLives(before: Catalogue, after: Catalogue, reg: Reg, now: int, o: string, g: string) returns (a: nat)
    requires Synced(before, after, reg, now) && (o, g) in reg.groups
    ensures GroupIs(after, a, o, g) && forall b | GroupIs(after, b, o, g) :: a == b
  {
    hide Synced, Reconciled, Places, Placed, GroupWanted, PointWanted, Mentioned, OwnerIs, UniqueNatural;
    OwnedSynced(before, after, reg, now);
    var pks := Places(reg, after.objects);
    GroupMentions(reg, o, g);
    PlaceIsOwner(before, after, reg, now, o);
    GroupWantedHas(reg, pks, o, g);
    a := WantedLives(before.groups, after.groups, GroupWanted(reg, pks), GroupNatural, now, (pks[o], g));
    forall b | GroupIs(after, b, o, g)
      ensures a == b
    {
      GroupIsDeclared(before, after, reg, now, b, o, g);
      assert GroupNatural(after.groups[b].cols) == (pks[o], g);
    }
  }

  /** A live row of this site for this object and verb. */
  ghost predicate PointIs(cat: Catalogue, a: nat, o: string, verb: string, target: string) {
    && Live(cat.points, a) && cat.points[a].cols.verb == verb && cat.points[a].cols.target == target
    && OwnerIs(cat, cat.points[a].cols.owner, o)
  }

  lemma LivePoint(before: Catalogue, after: Catalogue, reg: Reg, now: int, a: nat)
    returns (o: string, verb: string, target: string)
    requires Synced(before, after, reg, now) && Live(after.points, a)
    ensures (o, verb) in reg.points && target in reg.points[(o, verb)] && PointIs(after, a, o, verb, target)
    ensures after.points[a].cols.title == o + "." + verb
    ensures o in Places(reg, after.objects) && after.points[a].cols.owner == Places(reg, after.objects)[o]
  {
    var pks := Places(reg, after.objects);
    hide Reconciled, ObjectWanted, Places;
    LiveHolds(before.points, after.points, PointWanted(reg, pks), PointNatural, now, a);
    o, verb, target := PointWantedFor(reg, pks, PointNatural(after.points[a].cols));
    hide PointWanted, Placed, Mentioned;
    PointMentions(reg, o, verb);
    PlaceIsOwner(before, after, reg, now, o);
  }

  lemma PointMentions(reg: Reg, o: string, verb: string)
    requires (o, verb) in reg.points
    ensures Mentioned(reg, o)
  {
    assert (o, verb).0 == o;
  }

  lemma PointWantedFor(reg: Reg, pks: map<string, nat>, n: (nat, string, string))
    returns (o: string, verb: string, target: string)
    requires Placed(reg, pks) && n in PointWanted(reg, pks)
    ensures (o, verb) in reg.points && target in reg.points[(o, verb)]
    ensures o in pks && PointWanted(reg, pks)[n] == PointCols(pks[o], verb, target, o + "." + verb)
  {
    var x, t :| x in reg.points && t in reg.points[x] && (pks[x.0], x.1, t) == n;
    o, verb, target := x.0, x.1, t;
    assert (o, verb) == x;
  }

  lemma PointWantedHas(reg: Reg, pks: map<string, nat>, o: string, verb: string, target: string)
    requires Placed(reg, pks) && (o, verb) in reg.points && target in reg.points[(o, verb)]
    ensures o in pks && (pks[o], verb, target) in PointWanted(reg, pks)
  {
    assert (o, verb).0 == o && (pks[(o, verb).0], (o, verb).1, target) in PointWanted(reg, pks);
  }

  /** There is one live row for a declared site of a pair, however often it was declared. */
  lemma PointPublished(before: Catalogue, after: Catalogue, reg: Reg, now: int, o: string, verb: string, target: string)
    requires Synced(before, after, reg, now)
    ensures (o, verb) in reg.points && target in reg.points[(o, verb)] <==>
      exists a :: PointIs(after, a, o, verb, target)
    ensures forall a | PointIs(after, a, o, verb, target) :: after.points[a].cols.title == o + "." + verb
    ensures forall a, b | PointIs(after, a, o, verb, target) && PointIs(after, b, o, verb, target) :: a == b
  {
    hide Synced;
    forall a | PointIs(after, a, o, verb, target)
      ensures (o, verb) in reg.points && target in reg.points[(o, verb)]
      ensures a in after.points && after.points[a].cols.title == o + "." + verb
    {
      PointIsDeclared(before, after, reg, now, a, o, verb, target);
    }
    if (o, verb) in reg.points && target in reg.points[(o, verb)] {
      var a := PointLives(before, after, reg, now, o, verb, target);
    }
  }

  lemma PointIsDeclared(before: Catalogue, after: Catalogue, reg: Reg, now: int, a: nat, o: string, verb: string,
                        target: string)
    requires Synced(before, after, reg, now) && PointIs(after, a, o, verb, target)
    ensures (o, verb) in reg.points && target in reg.points[(o, verb)]
    ensures after.points[a].cols.title == o + "." + verb
    ensures o in Places(reg, after.objects) && after.points[a].cols.owner == Places(reg, after.objects)[o]
  {
    var o', verb', target' := LivePoint(before, after, reg, now, a);
    OneOwner(after, after.points[a].cols.owner, o, o');
    hide Reconciled, ObjectWanted, Places, Placed, OwnerIs, SyncedOwned;
  }

  lemma PointLives(before: Catalogue, after: Catalogue, reg: Reg, now: int, o: string, verb: string, target: string)
    returns (a: nat)
    requires Synced(before, after, reg, now) && (o, verb) in reg.points && target in reg.points[(o, verb)]
    ensures PointIs(after, a, o, verb, target) && forall b | PointIs(after, b, o, verb, target) :: a == b
  {
    hide Synced, Reconciled, Places, Placed, GroupWanted, PointWanted, Mentioned, OwnerIs, UniqueNatural;
    OwnedSynced(before, after, reg, now);
    var pks := Places(reg, after.objects);
    PointMentions(reg, o, verb);
    PlaceIsOwner(before, after, reg, now, o);
    PointWantedHas(reg, pks, o, verb, target);
    var n := (pks[o], verb, target);
    a := WantedLives(before.points, after.points, PointWanted(reg, pks), PointNatural, now, n);
    forall b | PointIs(after, b, o, verb, target)
      ensures a == b
    {
      PointIsDeclared(before, after, reg, now, b, o, verb, target);
      assert PointNatural(after.points[b].cols) == n;
    }
  }

  // ----- what a held group hands out

  /** After a sync, a live field group someone holds is a declared one, and hands out exactly the fields it was
      declared with. */
  lemma HeldGroupFields(before: Catalogue, after: Catalogue, comp: Composition, reg: Reg, now: int, roles: seq<string>,
                        key: string, x: (string, nat, string)) returns (g: string)
    requires Synced(before, after, reg, now)
    requires x in FieldGrantsFor(after, comp, roles, key) && after.groups[x.1].live
    ensures (RPartition(key).objectKey, g) in reg.groups && after.groups[x.1].cols.key == g
    ensures GroupGrant(after, comp, key, x).allowedFields ==
      set f | f in reg.groups[(RPartition(key).objectKey, g)].fields
  {
    hide RPartition, Synced, Held;
    var o;
    o, g := LiveGroup(before, after, reg, now, x.1);
    hide Places;
  }
}
