/** The permission file as a program, continued: the fields a user may see and write are read off it too. */
module FieldTier {
  import opened Outcomes
  import opened Keys
  import opened Values
  import opened Base
  import opened Registry
  import opened Grants
  import opened Resolver
  import opened Tables
  import opened DatabaseStore
  import opened Validation
  import opened Views
  import opened SpecFile
  import opened Compile
  import Writes

  // ----- the meaning of a file, from its text and the fields of the groups it names

  /** No later entry names the same group and verb. */
  ghost predicate LastEntry(fields: seq<FieldEntry>, j: nat) {
    && j < |fields|
    && forall k | j < k < |fields| :: fields[k].group != fields[j].group || fields[k].verb != fields[j].verb
  }

  /** The entry is about this key: its group is of the key's object, and its verb is the key's. */
  predicate About(e: FieldEntry, key: string) {
    RPartition(e.group).objectKey == RPartition(key).objectKey && e.verb == RPartition(key).verb
  }

  /** The last entry for its group and verb in some held permission, and about the key. */
  ghost predicate FileField(file: File, held: set<string>, key: string, e: FieldEntry) {
    exists i, j: nat ::
      && 0 <= i < |file.permissions| && file.permissions[i].0 in held
      && LastEntry(file.permissions[i].1.fields, j) && file.permissions[i].1.fields[j] == e
      && About(e, key)
  }

  /** The fields of the group an entry names. */
  ghost function EntryFields(cat: Catalogue, e: FieldEntry): set<string> {
    var g := FieldIdent(cat, e).0;
    if g in cat.groups then set f | f in cat.groups[g].cols.fields else {}
  }

  /** Some held entry about the key grants the field. */
  ghost predicate FileShows(cat: Catalogue, file: File, held: set<string>, key: string, f: string) {
    exists e :: FileField(file, held, key, e) && f in EntryFields(cat, e)
  }

  /** Some held entry about the key says which values the field may take. */
  ghost predicate FileConstrains(file: File, held: set<string>, key: string, f: string) {
    exists e :: FileField(file, held, key, e) && f in e.values
  }

  /** Some held entry about the key permits the value. */
  ghost predicate FilePermits(file: File, held: set<string>, key: string, f: string, v: Value) {
    exists e :: FileField(file, held, key, e) && f in e.values && v in e.values[f]
  }

  // ----- stored field grants and entries correspond

  /** Accepted entries have one identity exactly when they name one group and one verb. */
  lemma SameIdentity(cat: Catalogue, d: FieldEntry, e: FieldEntry)
    requires CatalogueValid(cat) && FieldOk(cat, d) && FieldOk(cat, e)
    ensures FieldIdent(cat, d) == FieldIdent(cat, e) <==> d.group == e.group && d.verb == e.verb
  {
    IdentColumns(cat, d);
    IdentColumns(cat, e);
    SameHalves(d.group, e.group);
    hide RPartition, FieldIdent;
  }

  lemma IdentColumns(cat: Catalogue, e: FieldEntry)
    requires CatalogueValid(cat) && FieldOk(cat, e)
    ensures var h, g := RPartition(e.group), FieldIdent(cat, e).0;
      && h.objectKey != "" && g in cat.groups && cat.groups[g].cols.key == h.verb
      && cat.groups[g].cols.owner in cat.objects && cat.objects[cat.groups[g].cols.owner].cols.key == h.objectKey
    ensures FieldIdent(cat, e).1 == e.verb
  {
    hide RPartition;
  }

  ghost predicate LastWith(cat: Catalogue, fields: seq<FieldEntry>, x: (nat, string), j: nat) {
    && j < |fields| && FieldIdent(cat, fields[j]) == x
    && forall k | j < k < |fields| :: FieldIdent(cat, fields[k]) != x
  }

  /** The values kept for a pair are those of the last entry that names it. */
  lemma {:induction false} WantedIsLast(cat: Catalogue, fields: seq<FieldEntry>, x: (nat, string), j: nat)
    requires LastWith(cat, fields, x, j)
    ensures x in WantedGrants(cat, fields) && WantedGrants(cat, fields)[x] == fields[j].values
    decreases |fields|
  {
    hide FieldIdent;
    if j < |fields| - 1 {
      var init := fields[..|fields| - 1];
      assert LastWith(cat, init, x, j);
      WantedIsLast(cat, init, x, j);
    }
  }

  lemma {:induction false} SomeLast(cat: Catalogue, fields: seq<FieldEntry>, x: (nat, string)) returns (j: nat)
    requires exists e :: e in fields && FieldIdent(cat, e) == x
    ensures LastWith(cat, fields, x, j)
    decreases |fields|
  {
    hide FieldIdent;
    var last := |fields| - 1;
    if FieldIdent(cat, fields[last]) == x {
      j := last;
    } else {
      assert forall e | e in fields && FieldIdent(cat, e) == x :: e in fields[..last];
      j := SomeLast(cat, fields[..last], x);
    }
  }

  lemma LastAgrees(cat: Catalogue, fields: seq<FieldEntry>, j: nat)
    requires CatalogueValid(cat) && FieldsOk(cat, fields) && j < |fields|
    ensures LastWith(cat, fields, FieldIdent(cat, fields[j]), j) <==> LastEntry(fields, j)
  {
    hide CatalogueValid, FieldIdent, FieldOk;
    forall k | 0 <= k < |fields|
      ensures FieldIdent(cat, fields[k]) == FieldIdent(cat, fields[j]) <==>
        fields[k].group == fields[j].group && fields[k].verb == fields[j].verb
    {
      assert fields[k] in fields && fields[j] in fields;
      SameIdentity(cat, fields[k], fields[j]);
    }
  }

  lemma GrantIn(c: Composition, x: (string, nat, string))
    requires x in c.grants
    ensures (x.1, x.2) in GrantsOf(c, x.0) && GrantsOf(c, x.0)[(x.1, x.2)] == c.grants[x]
  {
  }

  /** Every field row the store reads for the key is the last entry for its pair in a held permission. */
  lemma EntryOfGrant(cat: Catalogue, reg: Reg, c: Composition, file: File, roles: seq<string>, key: string,
                     x: (string, nat, string)) returns (e: FieldEntry)
    requires Built(cat, reg, c, file) && OnlyNamed(file, Held(c, roles)) && x in FieldGrantsFor(cat, c, roles, key)
    ensures FileField(file, Held(c, roles), key, e) && x.1 in cat.groups
    ensures c.grants[x] == e.values && EntryFields(cat, e) == GroupGrant(cat, c, key, x).allowedFields
  {
    hide Built, Held, GrantsOf, RPartition, FieldIdent, WantedGrants, FieldOk, FieldsOk, CatalogueValid, LastEntry,
      FileField, About;
    assert Names(file, x.0);
    var i: nat :| i < |file.permissions| && file.permissions[i].0 == x.0;
    FieldsAre(cat, reg, c, file, i);
    var fields := file.permissions[i].1.fields;
    GrantIn(c, x);
    var j := LastOfPair(cat, fields, (x.1, x.2));
    e := fields[j];
    ReadForKey(cat, e, x, key);
    ListedFor(file, Held(c, roles), key, i, j);
  }

  /** A row with an entry's identity is read for the keys the entry is about. */
  lemma ReadForKey(cat: Catalogue, e: FieldEntry, x: (string, nat, string), key: string)
    requires CatalogueValid(cat) && FieldOk(cat, e) && FieldIdent(cat, e) == (x.1, x.2)
    ensures GrantMatches(cat, x, key) <==> About(e, key)
    ensures x.1 in cat.groups
  {
    IdentColumns(cat, e);
    hide RPartition, FieldIdent, FieldOk, CatalogueValid;
  }

  lemma ListedFor(file: File, held: set<string>, key: string, i: nat, j: nat)
    requires i < |file.permissions| && file.permissions[i].0 in held
    requires LastEntry(file.permissions[i].1.fields, j) && About(file.permissions[i].1.fields[j], key)
    ensures FileField(file, held, key, file.permissions[i].1.fields[j])
  {
    hide LastEntry, About;
  }

  /** The last entry for a pair that is kept, and its values. */
  lemma LastOfPair(cat: Catalogue, fields: seq<FieldEntry>, x: (nat, string)) returns (j: nat)
    requires CatalogueValid(cat) && FieldsOk(cat, fields) && x in WantedGrants(cat, fields)
    ensures j < |fields| && LastEntry(fields, j) && FieldIdent(cat, fields[j]) == x && FieldOk(cat, fields[j])
    ensures WantedGrants(cat, fields)[x] == fields[j].values
  {
    WantedGrantsKeys(cat, fields);
    hide CatalogueValid, FieldIdent, FieldOk, WantedGrants;
    j := SomeLast(cat, fields, x);
    WantedIsLast(cat, fields, x, j);
    LastAgrees(cat, fields, j);
    assert fields[j] in fields;
  }

  /** Every such entry about the key is read back. */
  lemma GrantOfEntry(cat: Catalogue, reg: Reg, c: Composition, file: File, roles: seq<string>, key: string,
                     e: FieldEntry) returns (x: (string, nat, string))
    requires Built(cat, reg, c, file) && FileField(file, Held(c, roles), key, e)
    ensures x in FieldGrantsFor(cat, c, roles, key) && x.1 in cat.groups
    ensures c.grants[x] == e.values && EntryFields(cat, e) == GroupGrant(cat, c, key, x).allowedFields
  {
    hide Built, Held;
    var i, j: nat :|
      && 0 <= i < |file.permissions| && file.permissions[i].0 in Held(c, roles)
      && LastEntry(file.permissions[i].1.fields, j) && file.permissions[i].1.fields[j] == e
      && About(e, key);
    FieldsAre(cat, reg, c, file, i);
    var p, fields := file.permissions[i].0, file.permissions[i].1.fields;
    LastAgrees(cat, fields, j);
    WantedIsLast(cat, fields, FieldIdent(cat, e), j);
    assert e in fields && FieldOk(cat, e);
    IdentColumns(cat, e);
    hide RPartition, FieldIdent, WantedGrants, FieldOk, CatalogueValid, LastWith, LastEntry;
    assert FieldIdent(cat, e) in GrantsOf(c, p);
    x :| x in c.grants && x.0 == p && (x.1, x.2) == FieldIdent(cat, e);
  }

  // ----- the three questions of the field tier

  /** Over tables that match the file, the fields granted to a user all of whose permissions the file names, which
      of them are constrained, and the values permitted, are read off the last entries about the key. */
  lemma FieldsFromFile(cat: Catalogue, reg: Reg, c: Composition, file: File, roles: seq<string>, key: string, f: string,
                       v: Value)
    requires Built(cat, reg, c, file) && OnlyNamed(file, Held(c, roles))
    ensures var gs, held := FieldGrants(cat, c, roles, key), Held(c, roles);
      && (f in Writes.UnionOfFields(gs) <==> FileShows(cat, file, held, key, f))
      && (Writes.Constrained(gs, f) <==> FileConstrains(file, held, key, f))
      && (v in Writes.UnionOfValues(gs, f) <==> FilePermits(file, held, key, f, v))
  {
    hide Built, OnlyNamed, Held, FileField, EntryFields, FieldGrants, RPartition;
    var gs := FieldGrants(cat, c, roles, key);
    forall g | g in gs
      ensures exists e :: FileField(file, Held(c, roles), key, e) && Tells(cat, e, g)
    {
      FieldGrantMembers(cat, c, roles, key, g);
      var x :| x in FieldGrantsFor(cat, c, roles, key) && g == GroupGrant(cat, c, key, x);
      var e := EntryOfGrant(cat, reg, c, file, roles, key, x);
      assert Tells(cat, e, g);
    }
    forall e | FileField(file, Held(c, roles), key, e)
      ensures exists g :: g in gs && Tells(cat, e, g)
    {
      var x := GrantOfEntry(cat, reg, c, file, roles, key, e);
      var g := GroupGrant(cat, c, key, x);
      FieldGrantMembers(cat, c, roles, key, g);
      assert g in gs && Tells(cat, e, g);
    }
    ShownAlike(cat, file, Held(c, roles), key, gs, f);
    ConstrainedAlike(cat, file, Held(c, roles), key, gs, f);
    PermittedAlike(cat, file, Held(c, roles), key, gs, f, v);
  }

  /** The grant says what the entry says. */
  ghost predicate Tells(cat: Catalogue, e: FieldEntry, g: FieldGrant) {
    && g.allowedFields == EntryFields(cat, e)
    && g.allowedValues == map f | f in e.values :: set v | v in e.values[f]
  }

  ghost predicate SaidAlike(cat: Catalogue, file: File, held: set<string>, key: string, gs: seq<FieldGrant>) {
    && (forall g | g in gs :: exists e :: FileField(file, held, key, e) && Tells(cat, e, g))
    && (forall e | FileField(file, held, key, e) :: exists g :: g in gs && Tells(cat, e, g))
  }

  lemma EntrySaying(cat: Catalogue, file: File, held: set<string>, key: string, gs: seq<FieldGrant>, g: FieldGrant)
    returns (e: FieldEntry)
    requires SaidAlike(cat, file, held, key, gs) && g in gs
    ensures FileField(file, held, key, e) && Tells(cat, e, g)
  {
    hide FileField, Tells;
    e :| FileField(file, held, key, e) && Tells(cat, e, g);
  }

  lemma GrantSaying(cat: Catalogue, file: File, held: set<string>, key: string, gs: seq<FieldGrant>, e: FieldEntry)
    returns (g: FieldGrant)
    requires SaidAlike(cat, file, held, key, gs) && FileField(file, held, key, e)
    ensures g in gs && Tells(cat, e, g)
  {
    hide FileField, Tells;
    g :| g in gs && Tells(cat, e, g);
  }

  lemma ShownAlike(cat: Catalogue, file: File, held: set<string>, key: string, gs: seq<FieldGrant>, f: string)
    requires SaidAlike(cat, file, held, key, gs)
    ensures f in Writes.UnionOfFields(gs) <==> FileShows(cat, file, held, key, f)
  {
    hide SaidAlike, FileField, EntryFields, Tells;
    if g :| g in gs && f in g.allowedFields {
      var e := EntrySaying(cat, file, held, key, gs, g);
      TellsOf(cat, e, g, f, Null);
    }
    if e :| FileField(file, held, key, e) && f in EntryFields(cat, e) {
      var g := GrantSaying(cat, file, held, key, gs, e);
      TellsOf(cat, e, g, f, Null);
    }
  }

  lemma ConstrainedAlike(cat: Catalogue, file: File, held: set<string>, key: string, gs: seq<FieldGrant>, f: string)
    requires SaidAlike(cat, file, held, key, gs)
    ensures Writes.Constrained(gs, f) <==> FileConstrains(file, held, key, f)
  {
    hide SaidAlike, FileField, EntryFields, Tells;
    if g :| g in gs && f in g.allowedValues {
      var e := EntrySaying(cat, file, held, key, gs, g);
      TellsOf(cat, e, g, f, Null);
    }
    if e :| FileField(file, held, key, e) && f in e.values {
      var g := GrantSaying(cat, file, held, key, gs, e);
      TellsOf(cat, e, g, f, Null);
    }
  }

  lemma PermittedAlike(cat: Catalogue, file: File, held: set<string>, key: string, gs: seq<FieldGrant>, f: string,
                       v: Value)
    requires SaidAlike(cat, file, held, key, gs)
    ensures v in Writes.UnionOfValues(gs, f) <==> FilePermits(file, held, key, f, v)
  {
    hide SaidAlike, FileField, EntryFields, Tells;
    if g :| g in gs && f in g.allowedValues && v in g.allowedValues[f] {
      var e := EntrySaying(cat, file, held, key, gs, g);
      TellsOf(cat, e, g, f, v);
    }
    if e :| FileField(file, held, key, e) && f in e.values && v in e.values[f] {
      var g := GrantSaying(cat, file, held, key, gs, e);
      TellsOf(cat, e, g, f, v);
    }
  }

  lemma TellsOf(cat: Catalogue, e: FieldEntry, g: FieldGrant, f: string, v: Value)
    requires Tells(cat, e, g)
    ensures g.allowedFields == EntryFields(cat, e) && (f in g.allowedValues <==> f in e.values)
    ensures f in e.values ==> (v in g.allowedValues[f] <==> v in e.values[f])
  {
  }

  // ----- the write check

  /** A payload the file lets these permissions write, as far as it decides: the endpoint, the fields the key
      controls, the values of constrained fields. */
  ghost predicate FileWrites(cat: Catalogue, file: File, held: set<string>, key: string, spec: KeySpec,
                             data: Writes.Payload) {
    && FileOpens(file, held, key)
    && (forall f | f in data && f in spec.fields :: FileShows(cat, file, held, key, f))
    && (forall f | f in data && FileConstrains(file, held, key, f) :: FileAccepts(file, held, key, f, data[f]))
  }

  ghost predicate FileAccepts(file: File, held: set<string>, key: string, f: string, given: Writes.Given) {
    given.Scalar? && Writes.Hashable(given) && FilePermits(file, held, key, f, given.value)
  }

  lemma NoRolesNoGrants(cat: Catalogue, c: Composition, key: string)
    ensures Held(c, []) == {} && FieldGrants(cat, c, [], key) == []
  {
    assert FieldGrantsFor(cat, c, [], key) == {};
  }

  /** Over tables that match the file, the write check accepts exactly the payloads the file lets through whose
      governed references are in scope, which the file decides too, reference by reference. */
  lemma DeployedWrites(cat: Catalogue, c: Composition, file: File, p: Policy, world: World, user: User, key: string,
                       data: Writes.Payload)
    requires Built(cat, p.reg, c, file) && ReadsFrom(p, cat, c) && !Bypasses(p, user)
    requires OnlyNamed(file, Held(c, p.principals(user))) && Lookup(p.reg, key).Ok?
    ensures var spec := Lookup(p.reg, key).value;
      Writes.Writable(p, world, user, key, data) <==>
        FileWrites(cat, file, Held(c, p.principals(user)), key, spec, data) &&
        Writes.ReferencesOk(p, world, user, spec.fkScopes, data)
  {
    hide FileOpens, FileShows, FileConstrains, FileAccepts, CheckEndpoint, Lookup, Built, ReadsFrom, OnlyNamed, Held,
      FieldGrants, HasEndpointGrant, Bypasses;
    hide Writes.Writable, Writes.FieldGrantsFor, Writes.FieldsPart, Writes.ValuesPart, Writes.ReferencesOk;
    var roles, spec := p.principals(user), Lookup(p.reg, key).value;
    AllFromFile(cat, p.reg, c, file, roles, key, spec.fields, data);
    ReadsAre(cat, c, p, user, key);
    EndpointsFromFile(cat, p.reg, c, file, roles, key);
    OpensNeedsHeld(file, Held(c, roles), key);
    Writes.WritableParts(p, world, user, key, data);
  }

  /** What a policy that reads these tables is told. */
  lemma ReadsAre(cat: Catalogue, c: Composition, p: Policy, user: User, key: string)
    requires ReadsFrom(p, cat, c) && Lookup(p.reg, key).Ok? && !Bypasses(p, user)
    ensures Writes.FieldGrantsFor(p, user, key) == FieldGrants(cat, c, p.principals(user), key)
    ensures CheckEndpoint(p, user, key) == Ok(true) <==> HasEndpointGrant(cat, c, p.principals(user), key)
  {
    NoRolesNoGrants(cat, c, key);
    hide FieldGrants;
    assert p.store.endpoint(p.principals(user), key) == HasEndpointGrant(cat, c, p.principals(user), key);
  }

  /** The fields and the values of a payload, judged by the stored grants and by the file. */
  lemma AllFromFile(cat: Catalogue, reg: Reg, c: Composition, file: File, roles: seq<string>, key: string,
                    fields: set<string>, data: Writes.Payload)
    requires Built(cat, reg, c, file) && OnlyNamed(file, Held(c, roles))
    ensures Writes.FieldsPart(FieldGrants(cat, c, roles, key), fields, data) <==>
      forall f | f in data && f in fields :: FileShows(cat, file, Held(c, roles), key, f)
    ensures Writes.ValuesPart(FieldGrants(cat, c, roles, key), data) <==>
      forall f | f in data && FileConstrains(file, Held(c, roles), key, f) ::
        FileAccepts(file, Held(c, roles), key, f, data[f])
  {
    hide Built, OnlyNamed, Held, FieldGrants, FileAccepts, FileShows, FileConstrains;
    hide Writes.UnionOfFields, Writes.ValuePermitted;
    forall f | f in data
      ensures f in Writes.UnionOfFields(FieldGrants(cat, c, roles, key)) <==>
        FileShows(cat, file, Held(c, roles), key, f)
      ensures Writes.ValuePermitted(FieldGrants(cat, c, roles, key), f, data[f]) <==>
        (FileConstrains(file, Held(c, roles), key, f) ==> FileAccepts(file, Held(c, roles), key, f, data[f]))
    {
      FieldsFromFile(cat, reg, c, file, roles, key, f, Null);
      ValueFromFile(cat, reg, c, file, roles, key, f, data[f]);
    }
  }

  lemma ValueFromFile(cat: Catalogue, reg: Reg, c: Composition, file: File, roles: seq<string>, key: string, f: string,
                      given: Writes.Given)
    requires Built(cat, reg, c, file) && OnlyNamed(file, Held(c, roles))
    ensures var held := Held(c, roles);
      Writes.ValuePermitted(FieldGrants(cat, c, roles, key), f, given) <==>
        (FileConstrains(file, held, key, f) ==> FileAccepts(file, held, key, f, given))
  {
    hide Built, OnlyNamed, Held, FieldGrants, FileConstrains, FilePermits;
    hide Writes.UnionOfFields, Writes.UnionOfValues, Writes.Constrained;
    FieldsFromFile(cat, reg, c, file, roles, key, f, if given.Scalar? then given.value else Null);
  }

  /** The same from empty tables: what a user may write is read off the roles the file binds, the endpoints it
      lists and the field groups it names. */
  lemma SpecCompilesWrites(cat: Catalogue, c0: Composition, c1: Composition, file: File, lo: nat, p: Policy,
                           world: World, user: User, key: string, data: Writes.Payload)
    requires WellFormed(cat, c0, lo) && c0.permissions == map[] && c0.bindings == {}
    requires Acceptable(cat, p.reg, c0, file) && Applied(cat, c0, c1, file, lo)
    requires ReadsFrom(p, cat, c1) && !Bypasses(p, user) && Lookup(p.reg, key).Ok?
    ensures var spec := Lookup(p.reg, key).value;
      Writes.Writable(p, world, user, key, data) <==>
        FileWrites(cat, file, Given(file, p.principals(user)), key, spec, data) &&
        Writes.ReferencesOk(p, world, user, spec.fkScopes, data)
  {
    hide WellFormed, Acceptable, Applied, Built, ReadsFrom, Lookup, FileWrites, Given, Held, OnlyNamed;
    hide Writes.Writable, Writes.ReferencesOk;
    AppliedIsBuilt(cat, p.reg, c0, c1, file, lo);
    HeldFromEmpty(cat, p.reg, c0, c1, file, lo, p.principals(user));
    DeployedWrites(cat, c1, file, p, world, user, key, data);
  }
}
