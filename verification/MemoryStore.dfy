/** Grants held in memory. */
module MemoryStores {
  import opened Values
  import opened Grants
  import opened Listing

  /** What a fixture was told, in the order it was told. */
  datatype Fixture = Fixture(
    endpoints: set<(string, string)>,
    objects: seq<(string, ObjectGrant)>,
    fields: seq<(string, FieldGrant)>)

  // ----- lookups keep one grant per name, the last

  predicate Concerns<G>(e: (string, G), keyOf: G -> string, roles: seq<string>, key: string) {
    e.0 in roles && keyOf(e.1) == key
  }

  function LastNamed<G>(entries: seq<(string, G)>, nameOf: G -> string, keyOf: G -> string, roles: seq<string>,
                        key: string): map<string, G> {
    if entries == [] then map[]
    else
      var init, last := LastNamed(entries[..|entries| - 1], nameOf, keyOf, roles, key), entries[|entries| - 1];
      if Concerns(last, keyOf, roles, key) then init[nameOf(last.1) := last.1] else init
  }

  /** Entry `i` is the last that concerns these roles and this key under its name. */
  ghost predicate Wins<G>(entries: seq<(string, G)>, nameOf: G -> string, keyOf: G -> string, roles: seq<string>,
                          key: string, i: nat) {
    && i < |entries| && Concerns(entries[i], keyOf, roles, key)
    && forall j | i < j < |entries| && Concerns(entries[j], keyOf, roles, key) ::
      nameOf(entries[j].1) != nameOf(entries[i].1)
  }

  /** The names looked up are those of the entries that concern the question; each stands for the last of them. */
  lemma {:induction false} LastWins<G>(entries: seq<(string, G)>, nameOf: G -> string, keyOf: G -> string,
                                       roles: seq<string>, key: string)
    ensures forall e | e in entries && Concerns(e, keyOf, roles, key) ::
      nameOf(e.1) in LastNamed(entries, nameOf, keyOf, roles, key)
    ensures forall n | n in LastNamed(entries, nameOf, keyOf, roles, key) ::
      exists i: nat :: Wins(entries, nameOf, keyOf, roles, key, i) && nameOf(entries[i].1) == n
                       && LastNamed(entries, nameOf, keyOf, roles, key)[n] == entries[i].1
  {
    if entries != [] {
      var init, last := entries[..|entries| - 1], entries[|entries| - 1];
      var before, all := LastNamed(init, nameOf, keyOf, roles, key), LastNamed(entries, nameOf, keyOf, roles, key);
      LastWins(init, nameOf, keyOf, roles, key);
      assert forall e :: e in entries <==> e in init || e == last;
      forall n | n in all
        ensures exists i: nat ::
          Wins(entries, nameOf, keyOf, roles, key, i) && nameOf(entries[i].1) == n && all[n] == entries[i].1
      {
        if Concerns(last, keyOf, roles, key) && nameOf(last.1) == n {
          assert Wins(entries, nameOf, keyOf, roles, key, |init|);
        } else {
          var i: nat :| Wins(init, nameOf, keyOf, roles, key, i) && nameOf(init[i].1) == n && before[n] == init[i].1;
          assert forall j | 0 <= j < |init| :: init[j] == entries[j];
          assert Wins(entries, nameOf, keyOf, roles, key, i);
        }
      }
    }
  }

  method Seen<G>(entries: seq<(string, G)>, nameOf: G -> string, keyOf: G -> string, roles: seq<string>, key: string)
    returns (seen: map<string, G>)
    ensures seen == LastNamed(entries, nameOf, keyOf, roles, key)
  {
    seen := map[];
    for i := 0 to |entries|
      invariant seen == LastNamed(entries[..i], nameOf, keyOf, roles, key)
    {
      assert entries[..i + 1][..i] == entries[..i];
      if Concerns(entries[i], keyOf, roles, key) {
        seen := seen[nameOf(entries[i].1) := entries[i].1];
      }
    }
    assert entries[..|entries|] == entries;
  }

  function ObjectName(g: ObjectGrant): string { g.name }
  function ObjectKeyOf(g: ObjectGrant): string { g.key }
  function FieldName(g: FieldGrant): string { g.name }
  function FieldKeyOf(g: FieldGrant): string { g.key }

  function NamedObjects(f: Fixture, roles: seq<string>, key: string): map<string, ObjectGrant> {
    LastNamed(f.objects, ObjectName, ObjectKeyOf, roles, key)
  }

  function NamedFields(f: Fixture, roles: seq<string>, key: string): map<string, FieldGrant> {
    LastNamed(f.fields, FieldName, FieldKeyOf, roles, key)
  }

  ghost function ByName<G>(named: map<string, G>): seq<G> {
    var ns := Listed(named.Keys);
    seq(|ns|, i requires 0 <= i < |ns| =>
      assert ns[i] in named.Keys;
      named[ns[i]])
  }

  lemma ByNameMembers<G>(named: map<string, G>, g: G)
    ensures g in ByName(named) <==> exists n :: n in named && named[n] == g
  {
    var ns, gs := Listed(named.Keys), ByName(named);
    if g in gs {
      var i :| 0 <= i < |gs| && gs[i] == g;
      assert ns[i] in named.Keys;
    }
    if n :| n in named && named[n] == g {
      assert n in ns;
      var i :| 0 <= i < |ns| && ns[i] == n;
      assert gs[i] == g;
    }
  }

  predicate FixtureEndpoint(f: Fixture, roles: seq<string>, key: string) {
    exists r :: r in roles && (r, key) in f.endpoints
  }

  ghost function MemoryStoreOf(f: Fixture): Store {
    Store((roles, key) => FixtureEndpoint(f, roles, key),
          (roles, key) => ByName(NamedObjects(f, roles, key)),
          (roles, key) => ByName(NamedFields(f, roles, key)))
  }

  lemma WinnersAre<G(!new)>(entries: seq<(string, G)>, nameOf: G -> string, keyOf: G -> string, roles: seq<string>,
                            key: string, g: G)
    ensures g in ByName(LastNamed(entries, nameOf, keyOf, roles, key)) <==>
      exists i: nat :: Wins(entries, nameOf, keyOf, roles, key, i) && entries[i].1 == g
  {
    var named := LastNamed(entries, nameOf, keyOf, roles, key);
    ByNameMembers(named, g);
    LastWins(entries, nameOf, keyOf, roles, key);
    hide ByName, LastNamed;
    if i: nat :| Wins(entries, nameOf, keyOf, roles, key, i) && entries[i].1 == g {
      assert entries[i] in entries && nameOf(g) in named;
      var j: nat :| Wins(entries, nameOf, keyOf, roles, key, j) && nameOf(entries[j].1) == nameOf(g)
        && named[nameOf(g)] == entries[j].1;
      assert i == j;
    }
  }

  /** The last object grant told of these roles and this key under its name. */
  ghost predicate LastObject(f: Fixture, roles: seq<string>, key: string, i: nat) {
    && i < |f.objects| && f.objects[i].0 in roles && f.objects[i].1.key == key
    && forall j | i < j < |f.objects| && f.objects[j].0 in roles && f.objects[j].1.key == key ::
         f.objects[j].1.name != f.objects[i].1.name
  }

  ghost predicate LastField(f: Fixture, roles: seq<string>, key: string, i: nat) {
    && i < |f.fields| && f.fields[i].0 in roles && f.fields[i].1.key == key
    && forall j | i < j < |f.fields| && f.fields[j].0 in roles && f.fields[j].1.key == key ::
         f.fields[j].1.name != f.fields[i].1.name
  }

  /** What the store answers, told from what it was told: the endpoint of some role, and of the grants with one name
      for these roles and this key the last. */
  lemma MemoryAnswers(f: Fixture, roles: seq<string>, key: string, g: ObjectGrant, h: FieldGrant)
    ensures MemoryStoreOf(f).endpoint(roles, key) <==> exists role :: role in roles && (role, key) in f.endpoints
    ensures g in MemoryStoreOf(f).objects(roles, key) <==>
      exists i: nat :: LastObject(f, roles, key, i) && f.objects[i].1 == g
    ensures h in MemoryStoreOf(f).fields(roles, key) <==>
      exists i: nat :: LastField(f, roles, key, i) && f.fields[i].1 == h
  {
    WinnersAre(f.objects, ObjectName, ObjectKeyOf, roles, key, g);
    WinnersAre(f.fields, FieldName, FieldKeyOf, roles, key, h);
    hide ByName, LastNamed;
    forall i: nat
      ensures LastObject(f, roles, key, i) <==> Wins(f.objects, ObjectName, ObjectKeyOf, roles, key, i)
      ensures LastField(f, roles, key, i) <==> Wins(f.fields, FieldName, FieldKeyOf, roles, key, i)
    {
    }
  }

  class MemoryStore {
    var endpoints: set<(string, string)>
    var objects: seq<(string, ObjectGrant)>
    var fields: seq<(string, FieldGrant)>

    function Contents(): Fixture
      reads this
    {
      Fixture(endpoints, objects, fields)
    }

    constructor ()
      ensures Contents() == Fixture({}, [], [])
    {
      endpoints, objects, fields := {}, [], [];
    }

    method GrantEndpoint(role: string, key: string)
      modifies this
      ensures Contents() == old(Contents()).(endpoints := old(endpoints) + {(role, key)})
    {
      endpoints := endpoints + {(role, key)};
    }

    method GrantObject(role: string, key: string, name: string, conditions: seq<(string, Params)>)
      modifies this
      ensures Contents() == old(Contents()).(objects := old(objects) + [(role, ObjectGrant(name, key, conditions))])
    {
      objects := objects + [(role, ObjectGrant(name, key, conditions))];
    }

    method GrantField(role: string, key: string, name: string, allowedFields: set<string>,
                      allowedValues: map<string, set<Value>>)
      modifies this
      ensures Contents() == old(Contents()).(fields := old(fields) + [(role,
        FieldGrant(name, key, allowedFields, allowedValues))])
    {
      fields := fields + [(role, FieldGrant(name, key, allowedFields, allowedValues))];
    }

    /** The dictionary a lookup fills, one grant per name. */
    method SeenObjects(roles: seq<string>, key: string) returns (seen: map<string, ObjectGrant>)
      ensures seen == NamedObjects(Contents(), roles, key)
    {
      seen := Seen(objects, ObjectName, ObjectKeyOf, roles, key);
    }

    method SeenFields(roles: seq<string>, key: string) returns (seen: map<string, FieldGrant>)
      ensures seen == NamedFields(Contents(), roles, key)
    {
      seen := Seen(fields, FieldName, FieldKeyOf, roles, key);
    }
  }
}
