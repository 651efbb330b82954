/** Which permission files are accepted, and what a run reports of one, told from the file and the tables alone. */
module FileMeaning {
  import opened Keys
  import opened Base
  import opened Registry
  import opened Upserting
  import opened Tables
  import opened Views
  import opened SpecFile
  import opened SpecProperties
  import opened FieldTier
  import opened Published

  // ----- what a file may name

  /** A key with an object and a verb. */
  predicate Whole(h: Halves) {
    h.sep && h.objectKey != "" && h.verb != ""
  }

  /** A rule is about a live object, and each of its filters is a live one of that object whose params bind, if the
      registry still has it. */
  ghost predicate RuleDeclared(cat: Catalogue, reg: Reg, e: RuleEntry) {
    var h := RPartition(e.key);
    Whole(h) && exists a :: OwnerIs(cat, a, h.objectKey) && forall c | c in e.conditions :: FilterFits(cat, reg, a, c)
  }

  ghost predicate FilterFits(cat: Catalogue, reg: Reg, a: nat, c: ConditionEntry) {
    && (exists f :: FilterIs(cat, f, c.filter) && cat.filters[f].cols.owner == a)
    && (c.filter in reg.conditions ==> Bind(reg.conditions[c.filter], c.params).Ok?)
  }

  /** A field entry is about a live group of the object, and says what may be done with its fields. */
  ghost predicate FieldDeclared(cat: Catalogue, e: FieldEntry) {
    var h := RPartition(e.group);
    Whole(h) && e.verb != "" && exists g :: LiveGroupOf(cat, g, h.objectKey, h.verb)
  }

  ghost predicate LiveGroupOf(cat: Catalogue, g: nat, o: string, name: string) {
    && Live(cat.groups, g) && cat.groups[g].cols.key == name
    && cat.groups[g].cols.owner in cat.objects && cat.objects[cat.groups[g].cols.owner].cols.key == o
  }

  /** A stored rule of the permission with the key and the label of the entry. */
  ghost predicate StoredFor(cat: Catalogue, comp: Composition, p: string, e: RuleEntry, r: nat) {
    r in comp.rules && var rule, h := comp.rules[r], RPartition(e.key);
    && rule.permission == p && rule.verb == h.verb && rule.title == e.title
    && Live(cat.objects, rule.owner) && cat.objects[rule.owner].cols.key == h.objectKey
  }

  /** A permission can be built: everything it names is there, no two of its rules have one key and one label, and
      none is stored twice. */
  ghost predicate Buildable(cat: Catalogue, reg: Reg, comp: Composition, p: string, body: PermissionBody) {
    && (forall k | k in body.endpoints :: exists e :: EndpointIs(cat, e, k))
    && (forall e | e in body.rules :: RuleDeclared(cat, reg, e))
    && (forall i, j | 0 <= i < j < |body.rules| ::
          body.rules[i].key != body.rules[j].key || body.rules[i].title != body.rules[j].title)
    && (forall e, r, s | e in body.rules && StoredFor(cat, comp, p, e, r) && StoredFor(cat, comp, p, e, s) :: r == s)
    && (forall e | e in body.fields :: FieldDeclared(cat, e))
  }

  lemma LiveAtExactly<V(!new), N(!new)>(t: Table<V>, natural: V -> N, n: N)
    requires UniqueNatural(t, natural)
    ensures LiveAt(t, natural, n) <==> exists a :: Live(t, a) && natural(t[a].cols) == n
    ensures forall a | Live(t, a) && natural(t[a].cols) == n :: Holds(t, natural, n) && a == PkOf(t, natural, n)
  {
    if LiveAt(t, natural, n) {
      assert Live(t, PkOf(t, natural, n));
    }
  }

  lemma EndpointsOkExactly(cat: Catalogue, keys: seq<string>)
    requires UniqueNatural(cat.endpoints, EndpointNatural)
    ensures EndpointsOk(cat, keys) <==> forall k | k in keys :: exists e :: EndpointIs(cat, e, k)
  {
    forall k
      ensures LiveAt(cat.endpoints, EndpointNatural, k) <==> exists e :: EndpointIs(cat, e, k)
    {
      LiveAtExactly(cat.endpoints, EndpointNatural, k);
      if e :| Live(cat.endpoints, e) && EndpointNatural(cat.endpoints[e].cols) == k {
        assert EndpointIs(cat, e, k);
      }
      if e :| EndpointIs(cat, e, k) {
        assert EndpointNatural(cat.endpoints[e].cols) == k;
      }
    }
  }

  lemma EntryOkExactly(cat: Catalogue, reg: Reg, a: nat, c: ConditionEntry)
    requires UniqueNatural(cat.filters, FilterNatural)
    ensures EntryOk(cat, reg, a, c) <==> FilterFits(cat, reg, a, c)
  {
    LiveAtExactly(cat.filters, FilterNatural, c.filter);
    hide UniqueNatural, Bindable;
    if f :| FilterIs(cat, f, c.filter) && cat.filters[f].cols.owner == a {
      assert FilterNatural(cat.filters[f].cols) == c.filter;
    }
    if LiveAt(cat.filters, FilterNatural, c.filter) {
      var f := PkOf(cat.filters, FilterNatural, c.filter);
      assert FilterIs(cat, f, c.filter);
    }
  }

  /** The identity of a rule whose object is live: that object's row, the verb and the label. */
  lemma IdentIs(cat: Catalogue, e: RuleEntry, a: nat)
    requires UniqueNatural(cat.objects, ObjectNatural) && OwnerIs(cat, a, RPartition(e.key).objectKey)
    ensures LiveAt(cat.objects, ObjectNatural, RPartition(e.key).objectKey)
    ensures IdentOf(cat, e) == (a, RPartition(e.key).verb, e.title)
  {
    hide RPartition;
    assert ObjectNatural(cat.objects[a].cols) == RPartition(e.key).objectKey;
    LiveAtExactly(cat.objects, ObjectNatural, RPartition(e.key).objectKey);
  }

  lemma RuleOkExactly(cat: Catalogue, reg: Reg, e: RuleEntry)
    requires UniqueNatural(cat.objects, ObjectNatural) && UniqueNatural(cat.filters, FilterNatural)
    ensures RuleOk(cat, reg, e) <==> RuleDeclared(cat, reg, e)
  {
    var o := RPartition(e.key).objectKey;
    hide RPartition, EntryOk, FilterFits, UniqueNatural, IdentOf;
    forall a, c
      ensures EntryOk(cat, reg, a, c) <==> FilterFits(cat, reg, a, c)
    {
      EntryOkExactly(cat, reg, a, c);
    }
    LiveAtExactly(cat.objects, ObjectNatural, o);
    if LiveAt(cat.objects, ObjectNatural, o) {
      var a := PkOf(cat.objects, ObjectNatural, o);
      assert OwnerIs(cat, a, o);
      IdentIs(cat, e, a);
    }
    forall a | OwnerIs(cat, a, o)
      ensures LiveAt(cat.objects, ObjectNatural, o) && IdentOf(cat, e).0 == a
    {
      IdentIs(cat, e, a);
    }
  }

  lemma FieldOkExactly(cat: Catalogue, e: FieldEntry)
    requires CatalogueValid(cat)
    ensures FieldOk(cat, e) <==> FieldDeclared(cat, e)
  {
    var h := RPartition(e.group);
    hide RPartition;
    if FieldOk(cat, e) {
      var a := PkOf(cat.objects, ObjectNatural, h.objectKey);
      assert LiveGroupOf(cat, PkOf(cat.groups, GroupNatural, (a, h.verb)), h.objectKey, h.verb);
    }
    if g :| LiveGroupOf(cat, g, h.objectKey, h.verb) {
      var a := cat.groups[g].cols.owner;
      assert ObjectNatural(cat.objects[a].cols) == h.objectKey;
      assert Holds(cat.objects, ObjectNatural, h.objectKey) && PkOf(cat.objects, ObjectNatural, h.objectKey) == a;
      assert GroupNatural(cat.groups[g].cols) == (a, h.verb);
      LiveAtExactly(cat.groups, GroupNatural, (a, h.verb));
    }
  }

  /** Two rules about live objects have one identity exactly when they have one key and one label. */
  lemma SameRule(cat: Catalogue, reg: Reg, d: RuleEntry, e: RuleEntry)
    requires UniqueNatural(cat.objects, ObjectNatural) && UniqueNatural(cat.filters, FilterNatural)
    requires RuleOk(cat, reg, d) && RuleOk(cat, reg, e)
    ensures IdentOf(cat, d) == IdentOf(cat, e) <==> d.key == e.key && d.title == e.title
  {
    RuleOkExactly(cat, reg, d);
    RuleOkExactly(cat, reg, e);
    var a :| OwnerIs(cat, a, RPartition(d.key).objectKey);
    var b :| OwnerIs(cat, b, RPartition(e.key).objectKey);
    IdentIs(cat, d, a);
    IdentIs(cat, e, b);
    SameHalves(d.key, e.key);
    hide RPartition, IdentOf, RuleOk, FilterFits, UniqueNatural;
  }

  lemma StoredOnce(cat: Catalogue, reg: Reg, comp: Composition, p: string, e: RuleEntry)
    requires UniqueNatural(cat.objects, ObjectNatural) && UniqueNatural(cat.filters, FilterNatural)
    requires RuleOk(cat, reg, e)
    ensures AtMostOne(RulesOf(comp, p), IdentOf(cat, e)) <==>
      forall r, s | StoredFor(cat, comp, p, e, r) && StoredFor(cat, comp, p, e, s) :: r == s
  {
    RuleOkExactly(cat, reg, e);
    var a :| OwnerIs(cat, a, RPartition(e.key).objectKey);
    IdentIs(cat, e, a);
    hide RPartition, IdentOf, RuleOk, RuleDeclared, FilterFits;
    forall r
      ensures StoredFor(cat, comp, p, e, r) <==>
        r in RulesOf(comp, p) && IdentOfDoc(RulesOf(comp, p)[r]) == IdentOf(cat, e)
    {
      if StoredFor(cat, comp, p, e, r) {
        assert ObjectNatural(cat.objects[comp.rules[r].owner].cols) == ObjectNatural(cat.objects[a].cols);
      }
    }
    hide UniqueNatural, RulesOf, StoredFor;
  }

  lemma FieldsOkExactly(cat: Catalogue, fields: seq<FieldEntry>)
    requires CatalogueValid(cat)
    ensures FieldsOk(cat, fields) <==> forall e | e in fields :: FieldDeclared(cat, e)
  {
    hide FieldOk, FieldDeclared, CatalogueValid;
    forall e
      ensures FieldOk(cat, e) <==> FieldDeclared(cat, e)
    {
      FieldOkExactly(cat, e);
    }
  }

  lemma RulesOkExactly(cat: Catalogue, reg: Reg, comp: Composition, p: string, rules: seq<RuleEntry>)
    requires UniqueNatural(cat.objects, ObjectNatural) && UniqueNatural(cat.filters, FilterNatural)
    ensures RulesOk(cat, reg, RulesOf(comp, p), rules) <==>
      && (forall e | e in rules :: RuleDeclared(cat, reg, e))
      && (forall i, j | 0 <= i < j < |rules| :: rules[i].key != rules[j].key || rules[i].title != rules[j].title)
      && (forall e, r, s | e in rules && StoredFor(cat, comp, p, e, r) && StoredFor(cat, comp, p, e, s) :: r == s)
  {
    hide RuleOk, RuleDeclared, StoredFor, UniqueNatural, AtMostOne, IdentOf, RulesOf;
    forall e
      ensures RuleOk(cat, reg, e) <==> RuleDeclared(cat, reg, e)
    {
      RuleOkExactly(cat, reg, e);
    }
    if forall e | e in rules :: RuleOk(cat, reg, e) {
      forall i | 0 <= i < |rules|
        ensures AtMostOne(RulesOf(comp, p), IdentOf(cat, rules[i])) <==>
          forall r, s | StoredFor(cat, comp, p, rules[i], r) && StoredFor(cat, comp, p, rules[i], s) :: r == s
      {
        StoredOnce(cat, reg, comp, p, rules[i]);
      }
      forall i, j | 0 <= i < j < |rules|
        ensures IdentOf(cat, rules[i]) == IdentOf(cat, rules[j]) <==>
          rules[i].key == rules[j].key && rules[i].title == rules[j].title
      {
        SameRule(cat, reg, rules[i], rules[j]);
      }
    }
  }

  lemma BodyOkExactly(cat: Catalogue, reg: Reg, comp: Composition, p: string, body: PermissionBody)
    requires CatalogueValid(cat)
    ensures BodyOk(cat, reg, RulesOf(comp, p), body) <==> Buildable(cat, reg, comp, p, body)
  {
    EndpointsOkExactly(cat, body.endpoints);
    RulesOkExactly(cat, reg, comp, p, body.rules);
    FieldsOkExactly(cat, body.fields);
    hide EndpointsOk, RulesOk, FieldsOk, EndpointIs, RuleDeclared, StoredFor, FieldDeclared, UniqueNatural, RulesOf;
  }

  /** A file is accepted exactly when it says something, each permission in it can be built, and each permission it
      gives to a role is stored or in the file. */
  lemma AcceptedExactly(cat: Catalogue, reg: Reg, comp: Composition, file: File)
    requires CatalogueValid(cat)
    ensures Acceptable(cat, reg, comp, file) <==>
      && (file.permissions != [] || file.roles != [])
      && (forall i | 0 <= i < |file.permissions| ::
            Buildable(cat, reg, comp, file.permissions[i].0, file.permissions[i].1))
      && (forall i, p | 0 <= i < |file.roles| && p in file.roles[i].1.permissions ::
            p in comp.permissions || exists j :: 0 <= j < |file.permissions| && file.permissions[j].0 == p)
  {
    forall i | 0 <= i < |file.permissions|
      ensures BodyOk(cat, reg, RulesOf(comp, file.permissions[i].0), file.permissions[i].1) <==>
        Buildable(cat, reg, comp, file.permissions[i].0, file.permissions[i].1)
    {
      BodyOkExactly(cat, reg, comp, file.permissions[i].0, file.permissions[i].1);
    }
    hide BodyOk, Buildable, RulesOf, CatalogueValid;
  }

  // ----- what a run reports

  /** Two entries of the file are about one group and one verb and permit different values. */
  predicate Contradictory(fields: seq<FieldEntry>) {
    exists i, j :: 0 <= i < |fields| && 0 <= j < |fields| && fields[i].group == fields[j].group
                   && fields[i].verb == fields[j].verb && fields[i].values != fields[j].values
  }

  lemma ContradictsExactly(cat: Catalogue, fields: seq<FieldEntry>)
    requires CatalogueValid(cat) && FieldsOk(cat, fields)
    ensures Contradicts(cat, fields) <==> Contradictory(fields)
  {
    hide FieldOk, CatalogueValid, FieldIdent;
    forall d, e | d in fields && e in fields
      ensures FieldIdent(cat, d) == FieldIdent(cat, e) <==> d.group == e.group && d.verb == e.verb
    {
      SameIdentity(cat, d, e);
    }
    if d, e :| d in fields && e in fields && FieldIdent(cat, d) == FieldIdent(cat, e) && d.values != e.values {
      var i :| 0 <= i < |fields| && fields[i] == d;
      var j :| 0 <= j < |fields| && fields[j] == e;
      assert fields[i].group == fields[j].group && fields[i].values != fields[j].values;
    }
    if Contradictory(fields) {
      var i, j :| 0 <= i < |fields| && 0 <= j < |fields| && fields[i].group == fields[j].group
        && fields[i].verb == fields[j].verb && fields[i].values != fields[j].values;
      assert fields[i] in fields && fields[j] in fields;
    }
  }

  lemma UntouchedGrants(cat: Catalogue, was: map<(nat, string), AllowedValues>, fields: seq<FieldEntry>)
    requires !GrantsTouched(cat, was, fields)
    ensures was == WantedGrants(cat, fields) && !Contradicts(cat, fields)
  {
    WantedGrantsKeys(cat, fields);
    hide FieldIdent, WantedGrants;
    forall x
      ensures x in was <==> x in WantedGrants(cat, fields)
      ensures x in was ==> was[x] == WantedGrants(cat, fields)[x]
    {
      if x in WantedGrants(cat, fields) {
        var e :| e in fields && FieldIdent(cat, e) == x && WantedGrants(cat, fields)[x] == e.values;
        assert FieldIdent(cat, e) in was && was[FieldIdent(cat, e)] == e.values;
      }
    }
  }

  lemma OutcomeExactly(cat: Catalogue, c0: Composition, c1: Composition, p: string, body: PermissionBody, lo: nat)
    requires CatalogueValid(cat) && FieldsOk(cat, body.fields) && PermissionApplied(cat, c0, c1, p, body, lo)
    ensures OutcomeOf(cat, c0, p, body) ==
      if p !in c0.permissions then Composed
      else if SamePermission(c0, c1, p) && !Contradictory(body.fields) then Alike
      else Amended
  {
    ContradictsExactly(cat, body.fields);
    AppliedPermissionMatches(cat, c0, c1, p, body, lo);
    hide RulesOf, EndpointsOf, GrantsOf, Goals, WantedEndpoints, WantedGrants, RulesMatch, RulesApplied, GrantsTouched,
      Contradicts, Contradictory, FieldsOk, CatalogueValid;
    if p in c0.permissions && SamePermission(c0, c1, p) {
      MatchingTouched(cat, c0, p, body);
    }
    if p in c0.permissions && !Touched(cat, c0, p, body) {
      UntouchedGrants(cat, GrantsOf(c0, p), body.fields);
      MatchingStays(RulesOf(c0, p), RulesOf(c1, p), Goals(cat, body.rules), lo);
    }
  }

  lemma {:induction false} KeysWithMembers(cat: Catalogue, c0: Composition, entries: seq<(string, PermissionBody)>,
                                           o: Outcome, p: string)
    ensures p in KeysWith(cat, c0, entries, o) <==>
      exists i :: 0 <= i < |entries| && entries[i].0 == p && OutcomeOf(cat, c0, p, entries[i].1) == o
  {
    if entries != [] {
      var init, last := entries[..|entries| - 1], entries[|entries| - 1];
      hide OutcomeOf;
      KeysWithMembers(cat, c0, init, o, p);
      assert forall i | 0 <= i < |init| :: init[i] == entries[i];
      assert entries[|init|] == last;
    }
  }

  ghost predicate Earlier<V>(entries: seq<(string, V)>, x: string, y: string) {
    exists a, b :: 0 <= a < b < |entries| && entries[a].0 == x && entries[b].0 == y
  }

  /** The keys come in the order of the file. */
  ghost predicate InFileOrder<V>(keys: seq<string>, entries: seq<(string, V)>) {
    forall i, j | 0 <= i < j < |keys| :: Earlier(entries, keys[i], keys[j])
  }

  lemma EarlierStill<V>(entries: seq<(string, V)>, last: (string, V), x: string, y: string)
    requires Earlier(entries, x, y) || (y == last.0 && exists a :: 0 <= a < |entries| && entries[a].0 == x)
    ensures Earlier(entries + [last], x, y)
  {
    var longer := entries + [last];
    if a, b :| 0 <= a < b < |entries| && entries[a].0 == x && entries[b].0 == y {
      assert longer[a] == entries[a] && longer[b] == entries[b];
    } else {
      var a :| 0 <= a < |entries| && entries[a].0 == x;
      assert longer[a] == entries[a] && longer[|entries|] == last;
    }
  }

  lemma InLongerFile<V>(keys: seq<string>, entries: seq<(string, V)>, last: (string, V))
    requires InFileOrder(keys, entries) && forall k | k in keys :: exists a :: 0 <= a < |entries| && entries[a].0 == k
    ensures InFileOrder(keys, entries + [last]) && InFileOrder(keys + [last.0], entries + [last])
  {
    hide Earlier;
    var more := keys + [last.0];
    forall i, j | 0 <= i < j < |more|
      ensures Earlier(entries + [last], more[i], more[j])
    {
      assert more[i] == keys[i] && keys[i] in keys;
      assert j < |keys| ==> more[j] == keys[j];
      EarlierStill(entries, last, more[i], more[j]);
    }
    forall i, j | 0 <= i < j < |keys|
      ensures Earlier(entries + [last], keys[i], keys[j])
    {
      assert more[i] == keys[i] && more[j] == keys[j];
    }
  }

  lemma {:induction false} KeysInOrder(cat: Catalogue, c0: Composition, entries: seq<(string, PermissionBody)>,
                                       o: Outcome)
    ensures InFileOrder(KeysWith(cat, c0, entries, o), entries)
  {
    if entries != [] {
      var init, last := entries[..|entries| - 1], entries[|entries| - 1];
      hide OutcomeOf;
      KeysInOrder(cat, c0, init, o);
      var keys := KeysWith(cat, c0, init, o);
      forall k | k in keys
        ensures exists a :: 0 <= a < |init| && init[a].0 == k
      {
        KeysWithMembers(cat, c0, init, o, k);
      }
      InLongerFile(keys, init, last);
      assert init + [last] == entries;
      assert keys + [] == keys;
    }
  }

  /** A permission is reported as created exactly when it was not there before; one that was there, as updated
      exactly when something of it is different afterwards or the file contradicts itself about it, and as unchanged
      otherwise; each list is in file order. */
  lemma ReportExactly(cat: Catalogue, reg: Reg, c0: Composition, c1: Composition, file: File, lo: nat, r: Report,
                      i: nat)
    requires CatalogueValid(cat) && Acceptable(cat, reg, c0, file) && Dictionary(file.permissions)
    requires Applied(cat, c0, c1, file, lo) && Reports(cat, c0, c1, file, r) && i < |file.permissions|
    ensures var (p, body) := file.permissions[i];
      && (p in r.created <==> p !in c0.permissions)
      && (p in r.kept <==>
            p in c0.permissions && SamePermission(c0, c1, p) && !Contradictory(body.fields))
      && (p in r.updated <==>
            p in c0.permissions && (!SamePermission(c0, c1, p) || Contradictory(body.fields)))
  {
    var (p, body) := file.permissions[i];
    OutcomeHere(cat, reg, c0, c1, file, lo, i);
    hide SamePermission, PermissionApplied, Contradictory, OutcomeOf, KeysWith, RolesAfter, NewRoles, FilePairs,
      Linked, CatalogueValid, Acceptable;
    KeysWithMembers(cat, c0, file.permissions, Composed, p);
    KeysWithMembers(cat, c0, file.permissions, Amended, p);
    KeysWithMembers(cat, c0, file.permissions, Alike, p);
    assert forall j | 0 <= j < |file.permissions| && file.permissions[j].0 == p :: j == i;
  }

  lemma OutcomeHere(cat: Catalogue, reg: Reg, c0: Composition, c1: Composition, file: File, lo: nat, i: nat)
    requires CatalogueValid(cat) && Acceptable(cat, reg, c0, file)
    requires Applied(cat, c0, c1, file, lo) && i < |file.permissions|
    ensures var (p, body) := file.permissions[i];
      OutcomeOf(cat, c0, p, body) ==
      if p !in c0.permissions then Composed
      else if SamePermission(c0, c1, p) && !Contradictory(body.fields) then Alike
      else Amended
  {
    var (p, body) := file.permissions[i];
    hide SamePermission, PermissionApplied, Contradictory, OutcomeOf, RolesAfter, FilePairs, Linked, CatalogueValid,
      EndpointsOk, RulesOk, FieldsOk;
    assert BodyOk(cat, reg, RulesOf(c0, file.permissions[i].0), file.permissions[i].1);
    OutcomeExactly(cat, c0, c1, p, body, lo);
  }

  /** What is reported is in the file, in its order. */
  lemma ReportOrder(cat: Catalogue, c0: Composition, c1: Composition, file: File, r: Report, p: string)
    requires Reports(cat, c0, c1, file, r)
    ensures p in r.created || p in r.updated || p in r.kept ==> Names(file, p)
    ensures InFileOrder(r.created, file.permissions) && InFileOrder(r.updated, file.permissions)
    ensures InFileOrder(r.kept, file.permissions)
  {
    hide OutcomeOf, KeysWith, Earlier, InFileOrder, NewRoles;
    KeysInOrder(cat, c0, file.permissions, Composed);
    KeysInOrder(cat, c0, file.permissions, Amended);
    KeysInOrder(cat, c0, file.permissions, Alike);
    KeysWithMembers(cat, c0, file.permissions, Composed, p);
    KeysWithMembers(cat, c0, file.permissions, Amended, p);
    KeysWithMembers(cat, c0, file.permissions, Alike, p);
  }

  // ----- places

  /** A rule of a permission the file names keeps its row's place and its conditions theirs; a rule that is new has
      its place in the file, and new conditions come in the order in which the file first names their filters. */
  lemma PlacesExactly(cat: Catalogue, reg: Reg, c0: Composition, c1: Composition, file: File, lo: nat, i: nat, j: nat,
                      r: nat)
    requires CatalogueValid(cat) && Acceptable(cat, reg, c0, file) && Applied(cat, c0, c1, file, lo)
    requires i < |file.permissions| && j < |file.permissions[i].1.rules| && r in c1.rules
    requires StoredFor(cat, c1, file.permissions[i].0, file.permissions[i].1.rules[j], r)
    ensures var p := file.permissions[i].0;
      if r in c0.rules && c0.rules[r].permission == p then
        && c1.rules[r] == c0.rules[r]
        && forall f | (r, f) in c1.conditions && (r, f) in c0.conditions ::
             c1.conditions[(r, f)].order == c0.conditions[(r, f)].order
      else c1.rules[r].order == j && r >= lo
    ensures forall f, g | (r, f) in c1.conditions && (r, g) in c1.conditions ::
      var (p, body) := file.permissions[i];
      !Kept(c0, p, r, f) && !Kept(c0, p, r, g) && NamedBefore(cat, body.rules[j].conditions, f, g) ==>
        c1.conditions[(r, f)].order < c1.conditions[(r, g)].order
  {
    var (p, body) := file.permissions[i];
    var e := body.rules[j];
    assert BodyOk(cat, reg, RulesOf(c0, file.permissions[i].0), file.permissions[i].1);
    assert PermissionApplied(cat, c0, c1, file.permissions[i].0, file.permissions[i].1, lo);
    hide SamePermission, RolesAfter, FilePairs, Linked, EndpointsOk, FieldsOk, WantedEndpoints, WantedGrants, RuleOk,
      AtMostOne, Acceptable, Applied;
    StoredHere(cat, reg, c1, p, e, r);
    hide RPartition, IdentOf, CatalogueValid, StoredFor;
    GoalsExact(cat, body.rules, j);
    hide Goals;
    SettledPlaces(c0, c1, p, Goals(cat, body.rules), lo, r);
    hide Position, FirstNamed, RulesOf, RulesApplied;
    forall f, g | (r, f) in c1.conditions && (r, g) in c1.conditions && !Kept(c0, p, r, f) && !Kept(c0, p, r, g)
      && NamedBefore(cat, e.conditions, f, g)
      ensures c1.conditions[(r, f)].order < c1.conditions[(r, g)].order
    {
      FirstNamedInOrder(cat, e.conditions, f, g);
    }
  }

  lemma StoredHere(cat: Catalogue, reg: Reg, comp: Composition, p: string, e: RuleEntry, r: nat)
    requires CatalogueValid(cat) && RuleOk(cat, reg, e) && StoredFor(cat, comp, p, e, r)
    ensures r in RulesOf(comp, p) && IdentOfDoc(RulesOf(comp, p)[r]) == IdentOf(cat, e)
  {
    hide RPartition, EntryOk;
    assert OwnerIs(cat, comp.rules[r].owner, RPartition(e.key).objectKey);
    IdentIs(cat, e, comp.rules[r].owner);
    hide IdentOf;
  }

  /** The condition was there before, under a rule of the permission. */
  ghost predicate Kept(c0: Composition, p: string, r: nat, f: nat) {
    r in c0.rules && c0.rules[r].permission == p && (r, f) in c0.conditions
  }

  lemma SettledPlaces(c0: Composition, c1: Composition, p: string, goals: map<Ident, Goal>, lo: nat, r: nat)
    requires forall id | id in goals :: Sensible(goals[id])
    requires RulesApplied(RulesOf(c0, p), RulesOf(c1, p), goals, lo) && r in RulesOf(c1, p)
    ensures IdentOfDoc(RulesOf(c1, p)[r]) in goals
    ensures if r in c0.rules && c0.rules[r].permission == p then
        && c1.rules[r] == c0.rules[r]
        && forall f | (r, f) in c1.conditions && (r, f) in c0.conditions ::
             c1.conditions[(r, f)].order == c0.conditions[(r, f)].order
      else c1.rules[r].order == goals[IdentOfDoc(RulesOf(c1, p)[r])].index && r >= lo
    ensures forall f | (r, f) in c1.conditions && !Kept(c0, p, r, f) ::
      var named := goals[IdentOfDoc(RulesOf(c1, p)[r])].named;
      f in named && c1.conditions[(r, f)].order == Position(named, f)
  {
    forall f
      ensures f in ConditionsIn(c1, r) <==> (r, f) in c1.conditions
      ensures f in ConditionsIn(c0, r) <==> (r, f) in c0.conditions
      ensures f in ConditionsIn(c1, r) ==> ConditionsIn(c1, r)[f] == c1.conditions[(r, f)]
      ensures f in ConditionsIn(c0, r) ==> ConditionsIn(c0, r)[f] == c0.conditions[(r, f)]
    {
      InConditions(c1, r, f);
      InConditions(c0, r, f);
    }
    hide ConditionsIn, HasIdent, AtMostOne, Position;
  }

  /** The file names the first filter of the rule before it ever names the second. */
  ghost predicate NamedBefore(cat: Catalogue, entries: seq<ConditionEntry>, f: nat, g: nat) {
    exists j :: 0 <= j < |entries| && NamesFilter(cat, entries[j], f)
                && forall k | 0 <= k <= j :: !NamesFilter(cat, entries[k], g)
  }

  lemma PositionIs(s: seq<nat>, f: nat, i: nat)
    requires i < |s| && s[i] == f && forall a, b | 0 <= a < b < |s| :: s[a] != s[b]
    ensures Position(s, f) == i
  {
  }

  lemma PositionInLonger(s: seq<nat>, longer: seq<nat>, f: nat)
    requires s <= longer && f in s && forall a, b | 0 <= a < b < |longer| :: longer[a] != longer[b]
    ensures Position(longer, f) == Position(s, f) < |s|
  {
    PositionIs(longer, f, Position(s, f));
  }

  lemma NamedBeforeLast(cat: Catalogue, entries: seq<ConditionEntry>, f: nat, g: nat)
    requires |entries| > 0 && NamedBefore(cat, entries, f, g)
    requires exists k :: 0 <= k < |entries| && NamesFilter(cat, entries[k], g)
    ensures var init := entries[..|entries| - 1];
      && (exists j :: 0 <= j < |init| && NamesFilter(cat, init[j], f))
      && ((exists k :: 0 <= k < |init| && NamesFilter(cat, init[k], g)) ==> NamedBefore(cat, init, f, g))
  {
    hide NamesFilter;
    var init := entries[..|entries| - 1];
    var j :| 0 <= j < |entries| && NamesFilter(cat, entries[j], f)
      && forall k | 0 <= k <= j :: !NamesFilter(cat, entries[k], g);
    var k :| 0 <= k < |entries| && NamesFilter(cat, entries[k], g);
    assert j < k && init[j] == entries[j];
    assert forall k | 0 <= k <= j :: init[k] == entries[k];
  }

  lemma {:induction false} FirstNamedInOrder(cat: Catalogue, entries: seq<ConditionEntry>, f: nat, g: nat)
    requires f in FirstNamed(cat, entries) && g in FirstNamed(cat, entries) && NamedBefore(cat, entries, f, g)
    ensures Position(FirstNamed(cat, entries), f) < Position(FirstNamed(cat, entries), g)
  {
    var init, last := entries[..|entries| - 1], entries[|entries| - 1];
    var named, before := FirstNamed(cat, entries), FirstNamed(cat, init);
    hide NamesFilter, Position, Pk, NamedBefore;
    NamedSomewhere(cat, entries, g);
    NamedBeforeLast(cat, entries, f, g);
    NamedSomewhere(cat, init, f);
    NamedSomewhere(cat, init, g);
    assert before <= named && (g !in before ==> named == before + [g]);
    hide FirstNamed;
    PositionInLonger(before, named, f);
    if g in before {
      FirstNamedInOrder(cat, init, f, g);
      PositionInLonger(before, named, g);
    } else {
      PositionIs(named, g, |before|);
    }
  }

  lemma {:induction false} NamedSomewhere(cat: Catalogue, entries: seq<ConditionEntry>, f: nat)
    ensures f in FirstNamed(cat, entries) <==> exists j :: 0 <= j < |entries| && NamesFilter(cat, entries[j], f)
  {
    if entries != [] {
      var init, last := entries[..|entries| - 1], entries[|entries| - 1];
      NamedSomewhere(cat, init, f);
      assert forall k | 0 <= k < |init| :: init[k] == entries[k];
      assert entries[|init|] == last;
    }
  }

  // ----- roles

  lemma {:induction false} RolesHeld(roles: map<string, RoleRow>, entries: seq<(string, RoleBody)>, k: string)
    ensures k in RolesAfter(roles, entries) <==> k in roles || exists i :: 0 <= i < |entries| && entries[i].0 == k
    ensures k in NewRoles(roles, entries) <==> k !in roles && exists i :: 0 <= i < |entries| && entries[i].0 == k
  {
    if entries != [] {
      var init, last := entries[..|entries| - 1], entries[|entries| - 1];
      RolesHeld(roles, init, k);
      assert forall i | 0 <= i < |init| :: init[i] == entries[i];
      assert entries[|init|] == last;
    }
  }

  lemma {:induction false} RolesMade(roles: map<string, RoleRow>, entries: seq<(string, RoleBody)>, i: nat)
    requires Dictionary(entries) && i < |entries| && entries[i].0 !in roles
    ensures var (k, body) := entries[i];
      && k in RolesAfter(roles, entries)
      && RolesAfter(roles, entries)[k].title == (if body.title.Some? then body.title.value else k)
      && RolesAfter(roles, entries)[k].description == body.description
  {
    var init := entries[..|entries| - 1];
    RolesHeld(roles, init, entries[i].0);
    if i < |init| {
      assert init[i] == entries[i];
      RolesMade(roles, init, i);
    }
  }

  /** Afterwards there are the roles of before and those of the file; the new ones are reported and have the label
      the file gives them, their key if it gives none, and its description. */
  lemma RolesExactly(cat: Catalogue, c0: Composition, c1: Composition, file: File, lo: nat, r: Report, k: string)
    requires Applied(cat, c0, c1, file, lo) && Reports(cat, c0, c1, file, r) && Dictionary(file.roles)
    ensures k in c1.roles <==> k in c0.roles || exists i :: 0 <= i < |file.roles| && file.roles[i].0 == k
    ensures k in r.roles <==> k in c1.roles && k !in c0.roles
    ensures forall i | 0 <= i < |file.roles| && k == file.roles[i].0 && k !in c0.roles ::
      && c1.roles[k].title == (if file.roles[i].1.title.Some? then file.roles[i].1.title.value else k)
      && c1.roles[k].description == file.roles[i].1.description
  {
    hide SamePermission, PermissionApplied, RolesAfter, NewRoles, FilePairs, KeysWith, Linked;
    RolesHeld(c0.roles, file.roles, k);
    forall i | 0 <= i < |file.roles| && k == file.roles[i].0 && k !in c0.roles
      ensures c1.roles[k].title == if file.roles[i].1.title.Some? then file.roles[i].1.title.value else k
      ensures c1.roles[k].description == file.roles[i].1.description
    {
      RolesMade(c0.roles, file.roles, i);
    }
  }
}
