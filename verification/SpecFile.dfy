/** A permission file, when it can be applied, and what applying it must leave behind. */
module SpecFile {
  import opened Outcomes
  import opened Keys
  import opened Values
  import opened Base
  import opened Registry
  import opened Upserting
  import opened Tables
  import opened Views

  datatype ConditionEntry = ConditionEntry(filter: string, params: Params)
  datatype RuleEntry = RuleEntry(key: string, title: string, conditions: seq<ConditionEntry>)
  /** A field grant; an empty verb stands for one that was not given. */
  datatype FieldEntry = FieldEntry(group: string, verb: string, values: AllowedValues)
  datatype PermissionBody = PermissionBody(
    name: Option<string>,
    description: string,
    endpoints: seq<string>,
    rules: seq<RuleEntry>,
    fields: seq<FieldEntry>)
  datatype RoleBody = RoleBody(title: Option<string>, description: string, permissions: seq<string>)

  /** Two dictionaries, listed in their own order. */
  datatype File = File(permissions: seq<(string, PermissionBody)>, roles: seq<(string, RoleBody)>)

  ghost predicate Dictionary<V>(entries: seq<(string, V)>) {
    forall i, j | 0 <= i < j < |entries| :: entries[i].0 != entries[j].0
  }

  // ----- references into the catalogue

  ghost predicate LiveAt<V, N>(t: Table<V>, natural: V -> N, n: N) {
    Holds(t, natural, n) && t[PkOf(t, natural, n)].live
  }

  ghost function Pk<V, N>(t: Table<V>, natural: V -> N, n: N): nat {
    if Holds(t, natural, n) then PkOf(t, natural, n) else 0
  }

  predicate SplitOk(key: string) {
    var h := RPartition(key);
    h.sep && h.objectKey != "" && h.verb != ""
  }

  // ----- rules

  /** What tells one rule of a permission from another. */
  type Ident = (nat, string, string)

  function IdentOfDoc(d: RuleDoc): Ident {
    (d.owner, d.verb, d.title)
  }

  ghost function IdentOf(cat: Catalogue, e: RuleEntry): Ident {
    (Pk(cat.objects, ObjectNatural, RPartition(e.key).objectKey), RPartition(e.key).verb, e.title)
  }

  /** Conditions are keyed by filter, so of a repeated filter the last params count. */
  ghost function WantedParams(cat: Catalogue, entries: seq<ConditionEntry>): map<nat, Params> {
    if entries == [] then map[]
    else
      var last := entries[|entries| - 1];
      WantedParams(cat, entries[..|entries| - 1])[Pk(cat.filters, FilterNatural, last.filter) := last.params]
  }

  /** The filters of a rule in the order they are first named. */
  ghost function FirstNamed(cat: Catalogue, entries: seq<ConditionEntry>): (r: seq<nat>)
    ensures forall f :: f in r <==> f in WantedParams(cat, entries)
    ensures forall i, j | 0 <= i < j < |r| :: r[i] != r[j]
  {
    if entries == [] then []
    else
      var init := FirstNamed(cat, entries[..|entries| - 1]);
      var f := Pk(cat.filters, FilterNatural, entries[|entries| - 1].filter);
      if f in init then init else init + [f]
  }

  ghost function Position(s: seq<nat>, f: nat): (i: nat)
    requires f in s
    ensures i < |s| && s[i] == f
  {
    var i :| 0 <= i < |s| && s[i] == f;
    i
  }

  /** What the file asks of one rule: its place in the file and its conditions. */
  datatype Goal = Goal(index: nat, wanted: map<nat, Params>, named: seq<nat>)

  ghost predicate Sensible(g: Goal) {
    && (forall f :: f in g.named <==> f in g.wanted)
    && (forall i, j | 0 <= i < j < |g.named| :: g.named[i] != g.named[j])
  }

  ghost function GoalOf(cat: Catalogue, index: nat, e: RuleEntry): (g: Goal)
    ensures Sensible(g)
  {
    Goal(index, WantedParams(cat, e.conditions), FirstNamed(cat, e.conditions))
  }

  ghost function Goals(cat: Catalogue, rules: seq<RuleEntry>): (gs: map<Ident, Goal>)
    ensures forall id | id in gs :: Sensible(gs[id])
  {
    if rules == [] then map[]
    else
      var last := rules[|rules| - 1];
      Goals(cat, rules[..|rules| - 1])[IdentOf(cat, last) := GoalOf(cat, |rules| - 1, last)]
  }

  /** Wanted conditions with the file's params.  A condition that was there keeps its order; a new one takes
      the place of its filter in the file. */
  ghost function ConditionsAfter(existing: map<nat, ConditionRow>, g: Goal): map<nat, ConditionRow>
    requires Sensible(g)
  {
    map f | f in g.wanted ::
      ConditionRow(g.wanted[f], if f in existing then existing[f].order else Position(g.named, f))
  }

  /** The rule afterwards, given what there was of it; the order of a rule is set on creation only. */
  ghost function Settled(id: Ident, g: Goal, was: Option<RuleDoc>): RuleDoc
    requires Sensible(g)
  {
    match was
    case Some(d) => RuleDoc(id.0, id.1, id.2, d.order, ConditionsAfter(d.conditions, g))
    case None => RuleDoc(id.0, id.1, id.2, g.index, ConditionsAfter(map[], g))
  }

  ghost predicate HasIdent(d: map<nat, RuleDoc>, id: Ident) {
    exists r :: r in d && IdentOfDoc(d[r]) == id
  }

  ghost predicate AtMostOne(d: map<nat, RuleDoc>, id: Ident) {
    forall r, s | r in d && s in d && IdentOfDoc(d[r]) == id && IdentOfDoc(d[s]) == id :: r == s
  }

  ghost function Was(d: map<nat, RuleDoc>, r: nat): Option<RuleDoc> {
    if r in d then Some(d[r]) else None
  }

  /** The rules of a permission, before and after: exactly one rule for each the file names, settled; rules it
      does not name are gone; a surviving rule is the same row and a new one takes an unused primary key. */
  ghost predicate RulesApplied(d0: map<nat, RuleDoc>, d1: map<nat, RuleDoc>, goals: map<Ident, Goal>, lo: nat)
    requires forall id | id in goals :: Sensible(goals[id])
  {
    && (forall r | r in d1 :: && IdentOfDoc(d1[r]) in goals
          && d1[r] == Settled(IdentOfDoc(d1[r]), goals[IdentOfDoc(d1[r])], Was(d0, r))
          && (r in d0 ==> IdentOfDoc(d0[r]) == IdentOfDoc(d1[r]))
          && (r !in d0 ==> r >= lo))
    && (forall r | r in d0 && IdentOfDoc(d0[r]) in goals :: r in d1)
    && (forall id {:trigger HasIdent(d1, id)} | id in goals :: HasIdent(d1, id))
    && (forall id {:trigger AtMostOne(d1, id)} | id in goals :: AtMostOne(d1, id))
  }

  /** The rules are already what the file says. */
  ghost predicate RulesMatch(d: map<nat, RuleDoc>, goals: map<Ident, Goal>)
    requires forall id | id in goals :: Sensible(goals[id])
  {
    && (forall r | r in d ::
          IdentOfDoc(d[r]) in goals && d[r] == Settled(IdentOfDoc(d[r]), goals[IdentOfDoc(d[r])], Some(d[r])))
    && (forall id {:trigger HasIdent(d, id)} | id in goals :: HasIdent(d, id))
  }

  lemma SettledAgain(id: Ident, g: Goal, was: Option<RuleDoc>)
    requires Sensible(g)
    ensures Settled(id, g, Some(Settled(id, g, was))) == Settled(id, g, was)
  {
    var existing := if was.Some? then was.value.conditions else map[];
    assert ConditionsAfter(ConditionsAfter(existing, g), g) == ConditionsAfter(existing, g);
  }

  /** An applied file matches. */
  lemma AppliedMatches(d0: map<nat, RuleDoc>, d1: map<nat, RuleDoc>, goals: map<Ident, Goal>, lo: nat)
    requires forall id | id in goals :: Sensible(goals[id])
    requires RulesApplied(d0, d1, goals, lo)
    ensures RulesMatch(d1, goals)
  {
    forall r | r in d1
      ensures d1[r] == Settled(IdentOfDoc(d1[r]), goals[IdentOfDoc(d1[r])], Some(d1[r]))
    {
      SettledAgain(IdentOfDoc(d1[r]), goals[IdentOfDoc(d1[r])], Was(d0, r));
    }
  }

  /** Applying what already matches changes nothing. */
  lemma MatchingStays(d0: map<nat, RuleDoc>, d1: map<nat, RuleDoc>, goals: map<Ident, Goal>, lo: nat)
    requires forall id | id in goals :: Sensible(goals[id])
    requires RulesMatch(d0, goals) && RulesApplied(d0, d1, goals, lo)
    ensures d1 == d0
  {
    forall r | r in d1
      ensures r in d0 && d1[r] == d0[r]
    {
      var id := IdentOfDoc(d1[r]);
      assert HasIdent(d0, id);
      var s :| s in d0 && IdentOfDoc(d0[s]) == id;
      assert s in d1 && IdentOfDoc(d1[s]) == id;
      assert AtMostOne(d1, id);
    }
  }

  // ----- endpoints and field grants

  ghost function WantedEndpoints(cat: Catalogue, keys: seq<string>): set<nat> {
    set k | k in keys :: Pk(cat.endpoints, EndpointNatural, k)
  }

  ghost function FieldIdent(cat: Catalogue, e: FieldEntry): (nat, string) {
    var h := RPartition(e.group);
    (Pk(cat.groups, GroupNatural, (Pk(cat.objects, ObjectNatural, h.objectKey), h.verb)), e.verb)
  }

  /** Of a repeated (group, endpoint) pair the last values count. */
  ghost function WantedGrants(cat: Catalogue, fields: seq<FieldEntry>): map<(nat, string), AllowedValues> {
    if fields == [] then map[]
    else
      var last := fields[|fields| - 1];
      WantedGrants(cat, fields[..|fields| - 1])[FieldIdent(cat, last) := last.values]
  }

  lemma {:induction false} WantedGrantsKeys(cat: Catalogue, fields: seq<FieldEntry>)
    ensures forall x :: x in WantedGrants(cat, fields) <==> exists e :: e in fields && FieldIdent(cat, e) == x
    ensures forall x | x in WantedGrants(cat, fields) ::
      exists e :: e in fields && FieldIdent(cat, e) == x && WantedGrants(cat, fields)[x] == e.values
  {
    if fields != [] {
      var init, last := fields[..|fields| - 1], fields[|fields| - 1];
      WantedGrantsKeys(cat, init);
      assert forall e :: e in fields <==> e in init || e == last;
      forall x | x in WantedGrants(cat, fields)
        ensures exists e :: e in fields && FieldIdent(cat, e) == x && WantedGrants(cat, fields)[x] == e.values
      {
        if x == FieldIdent(cat, last) {
          assert last in fields;
        } else {
          assert x in WantedGrants(cat, init) && WantedGrants(cat, init)[x] == WantedGrants(cat, fields)[x];
          var e :| e in init && FieldIdent(cat, e) == x && WantedGrants(cat, init)[x] == e.values;
          assert e in fields;
        }
      }
    }
  }

  /** An entry that asks for what is not there, or a grant no entry asks for. */
  ghost predicate GrantsTouched(cat: Catalogue, was: map<(nat, string), AllowedValues>, fields: seq<FieldEntry>) {
    || (exists e :: e in fields && !(FieldIdent(cat, e) in was && was[FieldIdent(cat, e)] == e.values))
    || (exists x :: x in was && x !in WantedGrants(cat, fields))
  }

  /** The file contradicts itself about one (group, endpoint) pair. */
  ghost predicate Contradicts(cat: Catalogue, fields: seq<FieldEntry>) {
    exists d, e :: d in fields && e in fields && FieldIdent(cat, d) == FieldIdent(cat, e) && d.values != e.values
  }

  /** Once the grants are the file's, an entry is still reported as a change exactly when the file
      contradicts itself. */
  lemma TouchedForever(cat: Catalogue, fields: seq<FieldEntry>)
    ensures GrantsTouched(cat, WantedGrants(cat, fields), fields) <==> Contradicts(cat, fields)
  {
    WantedGrantsKeys(cat, fields);
    var w := WantedGrants(cat, fields);
    if GrantsTouched(cat, w, fields) {
      var e :| e in fields && !(FieldIdent(cat, e) in w && w[FieldIdent(cat, e)] == e.values);
      var d :| d in fields && FieldIdent(cat, d) == FieldIdent(cat, e) && w[FieldIdent(cat, e)] == d.values;
      assert Contradicts(cat, fields);
    }
    if Contradicts(cat, fields) {
      var d, e :| d in fields && e in fields && FieldIdent(cat, d) == FieldIdent(cat, e) && d.values != e.values;
      assert w[FieldIdent(cat, d)] != d.values || w[FieldIdent(cat, e)] != e.values;
    }
  }

  // ----- what can be applied

  ghost predicate EntryOk(cat: Catalogue, reg: Reg, owner: nat, e: ConditionEntry) {
    && LiveAt(cat.filters, FilterNatural, e.filter)
    && cat.filters[PkOf(cat.filters, FilterNatural, e.filter)].cols.owner == owner
    && (e.filter in reg.conditions ==> Bindable(reg.conditions[e.filter], e.params))
  }

  ghost predicate RuleOk(cat: Catalogue, reg: Reg, e: RuleEntry) {
    && SplitOk(e.key)
    && LiveAt(cat.objects, ObjectNatural, RPartition(e.key).objectKey)
    && forall c | c in e.conditions :: EntryOk(cat, reg, IdentOf(cat, e).0, c)
  }

  /** Rules are declared, differ from one another, and none is stored twice. */
  ghost predicate RulesOk(cat: Catalogue, reg: Reg, was: map<nat, RuleDoc>, rules: seq<RuleEntry>) {
    && (forall i | 0 <= i < |rules| :: RuleOk(cat, reg, rules[i]) && AtMostOne(was, IdentOf(cat, rules[i])))
    && (forall i, j | 0 <= i < j < |rules| :: IdentOf(cat, rules[i]) != IdentOf(cat, rules[j]))
  }

  ghost predicate FieldOk(cat: Catalogue, e: FieldEntry) {
    var h := RPartition(e.group);
    && SplitOk(e.group) && e.verb != ""
    && Holds(cat.objects, ObjectNatural, h.objectKey)
    && LiveAt(cat.groups, GroupNatural, (PkOf(cat.objects, ObjectNatural, h.objectKey), h.verb))
  }

  ghost predicate EndpointsOk(cat: Catalogue, keys: seq<string>) {
    forall k | k in keys :: LiveAt(cat.endpoints, EndpointNatural, k)
  }

  ghost predicate FieldsOk(cat: Catalogue, fields: seq<FieldEntry>) {
    forall e | e in fields :: FieldOk(cat, e)
  }

  ghost predicate BodyOk(cat: Catalogue, reg: Reg, was: map<nat, RuleDoc>, body: PermissionBody) {
    EndpointsOk(cat, body.endpoints) && RulesOk(cat, reg, was, body.rules) && FieldsOk(cat, body.fields)
  }

  ghost predicate NamedIn(entries: seq<(string, PermissionBody)>, p: string) {
    exists i :: 0 <= i < |entries| && entries[i].0 == p
  }

  ghost predicate Names(file: File, p: string) {
    NamedIn(file.permissions, p)
  }

  /** A file is accepted exactly when it says something, every permission in it can be built from live
      declarations, and every permission it binds to a role exists or is in the file. */
  ghost predicate Acceptable(cat: Catalogue, reg: Reg, comp: Composition, file: File) {
    && (file.permissions != [] || file.roles != [])
    && (forall i | 0 <= i < |file.permissions| ::
          BodyOk(cat, reg, RulesOf(comp, file.permissions[i].0), file.permissions[i].1))
    && (forall i | 0 <= i < |file.roles| ::
      forall p | p in file.roles[i].1.permissions :: p in comp.permissions || Names(file, p))
  }

  // ----- what an applied file leaves

  function RowOf(key: string, body: PermissionBody): PermissionRow {
    PermissionRow(body.name.GetOr(key), body.description)
  }

  /** A permission the file names is made to match it. */
  ghost predicate PermissionApplied(cat: Catalogue, c0: Composition, c1: Composition, p: string, body: PermissionBody,
                                    lo: nat) {
    && p in c1.permissions && c1.permissions[p] == RowOf(p, body)
    && EndpointsOf(c1, p) == WantedEndpoints(cat, body.endpoints)
    && RulesApplied(RulesOf(c0, p), RulesOf(c1, p), Goals(cat, body.rules), lo)
    && GrantsOf(c1, p) == WantedGrants(cat, body.fields)
  }

  /** Something about a permission the file names differs from the file. */
  ghost predicate Touched(cat: Catalogue, c0: Composition, p: string, body: PermissionBody) {
    || p !in c0.permissions || c0.permissions[p] != RowOf(p, body)
    || EndpointsOf(c0, p) != WantedEndpoints(cat, body.endpoints)
    || !RulesMatch(RulesOf(c0, p), Goals(cat, body.rules))
    || GrantsTouched(cat, GrantsOf(c0, p), body.fields)
  }

  datatype Outcome = Composed | Amended | Alike

  ghost function OutcomeOf(cat: Catalogue, c0: Composition, p: string, body: PermissionBody): Outcome {
    if p !in c0.permissions then Composed else if Touched(cat, c0, p, body) then Amended else Alike
  }

  /** The permissions of the file with a given outcome, in file order. */
  ghost function KeysWith(cat: Catalogue, c0: Composition, entries: seq<(string, PermissionBody)>, o: Outcome)
    : seq<string> {
    if entries == [] then []
    else
      var last := entries[|entries| - 1];
      KeysWith(cat, c0, entries[..|entries| - 1], o) + if OutcomeOf(cat, c0, last.0, last.1) == o then [last.0] else []
  }

  datatype Report = Report(created: seq<string>, updated: seq<string>, kept: seq<string>, roles: seq<string>,
    bindings: nat) {
    predicate Changed() {
      created != [] || updated != [] || roles != [] || bindings > 0
    }
  }

  // ----- roles: only ever added to

  ghost function RolesAfter(roles: map<string, RoleRow>, entries: seq<(string, RoleBody)>): map<string, RoleRow> {
    if entries == [] then roles
    else
      var init, last := RolesAfter(roles, entries[..|entries| - 1]), entries[|entries| - 1];
      if last.0 in init then init else init[last.0 := RoleRow(last.1.title.GetOr(last.0), last.1.description)]
  }

  ghost function NewRoles(roles: map<string, RoleRow>, entries: seq<(string, RoleBody)>): seq<string> {
    if entries == [] then []
    else
      var init, last := entries[..|entries| - 1], entries[|entries| - 1];
      NewRoles(roles, init) + if last.0 in RolesAfter(roles, init) then [] else [last.0]
  }

  function PairsOf(role: string, permissions: seq<string>): set<(string, string)> {
    set p | p in permissions :: (role, p)
  }

  ghost function FilePairs(entries: seq<(string, RoleBody)>): set<(string, string)> {
    if entries == [] then {}
    else FilePairs(entries[..|entries| - 1]) + PairsOf(entries[|entries| - 1].0, entries[|entries| - 1].1.permissions)
  }

  /** The whole file applied: every permission it names is made to match, every other keeps all its parts,
      and roles and bindings only gain what the file adds. */
  ghost predicate Applied(cat: Catalogue, c0: Composition, c1: Composition, file: File, lo: nat) {
    && Linked(c1)
    && (forall i | 0 <= i < |file.permissions| ::
          PermissionApplied(cat, c0, c1, file.permissions[i].0, file.permissions[i].1, lo))
    && (forall q | !Names(file, q) :: SamePermission(c0, c1, q))
    && c1.roles == RolesAfter(c0.roles, file.roles)
    && c1.bindings == c0.bindings + FilePairs(file.roles)
  }

  ghost predicate Reports(cat: Catalogue, c0: Composition, c1: Composition, file: File, r: Report) {
    && r.created == KeysWith(cat, c0, file.permissions, Composed)
    && r.updated == KeysWith(cat, c0, file.permissions, Amended)
    && r.kept == KeysWith(cat, c0, file.permissions, Alike)
    && r.roles == NewRoles(c0.roles, file.roles)
    && r.bindings == |c1.bindings - c0.bindings|
  }
}
