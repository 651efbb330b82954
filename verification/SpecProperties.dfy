/** What a maintainer may rely on after `apply_spec`. */
module SpecProperties {
  import opened Outcomes
  import opened Keys
  import opened Values
  import opened Registry
  import opened Upserting
  import opened Tables
  import opened Views
  import opened SpecFile
  import opened Spec
  import opened SpecApply
  import opened SpecRun

  // ----- a file applied twice

  /** A permission is exactly what its body says, and each of its rules is stored once. */
  ghost predicate PermissionMatches(cat: Catalogue, c: Composition, p: string, body: PermissionBody) {
    && p in c.permissions && c.permissions[p] == RowOf(p, body)
    && EndpointsOf(c, p) == WantedEndpoints(cat, body.endpoints)
    && RulesMatch(RulesOf(c, p), Goals(cat, body.rules))
    && (forall id {:trigger AtMostOne(RulesOf(c, p), id)} | id in Goals(cat, body.rules) ::
      AtMostOne(RulesOf(c, p), id))
    && GrantsOf(c, p) == WantedGrants(cat, body.fields)
  }

  lemma AppliedPermissionMatches(cat: Catalogue, c0: Composition, c1: Composition, p: string, body: PermissionBody,
                                 lo: nat)
    requires PermissionApplied(cat, c0, c1, p, body, lo)
    ensures PermissionMatches(cat, c1, p, body)
  {
    hide RulesOf, EndpointsOf, GrantsOf, Goals, WantedEndpoints, WantedGrants, RulesMatch;
    AppliedMatches(RulesOf(c0, p), RulesOf(c1, p), Goals(cat, body.rules), lo);
  }

  lemma MatchingBodyOk(cat: Catalogue, reg: Reg, was: map<nat, RuleDoc>, c: Composition, p: string,
                       body: PermissionBody)
    requires BodyOk(cat, reg, was, body) && PermissionMatches(cat, c, p, body)
    ensures BodyOk(cat, reg, RulesOf(c, p), body)
  {
    hide RulesOf, EndpointsOf, GrantsOf, RulesMatch, AtMostOne, RuleOk, FieldsOk, EndpointsOk, WantedEndpoints,
      WantedGrants;
    forall i | 0 <= i < |body.rules|
      ensures AtMostOne(RulesOf(c, p), IdentOf(cat, body.rules[i]))
    {
      GoalsNamed(cat, body.rules, IdentOf(cat, body.rules[i]));
    }
  }

  lemma MatchingStaysSame(cat: Catalogue, c1: Composition, c2: Composition, p: string, body: PermissionBody, lo: nat)
    requires PermissionMatches(cat, c1, p, body) && PermissionApplied(cat, c1, c2, p, body, lo)
    ensures SamePermission(c1, c2, p)
  {
    hide RulesOf, EndpointsOf, GrantsOf, Goals, WantedEndpoints, WantedGrants, RulesMatch, RulesApplied;
    MatchingStays(RulesOf(c1, p), RulesOf(c2, p), Goals(cat, body.rules), lo);
  }

  /** A matching permission is reported as a change exactly when its body contradicts itself. */
  lemma MatchingTouched(cat: Catalogue, c: Composition, p: string, body: PermissionBody)
    requires PermissionMatches(cat, c, p, body)
    ensures OutcomeOf(cat, c, p, body) == if Contradicts(cat, body.fields) then Amended else Alike
  {
    hide RulesOf, EndpointsOf, GrantsOf, Goals, WantedEndpoints, WantedGrants, RulesMatch, GrantsTouched, Contradicts;
    TouchedForever(cat, body.fields);
  }

  ghost predicate AllMatch(cat: Catalogue, c: Composition, entries: seq<(string, PermissionBody)>) {
    forall i | 0 <= i < |entries| :: PermissionMatches(cat, c, entries[i].0, entries[i].1)
  }

  /** After a run every permission the file names is exactly what the file says. */
  lemma SpecConverges(cat: Catalogue, c0: Composition, c1: Composition, file: File, lo: nat)
    requires Applied(cat, c0, c1, file, lo)
    ensures AllMatch(cat, c1, file.permissions)
  {
    hide PermissionApplied, PermissionMatches, SamePermission, Linked;
    forall i | 0 <= i < |file.permissions|
      ensures PermissionMatches(cat, c1, file.permissions[i].0, file.permissions[i].1)
    {
      AppliedPermissionMatches(cat, c0, c1, file.permissions[i].0, file.permissions[i].1, lo);
    }
  }

  lemma {:induction false} RolesSettled(roles: map<string, RoleRow>, entries: seq<(string, RoleBody)>)
    ensures roles.Keys <= RolesAfter(roles, entries).Keys
    ensures forall k | k in roles :: RolesAfter(roles, entries)[k] == roles[k]
    ensures forall i | 0 <= i < |entries| :: entries[i].0 in RolesAfter(roles, entries)
  {
    if entries != [] {
      var init := entries[..|entries| - 1];
      RolesSettled(roles, init);
      assert forall i | 0 <= i < |init| :: init[i] == entries[i];
    }
  }

  lemma {:induction false} NoNewRoles(roles: map<string, RoleRow>, entries: seq<(string, RoleBody)>)
    requires forall i | 0 <= i < |entries| :: entries[i].0 in roles
    ensures RolesAfter(roles, entries) == roles && NewRoles(roles, entries) == []
  {
    if entries != [] {
      var init := entries[..|entries| - 1];
      assert forall i | 0 <= i < |init| :: init[i] == entries[i];
      NoNewRoles(roles, init);
    }
  }

  /** The permissions of the file that contradict themselves, in file order, or those that do not. */
  ghost function Contradicting(cat: Catalogue, entries: seq<(string, PermissionBody)>, really: bool): seq<string> {
    if entries == [] then []
    else
      var last := entries[|entries| - 1];
      Contradicting(cat, entries[..|entries| - 1], really) + if Contradicts(cat,
        last.1.fields) == really then [last.0] else []
  }

  lemma {:induction false} MatchingOutcomes(cat: Catalogue, c: Composition, entries: seq<(string, PermissionBody)>)
    requires AllMatch(cat, c, entries)
    ensures KeysWith(cat, c, entries, Composed) == []
    ensures KeysWith(cat, c, entries, Amended) == Contradicting(cat, entries, true)
    ensures KeysWith(cat, c, entries, Alike) == Contradicting(cat, entries, false)
  {
    if entries != [] {
      hide PermissionMatches, Contradicts, OutcomeOf;
      var init, last := entries[..|entries| - 1], entries[|entries| - 1];
      assert forall i | 0 <= i < |init| :: init[i] == entries[i];
      MatchingOutcomes(cat, c, init);
      assert PermissionMatches(cat, c, entries[|entries| - 1].0, entries[|entries| - 1].1);
      MatchingTouched(cat, c, last.0, last.1);
    }
  }

  lemma {:induction false} NoneContradicting(cat: Catalogue, entries: seq<(string, PermissionBody)>)
    ensures Contradicting(cat, entries, true) == []
      <==> forall i | 0 <= i < |entries| :: !Contradicts(cat, entries[i].1.fields)
  {
    if entries != [] {
      hide Contradicts;
      var init := entries[..|entries| - 1];
      NoneContradicting(cat, init);
      assert forall i | 0 <= i < |init| :: init[i] == entries[i];
    }
  }

  /** A second run is accepted, for the rules of the first left nothing stored twice. */
  lemma StillAcceptable(cat: Catalogue, reg: Reg, c0: Composition, c1: Composition, file: File, lo: nat)
    requires Acceptable(cat, reg, c0, file) && Applied(cat, c0, c1, file, lo)
    ensures Acceptable(cat, reg, c1, file)
  {
    SpecConverges(cat, c0, c1, file, lo);
    hide PermissionApplied, PermissionMatches, SamePermission, Linked, BodyOk;
    forall i | 0 <= i < |file.permissions|
      ensures BodyOk(cat, reg, RulesOf(c1, file.permissions[i].0), file.permissions[i].1)
    {
      MatchingBodyOk(cat, reg, RulesOf(c0, file.permissions[i].0), c1, file.permissions[i].0, file.permissions[i].1);
    }
    forall p | p in c0.permissions || Names(file, p)
      ensures p in c1.permissions
    {
      if Names(file, p) {
        var i :| 0 <= i < |file.permissions| && file.permissions[i].0 == p;
        NamedIsThere(cat, c1, p, file.permissions[i].1);
      } else {
        SamePermissionFacts(c0, c1, p);
      }
    }
  }

  lemma NamedIsThere(cat: Catalogue, c: Composition, p: string, body: PermissionBody)
    requires PermissionMatches(cat, c, p, body)
    ensures p in c.permissions
  {
  }

  lemma SecondRunSame(cat: Catalogue, c1: Composition, c2: Composition, file: File, lo: nat)
    requires AllMatch(cat, c1, file.permissions) && Applied(cat, c1, c2, file, lo) && Linked(c1)
    requires RolesAfter(c1.roles, file.roles) == c1.roles && FilePairs(file.roles) <= c1.bindings
    ensures c2 == c1
  {
    hide PermissionApplied, PermissionMatches, SamePermission, Linked, RolesAfter, FilePairs;
    forall p
      ensures SamePermission(c1, c2, p)
    {
      if i :| 0 <= i < |file.permissions| && file.permissions[i].0 == p {
        MatchingStaysSame(cat, c1, c2, p, file.permissions[i].1, lo);
      } else {
        assert !Names(file, p);
      }
    }
    assert c2.bindings == c1.bindings;
    ViewsDetermineTables(c1, c2);
  }

  /** Applying the same file again is accepted and leaves the tables identical.  Nothing is created, bound or
      added, and what is reported as updated is exactly the permissions that contradict themselves, every time. */
  lemma SecondRun(cat: Catalogue, reg: Reg, c0: Composition, c1: Composition, c2: Composition, file: File, lo: nat,
                  lo': nat, first: Report, second: Report)
    requires Acceptable(cat, reg, c0, file)
    requires Ran(cat, c0, c1, file, lo, first) && Ran(cat, c1, c2, file, lo', second)
    ensures Acceptable(cat, reg, c1, file)
    ensures c2 == c1
    ensures second == Report([], Contradicting(cat, file.permissions, true),
      Contradicting(cat, file.permissions, false), [], 0)
    ensures second.Changed() <==>
      exists i :: 0 <= i < |file.permissions| && Contradicts(cat, file.permissions[i].1.fields)
  {
    hide PermissionApplied, PermissionMatches, SamePermission, Linked, Acceptable, Contradicts, KeysWith, RolesAfter,
      NewRoles,
      FilePairs, AllMatch;
    StillAcceptable(cat, reg, c0, c1, file, lo);
    SpecConverges(cat, c0, c1, file, lo);
    RolesSettled(c0.roles, file.roles);
    NoNewRoles(c1.roles, file.roles);
    SecondRunSame(cat, c1, c2, file, lo');
    MatchingOutcomes(cat, c1, file.permissions);
    NoneContradicting(cat, file.permissions);
    assert c2.bindings - c1.bindings == {};
  }

  // ----- reports and frames

  /** The report depends on the tables before and the file alone, so a dry run and the run it stands for give
      the same one. */
  lemma SameReport(cat: Catalogue, c0: Composition, a: Composition, b: Composition, file: File, la: nat, lb: nat,
                   ra: Report, rb: Report)
    requires Ran(cat, c0, a, file, la, ra) && Ran(cat, c0, b, file, lb, rb)
    ensures ra == rb
  {
    hide PermissionApplied, SamePermission, Linked, KeysWith, RolesAfter, NewRoles, FilePairs;
    assert a.bindings == b.bindings;
  }

  lemma {:induction false} PairsNamed(entries: seq<(string, RoleBody)>, role: string, p: string)
    ensures (role, p) in FilePairs(entries) <==>
      exists i :: 0 <= i < |entries| && entries[i].0 == role && p in entries[i].1.permissions
  {
    if entries != [] {
      var init, last := entries[..|entries| - 1], entries[|entries| - 1];
      PairsNamed(init, role, p);
      assert forall i | 0 <= i < |init| :: init[i] == entries[i];
      assert (role, p) in PairsOf(last.0, last.1.permissions) <==> last.0 == role && p in last.1.permissions;
      if i :| 0 <= i < |entries| && entries[i].0 == role && p in entries[i].1.permissions {
        if i < |init| {
          assert init[i].0 == role;
        }
      }
    }
  }

  /** The file lists the permission for the role. */
  ghost predicate Binds(file: File, role: string, p: string) {
    exists i :: 0 <= i < |file.roles| && file.roles[i].0 == role && p in file.roles[i].1.permissions
  }

  /** Bindings afterwards are those before and the pairs the file lists, nothing else; no role row is changed
      or lost and every role of the file is there. */
  lemma BindingsOnlyAdded(cat: Catalogue, c0: Composition, c1: Composition, file: File, lo: nat)
    requires Applied(cat, c0, c1, file, lo)
    ensures c0.bindings <= c1.bindings
    ensures forall role, p :: (role, p) in c1.bindings <==> (role, p) in c0.bindings || Binds(file, role, p)
    ensures forall k | k in c0.roles :: k in c1.roles && c1.roles[k] == c0.roles[k]
    ensures forall i | 0 <= i < |file.roles| :: file.roles[i].0 in c1.roles
  {
    hide PermissionApplied, SamePermission, Linked, RolesAfter, FilePairs;
    RolesSettled(c0.roles, file.roles);
    forall role, p
      ensures (role, p) in c1.bindings <==> (role, p) in c0.bindings || Binds(file, role, p)
    {
      PairsNamed(file.roles, role, p);
    }
  }

  // ----- what the rules of the file became

  /** A rule of the file owns its goal. */
  lemma {:induction false} GoalsExact(cat: Catalogue, rules: seq<RuleEntry>, i: nat)
    requires i < |rules|
    requires forall j, k | 0 <= j < k < |rules| :: IdentOf(cat, rules[j]) != IdentOf(cat, rules[k])
    ensures IdentOf(cat, rules[i]) in Goals(cat, rules)
    ensures Goals(cat, rules)[IdentOf(cat, rules[i])] == GoalOf(cat, i, rules[i])
  {
    if i < |rules| - 1 {
      var init := rules[..|rules| - 1];
      assert init[i] == rules[i];
      GoalsExact(cat, init, i);
    }
  }

  ghost predicate NamesFilter(cat: Catalogue, e: ConditionEntry, f: nat) {
    Pk(cat.filters, FilterNatural, e.filter) == f
  }

  /** The last of the entries naming a filter. */
  ghost predicate LastNaming(cat: Catalogue, entries: seq<ConditionEntry>, f: nat, j: nat) {
    && j < |entries| && NamesFilter(cat, entries[j], f)
    && forall k | j < k < |entries| :: !NamesFilter(cat, entries[k], f)
  }

  /** The conditions wanted of a rule are the filters its entries name, each with the params of the last entry
      that names it. */
  lemma {:induction false} WantedExact(cat: Catalogue, entries: seq<ConditionEntry>, f: nat)
    ensures f in WantedParams(cat, entries) <==> exists j: nat :: LastNaming(cat, entries, f, j)
    ensures forall j: nat | LastNaming(cat, entries, f, j) ::
      f in WantedParams(cat, entries) && WantedParams(cat, entries)[f] == entries[j].params
  {
    if entries != [] {
      var init, last := entries[..|entries| - 1], entries[|entries| - 1];
      WantedExact(cat, init, f);
      if NamesFilter(cat, last, f) {
        assert LastNaming(cat, entries, f, |entries| - 1);
      } else {
        forall j: nat
          ensures LastNaming(cat, entries, f, j) <==> LastNaming(cat, init, f, j)
        {
          assert j < |init| ==> init[j] == entries[j];
          assert forall k | 0 <= k < |init| :: init[k] == entries[k];
        }
      }
    }
  }

  /** The one stored rule of an entry of the file: its columns, and one condition for each filter it names. */
  ghost predicate Stores(cat: Catalogue, d: RuleDoc, e: RuleEntry) {
    && IdentOfDoc(d) == IdentOf(cat, e)
    && d.conditions.Keys == WantedParams(cat, e.conditions).Keys
    && forall f | f in d.conditions :: d.conditions[f].params == WantedParams(cat, e.conditions)[f]
  }

  ghost predicate StoredIn(cat: Catalogue, d: map<nat, RuleDoc>, e: RuleEntry) {
    exists r :: r in d && Stores(cat, d[r], e)
  }

  /** Rules of the file and rules in the tables correspond one to one. */
  lemma RulesCorrespond(cat: Catalogue, c: Composition, p: string, body: PermissionBody)
    requires PermissionMatches(cat, c, p, body)
    requires forall j, k | 0 <= j < k < |body.rules| :: IdentOf(cat, body.rules[j]) != IdentOf(cat, body.rules[k])
    ensures forall i | 0 <= i < |body.rules| :: StoredIn(cat, RulesOf(c, p), body.rules[i])
    ensures forall r | r in RulesOf(c, p) ::
      exists i :: 0 <= i < |body.rules| && Stores(cat, RulesOf(c, p)[r], body.rules[i])
    ensures forall r, s, i | r in RulesOf(c, p) && s in RulesOf(c, p) && 0 <= i < |body.rules|
      && Stores(cat, RulesOf(c, p)[r], body.rules[i]) && Stores(cat, RulesOf(c, p)[s], body.rules[i]) :: r == s
  {
    var d, goals := RulesOf(c, p), Goals(cat, body.rules);
    hide RulesOf, EndpointsOf, GrantsOf, Goals, IdentOf, WantedParams;
    forall r, i | r in d && 0 <= i < |body.rules| && IdentOfDoc(d[r]) == IdentOf(cat, body.rules[i])
      ensures Stores(cat, d[r], body.rules[i])
    {
      GoalsExact(cat, body.rules, i);
      assert d[r] == Settled(IdentOfDoc(d[r]), goals[IdentOfDoc(d[r])], Some(d[r]));
      StoredBySettled(cat, IdentOf(cat, body.rules[i]), i, body.rules[i], d[r]);
    }
    forall i | 0 <= i < |body.rules|
      ensures StoredIn(cat, d, body.rules[i])
    {
      GoalsExact(cat, body.rules, i);
      assert HasIdent(d, IdentOf(cat, body.rules[i]));
      var r :| r in d && IdentOfDoc(d[r]) == IdentOf(cat, body.rules[i]);
      assert Stores(cat, d[r], body.rules[i]);
    }
    forall r | r in d
      ensures exists i :: 0 <= i < |body.rules| && Stores(cat, d[r], body.rules[i])
    {
      GoalsNamed(cat, body.rules, IdentOfDoc(d[r]));
    }
    forall r, s, i | r in d && s in d && 0 <= i < |body.rules| && Stores(cat, d[r], body.rules[i]) &&
      Stores(cat, d[s], body.rules[i])
      ensures r == s
    {
      GoalsExact(cat, body.rules, i);
      assert AtMostOne(d, IdentOf(cat, body.rules[i]));
    }
  }

  lemma StoredBySettled(cat: Catalogue, id: Ident, index: nat, e: RuleEntry, d: RuleDoc)
    requires d == Settled(id, GoalOf(cat, index, e), Some(d)) && id == IdentOf(cat, e)
    ensures Stores(cat, d, e)
  {
  }

  /** A permission the file names has the name the file gives it, its key if it gives none, and its description. */
  lemma PermissionRows(cat: Catalogue, c0: Composition, c1: Composition, file: File, lo: nat, i: nat)
    requires Applied(cat, c0, c1, file, lo) && i < |file.permissions|
    ensures var (key, body) := file.permissions[i];
      && key in c1.permissions
      && c1.permissions[key].name == (if body.name.Some? then body.name.value else key)
      && c1.permissions[key].description == body.description
  {
    hide Linked, RulesApplied, SamePermission, WantedGrants, WantedEndpoints, Goals, RolesAfter, FilePairs;
    assert PermissionApplied(cat, c0, c1, file.permissions[i].0, file.permissions[i].1, lo);
  }

  // ----- a file that contradicts itself, concretely

  function OneGroup(): Catalogue {
    Catalogue(
      map[0 := Entry(ObjectCols("w", "W", ""), true, 0)],
      map[],
      map[],
      map[1 := Entry(GroupCols(0, "g", "", ["f"]), true, 0)],
      map[])
  }

  function NoRows(): Composition {
    Composition(map[], map[], {}, map[], map[], map[], {})
  }

  function TwoAnswers(): seq<FieldEntry> {
    [FieldEntry("w.g", "view", map["f" := [Int(1)]]), FieldEntry("w.g", "view", map["f" := [Int(2)]])]
  }

  function ContradictoryFile(): File {
    File([("p", PermissionBody(None, "", [], [], TwoAnswers()))], [])
  }

  lemma TwoAnswersContradict(cat: Catalogue)
    ensures Contradicts(cat, TwoAnswers())
  {
    var d, e := TwoAnswers()[0], TwoAnswers()[1];
    assert d in TwoAnswers() && e in TwoAnswers();
    assert d.values["f"] == [Int(1)] && e.values["f"] == [Int(2)];
    assert d.values["f"][0] != e.values["f"][0];
  }

  lemma GroupKey()
    ensures RPartition("w.g") == Halves("w", true, "g") && SplitOk("w.g")
  {
    assert JoinKey("w", "g") == "w.g";
    JoinThenSplit("w", "g");
  }

  lemma GroupRows()
    ensures var cat := OneGroup();
      && Holds(cat.objects, ObjectNatural, "w") && PkOf(cat.objects, ObjectNatural, "w") == 0
      && LiveAt(cat.groups, GroupNatural, (0, "g"))
  {
    var cat := OneGroup();
    assert ObjectNatural(cat.objects[0].cols) == "w" && GroupNatural(cat.groups[1].cols) == (0, "g");
    assert PkOf(cat.groups, GroupNatural, (0, "g")) == 1;
  }

  lemma TwoAnswersOk()
    ensures FieldsOk(OneGroup(), TwoAnswers())
  {
    GroupKey();
    GroupRows();
    hide RPartition, SplitOk, LiveAt, Holds, OneGroup;
    forall e | e in TwoAnswers()
      ensures FieldOk(OneGroup(), e)
    {
      assert e == TwoAnswers()[0] || e == TwoAnswers()[1];
      assert e.group == "w.g" && e.verb == "view";
    }
  }

  lemma OneGroupWellFormed()
    ensures WellFormed(OneGroup(), NoRows(), 2)
  {
  }

  lemma TwoAnswersAccepted(reg: Reg)
    ensures Acceptable(OneGroup(), reg, NoRows(), ContradictoryFile()) && WellFormed(OneGroup(), NoRows(), 2)
  {
    TwoAnswersOk();
    OneGroupWellFormed();
    hide FieldsOk, RuleOk, WellFormed, LiveAt, OneGroup, NoRows, TwoAnswers;
  }

  /** The file is accepted, and every run of it after the first still reports an update. */
  lemma ContradictionReportedForever(reg: Reg, c1: Composition, c2: Composition, lo: nat, lo': nat, first: Report,
                                     second: Report)
    requires Ran(OneGroup(), NoRows(), c1, ContradictoryFile(), lo, first)
    requires Ran(OneGroup(), c1, c2, ContradictoryFile(), lo', second)
    ensures Acceptable(OneGroup(), reg, NoRows(), ContradictoryFile()) && WellFormed(OneGroup(), NoRows(), 2)
    ensures c2 == c1 && second == Report([], ["p"], [], [], 0) && second.Changed()
  {
    hide Ran, Acceptable, WellFormed, Contradicts, OneGroup, NoRows, TwoAnswers;
    TwoAnswersAccepted(reg);
    TwoAnswersContradict(OneGroup());
    SecondRun(OneGroup(), reg, NoRows(), c1, c2, ContradictoryFile(), lo, lo', first, second);
    var entries := ContradictoryFile().permissions;
    assert entries[..0] == [] && entries[0].1.fields == TwoAnswers();
    assert Contradicting(OneGroup(), entries, true) == ["p"];
    assert Contradicting(OneGroup(), entries, false) == [];
  }
}
