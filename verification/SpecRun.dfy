/** `apply_spec`: roles, and the transaction around the whole file. */
module SpecRun {
  import opened Outcomes
  import opened Listing
  import opened Registry
  import opened Tables
  import opened Views
  import opened SpecFile
  import opened Spec
  import opened SpecApply

  // ----- roles

  /** The tables once the roles in `dealt` have been handled: roles and bindings gained, nothing else moved. */
  ghost predicate RolesDone(c0: Composition, c: Composition, dealt: seq<(string, RoleBody)>, report: Report,
                            before: Report) {
    && Linked(c)
    && c == c0.(roles := RolesAfter(c0.roles, dealt), bindings := c0.bindings + FilePairs(dealt))
    && report == before.(roles := before.roles + NewRoles(c0.roles, dealt),
      bindings := before.bindings + |c.bindings - c0.bindings|)
  }

  ghost predicate AllKnown(c: Composition, permissions: seq<string>) {
    forall p | p in permissions :: p in c.permissions
  }

  ghost predicate BindingsOk(c: Composition, entries: seq<(string, RoleBody)>) {
    forall i | 0 <= i < |entries| :: AllKnown(c, entries[i].1.permissions)
  }

  /** Binds permissions to a role; a binding that is there already is kept and not counted. */
  method BindPermissions(c: Composition, role: string, permissions: seq<string>)
    returns (r: Result<nat>, c': Composition)
    requires Linked(c) && role in c.roles
    ensures r.Ok? <==> AllKnown(c, permissions)
    ensures r.Ok? ==> c' == c.(bindings := c.bindings + PairsOf(role, permissions)) && Linked(c')
    ensures r.Ok? ==> r.value == |c'.bindings| - |c.bindings|
  {
    c' := c;
    var made := 0;
    ghost var dealt: seq<string> := [];
    assert c.bindings + PairsOf(role, dealt) == c.bindings;
    assert Dealt(dealt, permissions, 0);
    hide Linked, AllKnown, PairsOf, Dealt;
    NoneKnown(c);
    for i := 0 to |permissions|
      invariant Dealt(dealt, permissions, i)
      invariant AllKnown(c, dealt) && Linked(c')
      invariant c' == c.(bindings := c.bindings + PairsOf(role, dealt))
      invariant made == |c'.bindings| - |c.bindings|
    {
      var p := permissions[i];
      if p !in c'.permissions {
        UnknownAt(c, permissions, i);
        return Err(MissingRow("permission")), c';
      }
      BindStep(c, role, dealt, p);
      if (role, p) !in c'.bindings {
        made := made + 1;
        c' := c'.(bindings := c'.bindings + {(role, p)});
      } else {
        assert c'.bindings + {(role, p)} == c'.bindings;
      }
      DealtNext(dealt, permissions, i);
      dealt := dealt + [p];
    }
    DealtAll(dealt, permissions);
    r := Ok(made);
  }

  lemma NoneKnown(c: Composition)
    ensures AllKnown(c, [])
  {
  }

  lemma UnknownAt(c: Composition, permissions: seq<string>, i: nat)
    requires i < |permissions| && permissions[i] !in c.permissions
    ensures !AllKnown(c, permissions)
  {
    assert permissions[i] in permissions;
  }

  lemma BindStep(c: Composition, role: string, dealt: seq<string>, p: string)
    requires Linked(c.(bindings := c.bindings + PairsOf(role, dealt))) && role in c.roles && p in c.permissions &&
      AllKnown(c, dealt)
    ensures c.bindings + PairsOf(role, dealt + [p]) == (c.bindings + PairsOf(role, dealt)) + {(role, p)}
    ensures Linked(c.(bindings := (c.bindings + PairsOf(role, dealt)) + {(role, p)})) && AllKnown(c, dealt + [p])
  {
    assert PairsOf(role, dealt + [p]) == PairsOf(role, dealt) + {(role, p)};
  }

  function WithRole(c: Composition, role: string, body: RoleBody): Composition {
    if role in c.roles then c else c.(roles := c.roles[role := RoleRow(body.title.GetOr(role), body.description)])
  }

  lemma WithRoleLinked(c: Composition, role: string, body: RoleBody)
    requires Linked(c)
    ensures Linked(WithRole(c, role, body)) && role in WithRole(c, role, body).roles
  {
  }

  lemma RolesStep(c0: Composition, c: Composition, c': Composition, dealt: seq<(string, RoleBody)>,
                  e: (string, RoleBody), report: Report, before: Report, made: nat)
    requires RolesDone(c0, c, dealt, report, before)
    requires Linked(c') && c' == WithRole(c, e.0, e.1).(bindings := c.bindings + PairsOf(e.0, e.1.permissions))
    requires made == |c'.bindings| - |c.bindings|
    ensures RolesDone(c0, c', dealt + [e],
      report.(roles := if e.0 in c.roles then report.roles else report.roles + [e.0],
        bindings := report.bindings + made), before)
  {
    hide Linked, PairsOf;
    var all := dealt + [e];
    assert all[..|dealt|] == dealt && all[|dealt|] == e;
    BindingsCounted(c0.bindings, c.bindings, c'.bindings);
    assert c'.bindings == c0.bindings + FilePairs(all);
    assert c'.roles == RolesAfter(c0.roles, all);
    var named := if e.0 in c.roles then [] else [e.0];
    assert NewRoles(c0.roles, all) == NewRoles(c0.roles, dealt) + named;
    assert before.roles + NewRoles(c0.roles, all) == (before.roles + NewRoles(c0.roles, dealt)) + named;
  }

  lemma BindingsCounted(a: set<(string, string)>, b: set<(string, string)>, c: set<(string, string)>)
    requires a <= b <= c
    ensures |c - a| == |b - a| + (|c| - |b|)
  {
    assert c - a == (b - a) + (c - b);
    assert c == b + (c - b);
  }

  lemma RolesKept(c0: Composition, c: Composition, dealt: seq<(string, RoleBody)>, report: Report, before: Report)
    requires RolesDone(c0, c, dealt, report, before)
    ensures Linked(c) && c.permissions == c0.permissions
  {
    hide Linked;
  }

  lemma KnownAlike(c0: Composition, c: Composition, permissions: seq<string>)
    requires c.permissions == c0.permissions
    ensures AllKnown(c, permissions) <==> AllKnown(c0, permissions)
  {
  }

  /** One role of the file. */
  method ApplyRole(ghost c0: Composition, c: Composition, ghost dealt: seq<(string, RoleBody)>, e: (string, RoleBody),
                   report: Report, ghost before: Report)
    returns (r: Result<Report>, c': Composition)
    requires RolesDone(c0, c, dealt, report, before)
    ensures r.Ok? <==> AllKnown(c0, e.1.permissions)
    ensures r.Ok? ==> RolesDone(c0, c', dealt + [e], r.value, before)
  {
    hide RolesDone, Linked, AllKnown, PairsOf, WithRole;
    RolesKept(c0, c, dealt, report, before);
    WithRoleLinked(c, e.0, e.1);
    var created := e.0 !in c.roles;
    var c1 := WithRole(c, e.0, e.1);
    assert c1.bindings == c.bindings && c1.permissions == c.permissions by { RoleOnly(c, e.0, e.1); }
    KnownAlike(c0, c1, e.1.permissions);
    var bound;
    bound, c' := BindPermissions(c1, e.0, e.1.permissions);
    if bound.Err? {
      return Err(bound.error), c';
    }
    RolesStep(c0, c, c', dealt, e, report, before, bound.value);
    r := Ok(report.(roles := if created then report.roles + [e.0] else report.roles,
      bindings := report.bindings + bound.value));
  }

  lemma RoleOnly(c: Composition, role: string, body: RoleBody)
    ensures WithRole(c, role, body) == c.(roles := WithRole(c, role, body).roles)
  {
  }

  lemma NoRoleYet(c: Composition, before: Report)
    requires Linked(c)
    ensures RolesDone(c, c, [], before, before)
  {
    assert c.bindings - c.bindings == {};
    assert c.bindings + FilePairs([]) == c.bindings;
  }

  lemma {:induction false} BindingsStep(c: Composition, dealt: seq<(string, RoleBody)>, e: (string, RoleBody))
    ensures BindingsOk(c, dealt + [e]) <==> BindingsOk(c, dealt) && AllKnown(c, e.1.permissions)
  {
    hide AllKnown;
    var all := dealt + [e];
    assert all[|dealt|] == e && forall i | 0 <= i < |dealt| :: all[i] == dealt[i];
  }

  lemma BindingsNotOk(c: Composition, entries: seq<(string, RoleBody)>, i: nat)
    requires i < |entries| && !AllKnown(c, entries[i].1.permissions)
    ensures !BindingsOk(c, entries)
  {
    hide AllKnown;
  }

  method ApplyRoles(c: Composition, entries: seq<(string, RoleBody)>, before: Report)
    returns (r: Result<Report>, c': Composition)
    requires Linked(c)
    ensures r.Ok? <==> BindingsOk(c, entries)
    ensures r.Ok? ==> RolesDone(c, c', entries, r.value, before)
  {
    c' := c;
    var report := before;
    ghost var dealt: seq<(string, RoleBody)> := [];
    NoRoleYet(c, before);
    assert BindingsOk(c, dealt);
    assert Dealt(dealt, entries, 0);
    hide RolesDone, Linked, AllKnown, BindingsOk, Dealt;
    for i := 0 to |entries|
      invariant Dealt(dealt, entries, i)
      invariant RolesDone(c, c', dealt, report, before)
      invariant BindingsOk(c, dealt)
    {
      var one;
      one, c' := ApplyRole(c, c', dealt, entries[i], report, before);
      if one.Err? {
        BindingsNotOk(c, entries, i);
        return Err(one.error), c';
      }
      BindingsStep(c, dealt, entries[i]);
      DealtNext(dealt, entries, i);
      report := one.value;
      dealt := dealt + [entries[i]];
    }
    DealtAll(dealt, entries);
    r := Ok(report);
  }

  // ----- the transaction

  /** The body of the transaction: on an error the tables are left half-written. */
  method ApplyFile(cat: Catalogue, reg: Reg, c: Composition, file: File, next: nat)
    returns (r: Result<Report>, c': Composition, next': nat)
    requires CatalogueValid(cat) && Linked(c) && RulesBelow(c, next)
    requires Dictionary(file.permissions)
    ensures r.Ok? <==> Acceptable(cat, reg, c, file)
    ensures r.Ok? ==> Applied(cat, c, c', file, next) && Reports(cat, c, c', file, r.value)
    ensures r.Ok? ==> RulesBelow(c', next') && next <= next'
  {
    if file.permissions == [] && file.roles == [] {
      return Err(EmptyFile), c, next;
    }
    if !BodiesOk(cat, reg, c, file.permissions) {
      BodiesRefused(cat, reg, c, file);
    }
    hide BodyOk, BodiesOk, PermissionsDone, RolesDone, Tallied, CatalogueValid, RulesBelow, RulesOf, Applied, Reports,
      Acceptable, BindingsOk;
    var report, c1, next1 := ApplyPermissions(cat, reg, c, file.permissions, next);
    if report.Err? {
      return Err(report.error), c1, next1;
    }
    PermissionsKnown(cat, c, c1, file, next, next1);
    AcceptableParts(cat, reg, c, c1, file);
    var final;
    final, c' := ApplyRoles(c1, file.roles, report.value);
    next' := next1;
    if final.Err? {
      return Err(final.error), c', next';
    }
    FileDone(cat, c, c1, c', file, next, next1, report.value, final.value);
    r := Ok(final.value);
  }

  lemma BodiesRefused(cat: Catalogue, reg: Reg, c: Composition, file: File)
    requires !BodiesOk(cat, reg, c, file.permissions)
    ensures !Acceptable(cat, reg, c, file)
  {
    BodiesOkEach(cat, reg, c, file.permissions);
  }

  /** With its permissions built, a file is acceptable exactly when its bindings are. */
  lemma AcceptableParts(cat: Catalogue, reg: Reg, c: Composition, c1: Composition, file: File)
    requires file.permissions != [] || file.roles != []
    requires BodiesOk(cat, reg, c, file.permissions)
    requires forall p :: p in c1.permissions <==> p in c.permissions || Names(file, p)
    ensures Acceptable(cat, reg, c, file) <==> BindingsOk(c1, file.roles)
  {
    BodiesOkEach(cat, reg, c, file.permissions);
    hide BodyOk, BodiesOk, RulesOf, Names;
  }

  lemma PermissionsKnown(cat: Catalogue, c0: Composition, c: Composition, file: File, lo: nat, next: nat)
    requires PermissionsDone(cat, c0, c, file.permissions, lo, next)
    ensures Linked(c)
    ensures forall p :: p in c.permissions <==> p in c0.permissions || Names(file, p)
  {
    hide Linked, RulesApplied, EndpointsOf, GrantsOf, RulesOf, Goals;
    forall p
      ensures p in c.permissions <==> p in c0.permissions || Names(file, p)
    {
      if NamedIn(file.permissions, p) {
        var i :| 0 <= i < |file.permissions| && file.permissions[i].0 == p;
        assert PermissionApplied(cat, c0, c, file.permissions[i].0, file.permissions[i].1, lo);
        assert Names(file, p);
      } else {
        assert SamePermission(c0, c, p);
        assert !Names(file, p);
      }
    }
  }

  lemma FileDone(cat: Catalogue, c0: Composition, c1: Composition, c2: Composition, file: File, lo: nat, next: nat,
                 report: Report, final: Report)
    requires PermissionsDone(cat, c0, c1, file.permissions, lo, next) && Tallied(cat, c0, file.permissions, report)
    requires RolesDone(c1, c2, file.roles, final, report)
    ensures Applied(cat, c0, c2, file, lo) && Reports(cat, c0, c2, file, final)
    ensures RulesBelow(c2, next) && lo <= next
  {
    hide Linked, RulesApplied, Goals, KeysWith, RolesAfter, NewRoles, FilePairs, WantedEndpoints, WantedGrants;
    forall q
      ensures SamePermission(c1, c2, q)
    {
      assert forall r | r in c1.rules :: ConditionsIn(c1, r) == ConditionsIn(c2, r);
    }
    hide RulesOf, EndpointsOf, GrantsOf;
    forall i | 0 <= i < |file.permissions|
      ensures PermissionApplied(cat, c0, c2, file.permissions[i].0, file.permissions[i].1, lo)
    {
      AppliedElsewhere(cat, c0, c1, c2, file.permissions[i].0, file.permissions[i].1, lo);
    }
    forall q | !Names(file, q)
      ensures SamePermission(c0, c2, q)
    {
      assert !NamedIn(file.permissions, q);
      assert SamePermission(c0, c1, q) && SamePermission(c1, c2, q);
    }
  }

  // ----- the new rows refer to the catalogue

  ghost predicate DocRefers(cat: Catalogue, d: RuleDoc) {
    d.owner in cat.objects && forall f | f in d.conditions :: f in cat.filters
  }

  /** What one permission holds refers to catalogue rows. */
  ghost predicate PermissionRefers(cat: Catalogue, c: Composition, p: string) {
    && (forall e | e in EndpointsOf(c, p) :: e in cat.endpoints)
    && (forall r | r in RulesOf(c, p) :: DocRefers(cat, RulesOf(c, p)[r]))
    && (forall g | g in GrantsOf(c, p) :: g.0 in cat.groups)
  }

  lemma RefersEach(cat: Catalogue, c: Composition, p: string)
    requires Refers(c, cat)
    ensures PermissionRefers(cat, c, p)
  {
  }

  lemma RefersAll(cat: Catalogue, c: Composition)
    requires Linked(c) && forall p :: PermissionRefers(cat, c, p)
    ensures Refers(c, cat)
  {
    forall e | e in c.endpoints ensures e.1 in cat.endpoints {
      assert PermissionRefers(cat, c, e.0);
      assert e.1 in EndpointsOf(c, e.0);
    }
    forall r | r in c.rules ensures c.rules[r].owner in cat.objects {
      assert PermissionRefers(cat, c, c.rules[r].permission);
      assert r in RulesOf(c, c.rules[r].permission);
    }
    forall x | x in c.conditions ensures x.1 in cat.filters {
      assert PermissionRefers(cat, c, c.rules[x.0].permission);
      assert x.0 in RulesOf(c, c.rules[x.0].permission) && x.1 in ConditionsIn(c, x.0);
    }
    forall g | g in c.grants ensures g.1 in cat.groups {
      assert PermissionRefers(cat, c, g.0);
      assert (g.1, g.2) in GrantsOf(c, g.0);
    }
  }

  lemma {:induction false} WantedFilters(cat: Catalogue, reg: Reg, owner: nat, entries: seq<ConditionEntry>)
    requires forall e | e in entries :: EntryOk(cat, reg, owner, e)
    ensures forall f | f in WantedParams(cat, entries) :: f in cat.filters
  {
    if entries != [] {
      var init, last := entries[..|entries| - 1], entries[|entries| - 1];
      assert forall e | e in init :: e in entries;
      assert last in entries;
      WantedFilters(cat, reg, owner, init);
    }
  }

  lemma {:induction false} GoalsRefer(cat: Catalogue, reg: Reg, rules: seq<RuleEntry>)
    requires forall i | 0 <= i < |rules| :: RuleOk(cat, reg, rules[i])
    ensures forall id | id in Goals(cat, rules) ::
      id.0 in cat.objects && forall f | f in Goals(cat, rules)[id].wanted :: f in cat.filters
  {
    if rules != [] {
      var init, last := rules[..|rules| - 1], rules[|rules| - 1];
      GoalsRefer(cat, reg, init);
      assert RuleOk(cat, reg, rules[|rules| - 1]);
      WantedFilters(cat, reg, IdentOf(cat, last).0, last.conditions);
    }
  }

  lemma RulesRefer(cat: Catalogue, reg: Reg, was: map<nat, RuleDoc>, d1: map<nat, RuleDoc>, rules: seq<RuleEntry>,
                   lo: nat)
    requires RulesOk(cat, reg, was, rules) && RulesApplied(was, d1, Goals(cat, rules), lo)
    ensures forall r | r in d1 :: DocRefers(cat, d1[r])
  {
    GoalsRefer(cat, reg, rules);
    hide AtMostOne, RuleOk, Goals;
    forall r | r in d1
      ensures DocRefers(cat, d1[r])
    {
      var id := IdentOfDoc(d1[r]);
      assert id in Goals(cat, rules) && d1[r].owner == id.0;
      assert d1[r] == Settled(id, Goals(cat, rules)[id], Was(was, r));
    }
  }

  lemma NamedRefers(cat: Catalogue, reg: Reg, c0: Composition, c1: Composition, p: string, body: PermissionBody,
                    lo: nat)
    requires CatalogueValid(cat) && BodyOk(cat, reg, RulesOf(c0, p), body) &&
      PermissionApplied(cat, c0, c1, p, body, lo)
    ensures PermissionRefers(cat, c1, p)
  {
    hide RulesOf, EndpointsOf, GrantsOf, Goals, CatalogueValid, RulesApplied, RulesOk;
    RulesRefer(cat, reg, RulesOf(c0, p), RulesOf(c1, p), body.rules, lo);
    WantedGrantsKeys(cat, body.fields);
    forall g | g in GrantsOf(c1, p)
      ensures g.0 in cat.groups
    {
      var e :| e in body.fields && FieldIdent(cat, e) == g;
      assert FieldOk(cat, e);
    }
  }

  lemma SameRefers(cat: Catalogue, c0: Composition, c1: Composition, p: string)
    requires SamePermission(c0, c1, p) && PermissionRefers(cat, c0, p)
    ensures PermissionRefers(cat, c1, p)
  {
  }

  /** An accepted file leaves every row pointing at a catalogue row. */
  lemma AppliedRefers(cat: Catalogue, reg: Reg, c0: Composition, c1: Composition, file: File, lo: nat)
    requires CatalogueValid(cat) && Refers(c0, cat)
    requires Acceptable(cat, reg, c0, file) && Applied(cat, c0, c1, file, lo)
    ensures Refers(c1, cat)
  {
    hide PermissionRefers, BodyOk, PermissionApplied, SamePermission, Linked, Refers, CatalogueValid;
    forall p
      ensures PermissionRefers(cat, c1, p)
    {
      if i :| 0 <= i < |file.permissions| && file.permissions[i].0 == p {
        NamedRefers(cat, reg, c0, c1, p, file.permissions[i].1, lo);
      } else {
        RefersEach(cat, c0, p);
        assert !Names(file, p);
        SameRefers(cat, c0, c1, p);
      }
    }
    RefersAll(cat, c1);
  }

  /** A run that went through, with the report it gave. */
  ghost predicate Ran(cat: Catalogue, c0: Composition, c1: Composition, file: File, lo: nat, r: Report) {
    Applied(cat, c0, c1, file, lo) && Reports(cat, c0, c1, file, r)
  }

  lemma StillWellFormed(cat: Catalogue, reg: Reg, c0: Composition, c1: Composition, file: File, lo: nat, next: nat)
    requires WellFormed(cat, c0, lo) && Acceptable(cat, reg, c0, file) && Applied(cat, c0, c1, file, lo)
    requires RulesBelow(c1, next) && lo <= next
    ensures WellFormed(cat, c1, next) && WellFormed(cat, c0, next)
  {
    hide Acceptable, Linked, Refers, CatalogueValid, RulesOf, PermissionApplied, SamePermission;
    AppliedRefers(cat, reg, c0, c1, file, lo);
  }

  lemma Roomy(cat: Catalogue, c: Composition, next: nat)
    requires WellFormed(cat, c, next)
    ensures CatalogueValid(cat) && Linked(c) && RulesBelow(c, next)
  {
    hide CatalogueValid, Linked, Refers, CatalogueBelow;
  }

  /** How a run, real or dry, may end: on an error or a dry run the tables are as they were, and the report of a
      dry run is that of a run that went through. */
  ghost predicate Transacted(cat: Catalogue, reg: Reg, c0: Composition, c1: Composition, file: File, lo: nat,
                             dryRun: bool, r: Result<Report>) {
    && (r.Ok? <==> Acceptable(cat, reg, c0, file))
    && (r.Err? || dryRun ==> c1 == c0)
    && (r.Ok? && !dryRun ==> Ran(cat, c0, c1, file, lo, r.value))
    && (r.Ok? && dryRun ==> exists c :: Ran(cat, c0, c, file, lo, r.value))
  }

  /** The whole of `apply_spec`.  On any error, and on a dry run, every table is as it was; the report of a dry
      run is that of the run it stands for. */
  method ApplySpec(db: Database, reg: Reg, file: File, dryRun: bool) returns (r: Result<Report>)
    requires db.Valid()
    requires Dictionary(file.permissions)
    modifies db`comp, db`nextPk
    ensures db.Valid()
    ensures Transacted(db.cat, reg, old(db.comp), db.comp, file, old(db.nextPk), dryRun, r)
    ensures r.Err? || dryRun ==> db.comp == old(db.comp)
  {
    var cat, saved, next := db.cat, db.comp, db.nextPk;
    assert WellFormed(cat, saved, next);
    hide WellFormed, Acceptable, Applied, Reports, RulesBelow, CatalogueValid, Linked, Refers, Dictionary, Transacted;
    Roomy(cat, saved, next);
    var c', next';
    r, c', next' := ApplyFile(cat, reg, saved, file, next);
    db.comp := c';
    if r.Err? {
      db.comp := saved;
      NotTransacted(cat, reg, saved, file, next, dryRun, r);
      return;
    }
    StillWellFormed(cat, reg, saved, c', file, next, next');
    TransactedIs(cat, reg, saved, c', file, next, dryRun, r);
    db.nextPk := next';
    if dryRun {
      db.comp := saved;
    }
  }

  lemma NotTransacted(cat: Catalogue, reg: Reg, c: Composition, file: File, lo: nat, dryRun: bool, r: Result<Report>)
    requires r.Err? && !Acceptable(cat, reg, c, file)
    ensures Transacted(cat, reg, c, c, file, lo, dryRun, r)
  {
  }

  lemma TransactedIs(cat: Catalogue, reg: Reg, c0: Composition, c1: Composition, file: File, lo: nat, dryRun: bool,
                     r: Result<Report>)
    requires r.Ok? && Acceptable(cat, reg, c0, file)
    requires Applied(cat, c0, c1, file, lo) && Reports(cat, c0, c1, file, r.value)
    ensures Transacted(cat, reg, c0, if dryRun then c0 else c1, file, lo, dryRun, r)
  {
    hide Applied, Reports, Acceptable;
    assert Ran(cat, c0, c1, file, lo, r.value);
  }
}
