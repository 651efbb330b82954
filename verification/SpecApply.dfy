/** `apply_spec`: field grants and whole permissions. */
module SpecApply {
  import opened Outcomes
  import opened Listing
  import opened Keys
  import opened Registry
  import opened Upserting
  import opened Tables
  import opened Views
  import opened SpecFile
  import opened Spec

  // ----- field grants

  method FieldRow(cat: Catalogue, e: FieldEntry) returns (r: Result<nat>)
    requires CatalogueValid(cat)
    ensures r.Ok? <==> FieldOk(cat, e)
    ensures r.Ok? ==> (r.value, e.verb) == FieldIdent(cat, e)
  {
    if !SplitOk(e.group) || e.verb == "" {
      return Err(MalformedKey(e.group));
    }
    var h := RPartition(e.group);
    if !(exists o | o in cat.objects :: ObjectNatural(cat.objects[o].cols) == h.objectKey) {
      return Err(MissingRow("field group"));
    }
    var o :| o in cat.objects && ObjectNatural(cat.objects[o].cols) == h.objectKey;
    assert o == PkOf(cat.objects, ObjectNatural, h.objectKey);
    r := CatalogueOrFail(cat.groups, GroupNatural, (o, h.verb), "field group");
  }

  ghost predicate Asks(cat: Catalogue, mine: map<(nat, string), AllowedValues>, e: FieldEntry) {
    !(FieldIdent(cat, e) in mine && mine[FieldIdent(cat, e)] == e.values)
  }

  ghost predicate AnyAsks(cat: Catalogue, mine: map<(nat, string), AllowedValues>, dealt: seq<FieldEntry>) {
    exists e :: e in dealt && Asks(cat, mine, e)
  }

  /** The grants of a permission once the entries in `dealt` have been written over them. */
  ghost predicate GrantsWritten(cat: Catalogue, mine: map<(nat, string), AllowedValues>,
                                rows: map<(nat, string), AllowedValues>, dealt: seq<FieldEntry>, changed: bool)
  {
    && rows == mine + WantedGrants(cat, dealt)
    && (changed <==> AnyAsks(cat, mine, dealt))
    && (!changed ==> rows == mine)
  }

  lemma WantedStep(cat: Catalogue, dealt: seq<FieldEntry>, e: FieldEntry)
    ensures WantedGrants(cat, dealt + [e]) == WantedGrants(cat, dealt)[FieldIdent(cat, e) := e.values]
  {
    assert (dealt + [e])[..|dealt|] == dealt;
  }

  lemma AsksStep(cat: Catalogue, mine: map<(nat, string), AllowedValues>, dealt: seq<FieldEntry>, e: FieldEntry)
    ensures AnyAsks(cat, mine, dealt + [e]) <==> AnyAsks(cat, mine, dealt) || Asks(cat, mine, e)
  {
    hide Asks;
    assert forall d :: d in dealt + [e] <==> d in dealt || d == e;
  }

  lemma GrantsStep(cat: Catalogue, mine: map<(nat, string), AllowedValues>, rows: map<(nat, string), AllowedValues>,
                   dealt: seq<FieldEntry>, changed: bool, e: FieldEntry)
    requires GrantsWritten(cat, mine, rows, dealt, changed)
    ensures var x := FieldIdent(cat, e);
      var altered := x !in rows || rows[x] != e.values;
      && GrantsWritten(cat, mine, rows[x := e.values], dealt + [e], changed || altered)
      && (!altered ==> rows[x := e.values] == rows)
  {
    hide FieldIdent, WantedGrants, AnyAsks;
    WantedStep(cat, dealt, e);
    AsksStep(cat, mine, dealt, e);
    var x := FieldIdent(cat, e);
    if x !in rows || rows[x] != e.values {
      AsksSomewhere(cat, mine, dealt, e);
      assert AnyAsks(cat, mine, dealt) || Asks(cat, mine, e);
    } else {
      assert rows[x := e.values] == rows;
    }
  }

  method WriteGrant(cat: Catalogue, ghost mine: map<(nat, string), AllowedValues>,
                    rows: map<(nat, string), AllowedValues>, ghost dealt: seq<FieldEntry>, e: FieldEntry, changed: bool)
    returns (r: Result<(nat, string)>, rows': map<(nat, string), AllowedValues>, changed': bool)
    requires CatalogueValid(cat)
    requires GrantsWritten(cat, mine, rows, dealt, changed)
    ensures r.Ok? <==> FieldOk(cat, e)
    ensures r.Ok? ==> r.value == FieldIdent(cat, e) && GrantsWritten(cat, mine, rows', dealt + [e], changed')
  {
    rows', changed' := rows, changed;
    hide GrantsWritten, FieldOk, FieldIdent, CatalogueValid, WantedGrants;
    var group := FieldRow(cat, e);
    if group.Err? {
      return Err(group.error), rows', changed';
    }
    var x := (group.value, e.verb);
    GrantsStep(cat, mine, rows, dealt, changed, e);
    if x !in rows || rows[x] != e.values {
      rows' := rows[x := e.values];
      changed' := true;
    }
    r := Ok(x);
  }

  /** Writes the grants in file order: a later entry for the same pair overwrites an earlier one, and each
      overwriting counts as a change. */
  method WriteGrants(cat: Catalogue, mine: map<(nat, string), AllowedValues>, fields: seq<FieldEntry>)
    returns (r: Result<bool>, rows: map<(nat, string), AllowedValues>, seen: set<(nat, string)>)
    requires CatalogueValid(cat)
    ensures r.Ok? <==> FieldsOk(cat, fields)
    ensures r.Ok? ==> GrantsWritten(cat, mine, rows, fields, r.value) && seen == WantedGrants(cat, fields).Keys
  {
    rows, seen := mine, {};
    var changed := false;
    GrantsStart(cat, mine);
    hide GrantsWritten, FieldOk, FieldIdent, CatalogueValid, WantedGrants;
    ghost var dealt: seq<FieldEntry> := [];
    for i := 0 to |fields|
      invariant dealt == fields[..i]
      invariant forall j | 0 <= j < i :: FieldOk(cat, fields[j])
      invariant GrantsWritten(cat, mine, rows, dealt, changed)
      invariant seen == WantedGrants(cat, dealt).Keys
    {
      var one;
      one, rows, changed := WriteGrant(cat, mine, rows, dealt, fields[i], changed);
      if one.Err? {
        assert fields[i] in fields;
        return Err(one.error), rows, seen;
      }
      WantedStep(cat, dealt, fields[i]);
      dealt := dealt + [fields[i]];
      seen := seen + {one.value};
    }
    assert dealt == fields;
    r := Ok(changed);
  }

  lemma GrantsStart(cat: Catalogue, mine: map<(nat, string), AllowedValues>)
    ensures GrantsWritten(cat, mine, mine, [], false) && WantedGrants(cat, []) == map[]
  {
  }

  /** If the newest entry changes what the earlier ones left, some entry so far asks for something new. */
  lemma AsksSomewhere(cat: Catalogue, mine: map<(nat, string), AllowedValues>, before: seq<FieldEntry>, e: FieldEntry)
    requires var rows := mine + WantedGrants(cat, before);
      FieldIdent(cat, e) !in rows || rows[FieldIdent(cat, e)] != e.values
    ensures Asks(cat, mine, e) || AnyAsks(cat, mine, before)
  {
    WantedGrantsKeys(cat, before);
    var x := FieldIdent(cat, e);
    if x in WantedGrants(cat, before) {
      var d :| d in before && FieldIdent(cat, d) == x && WantedGrants(cat, before)[x] == d.values;
      assert Asks(cat, mine, d) || Asks(cat, mine, e);
    }
  }

  /** The grants of one permission replaced. */
  function WithGrants(c: Composition, p: string, rows: map<(nat, string), AllowedValues>): Composition {
    c.(grants := (map x | x in c.grants && x.0 != p :: c.grants[x]) + map y | y in rows :: (p, y.0, y.1) := rows[y])
  }

  lemma WithGrantsView(c: Composition, p: string, rows: map<(nat, string), AllowedValues>, q: string)
    ensures GrantsOf(WithGrants(c, p, rows), q) == if q == p then rows else GrantsOf(c, q)
  {
    var c' := WithGrants(c, p, rows);
    var expected := if q == p then rows else GrantsOf(c, q);
    hide GrantsOf, WithGrants;
    forall y: (nat, string)
      ensures y in GrantsOf(c', q) <==> y in expected
      ensures y in expected ==> GrantsOf(c', q)[y] == expected[y]
    {
      GrantAt(c', q, y);
      GrantAt(c, q, y);
      WithGrantsAt(c, p, rows, (q, y.0, y.1));
      assert y == (y.0, y.1);
    }
  }

  lemma WithGrantsAt(c: Composition, p: string, rows: map<(nat, string), AllowedValues>, x: (string, nat, string))
    ensures x in WithGrants(c, p, rows).grants <==> if x.0 == p then (x.1, x.2) in rows else x in c.grants
    ensures x in WithGrants(c, p, rows).grants ==>
      WithGrants(c, p, rows).grants[x] == if x.0 == p then rows[(x.1, x.2)] else c.grants[x]
  {
    assert x == (x.0, x.1, x.2);
  }

  lemma GrantAt(c: Composition, q: string, y: (nat, string))
    ensures y in GrantsOf(c, q) <==> (q, y.0, y.1) in c.grants
    ensures y in GrantsOf(c, q) ==> GrantsOf(c, q)[y] == c.grants[(q, y.0, y.1)]
  {
    var x := (q, y.0, y.1);
    assert y == (x.1, x.2);
  }

  method ApplyFields(cat: Catalogue, c: Composition, p: string, fields: seq<FieldEntry>)
    returns (r: Result<bool>, c': Composition)
    requires CatalogueValid(cat)
    ensures r.Ok? <==> FieldsOk(cat, fields)
    ensures r.Ok? ==> c' == WithGrants(c, p, WantedGrants(cat, fields))
    ensures r.Ok? ==> (r.value <==> GrantsTouched(cat, GrantsOf(c, p), fields))
  {
    var mine := GrantsOf(c, p);
    hide GrantsOf, FieldOk, CatalogueValid, WantedGrants, WithGrants, GrantsTouched;
    var wrote, rows, seen := WriteGrants(cat, mine, fields);
    if wrote.Err? {
      return Err(wrote.error), c;
    }
    var kept := map x | x in rows && x in seen :: rows[x];
    assert kept == WantedGrants(cat, fields);
    LeftoverGrants(cat, mine, rows, seen, fields, wrote.value);
    return Ok(wrote.value || rows.Keys - seen != {}), WithGrants(c, p, kept);
  }

  lemma LeftoverGrants(cat: Catalogue, mine: map<(nat, string), AllowedValues>, rows: map<(nat, string), AllowedValues>,
                       seen: set<(nat, string)>, fields: seq<FieldEntry>, wrote: bool)
    requires rows == mine + WantedGrants(cat, fields) && seen == WantedGrants(cat, fields).Keys
    requires wrote <==> AnyAsks(cat, mine, fields)
    ensures wrote || rows.Keys - seen != {} <==> GrantsTouched(cat, mine, fields)
  {
    assert rows.Keys - seen == mine.Keys - seen;
    assert mine.Keys - seen != {} <==> exists x :: x in mine && x !in WantedGrants(cat, fields) by {
      if x :| x in mine && x !in WantedGrants(cat, fields) {
        assert x in mine.Keys - seen;
      }
    }
    if e :| e in fields && Asks(cat, mine, e) {
      assert !(FieldIdent(cat, e) in mine && mine[FieldIdent(cat, e)] == e.values);
    } else if e :| e in fields && !(FieldIdent(cat, e) in mine && mine[FieldIdent(cat, e)] == e.values) {
      assert Asks(cat, mine, e);
    }
  }

  // ----- one permission

  lemma LaterFresh(d0: map<nat, RuleDoc>, d1: map<nat, RuleDoc>, goals: map<Ident, Goal>, lo: nat, later: nat)
    requires forall id | id in goals :: Sensible(goals[id])
    requires lo <= later && RulesApplied(d0, d1, goals, later)
    ensures RulesApplied(d0, d1, goals, lo)
  {
    hide Settled, HasIdent, AtMostOne;
  }

  /** Only permission `p` may have changed. */
  ghost predicate Others(c: Composition, c': Composition, p: string) {
    && c'.roles == c.roles && c'.bindings == c.bindings
    && forall q | q != p :: SamePermission(c, c', q)
  }

  lemma OthersStay(c: Composition, c1: Composition, c2: Composition, p: string)
    requires Others(c, c1, p) && Others(c1, c2, p)
    ensures Others(c, c2, p)
  {
    forall q | q != p
      ensures SamePermission(c, c2, q)
    {
      assert SamePermission(c, c1, q) && SamePermission(c1, c2, q);
    }
  }

  lemma NamedRow(c: Composition, p: string, row: PermissionRow)
    requires Linked(c)
    ensures var c1 := c.(permissions := c.permissions[p := row]);
      Linked(c1) && Others(c, c1, p)
      && EndpointsOf(c1, p) == EndpointsOf(c, p) && RulesOf(c1, p) == RulesOf(c, p) && GrantsOf(c1, p) == GrantsOf(c, p)
  {
    var c1 := c.(permissions := c.permissions[p := row]);
    forall q
      ensures RulesOf(c1, q) == RulesOf(c, q)
    {
      assert forall r | r in c.rules :: ConditionsIn(c1, r) == ConditionsIn(c, r);
    }
  }

  lemma EndpointsDone(c: Composition, c': Composition, p: string, wanted: set<nat>)
    requires EndpointsReplaced(c, c', p, wanted) && Linked(c) && p in c.permissions
    ensures Others(c, c', p) && Linked(c') && EndpointsOf(c', p) == wanted
    ensures RulesOf(c', p) == RulesOf(c, p) && GrantsOf(c', p) == GrantsOf(c, p)
    ensures c' == c <==> EndpointsOf(c, p) == wanted
    ensures c'.permissions == c.permissions && c'.rules == c.rules
  {
    forall q
      ensures EndpointsOf(c', q) == if q == p then wanted else EndpointsOf(c, q)
      ensures RulesOf(c', q) == RulesOf(c, q) && GrantsOf(c', q) == GrantsOf(c, q)
      ensures Linked(c')
    {
      EndpointsReplacedView(c, c', p, wanted, q);
    }
    if EndpointsOf(c, p) == wanted {
      forall x
        ensures x in c'.endpoints <==> x in c.endpoints
      {
        if x.0 == p {
          assert x == (p, x.1);
          assert (p, x.1) in c.endpoints <==> x.1 in EndpointsOf(c, p);
        }
      }
      assert c'.endpoints == c.endpoints;
    }
  }

  lemma RulesOthers(c: Composition, c': Composition, p: string)
    requires c' == c.(rules := c'.rules, conditions := c'.conditions)
    requires forall q | q != p :: RulesOf(c', q) == RulesOf(c, q)
    ensures Others(c, c', p)
    ensures EndpointsOf(c', p) == EndpointsOf(c, p) && GrantsOf(c', p) == GrantsOf(c, p)
  {
    hide RulesOf;
  }

  lemma GrantsDone(c: Composition, p: string, rows: map<(nat, string), AllowedValues>)
    requires Linked(c) && p in c.permissions
    ensures var c' := WithGrants(c, p, rows);
      Linked(c') && Others(c, c', p) && GrantsOf(c', p) == rows
      && EndpointsOf(c', p) == EndpointsOf(c, p) && RulesOf(c', p) == RulesOf(c, p) && c'.permissions == c.permissions
      && c'.rules == c.rules
  {
    var c' := WithGrants(c, p, rows);
    assert c' == c.(grants := c'.grants) && forall x | x in c'.grants :: x.0 == p || x in c.grants;
    hide WithGrants, GrantsOf, RulesOf, EndpointsOf;
    forall q
      ensures GrantsOf(c', q) == if q == p then rows else GrantsOf(c, q)
      ensures RulesOf(c', q) == RulesOf(c, q) && EndpointsOf(c', q) == EndpointsOf(c, q)
    {
      WithGrantsView(c, p, rows, q);
      SameRowsSameViews(c, c', q);
    }
  }

  lemma SameRowsSameViews(c: Composition, c': Composition, q: string)
    requires c' == c.(grants := c'.grants)
    ensures RulesOf(c', q) == RulesOf(c, q) && EndpointsOf(c', q) == EndpointsOf(c, q)
  {
    assert forall r | r in c.rules :: ConditionsIn(c', r) == ConditionsIn(c, r);
  }

  /** What handling one permission of the file must have done. */
  ghost predicate PermissionDone(cat: Catalogue, c: Composition, c': Composition, p: string, body: PermissionBody,
                                 next: nat, next': nat) {
    && PermissionApplied(cat, c, c', p, body, next)
    && Others(c, c', p)
    && Linked(c') && RulesBelow(c', next') && next <= next'
  }

  method ApplyPermission(cat: Catalogue, reg: Reg, c: Composition, p: string, body: PermissionBody, next: nat)
    returns (r: Result<bool>, c': Composition, next': nat)
    requires CatalogueValid(cat) && Linked(c) && RulesBelow(c, next)
    ensures r.Ok? <==> BodyOk(cat, reg, RulesOf(c, p), body)
    ensures r.Ok? ==> PermissionDone(cat, c, c', p, body, next, next')
    ensures r.Ok? ==> (r.value <==> Touched(cat, c, p, body))
  {
    next' := next;
    var row := RowOf(p, body);
    var named := p !in c.permissions || c.permissions[p] != row;
    var c1 := c.(permissions := c.permissions[p := row]);
    NamedRow(c, p, row);
    hide Linked, Others, RulesBelow, RulesOf, EndpointsOf, GrantsOf, RulesOk, EndpointsOk, FieldsOk, RulesApplied,
      RulesMatch, GrantsTouched, CatalogueValid;
    hide Goals, WantedEndpoints, WantedGrants, WithGrants, LiveAt, SamePermission, EndpointsReplaced, PermissionDone,
      Touched;
    var endpoints, c2 := ApplyEndpoints(cat, c1, p, body.endpoints);
    if endpoints.Err? {
      return Err(endpoints.error), c2, next';
    }
    EndpointsDone(c1, c2, p, WantedEndpoints(cat, body.endpoints));
    BelowStays(c, c2, next);
    var rules, c3, next3 := ApplyRules(cat, reg, c2, p, body.rules, next);
    next' := next3;
    if rules.Err? {
      return Err(rules.error), c3, next';
    }
    RulesOthers(c2, c3, p);
    var fields, c4 := ApplyFields(cat, c3, p, body.fields);
    if fields.Err? {
      return Err(fields.error), c4, next';
    }
    GrantsDone(c3, p, WantedGrants(cat, body.fields));
    BelowStays(c3, c4, next3);
    PermissionAssembled(cat, c, c1, c2, c3, c4, p, body, next, next3);
    TouchedParts(cat, c, p, body, endpoints.value, rules.value, fields.value);
    return Ok(named || endpoints.value || rules.value || fields.value), c4, next';
  }

  lemma PermissionAssembled(cat: Catalogue, c: Composition, c1: Composition, c2: Composition, c3: Composition,
                            c4: Composition, p: string, body: PermissionBody, next: nat, next': nat)
    requires Others(c, c1, p) && Others(c1, c2, p) && Others(c2, c3, p) && Others(c3, c4, p)
    requires p in c1.permissions && c1.permissions[p] == RowOf(p, body)
    requires c2.permissions == c1.permissions && c3.permissions == c2.permissions && c4.permissions == c3.permissions
    requires EndpointsOf(c2, p) == WantedEndpoints(cat, body.endpoints)
    requires EndpointsOf(c3, p) == EndpointsOf(c2, p) && EndpointsOf(c4, p) == EndpointsOf(c3, p)
    requires RulesOf(c1, p) == RulesOf(c, p) && RulesOf(c2, p) == RulesOf(c1, p) && RulesOf(c4, p) == RulesOf(c3, p)
    requires RulesApplied(RulesOf(c2, p), RulesOf(c3, p), Goals(cat, body.rules), next)
    requires GrantsOf(c4, p) == WantedGrants(cat, body.fields)
    requires Linked(c4) && RulesBelow(c4, next') && next <= next'
    ensures PermissionDone(cat, c, c4, p, body, next, next')
  {
    hide Others, Linked, RulesBelow, RulesOf, EndpointsOf, GrantsOf, RulesApplied, Goals, WantedEndpoints, WantedGrants;
    OthersStay(c, c1, c2, p);
    OthersStay(c, c2, c3, p);
    OthersStay(c, c3, c4, p);
  }

  lemma TouchedParts(cat: Catalogue, c: Composition, p: string, body: PermissionBody, endpoints: bool, rules: bool,
                     fields: bool)
    requires endpoints <==> EndpointsOf(c, p) != WantedEndpoints(cat, body.endpoints)
    requires rules <==> !RulesMatch(RulesOf(c, p), Goals(cat, body.rules))
    requires fields <==> GrantsTouched(cat, GrantsOf(c, p), body.fields)
    ensures p !in c.permissions || c.permissions[p] != RowOf(p, body) || endpoints || rules || fields <==>
      Touched(cat, c, p, body)
  {
    hide RulesOf, EndpointsOf, GrantsOf, RulesMatch, GrantsTouched, Goals, WantedEndpoints;
  }

  lemma BelowStays(c: Composition, c': Composition, next: nat)
    requires RulesBelow(c, next) && c'.rules == c.rules
    ensures RulesBelow(c', next)
  {
  }

  // ----- all permissions of the file

  /** The tables once the permissions in `dealt` have been handled. */
  ghost predicate PermissionsDone(cat: Catalogue, c0: Composition, c: Composition, dealt: seq<(string, PermissionBody)>,
                                  lo: nat, next: nat) {
    && Linked(c) && RulesBelow(c, next) && lo <= next
    && (forall i | 0 <= i < |dealt| :: PermissionApplied(cat, c0, c, dealt[i].0, dealt[i].1, lo))
    && (forall q | !NamedIn(dealt, q) :: SamePermission(c0, c, q))
    && c.roles == c0.roles && c.bindings == c0.bindings
  }

  ghost predicate Tallied(cat: Catalogue, c0: Composition, dealt: seq<(string, PermissionBody)>, r: Report) {
    && r.created == KeysWith(cat, c0, dealt, Composed)
    && r.updated == KeysWith(cat, c0, dealt, Amended)
    && r.kept == KeysWith(cat, c0, dealt, Alike)
    && r.roles == [] && r.bindings == 0
  }

  lemma TalliedStep(cat: Catalogue, c0: Composition, dealt: seq<(string, PermissionBody)>, e: (string, PermissionBody),
                    r: Report)
    requires Tallied(cat, c0, dealt, r)
    ensures Tallied(cat, c0, dealt + [e], match OutcomeOf(cat, c0, e.0, e.1)
      case Composed => r.(created := r.created + [e.0])
      case Amended => r.(updated := r.updated + [e.0])
      case Alike => r.(kept := r.kept + [e.0]))
  {
    hide OutcomeOf;
    assert (dealt + [e])[..|dealt|] == dealt;
  }

  lemma AppliedElsewhere(cat: Catalogue, c0: Composition, c: Composition, c': Composition, p: string,
                         body: PermissionBody, lo: nat)
    requires PermissionApplied(cat, c0, c, p, body, lo) && SamePermission(c, c', p)
    ensures PermissionApplied(cat, c0, c', p, body, lo)
  {
    hide RulesApplied, RulesOf, EndpointsOf, GrantsOf, Goals, WantedEndpoints, WantedGrants;
  }

  lemma AppliedHere(cat: Catalogue, c0: Composition, c: Composition, c': Composition, p: string, body: PermissionBody,
                    lo: nat, next: nat)
    requires SamePermission(c0, c, p) && PermissionApplied(cat, c, c', p, body, next) && lo <= next
    ensures PermissionApplied(cat, c0, c', p, body, lo)
  {
    hide RulesApplied, RulesOf, EndpointsOf, GrantsOf, Goals, WantedEndpoints, WantedGrants;
    LaterFresh(RulesOf(c0, p), RulesOf(c', p), Goals(cat, body.rules), lo, next);
  }

  lemma TouchedHere(cat: Catalogue, c0: Composition, c: Composition, p: string, body: PermissionBody)
    requires SamePermission(c0, c, p)
    ensures Touched(cat, c0, p, body) <==> Touched(cat, c, p, body)
  {
    hide RulesMatch, RulesOf, EndpointsOf, GrantsOf, Goals, WantedEndpoints, GrantsTouched;
  }

  lemma PermissionsStep(cat: Catalogue, c0: Composition, c: Composition, c': Composition,
                        dealt: seq<(string, PermissionBody)>, e: (string, PermissionBody), lo: nat, next: nat,
                        next': nat)
    requires PermissionsDone(cat, c0, c, dealt, lo, next) && !NamedIn(dealt, e.0)
    requires PermissionDone(cat, c, c', e.0, e.1, next, next')
    ensures PermissionsDone(cat, c0, c', dealt + [e], lo, next')
  {
    hide PermissionApplied, Linked, RulesBelow, RulesOf, EndpointsOf, GrantsOf;
    var all := dealt + [e];
    forall i | 0 <= i < |all|
      ensures PermissionApplied(cat, c0, c', all[i].0, all[i].1, lo)
    {
      if i < |dealt| {
        assert dealt[i].0 != e.0;
        AppliedElsewhere(cat, c0, c, c', dealt[i].0, dealt[i].1, lo);
      } else {
        AppliedHere(cat, c0, c, c', e.0, e.1, lo, next);
      }
    }
    forall q | !NamedIn(all, q)
      ensures SamePermission(c0, c', q)
    {
      NamedStep(dealt, e, q);
      assert SamePermission(c0, c, q) && SamePermission(c, c', q);
    }
  }

  lemma NamedStep(dealt: seq<(string, PermissionBody)>, e: (string, PermissionBody), q: string)
    ensures NamedIn(dealt + [e], q) <==> NamedIn(dealt, q) || q == e.0
  {
    var all := dealt + [e];
    assert all[|dealt|] == e;
    if i :| 0 <= i < |dealt| && dealt[i].0 == q {
      assert all[i] == dealt[i];
    }
  }

  ghost predicate BodiesOk(cat: Catalogue, reg: Reg, c0: Composition, entries: seq<(string, PermissionBody)>) {
    entries == [] ||
    var last := entries[|entries| - 1];
    BodyOk(cat, reg, RulesOf(c0, last.0), last.1) && BodiesOk(cat, reg, c0, entries[..|entries| - 1])
  }

  lemma {:induction false} BodiesOkEach(cat: Catalogue, reg: Reg, c0: Composition,
                                        entries: seq<(string, PermissionBody)>)
    ensures BodiesOk(cat, reg, c0, entries)
      <==> forall i | 0 <= i < |entries| :: BodyOk(cat, reg, RulesOf(c0, entries[i].0), entries[i].1)
  {
    hide BodyOk, RulesOf;
    if entries != [] {
      var init := entries[..|entries| - 1];
      BodiesOkEach(cat, reg, c0, init);
      assert forall i | 0 <= i < |init| :: init[i] == entries[i];
    }
  }

  /** One permission of the file, and what the report says of it. */
  method NextPermission(cat: Catalogue, reg: Reg, ghost c0: Composition, c: Composition,
                        ghost dealt: seq<(string, PermissionBody)>, e: (string, PermissionBody), ghost lo: nat,
                        next: nat, report: Report)
    returns (r: Result<Report>, c': Composition, next': nat)
    requires CatalogueValid(cat) && !NamedIn(dealt, e.0)
    requires PermissionsDone(cat, c0, c, dealt, lo, next) && Tallied(cat, c0, dealt, report)
    ensures r.Ok? <==> BodyOk(cat, reg, RulesOf(c0, e.0), e.1)
    ensures r.Ok? ==> PermissionsDone(cat, c0, c', dealt + [e], lo, next') && Tallied(cat, c0, dealt + [e], r.value)
  {
    hide PermissionsDone, PermissionDone, Tallied, BodyOk, Linked, RulesBelow, CatalogueValid, Touched, SamePermission,
      NamedIn, RulesOf;
    DoneFacts(cat, c0, c, dealt, lo, next, e.0);
    SamePermissionFacts(c0, c, e.0);
    TouchedHere(cat, c0, c, e.0, e.1);
    TalliedStep(cat, c0, dealt, e, report);
    var created := e.0 !in c.permissions;
    var touched;
    touched, c', next' := ApplyPermission(cat, reg, c, e.0, e.1, next);
    if touched.Err? {
      return Err(touched.error), c', next';
    }
    PermissionsStep(cat, c0, c, c', dealt, e, lo, next, next');
    if created {
      r := Ok(report.(created := report.created + [e.0]));
    } else if touched.value {
      r := Ok(report.(updated := report.updated + [e.0]));
    } else {
      r := Ok(report.(kept := report.kept + [e.0]));
    }
  }

  method ApplyPermissions(cat: Catalogue, reg: Reg, c: Composition, entries: seq<(string, PermissionBody)>, next: nat)
    returns (r: Result<Report>, c': Composition, next': nat)
    requires CatalogueValid(cat) && Linked(c) && RulesBelow(c, next) && Dictionary(entries)
    ensures r.Ok? <==> BodiesOk(cat, reg, c, entries)
    ensures r.Ok? ==> PermissionsDone(cat, c, c', entries, next, next') && Tallied(cat, c, entries, r.value)
  {
    c', next' := c, next;
    var report := Report([], [], [], [], 0);
    ghost var dealt: seq<(string, PermissionBody)> := [];
    assert Dealt(dealt, entries, 0);
    hide *;
    NothingDone(cat, reg, c, next);
    for i := 0 to |entries|
      invariant Dealt(dealt, entries, i)
      invariant PermissionsDone(cat, c, c', dealt, next, next')
      invariant Tallied(cat, c, dealt, report)
      invariant BodiesOk(cat, reg, c, dealt)
    {
      NotYet(entries, dealt, i);
      var one;
      one, c', next' := NextPermission(cat, reg, c, c', dealt, entries[i], next, next', report);
      if one.Err? {
        BodiesNotOk(cat, reg, c, entries, i);
        return Err(one.error), c', next';
      }
      BodiesStep(cat, reg, c, dealt, entries[i]);
      DealtNext(dealt, entries, i);
      report := one.value;
      dealt := dealt + [entries[i]];
    }
    DealtAll(dealt, entries);
    r := Ok(report);
  }

  lemma BodiesStep(cat: Catalogue, reg: Reg, c: Composition, dealt: seq<(string, PermissionBody)>,
                   e: (string, PermissionBody))
    requires BodiesOk(cat, reg, c, dealt) && BodyOk(cat, reg, RulesOf(c, e.0), e.1)
    ensures BodiesOk(cat, reg, c, dealt + [e])
  {
    hide BodyOk, RulesOf;
    assert (dealt + [e])[..|dealt|] == dealt;
  }

  lemma BodiesNotOk(cat: Catalogue, reg: Reg, c: Composition, entries: seq<(string, PermissionBody)>, i: nat)
    requires i < |entries| && !BodyOk(cat, reg, RulesOf(c, entries[i].0), entries[i].1)
    ensures !BodiesOk(cat, reg, c, entries)
  {
    hide BodyOk, RulesOf;
    BodiesOkEach(cat, reg, c, entries);
  }

  lemma NothingDone(cat: Catalogue, reg: Reg, c: Composition, next: nat)
    requires Linked(c) && RulesBelow(c, next)
    ensures BodiesOk(cat, reg, c, [])
    ensures PermissionsDone(cat, c, c, [], next, next) && Tallied(cat, c, [], Report([], [], [], [], 0))
  {
  }

  lemma NotYet(entries: seq<(string, PermissionBody)>, dealt: seq<(string, PermissionBody)>, i: nat)
    requires Dictionary(entries) && Dealt(dealt, entries, i) && i < |entries|
    ensures !NamedIn(dealt, entries[i].0)
  {
  }

  lemma DoneFacts(cat: Catalogue, c0: Composition, c: Composition, dealt: seq<(string, PermissionBody)>, lo: nat,
                  next: nat, key: string)
    requires PermissionsDone(cat, c0, c, dealt, lo, next) && !NamedIn(dealt, key)
    ensures Linked(c) && RulesBelow(c, next) && lo <= next && SamePermission(c0, c, key)
  {
    hide PermissionApplied, Linked, SamePermission;
  }

  lemma SamePermissionFacts(c0: Composition, c: Composition, p: string)
    requires SamePermission(c0, c, p)
    ensures p in c0.permissions <==> p in c.permissions
    ensures RulesOf(c0, p) == RulesOf(c, p)
  {
  }
}
