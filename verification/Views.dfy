/** What one permission is made of, gathered from the composition tables. */
module Views {
  import opened Tables

  /** A rule with the conditions that hang from it. */
  datatype RuleDoc = RuleDoc(owner: nat, verb: string, title: string, order: nat, conditions: map<nat, ConditionRow>)

  function ConditionsIn(c: Composition, r: nat): map<nat, ConditionRow> {
    map x | x in c.conditions && x.0 == r :: x.1 := c.conditions[x]
  }

  lemma InConditions(c: Composition, rule: nat, f: nat)
    ensures f in ConditionsIn(c, rule) <==> (rule, f) in c.conditions
    ensures f in ConditionsIn(c, rule) ==> ConditionsIn(c, rule)[f] == c.conditions[(rule, f)]
  {
    assert (rule, f).1 == f;
  }

  ghost function DocOf(c: Composition, r: nat): RuleDoc
    requires r in c.rules
  {
    RuleDoc(c.rules[r].owner, c.rules[r].verb, c.rules[r].title, c.rules[r].order, ConditionsIn(c, r))
  }

  ghost function RulesOf(c: Composition, p: string): map<nat, RuleDoc> {
    map r | r in c.rules && c.rules[r].permission == p :: DocOf(c, r)
  }

  ghost function EndpointsOf(c: Composition, p: string): set<nat> {
    set x | x in c.endpoints && x.0 == p :: x.1
  }

  function GrantsOf(c: Composition, p: string): map<(nat, string), AllowedValues> {
    map x | x in c.grants && x.0 == p :: (x.1, x.2) := c.grants[x]
  }

  /** Everything a permission holds is the same in both. */
  ghost predicate SamePermission(a: Composition, b: Composition, p: string) {
    && (p in a.permissions <==> p in b.permissions)
    && (p in a.permissions ==> a.permissions[p] == b.permissions[p])
    && EndpointsOf(a, p) == EndpointsOf(b, p)
    && RulesOf(a, p) == RulesOf(b, p)
    && GrantsOf(a, p) == GrantsOf(b, p)
  }

  /** The views lose nothing: linked tables whose permissions, roles and bindings agree are the same tables. */
  lemma ViewsDetermineTables(a: Composition, b: Composition)
    requires Linked(a) && Linked(b)
    requires forall p :: SamePermission(a, b, p)
    requires a.roles == b.roles && a.bindings == b.bindings
    ensures a == b
  {
    forall p ensures p in a.permissions <==> p in b.permissions {
      assert SamePermission(a, b, p);
    }
    forall p | p in a.permissions ensures a.permissions[p] == b.permissions[p] {
      assert SamePermission(a, b, p);
    }
    assert a.permissions == b.permissions;
    EndpointsDetermined(a, b);
    EndpointsDetermined(b, a);
    RulesDetermined(a, b);
    RulesDetermined(b, a);
    assert a.rules == b.rules;
    assert a.conditions == b.conditions;
    GrantsDetermined(a, b);
    GrantsDetermined(b, a);
    assert a.grants == b.grants;
  }

  lemma EndpointsDetermined(a: Composition, b: Composition)
    requires forall p :: SamePermission(a, b, p) || SamePermission(b, a, p)
    ensures a.endpoints <= b.endpoints
  {
    forall x | x in a.endpoints
      ensures x in b.endpoints
    {
      assert SamePermission(a, b, x.0) || SamePermission(b, a, x.0);
      assert x.1 in EndpointsOf(a, x.0);
      assert x.1 in EndpointsOf(b, x.0);
    }
  }

  lemma RulesDetermined(a: Composition, b: Composition)
    requires Linked(a)
    requires forall p :: SamePermission(a, b, p) || SamePermission(b, a, p)
    ensures forall r | r in a.rules :: r in b.rules && b.rules[r] == a.rules[r]
    ensures forall x | x in a.conditions :: x in b.conditions && b.conditions[x] == a.conditions[x]
  {
    forall r | r in a.rules
      ensures r in b.rules && b.rules[r] == a.rules[r] && ConditionsIn(a, r) == ConditionsIn(b, r)
    {
      var p := a.rules[r].permission;
      assert SamePermission(a, b, p) || SamePermission(b, a, p);
      assert r in RulesOf(a, p) && RulesOf(a, p)[r] == DocOf(a, r);
      assert r in RulesOf(b, p) && RulesOf(b, p)[r] == DocOf(b, r);
    }
    forall x | x in a.conditions
      ensures x in b.conditions && b.conditions[x] == a.conditions[x]
    {
      assert x.1 in ConditionsIn(a, x.0) && ConditionsIn(a, x.0)[x.1] == a.conditions[x];
      assert x.1 in ConditionsIn(b, x.0) && ConditionsIn(b, x.0)[x.1] == b.conditions[(x.0, x.1)];
    }
  }

  lemma GrantsDetermined(a: Composition, b: Composition)
    requires forall p :: SamePermission(a, b, p) || SamePermission(b, a, p)
    ensures forall x | x in a.grants :: x in b.grants && b.grants[x] == a.grants[x]
  {
    forall x | x in a.grants
      ensures x in b.grants && b.grants[x] == a.grants[x]
    {
      assert SamePermission(a, b, x.0) || SamePermission(b, a, x.0);
      assert (x.1, x.2) in GrantsOf(a, x.0) && GrantsOf(a, x.0)[(x.1, x.2)] == a.grants[x];
      assert (x.1, x.2) in GrantsOf(b, x.0);
      assert (x.0, x.1, x.2) == x;
    }
  }

  // ----- writes, seen through the views

  /** Deleting a rule takes its conditions with it. */
  function WithoutRule(c: Composition, r: nat): Composition {
    c.(rules := c.rules - {r}, conditions := map x | x in c.conditions && x.0 != r :: c.conditions[x])
  }

  lemma WithoutRuleView(c: Composition, r: nat, q: string)
    requires Linked(c)
    ensures Linked(WithoutRule(c, r))
    ensures RulesOf(WithoutRule(c, r), q) == RulesOf(c, q) - {r}
  {
    var c' := WithoutRule(c, r);
    forall s | s in c'.rules
      ensures ConditionsIn(c', s) == ConditionsIn(c, s)
    {
    }
    assert RulesOf(c', q).Keys == RulesOf(c, q).Keys - {r};
  }

  function WithRule(c: Composition, r: nat, row: RuleRow): Composition {
    c.(rules := c.rules[r := row])
  }

  lemma WithRuleView(c: Composition, r: nat, row: RuleRow, q: string)
    requires Linked(c) && r !in c.rules
    ensures RulesOf(WithRule(c, r, row), q) ==
      if q == row.permission then RulesOf(c, q)[r := RuleDoc(row.owner, row.verb, row.title, row.order, map[])]
      else RulesOf(c, q)
  {
    var c' := WithRule(c, r, row);
    forall s | s in c'.rules
      ensures ConditionsIn(c', s) == if s == r then map[] else ConditionsIn(c, s)
    {
    }
    var expected := if q == row.permission then RulesOf(c,
      q)[r := RuleDoc(row.owner, row.verb, row.title, row.order, map[])]
                    else RulesOf(c, q);
    forall s
      ensures s in RulesOf(c', q) <==> s in expected
      ensures s in expected ==> RulesOf(c', q)[s] == expected[s]
    {
    }
  }

  lemma WithRuleLinked(c: Composition, r: nat, row: RuleRow)
    requires Linked(c) && r !in c.rules && row.permission in c.permissions
    ensures Linked(WithRule(c, r, row)) && ConditionsIn(WithRule(c, r, row), r) == map[]
  {
  }

  /** Only this rule's conditions are rewritten. */
  ghost predicate ConditionsReplaced(c: Composition, c': Composition, r: nat, conditions: map<nat, ConditionRow>) {
    && c' == c.(conditions := c'.conditions)
    && (forall x | x in c'.conditions && x.0 != r :: x in c.conditions && c.conditions[x] == c'.conditions[x])
    && (forall x | x in c.conditions && x.0 != r :: x in c'.conditions)
    && ConditionsIn(c', r) == conditions
  }

  lemma OtherDocs(c: Composition, c': Composition, r: nat, conditions: map<nat, ConditionRow>, s: nat)
    requires ConditionsReplaced(c, c', r, conditions)
    requires r in c.rules && s in c.rules
    ensures DocOf(c', s) == if s == r then DocOf(c, r).(conditions := conditions) else DocOf(c, s)
  {
    if s != r {
      assert ConditionsIn(c', s) == ConditionsIn(c, s);
    }
  }

  lemma ReplacedView(c: Composition, c': Composition, r: nat, conditions: map<nat, ConditionRow>, q: string)
    requires r in c.rules
    requires ConditionsReplaced(c, c', r, conditions)
    ensures RulesOf(c', q) ==
      if q == c.rules[r].permission then RulesOf(c, q)[r := DocOf(c, r).(conditions := conditions)] else RulesOf(c, q)
  {
    var expected := if q == c.rules[r].permission then RulesOf(c, q)[r := DocOf(c, r).(conditions := conditions)]
                    else RulesOf(c, q);
    assert c'.rules == c.rules;
    hide DocOf, ConditionsReplaced;
    forall s
      ensures s in RulesOf(c', q) <==> s in expected
      ensures s in expected ==> RulesOf(c', q)[s] == expected[s]
    {
      if s in c.rules {
        OtherDocs(c, c', r, conditions, s);
      }
    }
  }

  lemma ReplacedLinked(c: Composition, c': Composition, r: nat, conditions: map<nat, ConditionRow>)
    requires Linked(c) && r in c.rules
    requires ConditionsReplaced(c, c', r, conditions)
    ensures Linked(c')
  {
    forall x | x in c'.conditions
      ensures x.0 in c'.rules
    {
    }
  }
}
