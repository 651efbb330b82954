/** Making the composition tables match a permission file. */
module Spec {
  import opened Outcomes
  import opened Listing
  import opened Keys
  import opened Values
  import opened Base
  import opened Registry
  import opened Upserting
  import opened Tables
  import opened Views
  import opened SpecFile

  /** A live catalogue row, or why there is none. */
  method CatalogueOrFail<V(!new), N(==,!new)>(t: Table<V>, natural: V -> N, n: N, what: string) returns (r: Result<nat>)
    requires UniqueNatural(t, natural)
    ensures r.Ok? <==> LiveAt(t, natural, n)
    ensures r.Ok? ==> r.value in t && r.value == Pk(t, natural, n)
    ensures r.Err? ==> r.error == if Holds(t, natural, n) then RetiredRow(what) else MissingRow(what)
  {
    if !(exists a | a in t :: natural(t[a].cols) == n) {
      return Err(MissingRow(what));
    }
    var a :| a in t && natural(t[a].cols) == n;
    assert a == PkOf(t, natural, n);
    if !t[a].live {
      return Err(RetiredRow(what));
    }
    return Ok(a);
  }

  // ----- endpoints

  /** The pairs of this permission replaced by the wanted ones. */
  ghost predicate EndpointsReplaced(c: Composition, c': Composition, p: string, wanted: set<nat>) {
    && c' == c.(endpoints := c'.endpoints)
    && forall x :: x in c'.endpoints <==> if x.0 == p then x.1 in wanted else x in c.endpoints
  }

  method ReadEndpoints(cat: Catalogue, keys: seq<string>) returns (r: Result<set<nat>>)
    requires CatalogueValid(cat)
    ensures r.Ok? <==> EndpointsOk(cat, keys)
    ensures r.Ok? ==> r.value == WantedEndpoints(cat, keys)
  {
    var wanted: set<nat> := {};
    for i := 0 to |keys|
      invariant wanted == WantedEndpoints(cat, keys[..i])
      invariant forall k | k in keys[..i] :: LiveAt(cat.endpoints, EndpointNatural, k)
    {
      var row := CatalogueOrFail(cat.endpoints, EndpointNatural, keys[i], "endpoint");
      assert keys[..i + 1] == keys[..i] + [keys[i]];
      if row.Err? {
        assert keys[i] in keys;
        return Err(row.error);
      }
      wanted := wanted + {row.value};
    }
    assert keys[..|keys|] == keys;
    r := Ok(wanted);
  }

  /** Creates the pairs that are missing, then deletes those nobody wants. */
  method ReconcileEndpoints(c: Composition, p: string, wanted: set<nat>) returns (c': Composition, changed: bool)
    ensures EndpointsReplaced(c, c', p, wanted)
    ensures changed <==> c' != c
  {
    var existing := set x | x in c.endpoints && x.0 == p :: x.1;
    assert forall e :: e in existing <==> (p, e) in c.endpoints by {
      forall e | (p, e) in c.endpoints ensures e in existing {
        assert (p, e).1 == e;
      }
    }
    var pairs := c.endpoints;
    changed := false;
    var todo := wanted;
    while todo != {}
      invariant todo <= wanted
      invariant forall x :: x in pairs <==> x in c.endpoints || (x.0 == p && x.1 in wanted - todo)
      invariant changed <==> pairs != c.endpoints
      decreases |todo|
    {
      var e :| e in todo;
      todo := todo - {e};
      if e !in existing {
        pairs := pairs + {(p, e)};
        assert (p, e) !in c.endpoints;
        changed := true;
      }
    }
    todo := existing;
    while todo != {}
      invariant todo <= existing
      invariant forall x :: x in pairs <==>
        (x in c.endpoints || (x.0 == p && x.1 in wanted)) && !(x.0 == p && x.1 in existing - todo && x.1 !in wanted)
      invariant changed <==> pairs != c.endpoints
      decreases |todo|
    {
      var e :| e in todo;
      todo := todo - {e};
      if e !in wanted {
        pairs := pairs - {(p, e)};
        assert (p, e) in c.endpoints;
        changed := true;
      }
    }
    c' := c.(endpoints := pairs);
  }

  method ApplyEndpoints(cat: Catalogue, c: Composition, p: string, keys: seq<string>)
    returns (r: Result<bool>, c': Composition)
    requires CatalogueValid(cat)
    ensures r.Ok? <==> EndpointsOk(cat, keys)
    ensures r.Ok? ==> EndpointsReplaced(c, c', p, WantedEndpoints(cat, keys)) && (r.value <==> c' != c)
    ensures r.Err? ==> c' == c
  {
    var wanted := ReadEndpoints(cat, keys);
    if wanted.Err? {
      return Err(wanted.error), c;
    }
    var changed;
    c', changed := ReconcileEndpoints(c, p, wanted.value);
    r := Ok(changed);
  }

  lemma EndpointsReplacedView(c: Composition, c': Composition, p: string, wanted: set<nat>, q: string)
    requires EndpointsReplaced(c, c', p, wanted)
    ensures EndpointsOf(c', q) == if q == p then wanted else EndpointsOf(c, q)
    ensures RulesOf(c', q) == RulesOf(c, q) && GrantsOf(c', q) == GrantsOf(c, q)
    ensures Linked(c) && p in c.permissions ==> Linked(c')
  {
    forall e
      ensures e in EndpointsOf(c', q) <==> if q == p then e in wanted else e in EndpointsOf(c, q)
    {
      assert (q, e).1 == e;
      assert (q, e) in c'.endpoints <==> e in EndpointsOf(c', q);
      assert (q, e) in c.endpoints <==> e in EndpointsOf(c, q);
    }
    forall r | r in c.rules
      ensures DocOf(c', r) == DocOf(c, r)
    {
      assert ConditionsIn(c', r) == ConditionsIn(c, r);
    }
  }

  // ----- the conditions of one rule

  /** Validates the entries of a rule and keys them by filter. */
  method ReadEntries(cat: Catalogue, reg: Reg, owner: nat, entries: seq<ConditionEntry>)
    returns (r: Result<()>, wanted: map<nat, Params>, named: seq<nat>)
    requires CatalogueValid(cat)
    ensures r.Ok? <==> forall e | e in entries :: EntryOk(cat, reg, owner, e)
    ensures r.Ok? ==> wanted == WantedParams(cat, entries) && named == FirstNamed(cat, entries)
  {
    wanted, named := map[], [];
    for i := 0 to |entries|
      invariant wanted == WantedParams(cat, entries[..i]) && named == FirstNamed(cat, entries[..i])
      invariant forall e | e in entries[..i] :: EntryOk(cat, reg, owner, e)
    {
      var e := entries[i];
      assert entries[..i + 1][..i] == entries[..i];
      assert forall x :: x in entries[..i + 1] <==> x in entries[..i] || x == e;
      assert e in entries;
      var row := CatalogueOrFail(cat.filters, FilterNatural, e.filter, "filter");
      if row.Err? {
        return Err(row.error), wanted, named;
      }
      if cat.filters[row.value].cols.owner != owner {
        return Err(WrongObject(e.filter, "")), wanted, named;
      }
      if e.filter in reg.conditions {
        var bound := Bind(reg.conditions[e.filter], e.params);
        if bound.Err? {
          return Err(bound.error), wanted, named;
        }
      }
      if row.value !in named {
        named := named + [row.value];
      }
      wanted := wanted[row.value := e.params];
    }
    assert entries[..|entries|] == entries;
    r := Ok(());
  }

  ghost predicate Differs(mine: map<nat, ConditionRow>, g: Goal, f: nat)
    requires f in g.wanted
  {
    f !in mine || mine[f].params != g.wanted[f]
  }

  /** The conditions of a rule once the filters in `done` have been written. */
  ghost predicate Written(mine: map<nat, ConditionRow>, rows: map<nat, ConditionRow>, g: Goal, done: set<nat>,
                          changed: bool)
    requires Sensible(g) && done <= g.wanted.Keys
  {
    && (forall f | f !in done :: (f in rows <==> f in mine) && (f in rows ==> rows[f] == mine[f]))
    && (forall f | f in done :: f in rows && rows[f] == ConditionsAfter(mine, g)[f])
    && (changed <==> exists f :: f in done && Differs(mine, g, f))
  }

  lemma WrittenStep(mine: map<nat, ConditionRow>, rows: map<nat, ConditionRow>, g: Goal, done: set<nat>, changed: bool,
                    f: nat)
    requires Sensible(g) && done <= g.wanted.Keys && f in g.wanted && f !in done
    requires Written(mine, rows, g, done, changed)
    ensures Written(mine, rows[f := ConditionsAfter(mine, g)[f]], g, done + {f}, changed || Differs(mine, g, f))
  {
    forall x | x in done && Differs(mine, g, x)
      ensures x in done + {f}
    {
    }
  }

  /** Creates, updates, then deletes the conditions of one rule. */
  method ReconcileConditions(mine: map<nat, ConditionRow>, ghost g: Goal, wanted: map<nat, Params>, named: seq<nat>)
    returns (rows: map<nat, ConditionRow>, changed: bool)
    requires Sensible(g) && g.wanted == wanted && g.named == named
    ensures rows == ConditionsAfter(mine, g)
    ensures changed <==> rows != mine
  {
    rows, changed := WriteConditions(mine, g, wanted, named);
    ghost var written, was := rows, changed;
    var todo := mine.Keys;
    while todo != {}
      invariant todo <= mine.Keys
      invariant forall f :: f in rows <==> f in written && !(f in mine.Keys - todo && f !in wanted)
      invariant forall f | f in rows :: rows[f] == written[f]
      invariant changed <==> was || exists f :: f in mine.Keys - todo && f !in wanted
      decreases |todo|
    {
      var f :| f in todo;
      todo := todo - {f};
      if f !in wanted {
        rows := rows - {f};
        changed := true;
      }
    }
    Settle(mine, g, written, was, rows, changed);
  }

  /** One wanted condition: created where it is missing, its params corrected where they differ. */
  method WriteCondition(ghost mine: map<nat, ConditionRow>, rows: map<nat, ConditionRow>, ghost g: Goal,
                        ghost done: set<nat>, f: nat, params: Params, order: nat, changed: bool)
    returns (rows': map<nat, ConditionRow>, changed': bool)
    requires Sensible(g) && done <= g.wanted.Keys && f in g.wanted && f !in done
    requires params == g.wanted[f] && order == Position(g.named, f)
    requires Written(mine, rows, g, done, changed)
    ensures Written(mine, rows', g, done + {f}, changed')
  {
    rows', changed' := rows, changed;
    WrittenStep(mine, rows, g, done, changed, f);
    assert f in rows <==> f in mine;
    if f !in rows {
      rows' := rows[f := ConditionRow(params, order)];
      changed' := true;
    } else if rows[f].params != params {
      rows' := rows[f := rows[f].(params := params)];
      changed' := true;
    } else {
      assert rows == rows[f := ConditionsAfter(mine, g)[f]];
    }
  }

  ghost function NamedBefore(g: Goal, n: nat): (done: set<nat>)
    requires Sensible(g) && n <= |g.named|
    ensures done <= g.wanted.Keys
    ensures n == |g.named| ==> done == g.wanted.Keys
  {
    assert forall f | f in g.named[..n] :: f in g.named;
    assert g.named[..|g.named|] == g.named;
    set f | f in g.named[..n]
  }

  lemma NamedStep(g: Goal, n: nat)
    requires Sensible(g) && n < |g.named|
    ensures g.named[n] in g.wanted && g.named[n] !in NamedBefore(g, n) && Position(g.named, g.named[n]) == n
    ensures NamedBefore(g, n + 1) == NamedBefore(g, n) + {g.named[n]}
  {
    assert g.named[..n + 1] == g.named[..n] + [g.named[n]];
    assert g.named[n] in g.named;
  }

  /** Creates and updates, in the order the file names the filters. */
  method WriteConditions(mine: map<nat, ConditionRow>, ghost g: Goal, wanted: map<nat, Params>, named: seq<nat>)
    returns (rows: map<nat, ConditionRow>, changed: bool)
    requires Sensible(g) && g.wanted == wanted && g.named == named
    ensures Written(mine, rows, g, wanted.Keys, changed)
  {
    rows, changed := mine, false;
    ghost var done: set<nat> := {};
    for order := 0 to |named|
      invariant done == NamedBefore(g, order)
      invariant Written(mine, rows, g, done, changed)
    {
      var f := named[order];
      NamedStep(g, order);
      rows, changed := WriteCondition(mine, rows, g, done, f, wanted[f], order, changed);
      done := done + {f};
    }
  }

  lemma Settle(mine: map<nat, ConditionRow>, g: Goal, written: map<nat, ConditionRow>, was: bool,
               rows: map<nat, ConditionRow>, changed: bool)
    requires Sensible(g) && Written(mine, written, g, g.wanted.Keys, was)
    requires forall f :: f in rows <==> f in written && !(f in mine && f !in g.wanted)
    requires forall f | f in rows :: rows[f] == written[f]
    requires changed <==> was || exists f :: f in mine && f !in g.wanted
    ensures rows == ConditionsAfter(mine, g)
    ensures changed <==> rows != mine
  {
    if f :| f in g.wanted && Differs(mine, g, f) {
      assert rows[f].params == g.wanted[f];
    } else if f :| f in mine && f !in g.wanted {
      assert f !in rows;
    } else {
      assert !changed;
      forall f
        ensures f in rows <==> f in mine
        ensures f in rows ==> rows[f] == mine[f]
      {
        if f in g.wanted {
          assert !Differs(mine, g, f);
        }
      }
    }
  }

  /** The tables with one rule's conditions rewritten. */
  function WithConditions(c: Composition, rule: nat, rows: map<nat, ConditionRow>): Composition {
    c.(conditions := (map x | x in c.conditions && x.0 != rule :: c.conditions[x]) + map f | f in rows ::
      (rule, f) := rows[f])
  }

  lemma WithConditionsAt(c: Composition, rule: nat, rows: map<nat, ConditionRow>, x: (nat, nat))
    ensures x in WithConditions(c, rule, rows).conditions <==> if x.0 == rule then x.1 in rows else x in c.conditions
    ensures x in WithConditions(c, rule, rows).conditions ==>
      WithConditions(c, rule, rows).conditions[x] == if x.0 == rule then rows[x.1] else c.conditions[x]
  {
    assert x == (x.0, x.1);
  }

  lemma WithConditionsReplaced(c: Composition, rule: nat, rows: map<nat, ConditionRow>)
    ensures ConditionsReplaced(c, WithConditions(c, rule, rows), rule, rows)
    ensures rows == ConditionsIn(c, rule) ==> WithConditions(c, rule, rows) == c
  {
    RowsInPlace(c, rule, rows);
    if rows == ConditionsIn(c, rule) {
      SameConditionsSameTables(c, rule);
    }
    hide ConditionsIn;
    forall x: (nat, nat) | x.0 != rule
      ensures x in WithConditions(c, rule, rows).conditions <==> x in c.conditions
      ensures x in c.conditions ==> WithConditions(c, rule, rows).conditions[x] == c.conditions[x]
    {
      WithConditionsAt(c, rule, rows, x);
    }
  }

  lemma RowsInPlace(c: Composition, rule: nat, rows: map<nat, ConditionRow>)
    ensures ConditionsIn(WithConditions(c, rule, rows), rule) == rows
  {
    hide ConditionsIn, WithConditions;
    var c' := WithConditions(c, rule, rows);
    forall f
      ensures f in ConditionsIn(c', rule) <==> f in rows
      ensures f in rows ==> ConditionsIn(c', rule)[f] == rows[f]
    {
      InConditions(c', rule, f);
      WithConditionsAt(c, rule, rows, (rule, f));
    }
  }

  lemma SameConditionsSameTables(c: Composition, rule: nat)
    ensures WithConditions(c, rule, ConditionsIn(c, rule)) == c
  {
    var rows := ConditionsIn(c, rule);
    var c' := WithConditions(c, rule, rows);
    assert c' == c.(conditions := c'.conditions);
    hide ConditionsIn, WithConditions;
    forall x: (nat, nat)
      ensures x in c'.conditions <==> x in c.conditions
      ensures x in c.conditions ==> c'.conditions[x] == c.conditions[x]
    {
      WithConditionsAt(c, rule, rows, x);
      InConditions(c, rule, x.1);
      assert x == (x.0, x.1);
    }
    assert c'.conditions == c.conditions;
  }

  // ----- one rule

  ghost predicate RulesBelow(c: Composition, next: nat) {
    forall r | r in c.rules :: r < next
  }

  /** `get_or_create` on the four columns that tell rules apart; nothing in the schema keeps them unique, so
      finding two is an error. */
  method GetOrCreateRule(c: Composition, p: string, id: Ident, order: nat, next: nat)
    returns (r: Result<(nat, bool)>, c': Composition, next': nat)
    requires RulesBelow(c, next)
    ensures r.Ok? <==> AtMostOne(RulesOf(c, p), id)
    ensures r.Ok? && r.value.1 ==> r.value.0 == next && next' == next + 1 && !HasIdent(RulesOf(c, p), id)
    ensures r.Ok? && r.value.1 ==> c' == WithRule(c, next, RuleRow(p, id.0, id.1, id.2, order))
    ensures r.Ok? && !r.value.1 ==> c' == c && next' == next
    ensures r.Ok? && !r.value.1 ==> r.value.0 in RulesOf(c, p) && IdentOfDoc(RulesOf(c, p)[r.value.0]) == id
    ensures r.Err? ==> c' == c && next' == next
  {
    var found := set r | r in c.rules && c.rules[r].permission == p
                         && (c.rules[r].owner, c.rules[r].verb, c.rules[r].title) == id;
    assert forall r :: r in found <==> r in RulesOf(c, p) && IdentOfDoc(RulesOf(c, p)[r]) == id;
    c', next' := c, next;
    if found == {} {
      c' := WithRule(c, next, RuleRow(p, id.0, id.1, id.2, order));
      return Ok((next, true)), c', next + 1;
    }
    var rule :| rule in found;
    if found != {rule} {
      assert exists s :: s in found && s != rule;
      return Err(MultipleRows("rule")), c, next;
    }
    assert forall s | s in found :: s in {rule};
    return Ok((rule, false)), c, next;
  }

  /** One rule of `p` brought to its goal: everything else in the tables is as it was. */
  ghost predicate RuleSet(c: Composition, c': Composition, p: string, id: Ident, g: Goal, rule: nat, next: nat)
    requires Sensible(g)
  {
    var d, d' := RulesOf(c, p), RulesOf(c', p);
    && c' == c.(rules := c'.rules, conditions := c'.conditions)
    && (forall q | q != p :: RulesOf(c', q) == RulesOf(c, q))
    && d' == d[rule := Settled(id, g, Was(d, rule))]
    && (if rule in d then IdentOfDoc(d[rule]) == id else rule >= next && !HasIdent(d, id))
  }

  method SetRule(cat: Catalogue, reg: Reg, c: Composition, p: string, e: RuleEntry, owner: nat, index: nat, next: nat)
    returns (r: Result<bool>, c': Composition, next': nat, ghost rule: nat)
    requires CatalogueValid(cat) && Linked(c) && p in c.permissions && RulesBelow(c, next)
    requires owner == IdentOf(cat, e).0
    ensures r.Ok? <==>
      AtMostOne(RulesOf(c, p), IdentOf(cat, e)) && forall x | x in e.conditions :: EntryOk(cat, reg, owner, x)
    ensures r.Ok? ==> RuleSet(c, c', p, IdentOf(cat, e), GoalOf(cat, index, e), rule, next)
    ensures r.Ok? ==> Linked(c') && RulesBelow(c', next') && next <= next'
    ensures r.Ok? ==> (r.value <==> RulesOf(c', p) != RulesOf(c, p)) && (!r.value ==> c' == c)
  {
    var id := (owner, RPartition(e.key).verb, e.title);
    var got;
    got, c', next' := GetOrCreateRule(c, p, id, index, next);
    rule := 0;
    if got.Err? {
      return Err(got.error), c', next', rule;
    }
    rule := got.value.0;
    var read, wanted, named := ReadEntries(cat, reg, owner, e.conditions);
    if read.Err? {
      return Err(read.error), c', next', rule;
    }
    var mine := ConditionsIn(c', got.value.0);
    var rows, rewritten := ReconcileConditions(mine, GoalOf(cat, index, e), wanted, named);
    ghost var c1 := c';
    c' := WithConditions(c', got.value.0, rows);
    if got.value.1 {
      CreatedIsSet(c, c1, c', p, id, GoalOf(cat, index, e), next);
    } else {
      FoundIsSet(c, c', p, id, GoalOf(cat, index, e), rule, next);
    }
    r := Ok(got.value.1 || rewritten);
  }

  lemma RuleFact(c: Composition, p: string, rule: nat)
    ensures rule in RulesOf(c, p) <==> rule in c.rules && c.rules[rule].permission == p
    ensures rule in RulesOf(c, p) ==> RulesOf(c, p)[rule] == DocOf(c, rule)
  {
  }

  lemma FoundView(c: Composition, c': Composition, id: Ident, g: Goal, rule: nat, q: string)
    requires Sensible(g) && rule in c.rules && IdentOfDoc(DocOf(c, rule)) == id
    requires ConditionsReplaced(c, c', rule, ConditionsAfter(ConditionsIn(c, rule), g))
    ensures RulesOf(c', q) == if q == c.rules[rule].permission then RulesOf(c,
      q)[rule := Settled(id, g, Some(DocOf(c, rule)))]
                              else RulesOf(c, q)
  {
    hide RulesOf, ConditionsIn, ConditionsAfter;
    ReplacedView(c, c', rule, ConditionsAfter(ConditionsIn(c, rule), g), q);
  }

  /** A rule that was there, given its conditions. */
  lemma FoundIsSet(c: Composition, c': Composition, p: string, id: Ident, g: Goal, rule: nat, next: nat)
    requires Sensible(g) && Linked(c) && RulesBelow(c, next)
    requires rule in RulesOf(c, p) && IdentOfDoc(RulesOf(c, p)[rule]) == id
    requires c' == WithConditions(c, rule, ConditionsAfter(ConditionsIn(c, rule), g))
    ensures RuleSet(c, c', p, id, g, rule, next)
    ensures Linked(c') && RulesBelow(c', next)
    ensures ConditionsAfter(ConditionsIn(c, rule), g) != ConditionsIn(c, rule) <==> RulesOf(c', p) != RulesOf(c, p)
    ensures ConditionsAfter(ConditionsIn(c, rule), g) == ConditionsIn(c, rule) ==> c' == c
  {
    hide RulesOf, ConditionsIn, ConditionsAfter, ConditionsReplaced;
    RuleFact(c, p, rule);
    var rows := ConditionsAfter(ConditionsIn(c, rule), g);
    WithConditionsReplaced(c, rule, rows);
    ReplacedLinked(c, c', rule, rows);
    forall q
      ensures RulesOf(c', q) == if q == p then RulesOf(c,
        q)[rule := Settled(id, g, Some(DocOf(c, rule)))] else RulesOf(c, q)
    {
      FoundView(c, c', id, g, rule, q);
    }
    ReplacedConditions(c, c', rule, rows);
    RuleFact(c', p, rule);
  }

  lemma ReplacedConditions(c: Composition, c': Composition, rule: nat, rows: map<nat, ConditionRow>)
    requires ConditionsReplaced(c, c', rule, rows)
    ensures ConditionsIn(c', rule) == rows && c'.rules == c.rules
  {
  }

  /** A rule just created, given its conditions. */
  lemma CreatedIsSet(c: Composition, c1: Composition, c': Composition, p: string, id: Ident, g: Goal, next: nat)
    requires Sensible(g) && Linked(c) && p in c.permissions && RulesBelow(c, next)
    requires !HasIdent(RulesOf(c, p), id)
    requires c1 == WithRule(c, next, RuleRow(p, id.0, id.1, id.2, g.index))
    requires c' == WithConditions(c1, next, ConditionsAfter(ConditionsIn(c1, next), g))
    ensures RuleSet(c, c', p, id, g, next, next)
    ensures Linked(c') && RulesBelow(c', next + 1) && RulesOf(c', p) != RulesOf(c, p)
  {
    hide RulesOf, ConditionsIn, ConditionsAfter, ConditionsReplaced, HasIdent, Linked, WithConditions, WithRule;
    RuleFact(c, p, next);
    CreatedFrame(c, c1, c', p, id, g, next);
    forall q
      ensures RulesOf(c', q) == if q == p then RulesOf(c, q)[next := Settled(id, g, None)] else RulesOf(c, q)
    {
      CreatedView(c, c1, c', id, g, next, p, q);
    }
    RuleFact(c', p, next);
  }

  lemma CreatedFrame(c: Composition, c1: Composition, c': Composition, p: string, id: Ident, g: Goal, next: nat)
    requires Sensible(g) && Linked(c) && p in c.permissions && RulesBelow(c, next)
    requires c1 == WithRule(c, next, RuleRow(p, id.0, id.1, id.2, g.index))
    requires c' == WithConditions(c1, next, ConditionsAfter(ConditionsIn(c1, next), g))
    ensures next !in c.rules && Linked(c') && RulesBelow(c', next + 1)
    ensures ConditionsIn(c1, next) == map[] && ConditionsReplaced(c1, c', next, ConditionsAfter(map[], g))
    ensures c' == c.(rules := c'.rules, conditions := c'.conditions)
  {
    hide ConditionsIn, ConditionsAfter, Linked;
    WithRuleLinked(c, next, RuleRow(p, id.0, id.1, id.2, g.index));
    var rows := ConditionsAfter(map[], g);
    WithConditionsReplaced(c1, next, rows);
    ReplacedLinked(c1, c', next, rows);
  }

  lemma CreatedView(c: Composition, c1: Composition, c': Composition, id: Ident, g: Goal, next: nat, p: string,
                    q: string)
    requires Sensible(g) && Linked(c) && next !in c.rules
    requires c1 == WithRule(c, next, RuleRow(p, id.0, id.1, id.2, g.index))
    requires ConditionsReplaced(c1, c', next, ConditionsAfter(map[], g))
    ensures RulesOf(c', q) == if q == p then RulesOf(c, q)[next := Settled(id, g, None)] else RulesOf(c, q)
  {
    hide RulesOf, ConditionsIn, ConditionsAfter;
    ReplacedView(c1, c', next, ConditionsAfter(map[], g), q);
    WithRuleView(c, next, c1.rules[next], q);
  }

  // ----- all rules of a permission

  /** A rule that already is what its goal asks for. */
  ghost predicate There(d: map<nat, RuleDoc>, id: Ident, g: Goal)
    requires Sensible(g)
  {
    exists r :: r in d && IdentOfDoc(d[r]) == id && d[r] == Settled(id, g, Some(d[r]))
  }

  /** The rules of a permission while the goals in `done` have been dealt with. */
  ghost predicate RulesPartly(d0: map<nat, RuleDoc>, d: map<nat, RuleDoc>, done: map<Ident, Goal>, lo: nat)
    requires forall id | id in done :: Sensible(done[id])
  {
    && (forall r | r in d0 :: r in d && IdentOfDoc(d[r]) == IdentOfDoc(d0[r]))
    && (forall r | r in d && r !in d0 :: r >= lo && IdentOfDoc(d[r]) in done)
    && (forall r | r in d ::
      d[r] == if IdentOfDoc(d[r]) in done then Settled(IdentOfDoc(d[r]), done[IdentOfDoc(d[r])], Was(d0, r))
                                     else Was(d0, r).GetOr(d[r]))
    && (forall id {:trigger HasIdent(d, id)} | id in done :: HasIdent(d, id))
    && (forall id {:trigger AtMostOne(d, id)} | id in done :: AtMostOne(d, id))
  }

  lemma SettledIdent(id: Ident, g: Goal, was: Option<RuleDoc>)
    requires Sensible(g)
    ensures IdentOfDoc(Settled(id, g, was)) == id
  {
  }

  /** Before its turn a goal finds exactly the rules there were for it. */
  lemma UntouchedIdent(d0: map<nat, RuleDoc>, d: map<nat, RuleDoc>, done: map<Ident, Goal>, lo: nat, id: Ident)
    requires forall i | i in done :: Sensible(done[i])
    requires RulesPartly(d0, d, done, lo) && id !in done
    ensures AtMostOne(d, id) <==> AtMostOne(d0, id)
    ensures HasIdent(d, id) <==> HasIdent(d0, id)
    ensures forall r | r in d && IdentOfDoc(d[r]) == id :: r in d0 && d0[r] == d[r]
  {
    if r :| r in d0 && IdentOfDoc(d0[r]) == id {
      assert r in d && IdentOfDoc(d[r]) == id;
    }
  }

  /** `d'` is `d` with one rule brought to its goal. */
  ghost predicate OneSettled(d: map<nat, RuleDoc>, d': map<nat, RuleDoc>, lo: nat, id: Ident, g: Goal, rule: nat)
    requires Sensible(g)
  {
    && d' == d[rule := Settled(id, g, Was(d, rule))]
    && if rule in d then IdentOfDoc(d[rule]) == id else rule >= lo && !HasIdent(d, id)
  }

  lemma RulesStep(d0: map<nat, RuleDoc>, d: map<nat, RuleDoc>, d': map<nat, RuleDoc>, done: map<Ident, Goal>, lo: nat,
                  id: Ident, g: Goal, rule: nat)
    requires Sensible(g) && forall i | i in done :: Sensible(done[i])
    requires RulesPartly(d0, d, done, lo) && id !in done && AtMostOne(d0, id)
    requires OneSettled(d, d', lo, id, g, rule)
    ensures RulesPartly(d0, d', done[id := g], lo)
    ensures d' != d <==> !There(d0, id, g)
  {
    StepRows(d0, d, d', done, lo, id, g, rule);
    StepIdents(d0, d, d', done, lo, id, g, rule);
    StepChange(d0, d, d', done, lo, id, g, rule);
  }

  lemma StepRows(d0: map<nat, RuleDoc>, d: map<nat, RuleDoc>, d': map<nat, RuleDoc>, done: map<Ident, Goal>, lo: nat,
                 id: Ident, g: Goal, rule: nat)
    requires Sensible(g) && forall i | i in done :: Sensible(done[i])
    requires RulesPartly(d0, d, done, lo) && id !in done && AtMostOne(d0, id)
    requires OneSettled(d, d', lo, id, g, rule)
    ensures forall r | r in d0 :: r in d' && IdentOfDoc(d'[r]) == IdentOfDoc(d0[r])
    ensures forall r | r in d' && r !in d0 :: r >= lo && IdentOfDoc(d'[r]) in done[id := g]
    ensures forall r | r in d' :: d'[r] == if IdentOfDoc(d'[r]) in done[id := g]
      then Settled(IdentOfDoc(d'[r]), done[id := g][IdentOfDoc(d'[r])], Was(d0, r)) else Was(d0, r).GetOr(d'[r])
  {
    UntouchedIdent(d0, d, done, lo, id);
    SettledIdent(id, g, Was(d, rule));
    hide Settled, HasIdent, AtMostOne;
    assert Was(d, rule) == Was(d0, rule);
    forall r | r in d'
      ensures d'[r] == if IdentOfDoc(d'[r]) in done[id := g]
        then Settled(IdentOfDoc(d'[r]), done[id := g][IdentOfDoc(d'[r])], Was(d0, r)) else Was(d0, r).GetOr(d'[r])
    {
      if r != rule {
        assert d'[r] == d[r];
        if IdentOfDoc(d[r]) == id {
          StepUnique(d, d', id, rule, r);
        }
      }
    }
  }

  lemma StepIdents(d0: map<nat, RuleDoc>, d: map<nat, RuleDoc>, d': map<nat, RuleDoc>, done: map<Ident, Goal>, lo: nat,
                   id: Ident, g: Goal, rule: nat)
    requires Sensible(g) && forall i | i in done :: Sensible(done[i])
    requires RulesPartly(d0, d, done, lo) && id !in done && AtMostOne(d0, id)
    requires OneSettled(d, d', lo, id, g, rule)
    ensures forall i {:trigger HasIdent(d', i)} | i in done[id := g] :: HasIdent(d', i)
    ensures forall i {:trigger AtMostOne(d', i)} | i in done[id := g] :: AtMostOne(d', i)
  {
    UntouchedIdent(d0, d, done, lo, id);
    SettledIdent(id, g, Was(d, rule));
    hide Settled, HasIdent, AtMostOne, Sensible;
    forall i | i in done[id := g]
      ensures HasIdent(d', i) && AtMostOne(d', i)
    {
      if i == id {
        OwnIdent(d, d', id, rule);
      } else {
        OtherIdent(d, d', id, rule, i);
      }
    }
  }

  lemma OwnIdent(d: map<nat, RuleDoc>, d': map<nat, RuleDoc>, id: Ident, rule: nat)
    requires rule in d' && d' == d[rule := d'[rule]] && IdentOfDoc(d'[rule]) == id && AtMostOne(d, id)
    requires if rule in d then IdentOfDoc(d[rule]) == id else !HasIdent(d, id)
    ensures HasIdent(d', id) && AtMostOne(d', id)
  {
    forall r | r in d' && IdentOfDoc(d'[r]) == id
      ensures r == rule
    {
      StepUnique(d, d', id, rule, r);
    }
  }

  lemma OtherIdent(d: map<nat, RuleDoc>, d': map<nat, RuleDoc>, id: Ident, rule: nat, i: Ident)
    requires rule in d' && d' == d[rule := d'[rule]] && IdentOfDoc(d'[rule]) == id && i != id
    requires rule in d ==> IdentOfDoc(d[rule]) == id
    requires HasIdent(d, i) && AtMostOne(d, i)
    ensures HasIdent(d', i) && AtMostOne(d', i)
  {
    var r :| r in d && IdentOfDoc(d[r]) == i;
    assert r in d' && IdentOfDoc(d'[r]) == i;
  }

  lemma StepChange(d0: map<nat, RuleDoc>, d: map<nat, RuleDoc>, d': map<nat, RuleDoc>, done: map<Ident, Goal>, lo: nat,
                   id: Ident, g: Goal, rule: nat)
    requires Sensible(g) && forall i | i in done :: Sensible(done[i])
    requires RulesPartly(d0, d, done, lo) && id !in done && AtMostOne(d0, id)
    requires OneSettled(d, d', lo, id, g, rule)
    ensures d' != d <==> !There(d0, id, g)
  {
    UntouchedIdent(d0, d, done, lo, id);
    hide Settled, RulesPartly;
    if There(d0, id, g) {
      var r :| r in d0 && IdentOfDoc(d0[r]) == id && d0[r] == Settled(id, g, Some(d0[r]));
      assert HasIdent(d0, id);
      assert rule in d && rule in d0;
    } else if rule in d {
      assert rule in d0 && d0[rule] == d[rule];
    }
  }

  lemma StepUnique(d: map<nat, RuleDoc>, d': map<nat, RuleDoc>, id: Ident, rule: nat, r: nat)
    requires d'.Keys == d.Keys + {rule} && forall x | x in d' && x != rule :: d'[x] == d[x]
    requires AtMostOne(d, id)
    requires if rule in d then IdentOfDoc(d[rule]) == id else !HasIdent(d, id)
    requires r in d' && IdentOfDoc(d'[r]) == id
    ensures r == rule
  {
    if r != rule {
      assert r in d && IdentOfDoc(d[r]) == id;
      assert HasIdent(d, id);
    }
  }

  function Doomed(c: Composition, p: string, seen: set<Ident>): set<nat> {
    set r | r in c.rules && c.rules[r].permission == p && (c.rules[r].owner, c.rules[r].verb, c.rules[r].title) !in seen
  }

  /** Deletes the rules of a permission the file does not name. */
  method RemoveRules(c: Composition, p: string, seen: set<Ident>) returns (c': Composition, changed: bool)
    requires Linked(c)
    ensures Linked(c') && c' == c.(rules := c'.rules, conditions := c'.conditions) && c'.rules.Keys <= c.rules.Keys
    ensures forall q | q != p :: RulesOf(c', q) == RulesOf(c, q)
    ensures RulesOf(c', p) == Surviving(RulesOf(c, p), seen)
    ensures changed <==> RulesOf(c', p) != RulesOf(c, p)
    ensures !changed ==> c' == c
  {
    c', changed := c, false;
    var doomed := Doomed(c, p, seen);
    ghost var gone: set<nat> := {};
    var todo := doomed;
    NoneWithout(c);
    hide Linked, Without, RulesOf, Surviving, Doomed;
    while todo != {}
      invariant gone <= doomed && todo == doomed - gone
      invariant Linked(c') && c' == c.(rules := c'.rules, conditions := c'.conditions) && c'.rules.Keys <= c.rules.Keys
      invariant Without(c, c', gone)
      invariant changed <==> gone != {}
      invariant !changed ==> c' == c
      decreases |todo|
    {
      var r :| r in todo;
      c' := RemoveRule(c, c', gone, r);
      gone := gone + {r};
      todo := todo - {r};
      changed := true;
    }
    assert gone == doomed;
    RemovedRules(c, c', p, seen, doomed);
  }

  /** The rules whose ident was seen. */
  ghost function Surviving(d: map<nat, RuleDoc>, seen: set<Ident>): map<nat, RuleDoc> {
    map r | r in d && IdentOfDoc(d[r]) in seen :: d[r]
  }

  /** The views of every permission lack exactly these rules. */
  ghost predicate Without(c: Composition, c': Composition, gone: set<nat>) {
    forall q :: RulesOf(c', q) == RulesOf(c, q) - gone
  }

  lemma NoneWithout(c: Composition)
    ensures Without(c, c, {})
  {
    hide RulesOf;
  }

  method RemoveRule(ghost c: Composition, c': Composition, ghost gone: set<nat>, r: nat) returns (c'': Composition)
    requires Linked(c') && Without(c, c', gone)
    ensures Linked(c'') && Without(c, c'', gone + {r})
    ensures c'' == c'.(rules := c''.rules, conditions := c''.conditions) && c''.rules.Keys <= c'.rules.Keys
  {
    c'' := WithoutRule(c', r);
    WithoutRuleView(c', r, "");
    forall q
      ensures RulesOf(c'', q) == RulesOf(c, q) - (gone + {r})
    {
      WithoutRuleView(c', r, q);
    }
  }

  lemma DoomedRule(c: Composition, p: string, seen: set<Ident>, q: string, r: nat)
    ensures r in RulesOf(c, q) && r in Doomed(c, p, seen) ==> q == p && IdentOfDoc(RulesOf(c, q)[r]) !in seen
    ensures r in RulesOf(c, p) && r !in Doomed(c, p, seen) ==> IdentOfDoc(RulesOf(c, p)[r]) in seen
    ensures r in Doomed(c, p, seen) ==> r in RulesOf(c, p)
  {
    RuleFact(c, q, r);
    RuleFact(c, p, r);
    hide RulesOf;
  }

  lemma RemovedRules(c: Composition, c': Composition, p: string, seen: set<Ident>, doomed: set<nat>)
    requires Without(c, c', doomed) && doomed == Doomed(c, p, seen)
    ensures forall q | q != p :: RulesOf(c', q) == RulesOf(c, q)
    ensures RulesOf(c', p) == Surviving(RulesOf(c, p), seen)
    ensures doomed != {} <==> RulesOf(c', p) != RulesOf(c, p)
  {
    hide RulesOf, Doomed, IdentOfDoc;
    forall q, r
      ensures r in RulesOf(c, q) && r in doomed ==> q == p && IdentOfDoc(RulesOf(c, q)[r]) !in seen
      ensures r in RulesOf(c, p) && r !in doomed ==> IdentOfDoc(RulesOf(c, p)[r]) in seen
      ensures r in doomed ==> r in RulesOf(c, p)
    {
      DoomedRule(c, p, seen, q, r);
    }
    forall q
      ensures RulesOf(c', q) == RulesOf(c, q) - doomed
    {
    }
  }

  lemma {:induction false} GoalsNamed(cat: Catalogue, rules: seq<RuleEntry>, id: Ident)
    ensures id in Goals(cat, rules) <==> exists i :: 0 <= i < |rules| && IdentOf(cat, rules[i]) == id
  {
    if rules != [] {
      var init := rules[..|rules| - 1];
      GoalsNamed(cat, init, id);
      if i :| 0 <= i < |rules| && IdentOf(cat, rules[i]) == id {
        if i < |rules| - 1 {
          assert init[i] == rules[i];
        }
      }
    }
  }

  /** Some goal was not met before the run. */
  ghost predicate AnyAway(d0: map<nat, RuleDoc>, goals: map<Ident, Goal>)
    requires forall i | i in goals :: Sensible(goals[i])
  {
    exists id :: id in goals && !There(d0, id, goals[id])
  }

  /** Where the loop over the rules of one permission stands. */
  ghost predicate RulesLoop(cat: Catalogue, reg: Reg, c0: Composition, c: Composition, p: string, dealt: seq<RuleEntry>,
                            lo: nat, next: nat, changed: bool)
  {
    && Linked(c) && RulesBelow(c, next) && lo <= next
    && c == c0.(rules := c.rules, conditions := c.conditions)
    && (forall q | q != p :: RulesOf(c, q) == RulesOf(c0, q))
    && RulesPartly(RulesOf(c0, p), RulesOf(c, p), Goals(cat, dealt), lo)
    && RulesOk(cat, reg, RulesOf(c0, p), dealt)
    && (changed <==> AnyAway(RulesOf(c0, p), Goals(cat, dealt)))
    && (!changed ==> c == c0)
  }

  lemma RulesOkStep(cat: Catalogue, reg: Reg, d0: map<nat, RuleDoc>, dealt: seq<RuleEntry>, e: RuleEntry)
    requires RulesOk(cat, reg, d0, dealt)
    requires RuleOk(cat, reg, e) && AtMostOne(d0, IdentOf(cat, e)) && IdentOf(cat, e) !in Goals(cat, dealt)
    ensures RulesOk(cat, reg, d0, dealt + [e])
  {
    hide RuleOk, AtMostOne, Goals;
    forall i | 0 <= i < |dealt|
      ensures IdentOf(cat, dealt[i]) != IdentOf(cat, e)
    {
      GoalsNamed(cat, dealt, IdentOf(cat, dealt[i]));
    }
  }

  lemma GoalsStep(cat: Catalogue, dealt: seq<RuleEntry>, e: RuleEntry)
    ensures Goals(cat, dealt + [e]) == Goals(cat, dealt)[IdentOf(cat, e) := GoalOf(cat, |dealt|, e)]
    ensures Sensible(GoalOf(cat, |dealt|, e))
  {
    assert (dealt + [e])[..|dealt|] == dealt;
  }

  lemma LoopStep(cat: Catalogue, reg: Reg, c0: Composition, c: Composition, c': Composition, p: string,
                 dealt: seq<RuleEntry>, e: RuleEntry, lo: nat, next: nat, next': nat, changed: bool, altered: bool,
                 rule: nat)
    requires RulesLoop(cat, reg, c0, c, p, dealt, lo, next, changed)
    requires IdentOf(cat, e) !in Goals(cat, dealt) && RuleOk(cat, reg, e) && AtMostOne(RulesOf(c, p), IdentOf(cat, e))
    requires RuleSet(c, c', p, IdentOf(cat, e), GoalOf(cat, |dealt|, e), rule, next)
    requires Linked(c') && RulesBelow(c', next') && next <= next'
    requires altered <==> RulesOf(c', p) != RulesOf(c, p)
    requires !altered ==> c' == c
    ensures RulesLoop(cat, reg, c0, c', p, dealt + [e], lo, next', changed || altered)
  {
    var id, g := IdentOf(cat, e), GoalOf(cat, |dealt|, e);
    var d0, d, d' := RulesOf(c0, p), RulesOf(c, p), RulesOf(c', p);
    hide RulesOf, Goals, RulesPartly, There, AtMostOne, HasIdent, RuleOk, RulesOk, Linked, RulesBelow, AnyAway,
      RuleSet, OneSettled, IdentOf, GoalOf;
    UntouchedIdent(d0, d, Goals(cat, dealt), lo, id);
    SetFrame(c0, c, c', p, id, g, rule, lo, next);
    RulesStep(d0, d, d', Goals(cat, dealt), lo, id, g, rule);
    GoalsStep(cat, dealt, e);
    RulesOkStep(cat, reg, d0, dealt, e);
    AwayStep(d0, Goals(cat, dealt), id, g);
  }

  lemma SetFrame(c0: Composition, c: Composition, c': Composition, p: string, id: Ident, g: Goal, rule: nat, lo: nat,
                 next: nat)
    requires Sensible(g) && RuleSet(c, c', p, id, g, rule, next) && lo <= next
    requires c == c0.(rules := c.rules, conditions := c.conditions)
    requires forall q | q != p :: RulesOf(c, q) == RulesOf(c0, q)
    ensures OneSettled(RulesOf(c, p), RulesOf(c', p), lo, id, g, rule)
    ensures c' == c0.(rules := c'.rules, conditions := c'.conditions)
    ensures forall q | q != p :: RulesOf(c', q) == RulesOf(c0, q)
  {
    hide RulesOf, HasIdent, Settled;
  }

  lemma AwayStep(d0: map<nat, RuleDoc>, goals: map<Ident, Goal>, id: Ident, g: Goal)
    requires Sensible(g) && forall i | i in goals :: Sensible(goals[i])
    requires id !in goals
    ensures AnyAway(d0, goals[id := g]) <==> AnyAway(d0, goals) || !There(d0, id, g)
  {
    hide There;
    var goals' := goals[id := g];
    if AnyAway(d0, goals) {
      var i :| i in goals && !There(d0, i, goals[i]);
      assert i in goals' && goals'[i] == goals[i];
    } else if !There(d0, id, g) {
      assert id in goals' && goals'[id] == g;
    }
  }

  /** One entry of the loop: its key, its object, a label not used before, its row and its conditions. */
  method ApplyRule(cat: Catalogue, reg: Reg, ghost c0: Composition, c: Composition, p: string,
                   ghost dealt: seq<RuleEntry>, e: RuleEntry, index: nat, seen: set<Ident>, ghost lo: nat, next: nat,
                   changed: bool)
    returns (r: Result<bool>, c': Composition, next': nat, seen': set<Ident>)
    requires CatalogueValid(cat) && p in c.permissions && index == |dealt|
    requires RulesLoop(cat, reg, c0, c, p, dealt, lo, next, changed)
    requires seen == Goals(cat, dealt).Keys
    ensures r.Ok? <==>
      RuleOk(cat, reg, e) && AtMostOne(RulesOf(c0, p), IdentOf(cat, e)) && IdentOf(cat, e) !in Goals(cat, dealt)
    ensures r.Ok? ==> RulesLoop(cat, reg, c0, c', p, dealt + [e], lo, next', r.value)
    ensures r.Ok? ==> seen' == Goals(cat, dealt + [e]).Keys && c'.permissions == c.permissions
  {
    c', next', seen' := c, next, seen;
    hide RulesPartly, RulesOf, RulesOk, AtMostOne, HasIdent, Settled, EntryOk, AnyAway, Goals;
    if !SplitOk(e.key) {
      return Err(MalformedKey(e.key)), c', next', seen';
    }
    var owner := CatalogueOrFail(cat.objects, ObjectNatural, RPartition(e.key).objectKey, "object");
    if owner.Err? {
      return Err(owner.error), c', next', seen';
    }
    var id := (owner.value, RPartition(e.key).verb, e.title);
    if id in seen {
      return Err(DuplicateRule(e.key)), c', next', seen';
    }
    UntouchedIdent(RulesOf(c0, p), RulesOf(c, p), Goals(cat, dealt), lo, id);
    var placed;
    ghost var rule;
    placed, c', next', rule := SetRule(cat, reg, c, p, e, owner.value, index, next);
    if placed.Err? {
      return Err(placed.error), c', next', seen';
    }
    seen' := seen + {id};
    LoopStep(cat, reg, c0, c, c', p, dealt, e, lo, next, next', changed, placed.value, rule);
    GoalsStep(cat, dealt, e);
    r := Ok(changed || placed.value);
  }

  /** The rules of `p` are the file's, every other permission's are as they were, and a change was reported
      exactly when they did not match before. */
  ghost predicate RulesWritten(cat: Catalogue, c: Composition, c': Composition, p: string, rules: seq<RuleEntry>,
                               next: nat, next': nat, changed: bool) {
    && RulesApplied(RulesOf(c, p), RulesOf(c', p), Goals(cat, rules), next)
    && (forall q | q != p :: RulesOf(c', q) == RulesOf(c, q))
    && Linked(c') && RulesBelow(c', next') && next <= next'
    && c' == c.(rules := c'.rules, conditions := c'.conditions)
    && (changed <==> !RulesMatch(RulesOf(c, p), Goals(cat, rules)))
    && (!changed ==> c' == c)
  }

  method ApplyRules(cat: Catalogue, reg: Reg, c: Composition, p: string, rules: seq<RuleEntry>, next: nat)
    returns (r: Result<bool>, c': Composition, next': nat)
    requires CatalogueValid(cat) && Linked(c) && p in c.permissions && RulesBelow(c, next)
    ensures r.Ok? <==> RulesOk(cat, reg, RulesOf(c, p), rules)
    ensures r.Ok? ==> RulesWritten(cat, c, c', p, rules, next, next', r.value)
  {
    c', next' := c, next;
    var changed := false;
    var seen: set<Ident> := {};
    ghost var dealt: seq<RuleEntry> := [];
    LoopStart(cat, reg, c, p, next);
    assert Dealt(dealt, rules, 0);
    hide RulesLoop, RulesOf, RulesOk, AtMostOne, RulesWritten, RuleOk, CatalogueValid, Linked, RulesBelow, Surviving,
      Goals, Sensible, Dealt;
    for i := 0 to |rules|
      invariant Dealt(dealt, rules, i)
      invariant RulesLoop(cat, reg, c, c', p, dealt, next, next', changed)
      invariant seen == Goals(cat, dealt).Keys && c'.permissions == c.permissions
    {
      var one;
      DealtNext(dealt, rules, i);
      one, c', next', seen := ApplyRule(cat, reg, c, c', p, dealt, rules[i], i, seen, next, next', changed);
      if one.Err? {
        EntryNotOk(cat, reg, RulesOf(c, p), rules, dealt, i);
        return Err(one.error), c', next';
      }
      changed := one.value;
      dealt := dealt + [rules[i]];
    }
    DealtAll(dealt, rules);
    ghost var before := c';
    LoopLinked(cat, reg, c, c', p, rules, next, next', changed);
    var removed;
    c', removed := RemoveRules(c', p, seen);
    AllWritten(cat, reg, c, before, c', p, rules, next, next', changed, removed);
    r := Ok(changed || removed);
  }

  lemma LoopLinked(cat: Catalogue, reg: Reg, c0: Composition, c: Composition, p: string, dealt: seq<RuleEntry>, lo: nat,
                   next: nat, changed: bool)
    requires RulesLoop(cat, reg, c0, c, p, dealt, lo, next, changed)
    ensures Linked(c) && RulesOk(cat, reg, RulesOf(c0, p), dealt)
  {
    hide RulesOf, RulesPartly, RulesOk, Linked, AnyAway;
  }

  lemma AllWritten(cat: Catalogue, reg: Reg, c0: Composition, c: Composition, c': Composition, p: string,
                   rules: seq<RuleEntry>, lo: nat, next: nat, changed: bool, removed: bool)
    requires RulesLoop(cat, reg, c0, c, p, rules, lo, next, changed)
    requires Linked(c') && c' == c.(rules := c'.rules, conditions := c'.conditions) && c'.rules.Keys <= c.rules.Keys
    requires forall q | q != p :: RulesOf(c', q) == RulesOf(c, q)
    requires RulesOf(c', p) == Surviving(RulesOf(c, p), Goals(cat, rules).Keys)
    requires removed <==> RulesOf(c', p) != RulesOf(c, p)
    requires !removed ==> c' == c
    ensures RulesWritten(cat, c0, c', p, rules, lo, next, changed || removed)
  {
    hide RulesOf, RulesPartly, RulesOk, Linked, AnyAway, RulesApplied, RulesMatch, Surviving, RulesBelow, Goals;
    LoopFacts(cat, reg, c0, c, p, rules, lo, next, changed);
    RulesDone(cat, reg, c0, c, c', p, rules, lo, next, changed, removed);
    StillBelow(c, c', next);
  }

  lemma EntryNotOk(cat: Catalogue, reg: Reg, d0: map<nat, RuleDoc>, rules: seq<RuleEntry>, dealt: seq<RuleEntry>,
                   i: nat)
    requires i < |rules| && Dealt(dealt, rules, i)
    requires !(RuleOk(cat, reg, rules[i]) && AtMostOne(d0, IdentOf(cat, rules[i])) &&
      IdentOf(cat, rules[i]) !in Goals(cat, dealt))
    ensures !RulesOk(cat, reg, d0, rules)
  {
    hide RulesOk, RuleOk, AtMostOne, Goals;
    assert dealt == rules[..i];
    if IdentOf(cat, rules[i]) in Goals(cat, dealt) {
      DuplicateNotOk(cat, reg, d0, rules, i);
    } else {
      RuleNotOk(cat, reg, d0, rules, i);
    }
  }

  lemma StillBelow(c: Composition, c': Composition, next: nat)
    requires RulesBelow(c, next) && c'.rules.Keys <= c.rules.Keys
    ensures RulesBelow(c', next)
  {
  }

  lemma LoopStart(cat: Catalogue, reg: Reg, c: Composition, p: string, next: nat)
    requires Linked(c) && RulesBelow(c, next)
    ensures RulesLoop(cat, reg, c, c, p, [], next, next, false)
  {
    hide RulesOf;
  }

  lemma LoopFacts(cat: Catalogue, reg: Reg, c0: Composition, c: Composition, p: string, dealt: seq<RuleEntry>, lo: nat,
                  next: nat, changed: bool)
    requires RulesLoop(cat, reg, c0, c, p, dealt, lo, next, changed)
    ensures Linked(c) && RulesBelow(c, next) && lo <= next && c == c0.(rules := c.rules, conditions := c.conditions)
    ensures forall q | q != p :: RulesOf(c, q) == RulesOf(c0, q)
    ensures RulesPartly(RulesOf(c0, p), RulesOf(c, p), Goals(cat, dealt), lo)
    ensures RulesOk(cat, reg, RulesOf(c0, p), dealt)
    ensures !changed ==> c == c0
  {
    hide RulesOf, RulesPartly, RulesOk;
  }

  lemma DuplicateNotOk(cat: Catalogue, reg: Reg, d0: map<nat, RuleDoc>, rules: seq<RuleEntry>, i: nat)
    requires i < |rules| && IdentOf(cat, rules[i]) in Goals(cat, rules[..i])
    ensures !RulesOk(cat, reg, d0, rules)
  {
    GoalsNamed(cat, rules[..i], IdentOf(cat, rules[i]));
    var j :| 0 <= j < i && IdentOf(cat, rules[..i][j]) == IdentOf(cat, rules[i]);
    assert rules[..i][j] == rules[j];
  }

  lemma RuleNotOk(cat: Catalogue, reg: Reg, d0: map<nat, RuleDoc>, rules: seq<RuleEntry>, i: nat)
    requires i < |rules|
    requires !AtMostOne(d0, IdentOf(cat, rules[i])) || !RuleOk(cat, reg, rules[i])
    ensures !RulesOk(cat, reg, d0, rules)
  {
    hide RuleOk, AtMostOne;
  }

  lemma RulesDone(cat: Catalogue, reg: Reg, c0: Composition, c: Composition, c': Composition, p: string,
                  rules: seq<RuleEntry>, lo: nat, next: nat, changed: bool, removed: bool)
    requires RulesLoop(cat, reg, c0, c, p, rules, lo, next, changed)
    requires RulesOf(c', p) == Surviving(RulesOf(c, p), Goals(cat, rules).Keys)
    requires removed <==> RulesOf(c', p) != RulesOf(c, p)
    ensures RulesApplied(RulesOf(c0, p), RulesOf(c', p), Goals(cat, rules), lo)
    ensures changed || removed <==> !RulesMatch(RulesOf(c0, p), Goals(cat, rules))
  {
    hide RulesOf, Goals, RulesPartly, RulesOk, RulesApplied, RulesMatch, Surviving, AnyAway, Linked;
    var d0, d, d', goals := RulesOf(c0, p), RulesOf(c, p), RulesOf(c', p), Goals(cat, rules);
    SurvivorsApplied(d0, d, goals, lo);
    OneEach(cat, reg, d0, rules);
    ChangeMeansMismatch(d0, d, goals, lo);
  }

  lemma OneEach(cat: Catalogue, reg: Reg, d0: map<nat, RuleDoc>, rules: seq<RuleEntry>)
    requires RulesOk(cat, reg, d0, rules)
    ensures forall id | id in Goals(cat, rules) :: AtMostOne(d0, id)
  {
    hide AtMostOne, RuleOk, Goals;
    forall id | id in Goals(cat, rules)
      ensures AtMostOne(d0, id)
    {
      GoalsNamed(cat, rules, id);
    }
  }

  lemma SurvivorsApplied(d0: map<nat, RuleDoc>, d: map<nat, RuleDoc>, goals: map<Ident, Goal>, lo: nat)
    requires forall i | i in goals :: Sensible(goals[i])
    requires RulesPartly(d0, d, goals, lo)
    ensures RulesApplied(d0, Surviving(d, goals.Keys), goals, lo)
  {
    hide Settled, HasIdent, AtMostOne, Sensible;
    forall id | id in goals
      ensures HasIdent(Surviving(d, goals.Keys), id) && AtMostOne(Surviving(d, goals.Keys), id)
    {
      IdentSurvives(d, goals.Keys, id);
    }
  }

  lemma IdentSurvives(d: map<nat, RuleDoc>, seen: set<Ident>, id: Ident)
    requires id in seen
    ensures HasIdent(d, id) ==> HasIdent(Surviving(d, seen), id)
    ensures AtMostOne(d, id) ==> AtMostOne(Surviving(d, seen), id)
  {
    var d' := Surviving(d, seen);
    if r :| r in d && IdentOfDoc(d[r]) == id {
      assert r in d' && IdentOfDoc(d'[r]) == id;
    }
  }

  lemma ChangeMeansMismatch(d0: map<nat, RuleDoc>, d: map<nat, RuleDoc>, goals: map<Ident, Goal>, lo: nat)
    requires forall i | i in goals :: Sensible(goals[i])
    requires RulesPartly(d0, d, goals, lo)
    requires forall id | id in goals :: AtMostOne(d0, id)
    ensures AnyAway(d0, goals) || Surviving(d, goals.Keys) != d <==> !RulesMatch(d0, goals)
  {
    if RulesMatch(d0, goals) {
      MatchMeansQuiet(d0, d, goals, lo);
    }
    if !AnyAway(d0, goals) && Surviving(d, goals.Keys) == d {
      QuietMeansMatch(d0, d, goals, lo);
    }
  }

  lemma MatchMeansQuiet(d0: map<nat, RuleDoc>, d: map<nat, RuleDoc>, goals: map<Ident, Goal>, lo: nat)
    requires forall i | i in goals :: Sensible(goals[i])
    requires RulesPartly(d0, d, goals, lo) && RulesMatch(d0, goals)
    ensures !AnyAway(d0, goals) && Surviving(d, goals.Keys) == d
  {
    hide Settled;
    forall id | id in goals
      ensures There(d0, id, goals[id])
    {
      assert HasIdent(d0, id);
    }
    forall r | r in d
      ensures IdentOfDoc(d[r]) in goals
    {
    }
  }

  lemma QuietMeansMatch(d0: map<nat, RuleDoc>, d: map<nat, RuleDoc>, goals: map<Ident, Goal>, lo: nat)
    requires forall i | i in goals :: Sensible(goals[i])
    requires RulesPartly(d0, d, goals, lo)
    requires forall id | id in goals :: AtMostOne(d0, id)
    requires !AnyAway(d0, goals) && Surviving(d, goals.Keys) == d
    ensures RulesMatch(d0, goals)
  {
    hide Settled;
    forall r | r in d0
      ensures IdentOfDoc(d0[r]) in goals
    {
      assert r in Surviving(d, goals.Keys) && IdentOfDoc(d[r]) == IdentOfDoc(d0[r]);
    }
    hide RulesPartly, Surviving;
    AllThere(d0, goals);
  }

  lemma AllThere(d0: map<nat, RuleDoc>, goals: map<Ident, Goal>)
    requires forall i | i in goals :: Sensible(goals[i])
    requires forall id | id in goals :: AtMostOne(d0, id)
    requires forall r | r in d0 :: IdentOfDoc(d0[r]) in goals
    requires !AnyAway(d0, goals)
    ensures RulesMatch(d0, goals)
  {
    hide Settled;
    forall id | id in goals
      ensures HasIdent(d0, id)
    {
      assert There(d0, id, goals[id]);
    }
    forall r | r in d0
      ensures d0[r] == Settled(IdentOfDoc(d0[r]), goals[IdentOfDoc(d0[r])], Some(d0[r]))
    {
      var id := IdentOfDoc(d0[r]);
      assert There(d0, id, goals[id]) && AtMostOne(d0, id);
    }
  }
}
