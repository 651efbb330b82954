/** Grants as any store hands them to the resolver. */
module Grants {
  import opened Values

  /** Conditions are (filter id, configured params) pairs, AND-ed together. */
  datatype ObjectGrant = ObjectGrant(name: string, key: string, conditions: seq<(string, Params)>)

  datatype FieldGrant = FieldGrant(
    name: string,
    key: string,
    allowedFields: set<string>,
    allowedValues: map<string, set<Value>>)

  /** The store interface: three questions, each about some roles and one key. */
  datatype Store = Store(
    endpoint: (seq<string>, string) -> bool,
    objects: (seq<string>, string) -> seq<ObjectGrant>,
    fields: (seq<string>, string) -> seq<FieldGrant>)
}

/** The object tier: from grants to the rows a user may act on. */
module Resolver {
  import opened Outcomes
  import opened Values
  import opened Predicates
  import opened Base
  import opened Registry
  import opened Grants

  datatype Policy = Policy(
    store: Store,
    reg: Reg,
    principals: User -> seq<string>,
    superuserBypass: bool,
    contextOf: User -> Context)

  datatype Scope = Deny | All | Filtered(q: Q, distinct: bool)

  /** A conjunction under construction and whether it crosses a to-many relation. */
  datatype Compiled = Compiled(q: Q, distinct: bool)

  predicate Bypasses(p: Policy, user: User) {
    p.superuserBypass && user.superuser
  }

  function CheckEndpoint(p: Policy, user: User, key: string): Result<bool> {
    var spec :- Lookup(p.reg, key);
    if Bypasses(p, user) then Ok(true)
    else
      var roles := p.principals(user);
      Ok(roles != [] && p.store.endpoint(roles, key))
  }

  function CompileCondition(reg: Reg, spec: KeySpec, ctx: Context, c: (string, Params)): Result<Compiled> {
    var condition :- Condition(reg, c.0);
    if condition.objectKey.Some? && condition.objectKey.value != spec.resource then Err(WrongObject(c.0, spec.id))
    else
      var params :- Bind(condition, c.1);
      Ok(Compiled(condition.asQ(ctx, params), condition.multiValued))
  }

  function CompileGrant(reg: Reg, spec: KeySpec, ctx: Context, cs: seq<(string, Params)>): Result<Compiled> {
    if cs == [] then Ok(Compiled(Empty, false))
    else
      var init :- CompileGrant(reg, spec, ctx, cs[..|cs| - 1]);
      var c :- CompileCondition(reg, spec, ctx, cs[|cs| - 1]);
      Ok(Compiled(Conj(init.q, c.q), init.distinct || c.distinct))
  }

  /** The disjunction over grants.  An unconditional grant ends it with everything. */
  function CompileGrants(reg: Reg, spec: KeySpec, ctx: Context, gs: seq<ObjectGrant>): (r: Result<Scope>)
    ensures r.Ok? ==> !r.value.Deny?
  {
    if gs == [] then Ok(Filtered(Empty, false))
    else
      var init :- CompileGrants(reg, spec, ctx, gs[..|gs| - 1]);
      if init.All? then Ok(All)
      else if gs[|gs| - 1].conditions == [] then Ok(All)
      else
        var g :- CompileGrant(reg, spec, ctx, gs[|gs| - 1].conditions);
        Ok(Filtered(Disj(init.q, g.q), init.distinct || g.distinct))
  }

  function ScopeOf(p: Policy, user: User, key: string): Result<Scope> {
    var spec :- Lookup(p.reg, key);
    if Bypasses(p, user) then Ok(All)
    else
      var roles := p.principals(user);
      if roles == [] || !p.store.endpoint(roles, key) then Ok(Deny)
      else if p.store.objects(roles, key) == [] then Ok(Deny)
      else CompileGrants(p.reg, spec, p.contextOf(user), p.store.objects(roles, key))
  }

  /** The resolver's own loop, with its early exits. */
  method ResolveScope(p: Policy, user: User, key: string) returns (r: Result<Scope>)
    ensures r == ScopeOf(p, user, key)
  {
    var looked := Lookup(p.reg, key);
    if looked.Err? {
      return Err(looked.error);
    }
    var spec := looked.value;
    if Bypasses(p, user) {
      return Ok(All);
    }
    var roles := p.principals(user);
    if roles == [] || !p.store.endpoint(roles, key) {
      return Ok(Deny);
    }
    var grants := p.store.objects(roles, key);
    if |grants| == 0 {
      return Ok(Deny);
    }
    r := FoldGrants(p.reg, spec, p.contextOf(user), grants);
  }

  method FoldGrants(reg: Reg, spec: KeySpec, ctx: Context, grants: seq<ObjectGrant>) returns (r: Result<Scope>)
    ensures r == CompileGrants(reg, spec, ctx, grants)
  {
    var combined, needsDistinct := Empty, false;
    for i := 0 to |grants|
      invariant CompileGrants(reg, spec, ctx, grants[..i]) == Ok(Filtered(combined, needsDistinct))
    {
      var grant := grants[i];
      assert grants[..i + 1][..i] == grants[..i];
      if |grant.conditions| == 0 {
        SettledByPrefix(reg, spec, ctx, grants, i + 1);
        return Ok(All);
      }
      var conjunction, distinctHere := Empty, false;
      for j := 0 to |grant.conditions|
        invariant CompileGrant(reg, spec, ctx, grant.conditions[..j]) == Ok(Compiled(conjunction, distinctHere))
      {
        assert grant.conditions[..j + 1][..j] == grant.conditions[..j];
        var c := CompileCondition(reg, spec, ctx, grant.conditions[j]);
        if c.Err? {
          FailedByPrefix(reg, spec, ctx, grant.conditions, j + 1);
          SettledByPrefix(reg, spec, ctx, grants, i + 1);
          return Err(c.error);
        }
        conjunction := Conj(conjunction, c.value.q);
        distinctHere := distinctHere || c.value.distinct;
      }
      assert grant.conditions[..|grant.conditions|] == grant.conditions;
      combined := Disj(combined, conjunction);
      needsDistinct := needsDistinct || distinctHere;
    }
    assert grants[..|grants|] == grants;
    return Ok(Filtered(combined, needsDistinct));
  }

  lemma {:induction false} FailedByPrefix(reg: Reg, spec: KeySpec, ctx: Context, cs: seq<(string, Params)>, n: nat)
    requires n <= |cs|
    requires CompileGrant(reg, spec, ctx, cs[..n]).Err?
    ensures CompileGrant(reg, spec, ctx, cs) == CompileGrant(reg, spec, ctx, cs[..n])
  {
    if n < |cs| {
      assert cs[..|cs| - 1][..n] == cs[..n];
      FailedByPrefix(reg, spec, ctx, cs[..|cs| - 1], n);
    } else {
      assert cs[..n] == cs;
    }
  }

  /** Once a prefix of the grants has failed or opened everything, the rest is not looked at. */
  lemma {:induction false} SettledByPrefix(reg: Reg, spec: KeySpec, ctx: Context, gs: seq<ObjectGrant>, n: nat)
    requires n <= |gs|
    requires CompileGrants(reg, spec, ctx, gs[..n]).Err? || CompileGrants(reg, spec, ctx, gs[..n]).value.All?
    ensures CompileGrants(reg, spec, ctx, gs) == CompileGrants(reg, spec, ctx, gs[..n])
  {
    if n < |gs| {
      assert gs[..|gs| - 1][..n] == gs[..n];
      SettledByPrefix(reg, spec, ctx, gs[..|gs| - 1], n);
    } else {
      assert gs[..n] == gs;
    }
  }
}
