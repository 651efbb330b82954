/** The account of a decision that an administrator reads, and that it is true. */
module Explaining {
  import opened Outcomes
  import opened Values
  import opened Base
  import opened Registry
  import opened Grants
  import opened Resolver
  import opened Denotation
  import opened Access
  import opened Writes

  /** One line of the account. */
  datatype Line =
    | Bypassed
    | NoRoles
    | EndpointLine(granted: bool)
    | NoGrants
    | Unconditional(name: string)
    | Conditional(name: string, filters: seq<string>)
    | RowLine(inScope: bool)
    | FieldsLine(shown: set<string>, withheld: set<string>)

  datatype Trace = Trace(allowed: bool, lines: seq<Line>)

  function GrantLine(g: ObjectGrant): Line {
    if g.conditions == [] then Unconditional(g.name)
    else Conditional(g.name, seq(|g.conditions|, i requires 0 <= i < |g.conditions| => g.conditions[i].0))
  }

  function GrantLines(gs: seq<ObjectGrant>): seq<Line> {
    if gs == [] then [NoGrants] else seq(|gs|, i requires 0 <= i < |gs| => GrantLine(gs[i]))
  }

  ghost function FieldLines(spec: KeySpec, granted: set<string>): seq<Line> {
    if spec.fields == {} then [] else [FieldsLine(granted, spec.fields - granted)]
  }

  /** The whole account, with its own order of questions; asked about a row, the verdict needs both tiers. */
  ghost function Explain(p: Policy, world: World, user: User, key: string, obj: Option<(string, int)>): Result<Trace> {
    var roles := p.principals(user);
    if Bypasses(p, user) then Ok(Trace(true, [Bypassed]))
    else if roles == [] then Ok(Trace(false, [NoRoles]))
    else
      var endpointOk := p.store.endpoint(roles, key);
      var spec :- Lookup(p.reg, key);
      var head := [EndpointLine(endpointOk)] + GrantLines(p.store.objects(roles, key));
      var tail := FieldLines(spec, UnionOfFields(FieldGrantsFor(p, user, key)));
      if obj.None? then Ok(Trace(endpointOk, head + tail))
      else
        var inScope :- CheckObject(p, world, user, key, obj.value.0, obj.value.1);
        Ok(Trace(endpointOk && inScope, head + [RowLine(inScope)] + tail))
  }

  ghost function Verdict(r: Result<Trace>): Result<bool> {
    match r
    case Ok(t) => Ok(t.allowed)
    case Err(e) => Err(e)
  }

  /** Without a row the verdict is the endpoint check, with one the object check, errors included: exactly
      unless the key is unknown and the user bypasses or has no roles, when the account does not raise and the
      checks do. */
  lemma ExplainTellsTheTruth(p: Policy, world: World, user: User, key: string, model: string, pk: int)
    ensures var asked := Lookup(p.reg, key).Ok? || (!Bypasses(p, user) && p.principals(user) != []);
      && (Verdict(Explain(p, world, user, key, None)) == CheckEndpoint(p, user, key) <==> asked)
      && (Verdict(Explain(p, world, user, key, Some((model, pk)))) == CheckObject(p, world, user, key, model, pk) <==>
        asked)
  {
  }

  /** A superuser asking about a key of an empty registry: the account allows it, the checks raise. */
  lemma UnknownKeyExplained(p: Policy, world: World, user: User, key: string, model: string, pk: int)
    requires p.superuserBypass && user.superuser && p.reg == Reg(map[], map[], map[], map[], map[], map[])
    ensures Explain(p, world, user, key, None) == Ok(Trace(true, [Bypassed]))
    ensures Explain(p, world, user, key, Some((model, pk))) == Ok(Trace(true, [Bypassed]))
    ensures CheckEndpoint(p, user, key) == Err(UnknownKey(key))
    ensures CheckObject(p, world, user, key, model, pk) == Err(UnknownKey(key))
  {
    assert key !in KnownKeys(p.reg);
  }

  /** When a line is in the account of someone who has roles and does not bypass, told from the store, the key and the
      object check. */
  ghost predicate LineTold(p: Policy, world: World, user: User, key: string, obj: Option<(string, int)>, line: Line)
    requires Lookup(p.reg, key).Ok?
  {
    var roles, controlled := p.principals(user), Lookup(p.reg, key).value.fields;
    var gs := p.store.objects(roles, key);
    match line
    case EndpointLine(granted) => granted == p.store.endpoint(roles, key)
    case NoGrants => gs == []
    case Unconditional(name) => exists g :: g in gs && g.name == name && g.conditions == []
    case Conditional(name, filters) =>
      exists g :: g in gs && g.name == name && g.conditions != [] && Names(g.conditions, filters)
    case RowLine(b) => obj.Some? && CheckObject(p, world, user, key, obj.value.0, obj.value.1) == Ok(b)
    case FieldsLine(shown, withheld) =>
      && controlled != {}
      && (forall f :: f in shown <==> GrantLists(p, user, key, f))
      && (forall f :: f in withheld <==> f in controlled && !GrantLists(p, user, key, f))
    case _ => false
  }

  /** The filters of these conditions, in their order. */
  predicate Names(conditions: seq<(string, Params)>, filters: seq<string>) {
    |filters| == |conditions| && forall i | 0 <= i < |filters| :: filters[i] == conditions[i].0
  }

  /** The whole account: one line for a superuser who bypasses or for nobody's roles; for anyone else it is an error
      exactly when the key is unknown or the check on the row it was asked about is, and otherwise has exactly the
      lines that are true. */
  lemma AccountExactly(p: Policy, world: World, user: User, key: string, obj: Option<(string, int)>)
    ensures var told := Explain(p, world, user, key, obj);
      if p.superuserBypass && user.superuser then told == Ok(Trace(true, [Bypassed]))
      else if p.principals(user) == [] then told == Ok(Trace(false, [NoRoles]))
      else
        && (told.Ok? <==>
              Lookup(p.reg, key).Ok? && (obj.Some? ==> CheckObject(p, world, user, key, obj.value.0, obj.value.1).Ok?))
        && (told.Ok? ==> forall line :: line in told.value.lines <==> LineTold(p, world, user, key, obj, line))
  {
    hide CheckObject, Lookup, UnionOfFields, LineTold, GrantLines, FieldLines;
    var told := Explain(p, world, user, key, obj);
    if !Bypasses(p, user) && p.principals(user) != [] && told.Ok? {
      forall line
        ensures line in told.value.lines <==> LineTold(p, world, user, key, obj, line)
      {
        LineExactly(p, world, user, key, obj, line);
      }
    }
  }

  lemma LineExactly(p: Policy, world: World, user: User, key: string, obj: Option<(string, int)>, line: Line)
    requires !Bypasses(p, user) && p.principals(user) != [] && Lookup(p.reg, key).Ok?
    requires Explain(p, world, user, key, obj).Ok?
    ensures line in Explain(p, world, user, key, obj).value.lines <==> LineTold(p, world, user, key, obj, line)
  {
    var gs, spec := GrantsFor(p, user, key), Lookup(p.reg, key).value;
    hide CheckObject, Lookup;
    GrantLineExactly(gs, line);
    FieldLineExactly(p, user, key, spec, line);
    hide GrantLines, FieldLines, GrantLists, Names, UnionOfFields, FieldGrantsFor;
  }

  lemma GrantLineExactly(gs: seq<ObjectGrant>, line: Line)
    ensures line in GrantLines(gs) <==>
      match line
      case NoGrants => gs == []
      case Unconditional(name) => exists g :: g in gs && g.name == name && g.conditions == []
      case Conditional(name, filters) =>
        exists g :: g in gs && g.name == name && g.conditions != [] && Names(g.conditions, filters)
      case _ => false
  {
    var lines := GrantLines(gs);
    if gs != [] {
      if line in lines {
        var i :| 0 <= i < |lines| && lines[i] == line;
        assert line == GrantLine(gs[i]) && gs[i] in gs;
      }
      if g :| g in gs && line == GrantLine(g) {
        var i :| 0 <= i < |gs| && gs[i] == g;
        assert lines[i] == line;
      }
      forall g | g in gs && line.Conditional? && g.name == line.name && Names(g.conditions, line.filters)
        ensures g.conditions != [] ==> line == GrantLine(g)
      {
      }
    }
  }

  lemma FieldLineExactly(p: Policy, user: User, key: string, spec: KeySpec, line: Line)
    ensures line in FieldLines(spec, UnionOfFields(FieldGrantsFor(p, user, key))) <==>
      && line.FieldsLine? && spec.fields != {}
      && (forall f :: f in line.shown <==> GrantLists(p, user, key, f))
      && (forall f :: f in line.withheld <==> f in spec.fields && !GrantLists(p, user, key, f))
  {
    forall f
      ensures f in UnionOfFields(FieldGrantsFor(p, user, key)) <==> GrantLists(p, user, key, f)
    {
      PermitAlike(p, user, key, f, Several([]));
    }
    var granted := UnionOfFields(FieldGrantsFor(p, user, key));
    hide UnionOfFields, FieldGrantsFor, GrantLists;
    if line.FieldsLine? && forall f :: f in line.shown <==> f in granted {
      assert line.shown == granted;
      if forall f :: f in line.withheld <==> f in spec.fields && f !in granted {
        assert line.withheld == spec.fields - granted;
      }
    }
  }

  /** The withheld fields are exactly the controlled ones the user may not see. */
  lemma WithheldExactly(p: Policy, world: World, user: User, key: string, obj: Option<(string, int)>, line: Line)
    requires Explain(p, world, user, key, obj).Ok? && line in Explain(p, world, user, key, obj).value.lines &&
      line.FieldsLine?
    ensures Lookup(p.reg, key).Ok?
    ensures var controlled := Lookup(p.reg, key).value.fields;
      VisibleFields(p, user, key, controlled) == Ok(controlled - line.withheld)
  {
    LinesOf(p, world, user, key, obj, line);
  }

  lemma LinesOf(p: Policy, world: World, user: User, key: string, obj: Option<(string, int)>, line: Line)
    requires Explain(p, world, user, key, obj).Ok? && line in Explain(p, world, user, key, obj).value.lines
    requires !line.Bypassed? && !line.NoRoles?
    ensures !Bypasses(p, user) && p.principals(user) != [] && Lookup(p.reg, key).Ok?
    ensures line.FieldsLine? ==>
      line.withheld == Lookup(p.reg, key).value.fields - UnionOfFields(FieldGrantsFor(p, user, key))
    ensures line.NoGrants? ==> GrantsFor(p, user, key) == []
    ensures line.Unconditional? || line.Conditional? ==>
      exists g :: g in GrantsFor(p, user, key) && line == GrantLine(g)
  {
    var gs := GrantsFor(p, user, key);
    if line in GrantLines(gs) && gs != [] {
      var i :| 0 <= i < |GrantLines(gs)| && GrantLines(gs)[i] == line;
      assert gs[i] in gs;
    }
    hide CheckObject, UnionOfFields, FieldGrantsFor, Lookup, GrantLine;
  }

  /** Whatever account is given, its lines say what kind of scope there is: none, when the endpoint is missing or
      there is no grant; a scope that resolves is everything exactly when the endpoint is granted and some grant
      is unconditional. */
  lemma GrantLinesTellTheScope(p: Policy, world: World, user: User, key: string, obj: Option<(string, int)>)
    requires !Bypasses(p, user) && p.principals(user) != [] && Explain(p, world, user, key, obj).Ok?
    ensures var lines, scope := Explain(p, world, user, key, obj).value.lines, ScopeOf(p, user, key);
      && (scope == Ok(Deny) <==> EndpointLine(false) in lines || NoGrants in lines)
      && (scope.Ok? ==> (scope.value.All? <==>
            EndpointLine(true) in lines && exists line :: line in lines && line.Unconditional?))
  {
    var lines, head := Explain(p, world, user, key, obj).value.lines, GrantLines(GrantsFor(p, user, key));
    HeadLines(p, world, user, key, obj);
    assert EndpointLine(Reaches(p, user, key)) in lines;
    hide Explain;
    GrantLinesAre(GrantsFor(p, user, key));
    if Reaches(p, user, key) && GrantsFor(p, user, key) != [] {
      OutcomeLines(p, user, key);
    }
  }

  /** The account starts with the endpoint and the grants; the lines after these are about the row and fields. */
  lemma HeadLines(p: Policy, world: World, user: User, key: string, obj: Option<(string, int)>)
    requires !Bypasses(p, user) && p.principals(user) != [] && Explain(p, world, user, key, obj).Ok?
    ensures Lookup(p.reg, key).Ok?
    ensures var lines, head := Explain(p, world, user, key, obj).value.lines, GrantLines(GrantsFor(p, user, key));
      forall line :: line in lines <==>
        || line == EndpointLine(Reaches(p, user, key)) || line in head
        || (line in lines && (line.RowLine? || line.FieldsLine?))
  {
    hide CheckObject, GrantLines, Lookup;
  }

  lemma GrantLinesAre(gs: seq<ObjectGrant>)
    ensures NoGrants in GrantLines(gs) <==> gs == []
    ensures (exists line :: line in GrantLines(gs) && line.Unconditional?) <==>
      exists g :: g in gs && g.conditions == []
    ensures forall line | line in GrantLines(gs) :: line.NoGrants? || line.Unconditional? || line.Conditional?
  {
    var lines := GrantLines(gs);
    if gs != [] {
      assert forall i | 0 <= i < |gs| :: lines[i] == GrantLine(gs[i]);
      if g :| g in gs && g.conditions == [] {
        var i :| 0 <= i < |gs| && gs[i] == g;
        assert lines[i].Unconditional?;
      }
    }
  }

  lemma OutcomeLines(p: Policy, user: User, key: string)
    requires !Bypasses(p, user) && Reaches(p, user, key) && GrantsFor(p, user, key) != [] && Lookup(p.reg, key).Ok?
    ensures ScopeOf(p, user, key) != Ok(Deny)
    ensures ScopeOf(p, user, key).Ok? ==>
      (ScopeOf(p, user, key).value.All? <==> exists g :: g in GrantsFor(p, user, key) && g.conditions == [])
  {
    var spec, gs := Lookup(p.reg, key).value, GrantsFor(p, user, key);
    OutcomeDecided(p.reg, spec, p.contextOf(user), gs);
    if i: nat :| Decides(p.reg, spec, gs, i) && gs[i].conditions == [] {
      assert gs[i] in gs;
    }
  }
}
