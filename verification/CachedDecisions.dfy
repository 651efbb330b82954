/** Every decision taken through the cache is the one the store itself gives. */
module CachedDecisions {
  import opened Outcomes
  import opened Values
  import opened Base
  import opened Registry
  import opened Grants
  import opened Resolver
  import opened Access
  import opened Writes
  import opened Explaining
  import opened Cache

  function Ask(store: Store, q: Question): Answer {
    match q
    case AskEndpoint(roles, key) => Endpoint(store.endpoint(roles, key))
    case AskObjects(roles, key) => Objects(store.objects(roles, key))
    case AskFields(roles, key) => Fields(store.fields(roles, key))
  }

  /** The innermost open scope remembers nothing but what this store says. */
  ghost predicate Agrees(ds: seq<Dict>, store: Store) {
    ds != [] ==> forall q | q in ds[|ds| - 1] :: ds[|ds| - 1][q] == Ask(store, q)
  }

  /** Only the innermost dictionary may have changed. */
  ghost predicate SameOuter(a: seq<Dict>, b: seq<Dict>) {
    |a| == |b| && (a != [] ==> a[..|a| - 1] == b[..|b| - 1])
  }

  /** The dictionaries before and after lookups of a fixed store. */
  ghost predicate Kept(before: seq<Dict>, after: seq<Dict>, store: Store) {
    Agrees(after, store) && SameOuter(before, after)
  }

  lemma KeptOn(a: seq<Dict>, b: seq<Dict>, c: seq<Dict>, store: Store)
    requires Kept(a, b, store) && Kept(b, c, store)
    ensures Kept(a, c, store)
  {
  }

  // ----- lookups

  method LookUp(cache: GrantCache, store: Store, q: Question) returns (a: Answer)
    requires cache.Valid() && Agrees(cache.Dicts(), store)
    modifies cache
    ensures cache.Valid() && Kept(old(cache.Dicts()), cache.Dicts(), store)
    ensures a == Ask(store, q)
  {
    var r := cache.Cached(q, (x: Question) => Ok(Ask(store, x)));
    a := r.value;
  }

  method CachedCheckEndpoint(cache: GrantCache, p: Policy, user: User, key: string) returns (r: Result<bool>)
    requires cache.Valid() && Agrees(cache.Dicts(), p.store)
    modifies cache
    ensures cache.Valid() && Kept(old(cache.Dicts()), cache.Dicts(), p.store)
    ensures r == CheckEndpoint(p, user, key)
  {
    var looked := Lookup(p.reg, key);
    if looked.Err? {
      return Err(looked.error);
    }
    if Bypasses(p, user) {
      return Ok(true);
    }
    var roles := p.principals(user);
    if roles == [] {
      return Ok(false);
    }
    var a := LookUp(cache, p.store, AskEndpoint(roles, key));
    r := Ok(a.granted);
  }

  /** Resolving through the cache gives the scope the uncached store gives. */
  method CachedScope(cache: GrantCache, p: Policy, user: User, key: string) returns (r: Result<Scope>)
    requires cache.Valid() && Agrees(cache.Dicts(), p.store)
    modifies cache
    ensures cache.Valid() && Kept(old(cache.Dicts()), cache.Dicts(), p.store)
    ensures r == ScopeOf(p, user, key)
  {
    var looked := Lookup(p.reg, key);
    if looked.Err? {
      return Err(looked.error);
    }
    if Bypasses(p, user) {
      return Ok(All);
    }
    var roles := p.principals(user);
    if roles == [] {
      return Ok(Deny);
    }
    var reach := LookUp(cache, p.store, AskEndpoint(roles, key));
    if !reach.granted {
      return Ok(Deny);
    }
    var found := LookUp(cache, p.store, AskObjects(roles, key));
    if |found.grants| == 0 {
      return Ok(Deny);
    }
    r := FoldGrants(p.reg, looked.value, p.contextOf(user), found.grants);
  }

  /** The field grants every field decision is made from are, through the cache, the uncached ones. */
  method CachedFieldGrants(cache: GrantCache, p: Policy, user: User, key: string) returns (gs: seq<FieldGrant>)
    requires cache.Valid() && Agrees(cache.Dicts(), p.store)
    modifies cache
    ensures cache.Valid() && Kept(old(cache.Dicts()), cache.Dicts(), p.store)
    ensures gs == FieldGrantsFor(p, user, key)
  {
    var roles := p.principals(user);
    if roles == [] {
      return [];
    }
    var a := LookUp(cache, p.store, AskFields(roles, key));
    gs := a.fieldGrants;
  }

  // ----- the write check

  /** The first `n` items are permitted under the governing key. */
  ghost predicate PermittedSoFar(p: Policy, world: World, user: User, governing: string, items: seq<Item>, n: nat) {
    n <= |items| && ReferencesInScope(p, world, user, governing, items[..n])
  }

  /** One more item permitted is one more; one refused refuses them all. */
  lemma NextPermitted(p: Policy, world: World, user: User, governing: string, items: seq<Item>, n: nat)
    requires PermittedSoFar(p, world, user, governing, items, n)
    ensures Lookup(p.reg, governing).Ok? && Lookup(p.reg, governing).value.model.Some?
    ensures n == |items| ==> ReferencesInScope(p, world, user, governing, items)
    ensures n < |items| ==>
      var permitted :=
        Permits(ScopeOf(p, user, governing), world, Lookup(p.reg, governing).value.model.value, items[n]);
      && (permitted == Ok(true) ==> PermittedSoFar(p, world, user, governing, items, n + 1))
      && (permitted != Ok(true) ==> !ReferencesInScope(p, world, user, governing, items))
  {
    hide ScopeOf, Permits, Lookup;
    if n == |items| {
      assert items[..n] == items;
    } else {
      assert items[..n + 1] == items[..n] + [items[n]];
    }
  }

  lemma NonePermitted(p: Policy, world: World, user: User, governing: string, items: seq<Item>)
    requires Lookup(p.reg, governing).Ok? && Lookup(p.reg, governing).value.model.Some?
    ensures PermittedSoFar(p, world, user, governing, items, 0)
  {
    hide Lookup;
  }

  /** References of one field, each scope resolved through the cache. */
  method CachedReferences(cache: GrantCache, p: Policy, world: World, user: User, governing: string, items: seq<Item>)
    returns (r: Result<()>)
    requires cache.Valid() && Agrees(cache.Dicts(), p.store)
    modifies cache
    ensures cache.Valid() && Kept(old(cache.Dicts()), cache.Dicts(), p.store)
    ensures r.Ok? <==> ReferencesInScope(p, world, user, governing, items)
  {
    var looked := Lookup(p.reg, governing);
    if looked.Err? {
      return Err(looked.error);
    }
    if looked.value.model == None {
      return Err(NoModel(governing));
    }
    ghost var before := cache.Dicts();
    KeptFacts(before, p.store);
    NonePermitted(p, world, user, governing, items);
    hide Kept, Agrees, ScopeOf, Permits, Lookup, PermittedSoFar, ReferencesInScope;
    for i := 0 to |items|
      invariant cache.Valid() && Kept(before, cache.Dicts(), p.store)
      invariant PermittedSoFar(p, world, user, governing, items, i)
    {
      ghost var was := cache.Dicts();
      KeptAgrees(before, was, p.store);
      var scope := CachedScope(cache, p, user, governing);
      KeptOn(before, was, cache.Dicts(), p.store);
      NextPermitted(p, world, user, governing, items, i);
      var permitted := Permits(scope, world, looked.value.model.value, items[i]);
      if permitted.Err? {
        return Err(permitted.error);
      }
      if !permitted.value {
        return Err(Denied(governing));
      }
    }
    NextPermitted(p, world, user, governing, items, |items|);
    return Ok(());
  }

  method CachedCheckReferences(cache: GrantCache, p: Policy, world: World, user: User, refs: map<string, string>,
                               data: Payload)
    returns (r: Result<()>)
    requires cache.Valid() && Agrees(cache.Dicts(), p.store)
    modifies cache
    ensures cache.Valid() && Kept(old(cache.Dicts()), cache.Dicts(), p.store)
    ensures r.Ok? <==> forall f | f in refs && f in data :: ReferencesInScope(p, world, user, refs[f], ItemsOf(data[f]))
  {
    var todo := refs.Keys;
    ghost var before := cache.Dicts();
    hide ReferencesInScope;
    while todo != {}
      invariant todo <= refs.Keys
      invariant cache.Valid() && Kept(before, cache.Dicts(), p.store)
      invariant forall f | f in refs && f !in todo && f in data ::
        ReferencesInScope(p, world, user, refs[f], ItemsOf(data[f]))
      decreases |todo|
    {
      var f :| f in todo;
      todo := todo - {f};
      if f in data {
        ghost var was := cache.Dicts();
        r := CachedReferences(cache, p, world, user, refs[f], ItemsOf(data[f]));
        KeptOn(before, was, cache.Dicts(), p.store);
        if r.Err? {
          return;
        }
      }
    }
    return Ok(());
  }

  /** Whether a payload is accepted, told without the cache. */
  ghost predicate Acceptance(p: Policy, world: World, user: User, key: string, data: Payload) {
    if p.superuserBypass && user.superuser then Lookup(p.reg, key).Ok? else Writable(p, world, user, key, data)
  }

  /** The whole write check through the cache accepts exactly the payloads it accepts without. */
  method CachedAssertWritable(cache: GrantCache, p: Policy, world: World, user: User, key: string, data: Payload)
    returns (r: Result<()>)
    requires cache.Valid() && Agrees(cache.Dicts(), p.store)
    modifies cache
    ensures cache.Valid() && Kept(old(cache.Dicts()), cache.Dicts(), p.store)
    ensures r.Ok? <==> Acceptance(p, world, user, key, data)
  {
    var looked := Lookup(p.reg, key);
    if looked.Err? {
      return Err(looked.error);
    }
    ghost var before := cache.Dicts();
    var reachable := CachedCheckEndpoint(cache, p, user, key);
    if reachable != Ok(true) {
      return Err(Denied(key));
    }
    if Bypasses(p, user) {
      return Ok(());
    }
    ghost var was := cache.Dicts();
    var grants := CachedFieldGrants(cache, p, user, key);
    KeptOn(before, was, cache.Dicts(), p.store);
    var granted := FieldsGranted(grants);
    hide Kept, CheckEndpoint, ReferencesInScope, UnionOfFields, StripFields;
    StripKeepsAll(p, user, key, data);
    if exists f | f in data :: f in looked.value.fields && f !in granted {
      return Err(Denied(key));
    }
    assert data.Keys * looked.value.fields <= granted;
    was := cache.Dicts();
    grants := CachedFieldGrants(cache, p, user, key);
    KeptOn(before, was, cache.Dicts(), p.store);
    var allowed := ValuesAllowed(grants);
    r := CheckValues(key, allowed, data);
    if r.Err? {
      return;
    }
    was := cache.Dicts();
    r := CachedCheckReferences(cache, p, world, user, looked.value.fkScopes, data);
    KeptOn(before, was, cache.Dicts(), p.store);
  }

  // ----- the account

  /** The lines about grants, one appended for each. */
  method ListGrants(grants: seq<ObjectGrant>) returns (lines: seq<Line>)
    ensures lines == GrantLines(grants)
  {
    if |grants| == 0 {
      return [NoGrants];
    }
    lines := [];
    for i := 0 to |grants|
      invariant |lines| == i && forall j | 0 <= j < i :: lines[j] == GrantLine(grants[j])
    {
      lines := lines + [GrantLine(grants[i])];
    }
  }

  /** The account of a decision, its lines appended as the questions are asked. */
  method CachedExplain(cache: GrantCache, p: Policy, world: World, user: User, key: string, obj: Option<(string, int)>)
    returns (r: Result<Trace>)
    requires cache.Valid() && Agrees(cache.Dicts(), p.store)
    modifies cache
    ensures cache.Valid() && Kept(old(cache.Dicts()), cache.Dicts(), p.store)
    ensures r == Explain(p, world, user, key, obj)
  {
    var roles := p.principals(user);
    if Bypasses(p, user) {
      return Ok(Trace(true, [Bypassed]));
    }
    if roles == [] {
      return Ok(Trace(false, [NoRoles]));
    }
    ghost var before := cache.Dicts();
    hide Kept, GrantLines, Agrees, SameOuter;
    KeptFacts(cache.Dicts(), p.store);
    var reach := LookUp(cache, p.store, AskEndpoint(roles, key));
    var lines := [EndpointLine(reach.granted)];
    var looked := Lookup(p.reg, key);
    if looked.Err? {
      return Err(looked.error);
    }
    ghost var was := cache.Dicts();
    KeptAgrees(before, was, p.store);
    var found := LookUp(cache, p.store, AskObjects(roles, key));
    KeptOn(before, was, cache.Dicts(), p.store);
    var more := ListGrants(found.grants);
    lines := lines + more;
    var allowed := reach.granted;
    if obj.Some? {
      was := cache.Dicts();
      KeptAgrees(before, was, p.store);
      var scope := CachedScope(cache, p, user, key);
      KeptOn(before, was, cache.Dicts(), p.store);
      var inScope := Accepts(scope, world, obj.value.0, obj.value.1);
      if inScope.Err? {
        return Err(inScope.error);
      }
      lines := lines + [RowLine(inScope.value)];
      allowed := allowed && inScope.value;
    }
    was := cache.Dicts();
    KeptAgrees(before, was, p.store);
    var grants := CachedFieldGrants(cache, p, user, key);
    KeptOn(before, was, cache.Dicts(), p.store);
    var granted := FieldsGranted(grants);
    ghost var told := lines;
    if looked.value.fields != {} {
      lines := lines + [FieldsLine(granted, looked.value.fields - granted)];
    } else {
      assert lines == lines + [];
    }
    assert lines == told + FieldLines(looked.value, granted);
    r := Ok(Trace(allowed, lines));
  }

  lemma KeptFacts(ds: seq<Dict>, store: Store)
    requires Agrees(ds, store)
    ensures Kept(ds, ds, store)
  {
  }

  lemma KeptAgrees(a: seq<Dict>, b: seq<Dict>, store: Store)
    requires Kept(a, b, store)
    ensures Agrees(b, store)
  {
  }

  // ----- a unit of work

  datatype Decision =
    | MayReach(user: User, key: string)
    | WhichRows(user: User, key: string)
    | WhichFields(user: User, key: string)
    | MayWrite(user: User, key: string, data: Payload)
    | Why(user: User, key: string, obj: Option<(string, int)>)

  datatype Outcome =
    | Reach(reachable: Result<bool>)
    | Rows(scope: Result<Scope>)
    | FieldsFrom(grants: seq<FieldGrant>)
    | Written(result: Result<()>)
    | Told(account: Result<Trace>)

  /** What a decision must come to, told without the cache. */
  ghost predicate Uncached(p: Policy, world: World, d: Decision, o: Outcome) {
    match d
    case MayReach(user, key) => o == Reach(CheckEndpoint(p, user, key))
    case WhichRows(user, key) => o == Rows(ScopeOf(p, user, key))
    case WhichFields(user, key) => o == FieldsFrom(FieldGrantsFor(p, user, key))
    case MayWrite(user, key, data) => o.Written? && (o.result.Ok? <==> Acceptance(p, world, user, key, data))
    case Why(user, key, obj) => o == Told(Explain(p, world, user, key, obj))
  }

  method Decide(cache: GrantCache, p: Policy, world: World, d: Decision) returns (o: Outcome)
    requires cache.Valid() && Agrees(cache.Dicts(), p.store)
    modifies cache
    ensures cache.Valid() && Kept(old(cache.Dicts()), cache.Dicts(), p.store)
    ensures Uncached(p, world, d, o)
  {
    hide Kept, Agrees, CheckEndpoint, ScopeOf, FieldGrantsFor, Explain, Acceptance;
    match d {
      case MayReach(user, key) =>
        var reachable := CachedCheckEndpoint(cache, p, user, key);
        o := Reach(reachable);
      case WhichRows(user, key) =>
        var scope := CachedScope(cache, p, user, key);
        o := Rows(scope);
      case WhichFields(user, key) =>
        var grants := CachedFieldGrants(cache, p, user, key);
        o := FieldsFrom(grants);
      case MayWrite(user, key, data) =>
        var result := CachedAssertWritable(cache, p, world, user, key, data);
        o := Written(result);
      case Why(user, key, obj) =>
        var account := CachedExplain(cache, p, world, user, key, obj);
        o := Told(account);
    }
  }

  /** Stores that answer every question alike. */
  ghost predicate Alike(s: Store, t: Store) {
    forall q :: Ask(s, q) == Ask(t, q)
  }

  ghost predicate AllAlike(ds: seq<(Policy, Decision)>) {
    forall i, j | 0 <= i < |ds| && 0 <= j < |ds| :: Alike(ds[i].0.store, ds[j].0.store)
  }

  lemma AlikeAgrees(dicts: seq<Dict>, s: Store, t: Store)
    requires Alike(s, t)
    ensures Agrees(dicts, s) <==> Agrees(dicts, t)
  {
  }

  /** One unit of work over stores that answer alike, as one policy's always does: endpoint checks, scopes, field
      grants, whole write checks and accounts in any order, all remembered in one dictionary.  Each comes out as
      it does without the cache, and afterwards the caller's own scopes are as they were. */
  method UnitOfWork(cache: GrantCache, world: World, ds: seq<(Policy, Decision)>) returns (os: seq<Outcome>)
    requires cache.Valid() && AllAlike(ds)
    modifies cache
    ensures cache.Valid() && cache.Dicts() == old(cache.Dicts())
    ensures |os| == |ds| && AllUncached(world, ds, os)
  {
    ghost var outer := cache.Dicts();
    cache.Open();
    os := [];
    assert Above(outer, cache.Dicts());
    if |ds| > 0 {
      FreshAgrees(outer, ds[0].0.store);
    }
    assert AllUncached(world, ds, os);
    hide Uncached, AllUncached, Above, Kept, Agrees, Alike;
    for i := 0 to |ds|
      invariant cache.Valid() && Above(outer, cache.Dicts())
      invariant |ds| > 0 ==> Agrees(cache.Dicts(), ds[0].0.store)
      invariant |os| == i && AllUncached(world, ds, os)
    {
      ghost var was := cache.Dicts();
      AlikeAgrees(was, ds[0].0.store, ds[i].0.store);
      var o := Decide(cache, ds[i].0, world, ds[i].1);
      StillAbove(outer, was, cache.Dicts(), ds[i].0.store);
      AlikeAgrees(cache.Dicts(), ds[0].0.store, ds[i].0.store);
      OneMore(world, ds, os, o);
      os := os + [o];
    }
    AboveMeans(outer, cache.Dicts());
    cache.Close();
  }

  /** The outcomes so far are those of the first decisions. */
  ghost predicate AllUncached(world: World, ds: seq<(Policy, Decision)>, os: seq<Outcome>) {
    |os| <= |ds| && forall i | 0 <= i < |os| :: Uncached(ds[i].0, world, ds[i].1, os[i])
  }

  lemma OneMore(world: World, ds: seq<(Policy, Decision)>, os: seq<Outcome>, o: Outcome)
    requires AllUncached(world, ds, os) && |os| < |ds| && Uncached(ds[|os|].0, world, ds[|os|].1, o)
    ensures AllUncached(world, ds, os + [o])
  {
    hide Uncached;
  }

  /** One scope is open above these. */
  ghost predicate Above(outer: seq<Dict>, ds: seq<Dict>) {
    |ds| == |outer| + 1 && ds[..|outer|] == outer
  }

  lemma StillAbove(outer: seq<Dict>, was: seq<Dict>, ds: seq<Dict>, store: Store)
    requires Above(outer, was) && Kept(was, ds, store)
    ensures Above(outer, ds) && Agrees(ds, store)
  {
  }

  lemma AboveMeans(outer: seq<Dict>, ds: seq<Dict>)
    requires Above(outer, ds)
    ensures ds != [] && ds[..|ds| - 1] == outer
  {
  }

  lemma FreshAgrees(outer: seq<Dict>, store: Store)
    ensures Agrees(outer + [map[]], store)
  {
  }

  // ----- stores that share a scope

  /** The question of lookup `i` was first asked by lookup `k`. */
  ghost predicate FirstAsked(ls: seq<(Store, Question)>, i: nat, k: nat) {
    && k <= i < |ls| && ls[k].1 == ls[i].1
    && forall j | 0 <= j < k :: ls[j].1 != ls[i].1
  }

  lemma {:induction false} SomeFirstAsked(ls: seq<(Store, Question)>, i: nat, from: nat) returns (k: nat)
    requires from <= i < |ls| && ls[from].1 == ls[i].1
    ensures FirstAsked(ls, i, k)
    decreases from
  {
    if j: nat :| j < from && ls[j].1 == ls[i].1 {
      k := SomeFirstAsked(ls, i, j);
    } else {
      k := from;
    }
  }

  /** The dictionary after the first `n` lookups. */
  function Shared(ls: seq<(Store, Question)>, n: nat): Dict
    requires n <= |ls|
  {
    if n == 0 then map[]
    else
      var dict, q := Shared(ls, n - 1), ls[n - 1].1;
      if q in dict then dict else dict[q := Ask(ls[n - 1].0, q)]
  }

  lemma {:induction false} SharedDomain(ls: seq<(Store, Question)>, n: nat, q: Question)
    requires n <= |ls| && q in Shared(ls, n)
    ensures exists j :: 0 <= j < n && ls[j].1 == q
  {
    if ls[n - 1].1 != q {
      SharedDomain(ls, n - 1, q);
    }
  }

  lemma {:induction false} SharedHolds(ls: seq<(Store, Question)>, n: nat, k: nat)
    requires k < n <= |ls| && FirstAsked(ls, k, k)
    ensures ls[k].1 in Shared(ls, n) && Shared(ls, n)[ls[k].1] == Ask(ls[k].0, ls[k].1)
  {
    hide Ask;
    if k < n - 1 {
      SharedHolds(ls, n - 1, k);
    } else if ls[k].1 in Shared(ls, k) {
      SharedDomain(ls, k, ls[k].1);
    }
  }

  /** The answers of the first `n` lookups are those of whoever first asked. */
  ghost predicate FirstAnswers(ls: seq<(Store, Question)>, n: nat, answers: seq<Answer>) {
    |answers| == n <= |ls| &&
    forall i: nat, k: nat | i < n && FirstAsked(ls, i, k) :: answers[i] == Ask(ls[k].0, ls[i].1)
  }

  lemma FirstAnswersNext(ls: seq<(Store, Question)>, n: nat, answers: seq<Answer>, a: Answer)
    requires n < |ls| && FirstAnswers(ls, n, answers)
    requires var dict, q := Shared(ls, n), ls[n].1;
      a == if q in dict then dict[q] else Ask(ls[n].0, q)
    ensures FirstAnswers(ls, n + 1, answers + [a])
  {
    hide Ask, Shared;
    forall k: nat | FirstAsked(ls, n, k)
      ensures a == Ask(ls[k].0, ls[n].1)
    {
      if k < n {
        SharedHolds(ls, n, k);
      } else if ls[n].1 in Shared(ls, n) {
        SharedDomain(ls, n, ls[n].1);
      }
    }
  }

  /** Questions name no store, so stores that are asked in one scope share its answers: every lookup is given the
      answer of the store that was first asked its question. */
  method SharedLookUps(cache: GrantCache, ls: seq<(Store, Question)>) returns (answers: seq<Answer>)
    requires cache.Valid()
    modifies cache
    ensures cache.Valid() && cache.Dicts() == old(cache.Dicts())
    ensures FirstAnswers(ls, |ls|, answers)
  {
    ghost var outer := cache.Dicts();
    cache.Open();
    answers := [];
    hide FirstAnswers, FirstAsked, Ask;
    assert FirstAnswers(ls, 0, []) by { NoneAnswered(ls); }
    for n := 0 to |ls|
      invariant cache.Valid() && cache.Dicts() == outer + [Shared(ls, n)]
      invariant FirstAnswers(ls, n, answers)
    {
      var store, q := ls[n].0, ls[n].1;
      var a := LookUpShared(cache, store, q, outer, Shared(ls, n));
      FirstAnswersNext(ls, n, answers, a);
      answers := answers + [a];
    }
    assert cache.Dicts()[..|outer|] == outer;
    cache.Close();
  }

  /** One lookup of any store, in a scope that already remembers something. */
  method LookUpShared(cache: GrantCache, store: Store, q: Question, ghost outer: seq<Dict>, ghost dict: Dict)
    returns (a: Answer)
    requires cache.Valid() && cache.Dicts() == outer + [dict]
    modifies cache
    ensures cache.Valid() && cache.Dicts() == outer + [if q in dict then dict else dict[q := Ask(store, q)]]
    ensures a == if q in dict then dict[q] else Ask(store, q)
  {
    var r := cache.Cached(q, (x: Question) => Ok(Ask(store, x)));
    a := r.value;
  }

  lemma NoneAnswered(ls: seq<(Store, Question)>)
    ensures FirstAnswers(ls, 0, [])
  {
  }

  /** Sharing does no harm, every lookup being given its own store's answer, exactly when any two lookups of one
      question have the same answer without the cache. */
  lemma SharingHarmless(ls: seq<(Store, Question)>, answers: seq<Answer>)
    requires FirstAnswers(ls, |ls|, answers)
    ensures (forall i | 0 <= i < |ls| :: answers[i] == Ask(ls[i].0, ls[i].1)) <==>
      forall i, j | 0 <= i < |ls| && 0 <= j < |ls| && ls[i].1 == ls[j].1 ::
        Ask(ls[i].0, ls[i].1) == Ask(ls[j].0, ls[j].1)
  {
    hide Ask;
    forall i: nat, j: nat | i < |ls| && j < |ls| && ls[i].1 == ls[j].1
      ensures exists k: nat :: k < |ls| && FirstAsked(ls, i, k) && FirstAsked(ls, j, k)
    {
      var k := SomeFirstAsked(ls, i, i);
      assert FirstAsked(ls, j, k) by { SameFirst(ls, i, j, k); }
    }
  }

  lemma SameFirst(ls: seq<(Store, Question)>, i: nat, j: nat, k: nat)
    requires FirstAsked(ls, i, k) && j < |ls| && ls[i].1 == ls[j].1
    ensures FirstAsked(ls, j, k)
  {
  }

  /** Two stores that disagree about one endpoint: the second is given the answer of the first. */
  lemma OtherStoreAnswers(s: Store, t: Store, roles: seq<string>, key: string, answers: seq<Answer>)
    requires s.endpoint(roles, key) && !t.endpoint(roles, key)
    requires var q := AskEndpoint(roles, key); FirstAnswers([(s, q), (t, q)], 2, answers)
    ensures answers == [Endpoint(true), Endpoint(true)] && Ask(t, AskEndpoint(roles, key)) == Endpoint(false)
  {
    var q := AskEndpoint(roles, key);
    var ls := [(s, q), (t, q)];
    assert FirstAsked(ls, 0, 0) && FirstAsked(ls, 1, 0);
  }
}
