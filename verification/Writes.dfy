/** The field tier and the full write-side check. */
module Writes {
  import opened Outcomes
  import opened Values
  import opened Base
  import opened Registry
  import opened Grants
  import opened Predicates
  import opened Resolver
  import opened Denotation
  import opened Access

  /** A submitted value: data, which may be a list, a model instance, or a list of these. */
  datatype Given = Scalar(value: Value) | Record(model: string, pk: int) | Several(items: seq<Given>)

  type Payload = map<string, Given>

  ghost function FieldGrantsFor(p: Policy, user: User, key: string): seq<FieldGrant> {
    if p.principals(user) == [] then [] else p.store.fields(p.principals(user), key)
  }

  // ----- what the grants allow

  ghost function UnionOfFields(gs: seq<FieldGrant>): set<string> {
    set g, f | g in gs && f in g.allowedFields :: f
  }

  /** The values permitted for a field: the union over the grants that constrain it. */
  ghost function UnionOfValues(gs: seq<FieldGrant>, f: string): set<Value> {
    set g, v | g in gs && f in g.allowedValues && v in g.allowedValues[f] :: v
  }

  ghost predicate Constrained(gs: seq<FieldGrant>, f: string) {
    exists g :: g in gs && f in g.allowedValues
  }

  method FieldsGranted(grants: seq<FieldGrant>) returns (out: set<string>)
    ensures out == UnionOfFields(grants)
  {
    out := {};
    for i := 0 to |grants|
      invariant out == UnionOfFields(grants[..i])
    {
      assert grants[..i + 1] == grants[..i] + [grants[i]];
      out := out + grants[i].allowedFields;
    }
    assert grants[..|grants|] == grants;
  }

  method GrantedFields(p: Policy, user: User, key: string) returns (out: set<string>)
    ensures out == UnionOfFields(FieldGrantsFor(p, user, key))
  {
    var roles := p.principals(user);
    out := FieldsGranted(if |roles| > 0 then p.store.fields(roles, key) else []);
  }

  method ValuesAllowed(grants: seq<FieldGrant>) returns (out: map<string, set<Value>>)
    ensures forall f :: f in out <==> Constrained(grants, f)
    ensures forall f | f in out :: out[f] == UnionOfValues(grants, f)
  {
    out := map[];
    for i := 0 to |grants|
      invariant forall f :: f in out <==> Constrained(grants[..i], f)
      invariant forall f | f in out :: out[f] == UnionOfValues(grants[..i], f)
    {
      out := Absorb(out, grants[..i], grants[i]);
      assert grants[..i + 1] == grants[..i] + [grants[i]];
    }
    assert grants[..|grants|] == grants;
  }

  method AllowedValues(p: Policy, user: User, key: string) returns (out: map<string, set<Value>>)
    ensures forall f :: f in out <==> Constrained(FieldGrantsFor(p, user, key), f)
    ensures forall f | f in out :: out[f] == UnionOfValues(FieldGrantsFor(p, user, key), f)
  {
    var roles := p.principals(user);
    out := ValuesAllowed(if |roles| > 0 then p.store.fields(roles, key) else []);
  }

  /** One grant more: only the fields it constrains gain values. */
  method Absorb(known: map<string, set<Value>>, ghost gs: seq<FieldGrant>, g: FieldGrant)
    returns (out: map<string, set<Value>>)
    requires forall f :: f in known <==> Constrained(gs, f)
    requires forall f | f in known :: known[f] == UnionOfValues(gs, f)
    ensures forall f :: f in out <==> Constrained(gs + [g], f)
    ensures forall f | f in out :: out[f] == UnionOfValues(gs + [g], f)
  {
    assert forall h :: h in gs + [g] <==> h in gs || h == g;
    out := known + map f | f in g.allowedValues ::
        (if f in known then known[f] else {}) + g.allowedValues[f];
    forall f
      ensures f in out <==> Constrained(gs + [g], f)
    {
      assert Constrained(gs + [g], f) <==> Constrained(gs, f) || f in g.allowedValues;
    }
    forall f | f in out
      ensures out[f] == UnionOfValues(gs + [g], f)
    {
      UnionGrows(gs, g, f);
    }
  }

  lemma UnionGrows(gs: seq<FieldGrant>, g: FieldGrant, f: string)
    ensures UnionOfValues(gs + [g], f) == UnionOfValues(gs, f) + if f in g.allowedValues then g.allowedValues[f] else {}
    ensures !Constrained(gs, f) ==> UnionOfValues(gs, f) == {}
  {
    assert forall h :: h in gs + [g] <==> h in gs || h == g;
    forall v | v in UnionOfValues(gs, f)
      ensures v in UnionOfValues(gs + [g], f)
    {
      var h :| h in gs && f in h.allowedValues && v in h.allowedValues[f];
      assert h in gs + [g];
    }
    if f in g.allowedValues {
      assert g in gs + [g];
      forall v | v in g.allowedValues[f]
        ensures v in UnionOfValues(gs + [g], f)
      {
      }
    }
  }

  /** Only the fields a key controls are subject to grants; the rest pass through. */
  ghost function VisibleFields(p: Policy, user: User, key: string, candidates: set<string>): Result<set<string>> {
    var spec :- Lookup(p.reg, key);
    if Bypasses(p, user) then Ok(candidates)
    else Ok(candidates - (spec.fields - UnionOfFields(FieldGrantsFor(p, user, key))))
  }

  ghost function StripFields(p: Policy, user: User, key: string, data: Payload): Result<Payload> {
    var allowed :- VisibleFields(p, user, key, data.Keys);
    Ok(map f | f in data && f in allowed :: data[f])
  }

  // ----- the write check

  /** Membership in a set of values needs a hashable value; a list is an error, not a refusal. */
  predicate Hashable(given: Given) {
    match given
    case Scalar(v) => !v.List? && !v.Dict?
    case Record(_, _) => true
    case Several(_) => false
  }

  function ItemOf(given: Given): Item {
    match given
    case Scalar(v) => if v.Null? then Nothing else Data(v)
    case Record(m, pk) => Instance(m, pk)
    case Several(_) => Unreadable
  }

  /** What a submitted value refers to: a list, of data or of instances, refers to each of its elements. */
  function ItemsOf(given: Given): seq<Item> {
    match given
    case Several(items) => seq(|items|, i requires 0 <= i < |items| => ItemOf(items[i]))
    case Scalar(List(vs)) => seq(|vs|, i requires 0 <= i < |vs| => ItemOf(Scalar(vs[i])))
    case _ => [ItemOf(given)]
  }

  /** However a list of data is written, it refers to the same rows; an empty one refers to none. */
  lemma ListsAgree(vs: seq<Value>)
    ensures ItemsOf(Scalar(List(vs))) == ItemsOf(Several(seq(|vs|, i requires 0 <= i < |vs| => Scalar(vs[i]))))
    ensures ItemsOf(Scalar(List([]))) == []
  {
  }

  ghost predicate ValuePermitted(gs: seq<FieldGrant>, f: string, given: Given) {
    Constrained(gs, f) ==> given.Scalar? && Hashable(given) && given.value in UnionOfValues(gs, f)
  }

  /** What a non-superuser must satisfy: the endpoint, the fields, their values, their references. */
  ghost predicate Writable(p: Policy, world: World, user: User, key: string, data: Payload) {
    && Lookup(p.reg, key).Ok?
    && CheckEndpoint(p, user, key) == Ok(true)
    && StripFields(p, user, key, data) == Ok(data)
    && (forall f | f in data :: ValuePermitted(FieldGrantsFor(p, user, key), f, data[f]))
    && var refs := Lookup(p.reg, key).value.fkScopes;
       forall f | f in refs && f in data :: ReferencesInScope(p, world, user, refs[f], ItemsOf(data[f]))
  }

  ghost predicate ReferencesOk(p: Policy, world: World, user: User, refs: map<string, string>, data: Payload) {
    forall f | f in refs && f in data :: ReferencesInScope(p, world, user, refs[f], ItemsOf(data[f]))
  }

  ghost predicate FieldsPart(gs: seq<FieldGrant>, fields: set<string>, data: Payload) {
    forall f | f in data && f in fields :: f in UnionOfFields(gs)
  }

  ghost predicate ValuesPart(gs: seq<FieldGrant>, data: Payload) {
    forall f | f in data :: ValuePermitted(gs, f, data[f])
  }

  /** The write check, its parts side by side. */
  lemma WritableParts(p: Policy, world: World, user: User, key: string, data: Payload)
    requires Lookup(p.reg, key).Ok? && !Bypasses(p, user)
    ensures var spec, gs := Lookup(p.reg, key).value, FieldGrantsFor(p, user, key);
      Writable(p, world, user, key, data) <==>
        && CheckEndpoint(p, user, key) == Ok(true)
        && FieldsPart(gs, spec.fields, data) && ValuesPart(gs, data)
        && ReferencesOk(p, world, user, spec.fkScopes, data)
  {
    StripKeepsAll(p, user, key, data);
    hide Lookup, CheckEndpoint, ReferencesInScope;
    hide StripFields, ValuePermitted, UnionOfFields, FieldGrantsFor;
  }

  method AssertWritable(p: Policy, world: World, user: User, key: string, data: Payload) returns (r: Result<()>)
    ensures r.Ok? <==>
      if p.superuserBypass && user.superuser then Lookup(p.reg, key).Ok? else Writable(p, world, user, key, data)
    ensures CheckEndpoint(p, user, key) == Ok(false) ==> r == Err(Denied(key))
  {
    var looked := Lookup(p.reg, key);
    if looked.Err? {
      return Err(looked.error);
    }
    var reachable := CheckEndpoint(p, user, key);
    if reachable != Ok(true) {
      return Err(Denied(key));
    }
    if Bypasses(p, user) {
      return Ok(());
    }
    var granted := GrantedFields(p, user, key);
    var visible := data.Keys - (looked.value.fields - granted);
    assert data.Keys - visible == {} <==> StripFields(p, user, key, data) == Ok(data) by {
      StripKeepsAll(p, user, key, data);
      assert forall f :: f in data.Keys - visible <==> f in data.Keys * looked.value.fields && f !in granted;
      assert data.Keys - visible != {} ==> exists f :: f in data.Keys - visible;
    }
    if data.Keys - visible != {} {
      return Err(Denied(key));
    }
    var allowed := AllowedValues(p, user, key);
    r := CheckValues(key, allowed, data);
    if r.Err? {
      return;
    }
    r := CheckReferences(p, world, user, looked.value.fkScopes, data);
  }

  lemma StripKeepsAll(p: Policy, user: User, key: string, data: Payload)
    requires Lookup(p.reg, key).Ok? && !Bypasses(p, user)
    ensures StripFields(p, user, key, data) == Ok(data)
      <==> data.Keys * Lookup(p.reg, key).value.fields <= UnionOfFields(FieldGrantsFor(p, user, key))
  {
    var kept := StripFields(p, user, key, data).value;
    assert kept.Keys == data.Keys - (Lookup(p.reg, key).value.fields - UnionOfFields(FieldGrantsFor(p, user, key)));
    if kept.Keys == data.Keys {
      assert kept == data;
    }
  }

  method CheckValues(key: string, allowed: map<string, set<Value>>, data: Payload) returns (r: Result<()>)
    ensures r.Ok? <==> forall f | f in allowed && f in data ::
      data[f].Scalar? && Hashable(data[f]) && data[f].value in allowed[f]
  {
    var todo := allowed.Keys;
    while todo != {}
      invariant todo <= allowed.Keys
      invariant forall f | f in allowed && f !in todo && f in data ::
        data[f].Scalar? && Hashable(data[f]) && data[f].value in allowed[f]
      decreases |todo|
    {
      var f :| f in todo;
      todo := todo - {f};
      if f in data {
        if !Hashable(data[f]) {
          return Err(Other);
        }
        if !(data[f].Scalar? && data[f].value in allowed[f]) {
          return Err(Denied(key));
        }
      }
    }
    return Ok(());
  }

  method CheckReferences(p: Policy, world: World, user: User, refs: map<string, string>, data: Payload)
    returns (r: Result<()>)
    ensures r.Ok? <==> forall f | f in refs && f in data :: ReferencesInScope(p, world, user, refs[f], ItemsOf(data[f]))
  {
    var todo := refs.Keys;
    while todo != {}
      invariant todo <= refs.Keys
      invariant forall f | f in refs && f !in todo && f in data ::
        ReferencesInScope(p, world, user, refs[f], ItemsOf(data[f]))
      decreases |todo|
    {
      var f :| f in todo;
      todo := todo - {f};
      if f in data {
        r := AssertReferenceInScope(p, world, user, refs[f], ItemsOf(data[f]));
        if r.Err? {
          return;
        }
      }
    }
    return Ok(());
  }

  // ----- how acceptance moves

  /** An accepted payload stays accepted when fields are dropped from it. */
  lemma DroppingFieldsKeepsWritable(p: Policy, world: World, user: User, key: string, data: Payload, less: Payload)
    requires Writable(p, world, user, key, data) && !Bypasses(p, user)
    requires forall f | f in less :: f in data && less[f] == data[f]
    ensures Writable(p, world, user, key, less)
  {
    StripKeepsAll(p, user, key, data);
    StripKeepsAll(p, user, key, less);
    assert less.Keys <= data.Keys;
  }

  /** The same policy with one more field grant for this user and key, and nothing else changed. */
  ghost predicate GainsFieldGrant(p: Policy, p': Policy, user: User, key: string, g: FieldGrant) {
    && p' == p.(store := p.store.(fields := p'.store.fields))
    && p.principals(user) != []
    && FieldGrantsFor(p', user, key) == FieldGrantsFor(p, user, key) + [g]
  }

  /** A further grant never hides a field. */
  lemma GrantRevealsMore(p: Policy, p': Policy, user: User, key: string, g: FieldGrant, candidates: set<string>)
    requires GainsFieldGrant(p, p', user, key, g) && Lookup(p.reg, key).Ok?
    ensures VisibleFields(p, user, key, candidates).value <= VisibleFields(p', user, key, candidates).value
  {
    var gs := FieldGrantsFor(p, user, key);
    forall f | f in UnionOfFields(gs)
      ensures f in UnionOfFields(gs + [g])
    {
      var h :| h in gs && f in h.allowedFields;
      assert h in gs + [g];
    }
  }

  /** A further grant rejects an accepted payload exactly when it is the first to constrain one of the
      payload's fields and does not permit the value there.  Constraining fields that were constrained
      already rejects nothing. */
  lemma GrantKeepsWritable(p: Policy, p': Policy, world: World, user: User, key: string, g: FieldGrant, data: Payload)
    requires GainsFieldGrant(p, p', user, key, g) && !Bypasses(p, user)
    requires Writable(p, world, user, key, data)
    ensures Writable(p', world, user, key, data) <==>
      forall f | f in data && f in g.allowedValues && !Constrained(FieldGrantsFor(p, user, key), f) ::
        data[f].Scalar? && Hashable(data[f]) && data[f].value in g.allowedValues[f]
  {
    var gs := FieldGrantsFor(p, user, key);
    StripKeepsAll(p, user, key, data);
    StripKeepsAll(p', user, key, data);
    GrantRevealsMore(p, p', user, key, g, data.Keys);
    assert forall h :: h in gs + [g] <==> h in gs || h == g;
    forall f | f in data
      ensures ValuePermitted(gs + [g], f, data[f]) <==>
        (f in g.allowedValues && !Constrained(gs, f) ==>
          data[f].Scalar? && Hashable(data[f]) && data[f].value in g.allowedValues[f])
    {
      UnionGrows(gs, g, f);
      assert ValuePermitted(gs, f, data[f]);
      assert Constrained(gs + [g], f) <==> Constrained(gs, f) || f in g.allowedValues;
    }
    SameReferences(p, p', world, user, key, data);
  }

  /** References are judged by the object tier, which a field grant leaves alone. */
  lemma SameReferences(p: Policy, p': Policy, world: World, user: User, key: string, data: Payload)
    requires p' == p.(store := p.store.(fields := p'.store.fields))
    requires Lookup(p.reg, key).Ok?
    ensures forall governing, items ::
      ReferencesInScope(p, world, user, governing, items) <==> ReferencesInScope(p', world, user, governing, items)
    ensures CheckEndpoint(p, user, key) == CheckEndpoint(p', user, key)
  {
    forall governing, items
      ensures ReferencesInScope(p, world, user, governing, items) <==>
        ReferencesInScope(p', world, user, governing, items)
    {
      assert ScopeOf(p, user, governing) == ScopeOf(p', user, governing);
      forall model, item
        ensures ReferencePermitted(p, world, user, governing, model, item) ==
          ReferencePermitted(p', world, user, governing, model, item)
      {
      }
    }
  }

  // ----- the parts, told from the store

  /** A superuser the policy lets through sees every candidate; anyone else all but the controlled fields that no
      grant lists. */
  lemma VisibleExactly(p: Policy, user: User, key: string, candidates: set<string>, f: string)
    requires Lookup(p.reg, key).Ok?
    ensures VisibleFields(p, user, key, candidates).Ok?
    ensures f in VisibleFields(p, user, key, candidates).value <==>
      f in candidates &&
      ((p.superuserBypass && user.superuser) || f !in Lookup(p.reg, key).value.fields || GrantLists(p, user, key, f))
  {
    hide Lookup;
  }

  /** Some field grant of some role of the user lists the field for the key. */
  ghost predicate GrantLists(p: Policy, user: User, key: string, f: string) {
    p.principals(user) != [] && exists g :: g in p.store.fields(p.principals(user), key) && f in g.allowedFields
  }

  /** What the grants of the user's roles say of a field's values: if some of them says anything, the value given is
      data, hashable, and one of those they permit. */
  ghost predicate GrantsPermit(p: Policy, user: User, key: string, f: string, given: Given) {
    p.principals(user) != [] ==>
      var gs := p.store.fields(p.principals(user), key);
      (exists g :: g in gs && f in g.allowedValues) ==>
        && given.Scalar? && !given.value.List? && !given.value.Dict?
        && exists g :: g in gs && f in g.allowedValues && given.value in g.allowedValues[f]
  }

  /** The write check for anyone who does not bypass, told from the store: a role with the endpoint, a grant for each
      controlled field, a permitted value for each constrained one, and references in scope. */
  lemma WritableExactly(p: Policy, world: World, user: User, key: string, data: Payload)
    requires Lookup(p.reg, key).Ok? && !(p.superuserBypass && user.superuser)
    ensures var spec, roles := Lookup(p.reg, key).value, p.principals(user);
      Writable(p, world, user, key, data) <==>
        && roles != [] && p.store.endpoint(roles, key)
        && (forall f | f in data && f in spec.fields :: GrantLists(p, user, key, f))
        && (forall f | f in data :: GrantsPermit(p, user, key, f, data[f]))
        && (forall f | f in data && f in spec.fkScopes ::
              ReferencesInScope(p, world, user, spec.fkScopes[f], ItemsOf(data[f])))
  {
    WritableParts(p, world, user, key, data);
    hide Lookup, ReferencesInScope, Writable;
    forall f | f in data
      ensures ValuePermitted(FieldGrantsFor(p, user, key), f, data[f]) <==> GrantsPermit(p, user, key, f, data[f])
      ensures f in UnionOfFields(FieldGrantsFor(p, user, key)) <==> GrantLists(p, user, key, f)
    {
      PermitAlike(p, user, key, f, data[f]);
    }
    hide ValuePermitted, UnionOfFields, GrantLists, GrantsPermit, FieldGrantsFor;
  }

  lemma PermitAlike(p: Policy, user: User, key: string, f: string, given: Given)
    ensures ValuePermitted(FieldGrantsFor(p, user, key), f, given) <==> GrantsPermit(p, user, key, f, given)
    ensures f in UnionOfFields(FieldGrantsFor(p, user, key)) <==> GrantLists(p, user, key, f)
  {
  }

  /** A submitted null refers to nothing, whatever the scope. */
  lemma NullRefersToNothing(p: Policy, world: World, user: User, governing: string)
    ensures ReferencesInScope(p, world, user, governing, ItemsOf(Scalar(Null))) <==>
      Lookup(p.reg, governing).Ok? && Lookup(p.reg, governing).value.model.Some?
  {
    assert ItemsOf(Scalar(Null)) == [Nothing];
  }

  /** A submitted record refers to itself, and is in scope exactly when the object check under the governing key
      accepts it; a record of another model, and a list inside a list, never are. */
  lemma RecordInScope(p: Policy, world: World, user: User, governing: string, m: string, pk: int)
    requires Lookup(p.reg, governing).Ok? && Lookup(p.reg, governing).value.model.Some?
    ensures ReferencesInScope(p, world, user, governing, ItemsOf(Record(m, pk))) <==>
      m == Lookup(p.reg, governing).value.model.value && CheckObject(p, world, user, governing, m, pk) == Ok(true)
  {
    var model, items := Lookup(p.reg, governing).value.model.value, ItemsOf(Record(m, pk));
    assert items == [Instance(m, pk)];
    hide Lookup, ScopeOf, Accepts;
    assert ReferencesInScope(p, world, user, governing, items) <==>
           ReferencePermitted(p, world, user, governing, model, items[0]) == Ok(true);
    if m != model {
      UnreadableReference(p, world, user, governing, model, items[0]);
    }
  }

  lemma ElementInScope(p: Policy, world: World, user: User, governing: string, given: Given)
    requires Lookup(p.reg, governing).Ok? && Lookup(p.reg, governing).value.model.Some?
    requires !(given.Scalar? && given.value.List?)
    ensures var model := Lookup(p.reg, governing).value.model.value;
      ReferencePermitted(p, world, user, governing, model, ItemOf(given)) == Ok(true) <==>
        !given.Several? && ReferencesInScope(p, world, user, governing, ItemsOf(given))
  {
    var model := Lookup(p.reg, governing).value.model.value;
    hide Lookup, ScopeOf, Accepts;
    if given.Several? {
      UnreadableReference(p, world, user, governing, model, ItemOf(given));
    } else {
      assert ItemsOf(given) == [ItemOf(given)];
      hide ItemOf, ItemsOf, ReferencePermitted;
      assert [ItemOf(given)][0] == ItemOf(given);
    }
  }

  /** A list is in scope exactly when each of its elements is, and none is a list of records. */
  lemma ListInScope(p: Policy, world: World, user: User, governing: string, items: seq<Given>)
    requires Lookup(p.reg, governing).Ok? && Lookup(p.reg, governing).value.model.Some?
    requires forall i | 0 <= i < |items| :: !(items[i].Scalar? && items[i].value.List?)
    ensures ReferencesInScope(p, world, user, governing, ItemsOf(Several(items))) <==>
      forall i | 0 <= i < |items| ::
        !items[i].Several? && ReferencesInScope(p, world, user, governing, ItemsOf(items[i]))
  {
    forall i | 0 <= i < |items|
      ensures ItemsOf(Several(items))[i] == ItemOf(items[i])
      ensures ReferencePermitted(p, world, user, governing, Lookup(p.reg, governing).value.model.value,
                                 ItemOf(items[i])) == Ok(true) <==>
        !items[i].Several? && ReferencesInScope(p, world, user, governing, ItemsOf(items[i]))
    {
      ElementInScope(p, world, user, governing, items[i]);
    }
    hide Lookup, ReferencePermitted, ItemOf;
  }

  /** Data read as the key of one row is in scope exactly when some row of the governed model has that key and the
      governing scope holds it. */
  lemma KeyInScope(p: Policy, world: World, user: User, governing: string, v: Value, pk: int)
    requires Lookup(p.reg, governing).Ok? && Lookup(p.reg, governing).value.model.Some?
    requires !v.Null? && !v.List? && world.keyOf(Lookup(p.reg, governing).value.model.value, v) == Some(pk)
    ensures var model := Lookup(p.reg, governing).value.model.value;
      ReferencesInScope(p, world, user, governing, ItemsOf(Scalar(v))) <==>
        && ScopeOf(p, user, governing).Ok?
        && exists row ::
          row in TableOf(world, model) && row.pk == pk && InScope(ScopeOf(p, user, governing).value, row)
  {
    var model, scope := Lookup(p.reg, governing).value.model.value, ScopeOf(p, user, governing);
    var items := [Data(v)];
    assert ItemsOf(Scalar(v)) == items;
    hide Lookup, ScopeOf, ItemsOf, InScope, TableOf;
    assert ReferencesInScope(p, world, user, governing, items) <==> Permits(scope, world, model, items[0]) == Ok(true);
    if scope.Ok? {
      KeyPasses(scope.value, world, model, v, pk);
    }
  }

  lemma KeyPasses(scope: Scope, world: World, model: string, v: Value, pk: int)
    requires world.keyOf(model, v) == Some(pk)
    ensures Permits(Ok(scope), world, model, Data(v)) == Ok(true) <==>
      exists row :: row in TableOf(world, model) && row.pk == pk && InScope(scope, row)
  {
    var table := TableOf(world, model);
    hide Filter, Matches, TableOf;
    forall row
      ensures row in Through(scope, table) <==> row in table && InScope(scope, row)
    {
      ThroughMembers(scope, table, row);
    }
    if scope.Filtered? {
      forall row
        ensures row in Filter(table, scope.q) <==> row in table && InScope(scope, row)
      {
        FilterMembers(table, scope.q, row);
      }
    }
  }
}
