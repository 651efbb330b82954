/** The in-memory registry of declarations, and the keys assembled from it. */
module Registry {
  import opened Outcomes
  import opened Keys
  import opened Base

  datatype ObjectSpec = ObjectSpec(model: Option<string>, title: string, references: map<string, string>)

  datatype EndpointSpec = EndpointSpec(title: string, targets: seq<string>)

  datatype GroupSpec = GroupSpec(fields: seq<string>, title: string)

  datatype KeySpec = KeySpec(
    id: string,
    resource: string,
    model: Option<string>,
    fields: set<string>,
    fkScopes: map<string, string>)

  /** The registry's dictionaries, as one value. */
  datatype Reg = Reg(
    objects: map<string, ObjectSpec>,
    keys: map<string, KeySpec>,
    conditions: map<string, ConditionSpec>,
    endpoints: map<string, EndpointSpec>,
    groups: map<(string, string), GroupSpec>,
    points: map<(string, string), seq<string>>)

  /** The registry before any registration. */
  function NothingDeclared(): Reg {
    Reg(map[], map[], map[], map[], map[], map[])
  }

  // ----- lookup

  function ReferencedKeys(reg: Reg): set<string> {
    set o, f | o in reg.objects && f in reg.objects[o].references :: reg.objects[o].references[f]
  }

  function ScopedKeys(reg: Reg): set<string> {
    set p | p in reg.points :: JoinKey(p.0, p.1)
  }

  /** Every key some declaration mentions. */
  function KnownKeys(reg: Reg): set<string> {
    reg.keys.Keys + reg.endpoints.Keys + ScopedKeys(reg) + ReferencedKeys(reg)
  }

  function ControlledFields(reg: Reg, objectKey: string): set<string> {
    set g, f | g in reg.groups && g.0 == objectKey && f in reg.groups[g].fields :: f
  }

  /** A key is assembled from its object unless it was registered as a whole. */
  function Lookup(reg: Reg, id: string): (r: Result<KeySpec>)
    ensures r.Err? ==> r.error == UnknownKey(id)
  {
    if id in reg.keys then Ok(reg.keys[id])
    else
      var h := RPartition(id);
      if h.objectKey !in reg.objects || h.verb == "" || id !in KnownKeys(reg) then Err(UnknownKey(id))
      else
        Ok(KeySpec(id, h.objectKey, reg.objects[h.objectKey].model, ControlledFields(reg, h.objectKey),
                   reg.objects[h.objectKey].references))
  }

  function Condition(reg: Reg, id: string): Result<ConditionSpec> {
    if id in reg.conditions then Ok(reg.conditions[id]) else Err(UnknownCondition(id))
  }

  // ----- registration, one step at a time

  datatype Step =
    | AddKey(spec: KeySpec)
    | AddCondition(condition: ConditionSpec)
    | AddObject(key: string, model: Option<string>, title: string)
    | AddReferences(objectKey: string, references: map<string, string>)
    | AddEndpoint(endpoint: string, title: string, target: string)
    | AddGroup(owner: string, group: string, fields: seq<string>, title: string)
    | AddPoint(pointObject: string, verb: string, target: string)

  function Upper(c: char): char {
    if 'a' <= c <= 'z' then c - 32 as char else c
  }

  function Lower(c: char): char {
    if 'A' <= c <= 'Z' then c + 32 as char else c
  }

  /** `str.capitalize()` on ASCII. */
  function Capitalize(s: string): string {
    if s == "" then "" else [Upper(s[0])] + seq(|s| - 1, i requires 0 <= i < |s| - 1 => Lower(s[i + 1]))
  }

  function Spaced(s: string): string {
    seq(|s|, i requires 0 <= i < |s| => if s[i] == '_' then ' ' else s[i])
  }

  /** A label made from a key is the key with its first letter in upper case and the others in lower case, and, for
      a group, with spaces for underscores. */
  lemma LabelExactly(s: string, i: nat)
    requires i < |s|
    ensures |Spaced(s)| == |s| && Spaced(s)[i] == if s[i] == '_' then ' ' else s[i]
    ensures |Capitalize(s)| == |s| && var c := Capitalize(s)[i];
      && !(i == 0 && 'a' <= c <= 'z') && !(i > 0 && 'A' <= c <= 'Z')
      && (c == s[i] || (i == 0 && 'a' <= s[i] <= 'z' && c as int + 32 == s[i] as int)
                    || (i > 0 && 'A' <= s[i] <= 'Z' && c as int == s[i] as int + 32))
  {
  }

  function MergedObject(reg: Reg, key: string, model: Option<string>, title: string): ObjectSpec {
    if key in reg.objects then
      var current := reg.objects[key];
      ObjectSpec(if model.Some? then model else current.model, if title != "" then title else current.title,
        current.references)
    else ObjectSpec(model, if title != "" then title else Capitalize(key), map[])
  }

  predicate Rebinds(reg: Reg, key: string, model: Option<string>) {
    key in reg.objects && model.Some? && reg.objects[key].model.Some? && reg.objects[key].model != model
  }

  /** The registry after a step that is accepted; a rejected step is an error. */
  function Apply(reg: Reg, step: Step): Result<Reg> {
    match step
    case AddKey(spec) =>
      if spec.id in reg.keys then Err(DuplicateRegistration(spec.id))
      else Ok(reg.(keys := reg.keys[spec.id := spec]))
    case AddCondition(c) =>
      if c.id in reg.conditions then Err(DuplicateRegistration(c.id))
      else Ok(reg.(conditions := reg.conditions[c.id := c]))
    case AddObject(key, model, title) =>
      if Rebinds(reg, key, model) then Err(DuplicateRegistration(key))
      else Ok(reg.(objects := reg.objects[key := MergedObject(reg, key, model, title)]))
    case AddReferences(key, refs) =>
      var current := MergedObject(reg, key, None, "");
      Ok(reg.(objects := reg.objects[key := current.(references := current.references + refs)]))
    case AddEndpoint(key, title, target) =>
      if key !in reg.endpoints then
        Ok(reg.(endpoints := reg.endpoints[key := EndpointSpec(if title != "" then title else key,
                                                              if target != "" then [target] else [])]))
      else
        var current := reg.endpoints[key];
        if title != "" && title != current.title then Err(DuplicateRegistration(key))
        else Ok(reg.(endpoints := reg.endpoints[key := current.(targets := WithTarget(current.targets, target))]))
    case AddGroup(o, g, fields, title) =>
      var spec := GroupSpec(fields, if title != "" then title else Capitalize(Spaced(g)));
      if (o, g) in reg.groups && reg.groups[(o, g)] != spec then Err(DuplicateRegistration(JoinKey(o, g)))
      else Ok(reg.(groups := reg.groups[(o, g) := spec]))
    case AddPoint(o, verb, target) =>
      var current := if (o, verb) in reg.points then reg.points[(o, verb)] else [];
      Ok(reg.(points := reg.points[(o, verb) := current + [target]]))
  }

  /** A target already listed, or no target at all, adds nothing. */
  function WithTarget(targets: seq<string>, target: string): seq<string> {
    if target == "" || target in targets then targets else targets + [target]
  }

  function After(reg: Reg, step: Step): Reg {
    var r := Apply(reg, step);
    if r.Ok? then r.value else reg
  }

  /** A whole run of registrations; a rejected one leaves the registry as it was. */
  function Run(reg: Reg, steps: seq<Step>): Reg
    decreases |steps|
  {
    if steps == [] then reg else Run(After(reg, steps[0]), steps[1..])
  }

  // ----- the registry object

  class Registrations {
    var objects: map<string, ObjectSpec>
    var keys: map<string, KeySpec>
    var conditions: map<string, ConditionSpec>
    var endpoints: map<string, EndpointSpec>
    var groups: map<(string, string), GroupSpec>
    var points: map<(string, string), seq<string>>

    function View(): Reg
      reads this
    {
      Reg(objects, keys, conditions, endpoints, groups, points)
    }

    constructor ()
      ensures View() == Reg(map[], map[], map[], map[], map[], map[])
    {
      objects, keys, conditions, endpoints, groups, points := map[], map[], map[], map[], map[], map[];
    }

    ghost predicate Stepped(before: Reg, step: Step, error: Option<Error>)
      reads this
    {
      match Apply(before, step)
      case Ok(after) => error == None && View() == after
      case Err(e) => error == Some(e) && View() == before
    }

    method RegisterKey(spec: KeySpec) returns (error: Option<Error>)
      modifies this
      ensures Stepped(old(View()), AddKey(spec), error)
    {
      if spec.id in keys {
        return Some(DuplicateRegistration(spec.id));
      }
      keys := keys[spec.id := spec];
      error := None;
    }

    method RegisterCondition(spec: ConditionSpec) returns (error: Option<Error>)
      modifies this
      ensures Stepped(old(View()), AddCondition(spec), error)
    {
      if spec.id in conditions {
        return Some(DuplicateRegistration(spec.id));
      }
      conditions := conditions[spec.id := spec];
      error := None;
    }

    method RegisterObject(key: string, model: Option<string>, title: string) returns (error: Option<Error>)
      modifies this
      ensures Stepped(old(View()), AddObject(key, model, title), error)
    {
      var spec := ObjectSpec(model, if title != "" then title else Capitalize(key), map[]);
      if key in objects {
        var existing := objects[key];
        spec := ObjectSpec(if model.Some? then model else existing.model,
                           if title != "" then title else existing.title,
                           existing.references);
        if model.Some? && existing.model.Some? && existing.model != model {
          return Some(DuplicateRegistration(key));
        }
      }
      objects := objects[key := spec];
      error := None;
    }

    method RegisterReferences(key: string, references: map<string, string>)
      modifies this
      ensures Stepped(old(View()), AddReferences(key, references), None)
    {
      if key !in objects {
        var _ := RegisterObject(key, None, "");
      }
      var existing := objects[key];
      objects := objects[key := ObjectSpec(existing.model, existing.title, existing.references + references)];
    }

    method RegisterEndpoint(key: string, title: string, target: string) returns (error: Option<Error>)
      modifies this
      ensures Stepped(old(View()), AddEndpoint(key, title, target), error)
    {
      error := None;
      if key !in endpoints {
        endpoints := endpoints[key := EndpointSpec(if title != "" then title else key,
                                                   if target != "" then [target] else [])];
        return;
      }
      var existing := endpoints[key];
      if title != "" && title != existing.title {
        return Some(DuplicateRegistration(key));
      }
      var targets := existing.targets;
      if target != "" && target !in targets {
        targets := targets + [target];
      }
      endpoints := endpoints[key := EndpointSpec(existing.title, targets)];
    }

    method RegisterGroup(owner: string, group: string, fields: seq<string>, title: string)
      returns (error: Option<Error>)
      modifies this
      ensures Stepped(old(View()), AddGroup(owner, group, fields, title), error)
    {
      var spec := GroupSpec(fields, if title != "" then title else Capitalize(Spaced(group)));
      if (owner, group) in groups && groups[(owner, group)] != spec {
        return Some(DuplicateRegistration(JoinKey(owner, group)));
      }
      groups := groups[(owner, group) := spec];
      error := None;
    }

    method RegisterPoint(owner: string, verb: string, target: string)
      modifies this
      ensures Stepped(old(View()), AddPoint(owner, verb, target), None)
    {
      if (owner, verb) !in points {
        points := points[(owner, verb) := []];
      }
      points := points[(owner, verb) := points[(owner, verb)] + [target]];
    }
  }

  // ----- growth

  /** Nothing that resolved stops resolving, and what it resolves to only grows. */
  ghost predicate Grown(a: Reg, b: Reg) {
    && KnownKeys(a) <= KnownKeys(b)
    && (forall o | o in a.objects ::
      o in b.objects && (a.objects[o].model.Some? ==> b.objects[o].model == a.objects[o].model))
    && (forall k | Lookup(a, k).Ok? :: Lookup(b, k).Ok? && Wider(Lookup(a, k).value, Lookup(b, k).value))
  }

  ghost predicate Wider(a: KeySpec, b: KeySpec) {
    && a.resource == b.resource
    && (a.model.Some? ==> b.model == a.model)
    && a.fields <= b.fields
    && a.fkScopes.Keys <= b.fkScopes.Keys
  }

  predicate Repoints(reg: Reg, key: string, refs: map<string, string>, f: string) {
    f in refs && key in reg.objects && f in reg.objects[key].references && reg.objects[key].references[f] != refs[f]
  }

  /** What still mentions `k` once `refs` has been merged into the references of `key`. */
  ghost predicate MentionedAfter(reg: Reg, key: string, refs: map<string, string>, k: string) {
    || k in reg.keys || k in reg.endpoints || k in ScopedKeys(reg)
    || k in refs.Values
    || exists o, f :: RefersTo(reg, o, f, k) && (o != key || f !in refs)
  }

  ghost predicate RefersTo(reg: Reg, o: string, f: string, k: string) {
    o in reg.objects && f in reg.objects[o].references && reg.objects[o].references[f] == k
  }

  /** What a step must meet to take nothing away.  Only two kinds can: one that points a governed reference at
      another key must leave the old key mentioned somewhere, and one that registers a whole key, unless it is
      refused, must offer at least what the key was assembled to. */
  ghost predicate Additive(reg: Reg, step: Step) {
    match step
    case AddReferences(key, refs) =>
      forall f | Repoints(reg, key, refs, f) :: MentionedAfter(reg, key, refs, reg.objects[key].references[f])
    case AddKey(spec) => spec.id in reg.keys || (Lookup(reg, spec.id).Ok? ==> Wider(Lookup(reg, spec.id).value, spec))
    case _ => true
  }

  ghost predicate AllAdditive(reg: Reg, steps: seq<Step>)
    decreases |steps|
  {
    steps == [] || (Additive(reg, steps[0]) && AllAdditive(After(reg, steps[0]), steps[1..]))
  }

  /** One registry holds everything another holds, under the same whole keys. */
  ghost predicate Contains(b: Reg, a: Reg) {
    && b.keys == a.keys
    && a.endpoints.Keys <= b.endpoints.Keys
    && a.points.Keys <= b.points.Keys
    && (forall g | g in a.groups :: g in b.groups && b.groups[g] == a.groups[g])
    && (forall o | o in a.objects :: o in b.objects && Kept(a.objects[o], b.objects[o]))
  }

  /** References may point elsewhere; none is dropped. */
  ghost predicate Kept(a: ObjectSpec, b: ObjectSpec) {
    && (a.model.Some? ==> b.model == a.model)
    && a.references.Keys <= b.references.Keys
  }

  lemma StepContains(reg: Reg, step: Step)
    requires !step.AddKey?
    ensures Contains(After(reg, step), reg)
    ensures !step.AddReferences? ==> ReferencedKeys(reg) <= ReferencedKeys(After(reg, step))
  {
    match step
    case AddCondition(c) =>
    case AddObject(key, model, title) => ObjectContains(reg, key, model, title);
    case AddReferences(key, refs) => ReferencesContains(reg, key, refs);
    case AddEndpoint(key, title, target) => EndpointContains(reg, key, title, target);
    case AddGroup(o, g, fields, title) => GroupContains(reg, o, g, fields, title);
    case AddPoint(o, verb, target) => PointContains(reg, o, verb, target);
  }

  lemma ObjectContains(reg: Reg, key: string, model: Option<string>, title: string)
    ensures Contains(After(reg, AddObject(key, model, title)), reg)
    ensures ReferencedKeys(reg) <= ReferencedKeys(After(reg, AddObject(key, model, title)))
  {
    var after := After(reg, AddObject(key, model, title));
    assert after == reg.(objects := after.objects);
    assert key in reg.objects ==> after.objects[key].references == reg.objects[key].references;
    forall o | o in reg.objects
      ensures o in after.objects && Kept(reg.objects[o], after.objects[o])
      ensures after.objects[o].references == reg.objects[o].references
    {
    }
    SameReferences(reg, after);
    hide After, ReferencedKeys, Kept;
  }

  lemma SameReferences(a: Reg, b: Reg)
    requires forall o | o in a.objects :: o in b.objects && b.objects[o].references == a.objects[o].references
    ensures ReferencedKeys(a) <= ReferencedKeys(b)
  {
    forall k | k in ReferencedKeys(a)
      ensures k in ReferencedKeys(b)
    {
      var o, f :| o in a.objects && f in a.objects[o].references && k == a.objects[o].references[f];
      assert b.objects[o].references[f] == k;
    }
  }

  lemma ReferencesContains(reg: Reg, key: string, refs: map<string, string>)
    ensures Contains(After(reg, AddReferences(key, refs)), reg)
  {
    var after := After(reg, AddReferences(key, refs));
    assert after == reg.(objects := after.objects);
    assert key in reg.objects ==> Kept(reg.objects[key], after.objects[key]);
  }

  lemma EndpointContains(reg: Reg, key: string, title: string, target: string)
    ensures Contains(After(reg, AddEndpoint(key, title, target)), reg)
    ensures After(reg, AddEndpoint(key, title, target)).objects == reg.objects
  {
    var after := After(reg, AddEndpoint(key, title, target));
    assert after == reg.(endpoints := after.endpoints);
  }

  lemma GroupContains(reg: Reg, o: string, g: string, fields: seq<string>, title: string)
    ensures Contains(After(reg, AddGroup(o, g, fields, title)), reg)
    ensures After(reg, AddGroup(o, g, fields, title)).objects == reg.objects
  {
    var after := After(reg, AddGroup(o, g, fields, title));
    assert after == reg.(groups := after.groups);
  }

  lemma PointContains(reg: Reg, o: string, verb: string, target: string)
    ensures Contains(After(reg, AddPoint(o, verb, target)), reg)
    ensures After(reg, AddPoint(o, verb, target)).objects == reg.objects
  {
    var after := After(reg, AddPoint(o, verb, target));
    assert after == reg.(points := after.points);
  }

  lemma KnownKept(b: Reg, a: Reg)
    requires Contains(b, a) && ReferencedKeys(a) <= ReferencedKeys(b)
    ensures KnownKeys(a) <= KnownKeys(b)
  {
    forall k | k in ScopedKeys(a)
      ensures k in ScopedKeys(b)
    {
      var p :| p in a.points && k == JoinKey(p.0, p.1);
      assert p in b.points;
    }
  }

  lemma LookupKept(b: Reg, a: Reg, k: string)
    requires Contains(b, a) && KnownKeys(a) <= KnownKeys(b)
    requires Lookup(a, k).Ok?
    ensures Lookup(b, k).Ok? && Wider(Lookup(a, k).value, Lookup(b, k).value)
  {
    if k !in a.keys {
      var o := RPartition(k).objectKey;
      assert Kept(a.objects[o], b.objects[o]);
      forall f | f in ControlledFields(a, o)
        ensures f in ControlledFields(b, o)
      {
        var g :| g in a.groups && g.0 == o && f in a.groups[g].fields;
        assert g in b.groups && f in b.groups[g].fields;
      }
    }
  }

  lemma ContainedGrows(b: Reg, a: Reg)
    requires Contains(b, a) && KnownKeys(a) <= KnownKeys(b)
    ensures Grown(a, b)
  {
    forall o | o in a.objects
      ensures o in b.objects && (a.objects[o].model.Some? ==> b.objects[o].model == a.objects[o].model)
    {
      assert Kept(a.objects[o], b.objects[o]);
    }
    forall k | Lookup(a, k).Ok?
      ensures Lookup(b, k).Ok? && Wider(Lookup(a, k).value, Lookup(b, k).value)
    {
      LookupKept(b, a, k);
    }
  }

  /** Taking a key over as a whole keeps growth exactly when it offers what the key was assembled to. */
  lemma TakeoverGrows(reg: Reg, spec: KeySpec)
    requires spec.id !in reg.keys
    ensures Grown(reg, After(reg, AddKey(spec))) <==>
      (Lookup(reg, spec.id).Ok? ==> Wider(Lookup(reg, spec.id).value, spec))
  {
    var after := After(reg, AddKey(spec));
    assert after == reg.(keys := reg.keys[spec.id := spec]);
    assert KnownKeys(after) == KnownKeys(reg) + {spec.id};
    forall k | k != spec.id
      ensures Lookup(after, k) == Lookup(reg, k)
    {
    }
    assert Lookup(after, spec.id) == Ok(spec);
    hide Lookup, KnownKeys, Wider;
    WiderSelf(reg, after, spec.id);
  }

  lemma WiderSelf(reg: Reg, after: Reg, id: string)
    requires forall k | k != id :: Lookup(after, k) == Lookup(reg, k)
    ensures forall k | k != id && Lookup(reg, k).Ok? :: Wider(Lookup(reg, k).value, Lookup(after, k).value)
  {
    hide Lookup;
  }

  /** A step keeps growth exactly when it meets its condition. */
  lemma StepGrowsExactly(reg: Reg, step: Step)
    ensures Grown(reg, After(reg, step)) <==> Additive(reg, step)
  {
    var after := After(reg, step);
    if step.AddKey? {
      if step.spec.id in reg.keys {
        StepRefused(reg, step);
      } else {
        TakeoverGrows(reg, step.spec);
      }
    } else {
      StepContains(reg, step);
      if step.AddReferences? {
        RepointingKeepsKeys(reg, step.objectKey, step.references);
        hide KnownKeys, Lookup, Contains, MentionedAfter;
        if KnownKeys(reg) <= KnownKeys(after) {
          ContainedGrows(after, reg);
        }
      } else {
        KnownKept(after, reg);
        ContainedGrows(after, reg);
      }
    }
  }

  lemma StepRefused(reg: Reg, step: Step)
    requires Apply(reg, step).Err?
    ensures Grown(reg, After(reg, step))
  {
    hide Lookup, KnownKeys;
  }

  lemma GrownTransitive(a: Reg, b: Reg, c: Reg)
    requires Grown(a, b) && Grown(b, c)
    ensures Grown(a, c)
  {
    forall k | Lookup(a, k).Ok?
      ensures Lookup(c, k).Ok? && Wider(Lookup(a, k).value, Lookup(c, k).value)
    {
      assert Lookup(b, k).Ok?;
    }
  }

  /** Over any run of registrations each of which meets its condition the registry only grows; one that is
      rejected changes nothing and meets it. */
  lemma {:induction false} RegistryGrows(reg: Reg, steps: seq<Step>)
    requires AllAdditive(reg, steps)
    ensures Grown(reg, Run(reg, steps))
    decreases |steps|
  {
    hide Lookup, KnownKeys, After, Additive;
    if steps != [] {
      var next := After(reg, steps[0]);
      StepGrowsExactly(reg, steps[0]);
      RegistryGrows(next, steps[1..]);
      GrownTransitive(reg, next, Run(reg, steps));
    } else {
      GrownSelf(reg);
    }
  }

  lemma GrownSelf(reg: Reg)
    ensures Grown(reg, reg)
  {
    hide Lookup, KnownKeys;
  }

  /** A run that re-points no reference and takes over no known key meets every condition. */
  lemma PlainStepsAreAdditive(reg: Reg, step: Step)
    requires step.AddReferences? ==> forall f :: !Repoints(reg, step.objectKey, step.references, f)
    requires step.AddKey? ==> step.spec.id in reg.keys || step.spec.id !in KnownKeys(reg)
    ensures Additive(reg, step)
  {
  }

  /** Merging references keeps every known key exactly when each re-pointed target is still mentioned
      somewhere: by another declaration, another reference, or the new references themselves. */
  lemma RepointingKeepsKeys(reg: Reg, key: string, refs: map<string, string>)
    ensures KnownKeys(reg) <= KnownKeys(Apply(reg, AddReferences(key, refs)).value)
      <==> forall f | Repoints(reg, key, refs, f) :: MentionedAfter(reg, key, refs, reg.objects[key].references[f])
  {
    var after := Apply(reg, AddReferences(key, refs)).value;
    forall k ensures k in KnownKeys(after) <==> MentionedAfter(reg, key, refs, k) {
      MentionedExactly(reg, key, refs, k);
    }
    if forall f | Repoints(reg, key, refs, f) :: MentionedAfter(reg, key, refs, reg.objects[key].references[f]) {
      forall k | k in KnownKeys(reg)
        ensures MentionedAfter(reg, key, refs, k)
      {
        if k in ReferencedKeys(reg) {
          var o, f :| o in reg.objects && f in reg.objects[o].references && k == reg.objects[o].references[f];
          assert RefersTo(reg, o, f, k);
          if o == key && f in refs {
            if refs[f] != k {
              assert Repoints(reg, key, refs, f);
            } else {
              assert k in refs.Values;
            }
          }
        }
      }
    } else {
      var f :| Repoints(reg, key, refs, f) && !MentionedAfter(reg, key, refs, reg.objects[key].references[f]);
      assert reg.objects[key].references[f] in KnownKeys(reg);
    }
  }

  lemma MentionedExactly(reg: Reg, key: string, refs: map<string, string>, k: string)
    ensures k in KnownKeys(Apply(reg, AddReferences(key, refs)).value) <==> MentionedAfter(reg, key, refs, k)
  {
    var after := Apply(reg, AddReferences(key, refs)).value;
    assert ScopedKeys(after) == ScopedKeys(reg);
    hide ScopedKeys;
    if k in ReferencedKeys(after) {
      var o, f :| o in after.objects && f in after.objects[o].references && k == after.objects[o].references[f];
      if o == key && f in refs {
        assert k == refs[f];
      } else {
        assert RefersTo(reg, o, f, k);
      }
    }
    if k in refs.Values {
      var f :| f in refs && refs[f] == k;
      assert after.objects[key].references[f] == k;
      assert k in ReferencedKeys(after);
    } else if exists o, f :: RefersTo(reg, o, f, k) && (o != key || f !in refs) {
      var o, f :| RefersTo(reg, o, f, k) && (o != key || f !in refs);
      assert after.objects[o].references[f] == k;
      assert k in ReferencedKeys(after);
    }
  }

  function OneReference(): Reg {
    Reg(map["w" := ObjectSpec(None, "W", map["owner" := "u.view"])], map[], map[], map[], map[], map[])
  }

  /** A known key lost by pointing its only mention elsewhere. */
  lemma RepointingLosesKey()
    ensures var refs := map["owner" := "u.list"];
      && "u.view" in KnownKeys(OneReference())
      && "u.view" !in KnownKeys(After(OneReference(), AddReferences("w", refs)))
      && !Grown(OneReference(), After(OneReference(), AddReferences("w", refs)))
  {
    var reg, refs := OneReference(), map["owner" := "u.list"];
    assert reg.objects["w"].references["owner"] == "u.view";
    MentionedExactly(reg, "w", refs, "u.view");
    assert "u.view" !in refs.Values;
  }
}
