/** What a key is assembled to, told from the registrations of a run alone. */
module Assembly {
  import opened Outcomes
  import opened Keys
  import opened Values
  import opened Base
  import opened Registry
  import opened Resolver
  import opened Denotation
  import opened Access
  import opened Writes

  // ----- a run, step by step

  /** The registry before step `n`, from nothing. */
  function Upto(steps: seq<Step>, n: nat): Reg
    requires n <= |steps|
  {
    if n == 0 then NothingDeclared() else After(Upto(steps, n - 1), steps[n - 1])
  }

  lemma {:induction false} RunOn(reg: Reg, steps: seq<Step>, step: Step)
    ensures Run(reg, steps + [step]) == After(Run(reg, steps), step)
    decreases |steps|
  {
    hide After;
    if steps == [] {
      assert Run(After(reg, step), []) == After(reg, step);
      assert ([] + [step])[1..] == [];
    } else {
      assert (steps + [step])[1..] == steps[1..] + [step];
      RunOn(After(reg, steps[0]), steps[1..], step);
    }
  }

  lemma {:induction false} RunIsUpto(steps: seq<Step>, n: nat)
    requires n <= |steps|
    ensures Run(NothingDeclared(), steps[..n]) == Upto(steps, n)
  {
    hide After;
    if n > 0 {
      RunIsUpto(steps, n - 1);
      assert steps[..n] == steps[..n - 1] + [steps[n - 1]];
      RunOn(NothingDeclared(), steps[..n - 1], steps[n - 1]);
    }
  }

  ghost predicate Accepted(steps: seq<Step>, i: nat) {
    i < |steps| && Apply(Upto(steps, i), steps[i]).Ok?
  }

  // ----- what the steps say

  /** An accepted registration of the object under this model. */
  ghost predicate BindsModel(steps: seq<Step>, i: nat, o: string, m: string) {
    Accepted(steps, i) && steps[i].AddObject? && steps[i].key == o && steps[i].model == Some(m)
  }

  /** The object is declared, or its references are. */
  predicate Mentions(step: Step, o: string) {
    (step.AddObject? && step.key == o) || (step.AddReferences? && step.objectKey == o)
  }

  /** An accepted declaration of the group with these fields. */
  ghost predicate Groups(steps: seq<Step>, i: nat, o: string, g: string, fields: seq<string>) {
    && Accepted(steps, i) && steps[i].AddGroup?
    && steps[i].owner == o && steps[i].group == g && steps[i].fields == fields
  }

  predicate Governs(step: Step, o: string, f: string) {
    step.AddReferences? && step.objectKey == o && f in step.references
  }

  /** The last registration, of the first `n`, that governs the reference, and by which key. */
  ghost predicate LastGoverns(steps: seq<Step>, n: nat, i: nat, o: string, f: string, target: string) {
    && i < n <= |steps| && Governs(steps[i], o, f) && steps[i].references[f] == target
    && forall j | i < j < n :: !Governs(steps[j], o, f)
  }

  predicate Opens(step: Step, key: string) {
    step.AddEndpoint? && step.endpoint == key
  }

  predicate Scopes(step: Step, o: string, verb: string) {
    step.AddPoint? && step.pointObject == o && step.verb == verb
  }

  ghost predicate Keeps(steps: seq<Step>, i: nat, spec: KeySpec) {
    Accepted(steps, i) && steps[i] == AddKey(spec)
  }

  ghost predicate Filters(steps: seq<Step>, i: nat, c: ConditionSpec) {
    Accepted(steps, i) && steps[i] == AddCondition(c)
  }

  // ----- and what the registry holds then

  lemma ModelStep(reg: Reg, step: Step, o: string, m: string)
    ensures o in After(reg, step).objects && After(reg, step).objects[o].model == Some(m) <==>
      || (o in reg.objects && reg.objects[o].model == Some(m))
      || (Apply(reg, step).Ok? && step.AddObject? && step.key == o && step.model == Some(m))
  {
  }

  lemma {:induction false} ModelsFrom(steps: seq<Step>, n: nat, o: string, m: string)
    requires n <= |steps|
    ensures o in Upto(steps, n).objects && Upto(steps, n).objects[o].model == Some(m) <==>
      exists i: nat :: i < n && BindsModel(steps, i, o, m)
  {
    hide After, Apply;
    if n > 0 {
      ModelsFrom(steps, n - 1, o, m);
      ModelStep(Upto(steps, n - 1), steps[n - 1], o, m);
      var last := steps[n - 1];
      assert BindsModel(steps, n - 1, o, m) <==>
        Accepted(steps, n - 1) && last.AddObject? && last.key == o && last.model == Some(m);
    }
  }

  lemma ObjectStep(reg: Reg, step: Step, o: string)
    ensures o in After(reg, step).objects <==> o in reg.objects || Mentions(step, o)
  {
  }

  lemma {:induction false} ObjectsFrom(steps: seq<Step>, n: nat, o: string)
    requires n <= |steps|
    ensures o in Upto(steps, n).objects <==> exists i: nat :: i < n && Mentions(steps[i], o)
  {
    hide After, Mentions;
    if n > 0 {
      ObjectsFrom(steps, n - 1, o);
      ObjectStep(Upto(steps, n - 1), steps[n - 1], o);
    }
  }

  /** An accepted registration of the object with a label. */
  predicate GivesTitle(reg: Reg, step: Step, o: string) {
    Apply(reg, step).Ok? && step.AddObject? && step.key == o && step.title != ""
  }

  ghost predicate Titles(steps: seq<Step>, i: nat, o: string) {
    i < |steps| && GivesTitle(Upto(steps, i), steps[i], o)
  }

  lemma TitleStep(reg: Reg, step: Step, o: string)
    requires o in After(reg, step).objects
    ensures After(reg, step).objects[o].title ==
      if GivesTitle(reg, step, o) then step.title else if o in reg.objects then reg.objects[o].title else Capitalize(o)
  {
    hide Capitalize, Spaced, WithTarget;
  }

  /** The last of them among the first `n`. */
  ghost predicate LastTitles(steps: seq<Step>, n: nat, i: nat, o: string) {
    i < n && Titles(steps, i, o) && steps[i].AddObject? && forall j | i < j < n :: !Titles(steps, j, o)
  }

  /** An object has the label it was last accepted with, or one made from its key. */
  lemma {:induction false} TitleFrom(steps: seq<Step>, n: nat, o: string)
    requires n <= |steps| && o in Upto(steps, n).objects
    ensures forall i: nat | LastTitles(steps, n, i, o) :: Upto(steps, n).objects[o].title == steps[i].title
    ensures (forall i: nat | i < n :: !Titles(steps, i, o)) ==> Upto(steps, n).objects[o].title == Capitalize(o)
  {
    hide After, Apply, Capitalize, GivesTitle;
    if n > 0 {
      TitleStep(Upto(steps, n - 1), steps[n - 1], o);
      if o in Upto(steps, n - 1).objects {
        TitleFrom(steps, n - 1, o);
      } else {
        NeverTitled(steps, n - 1, o);
      }
      forall i: nat | i < n - 1 && LastTitles(steps, n, i, o)
        ensures LastTitles(steps, n - 1, i, o) && !Titles(steps, n - 1, o)
      {
      }
      assert Titles(steps, n - 1, o) <==> GivesTitle(Upto(steps, n - 1), steps[n - 1], o);
      hide Titles, Upto;
      if forall i: nat | i < n :: !Titles(steps, i, o) {
        assert !Titles(steps, n - 1, o);
      }
    }
  }

  lemma NeverTitled(steps: seq<Step>, n: nat, o: string)
    requires n <= |steps| && o !in Upto(steps, n).objects
    ensures forall i: nat | i < n :: !Titles(steps, i, o)
  {
    ObjectsFrom(steps, n, o);
    forall i: nat | i < n
      ensures !Titles(steps, i, o)
    {
      assert !Mentions(steps[i], o);
    }
  }

  lemma GroupStep(reg: Reg, step: Step, o: string, g: string, fields: seq<string>)
    ensures (o, g) in After(reg, step).groups && After(reg, step).groups[(o, g)].fields == fields <==>
      || ((o, g) in reg.groups && reg.groups[(o, g)].fields == fields)
      || (Apply(reg, step).Ok? && step.AddGroup? && step.owner == o && step.group == g && step.fields == fields)
  {
  }

  lemma {:induction false} GroupsFrom(steps: seq<Step>, n: nat, o: string, g: string, fields: seq<string>)
    requires n <= |steps|
    ensures (o, g) in Upto(steps, n).groups && Upto(steps, n).groups[(o, g)].fields == fields <==>
      exists i: nat :: i < n && Groups(steps, i, o, g, fields)
  {
    hide After, Apply;
    if n > 0 {
      GroupsFrom(steps, n - 1, o, g, fields);
      GroupStep(Upto(steps, n - 1), steps[n - 1], o, g, fields);
      var last := steps[n - 1];
      assert Groups(steps, n - 1, o, g, fields) <==>
        Accepted(steps, n - 1) && last.AddGroup? && last.owner == o && last.group == g && last.fields == fields;
    }
  }

  lemma ReferenceStep(reg: Reg, step: Step, o: string, f: string, target: string)
    ensures RefersTo(After(reg, step), o, f, target) <==>
      if Governs(step, o, f) then step.references[f] == target else RefersTo(reg, o, f, target)
  {
  }

  lemma {:induction false} ReferencesFrom(steps: seq<Step>, n: nat, o: string, f: string, target: string)
    requires n <= |steps|
    ensures RefersTo(Upto(steps, n), o, f, target) <==> exists i: nat :: LastGoverns(steps, n, i, o, f, target)
  {
    if n > 0 {
      var m := n - 1;
      ReferencesFrom(steps, m, o, f, target);
      ReferenceStep(Upto(steps, m), steps[m], o, f, target);
      hide After, RefersTo, Governs;
      if i: nat :| LastGoverns(steps, m, i, o, f, target) {
        assert !Governs(steps[n - 1], o, f) ==> LastGoverns(steps, n, i, o, f, target);
      }
      if i: nat :| LastGoverns(steps, n, i, o, f, target) {
        assert i < n - 1 ==> LastGoverns(steps, m, i, o, f, target);
      }
      assert Governs(steps[n - 1], o, f) && steps[n - 1].references[f] == target ==>
        LastGoverns(steps, n, n - 1, o, f, target);
    }
  }

  /** The endpoint of a key, if the registry has it. */
  function EndpointAt(reg: Reg, key: string): Option<EndpointSpec> {
    if key in reg.endpoints then Some(reg.endpoints[key]) else None
  }

  lemma EndpointUntouched(reg: Reg, step: Step)
    requires !step.AddEndpoint?
    ensures After(reg, step).endpoints == reg.endpoints
  {
  }

  /** The first declaration of an endpoint supplies its label, a further one adds its target. */
  lemma EndpointCases(reg: Reg, step: Step, key: string)
    ensures Opens(step, key) && key !in reg.endpoints ==> Apply(reg, step).Ok?
    ensures EndpointAt(After(reg, step), key) ==
      if !Opens(step, key) || !Apply(reg, step).Ok? then EndpointAt(reg, key)
      else if key !in reg.endpoints then
        Some(EndpointSpec(if step.title != "" then step.title else key,
                          if step.target != "" then [step.target] else []))
      else
        var was := reg.endpoints[key];
        Some(EndpointSpec(was.title, if step.target == "" || step.target in was.targets then was.targets
                                     else was.targets + [step.target]))
  {
    hide MergedObject, Rebinds, Capitalize, Spaced;
    if !step.AddEndpoint? {
      EndpointUntouched(reg, step);
    }
  }

  lemma EndpointStep(reg: Reg, step: Step, key: string)
    ensures key in After(reg, step).endpoints <==> key in reg.endpoints || Opens(step, key)
  {
    EndpointCases(reg, step, key);
    hide After, Apply;
  }

  lemma {:induction false} EndpointsFrom(steps: seq<Step>, n: nat, key: string)
    requires n <= |steps|
    ensures key in Upto(steps, n).endpoints <==> exists i: nat :: i < n && Opens(steps[i], key)
  {
    hide After, Opens;
    if n > 0 {
      EndpointsFrom(steps, n - 1, key);
      EndpointStep(Upto(steps, n - 1), steps[n - 1], key);
    }
  }

  ghost predicate Enforces(steps: seq<Step>, i: nat, key: string, target: string) {
    Accepted(steps, i) && Opens(steps[i], key) && steps[i].target == target && target != ""
  }

  lemma TargetStep(reg: Reg, step: Step, key: string, target: string)
    ensures key in After(reg, step).endpoints && target in After(reg, step).endpoints[key].targets <==>
      || (key in reg.endpoints && target in reg.endpoints[key].targets)
      || (Apply(reg, step).Ok? && Opens(step, key) && step.target == target && target != "")
  {
    EndpointCases(reg, step, key);
    hide After, Apply;
  }

  /** An endpoint lists every place whose declaration was accepted. */
  lemma {:induction false} TargetsFrom(steps: seq<Step>, n: nat, key: string, target: string)
    requires n <= |steps|
    ensures key in Upto(steps, n).endpoints && target in Upto(steps, n).endpoints[key].targets <==>
      exists i: nat :: i < n && Enforces(steps, i, key, target)
  {
    hide After, Apply;
    if n > 0 {
      TargetsFrom(steps, n - 1, key, target);
      TargetStep(Upto(steps, n - 1), steps[n - 1], key, target);
      var last := steps[n - 1];
      assert Enforces(steps, n - 1, key, target) <==>
        Accepted(steps, n - 1) && last.AddEndpoint? && last.endpoint == key && last.target == target && target != "";
    }
  }

  /** The first declaration of an endpoint. */
  ghost predicate FirstOpens(steps: seq<Step>, n: nat, i: nat, key: string) {
    i < n <= |steps| && Opens(steps[i], key) && forall j | 0 <= j < i :: !Opens(steps[j], key)
  }

  lemma LabelStep(reg: Reg, step: Step, key: string)
    requires key in reg.endpoints
    ensures key in After(reg, step).endpoints && After(reg, step).endpoints[key].title == reg.endpoints[key].title
  {
    EndpointCases(reg, step, key);
    hide After, Apply;
  }

  lemma LabelStart(reg: Reg, step: Step, key: string)
    requires key !in reg.endpoints && Opens(step, key)
    ensures key in After(reg, step).endpoints
    ensures After(reg, step).endpoints[key].title == if step.title != "" then step.title else key
  {
    EndpointCases(reg, step, key);
    hide After, Apply;
  }

  /** Its label is the one it was first declared with, or its key. */
  lemma {:induction false} LabelFrom(steps: seq<Step>, n: nat, i: nat, key: string)
    requires FirstOpens(steps, n, i, key)
    ensures key in Upto(steps, n).endpoints
    ensures Upto(steps, n).endpoints[key].title == if steps[i].title != "" then steps[i].title else key
  {
    hide After, Opens;
    if i == n - 1 {
      EndpointsFrom(steps, n - 1, key);
      LabelStart(Upto(steps, n - 1), steps[n - 1], key);
    } else {
      LabelFrom(steps, n - 1, i, key);
      LabelStep(Upto(steps, n - 1), steps[n - 1], key);
    }
  }

  lemma GroupLabelStep(reg: Reg, step: Step, o: string, g: string)
    ensures (o, g) in reg.groups ==>
      (o, g) in After(reg, step).groups && After(reg, step).groups[(o, g)] == reg.groups[(o, g)]
    ensures Apply(reg, step).Ok? && step.AddGroup? && step.owner == o && step.group == g ==>
      (o, g) in After(reg, step).groups &&
      After(reg, step).groups[(o, g)].title == if step.title != "" then step.title else Capitalize(Spaced(g))
  {
  }

  /** A group has the label of any accepted declaration of it, or its key made readable. */
  lemma {:induction false} GroupLabelFrom(steps: seq<Step>, n: nat, i: nat, o: string, g: string)
    requires i < n <= |steps| && steps[i].AddGroup? && Groups(steps, i, o, g, steps[i].fields)
    ensures (o, g) in Upto(steps, n).groups
    ensures Upto(steps, n).groups[(o, g)].title ==
      if steps[i].title != "" then steps[i].title else Capitalize(Spaced(g))
  {
    GroupLabelStep(Upto(steps, n - 1), steps[n - 1], o, g);
    hide After, Apply, Capitalize, Spaced;
    if i < n - 1 {
      GroupLabelFrom(steps, n - 1, i, o, g);
    }
  }

  lemma PointStep(reg: Reg, step: Step, o: string, verb: string)
    ensures (o, verb) in After(reg, step).points <==> (o, verb) in reg.points || Scopes(step, o, verb)
  {
  }

  lemma {:induction false} PointsFrom(steps: seq<Step>, n: nat, o: string, verb: string)
    requires n <= |steps|
    ensures (o, verb) in Upto(steps, n).points <==> exists i: nat :: i < n && Scopes(steps[i], o, verb)
  {
    hide After, Scopes;
    if n > 0 {
      PointsFrom(steps, n - 1, o, verb);
      PointStep(Upto(steps, n - 1), steps[n - 1], o, verb);
    }
  }

  lemma SiteStep(reg: Reg, step: Step, o: string, verb: string, target: string)
    ensures (o, verb) in After(reg, step).points && target in After(reg, step).points[(o, verb)] <==>
      || ((o, verb) in reg.points && target in reg.points[(o, verb)])
      || (Scopes(step, o, verb) && step.target == target)
  {
  }

  /** A scope point lists every site that was declared for it. */
  lemma {:induction false} SitesFrom(steps: seq<Step>, n: nat, o: string, verb: string, target: string)
    requires n <= |steps|
    ensures (o, verb) in Upto(steps, n).points && target in Upto(steps, n).points[(o, verb)] <==>
      exists i: nat :: i < n && Scopes(steps[i], o, verb) && steps[i].target == target
  {
    hide After, Scopes;
    if n > 0 {
      SitesFrom(steps, n - 1, o, verb, target);
      SiteStep(Upto(steps, n - 1), steps[n - 1], o, verb, target);
    }
  }

  lemma KeyStep(reg: Reg, step: Step, id: string, spec: KeySpec)
    ensures id in After(reg, step).keys && After(reg, step).keys[id] == spec <==>
      (id in reg.keys && reg.keys[id] == spec) || (Apply(reg, step).Ok? && step == AddKey(spec) && spec.id == id)
  {
  }

  lemma {:induction false} KeysFrom(steps: seq<Step>, n: nat, id: string, spec: KeySpec)
    requires n <= |steps|
    ensures id in Upto(steps, n).keys && Upto(steps, n).keys[id] == spec <==>
      spec.id == id && exists i: nat :: i < n && Keeps(steps, i, spec)
  {
    hide After, Apply;
    if n > 0 {
      KeysFrom(steps, n - 1, id, spec);
      KeyStep(Upto(steps, n - 1), steps[n - 1], id, spec);
      assert Keeps(steps, n - 1, spec) <==> Accepted(steps, n - 1) && steps[n - 1] == AddKey(spec);
    }
  }

  lemma ConditionStep(reg: Reg, step: Step, id: string, c: ConditionSpec)
    ensures id in After(reg, step).conditions && After(reg, step).conditions[id] == c <==>
      || (id in reg.conditions && reg.conditions[id] == c)
      || (Apply(reg, step).Ok? && step == AddCondition(c) && c.id == id)
  {
  }

  lemma {:induction false} ConditionsFrom(steps: seq<Step>, n: nat, id: string, c: ConditionSpec)
    requires n <= |steps|
    ensures id in Upto(steps, n).conditions && Upto(steps, n).conditions[id] == c <==>
      c.id == id && exists i: nat :: i < n && Filters(steps, i, c)
  {
    hide After, Apply;
    if n > 0 {
      ConditionsFrom(steps, n - 1, id, c);
      ConditionStep(Upto(steps, n - 1), steps[n - 1], id, c);
      assert Filters(steps, n - 1, c) <==> Accepted(steps, n - 1) && steps[n - 1] == AddCondition(c);
    }
  }

  // ----- which steps are refused

  /** A whole key or a filter is refused when its id was accepted before, an object when it was accepted before
      under another model, a group when it was accepted before with other fields or another label; references
      and scope points never are. */
  lemma RefusedExactly(steps: seq<Step>, i: nat)
    requires i < |steps|
    ensures var step := steps[i];
      !Accepted(steps, i) <==>
        match step
        case AddKey(spec) => exists j: nat, other :: j < i && Keeps(steps, j, other) && other.id == spec.id
        case AddCondition(c) => exists j: nat, other :: j < i && Filters(steps, j, other) && other.id == c.id
        case AddObject(o, model, _) =>
          model.Some? && exists j: nat, m :: j < i && BindsModel(steps, j, o, m) && m != model.value
        case AddGroup(o, g, fields, title) =>
          (o, g) in Upto(steps, i).groups &&
          Upto(steps, i).groups[(o, g)] != GroupSpec(fields, if title != "" then title else Capitalize(Spaced(g)))
        case AddEndpoint(key, title, _) =>
          key in Upto(steps, i).endpoints && title != "" && title != Upto(steps, i).endpoints[key].title
        case _ => false
  {
    var reg := Upto(steps, i);
    match steps[i]
    case AddKey(spec) =>
      if spec.id in reg.keys {
        KeysFrom(steps, i, spec.id, reg.keys[spec.id]);
      }
      forall other: KeySpec | other.id == spec.id
        ensures (exists j: nat :: j < i && Keeps(steps, j, other)) ==> spec.id in reg.keys
      {
        KeysFrom(steps, i, spec.id, other);
      }
    case AddCondition(c) =>
      if c.id in reg.conditions {
        ConditionsFrom(steps, i, c.id, reg.conditions[c.id]);
      }
      forall other: ConditionSpec | other.id == c.id
        ensures (exists j: nat :: j < i && Filters(steps, j, other)) ==> c.id in reg.conditions
      {
        ConditionsFrom(steps, i, c.id, other);
      }
    case AddObject(o, model, _) =>
      forall m
        ensures o in reg.objects && reg.objects[o].model == Some(m) <==>
          exists j: nat :: j < i && BindsModel(steps, j, o, m)
      {
        ModelsFrom(steps, i, o, m);
      }
      if model.Some? && o in reg.objects && reg.objects[o].model.Some? {
        var m := reg.objects[o].model.value;
        assert o in reg.objects && reg.objects[o].model == Some(m);
      }
    case _ =>
  }

  // ----- what a key carries

  /** Some declaration of the run mentions the key: an endpoint, a scope point, or a reference still governed by
      it. */
  ghost predicate Declares(steps: seq<Step>, id: string) {
    || (exists i: nat :: i < |steps| && Opens(steps[i], id))
    || (exists i: nat, o, verb :: i < |steps| && Scopes(steps[i], o, verb) && o + "." + verb == id)
    || (exists i: nat, o, f :: LastGoverns(steps, |steps|, i, o, f, id))
  }

  lemma ScopedFrom(steps: seq<Step>, id: string)
    ensures id in ScopedKeys(Upto(steps, |steps|)) <==>
      exists i: nat, o, verb :: i < |steps| && Scopes(steps[i], o, verb) && o + "." + verb == id
  {
    var reg := Upto(steps, |steps|);
    hide Upto, Scopes;
    if p :| p in reg.points && JoinKey(p.0, p.1) == id {
      assert (p.0, p.1) in reg.points;
      PointsFrom(steps, |steps|, p.0, p.1);
    }
    if i: nat, o, verb :| i < |steps| && Scopes(steps[i], o, verb) && o + "." + verb == id {
      PointsFrom(steps, |steps|, o, verb);
      assert (o, verb) in reg.points && JoinKey((o, verb).0, (o, verb).1) == id;
    }
  }

  lemma ReferencedFrom(steps: seq<Step>, id: string)
    ensures id in ReferencedKeys(Upto(steps, |steps|)) <==>
      exists i: nat, o, f :: LastGoverns(steps, |steps|, i, o, f, id)
  {
    var reg := Upto(steps, |steps|);
    hide Upto, LastGoverns;
    if id in ReferencedKeys(reg) {
      var o, f :| o in reg.objects && f in reg.objects[o].references && id == reg.objects[o].references[f];
      assert RefersTo(reg, o, f, id);
      ReferencesFrom(steps, |steps|, o, f, id);
    }
    if i: nat, o, f :| LastGoverns(steps, |steps|, i, o, f, id) {
      ReferencesFrom(steps, |steps|, o, f, id);
    }
  }

  /** The registry a run leaves, and that the key was not registered whole in it. */
  lemma NotWhole(steps: seq<Step>, id: string)
    requires forall i | 0 <= i < |steps| && steps[i].AddKey? :: steps[i].spec.id != id
    ensures Run(NothingDeclared(), steps) == Upto(steps, |steps|) && id !in Upto(steps, |steps|).keys
  {
    RunIsUpto(steps, |steps|);
    assert steps[..|steps|] == steps;
    hide Run, Upto;
    var reg := Upto(steps, |steps|);
    if id in reg.keys {
      KeysFrom(steps, |steps|, id, reg.keys[id]);
    }
  }

  lemma KnownFrom(steps: seq<Step>, id: string)
    requires id !in Upto(steps, |steps|).keys
    ensures id in KnownKeys(Upto(steps, |steps|)) <==> Declares(steps, id)
  {
    EndpointsFrom(steps, |steps|, id);
    ScopedFrom(steps, id);
    ReferencedFrom(steps, id);
    hide Upto, Opens, Scopes, LastGoverns, ScopedKeys, ReferencedKeys;
  }

  /** A key registered whole is what was registered. */
  lemma WholeKeyWins(steps: seq<Step>, i: nat, spec: KeySpec)
    requires Keeps(steps, i, spec)
    ensures Lookup(Run(NothingDeclared(), steps), spec.id) == Ok(spec)
  {
    RunIsUpto(steps, |steps|);
    assert steps[..|steps|] == steps;
    KeysFrom(steps, |steps|, spec.id, spec);
  }

  predicate Governed(spec: KeySpec, f: string, target: string) {
    f in spec.fkScopes && spec.fkScopes[f] == target
  }

  /** Any other key resolves exactly when its object is declared, it has a verb and some declaration mentions it.
      It is then about that object: under the model the object was bound to, controlling the fields its accepted
      groups list, and with each governed reference pointing where it was last pointed. */
  lemma AssembledExactly(steps: seq<Step>, id: string)
    requires forall i | 0 <= i < |steps| && steps[i].AddKey? :: steps[i].spec.id != id
    ensures var o, found := RPartition(id).objectKey, Lookup(Run(NothingDeclared(), steps), id);
      && (found.Ok? <==>
            (exists i: nat :: i < |steps| && Mentions(steps[i], o)) && RPartition(id).verb != "" && Declares(steps, id))
      && (found.Ok? ==> found.value.id == id && found.value.resource == o && Carries(steps, o, found.value))
  {
    var o := RPartition(id).objectKey;
    hide Run, Upto, RPartition, KnownKeys, Mentions, Declares, ControlledFields, Carries;
    NotWhole(steps, id);
    KnownFrom(steps, id);
    ObjectsFrom(steps, |steps|, o);
    if Lookup(Upto(steps, |steps|), id).Ok? {
      CarriesAll(steps, o, Lookup(Upto(steps, |steps|), id).value);
    }
  }

  lemma CarriesAll(steps: seq<Step>, o: string, spec: KeySpec)
    requires o in Upto(steps, |steps|).objects && spec.model == Upto(steps, |steps|).objects[o].model
    requires spec.fields == ControlledFields(Upto(steps, |steps|), o)
    requires spec.fkScopes == Upto(steps, |steps|).objects[o].references
    ensures Carries(steps, o, spec)
  {
    hide Upto, ControlledFields, BindsModel, Groups, LastGoverns;
    CarriesModel(steps, o);
    CarriesFields(steps, o);
    CarriesReferences(steps, o);
    assert forall f, t :: Governed(spec, f, t) <==> RefersTo(Upto(steps, |steps|), o, f, t);
  }

  /** The model, the controlled fields and the governed references the run registered for the object. */
  ghost predicate Carries(steps: seq<Step>, o: string, spec: KeySpec) {
    && (forall m :: spec.model == Some(m) <==> exists i: nat :: BindsModel(steps, i, o, m))
    && (forall f :: f in spec.fields <==> exists i: nat, g, fields :: Groups(steps, i, o, g, fields) && f in fields)
    && (forall f, t :: Governed(spec, f, t) <==> exists i: nat :: LastGoverns(steps, |steps|, i, o, f, t))
  }

  lemma CarriesReferences(steps: seq<Step>, o: string)
    ensures forall f, t :: RefersTo(Upto(steps, |steps|), o, f, t) <==>
      exists i: nat :: LastGoverns(steps, |steps|, i, o, f, t)
  {
    forall f, t
      ensures RefersTo(Upto(steps, |steps|), o, f, t) <==> exists i: nat :: LastGoverns(steps, |steps|, i, o, f, t)
    {
      ReferencesFrom(steps, |steps|, o, f, t);
    }
  }

  lemma CarriesModel(steps: seq<Step>, o: string)
    ensures o in Upto(steps, |steps|).objects ==>
      forall m :: Upto(steps, |steps|).objects[o].model == Some(m) <==> exists i: nat :: BindsModel(steps, i, o, m)
  {
    forall m | o in Upto(steps, |steps|).objects
      ensures Upto(steps, |steps|).objects[o].model == Some(m) <==> exists i: nat :: BindsModel(steps, i, o, m)
    {
      ModelsFrom(steps, |steps|, o, m);
    }
  }

  lemma CarriesFields(steps: seq<Step>, o: string)
    ensures forall f :: f in ControlledFields(Upto(steps, |steps|), o) <==>
      exists i: nat, g, fields :: Groups(steps, i, o, g, fields) && f in fields
  {
    var reg := Upto(steps, |steps|);
    hide Upto;
    forall f
      ensures f in ControlledFields(reg, o) <==>
        exists i: nat, g, fields :: Groups(steps, i, o, g, fields) && f in fields
    {
      if f in ControlledFields(reg, o) {
        var x :| x in reg.groups && x.0 == o && f in reg.groups[x].fields;
        assert x == (o, x.1);
        GroupsFrom(steps, |steps|, o, x.1, reg.groups[x].fields);
      }
      if i: nat, g, fields :| Groups(steps, i, o, g, fields) && f in fields {
        GroupsFrom(steps, |steps|, o, g, fields);
      }
    }
  }

  // ----- the write check, told from the registrations

  /** For a key assembled from a run, the write check of anyone who does not bypass: a role with the endpoint, a
      grant for each field some accepted group of the object lists, a permitted value for each constrained field,
      and each reference in scope under the key it was last governed by. */
  lemma WritesByRegistration(steps: seq<Step>, p: Policy, world: World, user: User, key: string, data: Payload)
    requires p.reg == Run(NothingDeclared(), steps) && !(p.superuserBypass && user.superuser)
    requires forall i | 0 <= i < |steps| && steps[i].AddKey? :: steps[i].spec.id != key
    requires Lookup(p.reg, key).Ok?
    ensures var o, roles := RPartition(key).objectKey, p.principals(user);
      Writable(p, world, user, key, data) <==>
        && roles != [] && p.store.endpoint(roles, key)
        && (forall i: nat, g, fields, f | Groups(steps, i, o, g, fields) && f in fields && f in data ::
              GrantLists(p, user, key, f))
        && (forall f | f in data :: GrantsPermit(p, user, key, f, data[f]))
        && (forall i: nat, f, t | LastGoverns(steps, |steps|, i, o, f, t) && f in data ::
              ReferencesInScope(p, world, user, t, ItemsOf(data[f])))
  {
    var spec, o := Lookup(p.reg, key).value, RPartition(key).objectKey;
    AssembledExactly(steps, key);
    WritableExactly(p, world, user, key, data);
    hide Run, Lookup, RPartition, Declares, Mentions, Groups, LastGoverns, Carries, Writable, ReferencesInScope,
      GrantLists, GrantsPermit;
    ListedByGroups(steps, o, spec, p, user, key, data);
    GovernedInScope(steps, o, spec, p, world, user, data);
  }

  lemma ListedByGroups(steps: seq<Step>, o: string, spec: KeySpec, p: Policy, user: User, key: string, data: Payload)
    requires Carries(steps, o, spec)
    ensures (forall f | f in data && f in spec.fields :: GrantLists(p, user, key, f)) <==>
      forall i: nat, g, fields, f | Groups(steps, i, o, g, fields) && f in fields && f in data ::
        GrantLists(p, user, key, f)
  {
    hide Groups, LastGoverns, BindsModel, GrantLists;
  }

  lemma GovernedInScope(steps: seq<Step>, o: string, spec: KeySpec, p: Policy, world: World, user: User, data: Payload)
    requires Carries(steps, o, spec)
    ensures (forall f | f in data && f in spec.fkScopes ::
               ReferencesInScope(p, world, user, spec.fkScopes[f], ItemsOf(data[f]))) <==>
      forall i: nat, f, t | LastGoverns(steps, |steps|, i, o, f, t) && f in data ::
        ReferencesInScope(p, world, user, t, ItemsOf(data[f]))
  {
    hide Groups, LastGoverns, BindsModel, ReferencesInScope, ItemsOf;
    forall f | f in data && f in spec.fkScopes
      ensures exists i: nat :: LastGoverns(steps, |steps|, i, o, f, spec.fkScopes[f])
    {
      assert Governed(spec, f, spec.fkScopes[f]);
    }
    forall i: nat, f, t | LastGoverns(steps, |steps|, i, o, f, t)
      ensures f in spec.fkScopes && spec.fkScopes[f] == t
    {
      assert Governed(spec, f, t);
    }
  }

  /** So a payload is refused that points a governed reference, as the run last governed it, at a key no row in
      scope has. */
  lemma StrayReferenceRefused(steps: seq<Step>, p: Policy, world: World, user: User, key: string, data: Payload, i: nat,
                              f: string, governing: string, model: string, v: Value, pk: int)
    requires p.reg == Run(NothingDeclared(), steps) && !(p.superuserBypass && user.superuser)
    requires forall i | 0 <= i < |steps| && steps[i].AddKey? :: steps[i].spec.id != key
    requires Lookup(p.reg, key).Ok?
    requires LastGoverns(steps, |steps|, i, RPartition(key).objectKey, f, governing)
    requires f in data && data[f] == Scalar(v) && !v.Null? && !v.List? && world.keyOf(model, v) == Some(pk)
    requires Lookup(p.reg, governing).Ok? && Lookup(p.reg, governing).value.model == Some(model)
    requires forall row | row in TableOf(world, model) && row.pk == pk ::
      ScopeOf(p, user, governing).Ok? ==> !InScope(ScopeOf(p, user, governing).value, row)
    ensures !Writable(p, world, user, key, data)
  {
    WritesByRegistration(steps, p, world, user, key, data);
    hide Run, Lookup, RPartition, Groups, LastGoverns, Writable, GrantLists, GrantsPermit, ScopeOf, InScope, ItemsOf,
      ReferencesInScope, TableOf;
    KeyInScope(p, world, user, governing, v, pk);
  }
}
