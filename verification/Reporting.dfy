/** What a sync reports, told from the registry and the tables, and what a run without errors buys. */
module Reporting {
  import opened Outcomes
  import opened Registry
  import opened Tables
  import opened Sync
  import opened Validation

  // ----- declarations

  /** Some filter was declared for the object. */
  ghost predicate Filtered(reg: Reg, o: string) {
    exists c :: c in reg.conditions && reg.conditions[c].objectKey == Some(o)
  }

  /** Some site applies the filters of the object. */
  ghost predicate Sited(reg: Reg, o: string) {
    exists x :: x in reg.points && x.0 == o
  }

  ghost predicate Bound(reg: Reg, o: string) {
    o in reg.objects && reg.objects[o].model.Some?
  }

  /** The object is declared, or a filter, a group or a site is for it. */
  ghost predicate Mentioned(reg: Reg, o: string) {
    o in reg.objects || Filtered(reg, o) || (exists x :: x in reg.groups && x.0 == o) || Sited(reg, o)
  }

  lemma FieldsReported(reg: Reg, has: (string, string) -> bool, o: string, g: string)
    ensures UnknownField(o, g) in DeclarationProblems(reg, has) <==>
      && (o, g) in reg.groups && Bound(reg, o)
      && exists f :: f in reg.groups[(o, g)].fields && !has(reg.objects[o].model.value, f)
  {
    hide ObjectKeys, HasFilters, HasScopePoint;
    assert (o, g).0 == o && (o, g).1 == g;
    if UnknownField(o, g) in DeclarationProblems(reg, has) {
      var x :| x in reg.groups && MissingField(reg, has, x) && UnknownField(x.0, x.1) == UnknownField(o, g);
      assert x == (o, g);
    }
  }

  lemma ObjectsReported(reg: Reg, has: (string, string) -> bool, o: string)
    ensures var problems := DeclarationProblems(reg, has);
      && (UnboundObject(o) in problems <==> Mentioned(reg, o) && !Bound(reg, o))
      && (FiltersNeverFire(o) in problems <==> Filtered(reg, o) && !Sited(reg, o))
  {
    assert o in ObjectKeys(reg) <==> Mentioned(reg, o);
    hide ObjectKeys, MissingField;
  }

  /** The four findings about declarations, each exactly when its condition holds of what was registered. */
  lemma DeclarationsReported(reg: Reg, has: (string, string) -> bool, o: string, g: string, id: string)
    ensures var problems := DeclarationProblems(reg, has);
      && (UnboundObject(o) in problems <==> Mentioned(reg, o) && !Bound(reg, o))
      && (UnattachedFilter(id) in problems <==> id in reg.conditions && reg.conditions[id].objectKey.None?)
      && (FiltersNeverFire(o) in problems <==> Filtered(reg, o) && !Sited(reg, o))
      && (UnknownField(o, g) in problems <==>
            && (o, g) in reg.groups && Bound(reg, o)
            && exists f :: f in reg.groups[(o, g)].fields && !has(reg.objects[o].model.value, f))
  {
    ObjectsReported(reg, has, o);
    FieldsReported(reg, has, o, g);
    hide ObjectKeys, Unbound, HasFilters, HasScopePoint, MissingField, Mentioned, Filtered, Sited;
  }

  lemma DeclarationKinds(reg: Reg, has: (string, string) -> bool)
    ensures forall p: Problem | p in DeclarationProblems(reg, has) ::
      p.UnboundObject? || p.UnattachedFilter? || p.FiltersNeverFire? || p.UnknownField?
  {
    hide ObjectKeys, Unbound, HasFilters, HasScopePoint, MissingField;
  }

  // ----- compositions

  lemma EndpointProblem(cat: Catalogue, e: (string, nat), p: Problem)
    requires e.1 in cat.endpoints
    ensures p in EndpointProblems(cat, e) <==> p == StaleEndpoint(e.0, e.1) && !cat.endpoints[e.1].live
  {
  }

  /** The rule's key is one some declaration mentions. */
  predicate RuleKeyKnown(reg: Reg, cat: Catalogue, comp: Composition, r: nat)
    requires r in comp.rules && comp.rules[r].owner in cat.objects
  {
    cat.objects[comp.rules[r].owner].cols.key + "." + comp.rules[r].verb in KnownKeys(reg)
  }

  lemma RuleProblem(reg: Reg, cat: Catalogue, comp: Composition, r: nat, p: Problem)
    requires r in comp.rules && comp.rules[r].owner in cat.objects
    ensures p in RuleProblems(reg, cat, comp, r) <==>
      if cat.objects[comp.rules[r].owner].live then p == StaleRuleKey(r) && !RuleKeyKnown(reg, cat, comp, r)
      else p == StaleObject(r)
  {
    hide KnownKeys;
  }

  lemma ConditionProblem(cat: Catalogue, comp: Composition, c: (nat, nat), p: Problem)
    requires c.0 in comp.rules && c.1 in cat.filters
    ensures p in ConditionProblems(cat, comp, c) <==>
      || (p == StaleFilter(c.0, c.1) && !cat.filters[c.1].live)
      || (p == MisfiledFilter(c.0, c.1) && cat.filters[c.1].cols.owner != comp.rules[c.0].owner)
  {
  }

  predicate GrantKeyKnown(reg: Reg, cat: Catalogue, g: (string, nat, string))
    requires g.1 in cat.groups && cat.groups[g.1].cols.owner in cat.objects
  {
    cat.objects[cat.groups[g.1].cols.owner].cols.key + "." + g.2 in KnownKeys(reg)
  }

  lemma GrantProblem(reg: Reg, cat: Catalogue, g: (string, nat, string), p: Problem)
    requires g.1 in cat.groups && cat.groups[g.1].cols.owner in cat.objects
    ensures p in GrantProblems(reg, cat, g) <==>
      if cat.groups[g.1].live then p == StaleGrantKey(g) && !GrantKeyKnown(reg, cat, g) else p == StaleGroup(g)
  {
    hide KnownKeys;
  }

  /** What each finding says of its row. */
  ghost predicate Warranted(reg: Reg, cat: Catalogue, comp: Composition, p: Problem)
    requires CatalogueValid(cat) && Linked(comp) && Refers(comp, cat)
  {
    match p
    case StaleEndpoint(permission, e) => (permission, e) in comp.endpoints && !cat.endpoints[e].live
    case StaleObject(r) => r in comp.rules && !cat.objects[comp.rules[r].owner].live
    case StaleRuleKey(r) =>
      r in comp.rules && cat.objects[comp.rules[r].owner].live && !RuleKeyKnown(reg, cat, comp, r)
    case StaleFilter(r, f) => (r, f) in comp.conditions && !cat.filters[f].live
    case MisfiledFilter(r, f) => (r, f) in comp.conditions && cat.filters[f].cols.owner != comp.rules[r].owner
    case StaleGroup(g) => g in comp.grants && !cat.groups[g.1].live
    case StaleGrantKey(g) => g in comp.grants && cat.groups[g.1].live && !GrantKeyKnown(reg, cat, g)
    case _ => false
  }

  lemma EndpointsWarranted(reg: Reg, cat: Catalogue, comp: Composition, p: Problem)
    requires CatalogueValid(cat) && Linked(comp) && Refers(comp, cat)
    ensures (exists e :: e in comp.endpoints && p in EndpointProblems(cat, e)) <==>
      p.StaleEndpoint? && Warranted(reg, cat, comp, p)
  {
    hide EndpointProblems, RuleKeyKnown, GrantKeyKnown, CatalogueValid, Linked;
    forall e | e in comp.endpoints
      ensures p in EndpointProblems(cat, e) <==> p == StaleEndpoint(e.0, e.1) && !cat.endpoints[e.1].live
    {
      EndpointProblem(cat, e, p);
    }
  }

  lemma RulesWarranted(reg: Reg, cat: Catalogue, comp: Composition, p: Problem)
    requires CatalogueValid(cat) && Linked(comp) && Refers(comp, cat)
    ensures (exists r :: r in comp.rules && p in RuleProblems(reg, cat, comp, r)) <==>
      (p.StaleObject? || p.StaleRuleKey?) && Warranted(reg, cat, comp, p)
  {
    hide RuleProblems, RuleKeyKnown, GrantKeyKnown, CatalogueValid, Linked;
    forall r | r in comp.rules
      ensures p in RuleProblems(reg, cat, comp, r) <==>
        if cat.objects[comp.rules[r].owner].live then p == StaleRuleKey(r) && !RuleKeyKnown(reg, cat, comp, r)
        else p == StaleObject(r)
    {
      RuleProblem(reg, cat, comp, r, p);
    }
  }

  lemma ConditionsWarranted(reg: Reg, cat: Catalogue, comp: Composition, p: Problem)
    requires CatalogueValid(cat) && Linked(comp) && Refers(comp, cat)
    ensures (exists c :: c in comp.conditions && p in ConditionProblems(cat, comp, c)) <==>
      (p.StaleFilter? || p.MisfiledFilter?) && Warranted(reg, cat, comp, p)
  {
    hide ConditionProblems, RuleKeyKnown, GrantKeyKnown, CatalogueValid;
    forall c | c in comp.conditions
      ensures p in ConditionProblems(cat, comp, c) <==>
        || (p == StaleFilter(c.0, c.1) && !cat.filters[c.1].live)
        || (p == MisfiledFilter(c.0, c.1) && cat.filters[c.1].cols.owner != comp.rules[c.0].owner)
    {
      ConditionProblem(cat, comp, c, p);
    }
  }

  lemma GrantsWarranted(reg: Reg, cat: Catalogue, comp: Composition, p: Problem)
    requires CatalogueValid(cat) && Linked(comp) && Refers(comp, cat)
    ensures (exists g :: g in comp.grants && p in GrantProblems(reg, cat, g)) <==>
      (p.StaleGroup? || p.StaleGrantKey?) && Warranted(reg, cat, comp, p)
  {
    hide GrantProblems, RuleKeyKnown, GrantKeyKnown, Linked;
    forall g | g in comp.grants
      ensures p in GrantProblems(reg, cat, g) <==>
        if cat.groups[g.1].live then p == StaleGrantKey(g) && !GrantKeyKnown(reg, cat, g) else p == StaleGroup(g)
    {
      GrantProblem(reg, cat, g, p);
    }
  }

  lemma WarrantedKinds(reg: Reg, cat: Catalogue, comp: Composition, p: Problem)
    requires CatalogueValid(cat) && Linked(comp) && Refers(comp, cat) && Warranted(reg, cat, comp, p)
    ensures !p.UnboundObject? && !p.UnattachedFilter? && !p.FiltersNeverFire? && !p.UnknownField?
  {
    hide RuleKeyKnown, GrantKeyKnown, CatalogueValid, Linked, Refers;
  }

  /** A finding about composed permissions is reported exactly when what it says of its row is so. */
  lemma CompositionsReported(reg: Reg, cat: Catalogue, comp: Composition, found: set<Problem>, p: Problem)
    requires CatalogueValid(cat) && Linked(comp) && Refers(comp, cat) && Found(reg, cat, comp, found)
    ensures p in found <==> Warranted(reg, cat, comp, p)
  {
    hide EndpointProblems, RuleProblems, ConditionProblems, GrantProblems, Warranted, CatalogueValid, Linked, Refers;
    EndpointsWarranted(reg, cat, comp, p);
    RulesWarranted(reg, cat, comp, p);
    ConditionsWarranted(reg, cat, comp, p);
    GrantsWarranted(reg, cat, comp, p);
    if Warranted(reg, cat, comp, p) {
      WarrantedKinds(reg, cat, comp, p);
    }
  }

  // ----- a run without errors

  /** Every object with filters has a site, and every field of a bound object's group is on its model. */
  ghost predicate DeclaredWell(reg: Reg, has: (string, string) -> bool) {
    && (forall o | Filtered(reg, o) :: Sited(reg, o))
    && (forall x, f | x in reg.groups && Bound(reg, x.0) && f in reg.groups[x].fields ::
          has(reg.objects[x.0].model.value, f))
  }

  /** Every composed row points at something live, of the right object, under a key some declaration mentions. */
  ghost predicate ComposedWell(reg: Reg, cat: Catalogue, comp: Composition)
    requires CatalogueValid(cat) && Linked(comp) && Refers(comp, cat)
  {
    && (forall e | e in comp.endpoints :: cat.endpoints[e.1].live)
    && (forall r | r in comp.rules :: cat.objects[comp.rules[r].owner].live && RuleKeyKnown(reg, cat, comp, r))
    && (forall c | c in comp.conditions ::
          cat.filters[c.1].live && cat.filters[c.1].cols.owner == comp.rules[c.0].owner)
    && (forall g | g in comp.grants :: cat.groups[g.1].live && GrantKeyKnown(reg, cat, g))
  }

  ghost predicate OnlyWarnings(problems: set<Problem>) {
    forall p | p in problems :: p.UnboundObject? || p.UnattachedFilter?
  }

  lemma CleanDeclarations(reg: Reg, has: (string, string) -> bool)
    ensures OnlyWarnings(DeclarationProblems(reg, has)) <==> DeclaredWell(reg, has)
  {
    var problems := DeclarationProblems(reg, has);
    DeclarationKinds(reg, has);
    hide DeclarationProblems, Filtered, Sited;
    if OnlyWarnings(problems) {
      forall o | Filtered(reg, o)
        ensures Sited(reg, o)
      {
        DeclarationsReported(reg, has, o, "", "");
        assert FiltersNeverFire(o) !in problems;
      }
      forall x, f | x in reg.groups && Bound(reg, x.0) && f in reg.groups[x].fields
        ensures has(reg.objects[x.0].model.value, f)
      {
        DeclarationsReported(reg, has, x.0, x.1, "");
        assert UnknownField(x.0, x.1) !in problems && (x.0, x.1) == x;
      }
    }
    if DeclaredWell(reg, has) {
      forall p | p in problems
        ensures p.UnboundObject? || p.UnattachedFilter?
      {
        if p.FiltersNeverFire? {
          DeclarationsReported(reg, has, p.key, "", "");
        } else if p.UnknownField? {
          DeclarationsReported(reg, has, p.owner, p.group, "");
        }
      }
    }
  }

  lemma NothingWarranted(reg: Reg, cat: Catalogue, comp: Composition, p: Problem)
    requires CatalogueValid(cat) && Linked(comp) && Refers(comp, cat) && ComposedWell(reg, cat, comp)
    ensures !Warranted(reg, cat, comp, p)
  {
    hide RuleKeyKnown, GrantKeyKnown, CatalogueValid, Linked, Refers;
  }

  lemma ComposedWellFrom(reg: Reg, cat: Catalogue, comp: Composition)
    requires CatalogueValid(cat) && Linked(comp) && Refers(comp, cat)
    requires forall p :: !Warranted(reg, cat, comp, p)
    ensures ComposedWell(reg, cat, comp)
  {
    hide Warranted, RuleKeyKnown, GrantKeyKnown;
    forall e | e in comp.endpoints ensures cat.endpoints[e.1].live {
      EndpointIsFine(reg, cat, comp, e);
    }
    forall r | r in comp.rules
      ensures cat.objects[comp.rules[r].owner].live && RuleKeyKnown(reg, cat, comp, r)
    {
      RuleIsFine(reg, cat, comp, r);
    }
    forall c | c in comp.conditions
      ensures cat.filters[c.1].live && cat.filters[c.1].cols.owner == comp.rules[c.0].owner
    {
      ConditionIsFine(reg, cat, comp, c);
    }
    forall g | g in comp.grants
      ensures cat.groups[g.1].live && GrantKeyKnown(reg, cat, g)
    {
      GrantIsFine(reg, cat, comp, g);
    }
  }

  lemma RuleIsFine(reg: Reg, cat: Catalogue, comp: Composition, r: nat)
    requires CatalogueValid(cat) && Linked(comp) && Refers(comp, cat) && r in comp.rules
    requires !Warranted(reg, cat, comp, StaleObject(r)) && !Warranted(reg, cat, comp, StaleRuleKey(r))
    ensures cat.objects[comp.rules[r].owner].live && RuleKeyKnown(reg, cat, comp, r)
  {
  }

  lemma GrantIsFine(reg: Reg, cat: Catalogue, comp: Composition, g: (string, nat, string))
    requires CatalogueValid(cat) && Linked(comp) && Refers(comp, cat) && g in comp.grants
    requires !Warranted(reg, cat, comp, StaleGroup(g)) && !Warranted(reg, cat, comp, StaleGrantKey(g))
    ensures cat.groups[g.1].live && GrantKeyKnown(reg, cat, g)
  {
  }

  lemma EndpointIsFine(reg: Reg, cat: Catalogue, comp: Composition, e: (string, nat))
    requires CatalogueValid(cat) && Linked(comp) && Refers(comp, cat) && e in comp.endpoints
    requires !Warranted(reg, cat, comp, StaleEndpoint(e.0, e.1))
    ensures cat.endpoints[e.1].live
  {
    assert (e.0, e.1) == e;
  }

  lemma ConditionIsFine(reg: Reg, cat: Catalogue, comp: Composition, c: (nat, nat))
    requires CatalogueValid(cat) && Linked(comp) && Refers(comp, cat) && c in comp.conditions
    requires !Warranted(reg, cat, comp, StaleFilter(c.0, c.1)) && !Warranted(reg, cat, comp, MisfiledFilter(c.0, c.1))
    ensures cat.filters[c.1].live && cat.filters[c.1].cols.owner == comp.rules[c.0].owner
  {
    assert (c.0, c.1) == c;
  }

  lemma CleanCompositions(reg: Reg, cat: Catalogue, comp: Composition, found: set<Problem>)
    requires CatalogueValid(cat) && Linked(comp) && Refers(comp, cat) && Found(reg, cat, comp, found)
    ensures OnlyWarnings(found) <==> ComposedWell(reg, cat, comp)
  {
    forall p
      ensures p in found <==> Warranted(reg, cat, comp, p)
      ensures Warranted(reg, cat, comp, p) ==> !p.UnboundObject? && !p.UnattachedFilter?
    {
      CompositionsReported(reg, cat, comp, found, p);
    }
    hide Found, Warranted, ComposedWell, CatalogueValid, Linked, Refers;
    if OnlyWarnings(found) {
      ComposedWellFrom(reg, cat, comp);
    }
    if ComposedWell(reg, cat, comp) {
      forall p ensures !Warranted(reg, cat, comp, p) {
        NothingWarranted(reg, cat, comp, p);
      }
    }
  }

  /** A run reports no error exactly when the declarations and the compositions are in order. */
  lemma CleanRunBuys(reg: Reg, has: (string, string) -> bool, cat: Catalogue, comp: Composition, found: set<Problem>)
    requires CatalogueValid(cat) && Linked(comp) && Refers(comp, cat) && Found(reg, cat, comp, found)
    ensures NoErrors(DeclarationProblems(reg, has) + found) <==> DeclaredWell(reg, has) && ComposedWell(reg, cat, comp)
  {
    CleanDeclarations(reg, has);
    CleanCompositions(reg, cat, comp, found);
    hide DeclarationProblems, Found, ComposedWell, DeclaredWell, CatalogueValid, Linked, Refers;
  }
}
