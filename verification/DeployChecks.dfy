/** What the checks of a sync can still find about permissions that came from a file. */
module DeployChecks {
  import opened Outcomes
  import opened Keys
  import opened Registry
  import opened Upserting
  import opened Tables
  import opened Validation
  import opened Views
  import opened SpecFile
  import opened SpecProperties
  import opened Compile

  /** The permission a finding is about. */
  ghost predicate Blames(c: Composition, problem: Problem, p: string) {
    match problem
    case StaleEndpoint(q, _) => q == p
    case StaleObject(r) => OwnedBy(c, r, p)
    case StaleRuleKey(r) => OwnedBy(c, r, p)
    case StaleFilter(r, _) => OwnedBy(c, r, p)
    case MisfiledFilter(r, _) => OwnedBy(c, r, p)
    case StaleGroup(g) => g.0 == p
    case StaleGrantKey(g) => g.0 == p
    case _ => false
  }

  ghost predicate OwnedBy(c: Composition, r: nat, p: string) {
    r in c.rules && c.rules[r].permission == p
  }

  /** The key a field entry grants for. */
  function GrantKey(e: FieldEntry): string {
    JoinKey(RPartition(e.group).objectKey, e.verb)
  }

  // ----- row by row

  lemma EndpointClean(cat: Catalogue, c: Composition, p: string, body: PermissionBody, e: nat)
    requires CatalogueValid(cat) && EndpointsOf(c, p) == WantedEndpoints(cat, body.endpoints) &&
      EndpointsOk(cat, body.endpoints)
    requires (p, e) in c.endpoints && e in cat.endpoints
    ensures EndpointProblems(cat, (p, e)) == {}
  {
    assert (p, e).1 in EndpointsOf(c, p);
    var k :| k in body.endpoints && Pk(cat.endpoints, EndpointNatural, k) == e;
    assert LiveAt(cat.endpoints, EndpointNatural, k);
  }

  /** The one thing a stored rule can be told: its key is known to nobody. */
  lemma RuleStatus(cat: Catalogue, reg: Reg, c: Composition, r: nat, e: RuleEntry)
    requires CatalogueValid(cat) && r in c.rules && Stores(cat, DocOf(c, r), e) && RuleOk(cat, reg, e)
    ensures c.rules[r].owner in cat.objects
    ensures e.key in KnownKeys(reg) ==> RuleProblems(reg, cat, c, r) == {}
    ensures e.key !in KnownKeys(reg) ==> RuleProblems(reg, cat, c, r) == {StaleRuleKey(r)}
  {
    RuleIsLive(cat, c, r, e);
    StoredColumns(cat, c, r, e);
    SplitThenJoin(e.key);
    hide RPartition, Stores, KnownKeys, CatalogueValid, LiveAt;
  }

  lemma RuleIsLive(cat: Catalogue, c: Composition, r: nat, e: RuleEntry)
    requires CatalogueValid(cat) && r in c.rules && Stores(cat, DocOf(c, r), e)
    requires LiveAt(cat.objects, ObjectNatural, RPartition(e.key).objectKey)
    ensures c.rules[r].owner in cat.objects && cat.objects[c.rules[r].owner].live
  {
    hide RPartition, WantedParams, CatalogueValid, ConditionsIn;
  }

  lemma ConditionClean(cat: Catalogue, reg: Reg, c: Composition, r: nat, e: RuleEntry, f: nat)
    requires CatalogueValid(cat) && r in c.rules && Stores(cat, DocOf(c, r), e) && RuleOk(cat, reg, e)
    requires (r, f) in c.conditions && f in cat.filters
    ensures ConditionProblems(cat, c, (r, f)) == {}
  {
    assert (r, f).1 in ConditionsIn(c, r);
    WantedExact(cat, e.conditions, f);
    var j: nat :| LastNaming(cat, e.conditions, f, j);
    assert e.conditions[j] in e.conditions;
    assert EntryOk(cat, reg, IdentOf(cat, e).0, e.conditions[j]);
  }

  lemma GrantStatus(cat: Catalogue, reg: Reg, e: FieldEntry, g: (string, nat, string))
    requires CatalogueValid(cat) && FieldOk(cat, e) && FieldIdent(cat, e) == (g.1, g.2)
    ensures g.1 in cat.groups && cat.groups[g.1].cols.owner in cat.objects
    ensures GrantKey(e) in KnownKeys(reg) ==> GrantProblems(reg, cat, g) == {}
    ensures GrantKey(e) !in KnownKeys(reg) ==> GrantProblems(reg, cat, g) == {StaleGrantKey(g)}
  {
    hide RPartition, KnownKeys;
  }

  // ----- one permission of the file

  /** The entry behind a stored rule, and that it was accepted. */
  lemma EntryBehind(cat: Catalogue, reg: Reg, c: Composition, file: File, i: nat, r: nat) returns (e: RuleEntry)
    requires Built(cat, reg, c, file) && i < |file.permissions| && OwnedBy(c, r, file.permissions[i].0)
    ensures e in file.permissions[i].1.rules && Stores(cat, DocOf(c, r), e) && RuleOk(cat, reg, e)
  {
    hide PermissionMatches, Stores, RuleOk, Built, Distinguished, EndpointsOk;
    RulesAre(cat, reg, c, file, i);
    e := EntryOfRule(cat, c, file.permissions[i].0, file.permissions[i].1, r);
  }

  lemma FieldBehind(cat: Catalogue, reg: Reg, c: Composition, file: File, i: nat, g: (string, nat, string))
    returns (e: FieldEntry)
    requires Built(cat, reg, c, file) && i < |file.permissions| && g in c.grants && g.0 == file.permissions[i].0
    ensures e in file.permissions[i].1.fields && FieldOk(cat, e) && FieldIdent(cat, e) == (g.1, g.2)
  {
    FieldsAre(cat, reg, c, file, i);
    var fields := file.permissions[i].1.fields;
    WantedGrantsKeys(cat, fields);
    assert (g.1, g.2) in GrantsOf(c, g.0);
    hide Built, FieldOk, FieldIdent, WantedGrants, GrantsOf;
    e :| e in fields && FieldIdent(cat, e) == (g.1, g.2);
  }

  lemma BuiltValid(cat: Catalogue, reg: Reg, c: Composition, file: File)
    requires Built(cat, reg, c, file)
    ensures CatalogueValid(cat) && Refers(c, cat)
  {
    hide CatalogueValid, Refers, AllMatch, BodyOk;
  }

  /** The finding says that the key of an entry of the body is known to nobody. */
  ghost predicate KeyUnknown(cat: Catalogue, reg: Reg, c: Composition, body: PermissionBody, problem: Problem) {
    match problem
    case StaleRuleKey(r) =>
      r in c.rules && exists e :: e in body.rules && Stores(cat, DocOf(c, r), e) && e.key !in KnownKeys(reg)
    case StaleGrantKey(g) =>
      exists e :: e in body.fields && FieldIdent(cat, e) == (g.1, g.2) && GrantKey(e) !in KnownKeys(reg)
    case _ => false
  }

  lemma EndpointBlamed(cat: Catalogue, reg: Reg, c: Composition, file: File, i: nat, x: (string, nat))
    requires Built(cat, reg, c, file) && i < |file.permissions|
    requires x in c.endpoints && x.1 in cat.endpoints && x.0 == file.permissions[i].0
    ensures EndpointProblems(cat, x) == {}
  {
    RulesAre(cat, reg, c, file, i);
    FieldsAre(cat, reg, c, file, i);
    assert x == (x.0, x.1) && CatalogueValid(cat);
    hide Built, EndpointsOk, EndpointsOf, WantedEndpoints, CatalogueValid, GrantsOf, WantedGrants, FieldsOk,
      PermissionMatches;
    EndpointClean(cat, c, x.0, file.permissions[i].1, x.1);
  }

  lemma RuleBlamed(cat: Catalogue, reg: Reg, c: Composition, file: File, i: nat, r: nat, problem: Problem)
    requires Built(cat, reg, c, file) && i < |file.permissions| && OwnedBy(c, r, file.permissions[i].0)
    requires c.rules[r].owner in cat.objects && problem in RuleProblems(reg, cat, c, r)
    ensures KeyUnknown(cat, reg, c, file.permissions[i].1, problem)
  {
    hide Built, KnownKeys, CatalogueValid, Refers, Stores, RuleOk, RuleProblems, DocOf, KeyUnknown;
    BuiltValid(cat, reg, c, file);
    var e := EntryBehind(cat, reg, c, file, i, r);
    RuleStatus(cat, reg, c, r, e);
    if e.key !in KnownKeys(reg) {
      RuleKeyUnknown(cat, reg, c, file.permissions[i].1, r, e);
    }
  }

  lemma RuleKeyUnknown(cat: Catalogue, reg: Reg, c: Composition, body: PermissionBody, r: nat, e: RuleEntry)
    requires r in c.rules && e in body.rules && Stores(cat, DocOf(c, r), e) && e.key !in KnownKeys(reg)
    ensures KeyUnknown(cat, reg, c, body, StaleRuleKey(r))
  {
    hide Stores, KnownKeys, DocOf;
  }

  lemma ConditionBlamed(cat: Catalogue, reg: Reg, c: Composition, file: File, i: nat, x: (nat, nat))
    requires Built(cat, reg, c, file) && i < |file.permissions| && OwnedBy(c, x.0, file.permissions[i].0)
    requires x in c.conditions && x.1 in cat.filters
    ensures ConditionProblems(cat, c, x) == {}
  {
    assert x == (x.0, x.1);
    hide Built, CatalogueValid, Refers, Stores, RuleOk, ConditionProblems;
    BuiltValid(cat, reg, c, file);
    var e := EntryBehind(cat, reg, c, file, i, x.0);
    ConditionClean(cat, reg, c, x.0, e, x.1);
  }

  lemma GrantBlamed(cat: Catalogue, reg: Reg, c: Composition, file: File, i: nat, g: (string, nat, string),
                    problem: Problem)
    requires Built(cat, reg, c, file) && i < |file.permissions| && g in c.grants && g.0 == file.permissions[i].0
    requires g.1 in cat.groups && cat.groups[g.1].cols.owner in cat.objects && problem in GrantProblems(reg, cat, g)
    ensures KeyUnknown(cat, reg, c, file.permissions[i].1, problem)
  {
    hide Built, KnownKeys, CatalogueValid, Refers, FieldOk, GrantProblems, GrantKey, FieldIdent;
    BuiltValid(cat, reg, c, file);
    var e := FieldBehind(cat, reg, c, file, i, g);
    GrantStatus(cat, reg, e, g);
  }

  /** The composed row a finding is about. */
  datatype Source =
    | EndpointRow(endpoint: (string, nat))
    | RuleSource(rule: nat)
    | ConditionSource(condition: (nat, nat))
    | GrantSource(grant: (string, nat, string))

  ghost predicate Gives(cat: Catalogue, reg: Reg, c: Composition, source: Source, problem: Problem)
    requires CatalogueValid(cat) && Linked(c) && Refers(c, cat)
  {
    match source
    case EndpointRow(e) => e in c.endpoints && problem in EndpointProblems(cat, e)
    case RuleSource(r) => r in c.rules && problem in RuleProblems(reg, cat, c, r)
    case ConditionSource(x) => x in c.conditions && problem in ConditionProblems(cat, c, x)
    case GrantSource(g) => g in c.grants && problem in GrantProblems(reg, cat, g)
  }

  ghost predicate SourceOf(c: Composition, source: Source, p: string) {
    match source
    case EndpointRow(e) => e.0 == p
    case RuleSource(r) => OwnedBy(c, r, p)
    case ConditionSource(x) => OwnedBy(c, x.0, p)
    case GrantSource(g) => g.0 == p
  }

  lemma SomeSource(cat: Catalogue, reg: Reg, c: Composition, found: set<Problem>, problem: Problem)
    returns (source: Source)
    requires CatalogueValid(cat) && Linked(c) && Refers(c, cat) && Found(reg, cat, c, found) && problem in found
    ensures Gives(cat, reg, c, source, problem)
  {
    hide EndpointProblems, RuleProblems, ConditionProblems, GrantProblems;
    if e :| e in c.endpoints && problem in EndpointProblems(cat, e) {
      source := EndpointRow(e);
    } else if r :| r in c.rules && problem in RuleProblems(reg, cat, c, r) {
      source := RuleSource(r);
    } else if x :| x in c.conditions && problem in ConditionProblems(cat, c, x) {
      source := ConditionSource(x);
    } else {
      var g :| g in c.grants && problem in GrantProblems(reg, cat, g);
      source := GrantSource(g);
    }
  }

  lemma SourceIsBlamed(cat: Catalogue, reg: Reg, c: Composition, source: Source, problem: Problem, p: string)
    requires CatalogueValid(cat) && Linked(c) && Refers(c, cat) && Gives(cat, reg, c, source, problem)
    ensures !problem.Warning() && (Blames(c, problem, p) <==> SourceOf(c, source, p))
  {
    hide KnownKeys, CatalogueValid, Linked;
  }

  /** Findings about compositions always name a permission. */
  lemma SourceHasOwner(c: Composition, source: Source, cat: Catalogue, reg: Reg, problem: Problem) returns (p: string)
    requires CatalogueValid(cat) && Linked(c) && Refers(c, cat) && Gives(cat, reg, c, source, problem)
    ensures p in c.permissions && SourceOf(c, source, p)
  {
    hide EndpointProblems, RuleProblems, ConditionProblems, GrantProblems, CatalogueValid, Refers;
    match source
    case EndpointRow(e) => p := e.0;
    case RuleSource(r) => p := c.rules[r].permission;
    case ConditionSource(x) => p := c.rules[x.0].permission;
    case GrantSource(g) => p := g.0;
  }

  lemma SourceKeyUnknown(cat: Catalogue, reg: Reg, c: Composition, file: File, i: nat, source: Source, problem: Problem)
    requires CatalogueValid(cat) && Linked(c) && Refers(c, cat) && Built(cat, reg, c, file) && i < |file.permissions|
    requires Gives(cat, reg, c, source, problem) && SourceOf(c, source, file.permissions[i].0)
    ensures KeyUnknown(cat, reg, c, file.permissions[i].1, problem)
  {
    hide Built, Linked, KeyUnknown, EndpointProblems, RuleProblems, ConditionProblems, GrantProblems;
    match source
    case EndpointRow(e) => EndpointBlamed(cat, reg, c, file, i, e);
    case RuleSource(r) => RuleBlamed(cat, reg, c, file, i, r, problem);
    case ConditionSource(x) => ConditionBlamed(cat, reg, c, file, i, x);
    case GrantSource(g) => GrantBlamed(cat, reg, c, file, i, g, problem);
  }

  /** Every row of the file's permissions that a finding blames has a key known to nobody: accepting a file
      checks everything else the findings are about. */
  lemma OnlyKeysBlamed(cat: Catalogue, reg: Reg, c: Composition, file: File, i: nat, found: set<Problem>,
                       problem: Problem)
    requires Linked(c) && Built(cat, reg, c, file) && Found(reg, cat, c, found) && i < |file.permissions|
    requires problem in found && Blames(c, problem, file.permissions[i].0)
    ensures KeyUnknown(cat, reg, c, file.permissions[i].1, problem)
  {
    hide Built, CatalogueValid, Linked, Refers, Found, Blames, KeyUnknown, Gives, SourceOf;
    BuiltValid(cat, reg, c, file);
    var source := SomeSource(cat, reg, c, found, problem);
    SourceIsBlamed(cat, reg, c, source, problem, file.permissions[i].0);
    SourceKeyUnknown(cat, reg, c, file, i, source, problem);
  }

  lemma RuleFound(cat: Catalogue, reg: Reg, c: Composition, found: set<Problem>, r: nat, problem: Problem)
    requires CatalogueValid(cat) && Linked(c) && Refers(c, cat) && Found(reg, cat, c, found)
    requires r in c.rules && problem in RuleProblems(reg, cat, c, r)
    ensures problem in found
  {
    hide RuleProblems, CatalogueValid, Linked;
  }

  lemma GrantFound(cat: Catalogue, reg: Reg, c: Composition, found: set<Problem>, g: (string, nat, string),
                   problem: Problem)
    requires CatalogueValid(cat) && Linked(c) && Refers(c, cat) && Found(reg, cat, c, found)
    requires g in c.grants && problem in GrantProblems(reg, cat, g)
    ensures problem in found
  {
    hide GrantProblems, CatalogueValid, Linked;
  }

  /** And every such key is found out: the row of a rule whose key is known to nobody is blamed, */
  lemma UnknownRuleBlamed(cat: Catalogue, reg: Reg, c: Composition, file: File, i: nat, found: set<Problem>,
                          e: RuleEntry) returns (r: nat)
    requires Linked(c) && Built(cat, reg, c, file) && Found(reg, cat, c, found) && i < |file.permissions|
    requires e in file.permissions[i].1.rules && e.key !in KnownKeys(reg)
    ensures OwnedBy(c, r, file.permissions[i].0) && StaleRuleKey(r) in found
  {
    assert CatalogueValid(cat) && Refers(c, cat);
    RulesAre(cat, reg, c, file, i);
    hide Built, KnownKeys, CatalogueValid, Stores, RuleOk, DocOf, RuleProblems, PermissionMatches, Distinguished,
      EndpointsOk, Linked, Refers, Found;
    r := RuleOfEntry(cat, c, file.permissions[i].0, file.permissions[i].1, e);
    RuleStatus(cat, reg, c, r, e);
    RuleFound(cat, reg, c, found, r, StaleRuleKey(r));
  }

  /** and so is the row of a field entry. */
  lemma UnknownFieldBlamed(cat: Catalogue, reg: Reg, c: Composition, file: File, i: nat, found: set<Problem>,
                           e: FieldEntry)
    requires Linked(c) && Built(cat, reg, c, file) && Found(reg, cat, c, found) && i < |file.permissions|
    requires e in file.permissions[i].1.fields && GrantKey(e) !in KnownKeys(reg)
    ensures StaleGrantKey((file.permissions[i].0, FieldIdent(cat, e).0, e.verb)) in found
  {
    assert CatalogueValid(cat) && Refers(c, cat);
    FieldsAre(cat, reg, c, file, i);
    GrantOfField(cat, c, file.permissions[i].0, file.permissions[i].1.fields, e);
    assert FieldOk(cat, e);
    hide Built, KnownKeys, CatalogueValid, GrantProblems, FieldOk, FieldIdent, GrantKey, Linked, Refers, Found,
      GrantsOf, WantedGrants;
    var g := (file.permissions[i].0, FieldIdent(cat, e).0, e.verb);
    GrantStatus(cat, reg, e, g);
    GrantFound(cat, reg, c, found, g, StaleGrantKey(g));
  }

  lemma GrantOfField(cat: Catalogue, c: Composition, p: string, fields: seq<FieldEntry>, e: FieldEntry)
    requires GrantsOf(c, p) == WantedGrants(cat, fields) && e in fields
    ensures (p, FieldIdent(cat, e).0, e.verb) in c.grants && FieldIdent(cat, e) == (FieldIdent(cat, e).0, e.verb)
  {
    WantedGrantsKeys(cat, fields);
    var y := FieldIdent(cat, e);
    assert y in GrantsOf(c, p);
    var x :| x in c.grants && x.0 == p && (x.1, x.2) == y;
    assert x == (p, y.0, y.1);
  }

  // ----- the whole file

  ghost predicate KeysKnown(reg: Reg, file: File) {
    forall i | 0 <= i < |file.permissions| :: BodyKeysKnown(reg, file.permissions[i].1)
  }

  ghost predicate BodyKeysKnown(reg: Reg, body: PermissionBody) {
    && (forall e | e in body.rules :: e.key in KnownKeys(reg))
    && (forall e | e in body.fields :: GrantKey(e) in KnownKeys(reg))
  }

  /** Deploying a file where nothing was composed before leaves a composition the checks pass exactly when every
      key of the file is known to the registry. */
  lemma DeployIsCleanExactly(cat: Catalogue, reg: Reg, c0: Composition, c1: Composition, file: File, lo: nat)
    requires WellFormed(cat, c0, lo) && c0.permissions == map[]
    requires Acceptable(cat, reg, c0, file) && Applied(cat, c0, c1, file, lo)
    requires Linked(c1) && Refers(c1, cat)
    ensures Clean(reg, cat, c1) <==> KeysKnown(reg, file)
  {
    assert CatalogueValid(cat);
    SpecRun.AppliedRefers(cat, reg, c0, c1, file, lo);
    AppliedIsBuilt(cat, reg, c0, c1, file, lo);
    OnlyFileHere(cat, c0, c1, file, lo);
    hide WellFormed, CatalogueValid, Acceptable, Applied, Built, Linked, Refers, BodyKeysKnown, Found, Blames, Gives,
      SourceOf;
    if Clean(reg, cat, c1) {
      var found :| Found(reg, cat, c1, found) && NoErrors(found);
      forall i | 0 <= i < |file.permissions|
        ensures BodyKeysKnown(reg, file.permissions[i].1)
      {
        NoErrorsMeansKnown(cat, reg, c1, file, i, found);
      }
    }
    if KeysKnown(reg, file) {
      AllFound(cat, reg, c1);
      var found :| Found(reg, cat, c1, found);
      forall problem | problem in found
        ensures false
      {
        var source := SomeSource(cat, reg, c1, found, problem);
        var p := SourceHasOwner(c1, source, cat, reg, problem);
        SourceIsBlamed(cat, reg, c1, source, problem, p);
        var i :| 0 <= i < |file.permissions| && file.permissions[i].0 == p;
        OnlyKeysBlamed(cat, reg, c1, file, i, found, problem);
        KnownNotUnknown(cat, reg, c1, file.permissions[i].1, problem);
      }
      assert NoErrors(found);
    }
  }

  // ----- an accepted file with an unknown key, concretely

  function UnknownKeyFile(): File {
    File([("p", PermissionBody(None, "", [], [], [FieldEntry("w.g", "view", map[])]))], [])
  }

  lemma OneGroupFits(lo: nat)
    requires lo >= 2
    ensures WellFormed(OneGroup(), NoRows(), lo)
  {
    OneGroupWellFormed();
    hide CatalogueValid, Linked, Refers;
  }

  lemma UnknownKeyAccepted(reg: Reg, lo: nat)
    requires lo >= 2
    ensures Acceptable(OneGroup(), reg, NoRows(), UnknownKeyFile()) && WellFormed(OneGroup(), NoRows(), lo)
  {
    GroupKey();
    GroupRows();
    OneGroupFits(lo);
    hide RPartition, SplitOk, LiveAt, Holds, OneGroup, NoRows, WellFormed, RuleOk, AtMostOne;
    var body := UnknownKeyFile().permissions[0].1;
    forall e | e in body.fields
      ensures FieldOk(OneGroup(), e)
    {
      assert e == body.fields[0];
    }
    assert FieldsOk(OneGroup(), body.fields);
  }

  /** The file grants fields under a key nothing declares.  It is accepted, and whatever applying it leaves, the
      checks find fault with it. */
  lemma UnknownKeyDeploys(c1: Composition, lo: nat)
    requires lo >= 2 && Applied(OneGroup(), NoRows(), c1, UnknownKeyFile(), lo)
    ensures Acceptable(OneGroup(), NothingDeclared(), NoRows(), UnknownKeyFile())
    ensures CatalogueValid(OneGroup()) && Linked(c1) && Refers(c1, OneGroup())
    ensures !Clean(NothingDeclared(), OneGroup(), c1)
  {
    var cat, reg, file := OneGroup(), NothingDeclared(), UnknownKeyFile();
    assert NoRows().permissions == map[];
    hide Acceptable, Applied, OneGroup, NoRows, UnknownKeyFile, NothingDeclared, KeysKnown, Clean, Refers,
      CatalogueValid, Linked, Fits;
    UnknownKeyAccepted(reg, lo);
    UnknownKeyUnknown();
    SpecRun.AppliedRefers(cat, reg, NoRows(), c1, file, lo);
    AppliedLinked(cat, NoRows(), c1, file, lo);
    DeployIsCleanExactly(cat, reg, NoRows(), c1, file, lo);
  }

  lemma UnknownKeyUnknown()
    ensures !KeysKnown(NothingDeclared(), UnknownKeyFile())
  {
    var file := UnknownKeyFile();
    assert KnownKeys(NothingDeclared()) == {};
    assert file.permissions[0].1.fields[0] in file.permissions[0].1.fields;
    hide KnownKeys;
    assert !BodyKeysKnown(NothingDeclared(), file.permissions[0].1);
  }

  lemma AppliedLinked(cat: Catalogue, c0: Composition, c1: Composition, file: File, lo: nat)
    requires Applied(cat, c0, c1, file, lo)
    ensures Linked(c1)
  {
    hide Linked, PermissionApplied, SamePermission;
  }

  lemma KnownNotUnknown(cat: Catalogue, reg: Reg, c: Composition, body: PermissionBody, problem: Problem)
    requires BodyKeysKnown(reg, body)
    ensures !KeyUnknown(cat, reg, c, body, problem)
  {
    hide KnownKeys, Stores, DocOf, GrantKey, FieldIdent;
  }

  lemma NoErrorsMeansKnown(cat: Catalogue, reg: Reg, c: Composition, file: File, i: nat, found: set<Problem>)
    requires Linked(c) && Built(cat, reg, c, file) && Found(reg, cat, c, found) && i < |file.permissions|
    requires NoErrors(found)
    ensures BodyKeysKnown(reg, file.permissions[i].1)
  {
    hide Linked, Built, Found, KnownKeys, OwnedBy, GrantKey, FieldIdent;
    var body := file.permissions[i].1;
    forall e | e in body.rules
      ensures e.key in KnownKeys(reg)
    {
      if e.key !in KnownKeys(reg) {
        var r := UnknownRuleBlamed(cat, reg, c, file, i, found, e);
      }
    }
    forall e | e in body.fields
      ensures GrantKey(e) in KnownKeys(reg)
    {
      if GrantKey(e) !in KnownKeys(reg) {
        UnknownFieldBlamed(cat, reg, c, file, i, found, e);
      }
    }
  }

  /** Tables that held no permission before hold only those of the file. */
  lemma OnlyFileHere(cat: Catalogue, c0: Composition, c1: Composition, file: File, lo: nat)
    requires c0.permissions == map[] && Applied(cat, c0, c1, file, lo)
    ensures forall p | p in c1.permissions :: Names(file, p)
  {
    hide PermissionApplied, Linked;
    forall p | p in c1.permissions
      ensures Names(file, p)
    {
      assert !Names(file, p) ==> SamePermission(c0, c1, p);
    }
  }

  ghost function EndpointFindings(cat: Catalogue, c: Composition): set<Problem>
    requires Refers(c, cat)
  {
    set e, p | e in c.endpoints && p in EndpointProblems(cat, e) :: p
  }

  ghost function RuleFindings(reg: Reg, cat: Catalogue, c: Composition): set<Problem>
    requires Refers(c, cat)
  {
    set r, p | r in c.rules && p in RuleProblems(reg, cat, c, r) :: p
  }

  ghost function ConditionFindings(cat: Catalogue, c: Composition): set<Problem>
    requires Linked(c) && Refers(c, cat)
  {
    set x, p | x in c.conditions && p in ConditionProblems(cat, c, x) :: p
  }

  ghost function GrantFindings(reg: Reg, cat: Catalogue, c: Composition): set<Problem>
    requires CatalogueValid(cat) && Refers(c, cat)
  {
    set g, p | g in c.grants && p in GrantProblems(reg, cat, g) :: p
  }

  /** There is a set of all findings. */
  lemma AllFound(cat: Catalogue, reg: Reg, c: Composition)
    requires CatalogueValid(cat) && Linked(c) && Refers(c, cat)
    ensures exists found :: Found(reg, cat, c, found)
  {
    hide EndpointProblems, RuleProblems, ConditionProblems, GrantProblems, CatalogueValid, Linked;
    assert Found(reg, cat, c,
      EndpointFindings(cat, c) + RuleFindings(reg, cat, c) + ConditionFindings(cat, c) + GrantFindings(reg, cat, c));
  }
}
