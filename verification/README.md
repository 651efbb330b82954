# permkit, modelled and proved in Dafny

permkit decides what a user may do. Code declares objects, endpoints, filters, field groups and the places where
row filters are applied; a sync run publishes those declarations as catalogue tables; people compose permissions
out of catalogue rows, by hand or from a permission file; a store reads the composed grants back; and a resolver
compiles them to a query predicate that lists, detail views and writes all share. This project models that whole
path and proves that its layers agree.

- **Predicates and decisions.** `Predicates` is Django's `Q` with its collapse of the empty `Q`, evaluated over a row
  and one joined row at a time, so that a list is a sequence in which a row can appear more than once. `Resolver`
  holds the fold over grants with its early exits and its errors; `Denotation` gives the reference meaning it is
  proved against: the union over grants of the intersection of their conditions. `Access` and `Writes` are the
  decisions built on a scope, `Explaining` the account of a decision that an administrator reads.
- **Declarations.** `Base` binds configured params, `Registry` is the registry as a class and as a step function,
  `Assembly` says what a key carries and what is refused from the registrations of a run alone.
- **Tables.** `Tables` has the catalogue and composition tables, their constraints and foreign keys, and the
  `Database` that operations rewrite. `Upserting` is the reconciliation algorithm, `Sync` runs it over the five linked
  tables, `Validation` is the static checker. `Published` says what the tables hold after a run and `Reporting` what
  the checker reports, both from the registry and the rows.
- **The permission file.** `SpecFile` says when a file can be applied and what it must leave behind; `Spec`,
  `SpecApply` and `SpecRun` are the loops that create, update and delete rows, and the transaction; `Views` gathers a
  permission from the flat tables; `SpecProperties` has convergence and frames, `FileMeaning` what is accepted and
  reported, told from the file and the tables; `Compile` reads a file as a program and proves that compiling it into
  tables preserves its meaning, `FieldTier` the same for fields and writes; `DeployChecks` says what the static
  checker can still find once a file has been applied.
- **Two stores.** `DatabaseStore` and `MemoryStores`, with `Seeding` between them and `SeedParity` comparing them;
  `SeedMeaning` says what a fixture must name and who comes to hold what; `Sorting` is the order in which seeding
  writes permitted values.
- **Monotonicity.** `Monotone` relates the scopes before and after a change to the tables.
- **Dynamic scopes.** `Cache` is the stack of remembered lookups and `CachedDecisions` every decision taken through
  it; `Declare` is the guard that proves a declared selector applied its filters, with the query the selector has
  in hand, `Stacking` the decorators of one class.

Choices that hold throughout. A filter body is an arbitrary function from context and bound params to a `Q`. A join is
shared: all conditions of one predicate look at the same joined row, as they do inside one Django `filter` call.
Exceptions are the `Err` of a `Result`. The catalogue is keyed by primary key; roles and permissions by their unique
key; composition tables with a unique constraint by its columns; rules, which have none, by primary key, and that a
file leaves one rule for each label is proved, not assumed. The order in which a query returns rows is left open
(`Listed`), and nothing proved depends on it. Roles are already normalised identifiers.

## Findings

- The empty `Q` really does narrow (`Denotation.MixtureNarrows`, `Monotone.MoreGrantsMayRemove`). The short-circuit
  covers only grants without conditions; a grant whose conditions all compile to the empty `Q` opens everything alone
  and nothing at all beside a grant that narrows. `Denotation.UnionExact` and `Monotone.MoreGrants` say exactly when.
- A comment in `src/permkit/catalogue/sync.py` says that a rule on a retired filter still resolves. The store still
  hands it out, but once the registry has lost the filter the scope raises (`Validation.RetiredFilterRaises` is an
  example). It still resolves if and only if some grant is unconditional and no grant before it is broken
  (`Validation.RetiredFilterFails`).
- `apply_permissions` sets its flag before the scope is resolved and leaves the query it is given alone, so a selector
  can return normally and unfiltered: when it catches the failure of its actor (`Declare.CaughtFailureReturns`) or of an
  actor the call itself names (`Declare.NamedActorReturns`), and when it does not return what `apply_permissions` gave
  it (`Declare.DiscardedQueryReturns`). What it returns bears a scope of its own if and only if one of its applies went
  through and it did not replace the query after (`Declare.NarrowedExactly`). Before the call: for a selector that
  catches nothing, if and only if an apply is written after everything that replaces the query
  (`Declare.UncaughtExactly`); for one that replaces nothing after an apply, if everyone its applies may resolve for
  resolves, and not if nobody does (`Declare.NarrowedExactly`); when some do and some do not, who they are decides
  neither (`Declare.DisagreementIsOpen`). Under either condition the rows returned are all in scope
  (`Declare.SiteListsOnlyItsScope`).
- A comment in `src/permkit/declare.py` says a permission key written by hand stands. It is cleared when it is one of
  several endpoints stacked on the class and not only the last of them (`Stacking.HandWrittenKey`).
- A file that names one (group, endpoint) pair with two different lists of values converges, but every run of it
  reports an update (`SpecProperties.ContradictionReportedForever`); `SpecProperties.SecondRun` says for which files,
  among those whose values JSON keeps as they are.
- Adding a condition to a rule can add rows: an empty rule beside one that narrows shuts out what the other refuses, and
  stops doing so once it narrows itself (`Monotone.MoreConditionsMayAdd`). `Monotone.TighteningExactly` says when.
- Lookups are remembered without a word of the store they came from, so stores asked in one scope share answers
  (`CachedDecisions.OtherStoreAnswers`). `CachedDecisions.SharedLookUps` says whose answer each lookup is given,
  `CachedDecisions.SharingHarmless` when that is its own store's.
- Re-pointing a governed reference can make a known key unknown (`Registry.RepointingLosesKey`);
  `Registry.RepointingKeepsKeys` says when it does not.
- `apply_spec` never asks whether a key of the file is one anything declares. Where nothing was composed before, a file
  it accepts leaves a composition the static checker passes if and only if every key of the file is known
  (`DeployChecks.DeployIsCleanExactly`); `DeployChecks.UnknownKeyDeploys` is an accepted file that leaves another.
- `explain` answers about an unknown key where the checks raise, for a superuser and for a user without roles, and for
  nobody else (`Explaining.ExplainTellsTheTruth`); `Explaining.UnknownKeyExplained` is a superuser who does.

## Model

| member | source | states |
|---|---|---|
| Keys.LastDot | src/permkit/spec.py:116 | The last dot, if there is one, with none after it |
| Keys.SplitThenJoin | src/permkit/spec.py:115-122 | A key with a dot is the join of its halves |
| Keys.JoinThenSplit | src/permkit/registry.py:209-237 | Splitting undoes joining exactly when the verb has no dot of its own |
| Keys.Undotted | src/permkit/registry.py:221 | A key without a dot names no object: all of it is the verb |
| Keys.SameHalves | src/permkit/store.py:81-88 | Two keys that name an object are the same key exactly when their halves are |
| Base.Bind | src/permkit/base.py:96-106 | Binding succeeds exactly when no unknown param is given and every declared one is valid or has a default; every failure is an InvalidParams; the result has exactly the declared params |
| Base.BindIdempotent | src/permkit/base.py:43-55 | Binding what binding returned changes nothing, as long as defaults obey their own declaration |
| Base.BindExactly | src/permkit/base.py:43-106 | Binding succeeds exactly when no param given is undeclared, each missing one has a default, and each given one has its declared type: a boolean passes for an integer and nothing else for anything else |
| Predicates.ConjMeaning | src/permkit/resolver.py:205-229 | The collapsing and means conjunction, row by row |
| Predicates.DisjMeaning | src/permkit/resolver.py:205-233 | The collapsing or means disjunction, row by row, if and only if it is not the case that just one side is empty and the other fails |
| Listing.Distinct | src/permkit/declare.py:84 | The same elements, each once |
| Listing.DistinctInOrder | src/permkit/declare.py:84 | They keep the order of their first places: what precedes an element in the result precedes every place of it in the list |
| Predicates.FilterMembers | src/permkit/resolver.py:237-244 | Filtering keeps exactly the rows some joined row of which satisfies the predicate |
| Predicates.NoJoinNoRepeats | src/permkit/resolver.py:237-244 | A predicate without joins lists no row twice |
| Predicates.PlainFilter | src/permkit/resolver.py:237-244 | A test of the row alone lists each row that passes once and in its place, and no test lists them all |
| Predicates.JoinedFilter | src/permkit/resolver.py:237-244 | With a join a row comes back once for each joined row that satisfies the predicate, or for the one empty partner when nothing is joined |
| Registry.Registrations.RegisterKey | src/permkit/registry.py:39-58 | Whole-key registration refuses an id already registered whole and otherwise adds it, touching nothing else |
| Registry.Registrations.RegisterCondition | src/permkit/registry.py:60-86 | A filter id can be registered once |
| Registry.Registrations.RegisterObject | src/permkit/registry.py:90-106 | Merges with what is known of the object and refuses to rebind its model; a refusal changes nothing |
| Registry.Registrations.RegisterReferences | src/permkit/registry.py:108-119 | Governed references are merged over those there were |
| Registry.Registrations.RegisterEndpoint | src/permkit/registry.py:131-157 | The first declaration supplies the label, further ones add places that enforce it |
| Registry.Registrations.RegisterGroup | src/permkit/registry.py:159-182 | A field group can be declared again only identically |
| Registry.Registrations.RegisterPoint | src/permkit/registry.py:184-193 | A scope point gets one more target, repetitions included |
| Registry.RegistryGrows | src/permkit/registry.py:39-237 | Over any run of registrations each of which meets its condition, known keys, models, controlled fields and resolving keys only grow; a refused one always meets it |
| Registry.StepGrowsExactly | src/permkit/registry.py:39-237 | The registry grows in one step if and only if the condition holds: refused, or merging references that mention every old target still, or taking over a key no narrower than it was assembled |
| Registry.TakeoverGrows | src/permkit/registry.py:39-58 | Registering a key whole keeps growth if and only if it offers at least what the key was assembled to before |
| Registry.PlainStepsAreAdditive | src/permkit/registry.py:90-193 | Only re-pointing a reference or taking over a known key can miss the condition |
| Registry.RepointingKeepsKeys | src/permkit/registry.py:108-119 | Merging references keeps every known key exactly when each re-pointed target is still mentioned |
| Registry.RepointingLosesKey | src/permkit/registry.py:108-119 | One reference whose re-pointing makes a key unknown and undoes growth |
| Registry.MentionedExactly | src/permkit/registry.py:195-207 | After a merge a key is known exactly when some declaration or reference that is left still mentions it |
| Assembly.RefusedExactly | src/permkit/registry.py:39-182 | Over any run from nothing, a whole key or a filter is refused exactly when its id was accepted before, an object when it was accepted before under another model, a group when it was accepted with other fields or another label, an endpoint when it is relabelled; references and scope points never are |
| Assembly.AssembledExactly | src/permkit/registry.py:209-237 | Over any run, a key not registered whole resolves exactly when its object is declared, it has a verb and some registration mentions it; it then has the model its object was accepted under, controls the fields its accepted groups list, and each governed reference points where it was last pointed |
| Assembly.WholeKeyWins | src/permkit/registry.py:218-219 | Over any run, a key registered whole is what was registered |
| Assembly.WritesByRegistration | src/permkit/resolver.py:336-380 | For such a key the write check of anyone who does not bypass accepts exactly when a role has the endpoint, some grant lists each field an accepted group of the object lists, each constrained field takes a permitted value, and each reference is in scope under the key it was last governed by |
| Assembly.StrayReferenceRefused | src/permkit/resolver.py:307-380 | So a payload is refused that points a governed reference at a key no row in scope has |
| Assembly.TargetsFrom | src/permkit/registry.py:131-157 | Over any run, an endpoint lists exactly the places of its accepted declarations |
| Assembly.LabelFrom | src/permkit/registry.py:135-149 | It has the label it was first declared with, or its key |
| Assembly.TitleFrom | src/permkit/registry.py:90-106 | An object has the label it was last accepted with, or one made from its key |
| Assembly.GroupLabelFrom | src/permkit/registry.py:168-182 | A group has the label of any accepted declaration of it, or one made from its key |
| Registry.LabelExactly | src/permkit/registry.py:97-172 | A label made from a key is the key with its first letter in upper case and the others in lower case, and, for a group, with spaces for underscores |
| Assembly.SitesFrom | src/permkit/registry.py:184-191 | A scope point lists exactly the sites declared for it |
| Assembly.ConditionsFrom | src/permkit/registry.py:60-84 | The filters of the registry are exactly those accepted |
| Resolver.ResolveScope | src/permkit/resolver.py:180-235 | The loop with its early exits computes the recursive specification, errors included |
| Resolver.FoldGrants | src/permkit/resolver.py:203-235 | The nested loops over grants and conditions compute the specified disjunction of conjunctions |
| Denotation.GrantMeaning | src/permkit/resolver.py:211-230 | One grant compiles to the intersection of its bound conditions, fails exactly when one of them is broken, and is empty exactly when all of them are |
| Denotation.OutcomeDecided | src/permkit/resolver.py:203-235 | Error, everything or a predicate: the first grant that is unconditional or broken decides, in both directions |
| Denotation.FilteredMeaning | src/permkit/resolver.py:232-235 | What the collapsing disjunction matches, with no proviso at all |
| Denotation.UnionExact | src/permkit/resolver.py:203-235 | For each row, the scope is the union of intersections if and only if the row is not shut out by a mixture with an empty conjunction |
| Denotation.MixtureNarrows | src/permkit/resolver.py:204-209 | Two grants, one of which admits every row, whose scope admits none |
| Denotation.ScopeDenotes | src/permkit/resolver.py:180-235 | With no broken grant and no empty conjunction a row is in scope exactly when the user bypasses, or reaches the endpoint and some grant admits it; no role, no endpoint or no grant is no row |
| Denotation.BypassExactly | src/permkit/resolver.py:132-235 | For a key that resolves: a superuser under a policy that lets superusers bypass passes the endpoint check and has every row; anyone else passes exactly with a role and the endpoint, has no row without a role, the endpoint and a grant, and otherwise the scope of those grants |
| Denotation.OrderIrrelevant | src/permkit/resolver.py:199-235 | The order of unbroken grants changes neither the kind of scope, nor its rows, nor `distinct` |
| Access.ListMembers | src/permkit/resolver.py:237-244 | The list holds exactly the rows of the queryset that are in scope |
| Access.ListDetailReferenceAgree | src/permkit/resolver.py:237-334 | List, object check and both kinds of reference check, as an instance and as data read as its primary key, give one answer for every stored row and fail together |
| Access.DanglingReference | src/permkit/resolver.py:307-334 | Data read as a primary key no row has is never a permitted reference; an unsaved instance passes exactly an unrestricted scope |
| Access.UnreadableReference | src/permkit/resolver.py:318-329 | Data the database cannot compare with a primary key, a record of another model included, is never permitted, and refused rather than raising exactly when the scope denies everything |
| Access.ListedOnce | src/permkit/resolver.py:237-244 | With truthful multi-valued flags no row is listed twice |
| Access.AssertReferenceInScope | src/permkit/resolver.py:307-334 | Accepts exactly when every submitted item is in scope under the governing key |
| Explaining.ExplainTellsTheTruth | src/permkit/resolver.py:384-438 | The explained verdict is the endpoint check, or the object check, errors included, if and only if the key resolves or the user neither bypasses nor lacks roles |
| Explaining.UnknownKeyExplained | src/permkit/resolver.py:391-396 | A superuser and an empty registry: the account allows, the endpoint check and the object check raise |
| Explaining.WithheldExactly | src/permkit/resolver.py:425-431 | The fields reported as withheld are exactly the controlled ones the user may not see |
| Explaining.AccountExactly | src/permkit/resolver.py:384-438 | The whole account: one line for a superuser who bypasses or a user without roles; for anyone else an error exactly when the key is unknown or the check on the row asked about is, and otherwise exactly the true lines: the endpoint, each grant with its filters, the row in or out of scope as the object check has it, the fields granted and withheld |
| Explaining.GrantLinesTellTheScope | src/permkit/resolver.py:391-416 | For a user with roles who does not bypass, the lines of any account tell the scope: no row exactly when the endpoint is missing or there is no grant, and, if it resolves, every row exactly when the endpoint is granted and some grant is unconditional |
| Access.ScopeImpliesEndpoint | src/permkit/resolver.py:187-193 | A user allowed a row is allowed the endpoint |
| Writes.GrantedFields | src/permkit/resolver.py:263-269 | The fields some grant lists |
| Writes.AllowedValues | src/permkit/resolver.py:291-305 | Exactly the constrained fields, each with the union over the grants that constrain it |
| Writes.AssertWritable | src/permkit/resolver.py:336-380 | Accepts exactly the payloads of the characterisation: endpoint, fields, values and references |
| Writes.CheckValues | src/permkit/resolver.py:355-370 | Every constrained field has a permitted, hashable value |
| Writes.CheckReferences | src/permkit/resolver.py:307-380 | Every governed reference in the payload is in scope |
| Writes.WritableExactly | src/permkit/resolver.py:336-380 | The write check of anyone who does not bypass, told from the grants of the store: a role with the endpoint, a grant that lists each controlled field, a grant that permits the value of each field some grant constrains, each governed reference in scope |
| Writes.VisibleExactly | src/permkit/resolver.py:271-285 | A superuser who bypasses sees every candidate; anyone else the uncontrolled ones and those some grant lists |
| Writes.NullRefersToNothing | src/permkit/resolver.py:316-318 | A null reference is in scope whoever asks, if the governing key declares a model |
| Writes.KeyInScope | src/permkit/resolver.py:318-329 | A primary key is in scope exactly when a row of the model with that key is |
| Writes.RecordInScope | src/permkit/resolver.py:319-320 | A submitted record is in scope exactly when it is of the governed model and the object check under the governing key accepts it |
| Writes.ListInScope | src/permkit/resolver.py:315-334 | A list is in scope exactly when each of its elements is, and none is a list of records |
| Writes.ListsAgree | src/permkit/resolver.py:315 | A list refers to the same rows however it is written, and an empty one to none |
| Writes.DroppingFieldsKeepsWritable | src/permkit/resolver.py:336-380 | An accepted payload stays accepted when fields are dropped |
| Writes.GrantRevealsMore | src/permkit/resolver.py:271-285 | A further grant never hides a field |
| Writes.GrantKeepsWritable | src/permkit/resolver.py:291-380 | A further grant rejects an accepted payload if and only if it is the first to constrain a field of it and does not permit the value |
| Upserting.Place | src/permkit/catalogue/sync.py:148-175 | One declaration: create, revive, update or keep its row, counted as what happened |
| Upserting.Upsert | src/permkit/catalogue/sync.py:130-183 | The table is reconciled with the declarations and the five counts are the sizes of the five fates |
| Upserting.WantedIsFirst | src/permkit/catalogue/sync.py:150-156 | Of repeated natural keys the first declaration counts |
| Upserting.LiveMeansDeclared | src/permkit/catalogue/sync.py:150-181 | Afterwards a row is live exactly when it is declared, and then holds its declaration; no natural key moves |
| Upserting.QuietExactly | src/permkit/catalogue/sync.py:83-85 | A report is unchanged exactly when every declaration found its live row as declared and nothing live was undeclared |
| Upserting.ChangedExactly | src/permkit/catalogue/sync.py:66-86 | A report is changed exactly when something other than the time last seen differs |
| Upserting.CountsExactly | src/permkit/catalogue/sync.py:130-183 | The five counts are the numbers of rows that came, came back, changed, stayed as they were, and went |
| Upserting.SecondRunQuiet | src/permkit/catalogue/sync.py:130-183 | A reconciled table is quiet for the same declarations |
| Tables.Database.constructor | src/permkit/models.py:60-300 | Empty tables meet every constraint |
| Sync.SyncTables | src/permkit/catalogue/sync.py:509-535 | Five linked tables are reconciled, objects first, and every foreign key points at a row |
| Published.ObjectPublished | src/permkit/catalogue/sync.py:210-240 | After a sync there is one live row for each object that is declared or that a filter, group or site is for, and none for another, with its model and its label |
| Published.EndpointPublished | src/permkit/catalogue/sync.py:262-266 | One live row for each declared endpoint and no other, with its label and every place that enforces it |
| Published.FilterPublished | src/permkit/catalogue/sync.py:243-259 | One live row for each filter declared for an object and no other, owned by the live row of that object, with its params and its flag |
| Published.GroupPublished | src/permkit/catalogue/sync.py:269-280 | One live row for each declared group of an object and no other, owned by the live row of that object, with the fields it was declared with |
| Published.PointPublished | src/permkit/catalogue/sync.py:283-295 | One live row for each site declared for an object and verb and no other, owned by the live row of that object |
| Published.HeldGroupFields | src/permkit/store.py:103-126 | A live group someone holds hands out exactly the fields the registry declares for that group of the object of the key |
| SyncProperties.SyncChangedExactly | src/permkit/catalogue/sync.py:102-104 | A run reports a change exactly when some column other than the time last seen differs in some table |
| SyncProperties.SyncIdempotent | src/permkit/catalogue/sync.py:491-503 | A second run with the same registry creates, updates, revives and retires nothing |
| SyncProperties.SyncKeepsGrants | src/permkit/store.py:71-101 | For any registry, roles and key the endpoint and object grants of composed permissions are those of before |
| SyncProperties.SyncMovesOnlyDeclaredGroups | src/permkit/store.py:103-126 | Field grants can differ only in the fields of groups the registry still declares |
| Validation.ValidateCompositions | src/permkit/catalogue/sync.py:385-478 | Reports every stale or misfiled reference and nothing else |
| Validation.SyncCatalogue | src/permkit/catalogue/sync.py:490-538 | The whole run: tables reconciled, counts right, problems exactly those there are, compositions untouched |
| Reporting.DeclarationsReported | src/permkit/catalogue/sync.py:318-382 | Each of the four findings about declarations is reported exactly when its condition holds of what was registered |
| Reporting.CompositionsReported | src/permkit/catalogue/sync.py:385-478 | Each finding about composed permissions is reported exactly when what it says of its row is so |
| Reporting.CleanRunBuys | src/permkit/catalogue/sync.py:481-484 | A run reports no error exactly when every object with filters has a site, every field of a bound object's group is on its model, and every composed row points at something live, of the right object, under a key some declaration mentions |
| Validation.SyncDeclaresFilters | src/permkit/catalogue/sync.py:243-260 | After a run the live filter rows are the declared filters, under the objects they were declared for |
| Validation.OnlyParamsFail | src/permkit/catalogue/sync.py:434-460 | Over a clean composition a condition can fail only by not binding |
| Validation.ScopeErrorOrigin | src/permkit/resolver.py:211-229 | Every resolution error comes from compiling some condition of some grant |
| Validation.CleanSyncResolves | src/permkit/catalogue/sync.py:481-538 | After a clean run no assembled key raises an unknown filter or a filter of the wrong object, for any user |
| Validation.RetiredFilterFails | src/permkit/catalogue/sync.py:434-443 | A rule whose filter has left the code is still listed by the store, and the scope then resolves if and only if some grant is unconditional and none before it is broken |
| Validation.RetiredFilterRaises | src/permkit/catalogue/sync.py:434-443 | One stored rule on a retired filter: listed, and the scope raises |
| DatabaseStore.ConditionMembers | src/permkit/store.py:95-98 | A rule's listed conditions are exactly its condition rows |
| DatabaseStore.GrantMembers | src/permkit/store.py:78-101 | The listed object grants are exactly the rules of held permissions for the key |
| DatabaseStore.FieldGrantMembers | src/permkit/store.py:103-126 | The listed field grants are exactly the matching rows of held permissions |
| DatabaseStore.NoConditions | src/permkit/store.py:95-98 | A rule lists no condition exactly when no condition row belongs to it |
| DatabaseStore.EndpointHandedOut | src/permkit/store.py:71-76 | An endpoint is granted exactly when a permission one of the roles is bound to has a row for it |
| DatabaseStore.RuleHandedOut | src/permkit/store.py:78-101 | The rules handed out are those of permissions the roles are bound to, about the object and the verb of the key; each is named by its permission and place and lists its condition rows, with the keys of their filters |
| DatabaseStore.GroupHandedOut | src/permkit/store.py:103-126 | The field grants handed out are those of permissions the roles are bound to, about the object and the verb of the key; each is named by its permission and group and lists the fields of the group and the values permitted |
| Views.ViewsDetermineTables | src/permkit/models.py:122-300 | Tables that agree permission by permission are the same tables |
| Views.WithoutRuleView | src/permkit/models.py:196-198 | Deleting a rule takes its conditions along and touches no other rule |
| Spec.CatalogueOrFail | src/permkit/spec.py:86-112 | The live row of a natural key, or whether it is missing or retired |
| Spec.ReconcileEndpoints | src/permkit/spec.py:133-143 | Exactly the wanted pairs of this permission remain, and a change is reported exactly when there was one |
| Spec.ReadEntries | src/permkit/spec.py:174-187 | Succeeds exactly when every entry names a live filter of the object whose params bind; conditions are keyed by filter |
| Spec.ReconcileConditions | src/permkit/spec.py:189-206 | The conditions of a rule become the wanted ones, kept ones keeping their order; a change is reported exactly when there was one |
| Spec.GetOrCreateRule | src/permkit/spec.py:168-172 | Finds the one rule with this identity or creates it; two are an error |
| Spec.SetRule | src/permkit/spec.py:168-206 | One rule is brought to its goal and no other rule of any permission moves |
| Spec.RemoveRules | src/permkit/spec.py:208-212 | Exactly the rules the file does not name are gone, with their conditions |
| Spec.ApplyRules | src/permkit/spec.py:146-213 | Succeeds exactly when every rule is declared, distinct and stored at most once; then the rules are the file's, and a change is reported exactly when they did not match |
| SpecFile.AppliedMatches | src/permkit/spec.py:146-213 | Rules that were applied match the file |
| SpecFile.MatchingStays | src/permkit/spec.py:146-213 | Applying rules that match changes nothing, primary keys and order included |
| SpecFile.TouchedForever | src/permkit/spec.py:216-251 | Once grants are the file's, a change is still reported exactly when the file contradicts itself |
| SpecApply.ApplyFields | src/permkit/spec.py:216-251 | Field grants become the file's, the last of a repeated pair; reported as a change exactly when some entry or leftover differed |
| SpecApply.ApplyPermission | src/permkit/spec.py:275-292 | One permission is made to match and no other is touched; the outcome says whether anything differed |
| SpecProperties.PermissionRows | src/permkit/spec.py:275-286 | A permission the file names has the name the file gives it, its key if it gives none, and its description |
| SpecApply.ApplyPermissions | src/permkit/spec.py:275-292 | All of them, with the report listing each under created, updated or unchanged by how it differed before |
| SpecRun.BindPermissions | src/permkit/spec.py:299-311 | Adds the missing bindings and counts exactly those |
| SpecRun.ApplyRoles | src/permkit/spec.py:293-311 | Roles and bindings are only added to; an unknown permission is an error |
| SpecRun.ApplyFile | src/permkit/spec.py:262-314 | Succeeds exactly on acceptable files, and then the whole file is applied and reported |
| SpecRun.AppliedRefers | src/permkit/spec.py:86-112 | After an accepted file every composition row points at a catalogue row |
| SpecRun.ApplySpec | src/permkit/spec.py:254-314 | The transaction: an error or a dry run leaves every table as it was, and a dry run reports what a run would |
| FileMeaning.AcceptedExactly | src/permkit/spec.py:86-314 | A file is accepted exactly when it says something; every endpoint, object, filter and group it names is a live row, filters and groups of the right object, params binding if the registry has the filter; no permission has two rules of one key and label, or stores one twice; and every permission given to a role is stored or in the file |
| FileMeaning.ReportExactly | src/permkit/spec.py:269-289 | A permission is reported as created exactly when it was not there before; one that was, as updated exactly when something of it is different afterwards or the file contradicts itself about it, and as unchanged otherwise |
| FileMeaning.ReportOrder | src/permkit/spec.py:289 | What is reported is in the file, in its order |
| FileMeaning.RolesExactly | src/permkit/spec.py:291-297 | Afterwards there are the roles of before and those of the file; exactly the new ones are reported, with the label the file gives, else their key, and its description |
| FileMeaning.PlacesExactly | src/permkit/spec.py:158-207 | A rule that was there keeps its row and its conditions their places; a new one has its place in the file, and new conditions come in the order in which the file first names their filters |
| SpecProperties.SpecConverges | src/permkit/spec.py:128-314 | After a run every named permission is exactly its body, each rule stored once, nothing left over |
| SpecProperties.SecondRun | src/permkit/spec.py:254-314 | A second run is accepted, leaves identical tables and reports as updated exactly the permissions that contradict themselves |
| SpecProperties.ContradictionReportedForever | src/permkit/spec.py:216-251 | A file with one contradictory pair is accepted, and its second run changes no table and reports an update |
| SpecProperties.SameReport | src/permkit/spec.py:312-314 | Two runs from the same tables give the same report |
| SpecProperties.BindingsOnlyAdded | src/permkit/spec.py:293-311 | Bindings become the old ones and the file's pairs; no role row changes |
| SpecProperties.GoalsExact | src/permkit/spec.py:158-172 | Each rule of the file owns its identity and its place |
| SpecProperties.WantedExact | src/permkit/spec.py:174-187 | A repeated filter keeps the params of its last entry |
| SpecProperties.RulesCorrespond | src/permkit/spec.py:146-213 | Rules of the file and rules in the tables correspond one to one, filter by filter |
| Compile.RuleMeansEntry | src/permkit/store.py:78-101 | A stored rule is handed out with exactly the last entry of each filter the file names |
| Compile.EndpointsFromFile | src/permkit/store.py:71-76 | Over deployed tables the endpoint tier is the file's |
| Compile.DeployedMeaning | src/permkit/spec.py:128-314 | Over tables that match a file, and a registry that declares the live filters, what a user may reach is read off the file |
| Compile.SpecCompiles | src/permkit/spec.py:1-39 | Compiling a file into empty tables, over a catalogue whose live filters the registry declares, preserves its meaning: a row is reachable exactly when a given permission lists the endpoint and a given permission has a rule whose conditions hold; resolution never errors |
| FieldTier.WantedIsLast | src/permkit/spec.py:216-251 | The values kept for a repeated pair are those of its last entry |
| FieldTier.SameIdentity | src/permkit/spec.py:216-232 | Two accepted entries are about one row exactly when they name one group and one verb |
| FieldTier.FieldsFromFile | src/permkit/store.py:103-126 | Over tables that match a file the fields a user is granted, which of them are constrained, and the values permitted, are read off the last entries about the key in the permissions held |
| FieldTier.DeployedWrites | src/permkit/resolver.py:336-380 | Over such tables the write check accepts exactly the payloads the file lets through whose governed references are in scope |
| FieldTier.SpecCompilesWrites | src/permkit/spec.py:1-39 | The same for a file compiled into empty tables, from the roles it binds |
| DeployChecks.OnlyKeysBlamed | src/permkit/catalogue/sync.py:385-478 | Of the permissions an applied file names, the checker can report nothing but rule keys and grant keys that nothing declares |
| DeployChecks.UnknownRuleBlamed | src/permkit/spec.py:146-172 | In tables that match a file made of acceptable permissions, a rule under a key nothing declares is stored and reported |
| DeployChecks.UnknownFieldBlamed | src/permkit/spec.py:216-251 | So is a field entry |
| DeployChecks.DeployIsCleanExactly | src/permkit/spec.py:254-314 | Applied where nothing was composed, a file leaves a clean composition if and only if each of its keys is known |
| DeployChecks.UnknownKeyDeploys | src/permkit/spec.py:216-251 | A file with one field entry under a key nothing declares: it is accepted, and no way of applying it leaves a clean composition |
| Monotone.OkDenotes | src/permkit/resolver.py:203-235 | Whenever grants compile and none is an empty conjunction the scope is their union |
| Monotone.MoreGrants | src/permkit/resolver.py:203-235 | Of two lists that compile, the shorter not empty and contained in the longer, the longer keeps a row if and only if the shorter were not all empty conjunctions or the longer do not shut it out |
| Monotone.MoreConditions | src/permkit/resolver.py:203-235 | Of two such lists that differ in further conditions, the tighter adds no row if and only if the row was not shut out or no empty conjunction has come to narrow and admit it |
| Monotone.MoreConditionsMayAdd | src/permkit/resolver.py:204-230 | A condition every row meets, added to an empty rule beside one that admits nothing, lets every row in |
| Monotone.MoreGrantsMayRemove | src/permkit/resolver.py:204-209 | A second grant can take every row away |
| Monotone.GrowthExactly | src/permkit/store.py:71-101 | Adding to the tables keeps a row in a user's scope, if it resolves before and after, if and only if what the user had was not all empty conjunctions or what was added does not shut the row out |
| Monotone.GrowthWidens | src/permkit/store.py:71-101 | So it takes no row from a user who held no empty conjunction, provided both sides resolve |
| Monotone.AdditionsGrow | src/permkit/models.py:122-300 | Adding a role, permission, binding, endpoint or rule is such an addition |
| Monotone.TighteningExactly | src/permkit/resolver.py:211-230 | Conditions added to rules add no row, if the scope resolves before and after, if and only if the row was not shut out by a mixture or no empty conjunction in it has come to narrow and admit it |
| Monotone.ConditionsNarrow | src/permkit/resolver.py:211-230 | So they add none for a user who held no empty conjunction, provided both sides resolve |
| Monotone.DeployNeverRevokes | src/permkit/spec.py:23-38 | Applying a file takes no row from a user none of whose permissions it names, provided both sides resolve and the user held no empty conjunction |
| MemoryStores.Seen | src/permkit/store.py:190-202 | The loop keeps, for each name, the last grant that concerns the question |
| MemoryStores.LastWins | src/permkit/store.py:190-202 | Every concerned name is kept and stands for the last of its grants |
| MemoryStores.MemoryAnswers | src/permkit/store.py:187-202 | What the store answers, told from what it was told: the endpoints of the roles, and of the grants of one name for the roles and the key the last |
| MemoryStores.MemoryStore.GrantEndpoint | src/permkit/store.py:139-141 | Adds one pair |
| MemoryStores.MemoryStore.GrantObject | src/permkit/store.py:143-159 | Appends one object grant |
| MemoryStores.MemoryStore.GrantField | src/permkit/store.py:161-183 | Appends one field grant |
| MemoryStores.MemoryStore.SeenObjects | src/permkit/store.py:190-195 | The dictionary an object lookup fills |
| MemoryStores.MemoryStore.SeenFields | src/permkit/store.py:197-202 | The dictionary a field lookup fills |
| Seeding.PermissionFor | src/permkit/store.py:224-233 | Role, permission and binding, each created only where missing |
| Seeding.SeedEndpoints | src/permkit/store.py:235-239 | Exactly the fixture's pairs are added, or some endpoint is unknown |
| Seeding.SeedRule | src/permkit/store.py:244-250 | Finds or creates the one rule of a grant; a new one gets the number of rules its permission has |
| Seeding.NumberedStep | src/permkit/store.py:249 | A rule numbered so keeps the numbering: each new rule has as its number how many of its permission came before it |
| Seeding.SeedConditions | src/permkit/store.py:251-256 | Each wanted condition is there, an existing one unchanged, a new one as first wanted |
| Seeding.SeedObjects | src/permkit/store.py:241-256 | Succeeds exactly when every row named exists and is unambiguous; every grant then has its one rule with its conditions and its number, and nothing else is new |
| Sorting.SortValues | src/permkit/store.py:273-277 | Permitted values in order, each once, or an error exactly when two of them have no order |
| Sorting.SortedExactly | src/permkit/store.py:273-277 | Sorted values are the values given, each once: strings in the order of a dictionary, numbers by size, a boolean counting as 0 or 1 |
| Sorting.SortableExactly | src/permkit/store.py:273-277 | Sorting raises exactly when two of the values are neither both strings nor both numbers |
| Seeding.SeedGroup | src/permkit/store.py:263-279 | A group wholly inside the allow-list is granted with its values sorted, or fails exactly when they do not sort; another group is passed over |
| Seeding.SeedField | src/permkit/store.py:258-279 | Every group of the object that fits is granted, others are not, and existing rows are unchanged; fails exactly when the values of one that fits do not sort |
| Seeding.SeedFields | src/permkit/store.py:258-279 | All field grants of the fixture, with the same failure |
| Seeding.SeedDatabaseFrom | src/permkit/store.py:205-279 | Succeeds exactly when every named row exists and is unambiguous and all values sort; the tables are in good order even when it fails half-way |
| SeedMeaning.SeedableExactly | src/permkit/store.py:205-279 | Seeding succeeds exactly when every endpoint, object and filter the fixture names has a row, live or not, no rule of its is stored twice, and the values permitted for a field of a group it grants can be put in order |
| SeedMeaning.HoldersExactly | src/permkit/store.py:224-233 | Each role the fixture uses is there and bound to a permission of its own, labelled after it where they are new; no row that was there is changed, and no other role, permission or binding is made |
| SeedMeaning.EndpointsExactly | src/permkit/store.py:235-239 | The endpoints afterwards are those of before and, for each pair of the fixture, the row of its endpoint under the permission of its role |
| SeedMeaning.RulesExactly | src/permkit/store.py:241-250 | Each object grant has its one rule; rules that were there are unchanged, and a new one is of some grant and has as its place how many rules its permission had before it |
| SeedParity.MatchedScopes | src/permkit/resolver.py:203-235 | Grant lists with the same condition sets resolve to the same rows |
| SeedParity.EndpointParity | src/permkit/store.py:71-76 | Both stores answer every endpoint question alike |
| SeedParity.ObjectParity | src/permkit/store.py:78-101 | The grants of the two stores match, in both directions |
| SeedParity.SeedingParity | src/permkit/store.py:205-256 | After seeding, a user whose roles held nothing before has the same endpoints under either store, and the same rows whenever both stores resolve, which they do when no grant is broken; provided a name fixes its conditions and no grant repeats a filter |
| SeedParity.TablesSay | src/permkit/store.py:258-279 | A field is granted in the tables exactly when a grant reaches it through a group wholly inside its list, and a value permitted exactly when the first grant of a role to offer such a group permits it |
| SeedParity.FixtureSays | src/permkit/store.py:197-202 | A field or a value is granted in memory exactly when some grant lists it, provided a name fixes what it lists |
| SeedParity.FieldParity | src/permkit/store.py:258-279 | The tables grant such a user no field the fixture did not, and the same fields exactly when every listed field is in a group wholly inside some list; provided a name fixes its fields |
| SeedParity.ValueParity | src/permkit/store.py:258-279 | They permit no value the fixture did not, and the same exactly when each is permitted by a grant that was first to offer some group with the field; provided a name fixes its values |
| Cache.GrantCache.Open | src/permkit/cache.py:46 | A fresh dictionary, the outer one kept aside |
| Cache.GrantCache.Close | src/permkit/cache.py:47-50 | The outer dictionary is back as it was |
| Cache.GrantCache.Cached | src/permkit/cache.py:53-60 | The remembered answer or the store's, remembered only inside a scope and only if the lookup did not raise |
| Cache.StepKeepsInv | src/permkit/cache.py:33-60 | Every step keeps: each dictionary remembers exactly the questions answered in its own scope, with their first answers |
| Cache.Serve | src/permkit/cache.py:1-60 | Over every run of opening, closing, asking and changing, each answer is the one the history demands |
| Cache.ServeNested | src/permkit/cache.py:43-44 | Whatever a nested scope does, every outer dictionary is unchanged |
| Cache.FixedBackingIsFresh | src/permkit/cache.py:3-20 | If nothing changed since the innermost scope opened, the answer is the uncached one |
| CachedDecisions.CachedCheckEndpoint | src/permkit/resolver.py:147-172 | The endpoint check through the cache is the uncached check |
| CachedDecisions.CachedScope | src/permkit/resolver.py:147-235 | The scope through the cache is the uncached scope |
| CachedDecisions.CachedFieldGrants | src/permkit/resolver.py:159-163 | The field grants a decision is made from are, through the cache, the uncached ones |
| CachedDecisions.CachedReferences | src/permkit/resolver.py:307-334 | References are accepted through the cache exactly when they are without it |
| CachedDecisions.CachedAssertWritable | src/permkit/resolver.py:336-380 | The whole write check through the cache accepts exactly the payloads it accepts without |
| CachedDecisions.CachedExplain | src/permkit/resolver.py:384-438 | The whole account of a decision through the cache is the uncached one, line by line |
| CachedDecisions.Decide | src/permkit/cache.py:53-60 | Any one decision comes to what it comes to without the cache, and only the innermost dictionary moves |
| CachedDecisions.UnitOfWork | src/permkit/cache.py:68-89 | A unit of work that mixes checks, scopes, field grants, write checks and accounts over stores that answer alike, such as one fixed store, sees only uncached answers and leaves the scopes of the caller alone |
| CachedDecisions.SharedLookUps | src/permkit/resolver.py:147-163 | Stores that share a scope share answers: each lookup is given that of the store that was first asked its question |
| CachedDecisions.SharingHarmless | src/permkit/resolver.py:147-163 | Every lookup is given its own store's answer if and only if any two lookups of one question have one answer |
| CachedDecisions.OtherStoreAnswers | src/permkit/resolver.py:147-152 | Two stores that disagree about an endpoint, asked in one scope: the second is given the answer of the first |
| Declare.ApplyPermissions | src/permkit/declare.py:193-209 | Flips the flag of the record in force and resolves with its key and with the actor named or else its own, or is outside any site; what it returns is the query with the scope put on, and a failure leaves the query as it was |
| Declare.Execute | src/permkit/declare.py:158-209 | Running any program through the shared variable is running it by where its calls are written; the variable is restored on every exit |
| Declare.DeclaredMeansApplied | src/permkit/declare.py:158-209 | For every program, a decorated call returns normally only if its own extent applied, and every apply used the innermost key |
| Declare.CallReturns | src/permkit/declare.py:172-184 | A call returns normally exactly when its body did and its own extent applied; its caller then has the query the body had in hand |
| Declare.RaisesUntouched | src/permkit/declare.py:158-209 | Applying filters outside any site, and calling a site without an actor, raise and touch no query; an apply raises exactly when the scope of whoever it is for does, with that error |
| Declare.OwnExactly | src/permkit/declare.py:201-209 | The query in hand bears a scope of this extent exactly when an apply went through and nothing has replaced the query since |
| Declare.NarrowedExactly | src/permkit/declare.py:193-209 | The same of the query a site returned. If nothing in it replaces the query after an apply, that query bears a scope if everyone its applies may resolve for resolves; for any site, only if someone does |
| Declare.UncaughtExactly | src/permkit/declare.py:172-209 | The query returned by a site that catches nothing bears its scope if and only if an apply is written after everything that replaces the query |
| Declare.RowsExactly | src/permkit/resolver.py:237-244 | A query lists a row exactly when the table does and every scope put on it holds it |
| Declare.SiteListsOnlyItsScope | src/permkit/declare.py:125-147 | Under either condition every row a site returns is in scope, under its declared key, of someone its applies name, its own actor if they name nobody |
| Declare.DisagreementIsOpen | src/permkit/declare.py:201-209 | Where applicants disagree, two sites with the same ones both return, one with a filtered query and one without |
| Declare.NamedActorReturns | src/permkit/declare.py:193-209 | A site that names an actor of its own and catches the failure returns an unfiltered query although its own actor resolves |
| Declare.DiscardedQueryReturns | src/permkit/declare.py:172-209 | So does one that applies its filters, for an actor who resolves, and returns another query |
| Declare.CaughtFailureReturns | src/permkit/declare.py:201-209 | The smallest site that catches its failure returns an unfiltered query |
| Stacking.Component.ApiPermission | src/permkit/declare.py:65-99 | What one decorator does to the attributes of its class |
| Stacking.Component.Stack | src/permkit/declare.py:65-99 | The attributes after any stack of decorators, in closed form |
| Stacking.DecorateNext | src/permkit/declare.py:65-99 | One more decorator takes the closed form to itself |
| Stacking.StackExactly | src/permkit/declare.py:65-99 | What a stack leaves, told from what was written: every endpoint declared, each once; the one endpoint if there is only one; and the key that is read: with several endpoints none if nothing was written or inherited, an inherited one, or one written by hand unless it is an endpoint met before the last |
| Stacking.NoArbitraryKey | src/permkit/declare.py:71-98 | With several endpoints and no key written or inherited, no single key is left to enforce |
| Stacking.HandWrittenKey | src/permkit/declare.py:93-98 | A key written by hand survives if and only if it is not one of several stacked endpoints other than only the last |
| Stacking.HandWrittenKeyCleared | src/permkit/declare.py:93-98 | The smallest class whose deliberate key does not stand |

## Left out

- Order of rows: which grant or condition a query returns first, and the name order of in-memory lookups, is left open; only which of several errors is raised depends on it.
- Role strings: their normalisation, that two spellings in a file or a fixture can name one role, the label a role is given by default, and the per-user cache of resolved roles (`src/permkit/principals.py`, `src/permkit/resolver.py`).
- Filter bodies: arbitrary total functions; a filter that itself raises is not modelled.
- Equality of stored values: structural, so a boolean and the integer it equals in Python are different values.
- Stored JSON: permission files and fixtures hold only values that come back from a JSON column as they were written; a tuple, say, comes back as a list, and a file with one reports an update on every run although it does not contradict itself.
- Primary keys: one counter for all tables, not rolled back with a transaction.
- Composition tables as objects: operations on the composition work on the tables as values and the `Database` class holds them, so aliasing between loaded model instances is not captured.
- Validation.ValidateCompositions: says which row is at fault and how, not the wording or the order of the messages.
- Validation.SyncCatalogue: the declaration checks against model fields take "the model has this field" as a parameter, and loading declaration modules is not part of this model.
- Explaining.ExplainTellsTheTruth: covers what each line of the account says, not its wording.
- Monotone.GrowthWidens: assumes, as `Monotone.ConditionsNarrow` and `Monotone.DeployNeverRevokes` do, that both sides resolve and that the user held no empty conjunction; `Monotone.GrowthExactly` and `Monotone.TighteningExactly` say exactly what happens otherwise, and `Monotone.MoreGrantsMayRemove` and `Monotone.MoreConditionsMayAdd` are examples.
- SeedParity.SeedingParity: assumes that the roles of the user were bound to nothing before and that the permissions seeded for them held nothing, that no object has the empty key, that a grant name fixes its conditions for a key and that no grant repeats a filter; the two stores differ otherwise, because the in-memory store keeps the last grant of a name and the tables keep a row for each role.
- SeedParity.FieldParity: assumes the same of roles and objects, and that a grant name fixes its fields for a key, as `SeedParity.ValueParity` does of values.
- Compile.SpecCompiles: assumes that no rule the user holds is an empty conjunction, without which `Denotation.UnionExact` says which rows differ, and that the registry declares the live filters, which a sync sees to (`Validation.SyncDeclaresFilters`).
- Declare.Execute: one thread of control; copying of context variables between tasks is not modelled. A selector has one query in hand, the one it will return; queries passed in as arguments are not modelled.
- Cache.Serve: one thread of control, as above; the middleware appears only as opening and closing a scope.
- SpecRun.ApplySpec: says exactly when it fails, not which of several errors is raised first.
- Writes.AssertWritable: says exactly when it refuses, and with what when the endpoint is missing, not which later refusal comes first.
- Writes.CheckReferences: what the database makes of data given as a primary key, such as a numeric string or a boolean, is an arbitrary function of the model and the data.
- Admin pages and previews, the REST framework and view decorators, management commands, settings and migrations: thin layers over what is modelled, with only easy claims.
- Renaming a role or permission key, deleting one, and editing a rule in place by hand: done in the admin.
