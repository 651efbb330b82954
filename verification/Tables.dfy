/** The database: catalogue tables, which mirror declarations, and composition tables, which people edit. */
module Tables {
  import opened Values
  import opened Base
  import opened Upserting

  // ----- catalogue rows; `owner` is a foreign key to an object row

  datatype ObjectCols = ObjectCols(key: string, title: string, model: string)
  datatype EndpointCols = EndpointCols(key: string, title: string, targets: seq<string>)
  datatype FilterCols = FilterCols(owner: nat, key: string, title: string, openParams: map<string, Param>,
    multiValued: bool)
  datatype GroupCols = GroupCols(owner: nat, key: string, title: string, fields: seq<string>)
  datatype PointCols = PointCols(owner: nat, verb: string, target: string, title: string)

  function ObjectNatural(c: ObjectCols): string { c.key }
  function EndpointNatural(c: EndpointCols): string { c.key }
  function FilterNatural(c: FilterCols): string { c.key }
  function GroupNatural(c: GroupCols): (nat, string) { (c.owner, c.key) }
  function PointNatural(c: PointCols): (nat, string, string) { (c.owner, c.verb, c.target) }

  datatype Catalogue = Catalogue(
    objects: Table<ObjectCols>,
    endpoints: Table<EndpointCols>,
    filters: Table<FilterCols>,
    groups: Table<GroupCols>,
    points: Table<PointCols>)

  // ----- composition rows

  datatype RoleRow = RoleRow(title: string, description: string)
  datatype PermissionRow = PermissionRow(name: string, description: string)
  datatype RuleRow = RuleRow(permission: string, owner: nat, verb: string, title: string, order: nat)
  datatype ConditionRow = ConditionRow(params: Params, order: nat)
  type AllowedValues = map<string, seq<Value>>

  /** Roles and permissions are identified by their unique key; the tables with a unique constraint over
      foreign keys by those columns; rules, which have none, by primary key. */
  datatype Composition = Composition(
    roles: map<string, RoleRow>,
    permissions: map<string, PermissionRow>,
    endpoints: set<(string, nat)>,
    rules: map<nat, RuleRow>,
    conditions: map<(nat, nat), ConditionRow>,
    grants: map<(string, nat, string), AllowedValues>,
    bindings: set<(string, string)>)

  // ----- constraints

  ghost predicate CatalogueValid(cat: Catalogue) {
    && UniqueNatural(cat.objects, ObjectNatural)
    && UniqueNatural(cat.endpoints, EndpointNatural)
    && UniqueNatural(cat.filters, FilterNatural)
    && UniqueNatural(cat.groups, GroupNatural)
    && UniqueNatural(cat.points, PointNatural)
    && (forall f | f in cat.filters :: cat.filters[f].cols.owner in cat.objects)
    && (forall g | g in cat.groups :: cat.groups[g].cols.owner in cat.objects)
    && (forall p | p in cat.points :: cat.points[p].cols.owner in cat.objects)
  }

  /** Foreign keys between composition tables. */
  ghost predicate Linked(comp: Composition) {
    && (forall e | e in comp.endpoints :: e.0 in comp.permissions)
    && (forall r | r in comp.rules :: comp.rules[r].permission in comp.permissions)
    && (forall c | c in comp.conditions :: c.0 in comp.rules)
    && (forall g | g in comp.grants :: g.0 in comp.permissions)
    && (forall b | b in comp.bindings :: b.0 in comp.roles && b.1 in comp.permissions)
  }

  /** Foreign keys from the composition into the catalogue. */
  ghost predicate Refers(comp: Composition, cat: Catalogue) {
    && (forall e | e in comp.endpoints :: e.1 in cat.endpoints)
    && (forall r | r in comp.rules :: comp.rules[r].owner in cat.objects)
    && (forall c | c in comp.conditions :: c.1 in cat.filters)
    && (forall g | g in comp.grants :: g.1 in cat.groups)
  }

  ghost predicate CatalogueBelow(cat: Catalogue, nextPk: nat) {
    && Below(cat.objects, nextPk) && Below(cat.endpoints, nextPk) && Below(cat.filters, nextPk)
    && Below(cat.groups, nextPk) && Below(cat.points, nextPk)
  }

  ghost predicate Fits(cat: Catalogue, comp: Composition, nextPk: nat) {
    && CatalogueBelow(cat, nextPk)
    && forall r | r in comp.rules :: r < nextPk
  }

  ghost predicate WellFormed(cat: Catalogue, comp: Composition, nextPk: nat) {
    CatalogueValid(cat) && Linked(comp) && Refers(comp, cat) && Fits(cat, comp, nextPk)
  }

  /** The tables, which every operation rewrites in place, and the next unused primary key. */
  class Database {
    var cat: Catalogue
    var comp: Composition
    var nextPk: nat

    ghost predicate Valid()
      reads this
    {
      WellFormed(cat, comp, nextPk)
    }

    /** A database with no rows. */
    constructor ()
      ensures Valid()
      ensures cat == Catalogue(map[], map[], map[], map[], map[])
      ensures comp == Composition(map[], map[], {}, map[], map[], map[], {})
    {
      cat := Catalogue(map[], map[], map[], map[], map[]);
      comp := Composition(map[], map[], {}, map[], map[], map[], {});
      nextPk := 0;
    }

    /** Replaces the catalogue tables. */
    method Publish(after: Catalogue, next: nat)
      requires WellFormed(after, comp, next)
      modifies `cat, `nextPk
      ensures Valid() && cat == after && nextPk == next
    {
      cat, nextPk := after, next;
    }
  }
}
