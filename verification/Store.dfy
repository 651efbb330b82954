/** Grants read from the composition tables. */
module DatabaseStore {
  import opened Keys
  import opened Values
  import opened Tables
  import opened Grants
  import opened Listing

  /** The permissions some of these roles hold. */
  ghost function Held(comp: Composition, roles: seq<string>): set<string> {
    set b | b in comp.bindings && b.0 in roles :: b.1
  }

  ghost predicate HasEndpointGrant(cat: Catalogue, comp: Composition, roles: seq<string>, key: string) {
    exists e :: e in comp.endpoints && e.0 in Held(comp, roles)
                && e.1 in cat.endpoints && cat.endpoints[e.1].cols.key == key
  }

  ghost predicate RuleMatches(cat: Catalogue, rule: RuleRow, key: string) {
    && rule.owner in cat.objects
    && cat.objects[rule.owner].cols.key == RPartition(key).objectKey
    && rule.verb == RPartition(key).verb
  }

  ghost function RulesFor(cat: Catalogue, comp: Composition, roles: seq<string>, key: string): set<nat> {
    set r | r in comp.rules && comp.rules[r].permission in Held(comp, roles) && RuleMatches(cat, comp.rules[r], key)
  }

  function Decimal(n: nat): string {
    (if n < 10 then "" else Decimal(n / 10)) + ["0123456789"[n % 10]]
  }

  ghost function ConditionFilters(cat: Catalogue, comp: Composition, r: nat): set<nat> {
    set c | c in comp.conditions && c.0 == r && c.1 in cat.filters :: c.1
  }

  ghost function ConditionOf(cat: Catalogue, comp: Composition, r: nat, f: nat): (string, Params)
    requires (r, f) in comp.conditions && f in cat.filters
  {
    (cat.filters[f].cols.key, comp.conditions[(r, f)].params)
  }

  ghost function ConditionsOf(cat: Catalogue, comp: Composition, r: nat): seq<(string, Params)> {
    var fs := Listed(ConditionFilters(cat, comp, r));
    seq(|fs|, i requires 0 <= i < |fs| =>
      assert fs[i] in ConditionFilters(cat, comp, r);
      ConditionOf(cat, comp, r, fs[i]))
  }

  ghost function RuleGrant(cat: Catalogue, comp: Composition, key: string, r: nat): ObjectGrant
    requires r in comp.rules
  {
    ObjectGrant(comp.rules[r].permission + "#" + Decimal(comp.rules[r].order), key, ConditionsOf(cat, comp, r))
  }

  ghost function ObjectGrants(cat: Catalogue, comp: Composition, roles: seq<string>, key: string): seq<ObjectGrant> {
    var rs := Listed(RulesFor(cat, comp, roles, key));
    seq(|rs|, i requires 0 <= i < |rs| =>
      assert rs[i] in RulesFor(cat, comp, roles, key);
      RuleGrant(cat, comp, key, rs[i]))
  }

  ghost predicate GrantMatches(cat: Catalogue, g: (string, nat, string), key: string) {
    && g.1 in cat.groups
    && cat.groups[g.1].cols.owner in cat.objects
    && cat.objects[cat.groups[g.1].cols.owner].cols.key == RPartition(key).objectKey
    && g.2 == RPartition(key).verb
  }

  ghost function FieldGrantsFor(cat: Catalogue, comp: Composition, roles: seq<string>, key: string)
    : set<(string, nat, string)>
  {
    set g | g in comp.grants && g.0 in Held(comp, roles) && GrantMatches(cat, g, key)
  }

  ghost function GroupGrant(cat: Catalogue, comp: Composition, key: string, g: (string, nat, string)): FieldGrant
    requires g in comp.grants && g.1 in cat.groups
  {
    var cols := cat.groups[g.1].cols;
    FieldGrant(g.0 + "/" + cols.key, key, set f | f in cols.fields,
               map f | f in comp.grants[g] :: set v | v in comp.grants[g][f])
  }

  ghost function FieldGrants(cat: Catalogue, comp: Composition, roles: seq<string>, key: string): seq<FieldGrant> {
    var gs := Listed(FieldGrantsFor(cat, comp, roles, key));
    seq(|gs|, i requires 0 <= i < |gs| =>
      assert gs[i] in FieldGrantsFor(cat, comp, roles, key);
      GroupGrant(cat, comp, key, gs[i]))
  }

  ghost function StoreOf(cat: Catalogue, comp: Composition): Store {
    Store((roles, key) => HasEndpointGrant(cat, comp, roles, key),
          (roles, key) => ObjectGrants(cat, comp, roles, key),
          (roles, key) => FieldGrants(cat, comp, roles, key))
  }

  // ----- membership

  lemma ConditionMembers(cat: Catalogue, comp: Composition, r: nat, c: (string, Params))
    ensures c in ConditionsOf(cat, comp, r) <==>
      exists f :: (r, f) in comp.conditions && f in cat.filters && c == ConditionOf(cat, comp, r, f)
  {
    var fs, cs := Listed(ConditionFilters(cat, comp, r)), ConditionsOf(cat, comp, r);
    if c in cs {
      var i :| 0 <= i < |cs| && cs[i] == c;
      assert fs[i] in ConditionFilters(cat, comp, r);
    }
    if f :| (r, f) in comp.conditions && f in cat.filters && c == ConditionOf(cat, comp, r, f) {
      assert (r, f).1 in ConditionFilters(cat, comp, r);
      assert f in fs;
      var i :| 0 <= i < |fs| && fs[i] == f;
      assert cs[i] == c;
    }
  }

  /** A rule lists no condition exactly when no condition row belongs to it. */
  lemma NoConditions(cat: Catalogue, comp: Composition, r: nat)
    requires forall c | c in comp.conditions :: c.1 in cat.filters
    ensures ConditionsOf(cat, comp, r) == [] <==> forall c | c in comp.conditions :: c.0 != r
  {
    if ConditionsOf(cat, comp, r) == [] {
      assert |ConditionFilters(cat, comp, r)| == 0;
      forall c | c in comp.conditions
        ensures c.0 != r
      {
        assert c.1 !in ConditionFilters(cat, comp, r);
      }
    } else {
      ConditionMembers(cat, comp, r, ConditionsOf(cat, comp, r)[0]);
    }
  }

  lemma GrantMembers(cat: Catalogue, comp: Composition, roles: seq<string>, key: string, g: ObjectGrant)
    ensures g in ObjectGrants(cat, comp, roles, key) <==>
      exists r :: r in RulesFor(cat, comp, roles, key) && g == RuleGrant(cat, comp, key, r)
  {
    var rs, gs := Listed(RulesFor(cat, comp, roles, key)), ObjectGrants(cat, comp, roles, key);
    if g in gs {
      var i :| 0 <= i < |gs| && gs[i] == g;
      assert rs[i] in RulesFor(cat, comp, roles, key);
    }
    if r :| r in RulesFor(cat, comp, roles, key) && g == RuleGrant(cat, comp, key, r) {
      assert r in rs;
      var i :| 0 <= i < |rs| && rs[i] == r;
      assert gs[i] == g;
    }
  }

  lemma FieldGrantMembers(cat: Catalogue, comp: Composition, roles: seq<string>, key: string, g: FieldGrant)
    ensures g in FieldGrants(cat, comp, roles, key) <==>
      exists x :: x in FieldGrantsFor(cat, comp, roles, key) && g == GroupGrant(cat, comp, key, x)
  {
    var xs, gs := Listed(FieldGrantsFor(cat, comp, roles, key)), FieldGrants(cat, comp, roles, key);
    if g in gs {
      var i :| 0 <= i < |gs| && gs[i] == g;
      assert xs[i] in FieldGrantsFor(cat, comp, roles, key);
    }
    if x :| x in FieldGrantsFor(cat, comp, roles, key) && g == GroupGrant(cat, comp, key, x) {
      assert x in xs;
      var i :| 0 <= i < |xs| && xs[i] == x;
      assert gs[i] == g;
    }
  }

  // ----- what is handed out, told from the tables

  /** One of the roles is bound to the permission. */
  ghost predicate HeldBy(comp: Composition, roles: seq<string>, permission: string) {
    exists role :: role in roles && (role, permission) in comp.bindings
  }

  lemma HeldExactly(comp: Composition, roles: seq<string>, permission: string)
    ensures permission in Held(comp, roles) <==> HeldBy(comp, roles, permission)
  {
    if permission in Held(comp, roles) {
      var b :| b in comp.bindings && b.0 in roles && b.1 == permission;
      assert (b.0, permission) in comp.bindings;
    }
    if role :| role in roles && (role, permission) in comp.bindings {
      assert (role, permission).1 in Held(comp, roles);
    }
  }

  /** An endpoint is granted exactly when a permission one of the roles holds has a row for it. */
  lemma EndpointHandedOut(cat: Catalogue, comp: Composition, roles: seq<string>, key: string)
    ensures HasEndpointGrant(cat, comp, roles, key) <==>
      exists permission, e :: (permission, e) in comp.endpoints && HeldBy(comp, roles, permission)
                              && e in cat.endpoints && cat.endpoints[e].cols.key == key
  {
    forall permission
      ensures permission in Held(comp, roles) <==> HeldBy(comp, roles, permission)
    {
      HeldExactly(comp, roles, permission);
    }
    hide Held, HeldBy;
    if e :| e in comp.endpoints && e.0 in Held(comp, roles)
            && e.1 in cat.endpoints && cat.endpoints[e.1].cols.key == key {
      assert (e.0, e.1) in comp.endpoints;
    }
    if permission, e :| (permission, e) in comp.endpoints && permission in Held(comp, roles)
                        && e in cat.endpoints && cat.endpoints[e].cols.key == key {
      assert (permission, e).0 in Held(comp, roles) && (permission, e).1 in cat.endpoints;
    }
  }

  /** What a rule is handed out as: its permission and place for a name, and its condition rows, each with the key of
      its filter. */
  ghost predicate RuleReads(cat: Catalogue, comp: Composition, key: string, r: nat, g: ObjectGrant)
    requires r in comp.rules
  {
    && g.name == comp.rules[r].permission + "#" + Decimal(comp.rules[r].order) && g.key == key
    && forall c :: c in g.conditions <==>
         exists f :: (r, f) in comp.conditions && f in cat.filters
                     && c == (cat.filters[f].cols.key, comp.conditions[(r, f)].params)
  }

  /** The rules handed out are those of permissions held, about the object and the verb of the key. */
  lemma RuleHandedOut(cat: Catalogue, comp: Composition, roles: seq<string>, key: string, r: nat)
    requires r in comp.rules
    ensures RuleReads(cat, comp, key, r, RuleGrant(cat, comp, key, r))
    ensures var rule, h := comp.rules[r], RPartition(key);
      r in RulesFor(cat, comp, roles, key) <==>
        && HeldBy(comp, roles, rule.permission) && rule.verb == h.verb
        && rule.owner in cat.objects && cat.objects[rule.owner].cols.key == h.objectKey
  {
    HeldExactly(comp, roles, comp.rules[r].permission);
    hide Held, RPartition;
    forall c
      ensures c in ConditionsOf(cat, comp, r) <==>
        exists f :: (r, f) in comp.conditions && f in cat.filters
                    && c == (cat.filters[f].cols.key, comp.conditions[(r, f)].params)
    {
      ConditionMembers(cat, comp, r, c);
    }
    hide ConditionsOf, Decimal;
  }

  /** What a field grant is handed out as: its permission and group for a name, the fields of the group, and the
      values permitted for each constrained field. */
  ghost predicate GroupReads(cat: Catalogue, comp: Composition, key: string, x: (string, nat, string), g: FieldGrant)
    requires x in comp.grants && x.1 in cat.groups
  {
    && g.name == x.0 + "/" + cat.groups[x.1].cols.key && g.key == key
    && (forall f :: f in g.allowedFields <==> f in cat.groups[x.1].cols.fields)
    && g.allowedValues.Keys == comp.grants[x].Keys
    && forall f, v | f in g.allowedValues :: v in g.allowedValues[f] <==> v in comp.grants[x][f]
  }

  /** The field grants handed out are those of permissions held, about the object and the verb of the key. */
  lemma GroupHandedOut(cat: Catalogue, comp: Composition, roles: seq<string>, key: string, x: (string, nat, string))
    requires x in comp.grants && x.1 in cat.groups && cat.groups[x.1].cols.owner in cat.objects
    ensures GroupReads(cat, comp, key, x, GroupGrant(cat, comp, key, x))
    ensures var h := RPartition(key);
      x in FieldGrantsFor(cat, comp, roles, key) <==>
        && HeldBy(comp, roles, x.0) && x.2 == h.verb
        && cat.objects[cat.groups[x.1].cols.owner].cols.key == h.objectKey
  {
    HeldExactly(comp, roles, x.0);
    hide Held, RPartition;
  }

  /** The number a numeral stands for. */
  function Numeral(s: string): int {
    if s == "" then 0 else 10 * Numeral(s[..|s| - 1]) + (s[|s| - 1] as int - '0' as int)
  }

  lemma {:induction false} DecimalStandsFor(n: nat)
    ensures Numeral(Decimal(n)) == n && Decimal(n) != ""
    ensures n > 0 ==> Decimal(n)[0] != '0'
  {
    var s := Decimal(n);
    if n >= 10 {
      DecimalStandsFor(n / 10);
      assert s[..|s| - 1] == Decimal(n / 10);
    } else {
      assert s[..|s| - 1] == "";
    }
  }
}
