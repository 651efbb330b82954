/** `sorted` on a set of stored values. */
module Sorting {
  import opened Outcomes
  import opened Values

  predicate Numeric(v: Value) {
    v.Int? || v.Bool?
  }

  function Amount(v: Value): int
    requires Numeric(v)
  {
    if v.Int? then v.n else if v.b then 1 else 0
  }

  /** Strings compare character by character. */
  predicate StrLess(s: string, t: string) {
    if t == "" then false
    else if s == "" then true
    else s[0] < t[0] || (s[0] == t[0] && StrLess(s[1..], t[1..]))
  }

  /** Defined between two numbers, a boolean being one, and between two strings. */
  predicate Less(a: Value, b: Value) {
    if Numeric(a) && Numeric(b) then Amount(a) < Amount(b)
    else a.Str? && b.Str? && StrLess(a.s, b.s)
  }

  /** Sorting raises when it has to compare a number with a string, or anything with what has no order. */
  ghost predicate Sortable(values: set<Value>) {
    |values| <= 1 || (forall v | v in values :: Numeric(v)) || (forall v | v in values :: v.Str?)
  }

  ghost predicate Ascending(r: seq<Value>) {
    forall i, j | 0 <= i < j < |r| :: !Less(r[j], r[i])
  }

  /** The values in order, each once. */
  ghost predicate SortedList(r: seq<Value>, values: set<Value>) {
    Ascending(r) && multiset(r) == multiset(values)
  }

  /** The first string comes before the second in the order of a dictionary: they agree up to some place, where the
      first has ended or has the smaller character. */
  ghost predicate Before(s: string, t: string) {
    exists k: nat :: Differ(s, t, k)
  }

  ghost predicate Differ(s: string, t: string, k: nat) {
    k <= |s| && k < |t| && s[..k] == t[..k] && (k == |s| || s[k] < t[k])
  }

  lemma DifferLater(s: string, t: string, k: nat)
    requires Differ(s, t, k) && k > 0
    ensures s != "" && t != "" && s[0] == t[0]
  {
    assert s[..k][0] == t[..k][0];
  }

  lemma {:induction false} StrLessExactly(s: string, t: string)
    ensures StrLess(s, t) <==> Before(s, t)
  {
    forall k: nat | k > 0 && Differ(s, t, k)
      ensures s != "" && t != "" && s[0] == t[0]
    {
      DifferLater(s, t, k);
    }
    if s != "" && t != "" && s[0] == t[0] {
      StrLessExactly(s[1..], t[1..]);
      if k: nat :| Differ(s, t, k) {
        assert k > 0 && s[..k][1..] == s[1..][..k - 1] && t[..k][1..] == t[1..][..k - 1];
        assert Differ(s[1..], t[1..], k - 1);
      }
      if k: nat :| Differ(s[1..], t[1..], k) {
        assert s[..k + 1] == [s[0]] + s[1..][..k] && t[..k + 1] == [t[0]] + t[1..][..k];
        assert Differ(s, t, k + 1);
      }
    } else if StrLess(s, t) {
      assert Differ(s, t, 0);
    }
  }

  lemma {:induction false} StrLessTotal(s: string, t: string)
    ensures StrLess(s, t) || StrLess(t, s) || s == t
  {
    if s != "" && t != "" && s[0] == t[0] {
      StrLessTotal(s[1..], t[1..]);
      assert s == [s[0]] + s[1..] && t == [t[0]] + t[1..];
    }
  }

  lemma {:induction false} StrLessTransitive(s: string, t: string, u: string)
    requires StrLess(s, t) && StrLess(t, u)
    ensures StrLess(s, u)
  {
    if s != "" && s[0] == t[0] && t[0] == u[0] {
      StrLessTransitive(s[1..], t[1..], u[1..]);
    }
  }

  lemma LessTransitive(a: Value, b: Value, c: Value)
    requires Less(a, b) && Less(b, c)
    ensures Less(a, c)
  {
    if a.Str? {
      StrLessTransitive(a.s, b.s, c.s);
    }
  }

  lemma {:induction false} StrLessIrreflexive(s: string)
    ensures !StrLess(s, s)
  {
    if s != "" {
      StrLessIrreflexive(s[1..]);
    }
  }

  lemma LessIrreflexive(v: Value)
    ensures !Less(v, v)
  {
    if v.Str? {
      StrLessIrreflexive(v.s);
    }
  }

  /** Of comparable values, one that none of the others is less than. */
  method Least(values: set<Value>) returns (m: Value)
    requires values != {}
    ensures m in values && forall v | v in values :: !Less(v, m)
  {
    m :| m in values;
    LessIrreflexive(m);
    hide Less;
    var todo := values - {m};
    while todo != {}
      invariant todo <= values && m in values
      invariant forall v | v in values - todo :: !Less(v, m)
      decreases |todo|
    {
      var v :| v in todo;
      todo := todo - {v};
      if Less(v, m) {
        LessIrreflexive(v);
        forall u | u in values - todo
          ensures !Less(u, v)
        {
          if Less(u, v) {
            LessTransitive(u, v, m);
          }
        }
        m := v;
      }
    }
  }

  predicate Comparable(a: Value, b: Value) {
    (Numeric(a) && Numeric(b)) || (a.Str? && b.Str?)
  }

  lemma PairwiseComparable(values: set<Value>)
    ensures Sortable(values) <==> forall a, b | a in values && b in values && a != b :: Comparable(a, b)
  {
    if !Sortable(values) {
      var a :| a in values;
      var b: Value;
      if Numeric(a) {
        b :| b in values && !Numeric(b);
      } else if a.Str? {
        b :| b in values && !b.Str?;
      } else {
        assert values != {a};
        b :| b in values && b != a;
      }
      assert a != b && !Comparable(a, b);
    } else if a, b :| a in values && b in values && a != b && !Comparable(a, b) {
      assert {a, b} <= values;
      AtLeastTwo(values, a, b);
    }
  }

  lemma AtLeastTwo(values: set<Value>, a: Value, b: Value)
    requires a in values && b in values && a != b
    ensures 2 <= |values|
  {
    assert |values - {a}| == |values| - 1 && b in values - {a};
  }

  method SortValues(values: set<Value>) returns (r: Result<seq<Value>>)
    ensures r.Ok? <==> Sortable(values)
    ensures r.Ok? ==> SortedList(r.value, values)
  {
    PairwiseComparable(values);
    if exists a, b | a in values && b in values :: a != b && !Comparable(a, b) {
      return Err(Other);
    }
    var out: seq<Value>, todo := [], values;
    while todo != {}
      invariant todo <= values
      invariant multiset(out) + multiset(todo) == multiset(values)
      invariant Ascending(out) && forall i, v | 0 <= i < |out| && v in todo :: !Less(v, out[i])
      decreases |todo|
    {
      var m := Least(todo);
      assert multiset(todo) == multiset(todo - {m}) + multiset{m};
      out := out + [m];
      todo := todo - {m};
    }
    assert multiset(out) + multiset(todo) == multiset(out);
    r := Ok(out);
  }

  /** Sorted values are the values given, each once: strings in the order of a dictionary, and numbers by size, a
      boolean counting as 0 or 1. */
  lemma SortedExactly(r: seq<Value>, values: set<Value>, i: nat, j: nat)
    requires SortedList(r, values) && i < j < |r|
    ensures r[i] != r[j] && r[i] in values && r[j] in values
    ensures r[i].Str? && r[j].Str? ==> Before(r[i].s, r[j].s)
    ensures r[i].Int? && r[j].Int? ==> r[i].n <= r[j].n
    ensures r[i].Bool? && r[j].Int? ==> r[j].n >= 1 || (r[j].n == 0 && !r[i].b)
    ensures r[i].Int? && r[j].Bool? ==> r[i].n <= 0 || (r[i].n == 1 && r[j].b)
    ensures r[i].Bool? && r[j].Bool? ==> !r[i].b && r[j].b
  {
    EachOnce(r, values, i, j);
    assert !Less(r[j], r[i]);
    if r[i].Str? && r[j].Str? {
      StrLessTotal(r[i].s, r[j].s);
      StrLessExactly(r[i].s, r[j].s);
    }
  }

  lemma EachOnce(r: seq<Value>, values: set<Value>, i: nat, j: nat)
    requires multiset(r) == multiset(values) && i < j < |r|
    ensures r[i] != r[j] && r[i] in values && r[j] in values
  {
    assert r == r[..j] + r[j..] && r[..j][i] == r[i] && r[j..][0] == r[j];
    assert multiset(r) == multiset(r[..j]) + multiset(r[j..]);
    assert r[i] in multiset(r) && r[j] in multiset(r);
  }

  /** Sorting raises exactly when two of the values are neither both strings nor both numbers. */
  lemma SortableExactly(values: set<Value>)
    ensures Sortable(values) <==>
      forall a, b | a in values && b in values && a != b ::
        (a.Str? && b.Str?) || ((a.Int? || a.Bool?) && (b.Int? || b.Bool?))
  {
    PairwiseComparable(values);
  }
}
