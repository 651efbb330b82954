/** Row predicates with the collapsing `&` and `|` of Django's `Q`, and what a query
    over them returns. */
module Predicates {
  import opened Outcomes
  import opened Values

  /** A leaf is an arbitrary test.  `Column` looks at the row alone; `Joined` also looks at
      one row of the joined relation (`None` when the outer join found none). */
  datatype Q =
    | Empty
    | Column(test: Row -> bool)
    | Joined(joinTest: (Row, Option<Columns>) -> bool)
    | And(left: Q, right: Q)
    | Or(left: Q, right: Q)

  function Conj(a: Q, b: Q): Q {
    if a.Empty? then b else if b.Empty? then a else And(a, b)
  }

  function Disj(a: Q, b: Q): Q {
    if a.Empty? then b else if b.Empty? then a else Or(a, b)
  }

  /** The empty predicate matches everything. */
  predicate Eval(q: Q, row: Row, partner: Option<Columns>) {
    match q
    case Empty => true
    case Column(t) => t(row)
    case Joined(t) => t(row, partner)
    case And(a, b) => Eval(a, row, partner) && Eval(b, row, partner)
    case Or(a, b) => Eval(a, row, partner) || Eval(b, row, partner)
  }

  predicate HasJoin(q: Q) {
    match q
    case Empty => false
    case Column(_) => false
    case Joined(_) => true
    case And(a, b) => HasJoin(a) || HasJoin(b)
    case Or(a, b) => HasJoin(a) || HasJoin(b)
  }

  /** The left outer join: every joined row, or one empty partner. */
  function Partners(row: Row): (ps: seq<Option<Columns>>)
    ensures |ps| > 0
  {
    if row.related == [] then [None] else seq(|row.related|, i requires 0 <= i < |row.related| => Some(row.related[i]))
  }

  /** The row satisfies `q` for some joined row: all leaves share the one join of a single filter call. */
  ghost predicate Matches(q: Q, row: Row) {
    exists p :: p in Partners(row) && Eval(q, row, p)
  }

  /** One copy of the row for every partner that satisfies `q`. */
  function Copies(q: Q, row: Row, partners: seq<Option<Columns>>): (r: seq<Row>)
  {
    if partners == [] then []
    else (if Eval(q, row, partners[0]) then [row] else []) + Copies(q, row, partners[1..])
  }

  /** `qs.filter(q)`: without a join a row comes back at most once, with one it may repeat. */
  function Filter(table: seq<Row>, q: Q): seq<Row> {
    if table == [] then []
    else
      (if HasJoin(q) then Copies(q, table[0], Partners(table[0]))
       else if Eval(q, table[0], None) then [table[0]] else [])
      + Filter(table[1..], q)
  }

  lemma {:induction false} PartnerIrrelevant(q: Q, row: Row, p: Option<Columns>, p': Option<Columns>)
    requires !HasJoin(q)
    ensures Eval(q, row, p) == Eval(q, row, p')
  {
    if q.And? || q.Or? {
      PartnerIrrelevant(q.left, row, p, p');
      PartnerIrrelevant(q.right, row, p, p');
    }
  }

  lemma {:induction false} CopiesOnly(q: Q, row: Row, ps: seq<Option<Columns>>)
    ensures forall x | x in Copies(q, row, ps) :: x == row
    ensures row in Copies(q, row, ps) <==> exists p :: p in ps && Eval(q, row, p)
  {
    if ps != [] {
      CopiesOnly(q, row, ps[1..]);
      assert ps == [ps[0]] + ps[1..];
      if Eval(q, row, ps[0]) {
        assert row in [row];
        assert ps[0] in ps;
      }
    }
  }

  /** A row is in the query result exactly when it is in the table and matches. */
  lemma {:induction false} FilterMembers(table: seq<Row>, q: Q, row: Row)
    ensures row in Filter(table, q) <==> row in table && Matches(q, row)
  {
    if table != [] {
      var head := table[0];
      FilterMembers(table[1..], q, row);
      CopiesOnly(q, head, Partners(head));
      if !HasJoin(q) {
        PartnerIrrelevant(q, head, None, Partners(head)[0]);
        forall p | p in Partners(head) && Eval(q, head, p)
          ensures Eval(q, head, None)
        {
          PartnerIrrelevant(q, head, None, p);
        }
      }
    }
  }

  /** Without a join nothing repeats, so no `distinct()` is needed. */
  lemma {:induction false} NoJoinNoRepeats(table: seq<Row>, q: Q)
    requires DistinctPks(table)
    requires !HasJoin(q)
    ensures DistinctPks(Filter(table, q))
  {
    if table != [] {
      NoJoinNoRepeats(table[1..], q);
      var rest := Filter(table[1..], q);
      forall k | 0 <= k < |rest|
        ensures rest[k].pk != table[0].pk
      {
        FilterMembers(table[1..], q, rest[k]);
        assert rest[k] in rest;
      }
    }
  }

  /** A test of the row alone lists each row that passes once and in its place, and no test lists them all. */
  lemma {:induction false} PlainFilter(table: seq<Row>, test: Row -> bool)
    ensures Filter(table, Column(test)) ==
      if table == [] then [] else (if test(table[0]) then [table[0]] else []) + Filter(table[1..], Column(test))
    ensures Filter(table, Empty) == table
  {
    if table != [] {
      PlainFilter(table[1..], test);
    }
  }

  /** The partners that satisfy `q`. */
  ghost function Passing(q: Q, row: Row, ps: seq<Option<Columns>>): set<nat> {
    set i: nat | i < |ps| && Eval(q, row, ps[i])
  }

  lemma {:induction false} CopiesAppend(q: Q, row: Row, ps: seq<Option<Columns>>, p: Option<Columns>)
    ensures Copies(q, row, ps + [p]) == Copies(q, row, ps) + if Eval(q, row, p) then [row] else []
  {
    if ps == [] {
      assert ([] + [p])[1..] == [];
    } else {
      assert (ps + [p])[1..] == ps[1..] + [p];
      CopiesAppend(q, row, ps[1..], p);
    }
  }

  lemma PassingAppend(q: Q, row: Row, ps: seq<Option<Columns>>, p: Option<Columns>)
    ensures |Passing(q, row, ps + [p])| == |Passing(q, row, ps)| + if Eval(q, row, p) then 1 else 0
  {
    var longer, last := ps + [p], if Eval(q, row, p) then {|ps|} else {};
    hide Eval;
    forall i: nat
      ensures i in Passing(q, row, longer) <==> i in Passing(q, row, ps) || i in last
    {
      assert i < |ps| ==> longer[i] == ps[i];
    }
    assert |ps| !in Passing(q, row, ps);
    hide Passing;
    assert Passing(q, row, longer) == Passing(q, row, ps) + last;
  }

  lemma {:induction false} CopiesCount(q: Q, row: Row, ps: seq<Option<Columns>>)
    ensures |Copies(q, row, ps)| == |Passing(q, row, ps)|
    decreases |ps|
  {
    if ps == [] {
      assert Passing(q, row, ps) == {};
    } else {
      var init, last := ps[..|ps| - 1], ps[|ps| - 1];
      hide Copies, Passing, Eval;
      CopiesCount(q, row, init);
      CopiesAppend(q, row, init, last);
      PassingAppend(q, row, init, last);
      assert init + [last] == ps;
    }
  }

  /** With a join a row comes back once for each joined row that satisfies `q`, or for the one empty partner when
      nothing is joined. */
  lemma JoinedFilter(row: Row, q: Q, joined: seq<Option<Columns>>)
    requires HasJoin(q) && |joined| == |row.related|
    requires forall i | 0 <= i < |joined| :: joined[i] == Some(row.related[i])
    ensures |Filter([row], q)| == |Passing(q, row, if joined == [] then [None] else joined)|
  {
    assert [row][1..] == [];
    assert Filter([row], q) == Copies(q, row, Partners(row)) + [];
    assert Partners(row) == if joined == [] then [None] else joined;
    CopiesCount(q, row, Partners(row));
  }

  /** Collapse changes no conjunction: the empty predicate is its unit. */
  lemma ConjMeaning(a: Q, b: Q, row: Row, p: Option<Columns>)
    ensures Eval(Conj(a, b), row, p) <==> Eval(a, row, p) && Eval(b, row, p)
    ensures Conj(a, b).Empty? <==> a.Empty? && b.Empty?
    ensures HasJoin(Conj(a, b)) <==> HasJoin(a) || HasJoin(b)
  {
  }

  /** Collapse does change a disjunction: an empty side is dropped although it matches everything.
      The union is kept exactly when it is not the case that just one side is empty and the other fails. */
  lemma DisjMeaning(a: Q, b: Q, row: Row, p: Option<Columns>)
    ensures (Eval(Disj(a, b), row, p) <==> Eval(a, row, p) || Eval(b, row, p))
      <==> !((a.Empty? && !b.Empty? && !Eval(b, row, p)) || (b.Empty? && !a.Empty? && !Eval(a, row, p)))
    ensures HasJoin(Disj(a, b)) <==> HasJoin(a) || HasJoin(b)
    ensures Disj(a, b).Empty? <==> a.Empty? && b.Empty?
  {
  }
}
