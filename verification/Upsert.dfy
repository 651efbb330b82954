/** Reconciling one catalogue table with what the registry declares. */
module Upserting {

  /** A catalogue row: the declared columns, and the liveness pair. */
  datatype Entry<+V> = Entry(cols: V, live: bool, seen: int)

  /** Rows by primary key. */
  type Table<+V> = map<nat, Entry<V>>

  datatype TableReport = TableReport(created: nat, updated: nat, kept: nat, revived: nat, retired: nat) {
    predicate Changed() {
      created > 0 || updated > 0 || revived > 0 || retired > 0
    }
  }

  /** The unique constraint every catalogue table carries on its natural key. */
  ghost predicate UniqueNatural<V, N>(t: Table<V>, natural: V -> N) {
    forall a, b | a in t && b in t && natural(t[a].cols) == natural(t[b].cols) :: a == b
  }

  ghost predicate Below<V>(t: Table<V>, bound: nat) {
    forall a | a in t :: a < bound
  }

  /** The declarations by natural key; the first with a key is the one that counts. */
  ghost function Wanted<V, N>(desired: seq<V>, natural: V -> N): map<N, V> {
    if desired == [] then map[] else Wanted(desired[1..], natural)[natural(desired[0]) := desired[0]]
  }

  ghost predicate Holds<V, N>(t: Table<V>, natural: V -> N, n: N) {
    exists a :: a in t && natural(t[a].cols) == n
  }

  ghost function PkOf<V, N>(t: Table<V>, natural: V -> N, n: N): (a: nat)
    requires Holds(t, natural, n)
    ensures a in t && natural(t[a].cols) == n
  {
    var a :| a in t && natural(t[a].cols) == n;
    a
  }

  // ----- what a run must do

  /** A row that carries the declaration of its natural key. */
  ghost predicate Declared<V, N>(before: Table<V>, t: Table<V>, wanted: map<N, V>, natural: V -> N, now: int, a: nat)
    requires a in t
  {
    var n := natural(t[a].cols);
    && n in wanted
    && t[a] == Entry(wanted[n], true, now)
    && (if a in before then natural(before[a].cols) == n else !Holds(before, natural, n))
  }

  /** The table afterwards.  No row goes and no primary key or natural key changes; a declared row holds its
      declaration and is live; an undeclared one loses nothing but its liveness. */
  ghost predicate Reconciled<V, N>(before: Table<V>, after: Table<V>, wanted: map<N, V>, natural: V -> N, now: int) {
    && (forall a | a in before :: a in after)
    && (forall a | a in after ::
      Declared(before, after, wanted, natural, now, a) || Retired(before, after, wanted, natural, a))
    && (forall n {:trigger Holds(after, natural, n)} | n in wanted :: Holds(after, natural, n))
    && UniqueNatural(after, natural)
  }

  ghost predicate Retired<V, N>(before: Table<V>, t: Table<V>, wanted: map<N, V>, natural: V -> N, a: nat)
    requires a in t
  {
    a in before && natural(before[a].cols) !in wanted && t[a] == before[a].(live := false)
  }

  datatype Fate = Created | Revived | Updated | Kept

  ghost function FateOf<V, N>(before: Table<V>, natural: V -> N, n: N, v: V): Fate {
    if !Holds(before, natural, n) then Created
    else
      var row := before[PkOf(before, natural, n)];
      if !row.live then Revived
      else if row.cols != v then Updated
      else Kept
  }

  ghost function Fated<V, N>(before: Table<V>, wanted: map<N, V>, natural: V -> N, f: Fate): set<N> {
    set n | n in wanted && FateOf(before, natural, n, wanted[n]) == f
  }

  ghost function Stale<V, N>(before: Table<V>, wanted: map<N, V>, natural: V -> N): set<nat> {
    set a | a in before && before[a].live && natural(before[a].cols) !in wanted
  }

  ghost predicate Counted<V, N>(before: Table<V>, wanted: map<N, V>, natural: V -> N, r: TableReport) {
    && r.created == |Fated(before, wanted, natural, Created)|
    && r.revived == |Fated(before, wanted, natural, Revived)|
    && r.updated == |Fated(before, wanted, natural, Updated)|
    && r.kept == |Fated(before, wanted, natural, Kept)|
  }

  // ----- the run

  /** The table while the declarations in `wanted` have been dealt with. */
  ghost predicate Partial<V, N>(before: Table<V>, t: Table<V>, wanted: map<N, V>, natural: V -> N, now: int) {
    && (forall a | a in before :: a in t)
    && (forall a | a in t :: Declared(before, t, wanted, natural, now, a) || Untouched(before, t, wanted, natural, a))
    && (forall n {:trigger Holds(t, natural, n)} | n in wanted :: Holds(t, natural, n))
    && UniqueNatural(t, natural)
  }

  ghost predicate Untouched<V, N>(before: Table<V>, t: Table<V>, wanted: map<N, V>, natural: V -> N, a: nat)
    requires a in t
  {
    a in before && natural(before[a].cols) !in wanted && t[a] == before[a]
  }

  lemma {:induction false} WantedStep<V, N>(desired: seq<V>, i: nat, natural: V -> N)
    requires i < |desired|
    ensures var n, w := natural(desired[i]), Wanted(desired[..i], natural);
      Wanted(desired[..i + 1], natural) == if n in w then w else w[n := desired[i]]
  {
    if i == 0 {
      assert desired[..1] == [desired[0]];
      assert desired[..0] == [];
    } else {
      WantedStep(desired[1..], i - 1, natural);
      assert desired[1..][..i - 1] == desired[..i][1..];
      assert desired[1..][..i] == desired[..i + 1][1..];
    }
  }

  /** Declarations listed from a dictionary, in any order. */
  method RowsOf<V(==,!new), N(==,!new)>(wanted: map<N, V>, natural: V -> N) returns (rows: seq<V>)
    requires forall n | n in wanted :: natural(wanted[n]) == n
    ensures Wanted(rows, natural) == wanted
  {
    rows := [];
    var todo := wanted.Keys;
    while todo != {}
      invariant todo <= wanted.Keys
      invariant Wanted(rows, natural) == map n | n in wanted && n !in todo :: wanted[n]
      decreases |todo|
    {
      var n :| n in todo;
      todo := todo - {n};
      WantedStep(rows + [wanted[n]], |rows|, natural);
      assert (rows + [wanted[n]])[..|rows|] == rows && (rows + [wanted[n]])[..|rows| + 1] == rows + [wanted[n]];
      rows := rows + [wanted[n]];
    }
  }

  lemma FatedStep<V, N>(before: Table<V>, wanted: map<N, V>, natural: V -> N, n: N, v: V, f: Fate)
    requires n !in wanted
    ensures Fated(before, wanted[n := v], natural, f) ==
      Fated(before, wanted, natural, f) + if FateOf(before, natural, n, v) == f then {n} else {}
    ensures n !in Fated(before, wanted, natural, f)
  {
  }

  function Tally(r: TableReport, f: Fate): (t: TableReport)
    ensures t.retired == r.retired
    ensures t.created + t.updated + t.kept + t.revived == r.created + r.updated + r.kept + r.revived + 1
  {
    match f
    case Created => r.(created := r.created + 1)
    case Revived => r.(revived := r.revived + 1)
    case Updated => r.(updated := r.updated + 1)
    case Kept => r.(kept := r.kept + 1)
  }

  lemma CountStep<V, N>(before: Table<V>, wanted: map<N, V>, natural: V -> N, n: N, v: V, r: TableReport)
    requires n !in wanted
    requires Counted(before, wanted, natural, r)
    ensures Counted(before, wanted[n := v], natural, Tally(r, FateOf(before, natural, n, v)))
  {
    hide Fated, FateOf;
    FatedStep(before, wanted, natural, n, v, Created);
    FatedStep(before, wanted, natural, n, v, Revived);
    FatedStep(before, wanted, natural, n, v, Updated);
    FatedStep(before, wanted, natural, n, v, Kept);
  }

  /** The pk of the row each declaration dealt with so far ended up in, and the pks still unused. */
  ghost predicate Tracks<V, N(!new)>(t: Table<V>, wanted: map<N, V>, natural: V -> N, liveRows: map<N, nat>,
                              next: nat) {
    && (forall n :: n in liveRows <==> n in wanted)
    && (forall n | n in liveRows :: liveRows[n] in t && natural(t[liveRows[n]].cols) == n)
    && Below(t, next)
  }

  lemma TracksStep<V, N(!new)>(t: Table<V>, wanted: map<N, V>, natural: V -> N, liveRows: map<N, nat>, next: nat, v: V,
                        pk: nat, now: int)
    requires Tracks(t, wanted, natural, liveRows, next)
    requires if pk in t then natural(t[pk].cols) == natural(v) else pk == next
    ensures Tracks(t[pk := Entry(v, true, now)], wanted[natural(v) := v], natural, liveRows[natural(v) := pk],
                   if pk in t then next else next + 1)
  {
  }

  ghost predicate NewFrom<V>(before: Table<V>, t: Table<V>, bound: nat) {
    forall a | a in t && a !in before :: a >= bound
  }

  /** One declaration: create its row, or bring the row it has up to date and count what that took. */
  method Place<V(==,!new), N(==,!new)>(ghost before: Table<V>, t: Table<V>, existing: map<N, nat>,
                                       ghost wanted: map<N, V>, values: V, natural: V -> N, now: int,
                                       report: TableReport, liveRows: map<N, nat>, next: nat, ghost bound: nat)
    returns (t': Table<V>, report': TableReport, liveRows': map<N, nat>, next': nat)
    requires UniqueNatural(before, natural)
    requires forall n :: n in existing <==> Holds(before, natural, n)
    requires forall n | n in existing :: existing[n] in before && natural(before[existing[n]].cols) == n
    requires natural(values) !in wanted
    requires Partial(before, t, wanted, natural, now)
    requires Tracks(t, wanted, natural, liveRows, next) && bound <= next && NewFrom(before, t, bound)
    ensures Partial(before, t', wanted[natural(values) := values], natural, now)
    ensures report' == Tally(report, FateOf(before, natural, natural(values), values))
    ensures Tracks(t', wanted[natural(values) := values], natural, liveRows', next')
    ensures bound <= next' && NewFrom(before, t', bound)
  {
    var ident := natural(values);
    report', next' := report, next;
    var pk := next;
    if ident !in existing {
      report' := report.(created := report.created + 1);
      next' := next + 1;
    } else {
      pk := existing[ident];
      assert PkOf(before, natural, ident) == pk;
      RowUntouched(before, t, wanted, natural, now, pk);
      if !t[pk].live {
        report' := report.(revived := report.revived + 1);
      } else if t[pk].cols != values {
        report' := report.(updated := report.updated + 1);
      } else {
        report' := report.(kept := report.kept + 1);
      }
    }
    PartialStep(before, t, wanted, natural, now, values, pk);
    TracksStep(t, wanted, natural, liveRows, next, values, pk, now);
    t' := t[pk := Entry(values, true, now)];
    liveRows' := liveRows[ident := pk];
  }

  /** The loop over the declarations; one that reaches us twice gets one row either way. */
  method PlaceAll<V(==,!new), N(==,!new)>(before: Table<V>, desired: seq<V>, natural: V -> N, now: int, bound: nat)
    returns (t: Table<V>, report: TableReport, next: nat, liveRows: map<N, nat>)
    requires UniqueNatural(before, natural) && Below(before, bound)
    ensures Partial(before, t, Wanted(desired, natural), natural, now)
    ensures Counted(before, Wanted(desired, natural), natural, report) && report.retired == 0
    ensures report.created + report.updated + report.kept + report.revived == |Wanted(desired, natural)|
    ensures Tracks(t, Wanted(desired, natural), natural, liveRows, next) && bound <= next && NewFrom(before, t, bound)
  {
    var existing := map a | a in before :: natural(before[a].cols) := a;
    assert forall n :: n in existing <==> Holds(before, natural, n);
    liveRows := map[];
    ghost var wanted: map<N, V> := map[];
    t, next := before, bound;
    report := TableReport(0, 0, 0, 0, 0);
    assert Fated(before, wanted, natural, Created) == {} && Fated(before, wanted, natural, Revived) == {};
    assert Fated(before, wanted, natural, Updated) == {} && Fated(before, wanted, natural, Kept) == {};
    hide Fated, FateOf, Partial, Counted, UniqueNatural, Holds, NewFrom, Below, Tally;
    for i := 0 to |desired|
      invariant wanted == Wanted(desired[..i], natural)
      invariant Partial(before, t, wanted, natural, now)
      invariant Tracks(t, wanted, natural, liveRows, next) && bound <= next && NewFrom(before, t, bound)
      invariant Counted(before, wanted, natural, report) && report.retired == 0
      invariant report.created + report.updated + report.kept + report.revived == |wanted|
    {
      var values := desired[i];
      WantedStep(desired, i, natural);
      if natural(values) in liveRows {
        continue;
      }
      CountStep(before, wanted, natural, natural(values), values, report);
      t, report, liveRows, next :=
        Place(before, t, existing, wanted, values, natural, now, report, liveRows, next, bound);
      wanted := wanted[natural(values) := values];
    }
    assert desired[..|desired|] == desired;
  }

  method Upsert<V(==,!new), N(==,!new)>(before: Table<V>, desired: seq<V>, natural: V -> N, now: int, bound: nat)
    returns (after: Table<V>, report: TableReport, next: nat, liveRows: map<N, nat>)
    requires UniqueNatural(before, natural) && Below(before, bound)
    ensures Reconciled(before, after, Wanted(desired, natural), natural, now)
    ensures Counted(before, Wanted(desired, natural), natural, report)
    ensures report.retired == |Stale(before, Wanted(desired, natural), natural)|
    ensures report.created + report.updated + report.kept + report.revived == |Wanted(desired, natural)|
    ensures Tracks(after, Wanted(desired, natural), natural, liveRows, next)
    ensures bound <= next && NewFrom(before, after, bound)
  {
    var t;
    t, report, next, liveRows := PlaceAll(before, desired, natural, now, bound);
    var stale := set a | a in before && natural(before[a].cols) !in liveRows && before[a].live;
    after := map a | a in t :: if a in stale then t[a].(live := false) else t[a];
    Retire(before, t, after, Wanted(desired, natural), natural, now, stale);
    report := report.(retired := |stale|);
  }

  lemma RowUntouched<V, N>(before: Table<V>, t: Table<V>, wanted: map<N, V>, natural: V -> N, now: int, a: nat)
    requires Partial(before, t, wanted, natural, now)
    requires a in before && natural(before[a].cols) !in wanted
    ensures t[a] == before[a]
  {
  }

  /** Writing the row of a natural key not met before. */
  lemma PartialStep<V, N>(before: Table<V>, t: Table<V>, wanted: map<N, V>, natural: V -> N, now: int, v: V, a: nat)
    requires Partial(before, t, wanted, natural, now)
    requires UniqueNatural(before, natural)
    requires natural(v) !in wanted
    requires (a in before && natural(before[a].cols) == natural(v)) || (a !in t && !Holds(before, natural, natural(v)))
    ensures Partial(before, t[a := Entry(v, true, now)], wanted[natural(v) := v], natural, now)
  {
    var t', wanted' := t[a := Entry(v, true, now)], wanted[natural(v) := v];
    forall b | b in t'
      ensures Declared(before, t', wanted', natural, now, b) || Untouched(before, t', wanted', natural, b)
      ensures b != a ==> natural(t'[b].cols) != natural(v)
    {
      if b != a {
        assert t'[b] == t[b];
        assert Declared(before, t, wanted, natural, now, b) || Untouched(before, t, wanted, natural, b);
      }
    }
    forall n | n in wanted'
      ensures Holds(t', natural, n)
    {
      if n == natural(v) {
        assert natural(t'[a].cols) == n;
      } else {
        var b := PkOf(t, natural, n);
        assert b != a || a in before;
        assert t'[b].cols == t[b].cols;
      }
    }
  }

  /** Taking the liveness of what nobody declared. */
  lemma Retire<V, N>(before: Table<V>, t: Table<V>, t': Table<V>, wanted: map<N, V>, natural: V -> N, now: int,
                     stale: set<nat>)
    requires Partial(before, t, wanted, natural, now)
    requires forall a :: a in stale <==> a in before && before[a].live && natural(before[a].cols) !in wanted
    requires forall a :: a in t' <==> a in t
    requires forall a | a in t' :: t'[a] == if a in stale then t[a].(live := false) else t[a]
    ensures stale == Stale(before, wanted, natural)
    ensures Reconciled(before, t', wanted, natural, now)
    ensures forall a | a in t :: t'[a].cols == t[a].cols
  {
    forall a | a in t
      ensures t'[a].cols == t[a].cols
      ensures Declared(before, t', wanted, natural, now, a) || Retired(before, t', wanted, natural, a)
    {
      assert Declared(before, t, wanted, natural, now, a) || Untouched(before, t, wanted, natural, a);
    }
    forall n | n in wanted
      ensures Holds(t', natural, n)
    {
      var a := PkOf(t, natural, n);
      assert t'[a].cols == t[a].cols;
    }
  }

  // ----- what follows from a run

  ghost predicate EarliestAt<V, N>(desired: seq<V>, natural: V -> N, n: N, i: int) {
    0 <= i < |desired| && natural(desired[i]) == n && forall j | 0 <= j < i :: natural(desired[j]) != n
  }

  /** `Wanted` keeps, for each natural key declared, the earliest declaration. */
  lemma {:induction false} WantedIsFirst<V, N>(desired: seq<V>, natural: V -> N, n: N)
    ensures n in Wanted(desired, natural) <==> exists i :: 0 <= i < |desired| && natural(desired[i]) == n
    ensures n in Wanted(desired, natural) ==>
      exists i :: EarliestAt(desired, natural, n, i) && Wanted(desired, natural)[n] == desired[i]
  {
    if desired != [] {
      WantedIsFirst(desired[1..], natural, n);
      if natural(desired[0]) != n && n in Wanted(desired[1..], natural) {
        var i :| EarliestAt(desired[1..], natural, n, i) && Wanted(desired[1..], natural)[n] == desired[1..][i];
        assert EarliestAt(desired, natural, n, i + 1) by {
          assert forall j | 0 < j < i + 1 :: desired[j] == desired[1..][j - 1];
        }
      } else if natural(desired[0]) == n {
        assert EarliestAt(desired, natural, n, 0);
      }
      if exists i :: 0 <= i < |desired| && natural(desired[i]) == n {
        var i :| 0 <= i < |desired| && natural(desired[i]) == n;
        if i > 0 {
          assert desired[1..][i - 1] == desired[i];
        }
      }
    }
  }

  /** The live rows afterwards are exactly the declared ones. */
  lemma LiveMeansDeclared<V, N>(before: Table<V>, after: Table<V>, wanted: map<N, V>, natural: V -> N, now: int, a: nat)
    requires Reconciled(before, after, wanted, natural, now)
    requires a in after
    ensures after[a].live <==> natural(after[a].cols) in wanted
    ensures after[a].live ==> after[a].cols == wanted[natural(after[a].cols)]
    ensures a in before ==> natural(after[a].cols) == natural(before[a].cols)
    ensures after[a].live ==> after[a].seen == now
    ensures !after[a].live ==> a in before && after[a] == before[a].(live := false)
  {
    assert Declared(before, after, wanted, natural, now, a) || Retired(before, after, wanted, natural, a);
  }

  /** The rows of each fate, told from the tables alone. */
  ghost function RowsWith<V>(before: Table<V>, after: Table<V>, f: Fate): set<nat> {
    match f
    case Created => after.Keys - before.Keys
    case Revived => set a | a in before && a in after && !before[a].live && after[a].live
    case Updated => set a | a in before && a in after
                            && before[a].live && after[a].live && after[a].cols != before[a].cols
    case Kept => set a | a in before && a in after
                         && before[a].live && after[a].live && after[a].cols == before[a].cols
  }

  lemma {:induction false} SameSize<A, B>(s: set<A>, t: set<B>, m: map<A, B>)
    requires s <= m.Keys && t == set a | a in s :: m[a]
    requires forall a, b | a in s && b in s && m[a] == m[b] :: a == b
    ensures |s| == |t|
    decreases s
  {
    if s == {} {
      assert t == {};
    } else {
      var a :| a in s;
      assert t - {m[a]} == set b | b in s - {a} :: m[b];
      SameSize(s - {a}, t - {m[a]}, m);
    }
  }

  lemma FateOfRow<V(!new), N(!new)>(before: Table<V>, after: Table<V>, wanted: map<N, V>, natural: V -> N, now: int,
                                    f: Fate, a: nat)
    requires UniqueNatural(before, natural) && Reconciled(before, after, wanted, natural, now) && a in after
    ensures a in RowsWith(before, after, f) <==>
      var n := natural(after[a].cols); after[a].live && n in wanted && FateOf(before, natural, n, wanted[n]) == f
  {
    LiveMeansDeclared(before, after, wanted, natural, now, a);
    if after[a].live && a in before {
      var n := natural(after[a].cols);
      assert Holds(before, natural, n) && PkOf(before, natural, n) == a;
    }
    if after[a].live && a !in before {
      assert Declared(before, after, wanted, natural, now, a);
    }
  }

  lemma FatedRows<V(!new), N(!new)>(before: Table<V>, after: Table<V>, wanted: map<N, V>, natural: V -> N, now: int,
                                    f: Fate)
    requires UniqueNatural(before, natural) && Reconciled(before, after, wanted, natural, now)
    ensures |RowsWith(before, after, f)| == |Fated(before, wanted, natural, f)|
  {
    var rows, m := RowsWith(before, after, f), map a | a in after :: natural(after[a].cols);
    forall a | a in after
      ensures a in rows <==> after[a].live && m[a] in wanted && FateOf(before, natural, m[a], wanted[m[a]]) == f
      ensures after[a].live <==> m[a] in wanted
    {
      FateOfRow(before, after, wanted, natural, now, f, a);
      LiveMeansDeclared(before, after, wanted, natural, now, a);
    }
    assert rows <= m.Keys;
    hide FateOf, RowsWith;
    forall n | n in Fated(before, wanted, natural, f)
      ensures exists a :: a in rows && m[a] == n
    {
      var a := PkOf(after, natural, n);
      assert m[a] == n;
    }
    assert Fated(before, wanted, natural, f) == set a | a in rows :: m[a];
    SameSize(rows, Fated(before, wanted, natural, f), m);
  }

  /** The rows that were live and are not. */
  ghost function Gone<V>(before: Table<V>, after: Table<V>): set<nat> {
    set a | a in before && a in after && before[a].live && !after[a].live
  }

  /** The five counts are the numbers of rows that came, came back, changed, stayed as they were, and went. */
  lemma CountsExactly<V(!new), N(!new)>(before: Table<V>, after: Table<V>, wanted: map<N, V>, natural: V -> N, now: int,
                                        r: TableReport)
    requires UniqueNatural(before, natural) && Reconciled(before, after, wanted, natural, now)
    requires Counted(before, wanted, natural, r) && r.retired == |Stale(before, wanted, natural)|
    ensures r.created == |RowsWith(before, after, Created)| && r.revived == |RowsWith(before, after, Revived)|
    ensures r.updated == |RowsWith(before, after, Updated)| && r.kept == |RowsWith(before, after, Kept)|
    ensures r.retired == |Gone(before, after)|
  {
    FatedRows(before, after, wanted, natural, now, Created);
    FatedRows(before, after, wanted, natural, now, Revived);
    FatedRows(before, after, wanted, natural, now, Updated);
    FatedRows(before, after, wanted, natural, now, Kept);
    forall a
      ensures a in Gone(before, after) <==> a in Stale(before, wanted, natural)
    {
      if a in before {
        assert a in after;
        LiveMeansDeclared(before, after, wanted, natural, now, a);
      }
    }
    hide Reconciled, RowsWith, Fated, Gone, Stale;
    assert Gone(before, after) == Stale(before, wanted, natural);
  }

  /** Equal but for the time last seen. */
  ghost predicate SameButSeen<V>(before: Table<V>, after: Table<V>) {
    && before.Keys == after.Keys
    && forall a | a in before :: after[a].cols == before[a].cols && after[a].live == before[a].live
  }

  ghost predicate Quiet<V, N>(before: Table<V>, wanted: map<N, V>, natural: V -> N) {
    && (forall n | n in wanted :: FateOf(before, natural, n, wanted[n]) == Kept)
    && (forall a | a in before && before[a].live :: natural(before[a].cols) in wanted)
  }

  lemma QuietExactly<V, N>(before: Table<V>, wanted: map<N, V>, natural: V -> N, r: TableReport)
    requires Counted(before, wanted, natural, r) && r.retired == |Stale(before, wanted, natural)|
    ensures !r.Changed() <==> Quiet(before, wanted, natural)
  {
    if !r.Changed() {
      forall n | n in wanted
        ensures FateOf(before, natural, n, wanted[n]) == Kept
      {
        assert n !in Fated(before, wanted, natural, Created);
        assert n !in Fated(before, wanted, natural, Revived);
        assert n !in Fated(before, wanted, natural, Updated);
      }
      forall a | a in before && before[a].live
        ensures natural(before[a].cols) in wanted
      {
        assert a !in Stale(before, wanted, natural);
      }
    }
    if Quiet(before, wanted, natural) {
      assert Fated(before, wanted, natural, Created) == {};
      assert Fated(before, wanted, natural, Revived) == {};
      assert Fated(before, wanted, natural, Updated) == {};
      assert Stale(before, wanted, natural) == {};
    }
  }

  /** The report says something changed exactly when some column other than the time last seen differs. */
  lemma ChangedExactly<V, N>(before: Table<V>, after: Table<V>, wanted: map<N, V>, natural: V -> N, now: int,
                             r: TableReport)
    requires UniqueNatural(before, natural)
    requires Reconciled(before, after, wanted, natural, now)
    requires Counted(before, wanted, natural, r) && r.retired == |Stale(before, wanted, natural)|
    ensures r.Changed() <==> !SameButSeen(before, after)
  {
    QuietExactly(before, wanted, natural, r);
    if Quiet(before, wanted, natural) {
      QuietKeeps(before, after, wanted, natural, now);
    } else if SameButSeen(before, after) {
      KeptIsQuiet(before, after, wanted, natural, now);
    }
  }

  lemma QuietKeeps<V, N>(before: Table<V>, after: Table<V>, wanted: map<N, V>, natural: V -> N, now: int)
    requires UniqueNatural(before, natural)
    requires Reconciled(before, after, wanted, natural, now)
    requires Quiet(before, wanted, natural)
    ensures SameButSeen(before, after)
  {
    forall a | a in after
      ensures a in before && after[a].cols == before[a].cols && after[a].live == before[a].live
    {
      if Declared(before, after, wanted, natural, now, a) {
        var n := natural(after[a].cols);
        assert FateOf(before, natural, n, wanted[n]) == Kept;
        assert PkOf(before, natural, n) == a;
      } else {
        assert Retired(before, after, wanted, natural, a);
      }
    }
  }

  lemma KeptIsQuiet<V, N>(before: Table<V>, after: Table<V>, wanted: map<N, V>, natural: V -> N, now: int)
    requires UniqueNatural(before, natural)
    requires Reconciled(before, after, wanted, natural, now)
    requires SameButSeen(before, after)
    ensures Quiet(before, wanted, natural)
  {
    forall n | n in wanted
      ensures FateOf(before, natural, n, wanted[n]) == Kept
    {
      var a := PkOf(after, natural, n);
      LiveMeansDeclared(before, after, wanted, natural, now, a);
      assert PkOf(before, natural, n) == a;
    }
    forall a | a in before && before[a].live
      ensures natural(before[a].cols) in wanted
    {
      LiveMeansDeclared(before, after, wanted, natural, now, a);
    }
  }

  /** A second run with the same declarations finds nothing to do. */
  lemma SecondRunQuiet<V, N>(before: Table<V>, after: Table<V>, wanted: map<N, V>, natural: V -> N, now: int)
    requires Reconciled(before, after, wanted, natural, now)
    ensures Quiet(after, wanted, natural)
  {
    forall n | n in wanted
      ensures FateOf(after, natural, n, wanted[n]) == Kept
    {
      LiveMeansDeclared(before, after, wanted, natural, now, PkOf(after, natural, n));
    }
    forall a | a in after && after[a].live
      ensures natural(after[a].cols) in wanted
    {
      LiveMeansDeclared(before, after, wanted, natural, now, a);
    }
  }
}
