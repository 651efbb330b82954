/** Grant lookups remembered for the length of one unit of work. */
module Cache {
  import opened Outcomes
  import opened Grants

  /** A lookup, as the cache keys it. */
  datatype Question =
    | AskEndpoint(roles: seq<string>, key: string)
    | AskObjects(roles: seq<string>, key: string)
    | AskFields(roles: seq<string>, key: string)

  datatype Answer = Endpoint(granted: bool) | Objects(grants: seq<ObjectGrant>) | Fields(fieldGrants: seq<FieldGrant>)

  /** Whatever is asked on a miss; it may raise. */
  type Backing = Question -> Result<Answer>

  type Dict = map<Question, Answer>

  // ----- the mechanism

  /** The dictionary in force, if a scope is open, and what each open scope will put back. */
  class GrantCache {
    var current: Option<Dict>
    var tokens: seq<Option<Dict>>

    ghost predicate Valid()
      reads this
    {
      && (current.None? <==> tokens == [])
      && forall i | 0 <= i < |tokens| :: tokens[i].None? <==> i == 0
    }

    /** The dictionaries of the open scopes, innermost last. */
    ghost function Dicts(): (ds: seq<Dict>)
      requires Valid()
      reads this
      ensures |ds| == |tokens|
    {
      var now, back := current, tokens;
      if now.None? then [] else seq(|back|, i requires 0 <= i < |back| => DictOf(now, back, i))
    }

    constructor ()
      ensures Valid() && Dicts() == []
    {
      current, tokens := None, [];
    }

    method Open()
      requires Valid()
      modifies this
      ensures Valid() && Dicts() == old(Dicts()) + [map[]]
    {
      ghost var outer := Dicts();
      tokens := tokens + [current];
      current := Some(map[]);
      assert Dicts() == outer + [map[]];
    }

    /** Leaves a scope, normally or by an exception: the outer dictionary is back. */
    method Close()
      requires Valid() && Dicts() != []
      modifies this
      ensures Valid() && Dicts() == old(Dicts())[..|old(Dicts())| - 1]
    {
      ghost var all := Dicts();
      current := tokens[|tokens| - 1];
      tokens := tokens[..|tokens| - 1];
      assert Dicts() == all[..|all| - 1];
    }

    /** The remembered answer, or the backing's, remembered if a scope is open.  A lookup that raises leaves
        nothing behind. */
    method Cached(q: Question, produce: Backing) returns (r: Result<Answer>)
      requires Valid()
      modifies this
      ensures Valid() && Dicts() == Remembered(old(Dicts()), produce, q)
      ensures r == Reply(old(Dicts()), produce, q)
    {
      if current.None? {
        return produce(q);
      }
      ghost var all := Dicts();
      assert all[|all| - 1] == current.value;
      if q !in current.value {
        var made := produce(q);
        if made.Err? {
          return made;
        }
        current := Some(current.value[q := made.value]);
        assert Dicts() == Remembered(all, produce, q);
      }
      return Ok(current.value[q]);
    }
  }

  /** The dictionary of the scope opened `i`-th: the next token holds it, or it is the one in force. */
  ghost function DictOf(current: Option<Dict>, tokens: seq<Option<Dict>>, i: nat): Dict
    requires i < |tokens| && current.Some? && forall k | 0 < k < |tokens| :: tokens[k].Some?
  {
    if i == |tokens| - 1 then current.value else tokens[i + 1].value
  }

  function Reply(ds: seq<Dict>, produce: Backing, q: Question): Result<Answer> {
    if ds != [] && q in ds[|ds| - 1] then Ok(ds[|ds| - 1][q]) else produce(q)
  }

  function Remembered(ds: seq<Dict>, produce: Backing, q: Question): seq<Dict> {
    if ds == [] || q in ds[|ds| - 1] || produce(q).Err? then ds
    else ds[..|ds| - 1] + [ds[|ds| - 1][q := produce(q).value]]
  }

  // ----- runs

  datatype Step = Open | Close | Query(question: Question) | Change(backing: Backing)

  /** How many scopes are open before step `n`. */
  ghost function Depth(run: seq<Step>, n: nat): int
    requires n <= |run|
  {
    if n == 0 then 0
    else Depth(run, n - 1) + (match run[n - 1] case Open => 1 case Close => -1 case _ => 0)
  }

  /** Scopes are closed only once and only after they were opened, as a `with` block does. */
  ghost predicate WellNested(run: seq<Step>) {
    forall n: nat | n <= |run| :: 0 <= Depth(run, n)
  }

  ghost function BackingAt(run: seq<Step>, first: Backing, n: nat): Backing
    requires n <= |run|
  {
    if n == 0 then first
    else match run[n - 1] case Change(b) => b case _ => BackingAt(run, first, n - 1)
  }

  /** The step that last opened a scope at this depth; -1 if there is none. */
  ghost function OpenedAt(run: seq<Step>, n: nat, level: int): (o: int)
    requires n <= |run|
    ensures -1 <= o < n
  {
    if n == 0 then -1
    else if run[n - 1].Open? && Depth(run, n - 1) == level then n - 1
    else OpenedAt(run, n - 1, level)
  }

  /** Step `j` asked the question successfully, in the scope at this level that is open before step `n`: not
      in one nested in it, and not before it opened. */
  ghost predicate Answered(run: seq<Step>, first: Backing, n: nat, level: int, q: Question, j: nat)
    requires n <= |run|
  {
    && OpenedAt(run, n, level) < j < n && Depth(run, j) == level + 1
    && run[j] == Query(q) && BackingAt(run, first, j)(q).Ok?
  }

  ghost predicate FirstAnswered(run: seq<Step>, first: Backing, n: nat, level: int, q: Question, j: nat)
    requires n <= |run|
  {
    Answered(run, first, n, level, q, j) && forall i: nat | i < j :: !Answered(run, first, n, level, q, i)
  }

  ghost predicate AnyAnswered(run: seq<Step>, first: Backing, n: nat, level: int, q: Question)
    requires n <= |run|
  {
    exists j: nat :: Answered(run, first, n, level, q, j)
  }

  /** What a query must answer, told from the history alone: outside a scope, what is stored now; inside one,
      what was stored at the first such query since the innermost scope opened. */
  ghost predicate Reference(run: seq<Step>, first: Backing, n: nat, r: Result<Answer>)
    requires n < |run| && run[n].Query?
  {
    var q, d := run[n].question, Depth(run, n);
    if d > 0 && AnyAnswered(run, first, n, d - 1, q)
    then exists j: nat :: FirstAnswered(run, first, n, d - 1, q, j) && r == BackingAt(run, first, j)(q)
    else r == BackingAt(run, first, n)(q)
  }

  // ----- the refinement

  /** One dictionary remembers exactly the questions answered in its scope, with their first answers. */
  ghost predicate LevelInv(run: seq<Step>, first: Backing, n: nat, level: int, dict: Dict)
    requires n <= |run|
  {
    && (forall q :: q in dict <==> AnyAnswered(run, first, n, level, q))
    && (forall q, j: nat | FirstAnswered(run, first, n, level, q, j) ::
      q in dict && Ok(dict[q]) == BackingAt(run, first, j)(q))
  }

  ghost predicate StackInv(run: seq<Step>, first: Backing, n: nat, ds: seq<Dict>)
    requires n <= |run|
  {
    |ds| == Depth(run, n) && forall l | 0 <= l < |ds| :: LevelInv(run, first, n, l, ds[l])
  }

  lemma {:induction false} SomeFirst(run: seq<Step>, first: Backing, n: nat, level: int, q: Question, j: nat)
    returns (k: nat)
    requires n <= |run| && Answered(run, first, n, level, q, j)
    ensures FirstAnswered(run, first, n, level, q, k)
  {
    hide Answered;
    if i: nat :| i < j && Answered(run, first, n, level, q, i) {
      k := SomeFirst(run, first, n, level, q, i);
    } else {
      k := j;
    }
  }

  /** A step that is not an answered query in a scope, nor opens it anew, leaves what it remembers alone. */
  lemma LevelKept(run: seq<Step>, first: Backing, n: nat, level: int, dict: Dict)
    requires n < |run| && LevelInv(run, first, n, level, dict)
    requires run[n].Open? ==> Depth(run, n) != level
    requires run[n].Query? ==> Depth(run, n) != level + 1 || BackingAt(run, first, n)(run[n].question).Err?
    ensures LevelInv(run, first, n + 1, level, dict)
  {
    forall q, j: nat
      ensures Answered(run, first, n + 1, level, q, j) <==> Answered(run, first, n, level, q, j)
    {
    }
    SameAnswers(run, first, n, n + 1, level, dict);
  }

  lemma SameAnswers(run: seq<Step>, first: Backing, n: nat, m: nat, level: int, dict: Dict)
    requires n < |run| && m == n + 1 && LevelInv(run, first, n, level, dict)
    requires forall q, j: nat :: Answered(run, first, m, level, q, j) <==> Answered(run, first, n, level, q, j)
    ensures LevelInv(run, first, m, level, dict)
  {
    hide Answered;
    forall q
      ensures AnyAnswered(run, first, m, level, q) <==> AnyAnswered(run, first, n, level, q)
    {
      if j: nat :| Answered(run, first, n, level, q, j) {
        assert Answered(run, first, m, level, q, j);
      }
    }
    forall q, j: nat
      ensures FirstAnswered(run, first, m, level, q, j) <==> FirstAnswered(run, first, n, level, q, j)
    {
    }
  }

  lemma LevelOpened(run: seq<Step>, first: Backing, n: nat)
    requires n < |run| && run[n].Open?
    ensures LevelInv(run, first, n + 1, Depth(run, n), map[])
  {
    var m, level := n + 1, Depth(run, n);
    forall q, j: nat
      ensures !Answered(run, first, m, level, q, j)
    {
    }
  }

  /** A question asked again in its scope changes nothing; a new one is remembered with today's answer. */
  lemma LevelAsked(run: seq<Step>, first: Backing, n: nat, level: int, dict: Dict)
    requires n < |run| && run[n].Query? && Depth(run, n) == level + 1
    requires LevelInv(run, first, n, level, dict)
    requires BackingAt(run, first, n)(run[n].question).Ok?
    ensures var q := run[n].question;
      LevelInv(run, first, n + 1, level, if q in dict then dict else dict[q := BackingAt(run, first, n)(q).value])
  {
    hide Answered, Depth, OpenedAt;
    var q := run[n].question;
    forall x, j: nat
      ensures Answered(run, first, n + 1, level, x, j) <==> Answered(run, first, n, level, x, j) || (x == q && j == n)
    {
      AnsweredStep(run, first, n, level, x, j);
    }
    Extended(run, first, n, n + 1, level, dict,
      if q in dict then dict else dict[q := BackingAt(run, first, n)(q).value]);
  }

  lemma AnsweredStep(run: seq<Step>, first: Backing, n: nat, level: int, x: Question, j: nat)
    requires n < |run| && run[n].Query? && Depth(run, n) == level + 1 && BackingAt(run, first, n)(run[n].question).Ok?
    ensures Answered(run, first, n + 1, level, x, j) <==>
      Answered(run, first, n, level, x, j) || (x == run[n].question && j == n)
  {
    assert OpenedAt(run, n + 1, level) == OpenedAt(run, n, level) < n;
  }

  lemma Extended(run: seq<Step>, first: Backing, n: nat, m: nat, level: int, dict: Dict, after: Dict)
    requires n < |run| && m == n + 1 && run[n].Query? && LevelInv(run, first, n, level, dict)
    requires BackingAt(run, first, n)(run[n].question).Ok?
    requires after ==
      if run[n].question in dict then dict
      else dict[run[n].question := BackingAt(run, first, n)(run[n].question).value]
    requires forall q, j: nat ::
      Answered(run, first, m, level, q, j) <==> Answered(run, first, n, level, q, j) || (q == run[n].question && j == n)
    ensures LevelInv(run, first, m, level, after)
  {
    var asked := run[n].question;
    forall q, j: nat
      ensures Answered(run, first, n, level, q, j) ==> j < n
    {
    }
    hide Answered;
    assert Answered(run, first, m, level, asked, n);
    forall q
      ensures q in after <==> AnyAnswered(run, first, m, level, q)
    {
      if j: nat :| Answered(run, first, n, level, q, j) {
        assert Answered(run, first, m, level, q, j);
      }
    }
    forall q, j: nat | FirstAnswered(run, first, m, level, q, j)
      ensures q in after && Ok(after[q]) == BackingAt(run, first, j)(q)
    {
      if Answered(run, first, n, level, q, j) {
        assert FirstAnswered(run, first, n, level, q, j);
      } else {
        assert q == asked && j == n;
        assert forall i: nat :: Answered(run, first, n, level, q, i) ==> Answered(run, first, m, level, q, i);
      }
    }
  }

  lemma StepKeepsInv(run: seq<Step>, first: Backing, n: nat, ds: seq<Dict>)
    requires WellNested(run) && n < |run| && StackInv(run, first, n, ds)
    ensures run[n].Open? ==> StackInv(run, first, n + 1, ds + [map[]])
    ensures run[n].Close? ==> ds != [] && StackInv(run, first, n + 1, ds[..|ds| - 1])
    ensures run[n].Query? ==> StackInv(run, first, n + 1, Remembered(ds, BackingAt(run, first, n), run[n].question))
    ensures run[n].Change? ==> StackInv(run, first, n + 1, ds)
  {
    hide LevelInv;
    assert 0 <= Depth(run, n + 1);
    match run[n]
    case Open =>
      forall l | 0 <= l < |ds| ensures LevelInv(run, first, n + 1, l, ds[l]) { LevelKept(run, first, n, l, ds[l]); }
      LevelOpened(run, first, n);
    case Close =>
      forall l | 0 <= l < |ds| - 1 ensures LevelInv(run, first, n + 1, l, ds[l]) { LevelKept(run, first, n, l, ds[l]); }
    case Change(_) =>
      forall l | 0 <= l < |ds| ensures LevelInv(run, first, n + 1, l, ds[l]) { LevelKept(run, first, n, l, ds[l]); }
    case Query(q) =>
      QueryKeepsInv(run, first, n, ds, q);
  }

  lemma QueryKeepsInv(run: seq<Step>, first: Backing, n: nat, ds: seq<Dict>, q: Question)
    requires n < |run| && run[n] == Query(q) && StackInv(run, first, n, ds)
    ensures StackInv(run, first, n + 1, Remembered(ds, BackingAt(run, first, n), q))
  {
    hide LevelInv;
    var now := BackingAt(run, first, n)(q);
    var after := Remembered(ds, BackingAt(run, first, n), q);
    forall l | 0 <= l < |ds|
      ensures LevelInv(run, first, n + 1, l, after[l])
    {
      if l == |ds| - 1 && now.Ok? {
        LevelAsked(run, first, n, l, ds[l]);
      } else {
        LevelKept(run, first, n, l, ds[l]);
      }
    }
  }

  lemma ReplyIsReference(run: seq<Step>, first: Backing, n: nat, ds: seq<Dict>)
    requires n < |run| && run[n].Query? && StackInv(run, first, n, ds)
    ensures Reference(run, first, n, Reply(ds, BackingAt(run, first, n), run[n].question))
  {
    hide Answered, Depth, BackingAt;
    var q, level := run[n].question, Depth(run, n) - 1;
    if 0 <= level {
      assert LevelInv(run, first, n, level, ds[level]);
      if j: nat :| Answered(run, first, n, level, q, j) {
        var k := SomeFirst(run, first, n, level, q, j);
      }
    }
  }

  /** The first `n` steps of a run have been answered, each as the history demands. */
  ghost predicate Served(run: seq<Step>, first: Backing, n: nat, replies: map<nat, Result<Answer>>)
    requires n <= |run|
  {
    && (forall i: nat :: i in replies <==> i < n && run[i].Query?)
    && (forall i: nat | i < n && run[i].Query? :: Reference(run, first, i, replies[i]))
  }

  lemma ServedNext(run: seq<Step>, first: Backing, n: nat, replies: map<nat, Result<Answer>>, r: Result<Answer>)
    requires n < |run| && Served(run, first, n, replies)
    requires run[n].Query? ==> Reference(run, first, n, r)
    ensures Served(run, first, n + 1, if run[n].Query? then replies[n := r] else replies)
  {
    hide Reference;
  }

  /** Every run of opening, closing, asking and changing what is stored: each query answers what the history
      says it must. */
  method Serve(run: seq<Step>, first: Backing) returns (replies: map<nat, Result<Answer>>)
    requires WellNested(run)
    ensures forall n: nat :: n in replies <==> n < |run| && run[n].Query?
    ensures forall n: nat | n < |run| && run[n].Query? :: Reference(run, first, n, replies[n])
  {
    var cache := new GrantCache();
    var backing := first;
    replies := map[];
    for n := 0 to |run|
      invariant cache.Valid() && fresh(cache) && StackInv(run, first, n, cache.Dicts())
      invariant backing == BackingAt(run, first, n)
      invariant Served(run, first, n, replies)
    {
      hide Served, StackInv, Reference, WellNested, Depth, Reply, Remembered;
      StepKeepsInv(run, first, n, cache.Dicts());
      if run[n].Query? {
        ReplyIsReference(run, first, n, cache.Dicts());
      }
      var r;
      backing, r := Perform(cache, run[n], backing);
      ServedNext(run, first, n, replies, r);
      if run[n].Query? {
        replies := replies[n := r];
      }
    }
  }

  method Perform(cache: GrantCache, step: Step, backing: Backing) returns (backing': Backing, r: Result<Answer>)
    requires cache.Valid() && (step.Close? ==> cache.Dicts() != [])
    modifies cache
    ensures cache.Valid() && cache.Dicts() == Performed(old(cache.Dicts()), step, backing)
    ensures backing' == if step.Change? then step.backing else backing
    ensures step.Query? ==> r == Reply(old(cache.Dicts()), backing, step.question)
  {
    backing', r := backing, Err(Other);
    match step {
      case Open => cache.Open();
      case Close => cache.Close();
      case Query(q) => r := cache.Cached(q, backing);
      case Change(b) => backing' := b;
    }
  }

  ghost function Performed(ds: seq<Dict>, step: Step, backing: Backing): seq<Dict>
    requires step.Close? ==> ds != []
  {
    match step
    case Open => ds + [map[]]
    case Close => ds[..|ds| - 1]
    case Query(q) => Remembered(ds, backing, q)
    case Change(_) => ds
  }

  /** A whole scope: opened by the first step, closed by the last, open in between. */
  ghost predicate Encloses(run: seq<Step>) {
    run != [] && run[0].Open? && Depth(run, |run|) == 0 && forall n: nat | 0 < n < |run| :: 1 <= Depth(run, n)
  }

  /** Whatever a nested unit of work asks, opens or changes, afterwards every outer dictionary is as it was. */
  method ServeNested(cache: GrantCache, run: seq<Step>, first: Backing)
    requires cache.Valid() && Encloses(run)
    modifies cache
    ensures cache.Valid() && cache.Dicts() == old(cache.Dicts())
  {
    var backing := first;
    ghost var outer := cache.Dicts();
    for n := 0 to |run|
      invariant cache.Valid() && |cache.Dicts()| == |outer| + Depth(run, n) && cache.Dicts()[..|outer|] == outer
    {
      assert 0 < n ==> 1 <= Depth(run, n);
      assert n + 1 < |run| ==> 1 <= Depth(run, n + 1);
      PerformedAbove(outer, cache.Dicts(), run[n], backing);
      var r;
      backing, r := Perform(cache, run[n], backing);
    }
  }

  lemma PerformedAbove(outer: seq<Dict>, ds: seq<Dict>, step: Step, backing: Backing)
    requires |outer| <= |ds| && ds[..|outer|] == outer
    requires step.Open? || |outer| < |ds| || step.Change?
    ensures |outer| <= |Performed(ds, step, backing)| && Performed(ds, step, backing)[..|outer|] == outer
  {
    var after := Performed(ds, step, backing);
    assert forall i | 0 <= i < |outer| :: after[i] == ds[i];
  }

  /** While what is stored does not change between the opening of the innermost scope and a query, the answer
      is the uncached one. */
  lemma {:induction false} FixedBackingIsFresh(run: seq<Step>, first: Backing, n: nat, r: Result<Answer>)
    requires n < |run| && run[n].Query? && Reference(run, first, n, r)
    requires forall k | OpenedAt(run, n, Depth(run, n) - 1) < k < n :: !run[k].Change?
    ensures r == BackingAt(run, first, n)(run[n].question)
  {
    var q, d := run[n].question, Depth(run, n);
    if d > 0 && AnyAnswered(run, first, n, d - 1, q) {
      var j: nat :| FirstAnswered(run, first, n, d - 1, q, j) && r == BackingAt(run, first, j)(q);
      SameBacking(run, first, j, n);
    }
  }

  lemma {:induction false} SameBacking(run: seq<Step>, first: Backing, j: nat, n: nat)
    requires j <= n <= |run| && forall k | j <= k < n :: !run[k].Change?
    ensures BackingAt(run, first, j) == BackingAt(run, first, n)
  {
    if j < n {
      SameBacking(run, first, j, n - 1);
    }
  }
}
