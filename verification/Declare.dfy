/** Declaring a permission site, proving at run time that it applied its filters, and what that does not prove. */
module Declare {
  import opened Outcomes
  import opened Values
  import opened Base
  import opened Resolver
  import opened Denotation
  import opened Access

  // ----- programs

  /** What selectors do with the one query they have in hand: start a new one, apply their filters to it, call
      decorated selectors and take, or do not take, the query those return; and raise and catch.  A call without
      the actor argument has no actor. */
  datatype Code =
    | Skip
    | Start
    | Then(first: Code, rest: Code)
    | Apply(explicit: Option<User>)
    | Call(key: string, actor: Option<User>, body: Code, taken: bool)
    | Raise(error: Error)
    | Try(body: Code, handler: Code)

  /** A resolved scope put on a query, and whose it is. */
  datatype Narrowing = Narrowing(key: string, user: User, scope: Scope)

  /** A query: the scopes it had when a call returned it, and those put on it here. */
  datatype Query = Query(inherited: seq<Narrowing>, own: seq<Narrowing>) {
    function All(): seq<Narrowing> {
      inherited + own
    }
  }

  const UNFILTERED := Query([], [])

  /** What happened, nested as the calls were. */
  datatype Event =
    | Started
    | Narrowed(key: string, user: User, ok: bool)
    | Called(site: string, inner: seq<Event>, returned: bool, taken: bool)

  datatype Ran = Ran(out: Result<()>, log: seq<Event>, query: Query)

  type Scopes = (User, string) -> Result<Scope>

  // ----- the meaning of a program, by where it is written

  /** The innermost call around a piece of code. */
  datatype Site = Nowhere | At(key: string, actor: User)

  ghost predicate Narrows(log: seq<Event>) {
    exists e :: e in log && e.Narrowed?
  }

  /** What one apply does: the query it returns is a new one. */
  ghost function Applied(scopes: Scopes, explicit: Option<User>, site: Site, q: Query): Ran {
    if site.Nowhere? then Ran(Err(NotASite), [], q)
    else
      var user := explicit.GetOr(site.actor);
      var scope := scopes(user, site.key);
      if scope.Err? then Ran(Err(scope.error), [Narrowed(site.key, user, false)], q)
      else
        var put := Narrowing(site.key, user, scope.value);
        Ran(Ok(()), [Narrowed(site.key, user, true)], q.(own := q.own + [put]))
  }

  /** What a program does when each apply uses the call written around it. */
  ghost function Meaning(scopes: Scopes, code: Code, site: Site, q: Query): Ran {
    match code
    case Skip => Ran(Ok(()), [], q)
    case Start => Ran(Ok(()), [Started], UNFILTERED)
    case Raise(e) => Ran(Err(e), [], q)
    case Then(a, b) =>
      var r := Meaning(scopes, a, site, q);
      if r.out.Err? then r
      else var s := Meaning(scopes, b, site, r.query); Ran(s.out, r.log + s.log, s.query)
    case Try(body, handler) =>
      var r := Meaning(scopes, body, site, q);
      if r.out.Ok? then r
      else var s := Meaning(scopes, handler, site, r.query); Ran(s.out, r.log + s.log, s.query)
    case Apply(explicit) => Applied(scopes, explicit, site, q)
    case Call(key, actor, body, taken) =>
      if actor.None? then Ran(Err(Other), [], q)
      else
        var r := Meaning(scopes, body, At(key, actor.value), UNFILTERED);
        var out := if r.out.Ok? && !Narrows(r.log) then Err(NeverApplied(key)) else r.out;
        Ran(out, [Called(key, r.log, out.Ok?, taken)], if out.Ok? && taken then Query(r.query.All(), []) else q)
  }

  // ----- the mechanism: one variable holding a shared record

  /** The record a site puts in force; whoever applies flips its flag. */
  class Pending {
    const key: string
    const actor: User
    var applied: bool

    constructor (key: string, actor: User)
      ensures this.key == key && this.actor == actor && !applied
    {
      this.key, this.actor, applied := key, actor, false;
    }
  }

  /** The variable the decorator and `apply_permissions` share. */
  class Current {
    var pending: Pending?

    constructor ()
      ensures pending == null
    {
      pending := null;
    }
  }

  ghost function SiteOf(p: Pending?): Site {
    if p == null then Nowhere else At(p.key, p.actor)
  }

  /** Flips the flag of the record in force, then resolves. */
  method ApplyPermissions(current: Current, scopes: Scopes, explicit: Option<User>, q: Query)
    returns (out: Result<()>, ghost log: seq<Event>, q': Query)
    modifies current.pending
    ensures Ran(out, log, q') == Applied(scopes, explicit, SiteOf(current.pending), q)
    ensures current.pending != null ==> current.pending.applied
  {
    q' := q;
    if current.pending == null {
      return Err(NotASite), [], q';
    }
    current.pending.applied := true;
    var user := explicit.GetOr(current.pending.actor);
    var scope := scopes(user, current.pending.key);
    log := [Narrowed(current.pending.key, user, scope.Ok?)];
    if scope.Err? {
      return Err(scope.error), log, q';
    }
    q' := q.(own := q.own + [Narrowing(current.pending.key, user, scope.value)]);
    out := Ok(());
  }

  /** Running any program through the shared variable is running it by its meaning: every apply uses the key
      of the call around it, however many calls were entered and left by exceptions before; the variable is
      restored on every exit, and the flag says whether this very extent applied. */
  method Execute(current: Current, scopes: Scopes, code: Code, q: Query)
    returns (out: Result<()>, ghost log: seq<Event>, q': Query)
    modifies current, current.pending
    ensures current.pending == old(current.pending)
    ensures Ran(out, log, q') == Meaning(scopes, code, SiteOf(current.pending), q)
    ensures current.pending != null ==> current.pending.applied == (old(current.pending.applied) || Narrows(log))
    decreases code
  {
    match code {
      case Skip => return Ok(()), [], q;
      case Start => return Ok(()), [Started], UNFILTERED;
      case Raise(e) => return Err(e), [], q;
      case Then(a, b) =>
        out, log, q' := Execute(current, scopes, a, q);
        if out.Ok? {
          ghost var before := log;
          ghost var more;
          out, more, q' := Execute(current, scopes, b, q');
          log := before + more;
        }
      case Try(body, handler) =>
        out, log, q' := Execute(current, scopes, body, q);
        if out.Err? {
          ghost var before := log;
          ghost var more;
          out, more, q' := Execute(current, scopes, handler, q');
          log := before + more;
        }
      case Apply(explicit) =>
        out, log, q' := ApplyPermissions(current, scopes, explicit, q);
        assert current.pending != null ==> log[0].Narrowed?;
      case Call(key, actor, body, taken) =>
        if actor.None? {
          return Err(Other), [], q;
        }
        var token := current.pending;
        ghost var flag := token != null && token.applied;
        current.pending := new Pending(key, actor.value);
        ghost var inner;
        var returned;
        out, inner, returned := Execute(current, scopes, body, UNFILTERED);
        if out.Ok? && !current.pending.applied {
          out := Err(NeverApplied(key));
        }
        assert out.Ok? ==> Narrows(inner);
        current.pending := token;
        q' := if out.Ok? && taken then Query(returned.All(), []) else q;
        log := [Called(key, inner, out.Ok?, taken)];
        assert !log[0].Narrowed?;
    }
  }

  // ----- declared means applied

  /** In this log every narrowing used the key of the call it happened in, and every call that returned
      normally narrowed in its own extent, not merely inside a call it made. */
  ghost predicate Honest(log: seq<Event>, site: Option<string>) {
    forall e | e in log ::
      match e
      case Started => true
      case Narrowed(key, _, _) => site == Some(key)
      case Called(key, inner, returned, _) => Honest(inner, Some(key)) && (returned ==> Narrows(inner))
  }

  function KeyOf(site: Site): Option<string> {
    if site.Nowhere? then None else Some(site.key)
  }

  /** For every program: declared means applied. */
  lemma {:induction false} DeclaredMeansApplied(scopes: Scopes, code: Code, site: Site, q: Query)
    ensures Honest(Meaning(scopes, code, site, q).log, KeyOf(site))
  {
    match code
    case Then(a, b) =>
      DeclaredMeansApplied(scopes, a, site, q);
      DeclaredMeansApplied(scopes, b, site, Meaning(scopes, a, site, q).query);
    case Try(body, handler) =>
      DeclaredMeansApplied(scopes, body, site, q);
      DeclaredMeansApplied(scopes, handler, site, Meaning(scopes, body, site, q).query);
    case Call(key, actor, body, _) =>
      if actor.Some? {
        DeclaredMeansApplied(scopes, body, At(key, actor.value), UNFILTERED);
      }
    case _ =>
  }

  /** What a site does, run as the caller of its decorated function sees it. */
  ghost function Inside(scopes: Scopes, key: string, actor: User, body: Code): Ran {
    Meaning(scopes, body, At(key, actor), UNFILTERED)
  }

  ghost predicate Returns(scopes: Scopes, key: string, actor: User, body: Code) {
    Meaning(scopes, Call(key, Some(actor), body, true), Nowhere, UNFILTERED).out.Ok?
  }

  /** A call, wherever it is written, returns normally exactly when its body did and an apply ran in its own
      extent; its caller then has the query the body had in hand. */
  lemma CallReturns(scopes: Scopes, key: string, actor: User, body: Code, site: Site, q: Query)
    ensures var inner := Inside(scopes, key, actor, body);
      var outer := Meaning(scopes, Call(key, Some(actor), body, true), site, q);
      && (outer.out.Ok? <==> inner.out.Ok? && Narrows(inner.log))
      && (outer.out.Ok? <==> Returns(scopes, key, actor, body))
      && (inner.out.Err? ==> outer.out == inner.out)
      && (inner.out.Ok? && !Narrows(inner.log) ==> outer.out == Err(NeverApplied(key)))
      && outer.query.All() == if outer.out.Ok? then inner.query.All() else q.All()
  {
  }

  /** Applying filters outside any site, and calling a site without an actor, raise and touch no query; so does an
      apply for someone whose scope does not resolve, with that error. */
  lemma RaisesUntouched(scopes: Scopes, explicit: Option<User>, key: string, body: Code, taken: bool, site: Site,
                        q: Query)
    ensures Meaning(scopes, Apply(explicit), Nowhere, q) == Ran(Err(NotASite), [], q)
    ensures var called := Meaning(scopes, Call(key, None, body, taken), site, q);
      called.out.Err? && called.log == [] && called.query == q
    ensures site.At? ==>
      var user, applied := explicit.GetOr(site.actor), Meaning(scopes, Apply(explicit), site, q);
      && (applied.out.Ok? <==> scopes(user, site.key).Ok?)
      && (applied.out.Err? ==> applied.out.error == scopes(user, site.key).error && applied.query == q)
  {
  }

  // ----- applied is not yet narrowed

  /** Everyone an apply of this extent may resolve for: the site's actor, or one the apply names. */
  ghost function Applicants(code: Code, actor: User): set<User> {
    match code
    case Apply(explicit) => {explicit.GetOr(actor)}
    case Then(a, b) => Applicants(a, actor) + Applicants(b, actor)
    case Try(body, handler) => Applicants(body, actor) + Applicants(handler, actor)
    case _ => {}
  }

  ghost predicate AllResolve(scopes: Scopes, key: string, users: set<User>) {
    forall u | u in users :: scopes(u, key).Ok?
  }

  ghost predicate SomeResolves(scopes: Scopes, key: string, users: set<User>) {
    exists u :: u in users && scopes(u, key).Ok?
  }

  /** The query in hand is another one after this: a new one, or one taken from a call. */
  ghost predicate Replaces(e: Event) {
    e.Started? || (e.Called? && e.returned && e.taken)
  }

  /** A narrowing that went through and that nothing has replaced since. */
  ghost predicate Survives(log: seq<Event>, i: nat) {
    && i < |log| && log[i].Narrowed? && log[i].ok
    && forall j | i < j < |log| :: !Replaces(log[j])
  }

  ghost predicate Surviving(log: seq<Event>) {
    exists i: nat :: Survives(log, i)
  }

  ghost predicate Untouched(log: seq<Event>) {
    forall e | e in log :: !Replaces(e)
  }

  lemma SurvivingConcat(a: seq<Event>, b: seq<Event>)
    ensures Surviving(a + b) <==> Surviving(b) || (Surviving(a) && Untouched(b))
    ensures Untouched(a + b) <==> Untouched(a) && Untouched(b)
  {
    var log := a + b;
    forall e
      ensures e in log <==> e in a || e in b
    {
    }
    hide Replaces;
    if i: nat :| Survives(log, i) {
      if i < |a| {
        assert forall j | i < j < |a| :: log[j] == a[j];
        assert Survives(a, i);
        forall e | e in b
          ensures !Replaces(e)
        {
          var j :| 0 <= j < |b| && b[j] == e;
          assert log[|a| + j] == e;
        }
      } else {
        assert forall j | i - |a| < j < |b| :: log[|a| + j] == b[j];
        assert Survives(b, i - |a|);
      }
    }
    if i: nat :| Survives(b, i) {
      assert forall j | |a| + i < j < |log| :: log[j] == b[j - |a|];
      assert Survives(log, |a| + i);
    }
    if Surviving(a) && Untouched(b) {
      var i: nat :| Survives(a, i);
      assert forall j | |a| <= j < |log| :: log[j] == b[j - |a|] && log[j] in b;
      assert Survives(log, i);
    }
  }

  /** The query in hand bears a scope of this extent exactly when some narrowing went through and nothing has
      replaced the query since. */
  lemma {:induction false} OwnExactly(scopes: Scopes, code: Code, site: Site, q: Query)
    ensures var r := Meaning(scopes, code, site, q);
      r.query.own != [] <==> Surviving(r.log) || (q.own != [] && Untouched(r.log))
    decreases code
  {
    match code
    case Then(a, b) =>
      var r := Meaning(scopes, a, site, q);
      OwnExactly(scopes, a, site, q);
      if r.out.Ok? {
        OwnExactly(scopes, b, site, r.query);
        SurvivingConcat(r.log, Meaning(scopes, b, site, r.query).log);
      }
    case Try(body, handler) =>
      var r := Meaning(scopes, body, site, q);
      OwnExactly(scopes, body, site, q);
      if r.out.Err? {
        OwnExactly(scopes, handler, site, r.query);
        SurvivingConcat(r.log, Meaning(scopes, handler, site, r.query).log);
      }
    case Apply(explicit) =>
      OneEvent(Applied(scopes, explicit, site, q));
    case Start =>
      OneEvent(Meaning(scopes, code, site, q));
    case Call(_, _, _, _) =>
      hide Narrows;
      OneEvent(Meaning(scopes, code, site, q));
    case _ =>
  }

  lemma OneEvent(r: Ran)
    ensures |r.log| == 1 ==> (Surviving(r.log) <==> r.log[0].Narrowed? && r.log[0].ok)
    ensures |r.log| == 1 ==> (Untouched(r.log) <==> !Replaces(r.log[0]))
    ensures r.log == [] ==> !Surviving(r.log) && Untouched(r.log)
  {
    if |r.log| == 1 && r.log[0].Narrowed? && r.log[0].ok {
      assert Survives(r.log, 0);
    }
  }

  ghost predicate Stems(scopes: Scopes, code: Code, site: Site, n: Narrowing)
    requires site.At?
  {
    n.key == site.key && n.user in Applicants(code, site.actor) && scopes(n.user, n.key) == Ok(n.scope)
  }

  /** Each scope of this extent is the one of someone its applies name, under its own key. */
  lemma {:induction false} OwnOfApplicants(scopes: Scopes, code: Code, site: Site, q: Query)
    requires site.At?
    ensures forall n | n in Meaning(scopes, code, site, q).query.own :: n in q.own || Stems(scopes, code, site, n)
    decreases code
  {
    match code
    case Then(a, b) =>
      OwnOfApplicants(scopes, a, site, q);
      OwnOfApplicants(scopes, b, site, Meaning(scopes, a, site, q).query);
    case Try(body, handler) =>
      OwnOfApplicants(scopes, body, site, q);
      OwnOfApplicants(scopes, handler, site, Meaning(scopes, body, site, q).query);
    case _ =>
  }

  lemma {:induction false} NarrowingsOfApplicants(scopes: Scopes, code: Code, site: Site, q: Query)
    requires site.At?
    ensures forall e | e in Meaning(scopes, code, site, q).log && e.Narrowed? ::
      e.user in Applicants(code, site.actor) && e.ok == scopes(e.user, site.key).Ok?
    decreases code
  {
    match code
    case Then(a, b) =>
      NarrowingsOfApplicants(scopes, a, site, q);
      NarrowingsOfApplicants(scopes, b, site, Meaning(scopes, a, site, q).query);
    case Try(body, handler) =>
      NarrowingsOfApplicants(scopes, body, site, q);
      NarrowingsOfApplicants(scopes, handler, site, Meaning(scopes, body, site, q).query);
    case _ =>
  }

  // ----- selectors that keep what they narrowed

  /** Somewhere in this extent the query in hand is replaced. */
  predicate Restarts(code: Code) {
    match code
    case Start => true
    case Call(_, _, _, taken) => taken
    case Then(a, b) => Restarts(a) || Restarts(b)
    case Try(body, handler) => Restarts(body) || Restarts(handler)
    case _ => false
  }

  predicate Applies(code: Code) {
    match code
    case Apply(_) => true
    case Then(a, b) => Applies(a) || Applies(b)
    case Try(body, handler) => Applies(body) || Applies(handler)
    case _ => false
  }

  /** Nothing written after an apply replaces the query. */
  predicate Tidy(code: Code) {
    match code
    case Then(a, b) => Tidy(a) && Tidy(b) && !(Applies(a) && Restarts(b))
    case Try(body, handler) => Tidy(body) && Tidy(handler) && !(Applies(body) && Restarts(handler))
    case _ => true
  }

  /** In this log nothing replaces the query after a narrowing. */
  ghost predicate Settles(log: seq<Event>) {
    forall i, j | 0 <= i < j < |log| && log[i].Narrowed? :: !Replaces(log[j])
  }

  lemma {:induction false} TidySettles(scopes: Scopes, code: Code, site: Site, q: Query)
    ensures var log := Meaning(scopes, code, site, q).log;
      && (!Restarts(code) ==> Untouched(log))
      && (!Applies(code) ==> !Narrows(log))
      && (Tidy(code) ==> Settles(log))
    decreases code
  {
    match code
    case Then(a, b) =>
      var r := Meaning(scopes, a, site, q);
      TidySettles(scopes, a, site, q);
      TidySettles(scopes, b, site, r.query);
      SettlesConcat(r.log, Meaning(scopes, b, site, r.query).log);
    case Try(body, handler) =>
      var r := Meaning(scopes, body, site, q);
      TidySettles(scopes, body, site, q);
      TidySettles(scopes, handler, site, r.query);
      SettlesConcat(r.log, Meaning(scopes, handler, site, r.query).log);
    case Call(_, _, _, _) =>
      hide Narrows;
      assert !Narrows([]);
    case _ =>
  }

  lemma SettlesConcat(a: seq<Event>, b: seq<Event>)
    ensures Untouched(a + b) <==> Untouched(a) && Untouched(b)
    ensures Narrows(a + b) <==> Narrows(a) || Narrows(b)
    ensures Settles(a) && Settles(b) && !(Narrows(a) && !Untouched(b)) ==> Settles(a + b)
  {
    SurvivingConcat(a, b);
    assert forall e :: e in a + b <==> e in a || e in b;
  }

  /** In such a log one successful narrowing is enough. */
  lemma SettledSurvives(log: seq<Event>)
    requires Settles(log)
    ensures Surviving(log) <==> exists e :: e in log && e.Narrowed? && e.ok
  {
    if e :| e in log && e.Narrowed? && e.ok {
      var i: nat :| i < |log| && log[i] == e;
      assert Survives(log, i);
    }
  }

  // ----- what a caller can rely on

  /** The flag is set before the scope is resolved, and it says nothing about which query is returned.  So a site
      that returned normally need not return a query bearing a scope of its own: it does exactly when one of its
      narrowings went through and it did not replace the query after.  Told before the call, for a body that
      writes nothing that replaces the query after an apply: it does if everyone its applies may resolve for
      resolves, and, for any body, only if someone does. */
  lemma NarrowedExactly(scopes: Scopes, key: string, actor: User, body: Code)
    requires Returns(scopes, key, actor, body)
    ensures var r, users := Inside(scopes, key, actor, body), Applicants(body, actor);
      && (r.query.own != [] <==> Surviving(r.log))
      && (r.query.own != [] ==> SomeResolves(scopes, key, users))
      && (Tidy(body) && AllResolve(scopes, key, users) ==> r.query.own != [])
      && (Tidy(body) && AllResolve(scopes, key, users) == SomeResolves(scopes, key, users) ==>
            (r.query.own != [] <==> SomeResolves(scopes, key, users)))
  {
    var r := Inside(scopes, key, actor, body);
    OwnExactly(scopes, body, At(key, actor), UNFILTERED);
    OwnOfApplicants(scopes, body, At(key, actor), UNFILTERED);
    NarrowingsOfApplicants(scopes, body, At(key, actor), UNFILTERED);
    if r.query.own != [] {
      assert r.query.own[0] in r.query.own;
    }
    if Tidy(body) {
      TidySettles(scopes, body, At(key, actor), UNFILTERED);
      SettledSurvives(r.log);
      assert Narrows(r.log);
    }
  }

  predicate Catches(code: Code) {
    match code
    case Try(_, _) => true
    case Then(a, b) => Catches(a) || Catches(b)
    case _ => false
  }

  /** Read from the end, an apply is written before anything that replaces the query. */
  predicate EndsApplied(code: Code) {
    match code
    case Apply(_) => true
    case Then(a, b) => EndsApplied(b) || (EndsApplied(a) && !Restarts(b))
    case _ => false
  }

  lemma {:induction false} UncaughtOwn(scopes: Scopes, code: Code, site: Site, q: Query)
    requires !Catches(code) && Meaning(scopes, code, site, q).out.Ok?
    ensures Meaning(scopes, code, site, q).query.own != [] <==>
      EndsApplied(code) || (q.own != [] && !Restarts(code))
    decreases code
  {
    match code
    case Then(a, b) =>
      UncaughtOwn(scopes, a, site, q);
      UncaughtOwn(scopes, b, site, Meaning(scopes, a, site, q).query);
    case _ =>
  }

  /** A selector that catches nothing and returned gives back a query bearing its scope exactly when an apply is
      written after everything that replaces the query: that is read off its text, whoever calls it. */
  lemma UncaughtExactly(scopes: Scopes, key: string, actor: User, body: Code)
    requires Returns(scopes, key, actor, body) && !Catches(body)
    ensures Inside(scopes, key, actor, body).query.own != [] <==> EndsApplied(body)
  {
    UncaughtOwn(scopes, body, At(key, actor), UNFILTERED);
  }

  /** The rows a query lists: those of the table that pass its scopes, one after the other. */
  ghost function RowsOf(ns: seq<Narrowing>, table: seq<Row>): seq<Row> {
    if ns == [] then table else Through(ns[|ns| - 1].scope, RowsOf(ns[..|ns| - 1], table))
  }

  lemma {:induction false} RowsExactly(ns: seq<Narrowing>, table: seq<Row>, row: Row)
    ensures row in RowsOf(ns, table) <==> row in table && forall n | n in ns :: InScope(n.scope, row)
  {
    if ns != [] {
      var init, last := ns[..|ns| - 1], ns[|ns| - 1];
      RowsExactly(init, table, row);
      ThroughMembers(last.scope, RowsOf(init, table), row);
      assert forall n :: n in ns <==> n in init || n == last;
    }
  }

  /** What declaring a site is for.  A selector that keeps its apply to the end and catches nothing, or one that
      is tidy and whose applicants resolve, returns to its caller only rows that are in scope, under the key it
      declared, of someone its applies name; of its own actor, if they name nobody. */
  lemma SiteListsOnlyItsScope(scopes: Scopes, key: string, actor: User, body: Code, table: seq<Row>, row: Row)
    requires Returns(scopes, key, actor, body)
    requires (EndsApplied(body) && !Catches(body)) ||
      (Tidy(body) && AllResolve(scopes, key, Applicants(body, actor)))
    requires row in RowsOf(Inside(scopes, key, actor, body).query.All(), table)
    ensures exists u :: u in Applicants(body, actor) && scopes(u, key).Ok? && InScope(scopes(u, key).value, row)
  {
    var r := Inside(scopes, key, actor, body);
    NarrowedExactly(scopes, key, actor, body);
    if !Catches(body) {
      UncaughtExactly(scopes, key, actor, body);
    }
    OwnOfApplicants(scopes, body, At(key, actor), UNFILTERED);
    RowsExactly(r.query.All(), table, row);
    var n := r.query.own[0];
    assert n in r.query.own && n in r.query.All();
    assert n.user in Applicants(body, actor) && scopes(n.user, key).value == n.scope;
  }

  // ----- sites that return normally

  lemma ApplyOk(scopes: Scopes, explicit: Option<User>, site: Site, q: Query)
    requires site.At? && scopes(explicit.GetOr(site.actor), site.key).Ok?
    ensures var user := explicit.GetOr(site.actor);
      Meaning(scopes, Apply(explicit), site, q) == Ran(Ok(()), [Narrowed(site.key, user, true)],
        q.(own := q.own + [Narrowing(site.key, user, scopes(user, site.key).value)]))
  {
  }

  /** An apply whose failure is caught leaves the query as it was. */
  lemma CaughtApply(scopes: Scopes, explicit: Option<User>, site: Site, q: Query)
    requires site.At? && scopes(explicit.GetOr(site.actor), site.key).Err?
    ensures var user := explicit.GetOr(site.actor);
      Meaning(scopes, Try(Apply(explicit), Skip), site, q) == Ran(Ok(()), [Narrowed(site.key, user, false)], q)
  {
    var failed := Narrowed(site.key, explicit.GetOr(site.actor), false);
    assert Meaning(scopes, Apply(explicit), site, q).log == [failed];
    assert Meaning(scopes, Skip, site, q) == Ran(Ok(()), [], q);
    assert [failed] + [] == [failed];
  }

  lemma ReturnsWith(scopes: Scopes, key: string, actor: User, body: Code, e: Event)
    requires Inside(scopes, key, actor, body).out.Ok? && e in Inside(scopes, key, actor, body).log && e.Narrowed?
    ensures Returns(scopes, key, actor, body)
  {
  }

  /** The smallest site that catches its failure: it returns an unfiltered query. */
  lemma CaughtFailureReturns(scopes: Scopes, key: string, actor: User)
    requires scopes(actor, key).Err?
    ensures var body := Try(Apply(None), Skip);
      Returns(scopes, key, actor, body) && Inside(scopes, key, actor, body).query == UNFILTERED
  {
    CaughtApply(scopes, None, At(key, actor), UNFILTERED);
    var body, failed := Try(Apply(None), Skip), Narrowed(key, actor, false);
    assert [failed][0] == failed;
    ReturnsWith(scopes, key, actor, body, failed);
  }

  /** So does one that names an actor of its own and catches that actor's failure, although its own actor would
      have resolved. */
  lemma NamedActorReturns(scopes: Scopes, key: string, actor: User, other: User)
    requires scopes(actor, key).Ok? && scopes(other, key).Err?
    ensures var body := Try(Apply(Some(other)), Skip);
      Returns(scopes, key, actor, body) && Inside(scopes, key, actor, body).query == UNFILTERED
  {
    CaughtApply(scopes, Some(other), At(key, actor), UNFILTERED);
    var body, failed := Try(Apply(Some(other)), Skip), Narrowed(key, other, false);
    assert [failed][0] == failed;
    ReturnsWith(scopes, key, actor, body, failed);
  }

  /** So does one that applies its filters, for an actor who resolves, and then returns another query. */
  lemma DiscardedQueryReturns(scopes: Scopes, key: string, actor: User)
    requires scopes(actor, key).Ok?
    ensures var body := Then(Apply(None), Start);
      && AllResolve(scopes, key, Applicants(body, actor)) && !Tidy(body) && !Catches(body)
      && Returns(scopes, key, actor, body) && Inside(scopes, key, actor, body).query == UNFILTERED
  {
    var here, body, done := At(key, actor), Then(Apply(None), Start), Narrowed(key, actor, true);
    ApplyOk(scopes, None, here, UNFILTERED);
    var put := Meaning(scopes, Apply(None), here, UNFILTERED);
    assert Meaning(scopes, Start, here, put.query) == Ran(Ok(()), [Started], UNFILTERED);
    assert Inside(scopes, key, actor, body) == Ran(Ok(()), [done] + [Started], UNFILTERED);
    assert ([done] + [Started])[0] == done;
    ReturnsWith(scopes, key, actor, body, done);
  }

  /** When applicants disagree, who they are decides nothing: of two tidy sites with the same applicants, both of
      which return normally, one narrows and the other does not. */
  lemma DisagreementIsOpen(scopes: Scopes, key: string, actor: User, other: User)
    requires scopes(actor, key).Ok? && scopes(other, key).Err?
    ensures var kept := Then(Try(Apply(Some(other)), Skip), Apply(None));
      var lost := Try(Then(Apply(Some(other)), Apply(None)), Skip);
      && Tidy(kept) && Tidy(lost) && Applicants(kept, actor) == Applicants(lost, actor)
      && Returns(scopes, key, actor, kept) && Inside(scopes, key, actor, kept).query.own != []
      && Returns(scopes, key, actor, lost) && Inside(scopes, key, actor, lost).query == UNFILTERED
  {
    var here, failed, done := At(key, actor), Narrowed(key, other, false), Narrowed(key, actor, true);
    var first, second := Apply(Some(other)), Apply(None);
    CaughtApply(scopes, Some(other), here, UNFILTERED);
    ApplyOk(scopes, None, here, UNFILTERED);
    var kept, lost := Then(Try(first, Skip), second), Try(Then(first, second), Skip);
    assert Inside(scopes, key, actor, kept).log == [failed] + [done];
    assert ([failed] + [done])[0] == failed;
    ReturnsWith(scopes, key, actor, kept, failed);
    assert Meaning(scopes, Then(first, second), here, UNFILTERED) == Meaning(scopes, first, here, UNFILTERED);
    assert Meaning(scopes, Skip, here, UNFILTERED) == Ran(Ok(()), [], UNFILTERED);
    assert Inside(scopes, key, actor, lost).log == [failed] + [];
    assert ([failed] + [])[0] == failed;
    ReturnsWith(scopes, key, actor, lost, failed);
  }
}
