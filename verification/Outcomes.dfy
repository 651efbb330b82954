/** What a call hands back: a value, or the exception it raised. */
module Outcomes {

  datatype Option<+T> = None | Some(value: T) {
    function GetOr(default: T): T {
      if Some? then value else default
    }
  }

  /** The exceptions of the modelled code.  `Denied` is an authorization outcome;
      every other constructor is a configuration or data problem. */
  datatype Error =
    | Denied(key: string)
    | UnknownKey(key: string)
    | UnknownCondition(id: string)
    | InvalidParams(id: string)
    | WrongObject(id: string, key: string)
    | DuplicateRegistration(id: string)
    | NoModel(key: string)
    | MissingRow(what: string)
    | RetiredRow(what: string)
    | MalformedKey(key: string)
    | DuplicateRule(key: string)
    | MultipleRows(what: string)
    | EmptyFile
    | NotASite
    | NeverApplied(key: string)
    | Other

  datatype Result<+T> = Ok(value: T) | Err(error: Error) {
    predicate IsFailure() {
      Err?
    }

    function PropagateFailure<U>(): Result<U>
      requires Err?
    {
      Err(error)
    }

    function Extract(): T
      requires Ok?
    {
      value
    }
  }
}

/** Unordered query results.  A table hands its rows back in an order nothing
    here depends on, so a set of rows is listed in an unspecified order. */
module Listing {

  ghost function Listed<T(!new)>(s: set<T>): (r: seq<T>)
    ensures forall x :: x in r <==> x in s
    ensures |r| == |s|
  {
    if s == {} then []
    else
      var x :| x in s;
      [x] + Listed(s - {x})
  }

  lemma ListedOne<T(!new)>(x: T)
    ensures Listed({x}) == [x]
  {
    assert Listed({x})[0] in Listed({x});
  }

  /** The elements without repetitions, in order of first occurrence. */
  function Distinct<T(==,!new)>(xs: seq<T>): (r: seq<T>)
    ensures forall x :: x in r <==> x in xs
    ensures xs != [] ==> r != [] && r[0] == xs[0]
    ensures forall i, j | 0 <= i < j < |r| :: r[i] != r[j]
  {
    if xs == [] then []
    else
      var init, last := Distinct(xs[..|xs| - 1]), xs[|xs| - 1];
      if last in init then init else init + [last]
  }

  /** Wherever an element stands in the list, those before it in the result stand somewhere before it too. */
  lemma {:induction false} DistinctInOrder<T(!new)>(xs: seq<T>, i: nat, j: nat, m: nat)
    requires i < j < |Distinct(xs)| && m < |xs| && xs[m] == Distinct(xs)[j]
    ensures Distinct(xs)[i] in xs[..m]
  {
    var init := xs[..|xs| - 1];
    assert Distinct(xs)[i] in init;
    if m < |init| {
      assert xs[m] in init && init[..m] == xs[..m];
      DistinctInOrder(init, i, j, m);
    }
  }

  /** A loop has dealt with the first `n` elements. */
  ghost predicate Dealt<T>(done: seq<T>, all: seq<T>, n: nat) {
    |done| == n && done <= all
  }

  lemma DealtNext<T>(done: seq<T>, all: seq<T>, n: nat)
    requires Dealt(done, all, n) && n < |all|
    ensures Dealt(done + [all[n]], all, n + 1) && |done| == n
  {
  }

  lemma DealtAll<T>(done: seq<T>, all: seq<T>)
    requires Dealt(done, all, |all|)
    ensures done == all
  {
  }
}
