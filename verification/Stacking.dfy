/** Several endpoints declared on one view class by stacking decorators. */
module Stacking {
  import opened Outcomes
  import opened Listing

  /** The key attribute of the class itself: absent, cleared, or a key. */
  type OwnKey = Option<Option<string>>

  /** Attribute lookup: the class's own, else what it inherits. */
  function Read(own: OwnKey, inherited: Option<string>): Option<string> {
    if own.Some? then own.value else inherited
  }

  /** Where nothing can be read, the first decorator writes its own endpoint. */
  function Started(own: OwnKey, inherited: Option<string>, first: string): OwnKey {
    if Read(own, inherited).None? then Some(Some(first)) else own
  }

  /** An endpoint attribute written by hand counts as declared before the first decorator. */
  function Prior(written: Option<string>): seq<string> {
    if written.Some? && written.value != "" then [written.value] else []
  }

  predicate Named(own: OwnKey, keys: seq<string>) {
    own.Some? && own.value.Some? && own.value.value in keys
  }

  /** A key that the stack named before its last decorator is cleared once there is a second endpoint. */
  predicate ClearedBy(own: OwnKey, all: seq<string>)
    requires all != []
  {
    2 <= |Distinct(all)| && Named(own, all[..|all| - 1])
  }

  function OwnAfter(own: OwnKey, inherited: Option<string>, prior: seq<string>, ks: seq<string>): OwnKey
    requires ks != []
  {
    var started := if prior == [] || prior == [ks[0]] then Started(own, inherited, ks[0]) else own;
    if ClearedBy(started, prior + ks) then Some(None) else started
  }

  lemma DistinctStep(all: seq<string>, k: string)
    ensures Distinct(all + [k]) == if k in Distinct(all) then Distinct(all) else Distinct(all) + [k]
  {
    assert (all + [k])[..|all|] == all;
  }

  lemma TwoDistinct(all: seq<string>, a: string, b: string)
    requires a in all && b in all && a != b
    ensures 2 <= |Distinct(all)|
  {
    hide Distinct;
    assert a in Distinct(all) && b in Distinct(all);
  }

  lemma Appended(prior: seq<string>, ks: seq<string>, k: string)
    ensures var all := prior + ks;
      && prior + (ks + [k]) == all + [k] && (all + [k])[..|all|] == all
      && Distinct(all + [k]) == (if k in Distinct(all) then Distinct(all) else Distinct(all) + [k])
      && (|Distinct(all + [k])| == 1 ==> k == (all + [k])[0])
  {
    hide Distinct;
    var all := prior + ks;
    DistinctStep(all, k);
    assert prior + (ks + [k]) == all + [k];
    if k != (all + [k])[0] {
      TwoDistinct(all + [k], k, (all + [k])[0]);
    }
  }

  lemma DistinctPrior(prior: seq<string>, ks: seq<string>)
    requires |prior| <= 1
    ensures ks == [] ==> Distinct(prior + ks) == prior
    ensures ks != [] ==> Distinct(prior + ks) != []
  {
    if ks == [] {
      assert prior + ks == prior;
    }
  }

  /** What one decorator does to the class's own key. */
  function OwnOnce(own: OwnKey, inherited: Option<string>, seen: seq<string>, now: seq<string>, k: string): OwnKey {
    if |now| == 1 then Started(own, inherited, k)
    else if Named(own, seen) then Some(None) else own
  }

  /** The first decorator. */
  lemma OwnFirst(own: OwnKey, inherited: Option<string>, prior: seq<string>, k: string)
    requires |prior| <= 1
    ensures OwnAfter(own, inherited, prior, [k]) == OwnOnce(own, inherited, prior, Distinct(prior + [k]), k)
  {
    hide Distinct, Started;
    var all := prior + [k];
    assert all[..|all| - 1] == prior;
    if prior != [] && prior != [k] {
      TwoDistinct(all, prior[0], k);
    } else {
      OneDistinct(all, k);
    }
  }

  lemma {:induction false} OneDistinct(all: seq<string>, k: string)
    requires all != [] && forall x | x in all :: x == k
    ensures Distinct(all) == [k]
  {
    var init := all[..|all| - 1];
    assert forall x | x in init :: x in all;
    assert all[|all| - 1] in all;
    if |all| > 1 {
      OneDistinct(init, k);
    } else {
      assert init == [];
    }
  }

  lemma ClearedNext(own: OwnKey, prior: seq<string>, ks: seq<string>, k: string)
    requires ks != []
    ensures var all, next := prior + ks, prior + (ks + [k]);
      && (ClearedBy(own, next) <==> 2 <= |Distinct(next)| && Named(own, Distinct(all)))
      && (ClearedBy(own, all) ==> ClearedBy(own, next))
      && |Distinct(all)| <= |Distinct(next)|
  {
    hide Distinct;
    var all := prior + ks;
    Appended(prior, ks, k);
    assert all[..|all| - 1] <= all;
  }

  lemma ReadOnceStarted(own: OwnKey, inherited: Option<string>, first: string, k: string)
    ensures Started(Started(own, inherited, first), inherited, k) == Started(own, inherited, first)
  {
  }

  /** Every later one. */
  lemma OwnNext(own: OwnKey, inherited: Option<string>, prior: seq<string>, ks: seq<string>, k: string)
    requires |prior| <= 1 && ks != []
    ensures OwnAfter(own, inherited, prior, ks + [k]) ==
      OwnOnce(OwnAfter(own, inherited, prior, ks), inherited, Distinct(prior + ks), Distinct(prior + (ks + [k])), k)
  {
    assert (ks + [k])[0] == ks[0];
    if prior != [] && prior != [ks[0]] {
      assert prior[0] in prior + ks && ks[0] in prior + ks;
      TwoDistinct(prior + ks, prior[0], ks[0]);
    }
    hide Distinct, ClearedBy, Started;
    var started := if prior == [] || prior == [ks[0]] then Started(own, inherited, ks[0]) else own;
    ClearedNext(started, prior, ks, k);
    ReadOnceStarted(own, inherited, ks[0], k);
    SomeDistinct(prior + (ks + [k]));
    NotClearedByOne(started, prior + ks);
  }

  lemma SomeDistinct(all: seq<string>)
    requires all != []
    ensures 1 <= |Distinct(all)|
  {
  }

  lemma NotClearedByOne(own: OwnKey, all: seq<string>)
    requires all != []
    ensures ClearedBy(own, all) ==> 2 <= |Distinct(all)|
  {
  }

  datatype Attributes = Attributes(endpoints: seq<string>, endpoint: Option<string>, ownKey: OwnKey)

  /** The attributes of a class written with an endpoint and a key of its own, after the decorators in `ks`. */
  function After(written: Option<string>, own: OwnKey, inherited: Option<string>, ks: seq<string>): Attributes {
    if ks == [] then Attributes([], written, own)
    else
      var all := Prior(written) + ks;
      Attributes(Distinct(all), if |Distinct(all)| == 1 then Some(all[0]) else None,
        OwnAfter(own, inherited, Prior(written), ks))
  }

  /** What one decorator reads and writes. */
  function Decorate(a: Attributes, inherited: Option<string>, k: string): Attributes {
    var seen := if a.endpoints == [] then Prior(a.endpoint) else a.endpoints;
    var now := if k in seen then seen else seen + [k];
    Attributes(now, if |now| == 1 then Some(k) else None, OwnOnce(a.ownKey, inherited, seen, now, k))
  }

  lemma DecorateNext(written: Option<string>, own: OwnKey, inherited: Option<string>, ks: seq<string>, k: string)
    ensures Decorate(After(written, own, inherited, ks), inherited, k) == After(written, own, inherited, ks + [k])
  {
    hide OwnOnce, OwnAfter, Distinct;
    var prior := Prior(written);
    Appended(prior, ks, k);
    DistinctPrior(prior, ks);
    if ks == [] {
      assert prior + ks == prior && ks + [k] == [k];
      OwnFirst(own, inherited, prior, k);
    } else {
      OwnNext(own, inherited, prior, ks, k);
    }
  }

  class Component {
    var endpoints: seq<string>
    var endpoint: Option<string>
    var ownKey: OwnKey
    const inheritedKey: Option<string>

    ghost function Now(): Attributes
      reads this
    {
      Attributes(endpoints, endpoint, ownKey)
    }

    /** A class as written, before any decorator ran. */
    constructor (endpoint: Option<string>, ownKey: OwnKey, inheritedKey: Option<string>)
      ensures Now() == Attributes([], endpoint, ownKey) && this.inheritedKey == inheritedKey
    {
      this.endpoints, this.endpoint, this.ownKey, this.inheritedKey := [], endpoint, ownKey, inheritedKey;
    }

    method ApiPermission(k: string)
      modifies this
      ensures Now() == Decorate(old(Now()), inheritedKey, k)
    {
      var seen := endpoints;
      if |seen| == 0 && endpoint.Some? && endpoint.value != "" {
        seen := [endpoint.value];
      }
      endpoints := if k in seen then seen else seen + [k];
      if |endpoints| == 1 {
        endpoint := Some(k);
        if Read(ownKey, inheritedKey).None? {
          ownKey := Some(Some(k));
        }
      } else {
        endpoint := None;
        if ownKey.Some? && ownKey.value.Some? && ownKey.value.value in seen {
          ownKey := Some(None);
        }
      }
    }

    /** The decorators of a stack, in the order they run. */
    method Stack(ks: seq<string>)
      requires endpoints == []
      modifies this
      ensures Now() == After(old(endpoint), old(ownKey), inheritedKey, ks)
    {
      ghost var written, own, dealt: seq<string> := endpoint, ownKey, [];
      hide After, Decorate;
      assert Now() == After(written, own, inheritedKey, dealt) by { NotDecorated(written, own, inheritedKey); }
      for i := 0 to |ks|
        invariant |dealt| == i && dealt <= ks
        invariant Now() == After(written, own, inheritedKey, dealt)
      {
        DecorateNext(written, own, inheritedKey, dealt, ks[i]);
        ApiPermission(ks[i]);
        dealt := dealt + [ks[i]];
      }
      assert dealt == ks;
    }
  }

  lemma NotDecorated(written: Option<string>, own: OwnKey, inherited: Option<string>)
    ensures After(written, own, inherited, []) == Attributes([], written, own)
  {
  }

  /** No endpoint written by hand: no single key is left to enforce unless one endpoint was declared, or a key
      was written or inherited. */
  lemma {:induction false} NoArbitraryKey(own: OwnKey, inherited: Option<string>, ks: seq<string>)
    requires ks != [] && Read(own, inherited) == None
    ensures Read(OwnAfter(own, inherited, [], ks), inherited) == if |Distinct(ks)| == 1 then Some(ks[0]) else None
  {
    assert [] + ks == ks;
    if |ks| == 1 {
      assert ks[..0] == [];
    } else {
      assert ks[..|ks| - 1][0] == ks[0];
    }
  }

  /** A key written by hand survives exactly unless it is one of several endpoints stacked on the class and not
      only the last of them. */
  lemma HandWrittenKey(h: string, inherited: Option<string>, prior: seq<string>, ks: seq<string>)
    requires ks != []
    ensures var all := prior + ks;
      Read(OwnAfter(Some(Some(h)), inherited, prior, ks), inherited) == Some(h) <==>
        !(h in all[..|all| - 1] && exists k :: k in all && k != h)
  {
    hide Distinct;
    var all := prior + ks;
    assert forall x | x in all[..|all| - 1] :: x in all;
    if k :| k in all && k != h {
      if h in all {
        TwoDistinct(all, h, k);
      }
    } else {
      OneDistinct(all, h);
    }
  }

  /** The endpoints a class declares, in the order they are met: one written by hand, then those of its decorators. */
  function Declared(written: Option<string>, ks: seq<string>): seq<string> {
    (if written.Some? && written.value != "" then [written.value] else []) + ks
  }

  lemma SeveralDistinct(all: seq<string>, k: string)
    requires k in all
    ensures 2 <= |Distinct(all)| <==> exists x :: x in all && x != k
    ensures !(exists x :: x in all && x != k) ==> Distinct(all) == [k]
  {
    hide Distinct;
    if x :| x in all && x != k {
      TwoDistinct(all, x, k);
    } else {
      OneDistinct(all, k);
    }
  }

  /** The key that is read when several endpoints are declared, or only one. */
  lemma KeyRead(own: OwnKey, inherited: Option<string>, prior: seq<string>, ks: seq<string>)
    requires ks != [] && |prior| <= 1
    ensures var all := prior + ks;
      var several := exists x :: x in all && x != ks[0];
      Read(OwnAfter(own, inherited, prior, ks), inherited) ==
        if Read(own, inherited) == None then if several then None else Some(ks[0])
        else if own.None? then inherited
        else if several && own.value.value in all[..|all| - 1] then None else own.value
  {
    var all := prior + ks;
    assert all[|prior|] == ks[0];
    SeveralDistinct(all, ks[0]);
    hide Distinct;
    if x :| x in all && x != ks[0] {
      assert |all| > 1 && all[..|all| - 1][0] == all[0];
      if prior == [] || prior == [ks[0]] {
        assert all[0] == ks[0];
      }
    }
  }

  lemma EndpointsLeft(written: Option<string>, own: OwnKey, inherited: Option<string>, ks: seq<string>)
    requires ks != []
    ensures var all, left := Declared(written, ks), After(written, own, inherited, ks);
      && left.endpoints == Distinct(all)
      && left.endpoint == (if exists x :: x in all && x != ks[0] then None else Some(ks[0]))
      && left.ownKey == OwnAfter(own, inherited, Prior(written), ks) && all == Prior(written) + ks
      && |Prior(written)| <= 1
  {
    var all := Declared(written, ks);
    assert all[|all| - |ks|] == ks[0];
    SeveralDistinct(all, ks[0]);
    SomeDistinct(all);
    hide Distinct, OwnAfter;
    assert all[0] in all;
  }

  /** What a stack leaves, told from what was written: every endpoint declared, each once; the one endpoint if there
      is only one; and the key that is read.  With several endpoints there is none if nothing was written or
      inherited, an inherited one stays, and one written by hand is cleared if it is an endpoint met before the
      last. */
  lemma StackExactly(written: Option<string>, own: OwnKey, inherited: Option<string>, ks: seq<string>)
    requires ks != []
    ensures var all, left := Declared(written, ks), After(written, own, inherited, ks);
      var several := exists x :: x in all && x != ks[0];
      && (forall k :: k in left.endpoints <==> k in all)
      && (forall i, j | 0 <= i < j < |left.endpoints| :: left.endpoints[i] != left.endpoints[j])
      && left.endpoint == (if several then None else Some(ks[0]))
      && Read(left.ownKey, inherited) ==
         if Read(own, inherited) == None then if several then None else Some(ks[0])
         else if own.None? then inherited
         else if several && own.value.value in all[..|all| - 1] then None else own.value
  {
    EndpointsLeft(written, own, inherited, ks);
    KeyRead(own, inherited, Prior(written), ks);
    hide After, Declared, Prior, OwnAfter;
  }

  /** A deliberate key that does not stand. */
  lemma HandWrittenKeyCleared()
    ensures Read(OwnAfter(Some(Some("w.list")), None, [], ["w.list", "w.create"]), None) == None
  {
    HandWrittenKey("w.list", None, [], ["w.list", "w.create"]);
    var all := [] + ["w.list", "w.create"];
    assert all[..1] == ["w.list"];
    assert all[1] in all;
  }
}
