/** Permission keys: "object.verb", taken apart at the last dot. */
module Keys {

  datatype Halves = Halves(objectKey: string, sep: bool, verb: string)

  function LastDot(s: string): (i: int)
    ensures -1 <= i < |s|
    ensures 0 <= i ==> s[i] == '.'
    ensures forall j | i < j < |s| :: s[j] != '.'
  {
    if s == [] then -1
    else if s[|s| - 1] == '.' then |s| - 1
    else LastDot(s[..|s| - 1])
  }

  /** `str.rpartition(".")`: with no dot at all the whole string is the verb. */
  function RPartition(s: string): Halves {
    var i := LastDot(s);
    if i < 0 then Halves("", false, s) else Halves(s[..i], true, s[i + 1..])
  }

  function JoinKey(objectKey: string, verb: string): string {
    objectKey + "." + verb
  }

  /** A key with a dot is the join of its halves, so two keys with the same halves are one key. */
  lemma SplitThenJoin(s: string)
    requires RPartition(s).sep
    ensures JoinKey(RPartition(s).objectKey, RPartition(s).verb) == s
  {
    var i := LastDot(s);
    assert s == s[..i] + [s[i]] + s[i + 1..];
  }

  /** Joining is undone by splitting exactly when the verb carries no dot of its own. */
  lemma JoinThenSplit(objectKey: string, verb: string)
    ensures RPartition(JoinKey(objectKey, verb)) == Halves(objectKey, true, verb) <==> '.' !in verb
  {
    var s := JoinKey(objectKey, verb);
    var i := LastDot(s);
    assert s[|objectKey|] == '.';
    assert s[|objectKey| + 1..] == verb;
    assert s[..|objectKey|] == objectKey;
    assert forall j | |objectKey| < j < |s| :: s[j] == verb[j - |objectKey| - 1];
    if '.' in verb {
      var j :| 0 <= j < |verb| && verb[j] == '.';
      assert s[|objectKey| + 1 + j] == '.';
      assert i > |objectKey|;
      assert |RPartition(s).objectKey| == i;
    }
  }

  /** A key without a dot names no object: all of it is the verb. */
  lemma Undotted(s: string)
    ensures RPartition(s).sep <==> '.' in s
    ensures '.' !in s ==> RPartition(s) == Halves("", false, s)
  {
    if LastDot(s) >= 0 {
      assert s[LastDot(s)] == '.';
    }
  }

  /** Two keys with the same object and verb are one key, if they name an object at all. */
  lemma SameHalves(a: string, b: string)
    requires RPartition(a).objectKey != ""
    ensures RPartition(a).objectKey == RPartition(b).objectKey && RPartition(a).verb == RPartition(b).verb <==> a == b
  {
    SplitThenJoin(a);
    if RPartition(b).sep {
      SplitThenJoin(b);
    } else {
      assert RPartition(b).objectKey == "";
    }
  }
}
