/**
 * The queue of audiences waiting to be compiled: a stack that holds each
 * audience name at most once and gives back the most recently queued name
 * first, so that a backlog does not delay audiences changed just now; and
 * the drain that compiles a bounded number of them.
 */
module AudienceQueues {
  import opened Wrappers

  /** List.Remove: the sequence without the first occurrence of v. */
  function RemoveFirst(s: seq<string>, v: string): (r: seq<string>)
    ensures v !in s ==> r == s
    ensures v in s ==> |r| == |s| - 1
  {
    if |s| == 0 then []
    else
      assert s == [s[0]] + s[1..];
      if s[0] == v then s[1..]
      else [s[0]] + RemoveFirst(s[1..], v)
  }

  /** Remove takes away one occurrence of v and nothing else. */
  lemma {:induction false} RemoveFirstMultiset(s: seq<string>, v: string)
    ensures multiset(RemoveFirst(s, v)) == multiset(s) - multiset{v}
  {
    if |s| > 0 {
      assert s == [s[0]] + s[1..];
      if s[0] != v {
        RemoveFirstMultiset(s[1..], v);
      }
    }
  }

  predicate Unique(s: seq<string>) {
    forall i, j :: 0 <= i < j < |s| ==> s[i] != s[j]
  }

  /** The queue after Push(v). */
  function Pushed(s: seq<string>, v: string): seq<string> {
    RemoveFirst(s, v) + [v]
  }

  lemma UniqueTail(s: seq<string>)
    requires |s| > 0 && Unique(s)
    ensures Unique(s[1..]) && s[0] !in s[1..]
  {
    forall i, j | 0 <= i < j < |s[1..]| ensures s[1..][i] != s[1..][j] {
      assert s[1..][i] == s[i + 1] && s[1..][j] == s[j + 1];
    }
    forall j | 0 <= j < |s[1..]| ensures s[1..][j] != s[0] {
      assert s[1..][j] == s[j + 1];
    }
  }

  lemma UniqueCons(x: string, t: seq<string>)
    requires Unique(t) && x !in t
    ensures Unique([x] + t)
  {
    forall i, j | 0 <= i < j < |[x] + t| ensures ([x] + t)[i] != ([x] + t)[j] {
      assert ([x] + t)[j] == t[j - 1];
      if i > 0 {
        assert ([x] + t)[i] == t[i - 1];
      }
    }
  }

  lemma {:induction false} RemoveFirstUnique(s: seq<string>, v: string)
    requires Unique(s)
    ensures Unique(RemoveFirst(s, v)) && v !in RemoveFirst(s, v)
  {
    if |s| > 0 {
      UniqueTail(s);
      if s[0] != v {
        RemoveFirstUnique(s[1..], v);
        RemoveFirstMultiset(s[1..], v);
        var t := RemoveFirst(s[1..], v);
        assert multiset(t)[s[0]] == 0 by {
          assert multiset(s[1..])[s[0]] == 0;
        }
        UniqueCons(s[0], t);
      }
    }
  }

  /**
   * After Push(v) the queue holds v exactly once, on top, and every other name
   * it held before; a queue without repeats stays without repeats.
   */
  lemma PushedSpec(s: seq<string>, v: string)
    requires Unique(s)
    ensures Unique(Pushed(s, v))
    ensures |Pushed(s, v)| > 0 && Pushed(s, v)[|Pushed(s, v)| - 1] == v
    ensures multiset(Pushed(s, v))[v] == 1
    ensures forall x :: x != v ==> (x in Pushed(s, v) <==> x in s)
  {
    RemoveFirstUnique(s, v);
    RemoveFirstMultiset(s, v);
    var r := RemoveFirst(s, v);
    assert multiset(r)[v] == 0;
    forall i, j | 0 <= i < j < |r + [v]| ensures (r + [v])[i] != (r + [v])[j] {
      assert (r + [v])[i] == r[i];
      if j < |r| {
        assert (r + [v])[j] == r[j];
      }
    }
    forall x | x != v ensures x in Pushed(s, v) <==> x in s {
      assert multiset(Pushed(s, v))[x] == multiset(r)[x] == multiset(s)[x];
    }
  }

  /** Push keeps the relative order of the other names: it removes v and appends it. */
  lemma {:induction false} PushedKeepsOrder(s: seq<string>, v: string, i: nat, j: nat)
    requires i < j < |s| && s[i] != v && s[j] != v
    ensures exists i', j' :: 0 <= i' < j' < |RemoveFirst(s, v)| && RemoveFirst(s, v)[i'] == s[i] && RemoveFirst(s, v)[j'] == s[j]
  {
    var r := RemoveFirst(s, v);
    if s[0] == v {
      assert r == s[1..];
      assert r[i - 1] == s[i] && r[j - 1] == s[j];
    } else {
      var t := RemoveFirst(s[1..], v);
      assert r == [s[0]] + t;
      if i == 0 {
        PushedKeepsOrderTail(s[1..], v, j - 1);
        var j' :| 0 <= j' < |t| && t[j'] == s[1..][j - 1];
        assert r[0] == s[0] && r[j' + 1] == s[j];
      } else {
        PushedKeepsOrder(s[1..], v, i - 1, j - 1);
        var i', j' :| 0 <= i' < j' < |t| && t[i'] == s[1..][i - 1] && t[j'] == s[1..][j - 1];
        assert r[i' + 1] == s[i] && r[j' + 1] == s[j];
      }
    }
  }

  lemma {:induction false} PushedKeepsOrderTail(s: seq<string>, v: string, j: nat)
    requires j < |s| && s[j] != v
    ensures exists j' :: 0 <= j' < |RemoveFirst(s, v)| && RemoveFirst(s, v)[j'] == s[j]
  {
    var r := RemoveFirst(s, v);
    if s[0] == v {
      assert r[j - 1] == s[j];
    } else if j == 0 {
      assert r[0] == s[0];
    } else {
      PushedKeepsOrderTail(s[1..], v, j - 1);
      var j' :| 0 <= j' < |RemoveFirst(s[1..], v)| && RemoveFirst(s[1..], v)[j'] == s[1..][j - 1];
      assert r[j' + 1] == s[j];
    }
  }

  /** Pushing X, Y and X again gives X back first, then Y. */
  lemma LastPushedFirst(s: seq<string>, x: string, y: string)
    requires x != y
    ensures var q := Pushed(Pushed(Pushed(s, x), y), x);
      |q| >= 2 && q[|q| - 1] == x && q[|q| - 2] == y
  {
    var q2 := RemoveFirst(Pushed(s, x), y) + [y];
    assert q2 == Pushed(Pushed(s, x), y);
    assert q2[|q2| - 1] == y;
    RemoveFirstKeepsLast(q2, x);
    var r := RemoveFirst(q2, x);
    assert Pushed(q2, x) == r + [x];
    assert (r + [x])[|r| - 1] == r[|r| - 1];
  }

  lemma {:induction false} RemoveFirstKeepsLast(s: seq<string>, v: string)
    requires |s| > 0 && s[|s| - 1] != v
    ensures |RemoveFirst(s, v)| > 0 && RemoveFirst(s, v)[|RemoveFirst(s, v)| - 1] == s[|s| - 1]
  {
    if s[0] == v {
      assert |s| > 1;
    } else if |s| > 1 {
      RemoveFirstKeepsLast(s[1..], v);
    }
  }

  class AudienceCompilationQueue {
    var data: seq<string>

    constructor()
      ensures data == []
    {
      data := [];
    }

    function Count(): (n: nat)
      reads this
      ensures n == |data|
    {
      |data|
    }

    /** Null on an empty queue; otherwise removes and returns the most recently pushed name. */
    method Pop() returns (r: Option<string>)
      modifies this
      ensures old(data) == [] ==> r == None && data == []
      ensures old(data) != [] ==> r == Some(old(data)[|old(data)| - 1]) && data == old(data)[..|old(data)| - 1]
    {
      if |data| == 0 {
        return None;
      }
      r := Some(data[|data| - 1]);
      data := data[..|data| - 1];
    }

    /** Moves v to the top, removing its earlier occurrence. */
    method Push(v: string)
      modifies this
      ensures data == Pushed(old(data), v)
    {
      if v in data {
        data := RemoveFirst(data, v);
      }
      data := data + [v];
    }
  }

  /** The n most recently pushed names of s, most recent first. */
  function Newest(s: seq<string>, n: nat): (r: seq<string>)
    requires n <= |s|
    ensures |r| == n
  {
    if n == 0 then [] else Newest(s, n - 1) + [s[|s| - n]]
  }

  /** How many names a drain of at most max pops takes from a queue of size k. */
  function DrainCount(k: nat, max: int): (n: nat)
    ensures n <= k && (0 <= max ==> n <= max)
    ensures 0 <= max && n < k ==> n == max
  {
    if max < 0 then 0 else if max < k then max else k
  }

  /** The static state of the drain: the shared queue and the in-progress flag. */
  class AudienceCompiler {
    const changedAudiences: AudienceCompilationQueue
    var inProgress: bool

    constructor(queue: AudienceCompilationQueue)
      ensures changedAudiences == queue && !inProgress
    {
      changedAudiences := queue;
      inProgress := false;
    }

    /** Queues an audience for compilation. */
    method RecordChangedAudience(audienceName: string)
      modifies changedAudiences
      ensures changedAudiences.data == Pushed(old(changedAudiences.data), audienceName)
    {
      changedAudiences.Push(audienceName);
    }

    /**
     * CompileChangedAudiences: pops and compiles at most max names, stopping
     * at an empty queue; does nothing while a drain is in progress. Compiling
     * one audience is a call into the audience manager; its failures are
     * ignored, so the names handed to it are the result.
     */
    method CompileChangedAudiences(max: int) returns (compiled: seq<string>)
      modifies this, changedAudiences
      ensures old(inProgress) ==> compiled == [] && inProgress && changedAudiences.data == old(changedAudiences.data)
      ensures !old(inProgress) ==> !inProgress
      ensures !old(inProgress) ==> compiled == Newest(old(changedAudiences.data), DrainCount(|old(changedAudiences.data)|, max))
      ensures !old(inProgress) ==> changedAudiences.data == old(changedAudiences.data)[..|old(changedAudiences.data)| - |compiled|]
    {
      compiled := [];
      if inProgress {
        return;
      }
      inProgress := true;
      ghost var s := changedAudiences.data;
      var i := 0;
      while i < max
        invariant 0 <= i <= |s| && (max < 0 ==> i == 0) && (0 <= max ==> i <= max)
        invariant changedAudiences.data == s[..|s| - i]
        invariant compiled == Newest(s, i)
        invariant inProgress
        decreases max - i
      {
        var an := changedAudiences.Pop();
        if an.None? {
          break;
        }
        compiled := compiled + [an.value];
        i := i + 1;
      }
      inProgress := false;
    }
  }

  /**
   * A drain compiles at most max names, fewer only when the queue runs empty,
   * and takes them newest first.
   */
  lemma {:induction false} NewestSpec(s: seq<string>, n: nat)
    requires n <= |s|
    ensures forall i :: 0 <= i < n ==> Newest(s, n)[i] == s[|s| - 1 - i]
  {
    if n > 0 {
      NewestSpec(s, n - 1);
      var r := Newest(s, n);
      forall i | 0 <= i < n ensures r[i] == s[|s| - 1 - i] {
        if i < n - 1 {
          assert r[i] == Newest(s, n - 1)[i];
        }
      }
    }
  }
}
