/** Small vocabulary shared by every module: optional values, results, and bounded
    views of sequences (the first or the last `n` elements). */
module Prelude {

  datatype Option<+T> = None | Some(value: T)

  datatype Result<+T, +E> = Ok(value: T) | Err(error: E)

  /** The last `n` elements, or everything when there are fewer. */
  function LastN<T>(s: seq<T>, n: nat): (r: seq<T>)
    ensures |r| == if |s| < n then |s| else n
    ensures forall k :: 0 <= k < |r| ==> r[k] == s[|s| - |r| + k]
  {
    if |s| <= n then s else s[|s| - n..]
  }

  /** The first `n` elements, or everything when there are fewer. */
  function FirstN<T>(s: seq<T>, n: nat): (r: seq<T>)
    ensures |r| == if |s| < n then |s| else n
    ensures r <= s
  {
    if |s| <= n then s else s[..n]
  }

  /** Drops items from the front until the rest fits. */
  method PopFront<T>(s: seq<T>, limit: nat) returns (r: seq<T>)
    ensures r == LastN(s, limit)
  {
    var dropped := 0;
    r := s;
    while |r| > limit
      invariant 0 <= dropped <= |s| && r == s[dropped..]
      invariant dropped == 0 || |r| >= limit
    {
      r := r[1..];
      dropped := dropped + 1;
    }
  }

  /** Drops items from the back until the rest fits. */
  method PopBack<T>(s: seq<T>, limit: nat) returns (r: seq<T>)
    ensures r == FirstN(s, limit)
  {
    r := s;
    while |r| > limit
      invariant r <= s
      invariant |r| == |s| || |r| >= limit
    {
      r := r[..|r| - 1];
    }
  }

  /** Trimming a buffer after every append loses nothing that the final trim keeps. */
  lemma LastNAbsorbs<T>(s: seq<T>, t: seq<T>, n: nat)
    ensures LastN(LastN(s, n) + t, n) == LastN(s + t, n)
  {
    if |s| > n {
      assert LastN(s, n) + t == (s + t)[|s| - n..];
    }
  }

  /** A shorter window of a longer window is the shorter window of the whole. */
  lemma LastNNests<T>(s: seq<T>, n: nat, m: nat)
    requires m <= n
    ensures LastN(LastN(s, n), m) == LastN(s, m)
  {
  }

  lemma FirstNAbsorbs<T>(s: seq<T>, t: seq<T>, n: nat)
    ensures FirstN(t + FirstN(s, n), n) == FirstN(t + s, n)
  {
  }

  /** The elements of `s` that satisfy `keep`, in order. */
  function Filter<T(!new)>(s: seq<T>, keep: T -> bool): (r: seq<T>)
    ensures |r| <= |s|
    ensures forall x :: x in r <==> x in s && keep(x)
  {
    if s == [] then []
    else
      var rest := Filter(s[..|s| - 1], keep);
      if keep(s[|s| - 1]) then rest + [s[|s| - 1]] else rest
  }

  lemma FilterOne<T(!new)>(x: T, keep: T -> bool)
    ensures Filter([x], keep) == if keep(x) then [x] else []
  {
    assert [x][..0] == [];
  }

  lemma {:induction false} FilterAppend<T(!new)>(s: seq<T>, t: seq<T>, keep: T -> bool)
    ensures Filter(s + t, keep) == Filter(s, keep) + Filter(t, keep)
  {
    if t == [] {
      assert s + t == s;
    } else {
      var n := |t| - 1;
      FilterAppend(s, t[..n], keep);
      FrontOfAppend(s, t);
      Regroup(Filter(s, keep), Filter(t[..n], keep), [t[n]]);
    }
  }

  lemma FilterPush<T(!new)>(s: seq<T>, x: T, keep: T -> bool)
    ensures Filter(s + [x], keep) == Filter(s, keep) + if keep(x) then [x] else []
  {
    assert (s + [x])[..|s|] == s;
  }

  lemma FilterFirst<T(!new)>(s: seq<T>, keep: T -> bool)
    requires s != []
    ensures Filter(s, keep) == (if keep(s[0]) then [s[0]] else []) + Filter(s[1..], keep)
  {
    assert [s[0]] + s[1..] == s;
    FilterAppend([s[0]], s[1..], keep);
    FilterOne(s[0], keep);
  }

  /** Filtering by a narrower test afterwards is filtering by it alone. */
  lemma {:induction false} FilterNarrow<T(!new)>(s: seq<T>, wide: T -> bool, narrow: T -> bool)
    requires forall x :: narrow(x) ==> wide(x)
    ensures Filter(Filter(s, wide), narrow) == Filter(s, narrow)
  {
    if s != [] {
      FilterNarrow(s[..|s| - 1], wide, narrow);
    }
  }

  lemma {:induction false} FilterTwice<T(!new)>(s: seq<T>, p: T -> bool, q: T -> bool, both: T -> bool)
    requires forall x :: both(x) <==> p(x) && q(x)
    ensures Filter(Filter(s, p), q) == Filter(s, both)
  {
    if s != [] {
      FilterTwice(s[..|s| - 1], p, q, both);
    }
  }

  lemma {:induction false} FilterSwap<T(!new)>(s: seq<T>, p: T -> bool, q: T -> bool)
    ensures Filter(Filter(s, p), q) == Filter(Filter(s, q), p)
  {
    if s != [] {
      FilterSwap(s[..|s| - 1], p, q);
    }
  }

  /** A filter that drops nothing. */
  lemma {:induction false} FilterAll<T(!new)>(s: seq<T>, keep: T -> bool)
    ensures |Filter(s, keep)| == |s| <==> forall k :: 0 <= k < |s| ==> keep(s[k])
    ensures |Filter(s, keep)| == |s| ==> Filter(s, keep) == s
  {
    if s != [] {
      var front, last := s[..|s| - 1], s[|s| - 1];
      assert s == front + [last];
      FilterAll(front, keep);
      FilterPush(front, last, keep);
      AllOfMore(front, last, keep);
    }
  }

  lemma AllOfMore<T(!new)>(front: seq<T>, last: T, keep: T -> bool)
    ensures (forall k :: 0 <= k < |front + [last]| ==> keep((front + [last])[k])) <==>
      (forall k :: 0 <= k < |front| ==> keep(front[k])) && keep(last)
  {
    var s := front + [last];
    assert s[|front|] == last;
    assert forall k :: 0 <= k < |front| ==> front[k] == s[k];
  }

  lemma {:induction false} FilterSame<T(!new)>(s: seq<T>, p: T -> bool, q: T -> bool)
    requires forall k :: 0 <= k < |s| ==> (p(s[k]) <==> q(s[k]))
    ensures Filter(s, p) == Filter(s, q)
  {
    if s != [] {
      FilterSame(s[..|s| - 1], p, q);
    }
  }

  lemma FilterNone<T(!new)>(s: seq<T>, keep: T -> bool)
    ensures Filter(s, keep) == [] <==> forall k :: 0 <= k < |s| ==> !keep(s[k])
  {
    var kept := Filter(s, keep);
    if kept != [] {
      assert kept[0] in kept;
    }
  }

  lemma FrontOfAppend<T>(s: seq<T>, t: seq<T>)
    requires t != []
    ensures (s + t)[..|s + t| - 1] == s + t[..|t| - 1] && (s + t)[|s + t| - 1] == t[|t| - 1]
  {
  }

  lemma EmptyAfter<T>(s: seq<T>)
    ensures s + [] == s
  {
  }

  lemma Regroup<T>(a: seq<T>, b: seq<T>, c: seq<T>)
    ensures (a + b) + c == a + (b + c)
  {
  }

  lemma CancelFront<T>(head: seq<T>, a: seq<T>, b: seq<T>)
    ensures head + a == head + b <==> a == b
  {
    assert (head + a)[|head|..] == a && (head + b)[|head|..] == b;
  }

  /** Sum of the lengths of the sequences a finite map holds. */
  ghost function TotalLength<K, V>(m: map<K, seq<V>>): nat
    decreases |m|
  {
    if m == map[] then 0
    else
      var k :| k in m;
      |m[k]| + TotalLength(m - {k})
  }

  /** The choice of key in `TotalLength` does not matter. */
  lemma {:induction false} TotalLengthSplit<K, V>(m: map<K, seq<V>>, k: K)
    requires k in m
    ensures TotalLength(m) == |m[k]| + TotalLength(m - {k})
    decreases |m|
  {
    var j :| j in m && TotalLength(m) == |m[j]| + TotalLength(m - {j});
    if j != k {
      TotalLengthSplit(m - {j}, k);
      TotalLengthSplit(m - {k}, j);
      assert m - {j} - {k} == m - {k} - {j};
    }
  }

  /** Replacing one entry changes the sum by the difference of the two lengths. */
  lemma TotalLengthUpdate<K, V>(m: map<K, seq<V>>, k: K, v: seq<V>)
    ensures TotalLength(m[k := v]) == TotalLength(m) + |v| - (if k in m then |m[k]| else 0)
  {
    TotalLengthSplit(m[k := v], k);
    if k in m {
      TotalLengthSplit(m, k);
      assert m[k := v] - {k} == m - {k};
    } else {
      assert m[k := v] - {k} == m;
    }
  }
}
