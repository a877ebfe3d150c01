/** A Python `dict` with string keys: its pairs in insertion order. Assignment,
    `{**a, **b}` and `sorted(d.items())` are modelled on this representation. */
module PyDict {
  import opened Wrappers
  import Strings

  type Dict<V> = seq<(string, V)>

  function Keys<V>(d: Dict<V>): (ks: seq<string>)
    ensures |ks| == |d|
    ensures forall i :: 0 <= i < |d| ==> ks[i] == d[i].0
  {
    if |d| == 0 then [] else [d[0].0] + Keys(d[1..])
  }

  /** Every key occurs once, as in any real dict. */
  predicate Wf<V>(d: Dict<V>)
  {
    forall i, j :: 0 <= i < j < |d| ==> d[i].0 != d[j].0
  }

  /** `d.get(k)` */
  function Get<V>(d: Dict<V>, k: string): (r: Option<V>)
    ensures r.None? <==> k !in Keys(d)
    ensures r.Some? ==> (k, r.value) in d
  {
    if |d| == 0 then None
    else if d[0].0 == k then Some(d[0].1)
    else Get(d[1..], k)
  }

  /** In a well-formed dict, looking up the key of any pair finds that pair's value. */
  lemma {:induction false} GetAt<V>(d: Dict<V>, j: nat)
    requires Wf(d) && j < |d|
    ensures Get(d, d[j].0) == Some(d[j].1)
  {
    if j > 0 {
      assert d[0].0 != d[j].0;
      assert d[1..][j - 1] == d[j];
      GetAt(d[1..], j - 1);
    }
  }

  /** In a well-formed dict, a pair is present exactly when its key maps to its value. */
  lemma PairInIffGet<V>(d: Dict<V>, k: string, v: V)
    requires Wf(d)
    ensures (k, v) in d <==> Get(d, k) == Some(v)
  {
    if (k, v) in d {
      var j :| 0 <= j < |d| && d[j] == (k, v);
      GetAt(d, j);
    }
  }

  /** `d[k] = v`: the value is replaced in place when `k` is present and the pair
      is appended otherwise. */
  function Set<V>(d: Dict<V>, k: string, v: V): (r: Dict<V>)
    ensures |d| <= |r| <= |d| + 1
  {
    if |d| == 0 then [(k, v)]
    else if d[0].0 == k then [(k, v)] + d[1..]
    else [d[0]] + Set(d[1..], k, v)
  }

  /** After `d[k] = v`, `k` maps to `v` and every other key to what it mapped to before. */
  lemma {:induction false} SetGet<V>(d: Dict<V>, k: string, v: V)
    ensures Get(Set(d, k, v), k) == Some(v)
    ensures forall j :: j != k ==> Get(Set(d, k, v), j) == Get(d, j)
  {
    if |d| > 0 && d[0].0 != k {
      SetGet(d[1..], k, v);
    }
  }

  /** Assignment keeps the key order, appending a new key at the end. */
  lemma {:induction false} SetKeys<V>(d: Dict<V>, k: string, v: V)
    ensures Keys(Set(d, k, v)) == if k in Keys(d) then Keys(d) else Keys(d) + [k]
  {
    if |d| > 0 && d[0].0 != k {
      SetKeys(d[1..], k, v);
      assert Keys(d) == [d[0].0] + Keys(d[1..]);
      assert Keys(Set(d, k, v)) == [d[0].0] + Keys(Set(d[1..], k, v));
    } else if |d| > 0 {
      assert Keys(d) == [d[0].0] + Keys(d[1..]);
      assert Keys(Set(d, k, v)) == [k] + Keys(Set(d, k, v)[1..]);
      assert Set(d, k, v)[1..] == d[1..];
    }
  }

  /** Assignment keeps every key unique. */
  lemma SetWf<V>(d: Dict<V>, k: string, v: V)
    requires Wf(d)
    ensures Wf(Set(d, k, v))
  {
    var r := Set(d, k, v);
    SetKeys(d, k, v);
    forall i, j | 0 <= i < j < |r|
      ensures r[i].0 != r[j].0
    {
      assert Keys(r)[i] == r[i].0 && Keys(r)[j] == r[j].0;
      if j < |d| {
        assert Keys(d)[i] == d[i].0 && Keys(d)[j] == d[j].0;
      } else {
        assert Keys(d)[i] == d[i].0;
      }
    }
  }

  /** `{**a, **b}`: the pairs of `b` are assigned, in order, into a copy of `a`. */
  function Merge<V>(a: Dict<V>, b: Dict<V>): Dict<V>
    decreases |b|
  {
    if |b| == 0 then a else Merge(Set(a, b[0].0, b[0].1), b[1..])
  }

  /** A key of `b` wins over the same key of `a`; other keys keep `a`'s value. */
  lemma {:induction false} MergeGet<V>(a: Dict<V>, b: Dict<V>, k: string)
    requires Wf(b)
    ensures Get(Merge(a, b), k) == if Get(b, k).Some? then Get(b, k) else Get(a, k)
    decreases |b|
  {
    if |b| > 0 {
      var a1 := Set(a, b[0].0, b[0].1);
      SetGet(a, b[0].0, b[0].1);
      MergeGet(a1, b[1..], k);
      if k == b[0].0 {
        GetAt(b, 0);
        forall i | 0 <= i < |b[1..]|
          ensures Keys(b[1..])[i] != k
        {
          assert b[1..][i] == b[i + 1];
        }
      }
    }
  }

  /** `a`'s keys stay in front, in their order; the merge of well-formed dicts is well formed. */
  lemma {:induction false} MergeKeys<V>(a: Dict<V>, b: Dict<V>)
    ensures Keys(a) <= Keys(Merge(a, b))
    ensures Wf(a) ==> Wf(Merge(a, b))
    decreases |b|
  {
    if |b| > 0 {
      var a1 := Set(a, b[0].0, b[0].1);
      SetKeys(a, b[0].0, b[0].1);
      if Wf(a) { SetWf(a, b[0].0, b[0].1); }
      MergeKeys(a1, b[1..]);
    }
  }

  /** Merging a concatenation is merging its two parts one after the other. */
  lemma {:induction false} MergeAppend<V>(a: Dict<V>, x: Dict<V>, y: Dict<V>)
    ensures Merge(a, x + y) == Merge(Merge(a, x), y)
    decreases |x|
  {
    if |x| == 0 {
      assert x + y == y;
    } else {
      assert (x + y)[0] == x[0];
      assert (x + y)[1..] == x[1..] + y;
      MergeAppend(Set(a, x[0].0, x[0].1), x[1..], y);
    }
  }

  /** No key of `a` is a key of `b`. */
  predicate Disjoint<V>(a: Dict<V>, b: Dict<V>)
  {
    forall i, j :: 0 <= i < |a| && 0 <= j < |b| ==> a[i].0 != b[j].0
  }

  /** Merging a dict whose keys are all new appends its pairs. */
  lemma {:induction false} MergeFresh<V>(a: Dict<V>, b: Dict<V>)
    requires Disjoint(b, a) && Wf(b)
    ensures Merge(a, b) == a + b
    decreases |b|
  {
    if |b| > 0 {
      var a1 := a + [b[0]];
      var b1 := b[1..];
      assert Merge(a, b) == Merge(a1, b1) by {
        SetFresh(a, b[0].0, b[0].1);
      }
      assert Merge(a1, b1) == a1 + b1 by {
        forall i, j | 0 <= i < |b1| && 0 <= j < |a1|
          ensures b1[i].0 != a1[j].0
        {
          assert b1[i] == b[i + 1];
          if j == |a| { assert a1[j] == b[0]; } else { assert a1[j] == a[j]; }
        }
        forall i, j | 0 <= i < j < |b1|
          ensures b1[i].0 != b1[j].0
        {
          assert b1[i] == b[i + 1] && b1[j] == b[j + 1];
        }
        MergeFresh(a1, b1);
      }
      assert a1 + b1 == a + b by {
        assert b == [b[0]] + b1;
      }
    }
  }

  lemma DisjointCons<V>(a: Dict<V>, p: (string, V), b: Dict<V>)
    requires Disjoint(a, b) && p.0 !in Keys(a)
    ensures Disjoint(a, [p] + b)
  {
    forall i, j | 0 <= i < |a| && 0 <= j < |[p] + b|
      ensures a[i].0 != ([p] + b)[j].0
    {
      assert Keys(a)[i] == a[i].0;
      if j > 0 { assert ([p] + b)[j] == b[j - 1]; }
    }
  }

  /** `OrderedDict([p] + b)` when `p`'s key is not among `b`'s: the pairs as given. */
  lemma BuildFresh<V>(p: (string, V), b: Dict<V>)
    requires Wf(b) && p.0 !in Keys(b)
    ensures Merge([], [p] + b) == [p] + b
  {
    var head := [p] + b;
    forall i, j | 0 <= i < j < |head|
      ensures head[i].0 != head[j].0
    {
      assert head[j] == b[j - 1];
      assert Keys(b)[j - 1] == b[j - 1].0;
      if i > 0 { assert head[i] == b[i - 1]; }
    }
    MergeFresh([], head);
  }

  /** Cutting a well-formed dict around position `k`: both sides are well
      formed, and no key on either side is `b[k]`'s or one from the other side. */
  lemma WfParts<V>(b: Dict<V>, k: nat)
    requires Wf(b) && k < |b|
    ensures Wf(b[..k]) && Wf(b[k + 1..])
    ensures forall i :: 0 <= i < k ==> b[..k][i].0 != b[k].0
    ensures Disjoint(b[k + 1..], [b[k]] + b[..k])
  {
    var before, after := b[..k], b[k + 1..];
    assert Wf(before) by {
      forall i, j | 0 <= i < j < |before|
        ensures before[i].0 != before[j].0
      {
        assert before[i] == b[i] && before[j] == b[j];
      }
    }
    assert Wf(after) by {
      forall i, j | 0 <= i < j < |after|
        ensures after[i].0 != after[j].0
      {
        assert after[i] == b[k + 1 + i] && after[j] == b[k + 1 + j];
      }
    }
    assert Disjoint(after, [b[k]] + before) by {
      var front := [b[k]] + before;
      forall i, j | 0 <= i < |after| && 0 <= j < |front|
        ensures after[i].0 != front[j].0
      {
        assert after[i] == b[k + 1 + i];
        if j > 0 { assert front[j] == b[j - 1]; }
      }
    }
  }

  /** `OrderedDict([p] + b)` when `b[k]` has `p`'s key: that pair takes `p`'s
      place in front and `p`'s value is gone. */
  lemma BuildShadowed<V>(p: (string, V), b: Dict<V>, k: nat)
    requires Wf(b) && k < |b| && b[k].0 == p.0
    ensures Merge([], [p] + b) == [b[k]] + b[..k] + b[k + 1..]
  {
    var before, after := b[..k], b[k + 1..];
    var front := [b[k]] + before;
    WfParts(b, k);
    calc {
      Merge([], [p] + b);
    == { MergeAppend([], [p], b); }
      Merge(Merge([], [p]), b);
    == { assert Merge([], [p]) == [p]; }
      Merge([p], b);
    == { assert b[k..] == [b[k]] + after;
         assert b == before + b[k..];
         MergeAppend([p], before, [b[k]] + after); }
      Merge(Merge([p], before), [b[k]] + after);
    == { assert Disjoint(before, [p]); MergeFresh([p], before); }
      Merge([p] + before, [b[k]] + after);
    == { assert ([b[k]] + after)[1..] == after; assert Set([p] + before, b[k].0, b[k].1) == front; }
      Merge(front, after);
    == { MergeFresh(front, after); }
      front + after;
    }
  }

  /** Looking up in `OrderedDict([p] + b)`: `b`'s value wins over `p`'s. */
  lemma BuildGet<V>(p: (string, V), b: Dict<V>, k: string)
    requires Wf(b)
    ensures Get(Merge([], [p] + b), k) ==
      if Get(b, k).Some? then Get(b, k) else if k == p.0 then Some(p.1) else None
  {
    MergeAppend([], [p], b);
    assert Merge([], [p]) == [p];
    MergeGet([p], b, k);
  }

  /** Assigning a key the dict does not hold appends the pair. */
  lemma {:induction false} SetFresh<V>(d: Dict<V>, k: string, v: V)
    requires forall i :: 0 <= i < |d| ==> d[i].0 != k
    ensures Set(d, k, v) == d + [(k, v)]
  {
    if |d| > 0 {
      assert Set(d[1..], k, v) == d[1..] + [(k, v)] by {
        forall i | 0 <= i < |d[1..]|
          ensures d[1..][i].0 != k
        {
          assert d[1..][i] == d[i + 1];
        }
        SetFresh(d[1..], k, v);
      }
      assert d == [d[0]] + d[1..];
    }
  }

  /** Assigning `a`, then `b`, then `a` again leaves the same dict as assigning
      `a`'s last value and then `b`: a key keeps the position of its first insertion. */
  lemma {:induction false} SetOverwrite<V>(d: Dict<V>, a: string, b: string, x: V, y: V, z: V)
    requires a != b
    ensures Set(Set(Set(d, a, x), b, y), a, z) == Set(Set(d, a, z), b, y)
  {
    if |d| == 0 {
    } else if d[0].0 == a {
      assert Set(d, a, x)[1..] == d[1..];
    } else if d[0].0 == b {
      var d1 := Set(d, a, x);
      assert d1 == [d[0]] + Set(d[1..], a, x);
      assert Set(d1, b, y) == [(b, y)] + Set(d[1..], a, x);
      assert Set(Set(d1, b, y), a, z) == [(b, y)] + Set(Set(d[1..], a, x), a, z);
      SetTwice(d[1..], a, x, z);
    } else {
      SetOverwrite(d[1..], a, b, x, y, z);
    }
  }

  /** Assigning the same key twice: only the last value survives. */
  lemma {:induction false} SetTwice<V>(d: Dict<V>, a: string, x: V, z: V)
    ensures Set(Set(d, a, x), a, z) == Set(d, a, z)
  {
    if |d| > 0 && d[0].0 != a {
      SetTwice(d[1..], a, x, z);
    }
  }

  /** Strictly increasing keys, in Python's string order. */
  predicate SortedByKey<V>(s: Dict<V>)
  {
    forall i, j :: 0 <= i < j < |s| ==> Strings.Less(s[i].0, s[j].0)
  }

  /** A pair whose key is below every key of a sorted list can go in front. */
  lemma ConsSorted<V>(p: (string, V), s: Dict<V>)
    requires SortedByKey(s)
    requires forall q :: q in s ==> Strings.Less(p.0, q.0)
    ensures SortedByKey([p] + s)
  {
    var r := [p] + s;
    forall i, j | 0 <= i < j < |r|
      ensures Strings.Less(r[i].0, r[j].0)
    {
      assert r[j] == s[j - 1];
      if i > 0 { assert r[i] == s[i - 1]; }
    }
  }

  lemma InsertFrontSorted<V>(p: (string, V), s: Dict<V>)
    requires SortedByKey(s) && |s| > 0 && Strings.Less(p.0, s[0].0)
    ensures SortedByKey([p] + s)
  {
    forall q | q in s
      ensures Strings.Less(p.0, q.0)
    {
      var j :| 0 <= j < |s| && s[j] == q;
      if j > 0 { Strings.LessTransitive(p.0, s[0].0, s[j].0); }
    }
    ConsSorted(p, s);
  }

  lemma InsertBehindSorted<V>(p: (string, V), s: Dict<V>, rest: Dict<V>)
    requires SortedByKey(s) && |s| > 0 && !Strings.Less(p.0, s[0].0) && p.0 != s[0].0
    requires SortedByKey(rest) && multiset(rest) == multiset(s[1..]) + multiset{p}
    ensures SortedByKey([s[0]] + rest)
  {
    Strings.LessTotal(p.0, s[0].0);
    forall q | q in rest
      ensures Strings.Less(s[0].0, q.0)
    {
      assert q in multiset(rest);
      if q != p {
        var j :| 0 <= j < |s[1..]| && s[1..][j] == q;
        assert s[j + 1] == q;
      }
    }
    ConsSorted(s[0], rest);
  }

  function Insert<V>(p: (string, V), s: Dict<V>): (r: Dict<V>)
    requires SortedByKey(s)
    requires forall q :: q in s ==> q.0 != p.0
    ensures multiset(r) == multiset(s) + multiset{p}
    ensures SortedByKey(r)
  {
    if |s| == 0 then [p]
    else if Strings.Less(p.0, s[0].0) then
      InsertFrontSorted(p, s);
      [p] + s
    else
      assert s == [s[0]] + s[1..];
      var rest := Insert(p, s[1..]);
      InsertBehindSorted(p, s, rest);
      [s[0]] + rest
  }

  /** `sorted(d.items())`: insertion sort by key. */
  function SortItems<V>(d: Dict<V>): (r: Dict<V>)
    requires Wf(d)
    ensures multiset(r) == multiset(d)
    ensures SortedByKey(r)
  {
    if |d| == 0 then []
    else
      assert d == [d[0]] + d[1..];
      var rest := SortItems(d[1..]);
      forall q | q in rest
        ensures q.0 != d[0].0
      {
        assert q in multiset(rest);
        var j :| 0 <= j < |d[1..]| && d[1..][j] == q;
        assert d[j + 1] == q;
      }
      Insert(d[0], rest)
  }

  /** In a key-sorted list the first pair has the smallest key. */
  lemma SortedHead<V>(s: Dict<V>, p: (string, V))
    requires SortedByKey(s) && p in s
    ensures p == s[0] || Strings.Less(s[0].0, p.0)
  {
  }

  /** Two key-sorted lists holding the same pairs are the same list. */
  lemma {:induction false} SortedUnique<V>(s1: Dict<V>, s2: Dict<V>)
    requires SortedByKey(s1) && SortedByKey(s2)
    requires forall p :: p in s1 <==> p in s2
    ensures s1 == s2
  {
    assert |s1| > 0 ==> s1[0] in s1;
    assert |s2| > 0 ==> s2[0] in s2;
    if |s1| > 0 && |s2| > 0 {
      SortedHead(s1, s2[0]);
      SortedHead(s2, s1[0]);
      Strings.LessIrreflexive(s1[0].0);
      Strings.LessNotBoth(s1[0].0, s2[0].0);
      var h := s1[0];
      assert h == s2[0];
      forall p
        ensures p in s1[1..] <==> p in s2[1..]
      {
        if p in s1[1..] {
          var a :| 0 <= a < |s1[1..]| && s1[1..][a] == p;
          assert s1[a + 1] == p;
          assert Strings.Less(h.0, p.0);
          Strings.LessIrreflexive(h.0);
          assert p in s2;
          assert s2 == [h] + s2[1..];
        }
        if p in s2[1..] {
          var a :| 0 <= a < |s2[1..]| && s2[1..][a] == p;
          assert s2[a + 1] == p;
          assert Strings.Less(h.0, p.0);
          Strings.LessIrreflexive(h.0);
          assert p in s1;
          assert s1 == [h] + s1[1..];
        }
      }
      SortedUnique(s1[1..], s2[1..]);
      assert s1 == [h] + s1[1..];
      assert s2 == [h] + s2[1..];
    }
  }

  /** The sorted items depend only on the mapping, not on the order in which the
      keys were inserted: this is what makes the request URLs deterministic. */
  lemma SortItemsCanonical<V>(d1: Dict<V>, d2: Dict<V>)
    requires Wf(d1) && Wf(d2)
    requires forall k :: Get(d1, k) == Get(d2, k)
    ensures SortItems(d1) == SortItems(d2)
  {
    var s1, s2 := SortItems(d1), SortItems(d2);
    forall p
      ensures p in s1 <==> p in s2
    {
      assert p in s1 <==> p in multiset(d1);
      assert p in s2 <==> p in multiset(d2);
      PairInIffGet(d1, p.0, p.1);
      PairInIffGet(d2, p.0, p.1);
    }
    SortedUnique(s1, s2);
  }
}
