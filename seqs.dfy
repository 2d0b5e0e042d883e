/**
 * Sequence helpers for the two list disciplines the builder uses: keeping the
 * elements that pass a test, in order, and keeping the first occurrence of
 * each element, in order (a slice grown under a "seen" map).
 */
module Seqs {
  import opened Wrappers

  function Filter<T>(p: T -> bool, s: seq<T>): (r: seq<T>)
    ensures |r| <= |s|
  {
    if s == [] then []
    else Filter(p, s[..|s| - 1]) + (if p(s[|s| - 1]) then [s[|s| - 1]] else [])
  }

  lemma AppendAssoc<T>(a: seq<T>, b: seq<T>, c: seq<T>)
    ensures a + (b + c) == a + b + c
  {
  }

  lemma {:induction false} FilterElements<T>(p: T -> bool, s: seq<T>, x: T)
    ensures x in Filter(p, s) <==> x in s && p(x)
  {
    if s != [] {
      var init, last := s[..|s| - 1], s[|s| - 1];
      FilterElements(p, init, x);
      assert s == init + [last];
      assert x in s <==> x in init || x == last;
    }
  }

  lemma {:induction false} FilterAppend<T>(p: T -> bool, s: seq<T>, t: seq<T>)
    ensures Filter(p, s + t) == Filter(p, s) + Filter(p, t)
    decreases |t|
  {
    if t == [] {
      assert s + t == s;
    } else {
      var init, last := t[..|t| - 1], t[|t| - 1];
      FilterAppend(p, s, init);
      assert (s + t)[..|s + t| - 1] == s + init;
      assert (s + t)[|s + t| - 1] == last;
      var e := if p(last) then [last] else [];
      calc {
        Filter(p, s + t);
        Filter(p, s + init) + e;
        Filter(p, s) + Filter(p, init) + e;
        Filter(p, s) + (Filter(p, init) + e);
      }
    }
  }

  /** Splitting by a test and its negation keeps every element exactly once. */
  lemma {:induction false} FilterPartition<T>(p: T -> bool, q: T -> bool, s: seq<T>)
    requires forall x :: q(x) == !p(x)
    ensures multiset(Filter(p, s)) + multiset(Filter(q, s)) == multiset(s)
  {
    if s != [] {
      var init, x := s[..|s| - 1], s[|s| - 1];
      FilterPartition(p, q, init);
      assert s == init + [x];
      assert multiset(s) == multiset(init) + multiset{x};
      var a, b := Filter(p, init), Filter(q, init);
      if p(x) {
        assert Filter(p, s) == a + [x];
        assert Filter(q, s) == b;
        assert multiset(a + [x]) == multiset(a) + multiset{x};
      } else {
        assert Filter(p, s) == a;
        assert Filter(q, s) == b + [x];
        assert multiset(b + [x]) == multiset(b) + multiset{x};
      }
    }
  }

  predicate NoDup<T(==)>(s: seq<T>) {
    forall i, j :: 0 <= i < j < |s| ==> s[i] != s[j]
  }

  /** A sequence without repeats has as many distinct elements as entries. */
  lemma {:induction false} NoDupCard<T>(s: seq<T>)
    requires NoDup(s)
    ensures |set x | x in s| == |s|
  {
    if s != [] {
      var init := s[..|s| - 1];
      var last := s[|s| - 1];
      assert NoDup(init);
      NoDupCard(init);
      assert last !in init;
      assert (set x | x in s) == (set x | x in init) + {last};
    }
  }

  /** An order listing every key of a map once has one entry per key. */
  lemma KeyOrderLength<K, V>(m: map<K, V>, order: seq<K>)
    requires forall k :: k in order <==> k in m
    requires NoDup(order)
    ensures |order| == |m|
  {
    NoDupCard(order);
    assert (set k | k in order) == m.Keys;
  }

  /** Index of the first occurrence of `x` in `s`. */
  function FirstIndex<T(==)>(s: seq<T>, x: T): (k: nat)
    requires x in s
    ensures k < |s| && s[k] == x && x !in s[..k]
  {
    if s[0] == x then 0
    else
      var k := FirstIndex(s[1..], x) + 1;
      assert s[..k] == [s[0]] + s[1..][..k - 1];
      k
  }

  /** The first occurrence of each element of `s`, in the order of `s`. */
  function Dedup<T(==)>(s: seq<T>): seq<T> {
    if s == [] then []
    else
      var d := Dedup(s[..|s| - 1]);
      if s[|s| - 1] in d then d else d + [s[|s| - 1]]
  }

  lemma {:induction false} DedupElements<T>(s: seq<T>)
    ensures forall x :: x in Dedup(s) <==> x in s
  {
    if s != [] {
      DedupElements(s[..|s| - 1]);
      assert s == s[..|s| - 1] + [s[|s| - 1]];
    }
  }

  lemma {:induction false} DedupNoDup<T>(s: seq<T>)
    ensures NoDup(Dedup(s))
  {
    if s != [] {
      DedupNoDup(s[..|s| - 1]);
    }
  }

  lemma FirstIndexExtend<T>(s: seq<T>, x: T, y: T)
    requires y in s
    ensures FirstIndex(s + [x], y) == FirstIndex(s, y)
  {
    var k := FirstIndex(s, y);
    var k' := FirstIndex(s + [x], y);
    assert (s + [x])[..k] == s[..k];
    assert (s + [x])[k] == y;
    assert k' <= k ==> (s + [x])[..k'] == s[..k'];
    assert k' >= k ==> (s + [x])[..k'] == s[..k] + (s + [x])[k..k'];
  }

  /**
   * Dedup keeps first-occurrence order: earlier entries of the result first
   * occur earlier in the input.
   */
  lemma OrderedSnoc<T>(s: seq<T>, d: seq<T>, x: T)
    requires x in s && forall y :: y in d ==> y in s
    requires forall i, j :: 0 <= i < j < |d| ==> FirstIndex(s, d[i]) < FirstIndex(s, d[j])
    requires forall y :: y in d ==> FirstIndex(s, y) < FirstIndex(s, x)
    ensures forall i, j :: 0 <= i < j < |d + [x]| ==>
      FirstIndex(s, (d + [x])[i]) < FirstIndex(s, (d + [x])[j])
  {
    forall i, j | 0 <= i < j < |d + [x]|
      ensures FirstIndex(s, (d + [x])[i]) < FirstIndex(s, (d + [x])[j])
    {
      assert (d + [x])[i] == d[i];
      assert j < |d| ==> (d + [x])[j] == d[j];
    }
  }

  /** Elements of Dedup(s), ordered by where they first occur in `s`. */
  ghost predicate OrderedByFirst<T>(s: seq<T>, d: seq<T>) {
    (forall x :: x in d ==> x in s) &&
    forall i, j :: 0 <= i < j < |d| ==> FirstIndex(s, d[i]) < FirstIndex(s, d[j])
  }

  lemma OrderedExtend<T>(init: seq<T>, x: T, d: seq<T>)
    requires OrderedByFirst(init, d)
    ensures OrderedByFirst(init + [x], d)
    ensures forall y :: y in d ==> FirstIndex(init + [x], y) < |init|
  {
    forall y | y in d
      ensures FirstIndex(init + [x], y) == FirstIndex(init, y)
    {
      FirstIndexExtend(init, x, y);
    }
  }

  lemma DedupOrderSnoc<T>(init: seq<T>, x: T)
    requires OrderedByFirst(init, Dedup(init))
    ensures OrderedByFirst(init + [x], Dedup(init + [x]))
  {
    var s := init + [x];
    var d := Dedup(init);
    DedupSnoc(init, x);
    OrderedExtend(init, x, d);
    if x !in d {
      DedupElements(init);
      assert s[..|init|] == init;
      assert FirstIndex(s, x) == |init|;
      OrderedSnoc(s, d, x);
    }
  }

  /** Dedup keeps first-occurrence order. */
  lemma {:induction false} DedupOrder<T>(s: seq<T>)
    ensures OrderedByFirst(s, Dedup(s))
  {
    if s != [] {
      var init, x := s[..|s| - 1], s[|s| - 1];
      assert s == init + [x];
      DedupOrder(init);
      DedupOrderSnoc(init, x);
    }
  }

  /** An element already present never changes Dedup; a new one is appended. */
  lemma DedupSnoc<T>(s: seq<T>, x: T)
    ensures Dedup(s + [x]) == if x in Dedup(s) then Dedup(s) else Dedup(s) + [x]
  {
    assert (s + [x])[..|s + [x]| - 1] == s;
  }

  /** The values `f` yields over `s`, in order, skipping the elements it yields none for. */
  function Collect<T, U>(f: T -> Option<U>, s: seq<T>): seq<U> {
    if s == [] then []
    else Collect(f, s[..|s| - 1]) + (if f(s[|s| - 1]).Some? then [f(s[|s| - 1]).value] else [])
  }

  lemma {:induction false} CollectElements<T(!new), U(!new)>(f: T -> Option<U>, s: seq<T>)
    ensures forall y :: y in Collect(f, s) <==> exists i :: 0 <= i < |s| && f(s[i]) == Some(y)
  {
    if s != [] {
      var init := s[..|s| - 1];
      CollectElements(f, init);
      forall y | y in Collect(f, s)
        ensures exists i :: 0 <= i < |s| && f(s[i]) == Some(y)
      {
        if y !in Collect(f, init) {
          assert f(s[|s| - 1]) == Some(y);
        } else {
          var i :| 0 <= i < |init| && f(init[i]) == Some(y);
          assert s[i] == init[i];
        }
      }
      forall y, i | 0 <= i < |s| && f(s[i]) == Some(y)
        ensures y in Collect(f, s)
      {
        if i < |init| {
          assert init[i] == s[i];
        }
      }
    }
  }

  lemma {:induction false} CollectAppend<T, U>(f: T -> Option<U>, a: seq<T>, b: seq<T>)
    ensures Collect(f, a + b) == Collect(f, a) + Collect(f, b)
    decreases |b|
  {
    if b == [] {
      assert a + b == a;
    } else {
      CollectAppend(f, a, b[..|b| - 1]);
      assert (a + b)[..|a + b| - 1] == a + b[..|b| - 1];
    }
  }

  lemma CollectSnoc<T, U>(f: T -> Option<U>, s: seq<T>, x: T)
    ensures Collect(f, s + [x]) == Collect(f, s) + (if f(x).Some? then [f(x).value] else [])
  {
    assert (s + [x])[..|s + [x]| - 1] == s;
  }

  /**
   * The loop step that grows a list of distinct values beside a set of the
   * values already listed: a value is appended only when the set lacks it.
   */
  method AppendNew<U>(x: Option<U>, out: seq<U>, seen: set<U>) returns (out': seq<U>, seen': set<U>)
    requires forall p :: p in seen <==> p in out
    ensures out' == if x.Some? && x.value !in out then out + [x.value] else out
    ensures forall p :: p in seen' <==> p in out'
  {
    out', seen' := out, seen;
    if x.Some? && x.value !in seen {
      seen' := seen + {x.value};
      out' := out + [x.value];
    }
  }
}
