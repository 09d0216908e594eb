/**
 Index sets as multisets. An index is "owned" by whatever container holds it; a
 partition of `0..n` among several containers is the single equation
 "the containers' contents add up to `multiset(Range(n))`".
 */
module Indices {
  datatype Option<+T> = None | Some(value: T)

  datatype Result<+T, +E> = Success(value: T) | Failure(error: E)

  /** The indices `0..n` in increasing order. */
  function Range(n: nat): (s: seq<nat>)
    ensures |s| == n && forall i :: 0 <= i < n ==> s[i] == i
  {
    seq(n, i => i)
  }

  /** `s` with `x` at `index`, if there is such a position. */
  function Put<T>(s: seq<T>, index: nat, x: T): (s': seq<T>)
    ensures |s'| == |s|
  {
    if index < |s| then s[index := x] else s
  }

  /** A queue with its history stays a queue when its first element leaves or another joins. */
  lemma QueueTurns<T>(out: seq<T>, queue: seq<T>, start: seq<T>, joined: seq<T>, x: T)
    requires out + queue == start + joined
    ensures queue != [] ==> out + [queue[0]] + queue[1..] == start + joined
    ensures out + (queue + [x]) == start + (joined + [x])
    ensures out + [] == out && joined + [] == joined
  {
    if queue != [] {
      assert queue == [queue[0]] + queue[1..];
    }
    assert out + (queue + [x]) == out + queue + [x];
  }

  ghost predicate NoDup<T>(s: seq<T>) {
    forall i, j :: 0 <= i < j < |s| ==> s[i] != s[j]
  }

  ghost function AnyKey<T>(m: map<int, T>): (k: int)
    requires m.Keys != {}
    ensures k in m
  {
    assert exists k :: k in m by {
      if forall k :: k !in m {
        assert false;
      }
    }
    var k :| k in m; k
  }

  /** The values of `m`, each with the number of keys that map to it. */
  ghost function Values(m: map<int, nat>): multiset<nat>
    decreases m.Keys
  {
    if m.Keys == {} then multiset{}
    else var k := AnyKey(m); multiset{m[k]} + Values(m - {k})
  }

  lemma {:induction false} ValuesSplit(m: map<int, nat>, k: int)
    requires k in m
    ensures Values(m) == multiset{m[k]} + Values(m - {k})
    decreases m.Keys
  {
    var c := AnyKey(m);
    if c != k {
      var a, b := m - {c}, m - {k};
      var rest := b - {c};
      assert a - {k} == rest;
      ValuesSplit(a, k);
      ValuesSplit(b, c);
      Reorder(m[c], m[k], Values(rest));
    }
  }

  lemma Reorder(x: nat, y: nat, rest: multiset<nat>)
    ensures multiset{x} + (multiset{y} + rest) == multiset{y} + (multiset{x} + rest)
  {
  }

  lemma ValuesUpdate(m: map<int, nat>, k: int, v: nat)
    ensures Values(m[k := v]) == Values(m - {k}) + multiset{v}
  {
    ValuesSplit(m[k := v], k);
    assert m[k := v] - {k} == m - {k};
  }

  lemma {:induction false} ValuesSize(m: map<int, nat>)
    ensures |Values(m)| == |m|
    decreases m.Keys
  {
    if m.Keys != {} {
      var k := AnyKey(m);
      ValuesSplit(m, k);
      ValuesSize(m - {k});
      assert m.Keys == (m - {k}).Keys + {k};
    }
  }

  /** How often `v` occurs in `Values(m)`, read off the map. */
  lemma {:induction false} ValuesCount(m: map<int, nat>, v: nat)
    ensures v in Values(m) <==> exists k :: k in m && m[k] == v
    ensures Values(m)[v] <= 1 <==> forall j, k :: j in m && k in m && m[j] == v && m[k] == v ==> j == k
    decreases m.Keys
  {
    if m.Keys != {} {
      if k :| k in m && m[k] == v {
        ValuesSplit(m, k);
        ValuesCount(m - {k}, v);
        assert Values(m)[v] == 1 + Values(m - {k})[v];
        if v in Values(m - {k}) {
          var j :| j in m - {k} && (m - {k})[j] == v;
          assert j in m && j != k && m[j] == v;
        } else {
          forall j | j in m && m[j] == v ensures j == k {
            assert j != k ==> j in m - {k};
          }
        }
      } else {
        var k := AnyKey(m);
        ValuesSplit(m, k);
        ValuesCount(m - {k}, v);
      }
    }
  }

  lemma {:induction false} RangeCount(n: nat, v: nat)
    ensures multiset(Range(n))[v] == if v < n then 1 else 0
  {
    if n > 0 {
      RangeCount(n - 1, v);
      assert Range(n) == Range(n - 1) + [n - 1];
    }
  }

  lemma {:induction false} NoDupCount<T>(s: seq<T>)
    ensures NoDup(s) <==> forall v :: multiset(s)[v] <= 1
  {
    if |s| > 0 {
      var n := |s| - 1;
      assert s == s[..n] + [s[n]];
      NoDupCount(s[..n]);
      if NoDup(s) {
        assert s[n] !in s[..n];
      } else if NoDup(s[..n]) {
        var i, j :| 0 <= i < j < |s| && s[i] == s[j];
        assert j == n && s[..n][i] == s[n];
        assert multiset(s)[s[n]] >= 2;
      } else {
        var v :| multiset(s[..n])[v] > 1;
        assert multiset(s)[v] > 1;
      }
    }
  }

  /**
   A list, a map's values and a further pile of indices partition `0..n`: no
   index is lost, none is in two places and none is in one place twice.
   */
  ghost predicate Partition(n: nat, list: seq<nat>, m: map<int, nat>, pile: multiset<nat>) {
    multiset(list) + Values(m) + pile == multiset(Range(n))
  }

  /** Index `v` is held by a key of `m`. */
  ghost predicate Mapped(m: map<int, nat>, v: nat) {
    exists k :: k in m && m[k] == v
  }

  ghost predicate Injective(m: map<int, nat>) {
    forall j, k :: j in m && k in m && m[j] == m[k] ==> j == k
  }

  /** The statement of a partition in five parts: nothing twice, nothing in two places, nothing missing. */
  ghost predicate OwnedOnce(n: nat, list: seq<nat>, m: map<int, nat>, pile: multiset<nat>) {
    && NoDup(list)
    && Injective(m)
    && (forall v: nat :: pile[v] <= 1)
    && (forall v: nat :: v in list ==> v !in pile && !Mapped(m, v))
    && (forall v: nat :: v in pile ==> !Mapped(m, v))
    && (forall v: nat :: v < n <==> v in list || v in pile || Mapped(m, v))
  }

  lemma CountsOfPartition(n: nat, list: seq<nat>, m: map<int, nat>, pile: multiset<nat>, v: nat)
    requires Partition(n, list, m, pile)
    ensures multiset(list)[v] + Values(m)[v] + pile[v] == if v < n then 1 else 0
    ensures v in list <==> multiset(list)[v] > 0
    ensures Mapped(m, v) <==> Values(m)[v] > 0
  {
    RangeCount(n, v);
    ValuesCount(m, v);
    assert (multiset(list) + Values(m) + pile)[v] == multiset(Range(n))[v];
  }

  /** The one equation is exactly what a reader expects of a partition. */
  lemma PartitionMeaning(n: nat, list: seq<nat>, m: map<int, nat>, pile: multiset<nat>)
    ensures Partition(n, list, m, pile) <==> OwnedOnce(n, list, m, pile)
  {
    if Partition(n, list, m, pile) {
      forall v: nat {
        CountsOfPartition(n, list, m, pile, v);
      }
      NoDupCount(list);
      forall j, k | j in m && k in m && m[j] == m[k] ensures j == k {
        CountsOfPartition(n, list, m, pile, m[j]);
        ValuesCount(m, m[j]);
      }
    }
    if OwnedOnce(n, list, m, pile) {
      PartitionOfOwnedOnce(n, list, m, pile);
    }
  }

  lemma PartitionOfOwnedOnce(n: nat, list: seq<nat>, m: map<int, nat>, pile: multiset<nat>)
    requires OwnedOnce(n, list, m, pile)
    ensures Partition(n, list, m, pile)
  {
    NoDupCount(list);
    forall v: nat ensures (multiset(list) + Values(m) + pile)[v] == multiset(Range(n))[v] {
      RangeCount(n, v);
      ValuesCount(m, v);
      assert v in multiset(list) <==> v in list;
      assert Values(m)[v] <= 1;
      assert Mapped(m, v) <==> v in Values(m);
    }
  }
}
