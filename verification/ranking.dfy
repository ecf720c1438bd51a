/**
 The three list steps the format resolver applies to the extractor's format records:
 keep the first entry per key (the loop with a `seen` set), order by an integer key with
 Python's stable `sorted(..., reverse=True)`, and cut the list with `[:n]`.
 */
module Ranking {
  import opened Options

  // ---- first occurrence per key ----

  /** Entry `i` passes the filter and no earlier entry that passes has the same key:
      it is the one the `seen`-set loop keeps. */
  ghost predicate IsFirst<T, K>(s: seq<T>, keep: T -> bool, key: T -> K, i: int) {
    && 0 <= i < |s|
    && keep(s[i])
    && forall j :: 0 <= j < i && keep(s[j]) ==> key(s[j]) != key(s[i])
  }

  /** The contents of the `seen` set after the loop has looked at the first `n` entries. */
  ghost function KeysBefore<T, K>(s: seq<T>, keep: T -> bool, key: T -> K, n: nat): set<K>
    requires n <= |s|
  {
    set j | 0 <= j < n && keep(s[j]) :: key(s[j])
  }

  /** The loop itself, from entry `from` on, with the keys already seen. */
  function FirstsFrom<T, K(==)>(s: seq<T>, keep: T -> bool, key: T -> K, from: nat, seen: set<K>): (r: seq<nat>)
    requires from <= |s|
    ensures forall k :: 0 <= k < |r| ==> from <= r[k] < |s|
    ensures forall a, b :: 0 <= a < b < |r| ==> r[a] < r[b]
    decreases |s| - from
  {
    if from == |s| then []
    else if keep(s[from]) && key(s[from]) !in seen then
      [from] + FirstsFrom(s, keep, key, from + 1, seen + {key(s[from])})
    else
      FirstsFrom(s, keep, key, from + 1, seen)
  }

  lemma {:induction false} FirstsFromSpec<T, K>(s: seq<T>, keep: T -> bool, key: T -> K, from: nat, seen: set<K>)
    requires from <= |s|
    requires seen == KeysBefore(s, keep, key, from)
    ensures forall k :: 0 <= k < |FirstsFrom(s, keep, key, from, seen)| ==>
              IsFirst(s, keep, key, FirstsFrom(s, keep, key, from, seen)[k])
    ensures forall i :: from <= i < |s| && IsFirst(s, keep, key, i) ==> i in FirstsFrom(s, keep, key, from, seen)
    decreases |s| - from
  {
    if from < |s| {
      var x := s[from];
      var isNew := keep(x) && key(x) !in seen;
      var next := if isNew then seen + {key(x)} else seen;
      KeysBeforeStep(s, keep, key, from);
      FirstsFromSpec(s, keep, key, from + 1, next);
      if isNew {
        forall j | 0 <= j < from && keep(s[j]) ensures key(s[j]) != key(x) {
          assert key(s[j]) in KeysBefore(s, keep, key, from);
        }
        assert IsFirst(s, keep, key, from);
      } else if keep(x) {
        var j :| 0 <= j < from && keep(s[j]) && key(s[j]) == key(x);
        assert !IsFirst(s, keep, key, from);
      }
    }
  }

  /** One more step of the loop adds the entry's key when it passes `keep`. */
  lemma KeysBeforeStep<T, K>(s: seq<T>, keep: T -> bool, key: T -> K, from: nat)
    requires from < |s|
    ensures KeysBefore(s, keep, key, from + 1) ==
              if keep(s[from]) then KeysBefore(s, keep, key, from) + {key(s[from])}
              else KeysBefore(s, keep, key, from)
  {
    var seen := KeysBefore(s, keep, key, from);
    var next := if keep(s[from]) then seen + {key(s[from])} else seen;
    forall v | v in KeysBefore(s, keep, key, from + 1) ensures v in next {
      var j :| 0 <= j < from + 1 && keep(s[j]) && key(s[j]) == v;
      if j < from {
        assert v in seen;
      }
    }
    forall v | v in next ensures v in KeysBefore(s, keep, key, from + 1) {
      if v in seen {
        var j :| 0 <= j < from && keep(s[j]) && key(s[j]) == v;
        assert 0 <= j < from + 1;
      } else {
        assert keep(s[from]) && key(s[from]) == v;
      }
    }
  }

  /** Indices of the entries the `seen`-set loop keeps, in source order: exactly the
      first entry of each key among those that pass `keep`. */
  function Firsts<T, K(==)>(s: seq<T>, keep: T -> bool, key: T -> K): (r: seq<nat>)
    ensures forall k :: 0 <= k < |r| ==> IsFirst(s, keep, key, r[k])
    ensures forall i :: IsFirst(s, keep, key, i) ==> i in r
    ensures forall a, b :: 0 <= a < b < |r| ==> r[a] < r[b]
  {
    assert KeysBefore(s, keep, key, 0) == {};
    FirstsFromSpec(s, keep, key, 0, {});
    FirstsFrom(s, keep, key, 0, {})
  }

  /** Two different first occurrences never share a key. */
  lemma FirstsHaveDistinctKeys<T, K>(s: seq<T>, keep: T -> bool, key: T -> K, i: int, j: int)
    requires IsFirst(s, keep, key, i) && IsFirst(s, keep, key, j) && i != j
    ensures key(s[i]) != key(s[j])
  {
  }

  /** Every entry that passes the filter shares its key with a first occurrence. */
  lemma {:induction false} FirstOfKeyExists<T, K>(s: seq<T>, keep: T -> bool, key: T -> K, i: int)
    requires 0 <= i < |s| && keep(s[i])
    ensures exists j :: IsFirst(s, keep, key, j) && key(s[j]) == key(s[i])
    decreases i
  {
    if !IsFirst(s, keep, key, i) {
      var j :| 0 <= j < i && keep(s[j]) && key(s[j]) == key(s[i]);
      FirstOfKeyExists(s, keep, key, j);
    }
  }

  // ---- stable descending sort ----

  /** A source index with the sort key Python computes for that entry. */
  datatype Ranked = Ranked(index: nat, key: int)

  /** `x` is placed before `y`: the larger key first, and on equal keys the entry that came
      first in the source (Python's sort is stable, also with `reverse=True`). */
  predicate Precedes(x: Ranked, y: Ranked) {
    x.key > y.key || (x.key == y.key && x.index < y.index)
  }

  ghost predicate KeyDescending(s: seq<Ranked>) {
    forall a, b :: 0 <= a < b < |s| ==> s[a].key >= s[b].key
  }

  ghost predicate RankOrdered(s: seq<Ranked>) {
    forall a, b :: 0 <= a < b < |s| ==> Precedes(s[a], s[b])
  }

  ghost predicate IndexAscending(s: seq<Ranked>) {
    forall a, b :: 0 <= a < b < |s| ==> s[a].index < s[b].index
  }

  /** Puts `x` in front of the first element whose key does not exceed its own. */
  function Insert(x: Ranked, s: seq<Ranked>): (r: seq<Ranked>)
    ensures multiset(r) == multiset(s) + multiset{x}
    decreases |s|
  {
    if |s| == 0 || s[0].key <= x.key then [x] + s
    else
      assert s == [s[0]] + s[1..];
      [s[0]] + Insert(x, s[1..])
  }

  lemma InsertedFrom(x: Ranked, s: seq<Ranked>, y: Ranked)
    requires y in Insert(x, s)
    ensures y == x || y in s
  {
    assert y in multiset(Insert(x, s));
  }

  lemma {:induction false} InsertKeepsDescending(x: Ranked, s: seq<Ranked>)
    requires KeyDescending(s)
    ensures KeyDescending(Insert(x, s))
    decreases |s|
  {
    if |s| > 0 && s[0].key > x.key {
      var rest := Insert(x, s[1..]);
      InsertKeepsDescending(x, s[1..]);
      HeadOutranksTail(s);
      forall y | y in rest ensures s[0].key >= y.key {
        InsertedFrom(x, s[1..], y);
      }
      ConsKeepsDescending(s[0], rest);
    }
  }

  lemma {:induction false} InsertKeepsRankOrder(x: Ranked, s: seq<Ranked>)
    requires RankOrdered(s)
    requires forall k :: 0 <= k < |s| ==> x.index < s[k].index
    ensures RankOrdered(Insert(x, s))
    decreases |s|
  {
    if |s| > 0 && s[0].key > x.key {
      var rest := Insert(x, s[1..]);
      InsertKeepsRankOrder(x, s[1..]);
      HeadOutranksTail(s);
      forall y | y in rest ensures Precedes(s[0], y) {
        InsertedFrom(x, s[1..], y);
      }
      ConsKeepsRankOrder(s[0], rest);
    }
  }

  /** In an ordered list the head comes before every later element. */
  lemma HeadOutranksTail(s: seq<Ranked>)
    requires |s| > 0
    ensures KeyDescending(s) ==> forall y :: y in s[1..] ==> s[0].key >= y.key
    ensures RankOrdered(s) ==> forall y :: y in s[1..] ==> Precedes(s[0], y)
  {
    forall y | y in s[1..] ensures exists j :: 0 < j < |s| && s[j] == y {
      var j :| 0 <= j < |s[1..]| && s[1..][j] == y;
      assert s[j + 1] == y;
    }
  }

  lemma ConsKeepsDescending(h: Ranked, s: seq<Ranked>)
    requires KeyDescending(s) && forall y :: y in s ==> h.key >= y.key
    ensures KeyDescending([h] + s)
  {
    var t := [h] + s;
    forall a, b | 0 <= a < b < |t| ensures t[a].key >= t[b].key {
      if a > 0 {
        assert t[a] == s[a - 1] && t[b] == s[b - 1];
      } else {
        assert t[b] == s[b - 1] && s[b - 1] in s;
      }
    }
  }

  lemma ConsKeepsRankOrder(h: Ranked, s: seq<Ranked>)
    requires RankOrdered(s) && forall y :: y in s ==> Precedes(h, y)
    ensures RankOrdered([h] + s)
  {
    var t := [h] + s;
    forall a, b | 0 <= a < b < |t| ensures Precedes(t[a], t[b]) {
      if a > 0 {
        assert t[a] == s[a - 1] && t[b] == s[b - 1];
      } else {
        assert t[b] == s[b - 1] && s[b - 1] in s;
      }
    }
  }

  /** Python's `sorted(s, key=..., reverse=True)` on precomputed keys (an insertion sort
      that puts each element ahead of the equal keys that follow it). */
  function SortDescending(s: seq<Ranked>): (r: seq<Ranked>)
    ensures multiset(r) == multiset(s)
    decreases |s|
  {
    if |s| == 0 then []
    else
      assert s == [s[0]] + s[1..];
      Insert(s[0], SortDescending(s[1..]))
  }

  /** The sorted list is ordered by key, largest first; when the input lists entries in
      source order, equal keys also keep their source order (stability). */
  lemma {:induction false} SortDescendingOrders(s: seq<Ranked>)
    ensures KeyDescending(SortDescending(s))
    ensures IndexAscending(s) ==> RankOrdered(SortDescending(s))
    decreases |s|
  {
    if |s| > 0 {
      var rest := SortDescending(s[1..]);
      SortDescendingOrders(s[1..]);
      InsertKeepsDescending(s[0], rest);
      if IndexAscending(s) {
        assert IndexAscending(s[1..]);
        forall k | 0 <= k < |rest| ensures s[0].index < rest[k].index {
          assert rest[k] in multiset(rest);
          assert rest[k] in s[1..];
        }
        InsertKeepsRankOrder(s[0], rest);
      }
    }
  }

  /** Python's `s[:n]`. */
  function Take<T>(s: seq<T>, n: nat): (r: seq<T>)
    ensures |r| == (if |s| <= n then |s| else n) && r == s[..|r|]
  {
    if |s| <= n then s else s[..n]
  }

  /** An element that `[:n]` cuts off a ranked list is outranked by all `n` that stay. */
  lemma DroppedIsOutranked(s: seq<Ranked>, n: nat, x: Ranked)
    requires RankOrdered(s) && x in s && x !in Take(s, n)
    ensures |Take(s, n)| == n
    ensures forall k :: 0 <= k < n ==> Precedes(Take(s, n)[k], x)
  {
    var i :| 0 <= i < |s| && s[i] == x;
    assert i >= n;
  }

  // ---- the combined step ----

  /** Pairs each picked index with its sort key; `None` when some key cannot be computed
      (where Python's `int()` inside the key function raises). */
  function KeyEach<T>(s: seq<T>, picks: seq<nat>, sortKey: T -> Option<int>): (r: Option<seq<Ranked>>)
    requires forall k :: 0 <= k < |picks| ==> picks[k] < |s|
    ensures r.Some? <==> forall k :: 0 <= k < |picks| ==> sortKey(s[picks[k]]).Some?
    ensures r.Some? ==> |r.value| == |picks|
    ensures r.Some? ==> forall k :: 0 <= k < |picks| ==>
              r.value[k].index == picks[k] && sortKey(s[picks[k]]) == Some(r.value[k].key)
    decreases |picks|
  {
    if |picks| == 0 then Some([])
    else
      match sortKey(s[picks[0]])
      case None => None
      case Some(v) =>
        match KeyEach(s, picks[1..], sortKey)
        case None =>
          assert exists k :: 0 <= k < |picks[1..]| && sortKey(s[picks[1..][k]]).None?;
          None
        case Some(rest) => Some([Ranked(picks[0], v)] + rest)
  }

  /** First entry per `dedupKey` among the entries passing `keep`, ordered by `sortKey`
      (largest first, ties in source order), cut to `limit`: the `seen` loop, `sorted` and
      `[:limit]` the resolver runs. `None` when a kept entry has no integer key. */
  function TopFirsts<T, K(==)>(s: seq<T>, keep: T -> bool, dedupKey: T -> K, sortKey: T -> Option<int>, limit: nat)
    : (r: Option<seq<Ranked>>)
    ensures r.Some? <==> forall i :: IsFirst(s, keep, dedupKey, i) ==> sortKey(s[i]).Some?
    ensures r.Some? ==> |r.value| <= limit
    ensures r.Some? ==> forall k :: 0 <= k < |r.value| ==>
              IsFirst(s, keep, dedupKey, r.value[k].index) && sortKey(s[r.value[k].index]) == Some(r.value[k].key)
    ensures r.Some? ==> RankOrdered(r.value)
  {
    var picks := Firsts(s, keep, dedupKey);
    match KeyEach(s, picks, sortKey)
    case None =>
      var k :| 0 <= k < |picks| && sortKey(s[picks[k]]).None?;
      assert IsFirst(s, keep, dedupKey, picks[k]);
      None
    case Some(ranked) =>
      RankedAreFirsts(s, keep, dedupKey, sortKey, picks, ranked);
      var top := SortAndCut(ranked, limit);
      forall k | 0 <= k < |top|
        ensures IsFirst(s, keep, dedupKey, top[k].index) && sortKey(s[top[k].index]) == Some(top[k].key)
      {
        assert top[k] in top;
      }
      Some(top)
  }

  /** The keyed first occurrences are in source order, each a first occurrence with its key. */
  lemma RankedAreFirsts<T, K>(s: seq<T>, keep: T -> bool, dedupKey: T -> K, sortKey: T -> Option<int>,
                              picks: seq<nat>, ranked: seq<Ranked>)
    requires picks == Firsts(s, keep, dedupKey) && KeyEach(s, picks, sortKey) == Some(ranked)
    ensures IndexAscending(ranked)
    ensures forall x :: x in ranked ==> IsFirst(s, keep, dedupKey, x.index) && sortKey(s[x.index]) == Some(x.key)
  {
    forall x | x in ranked ensures IsFirst(s, keep, dedupKey, x.index) && sortKey(s[x.index]) == Some(x.key) {
      var m :| 0 <= m < |ranked| && ranked[m] == x;
    }
  }

  /** `sorted(..., reverse=True)[:limit]` on keyed entries: at most `limit` of them, all
      taken from the input, in rank order when the input was in source order. */
  function SortAndCut(ranked: seq<Ranked>, limit: nat): (top: seq<Ranked>)
    ensures |top| <= limit
    ensures forall x :: x in top ==> x in ranked
    ensures IndexAscending(ranked) ==> RankOrdered(top)
  {
    var sorted := SortDescending(ranked);
    var top := Take(sorted, limit);
    SortDescendingOrders(ranked);
    forall x | x in top ensures x in ranked {
      var k :| 0 <= k < |top| && top[k] == x;
      assert sorted[k] == x;
      assert x in multiset(ranked);
    }
    top
  }

  /** The source indices of a ranked list, in its order. */
  function Indices(top: seq<Ranked>): (p: seq<nat>)
    ensures |p| == |top| && forall k :: 0 <= k < |p| ==> p[k] == top[k].index
  {
    if |top| == 0 then [] else [top[0].index] + Indices(top[1..])
  }

  /** Every first occurrence is either among the kept ones or outranked by all `limit` of them. */
  lemma TopFirstsComplete<T, K>(s: seq<T>, keep: T -> bool, dedupKey: T -> K, sortKey: T -> Option<int>, limit: nat, i: int)
    requires TopFirsts(s, keep, dedupKey, sortKey, limit).Some?
    requires IsFirst(s, keep, dedupKey, i)
    ensures sortKey(s[i]).Some?
    ensures var top := TopFirsts(s, keep, dedupKey, sortKey, limit).value;
      || (exists k :: 0 <= k < |top| && top[k].index == i)
      || (|top| == limit && forall k :: 0 <= k < |top| ==> Precedes(top[k], Ranked(i, sortKey(s[i]).value)))
  {
    var picks := Firsts(s, keep, dedupKey);
    var ranked := KeyEach(s, picks, sortKey).value;
    var sorted := SortDescending(ranked);
    var top := Take(sorted, limit);
    assert TopFirsts(s, keep, dedupKey, sortKey, limit).value == top;
    var m :| 0 <= m < |picks| && picks[m] == i;
    var x := ranked[m];
    assert x == Ranked(i, sortKey(s[i]).value);
    assert x in multiset(sorted);
    SortDescendingOrders(ranked);
    if x !in top {
      DroppedIsOutranked(sorted, limit, x);
    } else {
      var k :| 0 <= k < |top| && top[k] == x;
    }
  }

  /** `TopFirstsComplete` for an index known not to be kept. */
  lemma TopFirstsOutranked<T, K>(s: seq<T>, keep: T -> bool, dedupKey: T -> K, sortKey: T -> Option<int>, limit: nat, i: int, key: int)
    requires TopFirsts(s, keep, dedupKey, sortKey, limit).Some?
    requires IsFirst(s, keep, dedupKey, i) && sortKey(s[i]) == Some(key)
    requires forall k :: 0 <= k < |TopFirsts(s, keep, dedupKey, sortKey, limit).value| ==>
               TopFirsts(s, keep, dedupKey, sortKey, limit).value[k].index != i
    ensures |TopFirsts(s, keep, dedupKey, sortKey, limit).value| == limit
    ensures forall k :: 0 <= k < limit ==> Precedes(TopFirsts(s, keep, dedupKey, sortKey, limit).value[k], Ranked(i, key))
  {
    TopFirstsComplete(s, keep, dedupKey, sortKey, limit, i);
  }
}
