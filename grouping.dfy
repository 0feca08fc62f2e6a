/**
 * Insertion-ordered dictionaries built by one pass over a list, as the
 * serialisers do with `if k not in d: d[k] = init` followed by an update of
 * `d[k]`. A dictionary is a sequence of (key, value) entries in the order the
 * keys were first inserted, which is the iteration order of a Python `dict`.
 *
 * `Acc` is the dictionary such a loop builds; `AccSpec` says what it holds
 * without reference to the loop: each key once, keys in order of first
 * occurrence, and under each key the fold of exactly the items with that key,
 * in input order. Grouping, counting and tallying are instances.
 */
module Grouping {
  import opened Text

  function Keys<A>(d: seq<(string, A)>): (r: seq<string>)
    ensures |r| == |d|
    ensures forall i :: 0 <= i < |d| ==> r[i] == d[i].0
  {
    seq(|d|, i requires 0 <= i < |d| => d[i].0)
  }

  function Values<A>(d: seq<(string, A)>): (r: seq<A>)
    ensures |r| == |d|
    ensures forall i :: 0 <= i < |d| ==> r[i] == d[i].1
  {
    seq(|d|, i requires 0 <= i < |d| => d[i].1)
  }

  predicate DistinctKeys<A>(d: seq<(string, A)>)
  {
    forall i, j :: 0 <= i < j < |d| ==> d[i].0 != d[j].0
  }

  /** The distinct keys in order of first occurrence. */
  function Dedup(ks: seq<string>): seq<string>
  {
    if ks == [] then []
    else
      var rest := Dedup(ks[..|ks| - 1]);
      if ks[|ks| - 1] in rest then rest else rest + [ks[|ks| - 1]]
  }

  /** The items whose key is `k`, in input order. */
  function Filter<T>(xs: seq<T>, key: T -> string, k: string): seq<T>
  {
    if xs == [] then []
    else
      var rest := Filter(xs[..|xs| - 1], key, k);
      if key(xs[|xs| - 1]) == k then rest + [xs[|xs| - 1]] else rest
  }

  /** The value a run of `step` from `init` over `ys` ends with. */
  function Fold<T, A>(ys: seq<T>, init: A, step: (A, T) -> A): A
  {
    if ys == [] then init else step(Fold(ys[..|ys| - 1], init, step), ys[|ys| - 1])
  }

  /** One update: `if k not in d: d[k] = init`, then `d[k] = step(d[k], x)`. */
  function Upd<T, A>(d: seq<(string, A)>, k: string, init: A, step: (A, T) -> A, x: T): seq<(string, A)>
  {
    if d == [] then [(k, step(init, x))]
    else if d[0].0 == k then [(k, step(d[0].1, x))] + d[1..]
    else [d[0]] + Upd(d[1..], k, init, step, x)
  }

  /** The dictionary the loop has built after the items `xs`. */
  function Acc<T, A>(xs: seq<T>, key: T -> string, init: A, step: (A, T) -> A): seq<(string, A)>
  {
    if xs == [] then []
    else Upd(Acc(xs[..|xs| - 1], key, init, step), key(xs[|xs| - 1]), init, step, xs[|xs| - 1])
  }

  /** An update of a key not yet present appends its entry at the end. */
  lemma {:induction false} UpdAbsent<T, A>(d: seq<(string, A)>, k: string, init: A, step: (A, T) -> A, x: T)
    requires k !in Keys(d)
    ensures Upd(d, k, init, step, x) == d + [(k, step(init, x))]
  {
    if d != [] {
      assert d[0].0 == Keys(d)[0];
      assert Keys(d[1..]) == Keys(d)[1..];
      UpdAbsent(d[1..], k, init, step, x);
      assert d == [d[0]] + d[1..];
    }
  }

  /** An update of a key already present changes its entry in place and nothing else. */
  lemma {:induction false} UpdPresent<T, A>(d: seq<(string, A)>, k: string, init: A, step: (A, T) -> A, x: T)
    requires DistinctKeys(d) && k in Keys(d)
    ensures var r := Upd(d, k, init, step, x);
      |r| == |d| && forall i :: 0 <= i < |d| ==> r[i] == if d[i].0 == k then (k, step(d[i].1, x)) else d[i]
  {
    var r := Upd(d, k, init, step, x);
    if d[0].0 != k {
      assert Keys(d[1..]) == Keys(d)[1..];
      assert k in Keys(d)[1..];
      UpdPresent(d[1..], k, init, step, x);
    } else {
      forall i | 1 <= i < |d| ensures d[i].0 != k {
        assert d[0].0 != d[i].0;
      }
    }
  }

  /** An update keeps the keys distinct. */
  lemma UpdSpec<T, A>(d: seq<(string, A)>, k: string, init: A, step: (A, T) -> A, x: T)
    requires DistinctKeys(d)
    ensures var r := Upd(d, k, init, step, x);
      && DistinctKeys(r)
      && (k in Keys(d) ==> |r| == |d| && forall i :: 0 <= i < |d| ==> r[i] == if d[i].0 == k then (k, step(d[i].1, x)) else d[i])
      && (k !in Keys(d) ==> r == d + [(k, step(init, x))])
  {
    if k in Keys(d) {
      UpdPresent(d, k, init, step, x);
    } else {
      UpdAbsent(d, k, init, step, x);
    }
  }

  lemma {:induction false} DedupMembers(ks: seq<string>)
    ensures forall k :: k in Dedup(ks) <==> k in ks
  {
    if ks != [] {
      DedupMembers(ks[..|ks| - 1]);
      assert ks == ks[..|ks| - 1] + [ks[|ks| - 1]];
    }
  }

  lemma {:induction false} FilterAbsent<T>(xs: seq<T>, key: T -> string, k: string)
    requires k !in Mapped(xs, key)
    ensures Filter(xs, key, k) == []
  {
    if xs != [] {
      var n := |xs| - 1;
      assert Mapped(xs[..n], key) == Mapped(xs, key)[..n];
      FilterAbsent(xs[..n], key, k);
    }
  }

  /**
   * The dictionary built by the loop holds each key once, lists the keys in
   * order of first occurrence, and holds under each key the fold of exactly
   * the items with that key, in input order.
   */
  lemma {:induction false} AccSpec<T, A>(xs: seq<T>, key: T -> string, init: A, step: (A, T) -> A)
    ensures var d := Acc(xs, key, init, step);
      && DistinctKeys(d)
      && Keys(d) == Dedup(Mapped(xs, key))
      && forall i :: 0 <= i < |d| ==> d[i].1 == Fold(Filter(xs, key, d[i].0), init, step)
  {
    if xs != [] {
      var n := |xs| - 1;
      var p, x := xs[..n], xs[n];
      AccSpec(p, key, init, step);
      var d := Acc(p, key, init, step);
      var r := Acc(xs, key, init, step);
      assert Mapped(xs, key) == Mapped(p, key) + [key(x)];
      assert Mapped(xs, key)[..n] == Mapped(p, key);
      UpdSpec(d, key(x), init, step, x);
      DedupMembers(Mapped(p, key));
      if key(x) !in Keys(d) {
        FilterAbsent(p, key, key(x));
        assert Keys(r) == Keys(d) + [key(x)];
      }
      forall i | 0 <= i < |r| ensures r[i].1 == Fold(Filter(xs, key, r[i].0), init, step) {
        if i < |d| {
          assert Filter(xs, key, r[i].0) == if key(x) == r[i].0 then Filter(p, key, r[i].0) + [x] else Filter(p, key, r[i].0);
        }
      }
    }
  }

  /** Every key the dictionary holds is the key of some item, and every item's key is held. */
  lemma AccKeys<T, A>(xs: seq<T>, key: T -> string, init: A, step: (A, T) -> A)
    ensures forall k :: k in Keys(Acc(xs, key, init, step)) <==> k in Mapped(xs, key)
  {
    AccSpec(xs, key, init, step);
    DedupMembers(Mapped(xs, key));
  }

  /** The loop that builds the dictionary, one update per item. */
  method Accumulate<T, A>(xs: seq<T>, key: T -> string, init: A, step: (A, T) -> A) returns (d: seq<(string, A)>)
    ensures d == Acc(xs, key, init, step)
    ensures DistinctKeys(d) && Keys(d) == Dedup(Mapped(xs, key))
    ensures forall i :: 0 <= i < |d| ==> d[i].1 == Fold(Filter(xs, key, d[i].0), init, step)
  {
    d := [];
    var i := 0;
    while i < |xs|
      invariant 0 <= i <= |xs|
      invariant d == Acc(xs[..i], key, init, step)
    {
      assert xs[..i + 1][..i] == xs[..i];
      d := Upd(d, key(xs[i]), init, step, xs[i]);
      i := i + 1;
    }
    assert xs[..i] == xs;
    AccSpec(xs, key, init, step);
  }

  // Grouping: `d.setdefault(k, []).append(x)`.

  function Push<T>(vs: seq<T>, x: T): seq<T>
  {
    vs + [x]
  }

  function GroupBy<T>(xs: seq<T>, key: T -> string): seq<(string, seq<T>)>
  {
    Acc(xs, key, [], Push)
  }

  lemma {:induction false} FoldPush<T>(ys: seq<T>)
    ensures Fold(ys, [], Push) == ys
  {
    if ys != [] {
      FoldPush(ys[..|ys| - 1]);
      assert ys == ys[..|ys| - 1] + [ys[|ys| - 1]];
    }
  }

  /** Each group is the items with its key, in input order. */
  lemma GroupBySpec<T>(xs: seq<T>, key: T -> string)
    ensures var g := GroupBy(xs, key);
      && DistinctKeys(g)
      && Keys(g) == Dedup(Mapped(xs, key))
      && forall i :: 0 <= i < |g| ==> g[i].1 == Filter(xs, key, g[i].0)
  {
    AccSpec(xs, key, [], Push);
    var g := GroupBy(xs, key);
    forall i | 0 <= i < |g| ensures g[i].1 == Filter(xs, key, g[i].0) {
      FoldPush(Filter(xs, key, g[i].0));
    }
  }

  /** The items of all groups, group after group. */
  function Members<T>(g: seq<(string, seq<T>)>): seq<T>
  {
    if g == [] then [] else g[0].1 + Members(g[1..])
  }

  lemma {:induction false} MembersUpd<T>(d: seq<(string, seq<T>)>, k: string, x: T)
    ensures multiset(Members(Upd(d, k, [], Push, x))) == multiset(Members(d)) + multiset{x}
  {
    var r := Upd(d, k, [], Push, x);
    if d == [] {
      assert r == [(k, Push([], x))];
      assert Push([], x) == [x];
    } else if d[0].0 == k {
      assert r[1..] == d[1..];
    } else {
      MembersUpd(d[1..], k, x);
      assert r[1..] == Upd(d[1..], k, [], Push, x);
    }
  }

  /** Every item lands in exactly one group: the groups together are a permutation of the input. */
  lemma {:induction false} GroupByPermutation<T>(xs: seq<T>, key: T -> string)
    ensures multiset(Members(GroupBy(xs, key))) == multiset(xs)
  {
    if xs != [] {
      var n := |xs| - 1;
      GroupByPermutation(xs[..n], key);
      MembersUpd(GroupBy(xs[..n], key), key(xs[n]), xs[n]);
      assert xs == xs[..n] + [xs[n]];
    }
  }

  // Counting: `d[k] = d.get(k, 0) + 1`.

  function Tick<T>(n: nat, x: T): nat
  {
    n + 1
  }

  function CountBy<T>(xs: seq<T>, key: T -> string): seq<(string, nat)>
  {
    Acc(xs, key, 0, Tick)
  }

  lemma {:induction false} FoldTick<T>(ys: seq<T>)
    ensures Fold(ys, 0, Tick) == |ys|
  {
    if ys != [] {
      FoldTick(ys[..|ys| - 1]);
    }
  }

  /** Each count is the number of items with that key. */
  lemma CountBySpec<T>(xs: seq<T>, key: T -> string)
    ensures var c := CountBy(xs, key);
      && DistinctKeys(c)
      && Keys(c) == Dedup(Mapped(xs, key))
      && forall i :: 0 <= i < |c| ==> c[i].1 == |Filter(xs, key, c[i].0)|
  {
    AccSpec(xs, key, 0, Tick);
    var c := CountBy(xs, key);
    forall i | 0 <= i < |c| ensures c[i].1 == |Filter(xs, key, c[i].0)| {
      FoldTick(Filter(xs, key, c[i].0));
    }
  }

  /** The sum of the counts. */
  function Total(c: seq<(string, nat)>): nat
  {
    if c == [] then 0 else c[0].1 + Total(c[1..])
  }

  lemma {:induction false} TotalUpd<T>(d: seq<(string, nat)>, k: string, x: T)
    ensures Total(Upd(d, k, 0, Tick, x)) == Total(d) + 1
  {
    var r := Upd(d, k, 0, Tick, x);
    if d != [] && d[0].0 == k {
      assert r[1..] == d[1..];
    } else if d != [] {
      TotalUpd(d[1..], k, x);
      assert r[1..] == Upd(d[1..], k, 0, Tick, x);
    }
  }

  /** The counts add up to the number of items: every item is counted exactly once. */
  lemma {:induction false} CountByTotal<T>(xs: seq<T>, key: T -> string)
    ensures Total(CountBy(xs, key)) == |xs|
  {
    if xs != [] {
      var n := |xs| - 1;
      CountByTotal(xs[..n], key);
      TotalUpd(CountBy(xs[..n], key), key(xs[n]), xs[n]);
    }
  }

  /** An item is kept by `Filter` exactly when it is an item with that key. */
  lemma {:induction false} FilterMembers<T>(xs: seq<T>, key: T -> string, k: string)
    ensures forall x :: x in Filter(xs, key, k) <==> x in xs && key(x) == k
  {
    if xs != [] {
      var n := |xs| - 1;
      FilterMembers(xs[..n], key, k);
      assert xs == xs[..n] + [xs[n]];
    }
  }

  /** An item is in the input exactly when it is in some group. */
  lemma GroupByMembers<T>(xs: seq<T>, key: T -> string)
    ensures var g := GroupBy(xs, key);
      forall x :: x in xs <==> exists i :: 0 <= i < |g| && x in g[i].1
  {
    var g := GroupBy(xs, key);
    GroupBySpec(xs, key);
    DedupMembers(Mapped(xs, key));
    forall x | x in xs
      ensures exists i :: 0 <= i < |g| && x in g[i].1
    {
      var j :| 0 <= j < |xs| && xs[j] == x;
      assert Mapped(xs, key)[j] == key(x);
      assert key(x) in Keys(g);
      var i :| 0 <= i < |g| && Keys(g)[i] == key(x);
      FilterMembers(xs, key, key(x));
      assert x in g[i].1;
    }
    forall x, i | 0 <= i < |g| && x in g[i].1
      ensures x in xs
    {
      FilterMembers(xs, key, g[i].0);
    }
  }
}
