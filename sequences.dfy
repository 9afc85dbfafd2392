/** Order-preserving selections over sequences, stated once for any
    element type and any test, so that their proofs do not depend on what
    the test computes. */
module Sequences {

  function Min(a: int, b: int): int {
    if a <= b then a else b
  }

  /** Concatenation is associative. */
  lemma AppendAssoc<T>(a: seq<T>, b: seq<T>, c: seq<T>)
    ensures a + (b + c) == (a + b) + c
  {
  }

  /** The elements of `xs` that pass `keep`, in their order. */
  function Filter<T>(xs: seq<T>, keep: T -> bool): (r: seq<T>)
    ensures |r| <= |xs|
  {
    if xs == [] then []
    else (if keep(xs[0]) then [xs[0]] else []) + Filter(xs[1..], keep)
  }

  /** The first `n` elements of `xs` that pass `keep`, scanning in order. */
  function TakeFirst<T>(xs: seq<T>, keep: T -> bool, n: nat): (r: seq<T>)
    ensures |r| <= n
  {
    if xs == [] || n == 0 then []
    else if keep(xs[0]) then [xs[0]] + TakeFirst(xs[1..], keep, n - 1)
    else TakeFirst(xs[1..], keep, n)
  }

  /** Every element of the filter passes the test, and the filter is empty
      exactly when no element passes. */
  lemma {:induction false} FilterKeeps<T>(xs: seq<T>, keep: T -> bool)
    ensures forall k | 0 <= k < |Filter(xs, keep)| :: keep(Filter(xs, keep)[k])
    ensures Filter(xs, keep) == [] <==> forall k | 0 <= k < |xs| :: !keep(xs[k])
  {
    if xs != [] {
      FilterKeeps(xs[1..], keep);
      var head := if keep(xs[0]) then [xs[0]] else [];
      var rest := Filter(xs[1..], keep);
      assert Filter(xs, keep) == head + rest;
      forall k | 0 <= k < |head + rest|
        ensures keep((head + rest)[k])
      {
        if k >= |head| {
          assert (head + rest)[k] == rest[k - |head|];
        }
      }
      assert forall k | 1 <= k < |xs| :: xs[k] == xs[1..][k - 1];
    }
  }

  /** Every element that passes the test is in the filter. */
  lemma {:induction false} FilterComplete<T>(xs: seq<T>, keep: T -> bool, k: nat)
    requires k < |xs| && keep(xs[k])
    ensures xs[k] in Filter(xs, keep)
  {
    if k > 0 {
      assert xs[1..][k - 1] == xs[k];
      FilterComplete(xs[1..], keep, k - 1);
    }
  }

  /** Taking the first `n` that pass is the prefix of the filter of that length. */
  lemma {:induction false} TakeFirstIsPrefix<T>(xs: seq<T>, keep: T -> bool, n: nat)
    ensures TakeFirst(xs, keep, n) == Filter(xs, keep)[..Min(n, |Filter(xs, keep)|)]
  {
    if xs != [] && n != 0 {
      TakeFirstIsPrefix(xs[1..], keep, if keep(xs[0]) then n - 1 else n);
    }
  }

  /** The in-order scan that keeps the elements passing `keep` and stops
      right after keeping one once `max` of them are kept. The comparison
      comes after the append, so a `max` below 1 still keeps one element. */
  method ScanFirst<T>(xs: seq<T>, keep: T -> bool, max: int) returns (taken: seq<T>)
    ensures taken == TakeFirst(xs, keep, if max < 1 then 1 else max)
  {
    taken := [];
    ghost var limit: nat := if max < 1 then 1 else max;
    ghost var goal := TakeFirst(xs, keep, limit);
    for i := 0 to |xs|
      invariant |taken| < limit
      invariant taken + TakeFirst(xs[i..], keep, limit - |taken|) == goal
    {
      TakeFirstStep(xs, keep, i, keep(xs[i]), taken, limit, goal);
      if keep(xs[i]) {
        taken := taken + [xs[i]];
        if |taken| >= max {
          return;
        }
      }
    }
    TakeFirstDone(xs, keep, taken, limit - |taken|, goal);
  }

  /** One step of an in-order scan that appends the elements passing `keep`
      to `taken` until `limit` of them are taken: the scan state
      `taken + TakeFirst(xs[i..], keep, limit - |taken|)` is preserved, and
      taking the last element needed completes the result. */
  lemma TakeFirstStep<T>(xs: seq<T>, keep: T -> bool, i: nat, kept: bool, taken: seq<T>, limit: nat, goal: seq<T>)
    requires i < |xs| && |taken| < limit && kept == keep(xs[i])
    requires taken + TakeFirst(xs[i..], keep, limit - |taken|) == goal
    ensures kept ==>
      (taken + [xs[i]]) + TakeFirst(xs[i + 1..], keep, limit - |taken + [xs[i]]|) == goal
    ensures kept && |taken + [xs[i]]| == limit ==> taken + [xs[i]] == goal
    ensures !kept ==> taken + TakeFirst(xs[i + 1..], keep, limit - |taken|) == goal
  {
    var rest := xs[i + 1..];
    var n := limit - |taken|;
    assert xs[i..][0] == xs[i];
    assert xs[i..][1..] == rest;
    if kept {
      assert limit - |taken + [xs[i]]| == n - 1;
      AppendAssoc(taken, [xs[i]], TakeFirst(rest, keep, n - 1));
      if n == 1 {
        assert (taken + [xs[i]]) + [] == taken + [xs[i]];
      }
    }
  }

  /** At the end of the scan nothing is left to take. */
  lemma TakeFirstDone<T>(xs: seq<T>, keep: T -> bool, taken: seq<T>, n: nat, goal: seq<T>)
    requires taken + TakeFirst(xs[|xs|..], keep, n) == goal
    ensures taken == goal
  {
    assert xs[|xs|..] == [];
    assert taken + [] == taken;
  }

  /** The concatenation of `f(x)` for the elements `x` of `xs`, in order. */
  function FlatMap<T, U>(xs: seq<T>, f: T -> seq<U>): seq<U> {
    if xs == [] then [] else f(xs[0]) + FlatMap(xs[1..], f)
  }

  /** Mapping consecutive runs concatenates their results: order is kept. */
  lemma {:induction false} FlatMapAppend<T, U>(xs: seq<T>, ys: seq<T>, f: T -> seq<U>)
    ensures FlatMap(xs + ys, f) == FlatMap(xs, f) + FlatMap(ys, f)
  {
    if xs == [] {
      assert xs + ys == ys;
    } else {
      var zs := xs + ys;
      assert zs[0] == xs[0] && zs[1..] == xs[1..] + ys;
      FlatMapAppend(xs[1..], ys, f);
      AppendAssoc(f(xs[0]), FlatMap(xs[1..], f), FlatMap(ys, f));
    }
  }

  /** Mapping one more element appends its result. */
  lemma FlatMapSnoc<T, U>(xs: seq<T>, x: T, f: T -> seq<U>)
    ensures FlatMap(xs + [x], f) == FlatMap(xs, f) + f(x)
  {
    FlatMapAppend(xs, [x], f);
    assert [x][1..] == [];
    assert FlatMap([x], f) == f(x) + [];
  }

  /** When every element maps to between `lo` and `hi` results, the whole
      has between `lo` and `hi` results per element. */
  lemma {:induction false} FlatMapLength<T, U>(xs: seq<T>, f: T -> seq<U>, lo: nat, hi: nat)
    requires forall k | 0 <= k < |xs| :: lo <= |f(xs[k])| <= hi
    ensures lo * |xs| <= |FlatMap(xs, f)| <= hi * |xs|
  {
    if xs != [] {
      assert forall k | 0 <= k < |xs[1..]| :: xs[1..][k] == xs[k + 1];
      FlatMapLength(xs[1..], f, lo, hi);
      assert lo * |xs| == lo * |xs[1..]| + lo;
      assert hi * |xs| == hi * |xs[1..]| + hi;
    }
  }

  /** A property every element's results have holds of every result. */
  lemma {:induction false} FlatMapAll<T, U>(xs: seq<T>, f: T -> seq<U>, p: U -> bool)
    requires forall k | 0 <= k < |xs| :: forall j | 0 <= j < |f(xs[k])| :: p(f(xs[k])[j])
    ensures forall j | 0 <= j < |FlatMap(xs, f)| :: p(FlatMap(xs, f)[j])
  {
    if xs != [] {
      assert forall k | 0 <= k < |xs[1..]| :: xs[1..][k] == xs[k + 1];
      FlatMapAll(xs[1..], f, p);
      var head, rest := f(xs[0]), FlatMap(xs[1..], f);
      forall j | 0 <= j < |head + rest|
        ensures p((head + rest)[j])
      {
        if j >= |head| {
          assert (head + rest)[j] == rest[j - |head|];
        }
      }
    }
  }

  /** Some element of `xs` passes `stop`. */
  predicate AnyStops<T>(xs: seq<T>, stop: T -> bool) {
    exists k | 0 <= k < |xs| :: stop(xs[k])
  }

  /** The elements of `xs` up to and including the first that passes
      `stop`; all of `xs` when none does. */
  function TakeThrough<T>(xs: seq<T>, stop: T -> bool): seq<T> {
    if xs == [] then []
    else if stop(xs[0]) then [xs[0]]
    else [xs[0]] + TakeThrough(xs[1..], stop)
  }

  /** `TakeThrough` is a prefix of `xs` whose elements, except perhaps the
      last, do not stop. */
  lemma {:induction false} TakeThroughPrefix<T>(xs: seq<T>, stop: T -> bool)
    ensures |TakeThrough(xs, stop)| <= |xs|
    ensures TakeThrough(xs, stop) == xs[..|TakeThrough(xs, stop)|]
    ensures forall k | 0 <= k < |TakeThrough(xs, stop)| - 1 :: !stop(xs[k])
  {
    if xs != [] && !stop(xs[0]) {
      var rest := xs[1..];
      TakeThroughPrefix(rest, stop);
      var t := TakeThrough(rest, stop);
      assert TakeThrough(xs, stop) == [xs[0]] + t;
      assert xs[..|t| + 1] == [xs[0]] + rest[..|t|];
      forall k | 1 <= k < |t|
        ensures !stop(xs[k])
      {
        assert xs[k] == rest[k - 1];
      }
    }
  }

  /** `TakeThrough` ends at a stopping element exactly when some element
      stops, and takes everything otherwise. */
  lemma {:induction false} TakeThroughStops<T>(xs: seq<T>, stop: T -> bool)
    ensures AnyStops(xs, stop) <==>
      TakeThrough(xs, stop) != [] && stop(TakeThrough(xs, stop)[|TakeThrough(xs, stop)| - 1])
    ensures !AnyStops(xs, stop) ==> TakeThrough(xs, stop) == xs
  {
    if xs != [] {
      var rest := xs[1..];
      TakeThroughStops(rest, stop);
      AnyStopsCons(xs, stop);
      if !stop(xs[0]) {
        var t := TakeThrough(rest, stop);
        assert TakeThrough(xs, stop) == [xs[0]] + t;
        if t != [] {
          assert ([xs[0]] + t)[|t|] == t[|t| - 1];
        }
        if !AnyStops(rest, stop) {
          assert [xs[0]] + rest == xs;
        }
      }
    }
  }

  /** An element stops exactly when the head or an element of the tail does. */
  lemma AnyStopsCons<T>(xs: seq<T>, stop: T -> bool)
    requires xs != []
    ensures AnyStops(xs, stop) <==> stop(xs[0]) || AnyStops(xs[1..], stop)
  {
    if AnyStops(xs, stop) && !stop(xs[0]) {
      var k :| 0 <= k < |xs| && stop(xs[k]);
      assert xs[1..][k - 1] == xs[k];
    }
    if AnyStops(xs[1..], stop) {
      var k :| 0 <= k < |xs[1..]| && stop(xs[1..][k]);
      assert xs[k + 1] == xs[1..][k];
    }
  }

  /** One step of a scan that stops after the first stopping element:
      the scan state `xs[..j] + TakeThrough(xs[j..], stop)` is preserved
      while nothing has stopped, and a stopping element completes it. */
  lemma TakeThroughStep<T>(xs: seq<T>, stop: T -> bool, j: nat, stopped: bool)
    requires j < |xs| && stopped == stop(xs[j])
    requires TakeThrough(xs, stop) == xs[..j] + TakeThrough(xs[j..], stop)
    requires !AnyStops(xs[..j], stop)
    ensures stopped ==> TakeThrough(xs, stop) == xs[..j + 1] && AnyStops(xs, stop)
    ensures !stopped ==>
      TakeThrough(xs, stop) == xs[..j + 1] + TakeThrough(xs[j + 1..], stop)
      && !AnyStops(xs[..j + 1], stop)
  {
    assert xs[j..][0] == xs[j];
    assert xs[j..][1..] == xs[j + 1..];
    assert xs[..j + 1] == xs[..j] + [xs[j]];
    if stopped {
      assert stop(xs[j]);
    } else {
      AppendAssoc(xs[..j], [xs[j]], TakeThrough(xs[j + 1..], stop));
      var pre := xs[..j + 1];
      forall k | 0 <= k < |pre|
        ensures !stop(pre[k])
      {
        if k < j {
          assert pre[k] == xs[..j][k];
        }
      }
    }
  }

  /** At the end of a scan in which nothing stopped, everything was taken. */
  lemma TakeThroughDone<T>(xs: seq<T>, stop: T -> bool)
    requires TakeThrough(xs, stop) == xs[..|xs|] + TakeThrough(xs[|xs|..], stop)
    requires !AnyStops(xs[..|xs|], stop)
    ensures TakeThrough(xs, stop) == xs && !AnyStops(xs, stop)
  {
    assert xs[..|xs|] == xs;
    assert xs[|xs|..] == [];
    assert xs + [] == xs;
  }

  /** Scanning consecutive runs: the second run is reached only when nothing
      in the first one stops. */
  lemma {:induction false} TakeThroughAppend<T>(xs: seq<T>, ys: seq<T>, stop: T -> bool)
    ensures TakeThrough(xs + ys, stop)
      == TakeThrough(xs, stop) + (if AnyStops(xs, stop) then [] else TakeThrough(ys, stop))
  {
    if xs == [] {
      assert xs + ys == ys;
    } else {
      var zs := xs + ys;
      assert zs[0] == xs[0] && zs[1..] == xs[1..] + ys;
      TakeThroughAppend(xs[1..], ys, stop);
      var tail := if AnyStops(xs[1..], stop) then [] else TakeThrough(ys, stop);
      AnyStopsCons(xs, stop);
      if stop(xs[0]) {
        assert TakeThrough(xs, stop) + [] == TakeThrough(xs, stop);
      } else {
        AppendAssoc([xs[0]], TakeThrough(xs[1..], stop), tail);
      }
    }
  }
}
