/** Sequence operations shared by the models. */
module Sequences {

  datatype Option<+T> = None | Some(value: T)

  /** `[x for x in s if p(x)]` */
  function Filter<T>(s: seq<T>, p: T -> bool): (r: seq<T>)
    ensures |r| <= |s|
  {
    if s == [] then []
    else if p(s[0]) then [s[0]] + Filter(s[1..], p)
    else Filter(s[1..], p)
  }

  lemma {:induction false} FilterConcat<T>(a: seq<T>, b: seq<T>, p: T -> bool)
    ensures Filter(a + b, p) == Filter(a, p) + Filter(b, p)
  {
    if a == [] {
      assert a + b == b;
    } else {
      var head := if p(a[0]) then [a[0]] else [];
      ConsConcat(a, b);
      FilterCons(a[0], a[1..] + b, p);
      FilterConcat(a[1..], b, p);
      FilterCons(a[0], a[1..], p);
      ConcatAssociates(head, Filter(a[1..], p), Filter(b, p));
    }
  }

  lemma ConsConcat<T>(a: seq<T>, b: seq<T>)
    requires a != []
    ensures a == [a[0]] + a[1..] && a + b == [a[0]] + (a[1..] + b)
  {
  }

  lemma FilterCons<T>(x: T, s: seq<T>, p: T -> bool)
    ensures Filter([x] + s, p) == (if p(x) then [x] else []) + Filter(s, p)
  {
    assert ([x] + s)[1..] == s;
  }

  lemma {:induction false} FilterMembers<T>(s: seq<T>, p: T -> bool)
    ensures forall k :: 0 <= k < |Filter(s, p)| ==> Filter(s, p)[k] in s && p(Filter(s, p)[k])
  {
    if s != [] {
      FilterMembers(s[1..], p);
    }
  }

  lemma {:induction false} FilterAll<T>(s: seq<T>, p: T -> bool)
    requires forall k :: 0 <= k < |s| ==> p(s[k])
    ensures Filter(s, p) == s
  {
    if s != [] {
      FilterAll(s[1..], p);
    }
  }

  lemma {:induction false} FilterNone<T>(s: seq<T>, p: T -> bool)
    requires forall k :: 0 <= k < |s| ==> !p(s[k])
    ensures Filter(s, p) == []
  {
    if s != [] {
      FilterNone(s[1..], p);
    }
  }

  lemma {:induction false} FilterKeeps<T>(s: seq<T>, p: T -> bool, x: T)
    requires x in s && p(x)
    ensures x in Filter(s, p)
  {
    if s[0] != x {
      FilterKeeps(s[1..], p, x);
    }
  }

  lemma {:induction false} FilterDrops<T>(s: seq<T>, p: T -> bool, k: nat)
    requires k < |s| && !p(s[k])
    ensures |Filter(s, p)| < |s|
  {
    if k > 0 {
      FilterDrops(s[1..], p, k - 1);
    }
  }

  lemma {:induction false} FilterWeaker<T>(s: seq<T>, p: T -> bool, q: T -> bool)
    requires forall k :: 0 <= k < |s| && p(s[k]) ==> q(s[k])
    ensures |Filter(s, p)| <= |Filter(s, q)|
  {
    if s != [] {
      FilterWeaker(s[1..], p, q);
    }
  }

  /** Changing elements the filter rejects before and after changes nothing. */
  lemma {:induction false} FilterIgnores<T>(a: seq<T>, b: seq<T>, p: T -> bool)
    requires |a| == |b|
    requires forall k :: 0 <= k < |a| ==> a[k] == b[k] || (!p(a[k]) && !p(b[k]))
    ensures Filter(a, p) == Filter(b, p)
  {
    if a != [] {
      FilterIgnores(a[1..], b[1..], p);
    }
  }

  /** Changing elements that keep at least `n` kept elements behind them leaves the last `n` alone. */
  lemma {:induction false} FilterLastN<T>(a: seq<T>, b: seq<T>, p: T -> bool, n: nat)
    requires |a| == |b|
    requires forall k :: 0 <= k < |a| ==> p(a[k]) == p(b[k])
    requires forall k :: 0 <= k < |a| && a[k] != b[k] ==> |Filter(b[k + 1..], p)| >= n
    ensures |Filter(a, p)| == |Filter(b, p)|
    ensures LastN(Filter(a, p), n) == LastN(Filter(b, p), n)
  {
    if a != [] {
      var x, y := a[1..], b[1..];
      forall k | 0 <= k < |x| && x[k] != y[k] ensures |Filter(y[k + 1..], p)| >= n {
        assert a[k + 1] != b[k + 1] && y[k + 1..] == b[k + 2..];
      }
      FilterLastN(x, y, p, n);
      LastNCons(a[0], b[0], Filter(x, p), Filter(y, p), n);
    }
  }

  lemma LastNCons<T>(a: T, b: T, x: seq<T>, y: seq<T>, n: nat)
    requires |x| == |y| && LastN(x, n) == LastN(y, n)
    requires a == b || |y| >= n
    ensures LastN([a] + x, n) == LastN([b] + y, n)
  {
  }

  /** `s` ends with `tail`. */
  predicate EndsWith<T(==)>(s: seq<T>, tail: seq<T>) {
    |tail| <= |s| && s[|s| - |tail|..] == tail
  }

  /** The last `n` elements, or all of them when there are fewer. */
  function LastN<T>(s: seq<T>, n: nat): (r: seq<T>)
    ensures |r| == if |s| <= n then |s| else n
  {
    if |s| <= n then s else s[|s| - n..]
  }

  lemma ConcatAssociates<T>(a: seq<T>, b: seq<T>, c: seq<T>)
    ensures (a + b) + c == a + (b + c)
  {
  }

  predicate Distinct<T(==)>(s: seq<T>) {
    forall i, j :: 0 <= i < j < |s| ==> s[i] != s[j]
  }

  /** The results of `f` on the elements it accepts, in order. */
  function Collect<A, B>(s: seq<A>, f: A -> Option<B>): (r: seq<B>)
    ensures |r| <= |s|
  {
    if s == [] then []
    else
      match f(s[0])
      case Some(b) => [b] + Collect(s[1..], f)
      case None => Collect(s[1..], f)
  }

  lemma {:induction false} CollectConcat<A, B>(a: seq<A>, b: seq<A>, f: A -> Option<B>)
    ensures Collect(a + b, f) == Collect(a, f) + Collect(b, f)
  {
    if a == [] {
      assert a + b == b;
    } else {
      var head := OptionSeq(f(a[0]));
      ConsConcat(a, b);
      CollectCons(a[0], a[1..] + b, f);
      CollectConcat(a[1..], b, f);
      CollectCons(a[0], a[1..], f);
      ConcatAssociates(head, Collect(a[1..], f), Collect(b, f));
    }
  }

  function OptionSeq<T>(o: Option<T>): seq<T> {
    match o
    case Some(x) => [x]
    case None => []
  }

  lemma CollectCons<A, B>(x: A, s: seq<A>, f: A -> Option<B>)
    ensures Collect([x] + s, f) == OptionSeq(f(x)) + Collect(s, f)
  {
    assert ([x] + s)[1..] == s;
  }

  lemma CollectSnoc<A, B>(s: seq<A>, f: A -> Option<B>, k: nat)
    requires k < |s|
    ensures Collect(s[..k + 1], f) == Collect(s[..k], f) + OptionSeq(f(s[k]))
  {
    assert s[..k + 1] == s[..k] + [s[k]];
    CollectConcat(s[..k], [s[k]], f);
    assert Collect([s[k]][1..], f) == [];
  }

  /** When nothing is skipped, the results are the images of the elements, one by one. */
  lemma {:induction false} CollectAll<A, B>(s: seq<A>, f: A -> Option<B>, k: nat)
    requires |Collect(s, f)| == |s| && k < |s|
    ensures f(s[k]) == Some(Collect(s, f)[k])
  {
    if k > 0 {
      CollectAll(s[1..], f, k - 1);
    }
  }

  lemma {:induction false} CollectImages<A, B>(s: seq<A>, f: A -> Option<B>, r: seq<B>)
    requires |s| == |r| && forall k :: 0 <= k < |s| ==> f(s[k]) == Some(r[k])
    ensures Collect(s, f) == r
  {
    if s != [] {
      CollectImages(s[1..], f, r[1..]);
    }
  }

  /** Every result comes from some element. */
  lemma {:induction false} CollectSource<A, B>(s: seq<A>, f: A -> Option<B>, b: B) returns (k: nat)
    requires b in Collect(s, f)
    ensures k < |s| && f(s[k]) == Some(b)
  {
    if f(s[0]) == Some(b) {
      k := 0;
    } else {
      var j := CollectSource(s[1..], f, b);
      k := j + 1;
    }
  }

  lemma {:induction false} CollectKeeps<A, B>(s: seq<A>, f: A -> Option<B>, x: A, b: B)
    requires x in s && f(x) == Some(b)
    ensures b in Collect(s, f)
  {
    if s[0] != x {
      CollectKeeps(s[1..], f, x, b);
    }
  }

  /** `[y for x in s for y in f(x)]` */
  function FlatMap<A, B>(s: seq<A>, f: A -> seq<B>): seq<B> {
    if s == [] then [] else f(s[0]) + FlatMap(s[1..], f)
  }

  lemma {:induction false} FlatMapConcat<A, B>(a: seq<A>, b: seq<A>, f: A -> seq<B>)
    ensures FlatMap(a + b, f) == FlatMap(a, f) + FlatMap(b, f)
  {
    if a == [] {
      assert a + b == b;
    } else {
      ConsConcat(a, b);
      FlatMapConcat(a[1..], b, f);
      assert (a + b)[1..] == a[1..] + b;
      ConcatAssociates(f(a[0]), FlatMap(a[1..], f), FlatMap(b, f));
    }
  }

  lemma FlatMapOne<A, B>(x: A, f: A -> seq<B>)
    ensures FlatMap([x], f) == f(x)
  {
  }

  lemma FlatMapSnoc<A, B>(s: seq<A>, f: A -> seq<B>, k: nat)
    requires k < |s|
    ensures FlatMap(s[..k + 1], f) == FlatMap(s[..k], f) + f(s[k])
  {
    assert s[..k + 1] == s[..k] + [s[k]];
    FlatMapConcat(s[..k], [s[k]], f);
    FlatMapOne(s[k], f);
  }

  lemma {:induction false} FlatMapSource<A, B>(s: seq<A>, f: A -> seq<B>, b: B) returns (x: A)
    requires b in FlatMap(s, f)
    ensures x in s && b in f(x)
  {
    if b in f(s[0]) {
      x := s[0];
    } else {
      x := FlatMapSource(s[1..], f, b);
    }
  }

  lemma {:induction false} FlatMapKeeps<A, B>(s: seq<A>, f: A -> seq<B>, x: A, b: B)
    requires x in s && b in f(x)
    ensures b in FlatMap(s, f)
  {
    if s[0] != x {
      FlatMapKeeps(s[1..], f, x, b);
    }
  }

  /** Where a result of reading split parts comes from. */
  lemma FlatCollectSource<A, B, C>(parts: seq<A>, split: A -> seq<B>, read: B -> Option<C>, c: C)
    returns (part: A, piece: B)
    requires c in Collect(FlatMap(parts, split), read)
    ensures part in parts && piece in split(part) && read(piece) == Some(c)
  {
    var k := CollectSource(FlatMap(parts, split), read, c);
    piece := FlatMap(parts, split)[k];
    part := FlatMapSource(parts, split, piece);
  }

  lemma FlatCollectKeeps<A, B, C>(parts: seq<A>, split: A -> seq<B>, read: B -> Option<C>, part: A, piece: B, c: C)
    requires part in parts && piece in split(part) && read(piece) == Some(c)
    ensures c in Collect(FlatMap(parts, split), read)
  {
    FlatMapKeeps(parts, split, part, piece);
    CollectKeeps(FlatMap(parts, split), read, piece, c);
  }

  // ---- Filtering, position by position ----

  predicate Increasing(idx: seq<nat>) {
    forall m, n :: 0 <= m < n < |idx| ==> idx[m] < idx[n]
  }

  /** `idx` lists the positions of `s` that satisfy `p`, in order. */
  predicate Positions<T>(s: seq<T>, p: T -> bool, idx: seq<nat>) {
    && Increasing(idx)
    && (forall n :: 0 <= n < |idx| ==> idx[n] < |s| && p(s[idx[n]]))
    && (forall k :: 0 <= k < |s| && p(s[k]) ==> k in idx)
  }

  /** A filter yields the elements at these positions, one by one. */
  lemma {:induction false} FilterPositions<T>(s: seq<T>, p: T -> bool) returns (idx: seq<nat>)
    ensures Positions(s, p, idx)
    ensures |Filter(s, p)| == |idx| && forall n :: 0 <= n < |idx| ==> Filter(s, p)[n] == s[idx[n]]
  {
    if s == [] {
      idx := [];
    } else {
      var n := |s| - 1;
      var init, last := s[..n], s[n];
      assert s == init + [last];
      idx := FilterPositions(init, p);
      FilterConcat(init, [last], p);
      FilterCons(last, [], p);
      assert [last] + [] == [last];
      if p(last) {
        assert forall k :: 0 <= k < n && p(s[k]) ==> k in idx;
        idx := idx + [n];
        assert idx[|idx| - 1] == n;
      }
    }
  }

  /** The same behind the first element. */
  predicate TailPositions<T>(s: seq<T>, p: T -> bool, idx: seq<nat>) {
    && Increasing(idx)
    && (forall n :: 0 <= n < |idx| ==> 0 < idx[n] < |s| && p(s[idx[n]]))
    && (forall k :: 0 < k < |s| && p(s[k]) ==> k in idx)
  }

  lemma FilterTailPositions<T>(s: seq<T>, p: T -> bool) returns (idx: seq<nat>)
    requires s != []
    ensures TailPositions(s, p, idx)
    ensures |Filter(s[1..], p)| == |idx| && forall n :: 0 <= n < |idx| ==> Filter(s[1..], p)[n] == s[idx[n]]
  {
    var at := FilterPositions(s[1..], p);
    idx := seq(|at|, n requires 0 <= n < |at| => at[n] + 1);
    forall n | 0 <= n < |idx| ensures 0 < idx[n] < |s| && s[idx[n]] == s[1..][at[n]] {
      assert idx[n] == at[n] + 1;
    }
    TailPositionsShifted(s, p, at, idx);
  }

  lemma TailPositionsShifted<T>(s: seq<T>, p: T -> bool, at: seq<nat>, idx: seq<nat>)
    requires s != [] && Positions(s[1..], p, at) && |idx| == |at| && forall n :: 0 <= n < |at| ==> idx[n] == at[n] + 1
    ensures TailPositions(s, p, idx)
  {
    forall k | 0 < k < |s| && p(s[k]) ensures k in idx {
      assert s[1..][k - 1] == s[k] && k - 1 in at;
      var n :| 0 <= n < |at| && at[n] == k - 1;
      assert idx[n] == k;
    }
  }
}
