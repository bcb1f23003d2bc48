/** Sequence vocabulary shared by the components: flattening, filtering, counting,
    and the chunking loop that three services of the back end repeat. */
module Sequences {
  lemma SliceOfTail<T>(xs: seq<T>, i: nat, j: nat)
    requires i <= j < |xs|
    ensures xs[1..][i..j] == xs[i + 1..j + 1]
  {
    assert forall k :: 0 <= k < j - i ==> xs[1..][i..j][k] == xs[i + 1..j + 1][k];
  }

  lemma HeadAndSlice<T>(xs: seq<T>, n: nat)
    requires 0 < n <= |xs|
    ensures xs[..n] == [xs[0]] + xs[1..][..n - 1] && xs[n..] == xs[1..][n - 1..]
  {
  }

  function Flatten<T>(xss: seq<seq<T>>): seq<T> {
    if xss == [] then [] else xss[0] + Flatten(xss[1..])
  }

  lemma {:induction false} FlattenAppend<T>(a: seq<seq<T>>, b: seq<seq<T>>)
    ensures Flatten(a + b) == Flatten(a) + Flatten(b)
  {
    if a == [] {
      assert a + b == b;
    } else {
      assert (a + b)[0] == a[0] && (a + b)[1..] == a[1..] + b;
      FlattenAppend(a[1..], b);
      assert a[0] + (Flatten(a[1..]) + Flatten(b)) == (a[0] + Flatten(a[1..])) + Flatten(b);
    }
  }

  lemma FlattenPush<T>(a: seq<seq<T>>, x: seq<T>)
    ensures Flatten(a + [x]) == Flatten(a) + x
  {
    FlattenAppend(a, [x]);
    assert [x][1..] == [];
    assert Flatten([x]) == x;
  }

  lemma {:induction false} FlattenMember<T>(xss: seq<seq<T>>, x: T)
    ensures x in Flatten(xss) <==> exists i :: 0 <= i < |xss| && x in xss[i]
  {
    if xss != [] {
      FlattenMember(xss[1..], x);
      if x in Flatten(xss[1..]) {
        var i :| 0 <= i < |xss[1..]| && x in xss[1..][i];
        assert x in xss[i + 1];
      }
      if i :| 0 <= i < |xss| && x in xss[i] && i > 0 {
        assert x in xss[1..][i - 1];
      }
    }
  }

  /** Element `k` of piece `i` sits after all elements of the pieces before it. */
  lemma FlattenAt<T>(xss: seq<seq<T>>, i: nat, k: nat)
    requires i < |xss| && k < |xss[i]|
    ensures |Flatten(xss[..i])| + k < |Flatten(xss)|
    ensures Flatten(xss)[|Flatten(xss[..i])| + k] == xss[i][k]
  {
    assert xss == xss[..i] + xss[i..];
    FlattenAppend(xss[..i], xss[i..]);
    assert xss[i..][0] == xss[i];
  }

  lemma FlattenOffsets<T>(xss: seq<seq<T>>, i: nat, j: nat)
    requires i < j <= |xss|
    ensures |Flatten(xss[..i])| + |xss[i]| <= |Flatten(xss[..j])|
  {
    assert xss[..j] == (xss[..i] + [xss[i]]) + xss[i + 1..j];
    FlattenAppend(xss[..i] + [xss[i]], xss[i + 1..j]);
    FlattenPush(xss[..i], xss[i]);
  }

  function Filter<T>(p: T -> bool, xs: seq<T>): (r: seq<T>) {
    if xs == [] then [] else (if p(xs[0]) then [xs[0]] else []) + Filter(p, xs[1..])
  }

  lemma {:induction false} FilterAppend<T>(p: T -> bool, a: seq<T>, b: seq<T>)
    ensures Filter(p, a + b) == Filter(p, a) + Filter(p, b)
  {
    if a == [] {
      assert a + b == b;
    } else {
      assert (a + b)[0] == a[0] && (a + b)[1..] == a[1..] + b;
      FilterAppend(p, a[1..], b);
      var head := if p(a[0]) then [a[0]] else [];
      assert head + (Filter(p, a[1..]) + Filter(p, b)) == (head + Filter(p, a[1..])) + Filter(p, b);
    }
  }

  lemma FilterPush<T>(p: T -> bool, a: seq<T>, x: T)
    ensures Filter(p, a + [x]) == Filter(p, a) + (if p(x) then [x] else [])
  {
    FilterAppend(p, a, [x]);
    assert [x][1..] == [];
  }

  lemma {:induction false} FilterAll<T>(p: T -> bool, xs: seq<T>)
    ensures (forall i :: 0 <= i < |xs| ==> p(xs[i])) ==> Filter(p, xs) == xs
    ensures (forall i :: 0 <= i < |xs| ==> !p(xs[i])) ==> Filter(p, xs) == []
  {
    if xs != [] {
      FilterAll(p, xs[1..]);
      assert xs == [xs[0]] + xs[1..];
    }
  }

  lemma {:induction false} FilterEmptyIff<T>(p: T -> bool, xs: seq<T>)
    ensures Filter(p, xs) == [] <==> forall i :: 0 <= i < |xs| ==> !p(xs[i])
  {
    if xs != [] {
      FilterEmptyIff(p, xs[1..]);
      assert forall i :: 1 <= i < |xs| ==> xs[i] == xs[1..][i - 1];
    }
  }

  lemma {:induction false} FilterMembers<T>(p: T -> bool, xs: seq<T>)
    ensures forall x :: x in Filter(p, xs) <==> x in xs && p(x)
  {
    if xs != [] {
      FilterMembers(p, xs[1..]);
      assert xs == [xs[0]] + xs[1..];
    }
  }

  lemma {:induction false} FirstOfFilter<T>(p: T -> bool, xs: seq<T>) returns (k: nat)
    requires Filter(p, xs) != []
    ensures k < |xs| && p(xs[k]) && Filter(p, xs)[0] == xs[k]
    ensures forall j :: 0 <= j < k ==> !p(xs[j])
  {
    if p(xs[0]) {
      k := 0;
    } else {
      var i := FirstOfFilter(p, xs[1..]);
      k := i + 1;
      assert forall j :: 1 <= j < k ==> xs[j] == xs[1..][j - 1];
    }
  }

  function Count<T>(p: T -> bool, xs: seq<T>): nat {
    if xs == [] then 0 else (if p(xs[0]) then 1 else 0) + Count(p, xs[1..])
  }

  lemma {:induction false} CountAppend<T>(p: T -> bool, a: seq<T>, b: seq<T>)
    ensures Count(p, a + b) == Count(p, a) + Count(p, b)
  {
    if a == [] {
      assert a + b == b;
    } else {
      CountAppend(p, a[1..], b);
      assert (a + b)[0] == a[0] && (a + b)[1..] == a[1..] + b;
    }
  }

  lemma CountPush<T>(p: T -> bool, a: seq<T>, x: T)
    ensures Count(p, a + [x]) == Count(p, a) + (if p(x) then 1 else 0)
  {
    CountAppend(p, a, [x]);
    assert [x][1..] == [];
  }

  ghost function Positions<T>(p: T -> bool, xs: seq<T>, n: nat): set<nat>
    requires n <= |xs|
  {
    set i: nat | i < n && p(xs[i])
  }

  /** A count is the number of positions. */
  lemma {:induction false} CountIs<T>(p: T -> bool, xs: seq<T>, n: nat)
    requires n <= |xs|
    ensures Count(p, xs[..n]) == |Positions(p, xs, n)|
  {
    if n == 0 {
      assert Positions(p, xs, 0) == {};
    } else {
      CountIs(p, xs, n - 1);
      assert xs[..n] == xs[..n - 1] + [xs[n - 1]];
      CountPush(p, xs[..n - 1], xs[n - 1]);
      assert Positions(p, xs, n) == Positions(p, xs, n - 1) + (if p(xs[n - 1]) then {n - 1} else {});
    }
  }

  lemma {:induction false} CountWitness<T>(p: T -> bool, xs: seq<T>)
    requires Count(p, xs) > 0
    ensures exists i :: 0 <= i < |xs| && p(xs[i])
  {
    if !p(xs[0]) {
      CountWitness(p, xs[1..]);
      var i :| 0 <= i < |xs[1..]| && p(xs[1..][i]);
      assert p(xs[i + 1]);
    }
  }

  lemma {:induction false} CountPositive<T>(p: T -> bool, xs: seq<T>, i: nat)
    requires i < |xs| && p(xs[i])
    ensures Count(p, xs) > 0
  {
    if i > 0 {
      CountPositive(p, xs[1..], i - 1);
    }
  }

  function RemoveAt<T>(xs: seq<T>, i: nat): seq<T>
    requires i < |xs|
  {
    xs[..i] + xs[i + 1..]
  }

  lemma CountRemove<T>(p: T -> bool, xs: seq<T>, i: nat)
    requires i < |xs|
    ensures Count(p, xs) == Count(p, RemoveAt(xs, i)) + (if p(xs[i]) then 1 else 0)
  {
    var before, after := xs[..i], xs[i + 1..];
    assert xs == before + xs[i..] && xs[i..][1..] == after;
    CountAppend(p, before, xs[i..]);
    CountAppend(p, before, after);
  }

  /** The consecutive slices of length `n`, the last one possibly shorter. */
  function Chunk<T>(xs: seq<T>, n: nat): (chunks: seq<seq<T>>)
    requires n > 0
  {
    if xs == [] then []
    else if |xs| <= n then [xs]
    else [xs[..n]] + Chunk(xs[n..], n)
  }

  /** Chunking loses nothing, keeps the order, and all chunks but the last are full. */
  lemma {:induction false} ChunkShape<T>(xs: seq<T>, n: nat)
    requires n > 0
    ensures Flatten(Chunk(xs, n)) == xs
    ensures forall i :: 0 <= i < |Chunk(xs, n)| ==> 1 <= |Chunk(xs, n)[i]| <= n
    ensures forall i :: 0 <= i < |Chunk(xs, n)| - 1 ==> |Chunk(xs, n)[i]| == n
    decreases |xs|
  {
    if xs == [] {
    } else if |xs| <= n {
      assert Chunk(xs, n)[1..] == [];
    } else {
      var rest := Chunk(xs[n..], n);
      ChunkShape(xs[n..], n);
      assert Chunk(xs, n) == [xs[..n]] + rest;
      assert Chunk(xs, n)[1..] == rest;
      assert xs == xs[..n] + xs[n..];
      assert forall i :: 1 <= i < |rest| + 1 ==> Chunk(xs, n)[i] == rest[i - 1];
    }
  }

  lemma {:induction false} ChunkAt<T>(xs: seq<T>, n: nat, i: nat)
    requires n > 0 && i < |Chunk(xs, n)|
    ensures n * i < |xs|
    ensures Chunk(xs, n)[i] == xs[n * i..if n * i + n <= |xs| then n * i + n else |xs|]
    decreases |xs|
  {
    if |xs| > n && i > 0 {
      var rest, lo := xs[n..], n * (i - 1);
      assert n * i == lo + n;
      ChunkAt(rest, n, i - 1);
      var hi := if lo + n <= |rest| then lo + n else |rest|;
      assert Chunk(xs, n)[i] == Chunk(rest, n)[i - 1] == rest[lo..hi] == xs[lo + n..hi + n];
    }
  }

  lemma {:induction false} ChunkLengths<T>(xs: seq<T>, n: nat)
    requires n > 0
    ensures n * |Chunk(xs, n)| < |xs| + n && |xs| <= n * |Chunk(xs, n)|
    decreases |xs|
  {
    if |xs| > n {
      var c := |Chunk(xs[n..], n)|;
      ChunkLengths(xs[n..], n);
      assert n * (c + 1) == n * c + n;
    }
  }

  lemma DivisionUnique(a: int, n: int, c: int)
    requires 0 < n && n * c <= a < n * c + n
    ensures a / n == c
  {
    var d := a / n - c;
    assert a == n * (a / n) + a % n;
    assert n * (a / n) == n * c + n * d;
    assert d >= 1 ==> n * d >= n;
    assert d <= -1 ==> n * d <= -n;
  }

  /** Hence the number of chunks is the length divided by the size, rounded up. */
  lemma ChunkCount<T>(xs: seq<T>, n: nat)
    requires n > 0
    ensures |Chunk(xs, n)| == (|xs| + n - 1) / n
  {
    ChunkLengths(xs, n);
    DivisionUnique(|xs| + n - 1, n, |Chunk(xs, n)|);
  }

  /** Full pieces followed by a partial one are the chunks of their concatenation. */
  lemma {:induction false} ChunkOfFull<T>(full: seq<seq<T>>, rest: seq<T>, n: nat)
    requires n > 0 && |rest| <= n
    requires forall i :: 0 <= i < |full| ==> |full[i]| == n
    ensures Chunk(Flatten(full) + rest, n) == full + (if rest == [] then [] else [rest])
  {
    if full == [] {
      assert Flatten(full) + rest == rest;
    } else {
      var tail := Flatten(full[1..]) + rest;
      var all := Flatten(full) + rest;
      assert all == full[0] + tail;
      assert all[..n] == full[0] && all[n..] == tail;
      ChunkOfFull(full[1..], rest, n);
      if tail == [] {
        assert all == full[0];
      }
      assert full == [full[0]] + full[1..];
    }
  }

  /** The slicing loop: step through the items by `size` and push each slice. */
  method ChunkArray<T>(items: seq<T>, size: nat) returns (chunks: seq<seq<T>>)
    requires size > 0
    ensures chunks == Chunk(items, size)
  {
    chunks := [];
    var i := 0;
    while i < |items|
      invariant chunks + (if i < |items| then Chunk(items[i..], size) else []) == Chunk(items, size)
      decreases |items| - i
    {
      var end := if i + size <= |items| then i + size else |items|;
      chunks := chunks + [items[i..end]];
      if i + size < |items| {
        assert items[i..][..size] == items[i..end] && items[i..][size..] == items[i + size..];
      } else {
        assert items[i..end] == items[i..];
      }
      i := i + size;
    }
  }

  // ----- ascending selections of positions -----

  /** The positions below `n` that satisfy `p`, in ascending order. */
  function Select(p: nat -> bool, n: nat): seq<nat> {
    if n == 0 then [] else Select(p, n - 1) + (if p(n - 1) then [n - 1] else [])
  }

  lemma {:induction false} SelectShape(p: nat -> bool, n: nat)
    ensures forall k :: 0 <= k < |Select(p, n)| ==> Select(p, n)[k] < n && p(Select(p, n)[k])
    ensures forall j, k :: 0 <= j < k < |Select(p, n)| ==> Select(p, n)[j] < Select(p, n)[k]
    ensures forall i: nat :: i < n && p(i) ==> i in Select(p, n)
  {
    if n > 0 {
      SelectShape(p, n - 1);
    }
  }

  lemma {:induction false} SelectSplits(p: nat -> bool, q: nat -> bool, n: nat)
    requires forall i: nat :: i < n ==> q(i) == !p(i)
    ensures |Select(p, n)| + |Select(q, n)| == n
  {
    if n > 0 {
      SelectSplits(p, q, n - 1);
    }
  }

  predicate IsPrefix(s: seq<nat>) {
    forall k :: 0 <= k < |s| ==> s[k] == k
  }

  ghost predicate NoGap(p: nat -> bool, n: nat) {
    forall i: nat, j: nat :: i < j < n && p(j) ==> p(i)
  }

  lemma PrefixHasNoGap(p: nat -> bool, n: nat)
    requires IsPrefix(Select(p, n))
    ensures NoGap(p, n)
  {
    var s := Select(p, n);
    SelectShape(p, n);
    forall i: nat, j: nat | i < j < n && p(j) ensures p(i) {
      assert j in s;
      assert s[i] == i;
    }
  }

  lemma {:induction false} SelectOfPrefix(p: nat -> bool, n: nat)
    requires NoGap(p, n)
    ensures IsPrefix(Select(p, n))
    ensures n > 0 && p(n - 1) ==> |Select(p, n)| == n
  {
    if n > 0 {
      SelectOfPrefix(p, n - 1);
      if p(n - 1) {
        if n > 1 {
          assert p(n - 2);
        }
      }
    }
  }

  /** The selection is an initial segment exactly when no gap precedes a selected position. */
  lemma SelectIsPrefixIff(p: nat -> bool, n: nat)
    ensures IsPrefix(Select(p, n)) <==> NoGap(p, n)
  {
    if IsPrefix(Select(p, n)) {
      PrefixHasNoGap(p, n);
    }
    if NoGap(p, n) {
      SelectOfPrefix(p, n);
    }
  }

  lemma {:induction false} SelectNone(p: nat -> bool, n: nat)
    requires forall i: nat :: i < n ==> !p(i)
    ensures Select(p, n) == []
  {
    if n > 0 {
      SelectNone(p, n - 1);
    }
  }

  /** Positions selected after a rejected block of `b` positions follow it without a gap. */
  lemma {:induction false} SelectOfSuffix(p: nat -> bool, b: nat, n: nat)
    requires b <= n && forall i: nat :: i < n ==> (p(i) <==> b <= i)
    ensures |Select(p, n)| == n - b && forall k :: 0 <= k < n - b ==> Select(p, n)[k] == b + k
  {
    if n > 0 {
      if n == b {
        SelectNone(p, n);
      } else {
        SelectOfSuffix(p, b, n - 1);
      }
    }
  }

  /** Picking from a tail that follows a prefix without a gap: the whole is an initial segment
      exactly when both the prefix and the picks are. */
  lemma PrefixThenPicks(front: seq<nat>, tail: seq<nat>, picks: seq<nat>, whole: seq<nat>)
    requires forall k :: 0 <= k < |picks| ==> picks[k] < |tail|
    requires |whole| == |front| + |picks|
    requires forall k :: 0 <= k < |front| ==> whole[k] == front[k]
    requires forall k :: |front| <= k < |whole| ==> whole[k] == tail[picks[k - |front|]]
    requires IsPrefix(front) ==> forall k :: 0 <= k < |tail| ==> tail[k] == |front| + k
    ensures IsPrefix(whole) <==> IsPrefix(front) && IsPrefix(picks)
  {
    if IsPrefix(whole) {
      assert IsPrefix(front);
      forall k | 0 <= k < |picks| ensures picks[k] == k {
        assert whole[|front| + k] == tail[picks[k]];
      }
    }
  }

  /** An injection from `[0, m)` into `[0, n)` forces `m <= n`. */
  lemma {:induction false} Pigeonhole(f: seq<nat>, n: nat)
    requires forall i :: 0 <= i < |f| ==> f[i] < n
    requires forall i, j :: 0 <= i < j < |f| ==> f[i] != f[j]
    ensures |f| <= n
    decreases n
  {
    if f != [] {
      assert f[0] < n;
      if k :| 0 <= k < |f| && f[k] == n - 1 {
        var g := f[..k] + f[k + 1..];
        Pigeonhole(g, n - 1);
      } else {
        Pigeonhole(f, n - 1);
      }
    }
  }
}
