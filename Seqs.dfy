/**
 * Sequence operations standing in for the JavaScript array builtins the
 * core uses: `filter`, `slice` in fixed-size steps, a stable `sort` by a
 * numeric key in descending order, and `[...new Set(xs)]`.
 */
module Seqs {

  function Min(a: int, b: int): int { if a <= b then a else b }
  function Max(a: int, b: int): int { if a >= b then a else b }

  /** `Math.ceil(n / d)` for a natural `n` and a positive `d`, counted as the
      number of steps of `d` that cover `n`. */
  function CeilDiv(n: nat, d: nat): nat
    requires d > 0
    decreases n
  {
    if n == 0 then 0 else 1 + CeilDiv(if n <= d then 0 else n - d, d)
  }

  /** `CeilDiv(n, d)` is the least `q` with `q * d >= n`. */
  lemma {:induction false} CeilDivBounds(n: nat, d: nat)
    requires d > 0
    ensures CeilDiv(n, d) * d >= n
    ensures CeilDiv(n, d) > 0 ==> (CeilDiv(n, d) - 1) * d < n
    ensures CeilDiv(n, d) == 0 <==> n == 0
    decreases n
  {
    if n > 0 {
      var rest := if n <= d then 0 else n - d;
      CeilDivBounds(rest, d);
      MulSucc(CeilDiv(rest, d), d);
    }
  }

  /** `s.filter(p)`. */
  function Filter<T>(s: seq<T>, p: T -> bool): (r: seq<T>)
    ensures |r| <= |s|
    ensures forall k :: 0 <= k < |r| ==> p(r[k])
    decreases |s|
  {
    if s == [] then []
    else if p(s[0]) then [s[0]] + Filter(s[1..], p)
    else Filter(s[1..], p)
  }

  /** Filtering keeps exactly the elements that satisfy the predicate. */
  lemma {:induction false} FilterMembership<T>(s: seq<T>, p: T -> bool, x: T)
    ensures x in Filter(s, p) <==> x in s && p(x)
    decreases |s|
  {
    if s != [] {
      FilterMembership(s[1..], p, x);
      assert s == [s[0]] + s[1..];
    }
  }

  /** A filter that every element passes keeps the sequence as it is. */
  lemma {:induction false} FilterAll<T>(s: seq<T>, p: T -> bool)
    requires forall k :: 0 <= k < |s| ==> p(s[k])
    ensures Filter(s, p) == s
    decreases |s|
  {
    if s != [] {
      FilterAll(s[1..], p);
      assert s == [s[0]] + s[1..];
    }
  }

  /** Two predicates that agree on every element filter alike. */
  lemma {:induction false} FilterExt<T>(s: seq<T>, p: T -> bool, q: T -> bool)
    requires forall k :: 0 <= k < |s| ==> p(s[k]) == q(s[k])
    ensures Filter(s, p) == Filter(s, q)
    decreases |s|
  {
    if s != [] {
      FilterExt(s[1..], p, q);
    }
  }

  /** Filtering distributes over concatenation. */
  lemma {:induction false} FilterAppend<T>(a: seq<T>, b: seq<T>, p: T -> bool)
    ensures Filter(a + b, p) == Filter(a, p) + Filter(b, p)
    decreases |a|
  {
    if a != [] {
      FilterAppend(a[1..], b, p);
      assert (a + b)[0] == a[0];
      assert (a + b)[1..] == a[1..] + b;
    } else {
      assert a + b == b;
    }
  }

  /** Concatenation is associative. */
  lemma AppendAssoc<T>(a: seq<T>, b: seq<T>, c: seq<T>)
    ensures (a + b) + c == a + (b + c)
  {
  }

  /** Dropping the last element of a non-empty `b` from `a + b`. */
  lemma AppendInit<T>(a: seq<T>, b: seq<T>)
    requires b != []
    ensures (a + b)[..|a + b| - 1] == a + b[..|b| - 1]
  {
  }

  /** A non-empty sequence is its front followed by its last element. */
  lemma InitLast<T>(s: seq<T>)
    requires s != []
    ensures s == s[..|s| - 1] + [s[|s| - 1]]
  {
  }

  /** Dropping the element just appended. */
  lemma SnocInit<T>(a: seq<T>, x: T)
    ensures (a + [x])[..|a|] == a
  {
  }

  /** Filtering a sequence one element longer. */
  lemma FilterSnoc<T>(s: seq<T>, x: T, p: T -> bool)
    ensures Filter(s + [x], p) == if p(x) then Filter(s, p) + [x] else Filter(s, p)
  {
    FilterAppend(s, [x], p);
    assert [x][1..] == [];
  }

  /** A filter and the filter of its complement split a sequence exactly:
      together they hold every element as often as the input does. */
  lemma {:induction false} FilterPartition<T>(s: seq<T>, p: T -> bool, q: T -> bool)
    requires forall x :: q(x) == !p(x)
    ensures |Filter(s, p)| + |Filter(s, q)| == |s|
    ensures multiset(Filter(s, p)) + multiset(Filter(s, q)) == multiset(s)
    decreases |s|
  {
    if s != [] {
      FilterPartition(s[1..], p, q);
      assert s == [s[0]] + s[1..];
    }
  }

  /** `r` sits inside `s` at the strictly increasing positions `idx`. */
  ghost predicate Embeds<T>(r: seq<T>, s: seq<T>, idx: seq<nat>) {
    && |idx| == |r|
    && (forall k :: 0 <= k < |idx| ==> idx[k] < |s| && r[k] == s[idx[k]])
    && (forall k, l :: 0 <= k < l < |idx| ==> idx[k] < idx[l])
  }

  /** The positions from `i` on whose element passes `p`, in increasing order. */
  function KeptFrom<T>(s: seq<T>, p: T -> bool, i: nat): (idx: seq<nat>)
    requires i <= |s|
    ensures forall k :: 0 <= k < |idx| ==> i <= idx[k] < |s|
    ensures forall k, l :: 0 <= k < l < |idx| ==> idx[k] < idx[l]
    decreases |s| - i
  {
    if i == |s| then []
    else if p(s[i]) then [i] + KeptFrom(s, p, i + 1)
    else KeptFrom(s, p, i + 1)
  }

  /** The positions of `s` whose element passes `p`, in increasing order. */
  function KeptIndices<T>(s: seq<T>, p: T -> bool): seq<nat> {
    KeptFrom(s, p, 0)
  }

  /** The filter is the subsequence of `s` at the kept positions: it keeps
      the input's order. */
  lemma FilterEmbeds<T>(s: seq<T>, p: T -> bool)
    ensures Embeds(Filter(s, p), s, KeptIndices(s, p))
  {
    assert s[0..] == s;
    KeptFromLength(s, p, 0);
    forall k | 0 <= k < |KeptIndices(s, p)| ensures Filter(s, p)[k] == s[KeptIndices(s, p)[k]] {
      FilterAt(s, p, 0, k);
    }
  }

  lemma {:induction false} KeptFromLength<T>(s: seq<T>, p: T -> bool, i: nat)
    requires i <= |s|
    ensures |KeptFrom(s, p, i)| == |Filter(s[i..], p)|
    decreases |s| - i
  {
    if i < |s| {
      var t := s[i..];
      assert t[0] == s[i] && t[1..] == s[i + 1..];
      KeptFromLength(s, p, i + 1);
    }
  }

  /** The `k`-th element kept from `s[i..]` is the element of `s` at the
      `k`-th kept position. */
  lemma {:induction false} FilterAt<T>(s: seq<T>, p: T -> bool, i: nat, k: nat)
    requires i <= |s| && k < |KeptFrom(s, p, i)|
    ensures |KeptFrom(s, p, i)| == |Filter(s[i..], p)|
    ensures Filter(s[i..], p)[k] == s[KeptFrom(s, p, i)[k]]
    decreases |s| - i
  {
    var t := s[i..];
    assert t[0] == s[i] && t[1..] == s[i + 1..];
    if p(s[i]) && k == 0 {
      KeptFromLength(s, p, i + 1);
    } else {
      FilterAt(s, p, i + 1, if p(s[i]) then k - 1 else k);
    }
  }

  /** Every position from `i` on whose element passes `p` is kept. */
  lemma {:induction false} KeptFromComplete<T>(s: seq<T>, p: T -> bool, i: nat, j: nat)
    requires i <= j < |s| && p(s[j])
    ensures j in KeptFrom(s, p, i)
    decreases |s| - i
  {
    if i < j {
      KeptFromComplete(s, p, i + 1, j);
    }
  }

  /** The position of the first occurrence of `x` in `s`. */
  function IndexOf<T(==)>(s: seq<T>, x: T): (i: nat)
    requires x in s
    ensures i < |s| && s[i] == x
    ensures forall m :: 0 <= m < i ==> s[m] != x
    decreases |s|
  {
    if s[0] == x then 0 else 1 + IndexOf(s[1..], x)
  }

  /** Filtering keeps the order of first occurrences of the elements it keeps. */
  lemma {:induction false} FilterFirstOrder<T>(s: seq<T>, p: T -> bool, x: T, y: T)
    requires x in Filter(s, p) && y in Filter(s, p)
    ensures x in s && y in s
    ensures IndexOf(Filter(s, p), x) < IndexOf(Filter(s, p), y) <==> IndexOf(s, x) < IndexOf(s, y)
    decreases |s|
  {
    FilterMembership(s, p, x);
    FilterMembership(s, p, y);
    var t := s[1..];
    FilterMembership(t, p, x);
    FilterMembership(t, p, y);
    if x != s[0] && y != s[0] {
      FilterFirstOrder(t, p, x, y);
    }
  }

  /** The concatenation of a sequence of sequences. */
  function Concat<T>(ss: seq<seq<T>>): seq<T>
    decreases |ss|
  {
    if ss == [] then [] else ss[0] + Concat(ss[1..])
  }

  lemma {:induction false} ConcatAppend<T>(a: seq<seq<T>>, b: seq<seq<T>>)
    ensures Concat(a + b) == Concat(a) + Concat(b)
    decreases |a|
  {
    if a != [] {
      ConcatAppend(a[1..], b);
      assert (a + b)[0] == a[0];
      assert (a + b)[1..] == a[1..] + b;
    } else {
      assert a + b == b;
    }
  }

  /** Concatenating one more sequence. */
  lemma ConcatSnoc<T>(ss: seq<seq<T>>, s: seq<T>)
    ensures Concat(ss + [s]) == Concat(ss) + s
  {
    ConcatAppend(ss, [s]);
    assert [s][1..] == [];
    assert Concat([s]) == s + Concat([]);
  }

  /** The successive slices `s.slice(i, i + size)` for `i = 0, size, 2 * size, …`. */
  function Chunks<T>(s: seq<T>, size: nat): seq<seq<T>>
    requires size > 0
    decreases |s|
  {
    if s == [] then [] else [s[..Min(size, |s|)]] + Chunks(s[Min(size, |s|)..], size)
  }

  /** Together the chunks give back `s`, in order. */
  lemma {:induction false} ChunksConcat<T>(s: seq<T>, size: nat)
    requires size > 0
    ensures Concat(Chunks(s, size)) == s
    decreases |s|
  {
    if s != [] {
      var m := Min(size, |s|);
      ChunksConcat(s[m..], size);
      assert s == s[..m] + s[m..];
    }
  }

  /** There are `ceil(|s| / size)` chunks, none empty and none longer than `size`. */
  lemma {:induction false} ChunksCount<T>(s: seq<T>, size: nat)
    requires size > 0
    ensures |Chunks(s, size)| == CeilDiv(|s|, size)
    decreases |s|
  {
    if s != [] {
      var rest := s[Min(size, |s|)..];
      ChunksCount(rest, size);
      ChunksCons(s, size);
    }
  }

  /** Every chunk holds between 1 and `size` elements. */
  lemma {:induction false} ChunksSizes<T>(s: seq<T>, size: nat)
    requires size > 0
    ensures forall k :: 0 <= k < |Chunks(s, size)| ==> 0 < |Chunks(s, size)[k]| <= size
    decreases |s|
  {
    if s != [] {
      var rest := s[Min(size, |s|)..];
      ChunksSizes(rest, size);
      ChunksCons(s, size);
    }
  }

  /** The first chunk and the rest. */
  lemma ChunksCons<T>(s: seq<T>, size: nat)
    requires size > 0 && s != []
    ensures var m := Min(size, |s|);
            && Chunks(s, size) == [s[..m]] + Chunks(s[m..], size)
            && 0 < |s[..m]| <= size
            && |s[m..]| == if |s| <= size then 0 else |s| - size
  {
  }

  /** The `k`-th chunk is `s.slice(k * size, (k + 1) * size)`. */
  lemma {:induction false} ChunksAt<T>(s: seq<T>, size: nat, k: nat)
    requires size > 0
    requires k < |Chunks(s, size)|
    ensures k * size < |s|
    ensures Chunks(s, size)[k] == s[k * size..Min((k + 1) * size, |s|)]
    decreases |s|
  {
    var m := Min(size, |s|);
    var rest := s[m..];
    assert Chunks(s, size) == [s[..m]] + Chunks(rest, size);
    if k > 0 {
      assert rest != [] && m == size;
      ChunksAt(rest, size, k - 1);
      assert Chunks(s, size)[k] == Chunks(rest, size)[k - 1];
      var lo := (k - 1) * size;
      var hi := Min(k * size, |rest|);
      MulSucc(k - 1, size);
      MulSucc(k, size);
      assert k * size == size + lo;
      assert Min((k + 1) * size, |s|) == size + hi;
      SliceOfSlice(s, size, lo, hi);
    }
  }

  /** A slice of `s[m..]` is a slice of `s`, shifted by `m`. */
  /** The chunks of `s[i..]` begin with `s.slice(i, i + size)`. */
  lemma ChunkAt<T>(s: seq<T>, i: nat, size: nat)
    requires size > 0 && i < |s|
    ensures Chunks(s[i..], size) == [s[i..Min(i + size, |s|)]] + Chunks(s[Min(i + size, |s|)..], size)
  {
    var m := Min(size, |s| - i);
    SliceOfSlice(s, i, 0, m);
    SliceOfSlice(s, i, m, |s| - i);
    assert s[i..][m..] == s[i..][m..|s| - i];
    assert s[i + m..] == s[i + m..|s|];
  }

  lemma SliceOfSlice<T>(s: seq<T>, m: int, lo: int, hi: int)
    requires 0 <= m <= |s| && 0 <= lo <= hi <= |s| - m
    ensures s[m..][lo..hi] == s[m + lo..m + hi]
  {
    assert forall i :: 0 <= i < hi - lo ==> s[m..][lo..hi][i] == s[m + lo + i];
  }

  lemma MulSucc(k: nat, size: nat)
    ensures (k + 1) * size == size + k * size
  {
  }

  /** The sequence is in non-increasing order of `key`. */
  ghost predicate SortedDesc<T>(s: seq<T>, key: T -> int) {
    forall i, j :: 0 <= i < j < |s| ==> key(s[i]) >= key(s[j])
  }

  /** Inserts `x` into a sorted sequence before the first element whose key
      is not greater, so that `x` precedes the equal keys that follow it. */
  function InsertDesc<T(==)>(x: T, s: seq<T>, key: T -> int): (r: seq<T>)
    requires SortedDesc(s, key)
    ensures SortedDesc(r, key)
    ensures multiset(r) == multiset(s) + multiset{x}
    ensures |r| == |s| + 1
    ensures r[0] == x || (s != [] && r[0] == s[0])
    decreases |s|
  {
    if s == [] || key(s[0]) <= key(x) then [x] + s
    else
      var rest := InsertDesc(x, s[1..], key);
      assert s == [s[0]] + s[1..];
      assert key(s[0]) >= key(rest[0]);
      [s[0]] + rest
  }

  /** `s.sort((a, b) => key(b) - key(a))`: a stable sort into non-increasing
      order of `key`; the result is a permutation of `s`. */
  function SortDesc<T(==)>(s: seq<T>, key: T -> int): (r: seq<T>)
    ensures SortedDesc(r, key)
    ensures multiset(r) == multiset(s)
    ensures |r| == |s|
    decreases |s|
  {
    if s == [] then []
    else
      assert s == [s[0]] + s[1..];
      InsertDesc(s[0], SortDesc(s[1..], key), key)
  }

  /** No element occurs twice. */
  predicate NoDuplicates<T(==)>(s: seq<T>) {
    forall i, j :: 0 <= i < j < |s| ==> s[i] != s[j]
  }

  /** `[...new Set(s)]`, skipping the elements already in `seen`: every element
      is kept at its first occurrence. */
  function DedupFrom<T(==,!new)>(s: seq<T>, seen: set<T>): (r: seq<T>)
    ensures NoDuplicates(r)
    ensures forall x :: x in r <==> x in s && x !in seen
    decreases |s|
  {
    if s == [] then []
    else if s[0] in seen then DedupFrom(s[1..], seen)
    else [s[0]] + DedupFrom(s[1..], seen + {s[0]})
  }

  /** `[...new Set(s)]`: the distinct elements of `s` in order of first occurrence. */
  function Dedup<T(==,!new)>(s: seq<T>): (r: seq<T>)
    ensures NoDuplicates(r)
    ensures forall x :: x in r <==> x in s
    ensures |r| <= |s|
  {
    DedupLength(s, {});
    DedupFrom(s, {})
  }

  lemma {:induction false} DedupLength<T(!new)>(s: seq<T>, seen: set<T>)
    ensures |DedupFrom(s, seen)| <= |s|
    decreases |s|
  {
    if s != [] {
      DedupLength(s[1..], seen);
      DedupLength(s[1..], seen + {s[0]});
    }
  }

  /** A sequence with no duplicates is its own deduplication. */
  lemma {:induction false} DedupDistinct<T(!new)>(s: seq<T>, seen: set<T>)
    requires NoDuplicates(s)
    requires forall x :: x in s ==> x !in seen
    ensures DedupFrom(s, seen) == s
    decreases |s|
  {
    if s != [] {
      assert forall x :: x in s[1..] ==> x != s[0] by {
        forall x | x in s[1..] ensures x != s[0] {
          var j :| 0 <= j < |s[1..]| && s[1..][j] == x;
          assert s[j + 1] == x;
        }
      }
      DedupDistinct(s[1..], seen + {s[0]});
    }
  }

  /** Deduplication keeps the elements in the order of their first
      occurrences: together with its membership and distinctness, this fixes
      the result completely. */
  lemma DedupOrder<T(!new)>(s: seq<T>, seen: set<T>, i: nat, j: nat)
    requires i < j < |DedupFrom(s, seen)|
    ensures IndexOf(s, DedupFrom(s, seen)[i]) < IndexOf(s, DedupFrom(s, seen)[j])
  {
    var r := DedupFrom(s, seen);
    var q := IndexOf(s, r[j]);
    DedupBefore(s, seen, i, j, q);
    var m :| 0 <= m < q && s[..q][m] == r[i];
    assert s[m] == r[i];
  }

  /** Wherever a kept element occurs in `s`, every element kept before it
      has already occurred. */
  lemma {:induction false} DedupBefore<T(!new)>(s: seq<T>, seen: set<T>, i: nat, j: nat, q: nat)
    requires i < j < |DedupFrom(s, seen)| && q < |s| && s[q] == DedupFrom(s, seen)[j]
    ensures DedupFrom(s, seen)[i] in s[..q]
    decreases |s|
  {
    var r, t, seen' := DedupFrom(s, seen), s[1..], seen + {s[0]};
    assert r[j] in r;
    if s[0] in seen {
      assert seen' == seen;
      DedupBefore(t, seen, i, j, q - 1);
      assert s[..q] == [s[0]] + t[..q - 1];
    } else if i > 0 {
      DedupBefore(t, seen', i - 1, j - 1, q - 1);
      assert s[..q] == [s[0]] + t[..q - 1];
    }
  }
}
