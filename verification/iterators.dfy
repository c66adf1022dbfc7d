/**
 * The iterator library. Every iterator is modelled by the position (an
 * index) of the container iterator it wraps; callables are plain functions.
 */
module Iterators {

  // ===========================================================================
  // iterator_facade: the operators derived from advance / difference / equal
  // ===========================================================================

  /** The position-based iterators whose operators come from the facade. */
  datatype Kind =
    | Contiguous                       // a plain container iterator
    | Transforming                     // transform_iterator (positions of the wrapped iterator)
    | Circular(first: int, last: int)  // circular_iterator over [first, last)

  datatype Iter = Iter(kind: Kind, pos: int)

  /** One forward step of a circular iterator: past the last element it
      wraps to the first. */
  function CircularForward(p: int, first: int, last: int): (r: int)
    ensures first <= p < last ==> first <= r < last
  {
    if p + 1 == last then first else p + 1
  }

  /** One backward step of a circular iterator: before the first element it
      wraps to the last. */
  function CircularBackward(p: int, first: int, last: int): (r: int)
    ensures first <= p < last ==> first <= r < last
  {
    (if p == first then last else p) - 1
  }

  /** circular_iterator::advance: |n| single steps in the direction of n. */
  function CircularAdvance(p: int, first: int, last: int, n: int): (r: int)
    ensures first <= p < last ==> first <= r < last
    ensures n == 0 ==> r == p
    decreases if n < 0 then -n else n
  {
    if n == 0 then p
    else if n > 0 then CircularAdvance(CircularForward(p, first, last), first, last, n - 1)
    else CircularAdvance(CircularBackward(p, first, last), first, last, n + 1)
  }

  /** `advance(n)` of each kind. For `Transforming` this is the corrected
      definition, moving the wrapped iterator by `n`. */
  function Advance(it: Iter, n: int): (r: Iter)
    ensures r.kind == it.kind
    ensures !it.kind.Circular? ==> r.pos == it.pos + n
    ensures it.kind.Circular? && it.kind.first <= it.pos < it.kind.last ==>
              r.pos == it.kind.first + (it.pos - it.kind.first + n) % (it.kind.last - it.kind.first)
  {
    match it.kind
    case Contiguous => Iter(it.kind, it.pos + n)
    case Transforming => Iter(it.kind, it.pos + n)
    case Circular(first, last) =>
      if first <= it.pos < last then
        CircularAdvanceIsModular(it.pos, first, last, n);
        Iter(it.kind, CircularAdvance(it.pos, first, last, n))
      else Iter(it.kind, CircularAdvance(it.pos, first, last, n))
  }

  /** `difference`: every kind subtracts the wrapped iterators. */
  function Difference(a: Iter, b: Iter): int { a.pos - b.pos }

  /** `equal`: every kind compares the wrapped iterators. */
  function Equal(a: Iter, b: Iter): bool { a.pos == b.pos }

  // Facade operators.
  function Increment(it: Iter): Iter { Advance(it, 1) }
  function Decrement(it: Iter): Iter { Advance(it, -1) }
  /** Post-increment: the old value is returned, the iterator moves. */
  function PostIncrement(it: Iter): (Iter, Iter) { (it, Advance(it, 1)) }
  function Plus(it: Iter, d: int): Iter { Advance(it, d) }
  function Minus(it: Iter, d: int): Iter { Advance(it, -d) }
  function Subtract(a: Iter, b: Iter): int { Difference(a, b) }
  function Less(a: Iter, b: Iter): bool { Difference(a, b) < 0 }
  function Greater(a: Iter, b: Iter): bool { Difference(a, b) > 0 }
  function LessEq(a: Iter, b: Iter): bool { Difference(a, b) <= 0 }
  function GreaterEq(a: Iter, b: Iter): bool { Difference(a, b) >= 0 }
  function NotEqual(a: Iter, b: Iter): bool { !Equal(a, b) }

  /** `*it` of a contiguous or circular iterator. */
  function Deref<T>(s: seq<T>, it: Iter): T
    requires 0 <= it.pos < |s|
  {
    s[it.pos]
  }

  /** `it[d]`: the element `d` steps away. */
  function Subscript<T>(s: seq<T>, it: Iter, d: int): T
    requires 0 <= Plus(it, d).pos < |s|
  {
    Deref(s, Plus(it, d))
  }

  /** The kinds whose `advance(n)` moves the wrapped iterator by exactly `n`. */
  predicate Linear(k: Kind) { k.Contiguous? || k.Transforming? }

  /** Random-access laws of the facade over linear kinds: `+ d` then `- it`
      gives `d`, `- d` undoes `+ d`, `--` undoes `++`, the comparisons follow
      the sign of the distance, and `it[d]` is `*(it + d)`. */
  lemma FacadeRandomAccessLaws<T>(s: seq<T>, it: Iter, d: int)
    requires Linear(it.kind)
    ensures Subtract(Plus(it, d), it) == d
    ensures Minus(Plus(it, d), d) == it
    ensures Decrement(Increment(it)) == it && Increment(Decrement(it)) == it
    ensures Less(it, Plus(it, d)) <==> d > 0
    ensures Greater(it, Plus(it, d)) <==> d < 0
    ensures LessEq(it, Plus(it, d)) <==> !Greater(it, Plus(it, d))
    ensures Equal(it, Plus(it, d)) <==> d == 0
    ensures 0 <= it.pos + d < |s| ==> Subscript(s, it, d) == s[it.pos + d]
  {
  }

  /** `transform_iterator::advance` as written: it ignores `n` and always
      moves one step. */
  function TransformAdvanceAsWritten(it: Iter, n: int): (r: Iter)
    requires it.kind.Transforming?
    ensures r.kind == it.kind
    ensures r.pos == it.pos + 1
  {
    Iter(it.kind, it.pos + 1)
  }

  /** For a single step the as-written advance and the corrected one agree,
      so everything built only on `++` is unaffected. */
  lemma TransformAdvanceAsWrittenStepsLikeIncrement(it: Iter)
    requires it.kind.Transforming?
    ensures TransformAdvanceAsWritten(it, 1) == Increment(it)
    ensures Difference(TransformAdvanceAsWritten(it, 1), it) == 1
  {
  }

  /** With the as-written advance, `(it + 2) - it` is 1 rather than 2 and
      `--it` moves forward, breaking the facade's random-access laws; the
      corrected `Advance` satisfies them. */
  lemma TransformAdvanceAsWrittenBreaksFacade(it: Iter)
    requires it.kind.Transforming?
    ensures Difference(TransformAdvanceAsWritten(it, 2), it) == 1
    ensures TransformAdvanceAsWritten(it, -1).pos == it.pos + 1
    ensures Difference(Plus(it, 2), it) == 2 && Decrement(it).pos == it.pos - 1
  {
  }

  // ---------------------------------------------------------------------------
  // Circular iterators
  // ---------------------------------------------------------------------------

  /** Inside a non-empty range, `advance(n)` lands on `(pos + n) mod len`
      (for positive and negative `n` alike) and never on `last`. */
  lemma {:induction false} CircularAdvanceIsModular(p: int, first: int, last: int, n: int)
    requires first < last && first <= p < last
    ensures CircularAdvance(p, first, last, n) == first + (p - first + n) % (last - first)
    ensures first <= CircularAdvance(p, first, last, n) < last
    decreases if n < 0 then -n else n
  {
    var len, o := last - first, p - first;
    if n > 0 {
      var q := CircularForward(p, first, last);
      assert q - first == (if o + 1 == len then 0 else o + 1);
      assert CircularAdvance(p, first, last, n) == CircularAdvance(q, first, last, n - 1);
      CircularAdvanceIsModular(q, first, last, n - 1);
      ModStepForward(o, len, n);
    } else if n < 0 {
      var q := CircularBackward(p, first, last);
      assert q - first == (if o == 0 then len else o) - 1;
      assert CircularAdvance(p, first, last, n) == CircularAdvance(q, first, last, n + 1);
      CircularAdvanceIsModular(q, first, last, n + 1);
      ModStepBackward(o, len, n);
    } else {
      ModUnique(o, len, 0, o);
    }
  }

  /** One forward step, wrapping at `len`, then `n - 1` more is `n` steps. */
  lemma ModStepForward(o: int, len: int, n: int)
    requires 0 <= o < len
    ensures ((if o + 1 == len then 0 else o + 1) + (n - 1)) % len == (o + n) % len
  {
    if o + 1 == len {
      ModShift(n - 1, len);
      assert len + (n - 1) == o + n;
    }
  }

  /** One backward step, wrapping at 0, then `n + 1` more is `n` steps. */
  lemma ModStepBackward(o: int, len: int, n: int)
    requires 0 <= o < len
    ensures ((if o == 0 then len else o) - 1 + (n + 1)) % len == (o + n) % len
  {
    if o == 0 {
      ModShift(n, len);
      assert len - 1 + (n + 1) == len + n;
    }
  }

  /** Adding the modulus does not change the remainder. */
  lemma ModShift(x: int, len: int)
    requires len > 0
    ensures (len + x) % len == x % len
  {
    var q := x / len;
    var r := x % len;
    assert x == q * len + r;
    assert len + x == (q + 1) * len + r;
    ModUnique(len + x, len, q + 1, r);
  }

  /** Euclidean division has one quotient and one remainder. */
  lemma ModUnique(a: int, n: int, q: int, r: int)
    requires n > 0 && 0 <= r < n && a == q * n + r
    ensures a % n == r
  {
    var q2 := a / n;
    var r2 := a % n;
    assert a == q2 * n + r2;
    assert (q - q2) * n == r2 - r;
    if q - q2 >= 1 {
      MulAtLeast(q - q2, n);
      assert false;
    } else if q2 - q >= 1 {
      MulAtLeast(q2 - q, n);
      assert false;
    }
  }

  lemma MulAtLeast(d: int, n: int)
    requires d >= 1 && n > 0
    ensures d * n >= n
  {
    assert d * n == (d - 1) * n + n;
  }

  /** `view::circular`: begin at `first`, end at `last`, both wrapping over
      `[first, last)`. */
  function CircularBegin(len: nat): Iter { Iter(Circular(0, len), 0) }
  function CircularEnd(len: nat): Iter { Iter(Circular(0, len), len) }

  /** Over a non-empty range the circular view starts at the beginning,
      visits element `k mod len` after `k` increments and never reaches its
      end iterator: it is unbounded. Over an empty range it is empty. */
  lemma CircularViewUnbounded<T>(s: seq<T>, k: int)
    ensures |s| == 0 ==> Equal(CircularBegin(|s|), CircularEnd(|s|))
    ensures |s| > 0 ==> !Equal(Plus(CircularBegin(|s|), k), CircularEnd(|s|))
    ensures |s| > 0 ==> Plus(CircularBegin(|s|), k).pos == k % |s|
                        && Deref(s, Plus(CircularBegin(|s|), k)) == s[k % |s|]
  {
    if |s| > 0 {
      CircularAdvanceIsModular(0, 0, |s|, k);
    }
  }

  // ===========================================================================
  // filter_iterator
  // ===========================================================================

  /** The elements of `s` satisfying `p`, in order. */
  function Filter<T>(s: seq<T>, p: T -> bool): (r: seq<T>)
    ensures |r| <= |s|
  {
    if |s| == 0 then []
    else if p(s[0]) then [s[0]] + Filter(s[1..], p)
    else Filter(s[1..], p)
  }

  /** `nextvalid`: the first position at or after `pos` whose element
      satisfies `p`, or `last` when there is none. */
  function NextValid<T>(s: seq<T>, p: T -> bool, pos: int, last: int): (r: int)
    requires 0 <= pos <= last <= |s|
    ensures pos <= r <= last
    ensures r == last || p(s[r])
    ensures forall j :: pos <= j < r ==> !p(s[j])
    decreases last - pos
  {
    if pos == last || p(s[pos]) then pos else NextValid(s, p, pos + 1, last)
  }

  /** A filter iterator: the wrapped position and the end it stops at. */
  datatype FilterIter = FilterIter(pos: int, last: int)

  /** A filter iterator position the constructor or `advance` can produce. */
  predicate FilterValid<T>(s: seq<T>, p: T -> bool, it: FilterIter)
  {
    0 <= it.pos <= it.last <= |s| && (it.pos == it.last || p(s[it.pos]))
  }

  /** The constructor runs `nextvalid`. */
  function MakeFilterIter<T>(s: seq<T>, p: T -> bool, pos: int, last: int): (r: FilterIter)
    requires 0 <= pos <= last <= |s|
    ensures FilterValid(s, p, r) && r.last == last
    ensures forall j :: pos <= j < r.pos ==> !p(s[j])
  {
    FilterIter(NextValid(s, p, pos, last), last)
  }

  /** `++`: step once, then keep stepping while not at `last` and the element
      does not satisfy `p`. */
  function FilterIncrement<T>(s: seq<T>, p: T -> bool, it: FilterIter): (r: FilterIter)
    requires FilterValid(s, p, it) && it.pos < it.last
    ensures FilterValid(s, p, r) && r.last == it.last
    ensures it.pos < r.pos
    ensures forall j :: it.pos < j < r.pos ==> !p(s[j])
  {
    FilterIter(NextValid(s, p, it.pos + 1, it.last), it.last)
  }

  /** Skipping elements that fail `p` does not change what remains. */
  lemma {:induction false} FilterSkipsRejected<T>(s: seq<T>, p: T -> bool, pos: int, last: int)
    requires 0 <= pos <= last <= |s|
    ensures Filter(s[NextValid(s, p, pos, last) .. last], p) == Filter(s[pos .. last], p)
    decreases last - pos
  {
    if pos < last && !p(s[pos]) {
      FilterSkipsRejected(s, p, pos + 1, last);
      assert s[pos .. last][1..] == s[pos + 1 .. last];
    }
  }

  /** `advance(n)`: `n` increments; a non-positive `n` does nothing. The
      caller must not step past `last`. */
  function FilterAdvance<T>(s: seq<T>, p: T -> bool, it: FilterIter, n: int): (r: FilterIter)
    requires FilterValid(s, p, it)
    requires n <= |Filter(s[it.pos .. it.last], p)|
    ensures FilterValid(s, p, r) && r.last == it.last
    ensures n > 0 ==> |Filter(s[r.pos .. r.last], p)| == |Filter(s[it.pos .. it.last], p)| - n
    ensures n <= 0 ==> r == it
    decreases n
  {
    if n <= 0 then it
    else
      var next := FilterIncrement(s, p, it);
      assert s[it.pos .. it.last][1..] == s[it.pos + 1 .. it.last];
      FilterSkipsRejected(s, p, it.pos + 1, it.last);
      FilterAdvance(s, p, next, n - 1)
  }

  /** The elements a range-for loop over a filter view visits. */
  function FilterEnumerate<T>(s: seq<T>, p: T -> bool, it: FilterIter): (r: seq<T>)
    requires FilterValid(s, p, it)
    ensures |r| <= it.last - it.pos
    ensures forall k :: 0 <= k < |r| ==> p(r[k])
    ensures it.pos < it.last ==> |r| > 0 && r[0] == s[it.pos]
    decreases it.last - it.pos
  {
    if it.pos == it.last then [] else [s[it.pos]] + FilterEnumerate(s, p, FilterIncrement(s, p, it))
  }

  /** `view::filter` over `s[first..last]`: begin is a filter iterator from
      `first`, end one at `last`. */
  function FilterView<T>(s: seq<T>, p: T -> bool, first: int, last: int): (r: (FilterIter, FilterIter))
    requires 0 <= first <= last <= |s|
    ensures FilterValid(s, p, r.0) && FilterValid(s, p, r.1)
    ensures r.0.last == last && r.1 == FilterIter(last, last)
    ensures first <= r.0.pos && forall j :: first <= j < r.0.pos ==> !p(s[j])
  {
    (MakeFilterIter(s, p, first, last), MakeFilterIter(s, p, last, last))
  }

  /** A filter view enumerates exactly the matching elements, in their
      original order. */
  lemma {:induction false} FilterViewEnumeratesMatches<T>(s: seq<T>, p: T -> bool, first: int, last: int)
    requires 0 <= first <= last <= |s|
    ensures FilterView(s, p, first, last).1.pos == last
    ensures FilterEnumerate(s, p, FilterView(s, p, first, last).0) == Filter(s[first .. last], p)
  {
    FilterSkipsRejected(s, p, first, last);
    FilterEnumerateIsFilter(s, p, MakeFilterIter(s, p, first, last));
  }

  lemma {:induction false} FilterEnumerateIsFilter<T>(s: seq<T>, p: T -> bool, it: FilterIter)
    requires FilterValid(s, p, it)
    ensures FilterEnumerate(s, p, it) == Filter(s[it.pos .. it.last], p)
    decreases it.last - it.pos
  {
    if it.pos < it.last {
      var next := FilterIncrement(s, p, it);
      FilterEnumerateIsFilter(s, p, next);
      FilterSkipsRejected(s, p, it.pos + 1, it.last);
      assert s[it.pos .. it.last][1..] == s[it.pos + 1 .. it.last];
    }
  }

  // ===========================================================================
  // zipped_iterator: one position per component, all moving together
  // ===========================================================================

  /** `equal` of zipped iterators: true as soon as ANY component is equal,
      checked component by component from `k` on. */
  function ZipEqualFrom(a: seq<int>, b: seq<int>, k: nat): (r: bool)
    requires |a| == |b|
    ensures r <==> exists j :: k <= j < |a| && a[j] == b[j]
    decreases |a| - k
  {
    if k >= |a| then false
    else if a[k] == b[k] then true
    else ZipEqualFrom(a, b, k + 1)
  }

  function ZipEqual(a: seq<int>, b: seq<int>): bool
    requires |a| == |b|
  {
    ZipEqualFrom(a, b, 0)
  }

  /** `advance(n)` moves every component by `n`. */
  function ZipAdvance(a: seq<int>, n: int): (r: seq<int>)
    ensures |r| == |a|
    ensures forall k :: 0 <= k < |a| ==> r[k] == a[k] + n
  {
    seq(|a|, k requires 0 <= k < |a| => a[k] + n)
  }

  /** Every component at position `i`. */
  function Uniform(count: nat, i: int): (r: seq<int>)
    ensures |r| == count && forall k :: 0 <= k < count ==> r[k] == i
  {
    seq(count, _ => i)
  }

  /** The smallest of a non-empty list of lengths. */
  function Min(ends: seq<int>): (m: int)
    requires |ends| >= 1
    ensures forall k :: 0 <= k < |ends| ==> m <= ends[k]
    ensures exists k :: 0 <= k < |ends| && m == ends[k]
  {
    if |ends| == 1 then ends[0]
    else
      var m := Min(ends[1..]);
      assert forall k :: 1 <= k < |ends| ==> ends[1..][k - 1] == ends[k];
      if ends[0] <= m then ends[0] else m
  }

  /** The number of increments a zipped iterator whose components all sit at
      `i` makes before it compares equal to the end iterator (the components'
      ends): the shortest remaining length. */
  function ZipCount(ends: seq<int>, i: int): (r: nat)
    requires |ends| >= 1 && i <= Min(ends)
    ensures r == Min(ends) - i
    decreases Min(ends) - i
  {
    if ZipEqual(Uniform(|ends|, i), ends) then 0 else 1 + ZipCount(ends, i + 1)
  }

  /** `zip_iters` over ranges of these lengths yields `min` of them tuples:
      the zipped iterator differs from the end at every step before the
      shortest length and meets it there, with every component moved along. */
  lemma ZipYieldsShortest(ends: seq<nat>)
    requires |ends| >= 1
    ensures forall i :: 0 <= i < Min(ends) ==> !ZipEqual(Uniform(|ends|, i), ends)
    ensures ZipEqual(Uniform(|ends|, Min(ends)), ends)
    ensures ZipCount(ends, 0) == Min(ends)
    ensures ZipAdvance(Uniform(|ends|, 0), ZipCount(ends, 0)) == Uniform(|ends|, Min(ends))
  {
    var m := Min(ends);
    forall i | 0 <= i < m
      ensures !ZipEqual(Uniform(|ends|, i), ends)
    {
      var u := Uniform(|ends|, i);
      assert forall j :: 0 <= j < |ends| ==> u[j] < ends[j];
    }
    var k :| 0 <= k < |ends| && m == ends[k];
    assert Uniform(|ends|, m)[k] == ends[k];
  }

  // ===========================================================================
  // adjacent_pair_iterator / AdjacentRange
  // ===========================================================================

  /** An adjacent-pair iterator: the previous and the current position. */
  datatype AdjIter = AdjIter(prev: int, cur: int)

  /** Constructed on a position, the pair starts there and its second half one later. */
  function MakeAdjIter(pos: int): (r: AdjIter)
    ensures r.cur == r.prev + 1 && r.prev == pos
  {
    AdjIter(pos, pos + 1)
  }

  /** `advance` moves both halves; `equal` compares only the second half. */
  function AdjAdvance(it: AdjIter, n: int): AdjIter { AdjIter(it.prev + n, it.cur + n) }
  function AdjEqual(a: AdjIter, b: AdjIter): bool { a.cur == b.cur }

  /** `AdjacentRange` over `n` elements: begin at the first pair; the end
      steps back once unless the range is empty (no pair starts at the last
      element). */
  function AdjacentRange(n: nat): (r: (AdjIter, AdjIter))
    ensures r.0 == AdjIter(0, 1)
    ensures n == 0 ==> AdjEqual(r.0, r.1)
    ensures n >= 1 ==> r.1 == AdjIter(n - 1, n)
  {
    var first := MakeAdjIter(0);
    var last := MakeAdjIter(n);
    (first, if !AdjEqual(first, last) then AdjAdvance(last, -1) else last)
  }

  /** The pairs a range-for loop visits from `it` to `last`. */
  function AdjEnumerate<T>(s: seq<T>, it: AdjIter, last: AdjIter): (r: seq<(T, T)>)
    requires it.cur == it.prev + 1 && 0 <= it.prev && it.cur <= last.cur
    requires AdjEqual(it, last) || last.cur <= |s|
    ensures |r| == last.cur - it.cur
    ensures forall j :: 0 <= j < |r| ==> r[j] == (s[it.prev + j], s[it.cur + j])
    decreases last.cur - it.cur
  {
    if AdjEqual(it, last) then []
    else [(s[it.prev], s[it.cur])] + AdjEnumerate(s, AdjAdvance(it, 1), last)
  }

  /** Over `n >= 1` elements the adjacent range yields the `n - 1` pairs
      `(s[i], s[i+1])` in order; an empty range yields none. */
  function AdjacentPairs<T>(s: seq<T>): (r: seq<(T, T)>)
    ensures |s| == 0 ==> r == []
    ensures |s| >= 1 ==> |r| == |s| - 1
    ensures forall i :: 0 <= i < |r| ==> r[i] == (s[i], s[i + 1])
  {
    AdjEnumerate(s, AdjacentRange(|s|).0, AdjacentRange(|s|).1)
  }

  // ===========================================================================
  // generating_iterator
  // ===========================================================================

  /** A generating iterator: the last generated value and the number of
      generator invocations so far. The generator is the stream `gen`,
      `gen(k)` being what its k-th invocation returns. */
  datatype GenIter<T> = GenIter(val: T, calls: nat)

  /** Construction stores the generator but does not call it, and the value
      member has no initialiser: `init` stands for whatever it holds, which
      for `int` is indeterminate. */
  function MakeGenIter<T>(init: T): (r: GenIter<T>)
    ensures r.val == init && r.calls == 0
  {
    GenIter(init, 0)
  }

  /** `advance(n)` invokes the generator `n` times (none when `n <= 0`),
      keeping the last result. */
  function GenAdvance<T>(gen: nat -> T, it: GenIter<T>, n: int): (r: GenIter<T>)
    ensures n <= 0 ==> r == it
    ensures n > 0 ==> r.calls == it.calls + n && r.val == gen(it.calls + n - 1)
    decreases n
  {
    if n <= 0 then it else GenAdvance(gen, GenIter(gen(it.calls), it.calls + 1), n - 1)
  }

  /** Reads lag the generator by one call: a fresh iterator reads the
      unprimed value, and after `n >= 1` advances it reads the generator's
      result number `n - 1`, not number `n`. */
  lemma GenReadsLagOneCall<T>(gen: nat -> T, init: T, n: nat)
    ensures GenAdvance(gen, MakeGenIter(init), 0).val == init
    ensures n >= 1 ==> GenAdvance(gen, MakeGenIter(init), n).val == gen(n - 1)
  {
  }

  /** `equal` compares the current values. */
  function GenEqual<T(==)>(a: GenIter<T>, b: GenIter<T>): bool { a.val == b.val }

  /** The counter `[n = start]() mutable { return n++; }`. */
  function Counter(start: int): nat -> int
  {
    k => start + k
  }
}
