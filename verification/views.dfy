/**
 * Lazily evaluated views: a pair of iterators with combinators that build
 * new views and collectors that walk them. A view over a container is
 * modelled by the positions of its two iterators into the container.
 */
module Views {
  import opened Maybe
  import opened Iterators

  // ===========================================================================
  // SentinelIterator / nulliter
  // ===========================================================================

  /** A sentinel iterator; `valueType` stands for its value-type parameter. */
  datatype Sentinel = Sentinel(valueType: nat)

  /** `nulliter<V>`: the sentinel of value type `V`. */
  function NullIter(valueType: nat): Sentinel { Sentinel(valueType) }

  /** `advance` does nothing. */
  function SentinelAdvance(s: Sentinel): (r: Sentinel)
    ensures r == s
  {
    s
  }

  /** `equal`: any two sentinels of one type are equal. */
  function SentinelEqual(a: Sentinel, b: Sentinel): (r: bool)
    requires a.valueType == b.valueType
    ensures r
  {
    true
  }

  /** The value category and constness of an argument. A forwarding
      reference parameter `O&&` deduces `O` as the plain type only for a
      non-const rvalue; an lvalue gives a reference type and a const rvalue a
      const type. */
  datatype Category = Rvalue | ConstRvalue | Lvalue | ConstLvalue

  /** What a sentinel can be compared against: a sentinel of some value type
      passed as an argument of some category, or an iterator of another type. */
  datatype Operand = SentinelOperand(valueType: nat, category: Category) | OtherIterator

  /** `nulliter<V>` is a const variable: passing it gives a const lvalue. */
  function NullIterOperand(valueType: nat): (o: Operand)
    ensures o.SentinelOperand? && o.valueType == NullIter(valueType).valueType
    ensures o.category == ConstLvalue
  {
    SentinelOperand(valueType, ConstLvalue)
  }

  /** Whether the deduced `O` is exactly `SentinelIterator<V>`. */
  predicate DeducesPlainSentinel(s: Sentinel, o: Operand)
  {
    o.SentinelOperand? && o.valueType == s.valueType && o.category == Rvalue
  }

  /** `==` as written: `std::is_same_v<O, SentinelIterator<V>>` on the
      deduced forwarding type, so it holds only for a non-const rvalue
      sentinel of the same value type. */
  function SentinelEquals(s: Sentinel, o: Operand): (r: bool)
    ensures r <==> DeducesPlainSentinel(s, o)
    ensures o.SentinelOperand? && o.category != Rvalue ==> !r
  {
    match o
    case SentinelOperand(v, c) => v == s.valueType && c == Rvalue
    case OtherIterator => false
  }

  /** `!=` as written: the negation of the same test. */
  function SentinelNotEquals(s: Sentinel, o: Operand): (r: bool)
    ensures r <==> !DeducesPlainSentinel(s, o)
    ensures r <==> !SentinelEquals(s, o)
  {
    match o
    case SentinelOperand(v, c) => !(v == s.valueType && c == Rvalue)
    case OtherIterator => true
  }

  /** As written, a sentinel never equals `nulliter` of its own value type,
      nor any named sentinel; only a temporary compares equal. */
  lemma SentinelNeverEqualsNullIter(s: Sentinel)
    ensures !SentinelEquals(s, NullIterOperand(s.valueType))
    ensures SentinelNotEquals(s, NullIterOperand(s.valueType))
    ensures !SentinelEquals(s, SentinelOperand(s.valueType, Lvalue))
    ensures SentinelEquals(s, SentinelOperand(s.valueType, Rvalue))
  {
  }

  /** The evidently intended test compares the decayed type: any sentinel of
      the same value type, however it is passed. */
  function SentinelEqualsDecayed(s: Sentinel, o: Operand): (r: bool)
    ensures r <==> o.SentinelOperand? && o.valueType == s.valueType
  {
    match o
    case SentinelOperand(v, _) => v == s.valueType
    case OtherIterator => false
  }

  /** The decayed test agrees with the facade's `equal`, which holds for any
      two sentinels of one type, so `nulliter<V>` equals a sentinel of value
      type `V`; it differs from the as-written test exactly on same-type
      sentinels that are not non-const rvalues. */
  lemma SentinelEqualsDecayedAgreesWithEqual(s: Sentinel, o: Operand)
    ensures SentinelEqualsDecayed(s, NullIterOperand(s.valueType))
    ensures o.SentinelOperand? && o.valueType == s.valueType ==>
              SentinelEqualsDecayed(s, o) == SentinelEqual(s, Sentinel(o.valueType))
    ensures SentinelEqualsDecayed(s, o) != SentinelEquals(s, o)
        <==> o.SentinelOperand? && o.valueType == s.valueType && o.category != Rvalue
  {
  }

  /** The outcome of an operation guarded by a debug assertion. */
  datatype Checked<T> = Value(value: T) | AssertionFailure(message: string)

  /** Dereferencing a sentinel is a programming error. */
  function SentinelDeref<T>(s: Sentinel): (r: Checked<T>)
    ensures r.AssertionFailure?
  {
    AssertionFailure("dereferencing sentinel iterator")
  }

  // ===========================================================================
  // View
  // ===========================================================================

  datatype View = View(first: int, last: int)

  predicate ValidView<T>(s: seq<T>, v: View)
  {
    0 <= v.first <= v.last <= |s|
  }

  /** What iterating the view visits. */
  function Elements<T>(s: seq<T>, v: View): (r: seq<T>)
    requires ValidView(s, v)
    ensures |r| == v.last - v.first
  {
    s[v.first .. v.last]
  }

  /** A view of a container spans it from `begin` to `end`. */
  function FromContainer<T>(s: seq<T>): (v: View)
    ensures ValidView(s, v) && Elements(s, v) == s
  {
    View(0, |s|)
  }

  /** A view of two iterators stores them unchanged. */
  function FromIterators(first: int, last: int): (v: View)
    ensures v.first == first && v.last == last
  {
    View(first, last)
  }

  /** `empty()`: the two iterators are equal. */
  function Empty<T>(s: seq<T>, v: View): (r: bool)
    requires ValidView(s, v)
    ensures r <==> |Elements(s, v)| == 0
  {
    v.first == v.last
  }

  /** Left fold: `op(...op(op(init, xs[0]), xs[1])..., xs[n-1])`. */
  function FoldLeft<A, T>(op: (A, T) -> A, init: A, xs: seq<T>): A
    decreases |xs|
  {
    if |xs| == 0 then init else FoldLeft(op, op(init, xs[0]), xs[1..])
  }

  lemma {:induction false} FoldLeftSnoc<A, T>(op: (A, T) -> A, init: A, xs: seq<T>, x: T)
    ensures FoldLeft(op, init, xs + [x]) == op(FoldLeft(op, init, xs), x)
    decreases |xs|
  {
    if |xs| > 0 {
      assert (xs + [x])[1..] == xs[1..] + [x];
      FoldLeftSnoc(op, op(init, xs[0]), xs[1..], x);
    }
  }

  /** `accumulate(init, op)`: a left fold over the view's elements. */
  method Accumulate<A, T>(s: seq<T>, v: View, init: A, op: (A, T) -> A) returns (res: A)
    requires ValidView(s, v)
    ensures res == FoldLeft(op, init, Elements(s, v))
  {
    res := init;
    var i := v.first;
    while i != v.last
      invariant v.first <= i <= v.last
      invariant res == FoldLeft(op, init, s[v.first .. i])
    {
      assert s[v.first .. i + 1] == s[v.first .. i] + [s[i]];
      FoldLeftSnoc(op, init, s[v.first .. i], s[i]);
      res := op(res, s[i]);
      i := i + 1;
    }
  }

  /** `for_one(p)`: some element satisfies `p` (false on an empty view). */
  method ForOne<T>(s: seq<T>, v: View, p: T -> bool) returns (r: bool)
    requires ValidView(s, v)
    ensures r <==> exists i :: v.first <= i < v.last && p(s[i])
  {
    var i := v.first;
    while i != v.last
      invariant v.first <= i <= v.last
      invariant forall j :: v.first <= j < i ==> !p(s[j])
    {
      if p(s[i]) {
        return true;
      }
      i := i + 1;
    }
    return false;
  }

  /** `for_all(p)`: every element satisfies `p` (true on an empty view). */
  method ForAll<T>(s: seq<T>, v: View, p: T -> bool) returns (r: bool)
    requires ValidView(s, v)
    ensures r <==> forall i :: v.first <= i < v.last ==> p(s[i])
  {
    var i := v.first;
    while i != v.last
      invariant v.first <= i <= v.last
      invariant forall j :: v.first <= j < i ==> p(s[j])
    {
      if !p(s[i]) {
        return false;
      }
      i := i + 1;
    }
    return true;
  }

  /** `for_none(p)`: the negation of `for_one(p)`. */
  method ForNone<T>(s: seq<T>, v: View, p: T -> bool) returns (r: bool)
    requires ValidView(s, v)
    ensures r <==> forall i :: v.first <= i < v.last ==> !p(s[i])
  {
    var one := ForOne(s, v, p);
    r := !one;
  }

  /** `find_if(p)`: the first element satisfying `p`, or nothing. */
  method FindIf<T>(s: seq<T>, v: View, p: T -> bool) returns (r: Option<T>)
    requires ValidView(s, v)
    ensures r.None? <==> forall i :: v.first <= i < v.last ==> !p(s[i])
    ensures r.Some? ==> exists k :: v.first <= k < v.last && p(s[k]) && r.value == s[k]
                                    && forall j :: v.first <= j < k ==> !p(s[j])
  {
    var i := v.first;
    while i != v.last
      invariant v.first <= i <= v.last
      invariant forall j :: v.first <= j < i ==> !p(s[j])
    {
      if p(s[i]) {
        return Some(s[i]);
      }
      i := i + 1;
    }
    return None;
  }

  /** `collect()` into a vector: the elements in iteration order. */
  method Collect<T>(s: seq<T>, v: View) returns (r: seq<T>)
    requires ValidView(s, v)
    ensures |r| == v.last - v.first
    ensures forall k :: 0 <= k < |r| ==> r[k] == s[v.first + k]
  {
    r := [];
    var i := v.first;
    while i != v.last
      invariant v.first <= i <= v.last
      invariant r == s[v.first .. i]
    {
      r := r + [s[i]];
      i := i + 1;
    }
  }

  /** `collect<std::array<T, N>>()`: the range must hold exactly N elements
      (both are debug assertions); they are stored in order. `blank` is the
      value the array starts with. */
  method CollectArray<T>(s: seq<T>, v: View, n: nat, blank: T) returns (res: seq<T>)
    requires ValidView(s, v)
    requires v.last - v.first == n
    ensures |res| == n
    ensures forall k :: 0 <= k < n ==> res[k] == s[v.first + k]
  {
    res := seq(n, _ => blank);
    var i := 0;
    var b := v.first;
    while i < n && b != v.last
      invariant 0 <= i <= n && b == v.first + i
      invariant |res| == n
      invariant forall k :: 0 <= k < i ==> res[k] == s[v.first + k]
    {
      res := res[i := s[b]];
      b := b + 1;
      i := i + 1;
    }
  }

  // ---------------------------------------------------------------------------
  // Combinators
  // ---------------------------------------------------------------------------

  /** What a range-for loop over a transform view visits: `f` of each wrapped
      element, stepping with `++`. */
  function TransformEnumerate<T, U>(s: seq<T>, f: T -> U, it: Iter, last: Iter): (r: seq<U>)
    requires it.kind.Transforming? && 0 <= it.pos <= last.pos <= |s|
    ensures |r| == last.pos - it.pos
    ensures forall k :: 0 <= k < |r| ==> r[k] == f(s[it.pos + k])
    decreases last.pos - it.pos
  {
    if Equal(it, last) then [] else [f(s[it.pos])] + TransformEnumerate(s, f, Increment(it), last)
  }

  /** `transform(f)`: the view of `f` applied to every element. Iteration uses
      only `++`, which both the as-written and the corrected `advance` treat
      alike. */
  function TransformView<T, U>(s: seq<T>, v: View, f: T -> U): (r: seq<U>)
    requires ValidView(s, v)
    ensures |r| == |Elements(s, v)|
    ensures forall k :: 0 <= k < |r| ==> r[k] == f(Elements(s, v)[k])
  {
    TransformEnumerate(s, f, Iter(Transforming, v.first), Iter(Transforming, v.last))
  }

  /** `filter(p)`: the view of the elements satisfying `p`, in order. */
  function FilterViewElements<T>(s: seq<T>, v: View, p: T -> bool): (r: seq<T>)
    requires ValidView(s, v)
    ensures r == Filter(Elements(s, v), p)
  {
    FilterViewEnumeratesMatches(s, p, v.first, v.last);
    FilterEnumerate(s, p, FilterView(s, p, v.first, v.last).0)
  }

  /** `zip(rng)`: pairs by position, as many as the shorter range holds. */
  function Zip<T, U>(xs: seq<T>, ys: seq<U>): (r: seq<(T, U)>)
    ensures |r| == if |xs| <= |ys| then |xs| else |ys|
    ensures forall i :: 0 <= i < |r| ==> r[i] == (xs[i], ys[i])
  {
    var n := ZipCount([|xs|, |ys|], 0);
    seq(n, i requires 0 <= i < n => (xs[i], ys[i]))
  }

  /** `indexed(start)` as written: the counter view's generating iterator
      hands out its unprimed value `init` before the first generator call, so
      element `i` is paired with the counter after `i` increments. The counter
      component never meets its sentinel end, so the elements set the length. */
  function IndexedAsWritten<T>(xs: seq<T>, start: int, init: int): (r: seq<(int, T)>)
    ensures |r| == |xs|
    ensures forall i :: 0 <= i < |r| ==> r[i].1 == xs[i]
  {
    seq(|xs|, i requires 0 <= i < |xs| => (GenAdvance(Counter(start), MakeGenIter(init), i).val, xs[i]))
  }

  /** As written, element 0 is paired with the unprimed value and element
      `i >= 1` with `start + i - 1`, one behind the documented `start + i`. */
  lemma IndexedAsWrittenIsOffByOne<T>(xs: seq<T>, start: int, init: int)
    requires |xs| >= 2
    ensures IndexedAsWritten(xs, start, init)[0].0 == init
    ensures forall i :: 1 <= i < |xs| ==> IndexedAsWritten(xs, start, init)[i].0 == start + i - 1
    ensures IndexedAsWritten(xs, start, init)[1].0 != start + 1
  {
  }

  /** The corrected generating iterator calls its generator once when it is
      constructed, so its first value is the generator's first result. */
  function MakePrimedGenIter<T>(gen: nat -> T): (r: GenIter<T>)
    ensures r.val == gen(0) && r.calls == 1
  {
    GenAdvance(gen, MakeGenIter(gen(0)), 1)
  }

  /** Primed, the `n`-th read after `n` advances is the generator's result
      number `n`: reads and calls no longer lag. */
  lemma PrimedGenReadsInOrder<T>(gen: nat -> T, n: nat)
    ensures GenAdvance(gen, MakePrimedGenIter(gen), n).val == gen(n)
    ensures GenAdvance(gen, MakePrimedGenIter(gen), n).calls == n + 1
  {
  }

  /** `indexed(start)` corrected: element `i` is paired with `start + i`. */
  function Indexed<T>(xs: seq<T>, start: int): (r: seq<(int, T)>)
    ensures |r| == |xs|
    ensures forall i :: 0 <= i < |r| ==> r[i] == (start + i, xs[i])
  {
    seq(|xs|, i requires 0 <= i < |xs| => (GenAdvance(Counter(start), MakePrimedGenIter(Counter(start)), i).val, xs[i]))
  }
}
