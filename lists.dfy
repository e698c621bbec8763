/** The Kotlin collection operations the screens use: `filter`, `take`,
    `chunked`, `groupBy` (a `LinkedHashMap`: keys in first-occurrence order,
    each group in input order) and the stable `sortedWith` family
    (`sortedBy`, `sortedByDescending`). */
module Lists {

  // ---------------------------------------------------------------------
  // filter, subsequences, take
  // ---------------------------------------------------------------------

  /** `filter(p)`. */
  function Filter<T>(xs: seq<T>, p: T -> bool): (r: seq<T>)
    ensures |r| <= |xs|
    ensures forall i :: 0 <= i < |r| ==> p(r[i])
  {
    if xs == [] then [] else (if p(xs[0]) then [xs[0]] else []) + Filter(xs[1..], p)
  }

  /** `a` is `b` with some elements left out, the rest in the same order. */
  ghost predicate IsSubsequence<T>(a: seq<T>, b: seq<T>)
    decreases |b|
  {
    a == [] || (b != [] && (IsSubsequence(a, b[1..]) || (a[0] == b[0] && IsSubsequence(a[1..], b[1..]))))
  }

  /** `filter` keeps exactly the elements that satisfy the predicate, in
      their original order. */
  lemma {:induction false} FilterSpec<T>(xs: seq<T>, p: T -> bool)
    ensures IsSubsequence(Filter(xs, p), xs)
    ensures forall x :: x in Filter(xs, p) <==> x in xs && p(x)
  {
    if xs != [] {
      FilterSpec(xs[1..], p);
      assert xs == [xs[0]] + xs[1..];
      var r := Filter(xs, p);
      if p(xs[0]) {
        assert r == [xs[0]] + Filter(xs[1..], p);
        assert r[0] == xs[0] && r[1..] == Filter(xs[1..], p);
        assert IsSubsequence(r, xs);
      } else {
        assert r == Filter(xs[1..], p);
        assert IsSubsequence(r, xs);
      }
    }
  }

  lemma {:induction false} SubsequenceMembers<T>(a: seq<T>, b: seq<T>, x: T)
    requires IsSubsequence(a, b) && x in a
    ensures x in b
    decreases |b|
  {
    if IsSubsequence(a, b[1..]) {
      SubsequenceMembers(a, b[1..], x);
    } else if x != a[0] {
      assert x in a[1..];
      SubsequenceMembers(a[1..], b[1..], x);
    }
  }

  /** `filter` with a predicate every element satisfies changes nothing. */
  lemma {:induction false} FilterKeepsAll<T>(xs: seq<T>, p: T -> bool)
    requires forall i :: 0 <= i < |xs| ==> p(xs[i])
    ensures Filter(xs, p) == xs
  {
    if xs != [] {
      FilterKeepsAll(xs[1..], p);
      assert xs == [xs[0]] + xs[1..];
    }
  }

  /** `all(p)`. */
  function All<T>(xs: seq<T>, p: T -> bool): (r: bool)
    ensures r <==> forall i :: 0 <= i < |xs| ==> p(xs[i])
  {
    if xs == [] then true
    else
      assert forall i :: 0 < i < |xs| ==> xs[i] == xs[1..][i - 1];
      p(xs[0]) && All(xs[1..], p)
  }

  /** `any(p)`. */
  function Any<T>(xs: seq<T>, p: T -> bool): (r: bool)
    ensures r <==> exists i :: 0 <= i < |xs| && p(xs[i])
  {
    if xs == [] then false
    else
      assert forall i :: 0 < i < |xs| ==> xs[i] == xs[1..][i - 1];
      p(xs[0]) || Any(xs[1..], p)
  }

  /** `count(p)`: the number of elements that satisfy `p`. */
  function Count<T>(xs: seq<T>, p: T -> bool): (r: nat)
    ensures r <= |xs|
  {
    if xs == [] then 0 else (if p(xs[0]) then 1 else 0) + Count(xs[1..], p)
  }

  /** One more element adds one to the count exactly when it satisfies `p`. */
  lemma {:induction false} CountSnoc<T>(xs: seq<T>, x: T, p: T -> bool)
    ensures Count(xs + [x], p) == Count(xs, p) + (if p(x) then 1 else 0)
  {
    if xs != [] {
      assert (xs + [x])[1..] == xs[1..] + [x];
      CountSnoc(xs[1..], x, p);
    }
  }

  /** `count(p)` is the size of `filter(p)`. */
  lemma {:induction false} CountIsFilterSize<T>(xs: seq<T>, p: T -> bool)
    ensures Count(xs, p) == |Filter(xs, p)|
  {
    if xs != [] {
      CountIsFilterSize(xs[1..], p);
    }
  }

  /** A count under a stronger predicate is no larger. */
  lemma {:induction false} CountMonotone<T>(xs: seq<T>, p: T -> bool, q: T -> bool)
    requires forall i :: 0 <= i < |xs| ==> p(xs[i]) ==> q(xs[i])
    ensures Count(xs, p) <= Count(xs, q)
  {
    if xs != [] {
      assert forall i :: 0 <= i < |xs[1..]| ==> xs[1..][i] == xs[i + 1];
      CountMonotone(xs[1..], p, q);
    }
  }

  /** `map(f)`. */
  function Map<T, U>(xs: seq<T>, f: T -> U): (r: seq<U>)
    ensures |r| == |xs| && forall i :: 0 <= i < |xs| ==> r[i] == f(xs[i])
  {
    seq(|xs|, i requires 0 <= i < |xs| => f(xs[i]))
  }

  /** `take(n)`. */
  function Take<T>(xs: seq<T>, n: nat): (r: seq<T>)
    ensures |r| == if n <= |xs| then n else |xs|
    ensures r == xs[..|r|]
  {
    if n <= |xs| then xs[..n] else xs
  }

  // ---------------------------------------------------------------------
  // chunked
  // ---------------------------------------------------------------------

  function Flatten<T>(xss: seq<seq<T>>): seq<T> {
    if xss == [] then [] else xss[0] + Flatten(xss[1..])
  }

  /** `chunked(size)`: consecutive pieces of `size` elements, the last one
      possibly shorter. */
  function Chunked<T>(xs: seq<T>, size: nat): seq<seq<T>>
    requires size > 0
    decreases |xs|
  {
    if xs == [] then []
    else if |xs| <= size then [xs]
    else [xs[..size]] + Chunked(xs[size..], size)
  }

  /** The chunks put back together are the input ... */
  lemma {:induction false} ChunkedFlatten<T>(xs: seq<T>, size: nat)
    requires size > 0
    ensures Flatten(Chunked(xs, size)) == xs
    decreases |xs|
  {
    if |xs| > size {
      ChunkedFlatten(xs[size..], size);
      assert xs == xs[..size] + xs[size..];
    } else if xs != [] {
      assert Flatten([xs]) == xs + [];
    }
  }

  /** ... every chunk holds between one and `size` elements, every chunk but
      the last exactly `size` ... */
  lemma {:induction false} ChunkedSizes<T>(xs: seq<T>, size: nat)
    requires size > 0
    ensures var c := Chunked(xs, size);
      && (forall i :: 0 <= i < |c| ==> 1 <= |c[i]| <= size)
      && (forall i :: 0 <= i < |c| - 1 ==> |c[i]| == size)
    decreases |xs|
  {
    if |xs| > size {
      ChunkedSizes(xs[size..], size);
      var c := Chunked(xs, size);
      assert forall i :: 1 <= i < |c| ==> c[i] == Chunked(xs[size..], size)[i - 1];
    }
  }

  /** ... and there are just enough chunks to hold the input. */
  lemma {:induction false} ChunkedCount<T>(xs: seq<T>, size: nat)
    requires size > 0
    ensures var c := Chunked(xs, size);
      && (xs == [] <==> c == [])
      && (xs != [] ==> (|c| - 1) * size < |xs| <= |c| * size)
    decreases |xs|
  {
    if |xs| > size {
      ChunkedCount(xs[size..], size);
      var rest := Chunked(xs[size..], size);
      assert |Chunked(xs, size)| == |rest| + 1;
      assert (|rest| - 1) * size < |xs| - size <= |rest| * size;
      assert (|rest| + 1 - 1) * size == (|rest| - 1) * size + size;
    }
  }

  // ---------------------------------------------------------------------
  // groupBy
  // ---------------------------------------------------------------------

  datatype Group<K, T> = Group(key: K, items: seq<T>)

  function Keys<K, T>(gs: seq<Group<K, T>>): (ks: seq<K>)
    ensures |ks| == |gs| && forall i :: 0 <= i < |gs| ==> ks[i] == gs[i].key
  {
    seq(|gs|, i requires 0 <= i < |gs| => gs[i].key)
  }

  /** Puts `x` at the end of the group of `k`, opening that group at the end
      when `k` is new: `LinkedHashMap.getOrPut(k) { ArrayList() }.add(x)`. */
  function AddToGroup<K(==), T>(gs: seq<Group<K, T>>, k: K, x: T): seq<Group<K, T>> {
    if gs == [] then [Group(k, [x])]
    else if gs[0].key == k then [Group(k, gs[0].items + [x])] + gs[1..]
    else [gs[0]] + AddToGroup(gs[1..], k, x)
  }

  /** `groupBy(key)`, as the element-by-element loop over the input. */
  function GroupBy<K(==), T>(xs: seq<T>, key: T -> K): seq<Group<K, T>> {
    if xs == [] then []
    else AddToGroup(GroupBy(xs[..|xs| - 1], key), key(xs[|xs| - 1]), xs[|xs| - 1])
  }

  /** The elements whose key is `k`, in input order (the reference
      definition of one group). */
  function WithKey<K(==), T>(xs: seq<T>, key: T -> K, k: K): seq<T> {
    if xs == [] then []
    else WithKey(xs[..|xs| - 1], key, k) + (if key(xs[|xs| - 1]) == k then [xs[|xs| - 1]] else [])
  }

  /** The index of the first element whose key is `k`, or `|xs|`. */
  function FirstIndex<K(==), T>(xs: seq<T>, key: T -> K, k: K): (r: nat)
    ensures r <= |xs|
    ensures forall i :: 0 <= i < r ==> key(xs[i]) != k
    ensures r < |xs| ==> key(xs[r]) == k
  {
    if xs == [] then 0 else if key(xs[0]) == k then 0 else 1 + FirstIndex(xs[1..], key, k)
  }

  /** Every element of a group has the group's key. */
  lemma {:induction false} WithKeyKeys<K, T>(xs: seq<T>, key: T -> K, k: K)
    ensures forall i :: 0 <= i < |WithKey(xs, key, k)| ==> key(WithKey(xs, key, k)[i]) == k
  {
    if xs != [] {
      WithKeyKeys(xs[..|xs| - 1], key, k);
    }
  }

  /** A group starts with the first element that has its key. */
  lemma {:induction false} WithKeyFirst<K, T>(xs: seq<T>, key: T -> K, k: K)
    requires WithKey(xs, key, k) != []
    ensures FirstIndex(xs, key, k) < |xs| && WithKey(xs, key, k)[0] == xs[FirstIndex(xs, key, k)]
  {
    WithKeyPresent(xs, key, k);
    var p := xs[..|xs| - 1];
    if WithKey(p, key, k) != [] {
      WithKeyFirst(p, key, k);
      FirstIndexExtend(p, xs[|xs| - 1], key, k);
      assert xs == p + [xs[|xs| - 1]];
    } else {
      WithKeyAbsentAll(p, key, k);
      FirstIndexExtend(p, xs[|xs| - 1], key, k);
      assert xs == p + [xs[|xs| - 1]];
    }
  }

  /** No element has the key of an empty group. */
  lemma {:induction false} WithKeyAbsentAll<K, T>(xs: seq<T>, key: T -> K, k: K)
    requires WithKey(xs, key, k) == []
    ensures FirstIndex(xs, key, k) == |xs|
  {
    if FirstIndex(xs, key, k) < |xs| {
      var f := FirstIndex(xs, key, k);
      WithKeyContains(xs, key, f);
    }
  }

  /** Each element is in the group of its key. */
  lemma {:induction false} WithKeyContains<K, T>(xs: seq<T>, key: T -> K, n: nat)
    requires n < |xs|
    ensures xs[n] in WithKey(xs, key, key(xs[n]))
  {
    var p := xs[..|xs| - 1];
    if n < |xs| - 1 {
      assert p[n] == xs[n];
      WithKeyContains(p, key, n);
    }
  }

  /** What `groupBy(key)` promises: one group per distinct key, in the
      order the keys first occur; each group holds exactly the elements with
      its key, in input order, and is never empty. */
  ghost predicate IsGrouping<K, T>(gs: seq<Group<K, T>>, xs: seq<T>, key: T -> K) {
    && (forall i :: 0 <= i < |gs| ==> gs[i].items == WithKey(xs, key, gs[i].key) && gs[i].items != [])
    && (forall i, j :: 0 <= i < j < |gs| ==> gs[i].key != gs[j].key)
    && (forall n :: 0 <= n < |xs| ==> key(xs[n]) in Keys(gs))
    && (forall i, j :: 0 <= i < j < |gs| ==> FirstIndex(xs, key, gs[i].key) < FirstIndex(xs, key, gs[j].key))
  }

  lemma {:induction false} WithKeyAbsent<K, T>(xs: seq<T>, key: T -> K, k: K)
    requires forall n :: 0 <= n < |xs| ==> key(xs[n]) != k
    ensures WithKey(xs, key, k) == []
  {
    if xs != [] {
      WithKeyAbsent(xs[..|xs| - 1], key, k);
    }
  }

  lemma WithKeyPresent<K, T>(xs: seq<T>, key: T -> K, k: K)
    requires WithKey(xs, key, k) != []
    ensures FirstIndex(xs, key, k) < |xs|
  {
    if FirstIndex(xs, key, k) == |xs| {
      WithKeyAbsent(xs, key, k);
    }
  }

  lemma WithKeySnoc<K, T>(xs: seq<T>, x: T, key: T -> K, k: K)
    ensures WithKey(xs + [x], key, k) == WithKey(xs, key, k) + (if key(x) == k then [x] else [])
  {
    assert (xs + [x])[..|xs|] == xs;
  }

  lemma FirstIndexExtend<K, T>(xs: seq<T>, x: T, key: T -> K, k: K)
    ensures FirstIndex(xs, key, k) < |xs| ==> FirstIndex(xs + [x], key, k) == FirstIndex(xs, key, k)
    ensures FirstIndex(xs, key, k) == |xs| && key(x) == k ==> FirstIndex(xs + [x], key, k) == |xs|
  {
    var ys := xs + [x];
    var f := FirstIndex(xs, key, k);
    if f < |xs| {
      assert ys[f] == xs[f];
    } else if key(x) == k {
      assert ys[|xs|] == x;
    }
  }

  lemma {:induction false} AddToGroupExisting<K, T>(gs: seq<Group<K, T>>, k: K, x: T, m: nat)
    requires m < |gs| && gs[m].key == k
    requires forall i, j :: 0 <= i < j < |gs| ==> gs[i].key != gs[j].key
    ensures AddToGroup(gs, k, x) == gs[m := Group(k, gs[m].items + [x])]
  {
    if m > 0 {
      AddToGroupExisting(gs[1..], k, x, m - 1);
    }
  }

  lemma {:induction false} AddToGroupNew<K, T>(gs: seq<Group<K, T>>, k: K, x: T)
    requires k !in Keys(gs)
    ensures AddToGroup(gs, k, x) == gs + [Group(k, [x])]
  {
    if gs != [] {
      assert Keys(gs)[0] == gs[0].key;
      assert forall i :: 0 <= i < |gs| - 1 ==> Keys(gs[1..])[i] == Keys(gs)[i + 1];
      AddToGroupNew(gs[1..], k, x);
    }
  }

  /** Appending an element whose key already has a group. */
  lemma AddExistingKeepsGrouping<K, T>(gs: seq<Group<K, T>>, p: seq<T>, x: T, key: T -> K, m: nat)
    requires IsGrouping(gs, p, key) && m < |gs| && gs[m].key == key(x)
    ensures IsGrouping(AddToGroup(gs, key(x), x), p + [x], key)
  {
    AddToGroupExisting(gs, key(x), x, m);
    AddExistingItems(gs, p, x, key, m);
    AddExistingOrder(gs, p, x, key, m);
    AddExistingCoverage(gs, p, x, key, m);
  }

  lemma AddExistingItems<K, T>(gs: seq<Group<K, T>>, p: seq<T>, x: T, key: T -> K, m: nat)
    requires IsGrouping(gs, p, key) && m < |gs| && gs[m].key == key(x)
    ensures var r := gs[m := Group(key(x), gs[m].items + [x])];
      forall i :: 0 <= i < |r| ==> r[i].items == WithKey(p + [x], key, r[i].key) && r[i].items != []
  {
    var r := gs[m := Group(key(x), gs[m].items + [x])];
    forall i | 0 <= i < |r| ensures r[i].items == WithKey(p + [x], key, r[i].key) {
      WithKeySnoc(p, x, key, gs[i].key);
    }
  }

  lemma AddExistingOrder<K, T>(gs: seq<Group<K, T>>, p: seq<T>, x: T, key: T -> K, m: nat)
    requires IsGrouping(gs, p, key) && m < |gs| && gs[m].key == key(x)
    ensures var r := gs[m := Group(key(x), gs[m].items + [x])];
      && (forall i, j :: 0 <= i < j < |r| ==> r[i].key != r[j].key)
      && (forall i, j :: 0 <= i < j < |r| ==> FirstIndex(p + [x], key, r[i].key) < FirstIndex(p + [x], key, r[j].key))
  {
    forall i | 0 <= i < |gs| ensures FirstIndex(p + [x], key, gs[i].key) == FirstIndex(p, key, gs[i].key) {
      WithKeyPresent(p, key, gs[i].key);
      FirstIndexExtend(p, x, key, gs[i].key);
    }
  }

  lemma AddExistingCoverage<K, T>(gs: seq<Group<K, T>>, p: seq<T>, x: T, key: T -> K, m: nat)
    requires IsGrouping(gs, p, key) && m < |gs| && gs[m].key == key(x)
    ensures var r := gs[m := Group(key(x), gs[m].items + [x])];
      forall n :: 0 <= n < |p + [x]| ==> key((p + [x])[n]) in Keys(r)
  {
    var xs := p + [x];
    var r := gs[m := Group(key(x), gs[m].items + [x])];
    assert Keys(r) == Keys(gs);
    forall n | 0 <= n < |xs| ensures key(xs[n]) in Keys(r) {
      if n < |p| {
        assert xs[n] == p[n];
      } else {
        assert Keys(r)[m] == key(x);
      }
    }
  }

  /** Appending an element with a key not seen before. */
  lemma NewKeyAbsent<K, T>(gs: seq<Group<K, T>>, p: seq<T>, x: T, key: T -> K)
    requires IsGrouping(gs, p, key) && key(x) !in Keys(gs)
    ensures forall i :: 0 <= i < |gs| ==> gs[i].key != key(x)
    ensures WithKey(p, key, key(x)) == []
    ensures FirstIndex(p + [x], key, key(x)) == |p|
  {
    var ks := Keys(gs);
    forall i | 0 <= i < |gs| ensures gs[i].key != key(x) {
      assert ks[i] == gs[i].key;
    }
    forall n | 0 <= n < |p| ensures key(p[n]) != key(x) {
      assert key(p[n]) in ks;
    }
    WithKeyAbsent(p, key, key(x));
    FirstIndexExtend(p, x, key, key(x));
    assert (p + [x])[|p|] == x;
  }

  lemma NewKeyItems<K, T>(gs: seq<Group<K, T>>, p: seq<T>, x: T, key: T -> K)
    requires IsGrouping(gs, p, key) && key(x) !in Keys(gs)
    ensures var r := gs + [Group(key(x), [x])];
      forall i :: 0 <= i < |r| ==> r[i].items == WithKey(p + [x], key, r[i].key) && r[i].items != []
  {
    var r := gs + [Group(key(x), [x])];
    NewKeyAbsent(gs, p, x, key);
    forall i | 0 <= i < |r| ensures r[i].items == WithKey(p + [x], key, r[i].key) && r[i].items != [] {
      WithKeySnoc(p, x, key, r[i].key);
    }
  }

  lemma NewKeyOrder<K, T>(gs: seq<Group<K, T>>, p: seq<T>, x: T, key: T -> K)
    requires IsGrouping(gs, p, key) && key(x) !in Keys(gs)
    ensures var r := gs + [Group(key(x), [x])];
      && (forall i, j :: 0 <= i < j < |r| ==> r[i].key != r[j].key)
      && (forall i, j :: 0 <= i < j < |r| ==> FirstIndex(p + [x], key, r[i].key) < FirstIndex(p + [x], key, r[j].key))
  {
    var r, xs := gs + [Group(key(x), [x])], p + [x];
    NewKeyAbsent(gs, p, x, key);
    forall i | 0 <= i < |gs| ensures FirstIndex(xs, key, gs[i].key) == FirstIndex(p, key, gs[i].key) < |p| {
      WithKeyPresent(p, key, gs[i].key);
      FirstIndexExtend(p, x, key, gs[i].key);
    }
    forall i, j | 0 <= i < j < |r|
      ensures r[i].key != r[j].key && FirstIndex(xs, key, r[i].key) < FirstIndex(xs, key, r[j].key)
    {
      assert r[i] == gs[i];
      if j < |gs| {
        assert r[j] == gs[j];
      }
    }
  }

  lemma NewKeyCoverage<K, T>(gs: seq<Group<K, T>>, p: seq<T>, x: T, key: T -> K)
    requires IsGrouping(gs, p, key)
    ensures forall n :: 0 <= n < |p + [x]| ==> key((p + [x])[n]) in Keys(gs + [Group(key(x), [x])])
  {
    var r, xs, ks := gs + [Group(key(x), [x])], p + [x], Keys(gs);
    forall n | 0 <= n < |xs| ensures key(xs[n]) in Keys(r) {
      if n < |p| {
        assert xs[n] == p[n];
        var i :| 0 <= i < |gs| && ks[i] == key(p[n]);
        assert Keys(r)[i] == key(p[n]);
      } else {
        assert Keys(r)[|gs|] == key(x);
      }
    }
  }

  /** Appending an element with a key not seen before. */
  lemma AddNewKeepsGrouping<K, T>(gs: seq<Group<K, T>>, p: seq<T>, x: T, key: T -> K)
    requires IsGrouping(gs, p, key) && key(x) !in Keys(gs)
    ensures IsGrouping(AddToGroup(gs, key(x), x), p + [x], key)
  {
    AddToGroupNew(gs, key(x), x);
    NewKeyItems(gs, p, x, key);
    NewKeyOrder(gs, p, x, key);
    NewKeyCoverage(gs, p, x, key);
  }

  /** `groupBy` meets its promise on every input. */
  lemma {:induction false} GroupByIsGrouping<K, T>(xs: seq<T>, key: T -> K)
    ensures IsGrouping(GroupBy(xs, key), xs, key)
  {
    if xs != [] {
      var p, x := xs[..|xs| - 1], xs[|xs| - 1];
      assert xs == p + [x];
      var gs := GroupBy(p, key);
      GroupByIsGrouping(p, key);
      if key(x) in Keys(gs) {
        var m :| 0 <= m < |gs| && Keys(gs)[m] == key(x);
        AddExistingKeepsGrouping(gs, p, x, key, m);
      } else {
        AddNewKeepsGrouping(gs, p, x, key);
      }
    }
  }

  // ---------------------------------------------------------------------
  // Stable sorting
  // ---------------------------------------------------------------------

  /** `le` is a total preorder: the comparator of `sortedBy` or
      `sortedByDescending` on a key. */
  ghost predicate TotalPreorder<T(!new)>(le: (T, T) -> bool) {
    Total(le) && Transitive(le)
  }

  ghost predicate Total<T(!new)>(le: (T, T) -> bool) {
    forall a, b :: le(a, b) || le(b, a)
  }

  ghost predicate Transitive<T(!new)>(le: (T, T) -> bool) {
    forall a, b, c :: le(a, b) && le(b, c) ==> le(a, c)
  }

  ghost predicate SortedBy<T>(s: seq<T>, le: (T, T) -> bool) {
    forall i, j :: 0 <= i < j < |s| ==> le(s[i], s[j])
  }

  /** The elements of `s` that compare equal to `k`, in their order. */
  function Ties<T>(s: seq<T>, le: (T, T) -> bool, k: T): seq<T> {
    if s == [] then [] else (if le(s[0], k) && le(k, s[0]) then [s[0]] else []) + Ties(s[1..], le, k)
  }

  /** Puts `x` before the first element it does not come after. */
  function Insert<T>(x: T, s: seq<T>, le: (T, T) -> bool): seq<T> {
    if s == [] then [x]
    else if le(x, s[0]) then [x] + s
    else [s[0]] + Insert(x, s[1..], le)
  }

  /** A stable sort: `sortedWith(comparator)`. */
  function SortWith<T>(xs: seq<T>, le: (T, T) -> bool): seq<T> {
    if xs == [] then [] else Insert(xs[0], SortWith(xs[1..], le), le)
  }

  lemma {:induction false} InsertPermutes<T>(x: T, s: seq<T>, le: (T, T) -> bool)
    ensures multiset(Insert(x, s, le)) == multiset(s) + multiset{x}
  {
    if s != [] && !le(x, s[0]) {
      InsertPermutes(x, s[1..], le);
      assert s == [s[0]] + s[1..];
      assert multiset(s) == multiset{s[0]} + multiset(s[1..]);
      assert Insert(x, s, le) == [s[0]] + Insert(x, s[1..], le);
    } else {
      assert Insert(x, s, le) == [x] + s;
    }
  }

  /** A lower bound of `x` and of all of `s` bounds the insertion too. */
  lemma {:induction false} InsertBound<T>(x: T, s: seq<T>, le: (T, T) -> bool, b: T)
    requires le(b, x) && forall i :: 0 <= i < |s| ==> le(b, s[i])
    ensures forall i :: 0 <= i < |Insert(x, s, le)| ==> le(b, Insert(x, s, le)[i])
  {
    if s != [] && !le(x, s[0]) {
      InsertBound(x, s[1..], le, b);
    }
  }

  lemma TransitiveAt<T(!new)>(le: (T, T) -> bool, a: T, b: T, c: T)
    requires Transitive(le) && le(a, b) && le(b, c)
    ensures le(a, c)
  {
  }

  lemma SortedCons<T>(a: T, t: seq<T>, le: (T, T) -> bool)
    requires SortedBy(t, le) && forall i :: 0 <= i < |t| ==> le(a, t[i])
    ensures SortedBy([a] + t, le)
  {
    var r := [a] + t;
    forall i, j | 0 <= i < j < |r| ensures le(r[i], r[j]) {
      if i > 0 {
        assert r[i] == t[i - 1] && r[j] == t[j - 1];
      }
    }
  }

  lemma {:induction false} InsertSorted<T(!new)>(x: T, s: seq<T>, le: (T, T) -> bool)
    requires Total(le) && Transitive(le) && SortedBy(s, le)
    ensures SortedBy(Insert(x, s, le), le)
  {
    if s == [] {
    } else if le(x, s[0]) {
      forall i | 0 <= i < |s| ensures le(x, s[i]) {
        TransitiveAt(le, x, s[0], s[i]);
      }
      SortedCons(x, s, le);
    } else {
      var tail := s[1..];
      assert SortedBy(tail, le) by {
        forall i, j | 0 <= i < j < |tail| ensures le(tail[i], tail[j]) {
          assert tail[i] == s[i + 1] && tail[j] == s[j + 1];
        }
      }
      InsertSorted(x, tail, le);
      assert le(s[0], x);
      assert forall i :: 0 <= i < |tail| ==> tail[i] == s[i + 1];
      InsertBound(x, tail, le, s[0]);
      SortedCons(s[0], Insert(x, tail, le), le);
    }
  }

  lemma {:induction false} InsertTies<T(!new)>(x: T, s: seq<T>, le: (T, T) -> bool, k: T)
    requires Transitive(le)
    ensures Ties(Insert(x, s, le), le, k) == (if le(x, k) && le(k, x) then [x] else []) + Ties(s, le, k)
  {
    var r := Insert(x, s, le);
    if s != [] && !le(x, s[0]) {
      InsertTies(x, s[1..], le, k);
      assert r[1..] == Insert(x, s[1..], le);
    } else if s != [] {
      assert r[1..] == s;
    }
  }

  /** `sortedWith` sorts, permutes, and is stable: elements that compare
      equal keep their input order. These three facts determine its result. */
  lemma {:induction false} SortWithSpec<T(!new)>(xs: seq<T>, le: (T, T) -> bool)
    requires TotalPreorder(le)
    ensures SortedBy(SortWith(xs, le), le)
    ensures multiset(SortWith(xs, le)) == multiset(xs)
    ensures forall k :: Ties(SortWith(xs, le), le, k) == Ties(xs, le, k)
  {
    if xs != [] {
      var rest := SortWith(xs[1..], le);
      SortWithSpec(xs[1..], le);
      InsertPermutes(xs[0], rest, le);
      InsertSorted(xs[0], rest, le);
      forall k ensures Ties(SortWith(xs, le), le, k) == Ties(xs, le, k) {
        InsertTies(xs[0], rest, le, k);
      }
      assert xs == [xs[0]] + xs[1..];
    }
  }

  ghost predicate Distinct<T>(s: seq<T>) {
    forall i, j :: 0 <= i < j < |s| ==> s[i] != s[j]
  }

  lemma {:induction false} DistinctOnce<T>(t: seq<T>, x: T)
    requires Distinct(t)
    ensures multiset(t)[x] <= 1
  {
    if t != [] {
      var tail := t[1..];
      assert t == [t[0]] + tail;
      assert forall i :: 0 <= i < |tail| ==> tail[i] == t[i + 1];
      DistinctOnce(tail, x);
      assert t[0] !in tail;
    }
  }

  lemma TwoOccurrences<T>(s: seq<T>, i: nat, j: nat)
    requires i < j < |s| && s[i] == s[j]
    ensures multiset(s)[s[i]] >= 2
  {
    assert s == s[..j] + s[j..];
    assert s[..j][i] == s[i] && s[j..][0] == s[i];
  }

  /** A permutation of a sequence without repetitions has none either. */
  lemma PermutationDistinct<T>(s: seq<T>, t: seq<T>)
    requires multiset(s) == multiset(t) && Distinct(t)
    ensures Distinct(s)
  {
    forall i, j | 0 <= i < j < |s| ensures s[i] != s[j] {
      DistinctOnce(t, s[i]);
      if s[i] == s[j] {
        TwoOccurrences(s, i, j);
      }
    }
  }

  /** A permutation has the same members. */
  lemma PermutationMembers<T>(s: seq<T>, t: seq<T>)
    requires multiset(s) == multiset(t)
    ensures forall x :: x in s <==> x in t
  {
    forall x ensures x in s <==> x in t {
      assert x in s <==> x in multiset(s);
      assert x in t <==> x in multiset(t);
    }
  }

  /** `take(n)` uses no element more often than the list holds it. */
  lemma TakeSubMultiset<T>(xs: seq<T>, n: nat)
    ensures multiset(Take(xs, n)) <= multiset(xs)
  {
    var r := Take(xs, n);
    assert xs == r + xs[|r|..];
  }

  /** `sortedWith(le).take(n)`: the first `n` elements in order, taken
      from the input without repeating any; an element left out comes after the last one kept. */
  lemma SortedPrefix<T(!new)>(xs: seq<T>, le: (T, T) -> bool, n: nat)
    requires TotalPreorder(le) && n > 0
    ensures var r := Take(SortWith(xs, le), n);
      && |r| == (if |xs| < n then |xs| else n)
      && SortedBy(r, le)
      && (forall i :: 0 <= i < |r| ==> r[i] in xs)
      && multiset(r) <= multiset(xs)
      && (forall x :: x in xs && x !in r ==> |r| == n && le(r[n - 1], x))
  {
    var s := SortWith(xs, le);
    var r := Take(s, n);
    SortWithSpec(xs, le);
    PermutationMembers(s, xs);
    assert |s| == |multiset(s)| == |multiset(xs)| == |xs|;
    assert forall i :: 0 <= i < |r| ==> r[i] == s[i];
    TakeSubMultiset(s, n);
    forall x | x in xs && x !in r ensures |r| == n && le(r[n - 1], x) {
      var j :| 0 <= j < |s| && s[j] == x;
      assert forall i :: 0 <= i < |r| ==> s[i] != x;
      assert le(s[n - 1], s[j]);
    }
  }
}
