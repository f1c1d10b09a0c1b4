/**
 * The abstract state of a TotalOrderGraph (rankedpairsvoting/objects.py) and the
 * effect of one add_edge call on it, written as pure functions.
 *
 * A state is the current order of the nodes 0 .. n-1 together with the
 * per-node cache `children`, which the source consults to decide whether an
 * edge already holds.  The source keeps that cache as a SUPERSET of the true
 * successors (Covers below), not as the exact successor set; Step models the
 * code as written, stale entries included.
 */
module TotalOrder {

  /** The "no node" marker of the lower/upper links. */
  const Nil: int := -1

  /** An edge (big, small): big is to be ordered before small. */
  type Edge = (int, int)

  datatype State = State(order: seq<int>, children: seq<set<int>>)

  predicate InRange(n: int, x: int) {
    0 <= x < n
  }

  ghost predicate Distinct(s: seq<int>) {
    forall i, j :: 0 <= i < j < |s| ==> s[i] != s[j]
  }

  /** Every entry of s is a node id below n. */
  ghost predicate InBounds(s: seq<int>, n: int) {
    forall i :: 0 <= i < |s| ==> 0 <= s[i] < n
  }

  /** s lists every node of 0 .. n-1 exactly once. */
  ghost predicate IsPermutation(s: seq<int>, n: int) {
    && |s| == n
    && InBounds(s, n)
    && Distinct(s)
    && (forall x :: 0 <= x < n ==> x in s)
  }

  /** The order is a permutation of the nodes and every cached set holds node ids only. */
  ghost predicate Shaped(s: State) {
    var n := |s.order|;
    && n >= 1
    && |s.children| == n
    && IsPermutation(s.order, n)
    && (forall x, y :: 0 <= x < n && y in s.children[x] ==> 0 <= y < n)
  }

  /** Every node placed after x in the order is cached in children[x]. */
  ghost predicate Covers(s: State)
    requires Shaped(s)
  {
    forall i, j :: 0 <= i < j < |s.order| ==> s.order[j] in s.children[s.order[i]]
  }

  /** Every node cached in children[x] is placed after x in the order. */
  ghost predicate Sound(s: State)
    requires Shaped(s)
  {
    forall i, j :: 0 <= i < |s.order| && 0 <= j < |s.order| && s.order[j] in s.children[s.order[i]] ==> i < j
  }

  /** The invariant the source keeps: a permutation with a superset cache. */
  ghost predicate Inv(s: State) {
    Shaped(s) && Covers(s)
  }

  /** The position of x in s. */
  function IndexOf(s: seq<int>, x: int): (i: nat)
    requires x in s
    ensures i < |s| && s[i] == x && x !in s[..i]
  {
    if s[0] == x then 0 else 1 + IndexOf(s[1..], x)
  }

  /** a comes strictly before b in s. */
  predicate Precedes(s: seq<int>, a: int, b: int)
    requires a in s && b in s
  {
    IndexOf(s, a) < IndexOf(s, b)
  }

  /** s with every occurrence of x dropped. */
  function Without(s: seq<int>, x: int): (r: seq<int>)
    ensures |r| <= |s|
  {
    if s == [] then []
    else
      assert s == [s[0]] + s[1..];
      if s[0] == x then Without(s[1..], x) else [s[0]] + Without(s[1..], x)
  }

  /** s with big taken out and put back immediately before small. */
  function MoveBefore(s: seq<int>, big: int, small: int): (r: seq<int>)
    requires small in s && small != big
  {
    var t := Without(s, big);
    WithoutKeeps(s, big, small);
    var k := IndexOf(t, small);
    t[..k] + [big] + t[k..]
  }

  /** The position, before a splice, of the node at position i after it. */
  function Src(ps: int, pb: int, i: int): (p: int) {
    if i < ps then i else if i == ps then pb else if i <= pb then i - 1 else i
  }

  /** The position, after a splice, of the node at position p before it. */
  function Dst(ps: int, pb: int, p: int): (i: int) {
    if p < ps then p else if p == pb then ps else if p < pb then p + 1 else p
  }

  /** s with the node at pb moved to position ps, where ps < pb. */
  function Splice(s: seq<int>, ps: int, pb: int): (r: seq<int>)
    requires 0 <= ps < pb < |s|
    ensures |r| == |s|
    ensures forall i :: 0 <= i < |s| ==> r[i] == s[Src(ps, pb, i)]
    ensures forall p :: 0 <= p < |s| ==> r[Dst(ps, pb, p)] == s[p]
  {
    s[..ps] + [s[pb]] + s[ps..pb] + s[pb + 1..]
  }

  /** Drops big from the cached set of every node listed in walked. */
  function WalkRemove(children: seq<set<int>>, walked: seq<int>, big: int): seq<set<int>>
  {
    seq(|children|, x requires 0 <= x < |children| =>
      if x in walked then children[x] - {big} else children[x])
  }

  /**
   * The cached sets after the move branch: big is dropped from the sets of the
   * walked nodes, and big's own set becomes small's set plus small.
   */
  function MoveCache(children: seq<set<int>>, walked: seq<int>, big: int, small: int): seq<set<int>>
    requires 0 <= big < |children| && 0 <= small < |children|
  {
    var c := WalkRemove(children, walked, big);
    c[big := c[small] + {small}]
  }

  /** On the move branch of add_edge, small is placed before big (so big is not the head). */
  lemma MoveBranchOrder(s: State, big: int, small: int)
    requires Inv(s) && InRange(|s.order|, big) && InRange(|s.order|, small) && big != small
    requires small !in s.children[big]
    ensures IndexOf(s.order, small) < IndexOf(s.order, big)
  {
  }

  /**
   * One add_edge(big, small) call as written (objects.py:37-67): nothing changes when
   * small is cached in children[big]; otherwise big moves right before small, the
   * backward walk drops big from the cached sets of the nodes from two places before
   * big's old position down to small (none when small was big's predecessor), and
   * children[big] becomes children[small] plus small.
   */
  function Step(s: State, big: int, small: int): (r: State)
    requires Inv(s) && InRange(|s.order|, big) && InRange(|s.order|, small) && big != small
  {
    if small in s.children[big] then s
    else
      var ps := IndexOf(s.order, small);
      var pb := IndexOf(s.order, big);
      MoveBranchOrder(s, big, small);
      State(MoveBefore(s.order, big, small), MoveCache(s.children, s.order[ps..pb - 1], big, small))
  }

  /**
   * No edge that add_edges reaches is a self-loop: an edge counts only when it and
   * every edge before it are in range, since the first out-of-range edge stops the batch.
   */
  predicate NoSelfLoops(n: int, edges: seq<Edge>) {
    forall i :: 0 <= i < |edges| && AllInRange(n, edges[..i + 1]) ==> edges[i].0 != edges[i].1
  }

  predicate AllInRange(n: int, edges: seq<Edge>) {
    forall i :: 0 <= i < |edges| ==> InRange(n, edges[i].0) && InRange(n, edges[i].1)
  }

  /** An in-range self-loop after an out-of-range edge is never reached, so the batch is allowed. */
  lemma SelfLoopAfterRejectedEdge()
    ensures !AllInRange(5, [(9, 0), (1, 1)]) && NoSelfLoops(5, [(9, 0), (1, 1)])
  {
    var edges: seq<Edge> := [(9, 0), (1, 1)];
    assert !InRange(5, edges[0].0);
    assert edges[..1][0] == edges[0] && edges[..2][0] == edges[0];
    assert !AllInRange(5, edges[..1]) && !AllInRange(5, edges[..2]);
  }

  /** A batch whose first edge is in range: that edge is no self-loop and the rest is a batch again. */
  lemma NoSelfLoopsTail(n: int, edges: seq<Edge>)
    requires NoSelfLoops(n, edges) && edges != []
    requires InRange(n, edges[0].0) && InRange(n, edges[0].1)
    ensures edges[0].0 != edges[0].1 && NoSelfLoops(n, edges[1..])
  {
    assert edges[..1] == [edges[0]];
    forall i | 0 <= i < |edges| - 1 && AllInRange(n, edges[1..][..i + 1])
      ensures edges[1..][i].0 != edges[1..][i].1
    {
      assert edges[..i + 2] == [edges[0]] + edges[1..][..i + 1];
      assert edges[1..][i] == edges[i + 1];
    }
  }

  /**
   * add_edges (objects.py:30-31): the edges applied left to right; the first edge
   * with an id out of range stops the batch, leaving the earlier edges applied.
   */
  function Steps(s: State, edges: seq<Edge>): (r: State)
    requires Inv(s) && NoSelfLoops(|s.order|, edges)
    ensures Inv(r) && |r.order| == |s.order|
    decreases |edges|
  {
    if edges == [] then s
    else
      var big, small := edges[0].0, edges[0].1;
      if !(InRange(|s.order|, big) && InRange(|s.order|, small)) then s
      else
        NoSelfLoopsTail(|s.order|, edges);
        StepPreservesInv(s, big, small);
        Steps(Step(s, big, small), edges[1..])
  }

  /** The ids lo .. hi-1, as Python's set(range(lo, hi)). */
  function Interval(lo: int, hi: int): (r: set<int>)
    ensures forall x :: x in r <==> lo <= x < hi
    decreases hi - lo
  {
    if lo >= hi then {} else {lo} + Interval(lo + 1, hi)
  }

  /** The freshly constructed graph (objects.py:7-19): order 0 .. n-1, children[i] = {i+1 .. n-1}. */
  function Init(n: int): (s: State)
    requires n >= 1
    ensures Inv(s) && Sound(s)
  {
    var s := State(seq(n, i => i), seq(n, i => Interval(i + 1, n)));
    assert forall x :: 0 <= x < n ==> s.order[x] == x && s.children[x] == Interval(x + 1, n);
    forall x | 0 <= x < n
      ensures x in s.order
    {
      assert s.order[x] == x;
    }
    s
  }

  // ---------------------------------------------------------------------------
  // Sequence facts

  lemma IndexOfUnique(s: seq<int>, i: int)
    requires Distinct(s) && 0 <= i < |s|
    ensures IndexOf(s, s[i]) == i
  {
  }

  lemma {:induction false} WithoutMultiset(s: seq<int>, x: int)
    ensures multiset(Without(s, x)) == multiset(s)[x := 0]
  {
    if s != [] {
      assert s == [s[0]] + s[1..];
      WithoutMultiset(s[1..], x);
      if s[0] == x {
        assert multiset(s)[x := 0] == multiset(s[1..])[x := 0];
      } else {
        assert multiset(s)[x := 0] == multiset{s[0]} + multiset(s[1..])[x := 0];
      }
    }
  }

  /** Without(s, x) keeps every other element of s and drops x. */
  lemma WithoutKeeps(s: seq<int>, x: int, y: int)
    requires y in s && y != x
    ensures y in Without(s, x) && x !in Without(s, x)
  {
    WithoutMultiset(s, x);
    assert y in multiset(s);
    assert y in multiset(Without(s, x));
    assert x !in multiset(Without(s, x));
  }

  lemma {:induction false} WithoutAbsent(s: seq<int>, x: int)
    requires x !in s
    ensures Without(s, x) == s
  {
    if s != [] {
      WithoutAbsent(s[1..], x);
    }
  }

  lemma {:induction false} WithoutConcat(a: seq<int>, b: seq<int>, x: int)
    ensures Without(a + b, x) == Without(a, x) + Without(b, x)
  {
    if a == [] {
      assert a + b == b;
    } else {
      assert (a + b)[1..] == a[1..] + b;
      WithoutConcat(a[1..], b, x);
    }
  }

  lemma WithoutAt(s: seq<int>, p: int)
    requires 0 <= p < |s| && s[p] !in s[..p] && s[p] !in s[p + 1..]
    ensures Without(s, s[p]) == s[..p] + s[p + 1..]
  {
    var x, a, b := s[p], s[..p], s[p + 1..];
    var xb := [x] + b;
    assert s[p..] == xb by {
      assert s[p..][1..] == b;
    }
    assert s == a + xb by {
      assert s == a + s[p..];
    }
    assert xb[0] == x && xb[1..] == b;
    WithoutConcat(a, xb, x);
    WithoutAbsent(a, x);
    WithoutAbsent(b, x);
  }

  lemma TakeDrop(s: seq<int>, k: int)
    requires 0 <= k <= |s|
    ensures s[..k] + s[k..] == s
  {
  }

  lemma IndexOfAt(s: seq<int>, x: int, p: int)
    requires 0 <= p < |s| && s[p] == x && x !in s[..p]
    ensures IndexOf(s, x) == p
  {
  }

  lemma NotBefore(s: seq<int>, p: int)
    requires Distinct(s) && 0 <= p < |s|
    ensures s[p] !in s[..p]
  {
  }

  lemma NotElsewhere(s: seq<int>, p: int)
    requires Distinct(s) && 0 <= p < |s|
    ensures s[p] !in s[..p] && s[p] !in s[p + 1..]
  {
    NotBefore(s, p);
  }

  /** Moving big (at pb) before small (at ps < pb) is the splice of pb into ps. */
  lemma MoveBeforeSplice(s: seq<int>, ps: int, pb: int)
    requires Distinct(s) && 0 <= ps < pb < |s|
    ensures MoveBefore(s, s[pb], s[ps]) == Splice(s, ps, pb)
  {
    var big, small := s[pb], s[ps];
    var t := Without(s, big);
    NotElsewhere(s, pb);
    NotBefore(s, ps);
    WithoutBig(s, ps, pb);
    var a, b, c := s[..ps], s[ps..pb], s[pb + 1..];
    assert MoveBefore(s, big, small) == a + [big] + (b + c);
    assert a + [big] + (b + c) == a + [big] + b + c;
  }

  /** Taking out the node at pb leaves the prefix up to ps in place and small at ps. */
  lemma WithoutBig(s: seq<int>, ps: int, pb: int)
    requires 0 <= ps < pb < |s| && s[ps] != s[pb]
    requires s[pb] !in s[..pb] && s[pb] !in s[pb + 1..] && s[ps] !in s[..ps]
    ensures var t := Without(s, s[pb]);
      && |t| == |s| - 1 && t[..ps] == s[..ps] && t[ps..] == s[ps..pb] + s[pb + 1..]
      && s[ps] in t && IndexOf(t, s[ps]) == ps
  {
    WithoutAt(s, pb);
    var t := Without(s, s[pb]);
    assert t == s[..pb] + s[pb + 1..];
    assert t[..ps] == s[..ps];
    assert t[ps] == s[ps];
    IndexOfAt(t, s[ps], ps);
    assert t[ps..] == s[ps..pb] + s[pb + 1..];
  }

  lemma SpliceDistinct(s: seq<int>, ps: int, pb: int)
    requires Distinct(s) && 0 <= ps < pb < |s|
    ensures Distinct(Splice(s, ps, pb))
  {
    var r := Splice(s, ps, pb);
    forall i, j | 0 <= i < j < |r|
      ensures r[i] != r[j]
    {
      assert r[i] == s[Src(ps, pb, i)] && r[j] == s[Src(ps, pb, j)];
    }
  }

  lemma OccursOnce(s: seq<int>, x: int)
    requires Distinct(s) && x in s
    ensures multiset(s) == multiset(s)[x := 0] + multiset{x}
  {
    var p := IndexOf(s, x);
    assert s == s[..p] + [x] + s[p + 1..];
    assert x !in s[p + 1..] by {
      assert forall q :: p < q < |s| ==> s[q] != s[p];
    }
  }

  /** Inserting x, absent from t, at position k of t. */
  lemma InsertAt(t: seq<int>, x: int, k: int)
    requires x !in t && 0 <= k < |t|
    ensures var r := t[..k] + [x] + t[k..];
      && x in r && IndexOf(r, x) == k && r[k + 1] == t[k]
      && Without(r, x) == t
  {
    var r := t[..k] + [x] + t[k..];
    assert r[..k] == t[..k];
    IndexOfAt(r, x, k);
    WithoutConcat(t[..k] + [x], t[k..], x);
    WithoutConcat(t[..k], [x], x);
    assert Without([x], x) == [] by {
      assert [x][1..] == [];
    }
    WithoutAbsent(t[..k], x);
    WithoutAbsent(t[k..], x);
    assert t[..k] + t[k..] == t;
  }

  /**
   * What moving big before small means: the result is a permutation of the input,
   * small follows big immediately, and every other node keeps its relative order.
   */
  lemma MoveBeforeMeaning(s: seq<int>, big: int, small: int)
    requires Distinct(s) && big in s && small in s && big != small
    ensures var r := MoveBefore(s, big, small);
      && multiset(r) == multiset(s)
      && big in r
      && IndexOf(r, big) + 1 < |r| && r[IndexOf(r, big) + 1] == small
      && Without(r, big) == Without(s, big)
  {
    MoveBeforeShape(s, big, small);
    OccursOnce(s, big);
  }

  /** The moved sequence is Without(s, big) with big inserted right before small. */
  lemma MoveBeforeShape(s: seq<int>, big: int, small: int)
    requires small in s && big != small
    ensures var r := MoveBefore(s, big, small);
      && multiset(r) == multiset(s)[big := 0] + multiset{big}
      && big in r
      && IndexOf(r, big) + 1 < |r| && r[IndexOf(r, big) + 1] == small
      && Without(r, big) == Without(s, big)
  {
    var t := Without(s, big);
    WithoutKeeps(s, big, small);
    var k := IndexOf(t, small);
    var r := MoveBefore(s, big, small);
    assert r == t[..k] + [big] + t[k..];
    InsertAt(t, big, k);
    assert IndexOf(r, big) == k && r[k + 1] == t[k] == small;
    TakeDrop(t, k);
    WithoutMultiset(s, big);
    assert multiset(r) == multiset(t) + multiset{big};
  }

  /** The head after a move is big exactly when small was the head. */
  lemma MoveBeforeHead(s: seq<int>, big: int, small: int)
    requires Distinct(s) && big in s && small in s && big != small
    requires Precedes(s, small, big)
    ensures MoveBefore(s, big, small)[0] == if s[0] == small then big else s[0]
  {
    var ps, pb := IndexOf(s, small), IndexOf(s, big);
    MoveBeforeSplice(s, ps, pb);
    assert Splice(s, ps, pb)[0] == s[Src(ps, pb, 0)];
    if ps == 0 {
      assert s[0] == small;
    } else {
      assert s[0] != small;
    }
  }

  // ---------------------------------------------------------------------------
  // Facts about Step

  /** Positions of the nodes on the move branch, and the result in spliced form. */
  lemma StepMoveAt(s: State, big: int, small: int, ps: int, pb: int)
    requires Inv(s) && InRange(|s.order|, big) && InRange(|s.order|, small) && big != small
    requires small !in s.children[big]
    requires 0 <= ps < |s.order| && s.order[ps] == small
    requires 0 <= pb < |s.order| && s.order[pb] == big
    ensures ps < pb
    ensures Step(s, big, small) == State(Splice(s.order, ps, pb), MoveCache(s.children, s.order[ps..pb - 1], big, small))
  {
    IndexOfUnique(s.order, ps);
    IndexOfUnique(s.order, pb);
    MoveBranchOrder(s, big, small);
    MoveBeforeSplice(s.order, ps, pb);
  }

  /** For a node at position p of a distinct sequence, membership in a slice is a position range. */
  lemma InSlice(s: seq<int>, lo: int, hi: int, p: int)
    requires Distinct(s) && 0 <= lo <= hi <= |s| && 0 <= p < |s|
    ensures s[p] in s[lo..hi] <==> lo <= p < hi
  {
    if s[p] in s[lo..hi] {
      var q :| lo <= q < hi && s[q] == s[p];
    }
    if lo <= p < hi {
      assert s[lo..hi][p - lo] == s[p];
    }
  }

  /** Splicing a permutation gives a permutation. */
  lemma SplicePermutation(s: seq<int>, n: int, ps: int, pb: int)
    requires IsPermutation(s, n) && 0 <= ps < pb < n
    ensures IsPermutation(Splice(s, ps, pb), n)
  {
    var r := Splice(s, ps, pb);
    SpliceDistinct(s, ps, pb);
    forall x | 0 <= x < n
      ensures x in r
    {
      var p := IndexOf(s, x);
      assert r[Dst(ps, pb, p)] == x;
    }
  }

  /**
   * The move branch keeps the invariant: the new order is again a permutation and
   * each cached set still covers the node's successors.  Nodes before small keep
   * their sets and their successors; big's new set is small's set plus small; the
   * walked nodes lose only big, which no longer follows them; big's old
   * predecessor keeps big although big now precedes it.
   */
  lemma StepPreservesInv(s: State, big: int, small: int)
    requires Inv(s) && InRange(|s.order|, big) && InRange(|s.order|, small) && big != small
    ensures Inv(Step(s, big, small))
    ensures |Step(s, big, small).order| == |s.order|
  {
    if small !in s.children[big] {
      var ps, pb := IndexOf(s.order, small), IndexOf(s.order, big);
      StepMoveAt(s, big, small, ps, pb);
      MovedInv(s, ps, pb);
    }
  }

  /** The state the move branch produces, with small at ps and big at pb, satisfies Inv. */
  lemma MovedInv(s: State, ps: int, pb: int)
    requires Inv(s) && 0 <= ps < pb < |s.order|
    ensures var o := s.order;
      Inv(State(Splice(o, ps, pb), MoveCache(s.children, o[ps..pb - 1], o[pb], o[ps])))
  {
    MovedShaped(s, ps, pb);
    MovedCovers(s.order, s.children, ps, pb);
  }

  /** The state the move branch produces is a permutation whose cached sets hold node ids only. */
  lemma MovedShaped(s: State, ps: int, pb: int)
    requires Shaped(s) && 0 <= ps < pb < |s.order|
    ensures var o := s.order;
      Shaped(State(Splice(o, ps, pb), MoveCache(s.children, o[ps..pb - 1], o[pb], o[ps])))
  {
    var o, n := s.order, |s.order|;
    SplicePermutation(o, n, ps, pb);
    var c := MoveCache(s.children, o[ps..pb - 1], o[pb], o[ps]);
    var w := WalkRemove(s.children, o[ps..pb - 1], o[pb]);
    assert forall x :: 0 <= x < n ==> w[x] <= s.children[x];
    assert forall x, y :: 0 <= x < n && y in c[x] ==> 0 <= y < n;
  }

  /** The covering argument behind StepPreservesInv, over all pairs of new positions. */
  lemma MovedCovers(o: seq<int>, children: seq<set<int>>, ps: int, pb: int)
    requires Distinct(o) && |children| == |o|
    requires forall k :: 0 <= k < |o| ==> 0 <= o[k] < |o|
    requires forall a, b :: 0 <= a < b < |o| ==> o[b] in children[o[a]]
    requires 0 <= ps < pb < |o|
    ensures var c := MoveCache(children, o[ps..pb - 1], o[pb], o[ps]);
      forall i, j :: 0 <= i < j < |o| ==> o[Src(ps, pb, j)] in c[o[Src(ps, pb, i)]]
  {
    forall i, j | 0 <= i < j < |o|
      ensures o[Src(ps, pb, j)] in MoveCache(children, o[ps..pb - 1], o[pb], o[ps])[o[Src(ps, pb, i)]]
    {
      SpliceCovers(o, children, ps, pb, i, j);
    }
  }

  /** One pair of positions of the covering argument behind StepPreservesInv. */
  lemma SpliceCovers(o: seq<int>, children: seq<set<int>>, ps: int, pb: int, i: int, j: int)
    requires Distinct(o) && |children| == |o|
    requires forall k :: 0 <= k < |o| ==> 0 <= o[k] < |o|
    requires forall a, b :: 0 <= a < b < |o| ==> o[b] in children[o[a]]
    requires 0 <= ps < pb < |o| && 0 <= i < j < |o|
    ensures o[Src(ps, pb, j)] in MoveCache(children, o[ps..pb - 1], o[pb], o[ps])[o[Src(ps, pb, i)]]
  {
    var big, small := o[pb], o[ps];
    var si, sj := Src(ps, pb, i), Src(ps, pb, j);
    if i == ps {
      // big's new set: small's set plus small
      if j != ps + 1 {
        assert ps < sj && sj != pb;
        assert o[sj] in children[small];
      }
    } else if j == ps {
      // big now follows a node placed before small, whose set is untouched
      InSlice(o, ps, pb - 1, si);
      assert o[pb] in children[o[si]];
    } else {
      assert si < sj && sj != pb;
      assert o[sj] in children[o[si]];
    }
  }

  /** add_edge(big, small) leaves small cached as a successor of big (objects.py:66-67). */
  lemma StepCachesEdge(s: State, big: int, small: int)
    requires Inv(s) && InRange(|s.order|, big) && InRange(|s.order|, small) && big != small
    ensures small in Step(s, big, small).children[big]
  {
    if small !in s.children[big] {
      MoveBranchOrder(s, big, small);
    }
  }

  /** Adding the same edge twice gives the state of adding it once (objects.py:37-38, 66-67). */
  lemma StepIdempotent(s: State, big: int, small: int)
    requires Inv(s) && InRange(|s.order|, big) && InRange(|s.order|, small) && big != small
    ensures Inv(Step(s, big, small))
    ensures Step(Step(s, big, small), big, small) == Step(s, big, small)
  {
    StepPreservesInv(s, big, small);
    StepCachesEdge(s, big, small);
  }

  /**
   * The order after add_edge: unchanged when small is already cached under big,
   * otherwise big sits immediately before small, every other node keeps its
   * relative order, and big becomes the head exactly when small was the head
   * (objects.py:37-64).
   */
  lemma StepOrder(s: State, big: int, small: int)
    requires Inv(s) && InRange(|s.order|, big) && InRange(|s.order|, small) && big != small
    ensures var r := Step(s, big, small).order;
      && (small in s.children[big] ==> r == s.order)
      && (small !in s.children[big] ==>
            && big in r
            && IndexOf(r, big) + 1 < |r| && r[IndexOf(r, big) + 1] == small
            && Without(r, big) == Without(s.order, big)
            && r[0] == if s.order[0] == small then big else s.order[0])
  {
    if small !in s.children[big] {
      MoveBeforeMeaning(s.order, big, small);
      MoveBranchOrder(s, big, small);
      MoveBeforeHead(s.order, big, small);
    }
  }
}
