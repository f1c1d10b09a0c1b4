/**
 * TotalOrderGraph (rankedpairsvoting/objects.py) as a class over arrays: the
 * doubly linked chain lives in `lower` (successor) and `upper` (predecessor),
 * with -1 for "no node", `head` is the first node and `children[x]` caches the
 * nodes after x.  The ghost field `order` is the chain read from head to tail;
 * Valid() ties the arrays to it and to the invariant of module TotalOrder.
 */
module TotalOrderGraphs {
  import opened TotalOrder

  /** The outcome of add_edge / add_edges: Python's ValueError becomes OutOfRange. */
  datatype Outcome = Ok | OutOfRange

  /** lower and upper encode the chain `order`, with Nil at both ends. */
  ghost predicate Linked(order: seq<int>, lower: seq<int>, upper: seq<int>)
    requires InBounds(order, |lower|) && |upper| == |lower| && |order| >= 1
  {
    var n := |order|;
    && (forall i :: 0 <= i < n - 1 ==> lower[order[i]] == order[i + 1])
    && lower[order[n - 1]] == Nil
    && upper[order[0]] == Nil
    && (forall i :: 0 < i < n ==> upper[order[i]] == order[i - 1])
  }

  /**
   * The links are mutually inverse and the head is the only node without a
   * predecessor (objects.py:44-48, 59-64).
   */
  lemma LinkedShape(order: seq<int>, lower: seq<int>, upper: seq<int>)
    requires IsPermutation(order, |lower|) && |upper| == |lower| && |order| >= 1
    requires Linked(order, lower, upper)
    ensures forall x :: 0 <= x < |lower| && lower[x] != Nil ==> 0 <= lower[x] < |lower| && upper[lower[x]] == x
    ensures forall x :: 0 <= x < |upper| && upper[x] != Nil ==> 0 <= upper[x] < |upper| && lower[upper[x]] == x
    ensures forall x :: 0 <= x < |upper| ==> (upper[x] == Nil <==> x == order[0])
  {
    var n := |order|;
    forall x | 0 <= x < n
      ensures lower[x] != Nil ==> 0 <= lower[x] < n && upper[lower[x]] == x
      ensures upper[x] != Nil ==> 0 <= upper[x] < n && lower[upper[x]] == x
      ensures upper[x] == Nil <==> x == order[0]
    {
      var p := IndexOf(order, x);
      if p < n - 1 {
        assert lower[x] == order[p + 1];
      }
      if p > 0 {
        assert upper[x] == order[p - 1];
      }
    }
  }

  /** The successor links after the move branch of add_edge (objects.py:44-48, 59-64). */
  ghost predicate LowerAfterMove(o: seq<int>, lower: seq<int>, lower': seq<int>, ps: int, pb: int)
    requires 0 <= ps < pb < |o| && |lower'| == |lower|
  {
    forall x | 0 <= x < |lower| ::
      lower'[x] == (
        if x == o[pb - 1] then (if pb + 1 < |o| then o[pb + 1] else Nil)
        else if ps > 0 && x == o[ps - 1] then o[pb]
        else if x == o[pb] then o[ps]
        else lower[x])
  }

  /** The predecessor links after the move branch of add_edge (objects.py:44-48, 59-64). */
  ghost predicate UpperAfterMove(o: seq<int>, upper: seq<int>, upper': seq<int>, ps: int, pb: int)
    requires 0 <= ps < pb < |o| && |upper'| == |upper|
  {
    forall x | 0 <= x < |upper| ::
      upper'[x] == (
        if pb + 1 < |o| && x == o[pb + 1] then o[pb - 1]
        else if x == o[pb] then (if ps > 0 then o[ps - 1] else Nil)
        else if x == o[ps] then o[pb]
        else upper[x])
  }

  /**
   * The chain after the move branch of add_edge: big, at position pb, is unlinked
   * and relinked right before small, at position ps < pb.  The new links are the
   * old ones except at big's old neighbours, small's old predecessor, big and small.
   */
  lemma Relink(o: seq<int>, lower: seq<int>, upper: seq<int>, lower': seq<int>, upper': seq<int>, ps: int, pb: int)
    requires IsPermutation(o, |lower|) && |upper| == |lower| && |o| >= 1
    requires Linked(o, lower, upper)
    requires 0 <= ps < pb < |o|
    requires |lower'| == |upper'| == |lower|
    requires LowerAfterMove(o, lower, lower', ps, pb)
    requires UpperAfterMove(o, upper, upper', ps, pb)
    ensures IsPermutation(Splice(o, ps, pb), |lower|)
    ensures Linked(Splice(o, ps, pb), lower', upper')
  {
    var n := |o|;
    var r := Splice(o, ps, pb);
    SplicePermutation(o, n, ps, pb);
    forall i | 0 <= i < n - 1
      ensures lower'[r[i]] == r[i + 1]
    {
      RelinkLowerAt(o, lower, upper, lower', ps, pb, i);
    }
    RelinkLowerAt(o, lower, upper, lower', ps, pb, n - 1);
    forall i | 0 < i < n
      ensures upper'[r[i]] == r[i - 1]
    {
      RelinkUpperAt(o, lower, upper, upper', ps, pb, i);
    }
    RelinkUpperAt(o, lower, upper, upper', ps, pb, 0);
  }

  /** The successor of the node at position i of the new chain. */
  lemma RelinkLowerAt(o: seq<int>, lower: seq<int>, upper: seq<int>, lower': seq<int>, ps: int, pb: int, i: int)
    requires Distinct(o) && InBounds(o, |lower|) && |upper| == |lower| && |o| >= 1
    requires Linked(o, lower, upper)
    requires 0 <= ps < pb < |o| && |lower'| == |lower|
    requires LowerAfterMove(o, lower, lower', ps, pb)
    requires 0 <= i < |o|
    ensures lower'[o[Src(ps, pb, i)]] == if i + 1 < |o| then o[Src(ps, pb, i + 1)] else Nil
  {
    var n := |o|;
    var x := o[Src(ps, pb, i)];
    var want := if i + 1 < n then o[Src(ps, pb, i + 1)] else Nil;
    if i < ps - 1 {
      assert x == o[i] && want == o[i + 1];
      assert x != o[pb - 1] && x != o[ps - 1] && x != o[pb];
      assert lower'[x] == lower[o[i]];
    } else if i == ps - 1 {
      assert x == o[ps - 1] && want == o[pb];
      assert x != o[pb - 1];
      assert lower'[x] == o[pb];
    } else if i == ps {
      assert x == o[pb] && want == o[ps];
      assert x != o[pb - 1];
      assert ps > 0 ==> x != o[ps - 1];
      assert lower'[x] == o[ps];
    } else if i < pb {
      assert x == o[i - 1] && want == o[i];
      assert x != o[pb - 1] && x != o[pb];
      assert ps > 0 ==> x != o[ps - 1];
      assert lower'[x] == lower[o[i - 1]];
    } else if i == pb {
      assert x == o[pb - 1];
      assert i + 1 < n ==> want == o[pb + 1];
      assert lower'[x] == if pb + 1 < n then o[pb + 1] else Nil;
    } else {
      assert x == o[i];
      assert i + 1 < n ==> want == o[i + 1];
      assert x != o[pb - 1] && x != o[pb];
      assert ps > 0 ==> x != o[ps - 1];
      assert lower'[x] == lower[o[i]];
    }
  }

  /** The predecessor of the node at position i of the new chain. */
  lemma RelinkUpperAt(o: seq<int>, lower: seq<int>, upper: seq<int>, upper': seq<int>, ps: int, pb: int, i: int)
    requires Distinct(o) && InBounds(o, |lower|) && |upper| == |lower| && |o| >= 1
    requires Linked(o, lower, upper)
    requires 0 <= ps < pb < |o| && |upper'| == |upper|
    requires UpperAfterMove(o, upper, upper', ps, pb)
    requires 0 <= i < |o|
    ensures upper'[o[Src(ps, pb, i)]] == if i > 0 then o[Src(ps, pb, i - 1)] else Nil
  {
    var n := |o|;
    var x := o[Src(ps, pb, i)];
    var want := if i > 0 then o[Src(ps, pb, i - 1)] else Nil;
    if i < ps {
      assert x == o[i];
      assert i > 0 ==> want == o[i - 1];
      assert x != o[ps] && x != o[pb];
      assert pb + 1 < n ==> x != o[pb + 1];
      assert upper'[x] == upper[o[i]];
    } else if i == ps {
      assert x == o[pb];
      assert i > 0 ==> want == o[ps - 1];
      assert pb + 1 < n ==> x != o[pb + 1];
      assert upper'[x] == if ps > 0 then o[ps - 1] else Nil;
    } else if i == ps + 1 {
      assert x == o[ps] && want == o[pb];
      assert pb + 1 < n ==> x != o[pb + 1];
      assert x != o[pb];
      assert upper'[x] == o[pb];
    } else if i <= pb {
      assert x == o[i - 1] && want == o[i - 2];
      assert x != o[ps] && x != o[pb];
      assert pb + 1 < n ==> x != o[pb + 1];
      assert upper'[x] == upper[o[i - 1]];
    } else if i == pb + 1 {
      assert x == o[pb + 1] && want == o[pb - 1];
      assert upper'[x] == o[pb - 1];
    } else {
      assert x == o[i] && want == o[i - 1];
      assert x != o[ps] && x != o[pb] && x != o[pb + 1];
      assert upper'[x] == upper[o[i]];
    }
  }

  /** The links __init__ builds encode the chain 0, 1, .., n-1 (objects.py:12-15). */
  lemma IdentityChain(n: int, lower: seq<int>, upper: seq<int>)
    requires n >= 1
    requires lower == seq(n, i => if i == n - 1 then Nil else i + 1)
    requires upper == seq(n, i => i - 1)
    ensures IsPermutation(Init(n).order, n)
    ensures Linked(Init(n).order, lower, upper)
  {
    var o := Init(n).order;
    assert forall i :: 0 <= i < n ==> o[i] == i;
  }

  /** The neighbours add_edge reads off the chain around small (at ps) and big (at pb). */
  lemma MoveNeighbours(o: seq<int>, lower: seq<int>, upper: seq<int>, ps: int, pb: int)
    requires IsPermutation(o, |lower|) && |upper| == |lower| && |o| >= 1
    requires Linked(o, lower, upper)
    requires 0 <= ps < pb < |o|
    ensures upper[o[pb]] == o[pb - 1]
    ensures lower[o[pb]] == if pb + 1 < |o| then o[pb + 1] else Nil
    ensures upper[o[ps]] == if ps > 0 then o[ps - 1] else Nil
    ensures forall j :: 0 < j < pb ==> upper[o[j]] == o[j - 1]
    ensures pb + 1 < |o| ==> upper[o[pb + 1]] == o[pb]
  {
  }

  /** The successor links after the writes of lines 46, 61 and 63 are those of LowerAfterMove. */
  lemma LowerWrites(o: seq<int>, lower: seq<int>, ps: int, pb: int, lower': seq<int>)
    requires Distinct(o) && InBounds(o, |lower|) && 0 <= ps < pb < |o|
    requires var big, small := o[pb], o[ps];
      var L1 := lower[o[pb - 1] := if pb + 1 < |o| then o[pb + 1] else Nil];
      lower' == (if ps == 0 then L1 else L1[o[ps - 1] := big])[big := small]
    ensures LowerAfterMove(o, lower, lower', ps, pb)
  {
    assert ps > 0 ==> o[ps - 1] != o[pb - 1] && o[ps - 1] != o[pb];
    assert o[pb - 1] != o[pb];
  }

  /** The predecessor links after the writes of lines 48, 62 and 64 are those of UpperAfterMove. */
  lemma UpperWrites(o: seq<int>, upper: seq<int>, ps: int, pb: int, upper': seq<int>)
    requires Distinct(o) && InBounds(o, |upper|) && 0 <= ps < pb < |o|
    requires var big, small := o[pb], o[ps];
      var U1 := if pb + 1 < |o| then upper[o[pb + 1] := o[pb - 1]] else upper;
      upper' == U1[big := if ps == 0 then Nil else o[ps - 1]][small := big]
    ensures UpperAfterMove(o, upper, upper', ps, pb)
  {
    assert pb + 1 < |o| ==> o[pb + 1] != o[ps] && o[pb + 1] != o[pb];
    assert o[ps] != o[pb];
  }

  /**
   * The move branch of add_edge as a whole: the links it leaves encode the
   * chain of Step's new order, whose head is big exactly when small was the head.
   */
  lemma MoveBranchLinks(o: seq<int>, lower: seq<int>, upper: seq<int>, ps: int, pb: int,
                        lower': seq<int>, upper': seq<int>)
    requires IsPermutation(o, |lower|) && |upper| == |lower| && |o| >= 1
    requires Linked(o, lower, upper)
    requires 0 <= ps < pb < |o| && |lower'| == |upper'| == |lower|
    requires LowerAfterMove(o, lower, lower', ps, pb)
    requires UpperAfterMove(o, upper, upper', ps, pb)
    ensures var o' := MoveBefore(o, o[pb], o[ps]);
      && IsPermutation(o', |lower|) && |lower'| == |upper'| == |lower|
      && Linked(o', lower', upper')
      && o'[0] == if o[0] == o[ps] then o[pb] else o[0]
  {
    MoveBeforeSplice(o, ps, pb);
    Relink(o, lower, upper, lower', upper', ps, pb);
    assert Splice(o, ps, pb)[0] == o[Src(ps, pb, 0)];
    assert ps > 0 ==> o[0] != o[ps];
  }

  /** The move branch of add_edge produces Step's state, and that state satisfies Inv. */
  lemma MoveBranchState(s: State, ps: int, pb: int, children': seq<set<int>>)
    requires Inv(s) && 0 <= ps < pb < |s.order|
    requires s.order[ps] !in s.children[s.order[pb]]
    requires children' == MoveCache(s.children, s.order[ps..pb - 1], s.order[pb], s.order[ps])
    ensures var s' := State(MoveBefore(s.order, s.order[pb], s.order[ps]), children');
      Step(s, s.order[pb], s.order[ps]) == s' && Inv(s')
  {
    StepMoveAt(s, s.order[pb], s.order[ps], ps, pb);
    MoveBeforeSplice(s.order, ps, pb);
    MovedInv(s, ps, pb);
  }

  /** The distinctness facts the backward walk of add_edge relies on. */
  lemma WalkDistinct(o: seq<int>, ps: int, pb: int)
    requires Distinct(o) && 0 <= ps < pb < |o|
    ensures forall j :: ps < j < pb ==> o[j] != o[ps]
    ensures forall j :: ps <= j < pb - 1 ==> o[j] !in o[j + 1..pb - 1]
  {
  }

  /** Everything the move branch of add_edge leaves behind, in terms of the state before it. */
  lemma MoveBranchValid(s: State, lower: seq<int>, upper: seq<int>, ps: int, pb: int,
                        lower': seq<int>, upper': seq<int>, children': seq<set<int>>)
    requires Inv(s) && |lower| == |upper| == |s.order| && Linked(s.order, lower, upper)
    requires 0 <= ps < pb < |s.order| && s.order[ps] !in s.children[s.order[pb]]
    requires |lower'| == |upper'| == |lower|
    requires LowerAfterMove(s.order, lower, lower', ps, pb)
    requires UpperAfterMove(s.order, upper, upper', ps, pb)
    requires children' == MoveCache(s.children, s.order[ps..pb - 1], s.order[pb], s.order[ps])
    ensures var o := s.order;
      var o' := MoveBefore(o, o[pb], o[ps]);
      && Step(s, o[pb], o[ps]) == State(o', children') && Inv(State(o', children'))
      && Linked(o', lower', upper')
      && o'[0] == if o[0] == o[ps] then o[pb] else o[0]
  {
    MoveBranchLinks(s.order, lower, upper, ps, pb, lower', upper');
    MoveBranchState(s, ps, pb, children');
  }

  class TotalOrderGraph {
    const n: int
    const lower: array<int>
    const upper: array<int>
    var head: int
    const children: array<set<int>>
    ghost var order: seq<int>

    /** The abstract state: the chain order and the cached sets. */
    ghost function Model(): State
      reads this, children
    {
      State(order, children[..])
    }

    ghost predicate Valid()
      reads this, lower, upper, children
    {
      && lower.Length == n && upper.Length == n && children.Length == n
      && lower != upper
      && Inv(Model())
      && head == order[0]
      && Linked(order, lower[..], upper[..])
    }

    /**
     * The links of a valid graph are mutually inverse, and head is the only node
     * without a predecessor; the move branch keeps this (objects.py:40-64).
     */
    lemma HeadIsOnlyRoot()
      requires Valid()
      ensures forall x :: 0 <= x < n && lower[x] != Nil ==> 0 <= lower[x] < n && upper[lower[x]] == x
      ensures forall x :: 0 <= x < n && upper[x] != Nil ==> 0 <= upper[x] < n && lower[upper[x]] == x
      ensures forall x :: 0 <= x < n ==> (upper[x] == Nil <==> x == head)
    {
      LinkedShape(order, lower[..], upper[..]);
    }

    /** __init__ for nodes >= 1 (objects.py:7-19): the chain 0, 1, .., nodes-1. */
    constructor (nodes: int)
      requires nodes >= 1
      ensures Valid() && n == nodes && fresh(lower) && fresh(upper) && fresh(children)
      ensures Model() == Init(nodes) && head == 0
      ensures lower[..] == seq(nodes, i => if i == nodes - 1 then Nil else i + 1)
      ensures upper[..] == seq(nodes, i => i - 1)
    {
      n := nodes;
      lower := new int[nodes](i => i + 1);
      upper := new int[nodes]((i: int) => i - 1);
      children := new set<int>[nodes];
      new;
      lower[nodes - 1] := Nil;
      upper[0] := Nil;
      head := 0;
      FillChildren();
      order := seq(nodes, i => i);
      assert lower[..] == seq(nodes, i => if i == nodes - 1 then Nil else i + 1);
      assert upper[..] == seq(nodes, i => i - 1);
      IdentityChain(nodes, lower[..], upper[..]);
    }

    /** Lines 17-19: children[i] holds every node after i. */
    method FillChildren()
      requires children.Length == n >= 1
      modifies children
      ensures children[..] == Init(n).children
    {
      for i := 0 to n
        invariant forall k :: 0 <= k < i ==> children[k] == Interval(k + 1, n)
      {
        children[i] := Interval(i + 1, n);
      }
    }

    /**
     * add_edge(big, small) (objects.py:33-67).  An id out of range is rejected
     * before anything changes; an edge whose small is cached under big changes
     * nothing; otherwise big is moved right before small as Step describes, and
     * the head becomes big exactly when it was small.
     */
    method AddEdge(big: int, small: int) returns (r: Outcome)
      requires Valid()
      requires InRange(n, big) && InRange(n, small) ==> big != small
      modifies this, lower, upper, children
      ensures Valid()
      ensures r == Ok <==> InRange(n, big) && InRange(n, small)
      ensures r == OutOfRange ==> unchanged(this, lower, upper, children)
      ensures r == Ok ==> Model() == Step(old(Model()), big, small)
      ensures r == Ok && small in old(children[big]) ==> unchanged(this, lower, upper, children)
      ensures r == Ok && small !in old(children[big]) ==>
        head == if old(head) == small then big else old(head)
    {
      if !(0 <= big < n && 0 <= small < n) {
        return OutOfRange;
      }
      r := Ok;
      if small in children[big] {
        return;
      }
      MoveBranch(big, small);
    }

    /**
     * add_edges (objects.py:21-31): add_edge on each edge, left to right.  The
     * first edge with an id out of range stops the batch with the earlier edges
     * applied, as the ValueError of add_edge would.
     */
    method AddEdges(edges: seq<Edge>) returns (r: Outcome)
      requires Valid() && NoSelfLoops(n, edges)
      modifies this, lower, upper, children
      ensures Valid()
      ensures r == Ok <==> AllInRange(n, edges)
      ensures Model() == Steps(old(Model()), edges)
    {
      var i := 0;
      while i < |edges|
        invariant 0 <= i <= |edges| && Valid()
        invariant forall j :: 0 <= j < i ==> InRange(n, edges[j].0) && InRange(n, edges[j].1)
        invariant NoSelfLoops(n, edges[i..])
        invariant Steps(old(Model()), edges) == Steps(Model(), edges[i..])
      {
        var (big, small) := edges[i];
        assert edges[i..][0] == edges[i] && edges[i..][1..] == edges[i + 1..];
        if InRange(n, big) && InRange(n, small) {
          NoSelfLoopsTail(n, edges[i..]);
        }
        var res := AddEdge(big, small);
        if res == OutOfRange {
          return OutOfRange;
        }
        i := i + 1;
      }
      return Ok;
    }

    /** The move branch of add_edge (objects.py:40-67), with the head update of lines 40-41. */
    method MoveBranch(big: int, small: int)
      requires Valid() && InRange(n, big) && InRange(n, small) && big != small
      requires small !in children[big]
      modifies this, lower, upper, children
      ensures Valid()
      ensures Model() == Step(old(Model()), big, small)
      ensures head == if old(head) == small then big else old(head)
    {
      if head == small {
        head := big;
      }
      ghost var s0 := Model();
      ghost var ps, pb := IndexOf(order, small), IndexOf(order, big);
      MoveBranchOrder(s0, big, small);
      Move(big, small, s0, ps, pb);
      order := MoveBefore(s0.order, big, small);
    }

    /** The move branch on the arrays, proved against Step. */
    method Move(big: int, small: int, ghost s: State, ghost ps: int, ghost pb: int)
      requires lower.Length == n && upper.Length == n && children.Length == n && lower != upper
      requires Inv(s) && |s.order| == n && s.children == children[..]
      requires Linked(s.order, lower[..], upper[..])
      requires 0 <= ps < pb < n && s.order[ps] == small && s.order[pb] == big
      requires small !in s.children[big]
      modifies lower, upper, children
      ensures var o' := MoveBefore(s.order, big, small);
        && Step(s, big, small) == State(o', children[..]) && Inv(State(o', children[..]))
        && Linked(o', lower[..], upper[..])
        && o'[0] == if s.order[0] == small then big else s.order[0]
    {
      ghost var o, l0, u0 := s.order, lower[..], upper[..];
      MoveNeighbours(o, l0, u0, ps, pb);
      Relocate(big, small, o, ps, pb);
      MoveBranchValid(s, l0, u0, ps, pb, lower[..], upper[..], children[..]);
    }

    /**
     * Lines 44-67 on the move branch: big is unlinked, dropped from the cached sets
     * of the walk, linked in before small, and given small's cached set plus small.
     */
    method Relocate(big: int, small: int, ghost o: seq<int>, ghost ps: int, ghost pb: int)
      requires lower.Length == n && upper.Length == n && children.Length == n && lower != upper
      requires IsPermutation(o, n) && 0 <= ps < pb < n && o[ps] == small && o[pb] == big
      requires upper[big] == o[pb - 1]
      requires lower[big] == if pb + 1 < n then o[pb + 1] else Nil
      requires upper[small] == if ps > 0 then o[ps - 1] else Nil
      requires forall j :: 0 < j < pb ==> upper[o[j]] == o[j - 1]
      requires forall j :: 0 <= j < pb ==> big in children[o[j]]
      requires pb + 1 < n ==> upper[o[pb + 1]] == big
      modifies lower, upper, children
      ensures LowerAfterMove(o, old(lower[..]), lower[..], ps, pb)
      ensures UpperAfterMove(o, old(upper[..]), upper[..], ps, pb)
      ensures children[..] == MoveCache(old(children[..]), o[ps..pb - 1], big, small)
    {
      ghost var l0, u0, c0 := lower[..], upper[..], children[..];
      var high := Unlink(big);
      assert lower[..] == l0[o[pb - 1] := if pb + 1 < |o| then o[pb + 1] else Nil];
      if high != small {
        WalkDistinct(o, ps, pb);
        DropFromWalk(big, small, high, o, ps, pb);
      } else {
        assert o[ps..pb - 1] == [];
        assert children[..] == WalkRemove(c0, [], big);
      }
      ghost var cw := children[..];
      LinkBefore(big, small);
      children[big] := children[small] + {small};
      assert children[..] == cw[big := cw[small] + {small}];
      LowerWrites(o, l0, ps, pb, lower[..]);
      UpperWrites(o, u0, ps, pb, upper[..]);
    }

    /**
     * get_order (objects.py:69-75): the head, then successors along lower until
     * Nil.  The walk ends and lists the chain, every node exactly once.
     */
    method GetOrder() returns (r: seq<int>)
      requires Valid()
      ensures r == order
      ensures IsPermutation(r, n)
    {
      r := [head];
      var current := lower[head];
      while current != Nil
        invariant 1 <= |r| <= n && r == order[..|r|]
        invariant current == if |r| < n then order[|r|] else Nil
        decreases n - |r|
      {
        r := r + [current];
        current := lower[current];
      }
      assert r == order[..n];
    }

    /** Lines 44-48: big's neighbours are linked to each other; returns big's old predecessor. */
    method Unlink(big: int) returns (high: int)
      requires lower.Length == n && upper.Length == n && lower != upper
      requires 0 <= big < n && 0 <= upper[big] < n
      requires lower[big] == Nil || 0 <= lower[big] < n
      modifies lower, upper
      ensures high == old(upper[big])
      ensures lower[..] == old(lower[..])[high := old(lower[big])]
      ensures upper[..] == if old(lower[big]) == Nil then old(upper[..])
        else old(upper[..])[old(lower[big]) := high]
    {
      var low := lower[big];
      high := upper[big];
      lower[high] := low;
      if low != Nil {
        upper[low] := high;
      }
    }

    /**
     * Lines 50-56, entered when big's old predecessor `pred` is not small: the walk
     * goes back from the node before `pred` and drops big from each cached set up
     * to and including small's.  The node `pred` itself is skipped.
     */
    method DropFromWalk(big: int, small: int, pred: int, ghost o: seq<int>, ghost ps: int, ghost pb: int)
      requires children.Length == n && upper.Length == n
      requires 0 <= ps < pb < |o| && InBounds(o, n)
      requires o[ps] == small && pred == o[pb - 1] && pred != small
      requires forall j :: 0 < j < pb ==> upper[o[j]] == o[j - 1]
      requires forall j :: 0 <= j < pb ==> big in children[o[j]]
      requires forall j :: ps < j < pb ==> o[j] != small
      requires forall j :: ps <= j < pb - 1 ==> o[j] !in o[j + 1..pb - 1]
      modifies children
      ensures children[..] == WalkRemove(old(children[..]), o[ps..pb - 1], big)
    {
      ghost var c0 := children[..];
      var high := upper[pred];
      ghost var k := pb - 2;
      while high != Nil
        invariant ps <= k <= pb - 2 && high == o[k]
        invariant forall x :: 0 <= x < n ==>
          children[x] == if x in o[k + 1..pb - 1] then c0[x] - {big} else c0[x]
        decreases k
      {
        assert o[k..pb - 1] == [o[k]] + o[k + 1..pb - 1];
        assert big in children[high];  // the remove at line 53 finds big
        children[high] := children[high] - {big};
        if high == small {
          assert k == ps;
          break;
        }
        high := upper[high];
        k := k - 1;
      }
      assert forall x :: 0 <= x < n ==>
        children[x] == if x in o[ps..pb - 1] then c0[x] - {big} else c0[x];
    }

    /** Lines 59-64: big is linked in immediately before small. */
    method LinkBefore(big: int, small: int)
      requires lower.Length == n && upper.Length == n && lower != upper
      requires 0 <= big < n && 0 <= small < n
      requires upper[small] == Nil || 0 <= upper[small] < n
      modifies lower, upper
      ensures var h := old(upper[small]);
        lower[..] == (if h == Nil then old(lower[..]) else old(lower[..])[h := big])[big := small]
      ensures upper[..] == old(upper[..])[big := old(upper[small])][small := big]
    {
      var high := upper[small];
      if high != Nil {
        lower[high] := big;
      }
      upper[big] := high;
      lower[big] := small;
      upper[small] := big;
    }
  }

  /**
   * TotalOrderGraph(nodes) (objects.py:7-19): Python's ValueError for nodes < 1
   * becomes a null result; otherwise the chain 0, 1, .., nodes-1.
   */
  method NewGraph(nodes: int) returns (g: TotalOrderGraph?)
    ensures g == null <==> nodes < 1
    ensures g != null ==> fresh(g) && g.Valid() && g.n == nodes && g.Model() == Init(nodes)
  {
    if nodes < 1 {
      return null;
    }
    g := new TotalOrderGraph(nodes);
  }
}
