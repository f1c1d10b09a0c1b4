/**
 * Small inputs on which the children cache of rankedpairsvoting/objects.py goes
 * stale.  The cache stays a superset of the true successors (TotalOrder.Inv),
 * but it is not exact, and a stale entry can make a later add_edge return
 * early although the edge it asks for does not hold.
 */
module StaleCache {
  import opened TotalOrder

  const Three := State([0, 1, 2], [{1, 2}, {2}, {}])
  const Two := State([0, 1], [{1}, {}])

  lemma InitThree()
    ensures Init(3) == Three
  {
    var s := Init(3);
    assert s.order == Three.order;
    assert Interval(3, 3) == {};
    assert Interval(2, 3) == {2};
    assert Interval(1, 3) == {1, 2};
    assert s.children == Three.children;
  }

  lemma InitTwo()
    ensures Init(2) == Two
  {
    var s := Init(2);
    assert s.order == Two.order;
    assert Interval(2, 2) == {};
    assert Interval(1, 2) == {1};
    assert s.children == Two.children;
  }

  /**
   * add_edge(2, 0) on three nodes: the backward walk starts two places before
   * 2 (objects.py:50-51), so 1, the old predecessor of 2, keeps 2 in its cache
   * although 2 now comes first.  The result still satisfies Inv but not Sound.
   */
  lemma PredecessorKeepsBig()
    ensures Step(Init(3), 2, 0) == State([2, 0, 1], [{1}, {2}, {0, 1}])
    ensures var s := Step(Init(3), 2, 0); Inv(s) && !Sound(s)
  {
    InitThree();
    PredecessorStep();
    StepPreservesInv(Three, 2, 0);
    var s := Step(Init(3), 2, 0);
    assert s.order[0] == 2 && s.order[2] == 1 && 2 in s.children[1];
  }

  lemma PredecessorStep()
    ensures Step(Three, 2, 0) == State([2, 0, 1], [{1}, {2}, {0, 1}])
  {
    InitThree();
    StepMoveAt(Three, 2, 0, 0, 2);
    PredecessorCache();
  }

  lemma PredecessorCache()
    ensures Splice(Three.order, 0, 2) == [2, 0, 1]
    ensures MoveCache(Three.children, Three.order[0..1], 2, 0) == [{1}, {2}, {0, 1}]
  {
    var walked := Three.order[0..1];
    assert walked == [0];
    var w := WalkRemove(Three.children, walked, 2);
    assert w[0] == {1, 2} - {2} == {1};
    assert w[1] == {2} && w[2] == {};
    var c := MoveCache(Three.children, walked, 2, 0);
    assert c[2] == {1} + {0} == {0, 1};
    assert c == [{1}, {2}, {0, 1}];
  }

  /**
   * add_edge(1, 0) on two nodes: 0 is the old predecessor of 1, so the walk
   * is skipped (objects.py:50) and children[1] becomes children[0] plus 0,
   * a set that still holds 1 itself (objects.py:66-67).
   */
  lemma BigCachesItself()
    ensures Step(Init(2), 1, 0) == State([1, 0], [{1}, {0, 1}])
    ensures 1 in Step(Init(2), 1, 0).children[1]
  {
    InitTwo();
    StepMoveAt(Two, 1, 0, 0, 1);
    assert Splice(Two.order, 0, 1) == [1, 0];
    var walked := Two.order[0..0];
    assert walked == [];
    var c := MoveCache(Two.children, walked, 1, 0);
    assert c[1] == {1} + {0} == {0, 1};
    assert c == [{1}, {0, 1}];
  }

  /**
   * add_edges([(1, 0), (0, 1)]) on two nodes ends with 1 before 0: the second
   * edge finds 1 cached under 0 from the start and returns at objects.py:37-38,
   * so the later of two opposite edges does not win.
   */
  lemma OppositeEdgeIgnored()
    ensures NoSelfLoops(2, [(1, 0), (0, 1)])
    ensures Steps(Init(2), [(1, 0), (0, 1)]).order == [1, 0]
  {
    var edges: seq<Edge> := [(1, 0), (0, 1)];
    assert NoSelfLoops(2, edges) by {
      forall i | 0 <= i < |edges|
        ensures edges[i].0 != edges[i].1
      {
        assert i == 0 || i == 1;
      }
    }
    BigCachesItself();
    var s1 := State([1, 0], [{1}, {0, 1}]);
    StepPreservesInv(Init(2), 1, 0);
    assert edges[1..] == [(0, 1)] && edges[1..][1..] == [];
    assert 1 in s1.children[0];
    assert Step(s1, 0, 1) == s1;
  }
}
