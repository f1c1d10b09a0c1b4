/**
 * The worked example at the end of rankedpairsvoting/objects.py (lines 78-104):
 * five candidates, ten edges ordered from least to most important, and the
 * check that each candidate lands at the position its vote names.
 */
module Scenario {
  import opened TotalOrder
  import opened TotalOrderGraphs

  const Candidates: seq<int> := [3, 1, 2, 4, 0]
  const Vote: seq<int> := [4, 3, 1, 5, 2]
  const Edges: seq<Edge> :=
    [(4, 0), (0, 3), (2, 1), (4, 3), (1, 3), (2, 3), (1, 0), (4, 1), (2, 0), (2, 4)]

  /** The states after each edge that moves a node; the other edges change nothing. */
  const T0 := State([0, 1, 2, 3, 4], [{1, 2, 3, 4}, {2, 3, 4}, {3, 4}, {4}, {}])
  const T1 := State([4, 0, 1, 2, 3], [{1, 2, 3}, {2, 3}, {3}, {4}, {0, 1, 2, 3}])
  const T3 := State([4, 0, 2, 1, 3], [{1, 2, 3}, {2, 3}, {1, 2, 3}, {4}, {0, 1, 2, 3}])
  const T7 := State([4, 1, 0, 2, 3], [{2, 3}, {0, 2, 3}, {1, 2, 3}, {4}, {0, 1, 2, 3}])
  const T9 := State([4, 1, 2, 0, 3], [{2, 3}, {0, 2, 3}, {0, 2, 3}, {4}, {0, 1, 2, 3}])
  const T10 := State([2, 4, 1, 0, 3], [{2, 3}, {0, 2, 3}, {0, 1, 3, 4}, {4}, {0, 1, 3}])

  lemma InitFive()
    ensures Init(5) == T0
  {
    var s := Init(5);
    assert s.order == T0.order;
    assert Interval(5, 5) == {};
    assert Interval(4, 5) == {4};
    assert Interval(3, 5) == {3, 4};
    assert Interval(2, 5) == {2, 3, 4};
    assert Interval(1, 5) == {1, 2, 3, 4};
    assert s.children == T0.children;
  }

  // The Move and From lemmas state `Inv(Tk) ==> ...` instead of `requires Inv(Tk)`:
  // a precondition would be unfolded into its conjuncts and re-proved at every call
  // on these literal states, which costs more than the verifier's resource limit allows.
  // Inv(T0) comes from Init (InitFive), and each Move lemma passes it on to the next state.

  lemma Move1()
    ensures Inv(T0) ==> Inv(T1) && Step(T0, 4, 0) == T1
  {
    if Inv(T0) {
      StepMoveAt(T0, 4, 0, 0, 4);
      Order1();
      Cache1();
      StepPreservesInv(T0, 4, 0);
    }
  }

  lemma Order1()
    ensures Splice(T0.order, 0, 4) == T1.order
  {
  }

  lemma Cache1()
    ensures MoveCache(T0.children, T0.order[0..3], 4, 0) == T1.children
  {
    var walked := T0.order[0..3];
    assert walked == [0, 1, 2];
    var w := WalkRemove(T0.children, walked, 4);
    assert 0 in walked && w[0] == {1, 2, 3, 4} - {4} == {1, 2, 3};
    assert 1 in walked && w[1] == {2, 3, 4} - {4} == {2, 3};
    assert 2 in walked && w[2] == {3, 4} - {4} == {3};
    assert w[0] + {0} == {0, 1, 2, 3};
  }

  lemma Move3()
    ensures Inv(T1) ==> Inv(T3) && Step(T1, 2, 1) == T3
  {
    if Inv(T1) {
      StepMoveAt(T1, 2, 1, 2, 3);
      Order3();
      Cache3();
      StepPreservesInv(T1, 2, 1);
    }
  }

  lemma Order3()
    ensures Splice(T1.order, 2, 3) == T3.order
  {
  }

  lemma Cache3()
    ensures MoveCache(T1.children, T1.order[2..2], 2, 1) == T3.children
  {
    var walked := T1.order[2..2];
    assert walked == [];
    var w := WalkRemove(T1.children, walked, 2);
    assert w[1] + {1} == {1, 2, 3};
  }

  lemma Move7()
    ensures Inv(T3) ==> Inv(T7) && Step(T3, 1, 0) == T7
  {
    if Inv(T3) {
      StepMoveAt(T3, 1, 0, 1, 3);
      Order7();
      Cache7();
      StepPreservesInv(T3, 1, 0);
    }
  }

  lemma Order7()
    ensures Splice(T3.order, 1, 3) == T7.order
  {
  }

  lemma Cache7()
    ensures MoveCache(T3.children, T3.order[1..2], 1, 0) == T7.children
  {
    var walked := T3.order[1..2];
    assert walked == [0];
    var w := WalkRemove(T3.children, walked, 1);
    assert 0 in walked && w[0] == {1, 2, 3} - {1} == {2, 3};
    assert w[0] + {0} == {0, 2, 3};
  }

  lemma Move9()
    ensures Inv(T7) ==> Inv(T9) && Step(T7, 2, 0) == T9
  {
    if Inv(T7) {
      StepMoveAt(T7, 2, 0, 2, 3);
      Order9();
      Cache9();
      StepPreservesInv(T7, 2, 0);
    }
  }

  lemma Order9()
    ensures Splice(T7.order, 2, 3) == T9.order
  {
  }

  lemma Cache9()
    ensures MoveCache(T7.children, T7.order[2..2], 2, 0) == T9.children
  {
    var walked := T7.order[2..2];
    assert walked == [];
    var w := WalkRemove(T7.children, walked, 2);
    assert w[0] + {0} == {0, 2, 3};
  }

  lemma Move10()
    ensures Inv(T9) ==> Inv(T10) && Step(T9, 2, 4) == T10
  {
    if Inv(T9) {
      StepMoveAt(T9, 2, 4, 0, 2);
      Order10();
      Cache10();
      StepPreservesInv(T9, 2, 4);
    }
  }

  lemma Order10()
    ensures Splice(T9.order, 0, 2) == T10.order
  {
  }

  lemma Cache10()
    ensures MoveCache(T9.children, T9.order[0..1], 2, 4) == T10.children
  {
    var walked := T9.order[0..1];
    assert walked == [4];
    var w := WalkRemove(T9.children, walked, 2);
    assert 4 in walked && w[4] == {0, 1, 2, 3} - {2} == {0, 1, 3};
    assert w[4] + {4} == {0, 1, 3, 4};
  }

  /** Edge 1, (4, 0), moves 4 before 0; the edges after it give the final order. */
  lemma From0()
    ensures Inv(T0) ==> Steps(T0, Edges[0..]).order == [2, 4, 1, 0, 3]
  {
    if Inv(T0) {
      var e := Edges[0..];
      assert e[0] == (4, 0) && e[1..] == Edges[1..];
      Move1();
      From1();
    }
  }

  /** Edge 2, (0, 3), finds 3 cached under 0 and changes nothing; the edges after it give the final order. */
  lemma From1()
    ensures Inv(T1) ==> Steps(T1, Edges[1..]).order == [2, 4, 1, 0, 3]
  {
    if Inv(T1) {
      var e := Edges[1..];
      assert e[0] == (0, 3) && e[1..] == Edges[2..];
      From2();
    }
  }

  /** Edge 3, (2, 1), moves 2 before 1; the edges after it give the final order. */
  lemma From2()
    ensures Inv(T1) ==> Steps(T1, Edges[2..]).order == [2, 4, 1, 0, 3]
  {
    if Inv(T1) {
      var e := Edges[2..];
      assert e[0] == (2, 1) && e[1..] == Edges[3..];
      Move3();
      From3();
    }
  }

  /** Edge 4, (4, 3), finds 3 cached under 4 and changes nothing; the edges after it give the final order. */
  lemma From3()
    ensures Inv(T3) ==> Steps(T3, Edges[3..]).order == [2, 4, 1, 0, 3]
  {
    if Inv(T3) {
      var e := Edges[3..];
      assert e[0] == (4, 3) && e[1..] == Edges[4..];
      From4();
    }
  }

  /** Edge 5, (1, 3), finds 3 cached under 1 and changes nothing; the edges after it give the final order. */
  lemma From4()
    ensures Inv(T3) ==> Steps(T3, Edges[4..]).order == [2, 4, 1, 0, 3]
  {
    if Inv(T3) {
      var e := Edges[4..];
      assert e[0] == (1, 3) && e[1..] == Edges[5..];
      From5();
    }
  }

  /** Edge 6, (2, 3), finds 3 cached under 2 and changes nothing; the edges after it give the final order. */
  lemma From5()
    ensures Inv(T3) ==> Steps(T3, Edges[5..]).order == [2, 4, 1, 0, 3]
  {
    if Inv(T3) {
      var e := Edges[5..];
      assert e[0] == (2, 3) && e[1..] == Edges[6..];
      From6();
    }
  }

  /** Edge 7, (1, 0), moves 1 before 0; the edges after it give the final order. */
  lemma From6()
    ensures Inv(T3) ==> Steps(T3, Edges[6..]).order == [2, 4, 1, 0, 3]
  {
    if Inv(T3) {
      var e := Edges[6..];
      assert e[0] == (1, 0) && e[1..] == Edges[7..];
      Move7();
      From7();
    }
  }

  /** Edge 8, (4, 1), finds 1 cached under 4 and changes nothing; the edges after it give the final order. */
  lemma From7()
    ensures Inv(T7) ==> Steps(T7, Edges[7..]).order == [2, 4, 1, 0, 3]
  {
    if Inv(T7) {
      var e := Edges[7..];
      assert e[0] == (4, 1) && e[1..] == Edges[8..];
      From8();
    }
  }

  /** Edge 9, (2, 0), moves 2 before 0; the edges after it give the final order. */
  lemma From8()
    ensures Inv(T7) ==> Steps(T7, Edges[8..]).order == [2, 4, 1, 0, 3]
  {
    if Inv(T7) {
      var e := Edges[8..];
      assert e[0] == (2, 0) && e[1..] == Edges[9..];
      Move9();
      From9();
    }
  }

  /** Edge 10, (2, 4), moves 2 before 4; the edges after it give the final order. */
  lemma From9()
    ensures Inv(T9) ==> Steps(T9, Edges[9..]).order == [2, 4, 1, 0, 3]
  {
    if Inv(T9) {
      var e := Edges[9..];
      assert e[0] == (2, 4) && e[1..] == Edges[10..];
      Move10();
      From10();
    }
  }

  lemma From10()
    ensures Inv(T10) ==> Steps(T10, Edges[10..]).order == [2, 4, 1, 0, 3]
  {
    assert Edges[10..] == [];
  }

  /** The ten edges of objects.py:81-92 applied to a five-node graph give the order 2, 4, 1, 0, 3. */
  lemma ScenarioOrder()
    ensures NoSelfLoops(5, Edges) && AllInRange(5, Edges)
    ensures Steps(Init(5), Edges).order == [2, 4, 1, 0, 3]
  {
    EdgesWellFormed();
    InitFive();
    From0();
    assert Edges[0..] == Edges;
  }

  /** Every edge of the example has two distinct ids below 5. */
  lemma EdgesWellFormed()
    ensures NoSelfLoops(5, Edges) && AllInRange(5, Edges)
  {
    forall i | 0 <= i < |Edges|
      ensures Edges[i].0 != Edges[i].1 && InRange(5, Edges[i].0) && InRange(5, Edges[i].1)
    {
      assert i == 0 || i == 1 || i == 2 || i == 3 || i == 4 || i == 5 || i == 6 || i == 7 || i == 8 || i == 9;
    }
  }

  /**
   * The __main__ block of objects.py: build the graph, add the edges, map the
   * order to candidates, and meet the assertion of lines 101-104.
   */
  method RunScenario() returns (result: seq<int>)
    ensures result == [2, 0, 1, 3, 4]
    ensures forall c :: 0 <= c < |Vote| ==> 1 <= Vote[c] <= |result| && result[Vote[c] - 1] == Candidates[c]
  {
    ScenarioOrder();
    var g := new TotalOrderGraph(5);
    var outcome := g.AddEdges(Edges);
    assert outcome == Ok;
    var order := g.GetOrder();
    assert order == [2, 4, 1, 0, 3];
    result := Rename(order);
    ScenarioResult();
  }

  /** The candidates in the final order, and the check of objects.py:101-104 on them. */
  lemma ScenarioResult()
    ensures Rename([2, 4, 1, 0, 3]) == [2, 0, 1, 3, 4]
    ensures var result := [2, 0, 1, 3, 4];
      forall c :: 0 <= c < |Vote| ==> 1 <= Vote[c] <= |result| && result[Vote[c] - 1] == Candidates[c]
  {
    var result := [2, 0, 1, 3, 4];
    forall c | 0 <= c < |Vote|
      ensures 1 <= Vote[c] <= |result| && result[Vote[c] - 1] == Candidates[c]
    {
      assert c == 0 || c == 1 || c == 2 || c == 3 || c == 4;
    }
  }

  /**
   * Line 95: each node of the order replaced by its candidate.  When the order
   * lists every node once, the result lists every candidate once.
   */
  function Rename(order: seq<int>): (r: seq<int>)
    requires InBounds(order, |Candidates|)
    ensures IsPermutation(order, |Candidates|) ==> IsPermutation(r, |Candidates|)
  {
    var r := seq(|order|, i requires 0 <= i < |order| => Candidates[order[i]]);
    RenamePermutation(order, r);
    r
  }

  /** The node whose candidate is x: the inverse of Candidates. */
  const NodeOf: seq<int> := [4, 1, 2, 0, 3]

  lemma CandidatesInverse()
    ensures forall k :: 0 <= k < |Candidates| ==> 0 <= Candidates[k] < 5 && NodeOf[Candidates[k]] == k
    ensures forall x :: 0 <= x < |NodeOf| ==> 0 <= NodeOf[x] < 5 && Candidates[NodeOf[x]] == x
  {
    forall k | 0 <= k < |Candidates|
      ensures 0 <= Candidates[k] < 5 && NodeOf[Candidates[k]] == k
    {
      assert k == 0 || k == 1 || k == 2 || k == 3 || k == 4;
    }
    forall x | 0 <= x < |NodeOf|
      ensures 0 <= NodeOf[x] < 5 && Candidates[NodeOf[x]] == x
    {
      assert x == 0 || x == 1 || x == 2 || x == 3 || x == 4;
    }
  }

  /** Renaming a permutation of the nodes gives a permutation of the candidates. */
  lemma RenamePermutation(order: seq<int>, r: seq<int>)
    requires InBounds(order, |Candidates|)
    requires |r| == |order| && forall i :: 0 <= i < |order| ==> r[i] == Candidates[order[i]]
    ensures IsPermutation(order, |Candidates|) ==> IsPermutation(r, |Candidates|)
  {
    if IsPermutation(order, |Candidates|) {
      CandidatesInverse();
      forall i, j | 0 <= i < j < |r|
        ensures r[i] != r[j]
      {
        assert NodeOf[r[i]] == order[i] && NodeOf[r[j]] == order[j];
      }
      forall x | 0 <= x < |Candidates|
        ensures x in r
      {
        var k := NodeOf[x];
        var p := IndexOf(order, k);
        assert r[p] == x;
      }
    }
  }
}
