/**
 Walks and cycles in finite directed graphs.
 A relation is cyclic if some walk along it returns to where it began; it is not if its nodes
 can be ordered along it.
 */
module Digraph {
  /** Step `i` of `walk` follows an edge. */
  ghost predicate Linked<T>(edges: set<(T, T)>, walk: seq<T>, i: nat)
    requires i < |walk| - 1
  {
    (walk[i], walk[i + 1]) in edges
  }

  ghost predicate IsWalk<T>(edges: set<(T, T)>, walk: seq<T>) {
    walk != [] && forall i: nat | i < |walk| - 1 :: Linked(edges, walk, i)
  }

  /** `walk` uses at least one edge and ends where it starts. */
  ghost predicate IsClosedWalk<T>(edges: set<(T, T)>, walk: seq<T>) {
    |walk| >= 2 && IsWalk(edges, walk) && walk[0] == walk[|walk| - 1]
  }

  ghost predicate Cyclic<T(!new)>(edges: set<(T, T)>) {
    exists walk :: IsClosedWalk(edges, walk)
  }

  ghost predicate Distinct<T>(s: seq<T>) {
    forall i, j | 0 <= i < j < |s| :: s[i] != s[j]
  }

  /** Every edge leads from an earlier to a later element of `order`. */
  ghost predicate Orders<T>(order: seq<T>, edges: set<(T, T)>) {
    forall e <- edges :: exists i, j :: 0 <= i < j < |order| && order[i] == e.0 && order[j] == e.1
  }

  lemma {:induction false} DistinctFits<T>(s: seq<T>, pool: set<T>)
    requires Distinct(s) && forall x <- s :: x in pool
    ensures |s| <= |pool|
    ensures |s| == |pool| ==> forall x <- pool :: x in s
  {
    if s != [] {
      var x := s[0];
      assert forall y <- s[1..] :: y in pool - {x};
      DistinctFits(s[1..], pool - {x});
      if |s| == |pool| {
        forall y <- pool ensures y in s {
          if y != x { assert y in s[1..]; }
        }
      }
    }
  }

  /** Along a walk the positions in a topological order increase. */
  lemma {:induction false} WalkAscends<T(!new)>(edges: set<(T, T)>, order: seq<T>, walk: seq<T>, i: nat, n: nat)
    requires Distinct(order) && Orders(order, edges) && IsWalk(edges, walk)
    requires i < |order| && order[i] == walk[0] && 0 < n < |walk|
    ensures exists j :: i < j < |order| && order[j] == walk[n]
  {
    var j: int;
    if n == 1 {
      j := i;
    } else {
      WalkAscends(edges, order, walk, i, n - 1);
      j :| i < j < |order| && order[j] == walk[n - 1];
    }
    assert Linked(edges, walk, n - 1);
    var a, b :| 0 <= a < b < |order| && order[a] == walk[n - 1] && order[b] == walk[n];
    assert a == j;
    assert i < b && order[b] == walk[n];
  }

  lemma OrderedIsAcyclic<T(!new)>(edges: set<(T, T)>, order: seq<T>)
    requires Distinct(order) && Orders(order, edges)
    ensures !Cyclic(edges)
  {
    forall walk | IsClosedWalk(edges, walk) ensures false {
      assert Linked(edges, walk, 0);
      var i :| 0 <= i < |order| && order[i] == walk[0];
      WalkAscends(edges, order, walk, i, |walk| - 1);
    }
  }

  ghost predicate CanStay<T>(edges: set<(T, T)>, trap: set<T>, x: T) {
    exists y :: y in trap && (x, y) in edges
  }

  /** Within `trap` one can always walk on. */
  ghost predicate IsTrap<T>(edges: set<(T, T)>, trap: set<T>) {
    forall x {:trigger CanStay(edges, trap, x)} | x in trap :: CanStay(edges, trap, x)
  }

  lemma {:induction false} LongWalk<T(!new)>(edges: set<(T, T)>, trap: set<T>, x: T, n: nat) returns (walk: seq<T>)
    requires IsTrap(edges, trap) && x in trap
    ensures IsWalk(edges, walk) && |walk| == n + 1 && walk[0] == x && forall y <- walk :: y in trap
  {
    if n == 0 {
      walk := [x];
    } else {
      assert CanStay(edges, trap, x);
      var y :| y in trap && (x, y) in edges;
      var rest := LongWalk(edges, trap, y, n - 1);
      walk := [x] + rest;
      forall i: nat | i < |walk| - 1 ensures Linked(edges, walk, i) {
        if i > 0 { assert Linked(edges, rest, i - 1); }
      }
    }
  }

  /** A finite set one cannot walk out of contains a cycle. */
  lemma TrapIsCyclic<T(!new)>(edges: set<(T, T)>, trap: set<T>)
    requires trap != {} && IsTrap(edges, trap)
    ensures Cyclic(edges)
  {
    var x :| x in trap;
    var walk := LongWalk(edges, trap, x, |trap|);
    if Distinct(walk) {
      DistinctFits(walk, trap);
    }
    var i, j :| 0 <= i < j < |walk| && walk[i] == walk[j];
    var loop := walk[i..j + 1];
    forall k: nat | k < |loop| - 1 ensures Linked(edges, loop, k) {
      assert Linked(edges, walk, i + k);
    }
    assert IsClosedWalk(edges, loop);
  }

  ghost function Flip<T>(edges: set<(T, T)>): set<(T, T)> {
    set e <- edges :: (e.1, e.0)
  }

  function Reverse<T>(s: seq<T>): (r: seq<T>)
    ensures |r| == |s| && forall i | 0 <= i < |s| :: r[i] == s[|s| - 1 - i]
  {
    seq(|s|, i requires 0 <= i < |s| => s[|s| - 1 - i])
  }

  lemma FlippedCycle<T(!new)>(edges: set<(T, T)>)
    requires Cyclic(Flip(edges))
    ensures Cyclic(edges)
  {
    var walk :| IsClosedWalk(Flip(edges), walk);
    var back := Reverse(walk);
    forall i: nat | i < |back| - 1 ensures Linked(edges, back, i) {
      var k := |walk| - 2 - i;
      assert Linked(Flip(edges), walk, k);
      assert back[i] == walk[k + 1] && back[i + 1] == walk[k];
    }
    assert IsClosedWalk(edges, back);
  }
}
