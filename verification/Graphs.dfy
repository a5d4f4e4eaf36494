/** Dependency graphs: edges, paths, cycles and topological orders, as the workflow engine needs
    them, independent of any algorithm. */
module Graphs {

  /** An edge (dep, step): the step depends on dep. */
  type Edge = (string, string)

  predicate Path(es: seq<Edge>, p: seq<string>) {
    p != [] && forall i :: 0 <= i < |p| - 1 ==> (p[i], p[i + 1]) in es
  }

  ghost predicate OnCycle(es: seq<Edge>, n: string) {
    exists p :: Path(es, p) && |p| >= 2 && p[0] == n && p[|p| - 1] == n
  }

  ghost predicate Acyclic(es: seq<Edge>) {
    forall n :: !OnCycle(es, n)
  }

  /** On a cycle or downstream of one. */
  ghost predicate Tainted(es: seq<Edge>, n: string) {
    exists p :: Path(es, p) && p[|p| - 1] == n && OnCycle(es, p[0])
  }

  ghost predicate NoDup(xs: seq<string>) {
    forall i, j :: 0 <= i < j < |xs| ==> xs[i] != xs[j]
  }

  function Elems(xs: seq<string>): set<string> {
    set x | x in xs
  }

  /** Every dependency of a listed step is listed before it. */
  ghost predicate DependenciesFirst(es: seq<Edge>, order: seq<string>) {
    forall d, i :: 0 <= i < |order| && (d, order[i]) in es ==> d in order[..i]
  }

  ghost predicate IsTopologicalOrder(es: seq<Edge>, names: set<string>, order: seq<string>) {
    NoDup(order) && Elems(order) == names && DependenciesFirst(es, order)
  }

  lemma {:induction false} NoDupSize(xs: seq<string>)
    requires NoDup(xs)
    ensures |Elems(xs)| == |xs|
  {
    if xs != [] {
      var last := |xs| - 1;
      NoDupSize(xs[..last]);
      assert Elems(xs) == Elems(xs[..last]) + {xs[last]};
    }
  }

  lemma SubsetSize(x: set<string>, y: set<string>)
    requires x <= y
    ensures |x| <= |y|
    ensures |x| == |y| ==> x == y
  {
    assert y == x + (y - x);
  }

  /** Pigeonhole: too long a walk through a set repeats itself. */
  lemma Repeats(p: seq<string>, names: set<string>) returns (i: nat, j: nat)
    requires forall k :: 0 <= k < |p| ==> p[k] in names
    requires |p| > |names|
    ensures i < j < |p| && p[i] == p[j]
  {
    if NoDup(p) {
      NoDupSize(p);
      assert Elems(p) <= names;
      SubsetSize(Elems(p), names);
    }
    i, j :| 0 <= i < j < |p| && p[i] == p[j];
  }

  ghost predicate HasPredecessor(es: seq<Edge>, within: set<string>, n: string) {
    exists d :: d in within && (d, n) in es
  }

  /** Every member of the set waits for another member. */
  ghost predicate Stuck(es: seq<Edge>, within: set<string>) {
    forall n {:trigger HasPredecessor(es, within, n)} :: n in within ==> HasPredecessor(es, within, n)
  }

  /** Inside such a set one can walk back along dependencies forever. */
  lemma {:induction false} WalkBack(es: seq<Edge>, within: set<string>, n: string, k: nat) returns (p: seq<string>)
    requires n in within && Stuck(es, within)
    ensures Path(es, p) && |p| == k + 1 && p[k] == n
    ensures forall i :: 0 <= i < |p| ==> p[i] in within
  {
    if k == 0 {
      p := [n];
    } else {
      var q := WalkBack(es, within, n, k - 1);
      assert HasPredecessor(es, within, q[0]);
      var d :| d in within && (d, q[0]) in es;
      p := [d] + q;
      assert forall i :: 0 <= i < |q| ==> p[i + 1] == q[i];
    }
  }

  lemma Segment(es: seq<Edge>, p: seq<string>, i: nat, j: nat)
    requires Path(es, p) && i <= j < |p|
    ensures Path(es, p[i..j + 1])
  {
    var q := p[i..j + 1];
    assert forall k :: 0 <= k < |q| ==> q[k] == p[i + k];
  }

  lemma LoopAt(es: seq<Edge>, p: seq<string>, i: nat, j: nat)
    requires Path(es, p) && i < j < |p| && p[i] == p[j]
    ensures OnCycle(es, p[i])
  {
    Segment(es, p, i, j);
    var loop := p[i..j + 1];
    assert loop[0] == p[i] && loop[|loop| - 1] == p[j];
  }

  /** Such a walk runs into a cycle, so every member is tainted. */
  lemma StuckMeansTainted(es: seq<Edge>, within: set<string>, n: string)
    requires n in within && Stuck(es, within)
    ensures Tainted(es, n)
  {
    var p := WalkBack(es, within, n, |within|);
    var i, j := Repeats(p, within);
    LoopAt(es, p, i, j);
    Segment(es, p, i, |p| - 1);
    var tail := p[i..|p| - 1 + 1];
    assert tail[0] == p[i] && tail[|tail| - 1] == n;
  }

  /** Following a path backwards moves strictly towards the front of the order. */
  lemma {:induction false} PathGoesBack(es: seq<Edge>, order: seq<string>, p: seq<string>, i: nat) returns (j: nat)
    requires DependenciesFirst(es, order) && Path(es, p)
    requires i < |order| && order[i] == p[|p| - 1]
    ensures j <= i && order[j] == p[0] && (|p| >= 2 ==> j < i)
    decreases |p|
  {
    if |p| == 1 {
      j := i;
    } else {
      var last := |p| - 1;
      assert (p[last - 1], p[last - 1 + 1]) in es;
      assert p[last - 1] in order[..i];
      var k :| 0 <= k < i && order[k] == p[last - 1];
      Segment(es, p, 0, last - 1);
      assert p[0..last - 1 + 1] == p[..last];
      j := PathGoesBack(es, order, p[..last], k);
    }
  }

  /** Nothing that such an order lists lies on a cycle or behind one. */
  lemma OrderedMeansUntainted(es: seq<Edge>, order: seq<string>, n: string)
    requires NoDup(order) && DependenciesFirst(es, order) && n in order
    ensures !Tainted(es, n)
  {
    if Tainted(es, n) {
      var p :| Path(es, p) && p[|p| - 1] == n && OnCycle(es, p[0]);
      var i :| 0 <= i < |order| && order[i] == n;
      var j := PathGoesBack(es, order, p, i);
      var loop :| Path(es, loop) && |loop| >= 2 && loop[0] == p[0] && loop[|loop| - 1] == p[0];
      var k := PathGoesBack(es, order, loop, j);
      assert false;
    }
  }

  lemma CycleNodesAreTainted(es: seq<Edge>, n: string)
    requires OnCycle(es, n)
    ensures Tainted(es, n)
    ensures exists e :: e in es && e.1 == n
  {
    assert Path(es, [n]);
    assert [n][|[n]| - 1] == n && OnCycle(es, [n][0]);
    var p :| Path(es, p) && |p| >= 2 && p[0] == n && p[|p| - 1] == n;
    var k := |p| - 2;
    assert (p[k], p[k + 1]) in es;
  }

  /** Without cycles no chain of dependencies is longer than the number of steps. */
  lemma AcyclicChainsAreShort(es: seq<Edge>, names: set<string>, p: seq<string>)
    requires Acyclic(es) && Path(es, p)
    requires forall i :: 0 <= i < |p| ==> p[i] in names
    ensures |p| <= |names|
  {
    if |p| > |names| {
      var i, j := Repeats(p, names);
      LoopAt(es, p, i, j);
    }
  }
}
