/** The proposed execution graph: node u is adjacent to every id in dag[u]. */
module Dag {

  type Graph = seq<set<nat>>

  predicate IsAdjacent(dag: Graph, u: nat, v: nat) {
    u < |dag| && v < |dag| && v in dag[u]
  }

  /** A request may only be adjacent to requests with a greater identifier. */
  ghost predicate Ascending(dag: Graph) {
    forall u, v :: 0 <= u < |dag| && v in dag[u] ==> u < v < |dag|
  }

  ghost predicate IsPath(dag: Graph, p: seq<nat>) {
    |p| > 0 && p[0] < |dag| && forall k :: 0 <= k < |p| - 1 ==> IsAdjacent(dag, p[k], p[k + 1])
  }

  ghost predicate Reaches(dag: Graph, u: nat, v: nat) {
    exists p :: IsPath(dag, p) && p[0] == u && p[|p| - 1] == v
  }

  /** A directed path from the smaller identifier to the greater one. */
  ghost predicate Linked(dag: Graph, u: nat, v: nat) {
    if u <= v then Reaches(dag, u, v) else Reaches(dag, v, u)
  }

  lemma {:induction false} ReachSelf(dag: Graph, u: nat)
    requires u < |dag|
    ensures Reaches(dag, u, u)
  {
    assert IsPath(dag, [u]);
  }

  lemma {:induction false} ReachEdge(dag: Graph, u: nat, v: nat)
    requires IsAdjacent(dag, u, v)
    ensures Reaches(dag, u, v)
  {
    assert IsPath(dag, [u, v]);
  }

  /** The last edge of a path, and the path without it. */
  lemma {:induction false} PathLastEdge(dag: Graph, p: seq<nat>)
    requires IsPath(dag, p) && |p| > 1
    ensures IsPath(dag, p[..|p| - 1]) && IsAdjacent(dag, p[|p| - 2], p[|p| - 1])
  {
    var n := |p| - 2;
    var q := p[..|p| - 1];
    assert IsAdjacent(dag, p[n], p[n + 1]);
    forall k | 0 <= k < |q| - 1
      ensures IsAdjacent(dag, q[k], q[k + 1])
    {
      assert IsAdjacent(dag, p[k], p[k + 1]);
    }
  }

  lemma {:induction false} ReachTrans(dag: Graph, u: nat, v: nat, w: nat)
    requires Reaches(dag, u, v) && Reaches(dag, v, w)
    ensures Reaches(dag, u, w)
  {
    var p :| IsPath(dag, p) && p[0] == u && p[|p| - 1] == v;
    var q :| IsPath(dag, q) && q[0] == v && q[|q| - 1] == w;
    var r := p + q[1..];
    forall k | 0 <= k < |r| - 1
      ensures IsAdjacent(dag, r[k], r[k + 1])
    {
      if k >= |p| - 1 {
        assert r[k] == q[k - |p| + 1] && r[k + 1] == q[k - |p| + 2];
        assert IsAdjacent(dag, q[k - |p| + 1], q[k - |p| + 1 + 1]);
      }
    }
    assert IsPath(dag, r);
  }
}
