/** Reachability in a directed graph: out[x] is the set of objects that x refers
    to.  The graph may be cyclic. */
module Graphs {
  type Graph = seq<set<nat>>

  ghost function UpTo(n: nat): (all: set<nat>)
    ensures forall x: nat :: x in all <==> x < n
  {
    if n == 0 then {} else UpTo(n - 1) + {n - 1}
  }

  ghost function Nodes(g: Graph): set<nat> { UpTo(|g|) }

  ghost predicate PathIn(g: Graph, within: set<nat>, p: seq<nat>, x: nat, y: nat) {
    && |p| > 0 && p[0] == x && p[|p| - 1] == y
    && (forall i :: 0 <= i < |p| ==> p[i] < |g| && p[i] in within)
    && (forall i :: 0 <= i < |p| - 1 ==> p[i + 1] in g[p[i]])
  }

  /** There is a path from x to y that stays within the given objects. */
  ghost predicate ReachIn(g: Graph, within: set<nat>, x: nat, y: nat) {
    exists p :: PathIn(g, within, p, x, y)
  }

  ghost predicate Reach(g: Graph, x: nat, y: nat) { ReachIn(g, Nodes(g), x, y) }

  lemma ReachSelf(g: Graph, within: set<nat>, x: nat)
    requires x < |g| && x in within
    ensures ReachIn(g, within, x, x)
  {
    assert PathIn(g, within, [x], x, x);
  }

  lemma ReachStep(g: Graph, within: set<nat>, x: nat, y: nat, z: nat)
    requires ReachIn(g, within, x, y) && z < |g| && z in within && z in g[y]
    ensures ReachIn(g, within, x, z)
  {
    var p :| PathIn(g, within, p, x, y);
    assert PathIn(g, within, p + [z], x, z);
  }

  lemma ReachWider(g: Graph, within: set<nat>, wider: set<nat>, x: nat, y: nat)
    requires ReachIn(g, within, x, y) && within <= wider
    ensures ReachIn(g, wider, x, y)
  {
    var p :| PathIn(g, within, p, x, y);
    assert PathIn(g, wider, p, x, y);
  }

  lemma ReachOn(g: Graph, x: nat, y: nat, z: nat)
    requires Reach(g, x, y) && Reach(g, y, z)
    ensures Reach(g, x, z)
  {
    var p :| PathIn(g, Nodes(g), p, x, y);
    var q :| PathIn(g, Nodes(g), q, y, z);
    assert PathIn(g, Nodes(g), p[..|p| - 1] + q, x, z);
  }

  /** A set of objects that refer to nothing outside, as long as the reference
      stays within the given objects, is never left. */
  lemma {:induction false} NeverLeft(g: Graph, within: set<nat>, c: set<nat>, p: seq<nat>, x: nat, y: nat)
    requires PathIn(g, within, p, x, y) && x in c
    requires forall a: nat, b: nat :: a in c && a < |g| && b in g[a] && b in within ==> b in c
    ensures y in c
    decreases |p|
  {
    if |p| > 1 {
      NeverLeft(g, within, c, p[..|p| - 1], x, p[|p| - 2]);
    }
  }

  lemma ReachStays(g: Graph, within: set<nat>, c: set<nat>, x: nat, y: nat)
    requires ReachIn(g, within, x, y) && x in c
    requires forall a: nat, b: nat :: a in c && a < |g| && b in g[a] && b in within ==> b in c
    ensures y in c
  {
    var p :| PathIn(g, within, p, x, y);
    NeverLeft(g, within, c, p, x, y);
  }
}
