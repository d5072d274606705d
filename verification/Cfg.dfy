/** Control-flow graphs, paths and dominance.

    A block is named by its position in the program's block list. The source keys its
    block maps by block address; the position is a one-to-one renaming of that address. */
module Cfg {

  /** Ancestor and descendent lists of every block. setDescendent links both ends of an edge. */
  datatype Graph = Graph(pred: seq<seq<nat>>, succ: seq<seq<nat>>) {
    ghost predicate Valid() {
      && |pred| == |succ|
      && (forall n, k :: 0 <= n < |pred| && 0 <= k < |pred[n]| ==> pred[n][k] < |pred|)
      && (forall n, k :: 0 <= n < |succ| && 0 <= k < |succ[n]| ==> succ[n][k] < |succ|)
      && (forall a, b :: 0 <= a < |pred| && 0 <= b < |pred| ==> (b in succ[a] <==> a in pred[b]))
    }
  }

  ghost predicate Edge(g: Graph, a: nat, b: nat) {
    a < |g.pred| && b < |g.pred| && a in g.pred[b]
  }

  /** `p` lists the blocks of a walk from `a` to `b`, both ends included. */
  ghost predicate Path(g: Graph, p: seq<nat>, a: nat, b: nat) {
    && 0 < |p| && p[0] == a && p[|p| - 1] == b
    && (forall i :: 0 <= i < |p| ==> p[i] < |g.pred|)
    && (forall i :: 0 <= i < |p| - 1 ==> Edge(g, p[i], p[i + 1]))
  }

  /** A walk that starts at an entry. */
  ghost predicate EntryPath(g: Graph, es: set<nat>, p: seq<nat>, n: nat) {
    0 < |p| && p[0] in es && Path(g, p, p[0], n)
  }

  ghost predicate Reachable(g: Graph, es: set<nat>, n: nat) {
    exists p :: EntryPath(g, es, p, n)
  }

  /** `d` lies on every path from an entry to `n`. */
  ghost predicate Dominates(g: Graph, es: set<nat>, d: nat, n: nat) {
    forall p :: EntryPath(g, es, p, n) ==> d in p
  }

  /** The entries are the blocks without ancestors. */
  ghost predicate EntriesAre(g: Graph, es: set<nat>) {
    && g.Valid() && (forall n :: n in es ==> n < |g.pred|)
    && forall n :: 0 <= n < |g.pred| ==> (|g.pred[n]| == 0 <==> n in es)
  }

  /** The dominators of a block: those of path dominance when an entry reaches it, itself otherwise. */
  ghost function Dom(g: Graph, es: set<nat>, n: nat): (r: set<nat>)
    requires n < |g.pred|
  {
    if Reachable(g, es, n) then set d | 0 <= d < |g.pred| && Dominates(g, es, d, n) else {n}
  }

  ghost function SDom(g: Graph, es: set<nat>, n: nat): (r: set<nat>)
    requires n < |g.pred|
  {
    Dom(g, es, n) - {n}
  }

  // ----- Paths -----

  lemma {:induction false} PathPrefix(g: Graph, p: seq<nat>, a: nat, b: nat, i: nat)
    requires Path(g, p, a, b) && i < |p|
    ensures Path(g, p[..i + 1], a, p[i])
  {
  }

  lemma {:induction false} PathSuffix(g: Graph, p: seq<nat>, a: nat, b: nat, i: nat)
    requires Path(g, p, a, b) && i < |p|
    ensures Path(g, p[i..], p[i], b)
  {
  }

  lemma {:induction false} PathExtend(g: Graph, p: seq<nat>, a: nat, b: nat, c: nat)
    requires Path(g, p, a, b) && Edge(g, b, c)
    ensures Path(g, p + [c], a, c)
  {
    var q := p + [c];
    forall i | 0 <= i < |q| - 1 ensures Edge(g, q[i], q[i + 1]) {
      if i < |p| - 1 { assert Edge(g, p[i], p[i + 1]); }
    }
  }

  lemma {:induction false} PathJoin(g: Graph, p: seq<nat>, a: nat, b: nat, q: seq<nat>, c: nat)
    requires Path(g, p, a, b) && Path(g, q, b, c)
    ensures Path(g, p + q[1..], a, c)
  {
    var r := p + q[1..];
    forall i | 0 <= i < |r| - 1 ensures Edge(g, r[i], r[i + 1]) {
      if i < |p| - 1 {
        assert Edge(g, p[i], p[i + 1]);
      } else {
        assert r[i] == q[i + 1 - |p|] && r[i + 1] == q[i + 2 - |p|];
        assert Edge(g, q[i + 1 - |p|], q[i + 1 - |p| + 1]);
      }
    }
  }

  lemma {:induction false} EntryPrefix(g: Graph, es: set<nat>, p: seq<nat>, n: nat, i: nat)
    requires EntryPath(g, es, p, n) && i < |p|
    ensures EntryPath(g, es, p[..i + 1], p[i])
  {
    PathPrefix(g, p, p[0], n, i);
  }

  lemma {:induction false} EntryExtend(g: Graph, es: set<nat>, p: seq<nat>, a: nat, b: nat)
    requires EntryPath(g, es, p, a) && Edge(g, a, b)
    ensures EntryPath(g, es, p + [b], b)
  {
    PathExtend(g, p, p[0], a, b);
  }

  lemma {:induction false} EntryJoin(g: Graph, es: set<nat>, p: seq<nat>, a: nat, q: seq<nat>, b: nat)
    requires EntryPath(g, es, p, a) && Path(g, q, a, b)
    ensures EntryPath(g, es, p + q[1..], b)
  {
    PathJoin(g, p, p[0], a, q, b);
  }

  lemma {:induction false} ReachableOnPath(g: Graph, es: set<nat>, p: seq<nat>, n: nat, i: nat)
    requires EntryPath(g, es, p, n) && i < |p|
    ensures Reachable(g, es, p[i])
  {
    EntryPrefix(g, es, p, n, i);
  }

  lemma {:induction false} ReachableSucc(g: Graph, es: set<nat>, a: nat, b: nat)
    requires Reachable(g, es, a) && Edge(g, a, b)
    ensures Reachable(g, es, b)
  {
    var p :| EntryPath(g, es, p, a);
    EntryExtend(g, es, p, a, b);
  }

  lemma {:induction false} ReachablePath(g: Graph, es: set<nat>, p: seq<nat>, a: nat, b: nat)
    requires Reachable(g, es, a) && Path(g, p, a, b)
    ensures Reachable(g, es, b)
  {
    var q :| EntryPath(g, es, q, a);
    EntryJoin(g, es, q, a, p, b);
  }

  /** The last position at which a value occurs. */
  ghost function LastIndex(p: seq<nat>, x: nat): (i: nat)
    requires x in p
    ensures i < |p| && p[i] == x && x !in p[i + 1..]
  {
    if p[|p| - 1] == x then |p| - 1
    else
      assert p == p[..|p| - 1] + [p[|p| - 1]];
      var i := LastIndex(p[..|p| - 1], x);
      assert p[i + 1..] == p[..|p| - 1][i + 1..] + [p[|p| - 1]];
      i
  }

  // ----- Dominance is a partial order whose down-sets are chains -----

  lemma {:induction false} DomRefl(g: Graph, es: set<nat>, n: nat)
    requires n < |g.pred|
    ensures n in Dom(g, es, n)
  {
  }

  lemma {:induction false} DomReachable(g: Graph, es: set<nat>, d: nat, n: nat)
    requires n < |g.pred| && d in Dom(g, es, n)
    ensures d < |g.pred|
    ensures d != n ==> Reachable(g, es, n)
    ensures Reachable(g, es, n) ==> Reachable(g, es, d)
  {
    if Reachable(g, es, n) {
      var p :| EntryPath(g, es, p, n);
      var i :| 0 <= i < |p| && p[i] == d;
      ReachableOnPath(g, es, p, n, i);
    }
  }

  lemma {:induction false} DomTrans(g: Graph, es: set<nat>, a: nat, b: nat, c: nat)
    requires c < |g.pred| && b in Dom(g, es, c) && b < |g.pred| && a in Dom(g, es, b)
    ensures a in Dom(g, es, c)
  {
    DomReachable(g, es, b, c);
    DomReachable(g, es, a, b);
    if Reachable(g, es, c) {
      forall p | EntryPath(g, es, p, c) ensures a in p {
        var i :| 0 <= i < |p| && p[i] == b;
        EntryPrefix(g, es, p, c, i);
        assert a in p[..i + 1];
      }
    }
  }

  /** Two different blocks never dominate each other: each path to one would contain a shorter one. */
  lemma {:induction false} NoMutualDom(g: Graph, es: set<nat>, p: seq<nat>, a: nat, b: nat)
    requires a < |g.pred| && b < |g.pred| && a != b
    requires EntryPath(g, es, p, a) && Dominates(g, es, b, a) && Dominates(g, es, a, b)
    ensures false
    decreases |p|
  {
    var i :| 0 <= i < |p| && p[i] == b;
    EntryPrefix(g, es, p, a, i);
    NoMutualDom(g, es, p[..i + 1], b, a);
  }

  lemma {:induction false} DomAntisym(g: Graph, es: set<nat>, a: nat, b: nat)
    requires a < |g.pred| && b < |g.pred| && a in Dom(g, es, b) && b in Dom(g, es, a)
    ensures a == b
  {
    if a != b {
      DomReachable(g, es, b, a);
      DomReachable(g, es, a, b);
      var p :| EntryPath(g, es, p, a);
      NoMutualDom(g, es, p, a, b);
    }
  }

  /** If neither `a` nor `b` dominates the other and `b` comes after the last `a`, some path avoids `a`. */
  lemma {:induction false} AvoidingPath(g: Graph, es: set<nat>, p: seq<nat>, a: nat, b: nat, n: nat, i: nat, j: nat)
    requires EntryPath(g, es, p, n) && i < j < |p| && p[j] == b && a !in p[i + 1..]
    requires !Dominates(g, es, a, b)
    ensures !Dominates(g, es, a, n)
  {
    var q :| EntryPath(g, es, q, b) && a !in q;
    PathSuffix(g, p, p[0], n, j);
    EntryJoin(g, es, q, b, p[j..], n);
    var r := q + p[j..][1..];
    assert forall k :: 0 <= k < |p[j..][1..]| ==> p[j..][1..][k] == p[i + 1..][j - i + k];
    assert a !in r;
  }

  /** The dominators of one reachable block are totally ordered by dominance. */
  lemma {:induction false} DomChain(g: Graph, es: set<nat>, a: nat, b: nat, n: nat)
    requires n < |g.pred| && Reachable(g, es, n)
    requires a in Dom(g, es, n) && b in Dom(g, es, n)
    ensures a in Dom(g, es, b) || b in Dom(g, es, a)
  {
    DomReachable(g, es, a, n);
    DomReachable(g, es, b, n);
    if a != b {
      var p :| EntryPath(g, es, p, n);
      var i, j := LastIndex(p, a), LastIndex(p, b);
      if i < j {
        if !Dominates(g, es, a, b) { AvoidingPath(g, es, p, a, b, n, i, j); }
      } else {
        if !Dominates(g, es, b, a) { AvoidingPath(g, es, p, b, a, n, j, i); }
      }
    }
  }

  /** A dominator of `n` other than `n` dominates every reachable ancestor of `n`. */
  lemma {:induction false} DomPred(g: Graph, es: set<nat>, d: nat, p: nat, n: nat)
    requires Edge(g, p, n) && Reachable(g, es, p)
    requires d in Dom(g, es, n) && d != n
    ensures d in Dom(g, es, p)
  {
    ReachableSucc(g, es, p, n);
    forall q | EntryPath(g, es, q, p) ensures d in q {
      EntryExtend(g, es, q, p, n);
      assert d in q + [n];
    }
  }

  /** No other block lies above an entry. */
  lemma {:induction false} EntryOnly(g: Graph, es: set<nat>, e: nat)
    requires e < |g.pred| && e in es
    ensures Reachable(g, es, e) && Dom(g, es, e) == {e}
  {
    var p: seq<nat> := [e];
    assert EntryPath(g, es, p, e);
    forall d | d in Dom(g, es, e) ensures d == e {
      assert d in p;
    }
  }

  /** A single entry dominates whatever it reaches. */
  lemma {:induction false} EntryDominates(g: Graph, e: nat, n: nat)
    requires n < |g.pred| && e < |g.pred| && Reachable(g, {e}, n)
    ensures e in Dom(g, {e}, n)
  {
  }
}
