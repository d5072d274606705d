/** In-block dependence graphs: chains, longest paths and depths. An instruction of the block is named by
    its position; larger numbers name instructions of other blocks, which the passes skip. */
module Dependence {

  /** `deps[i]` are the dependents of instruction `i` and `ancs[i]` its ancestors. */
  datatype Dag = Dag(deps: seq<seq<nat>>, ancs: seq<seq<nat>>, latency: seq<nat>)

  /** Latencies are positive and each in-block link is recorded at both ends. */
  ghost predicate Valid(g: Dag) {
    && |g.deps| == |g.ancs| == |g.latency|
    && (forall i :: 0 <= i < |g.latency| ==> g.latency[i] > 0)
    && (forall i, d :: 0 <= i < |g.deps| && 0 <= d < |g.deps| ==> (d in g.deps[i] <==> i in g.ancs[d]))
  }

  ghost predicate Edge(g: Dag, i: nat, d: nat) {
    i < |g.deps| && d < |g.deps| && d in g.deps[i]
  }

  /** Every dependent has a smaller rank. */
  ghost predicate Ranked(g: Dag, rank: seq<nat>) {
    |rank| == |g.deps| && forall i: nat, d: nat :: Edge(g, i, d) ==> i < |rank| && d < |rank| && rank[d] < rank[i]
  }

  /** There is no cycle among the in-block dependents. */
  ghost predicate Acyclic(g: Dag) {
    exists rank :: Ranked(g, rank)
  }

  // ----- Chains -----

  ghost predicate Chain(g: Dag, c: seq<nat>) {
    && c != [] && (forall k :: 0 <= k < |c| ==> c[k] < |g.deps|)
    && (forall k :: 0 <= k < |c| - 1 ==> Edge(g, c[k], c[k + 1]))
  }

  ghost function Sum(g: Dag, c: seq<nat>): nat {
    if c == [] then 0 else (if c[0] < |g.latency| then g.latency[c[0]] else 0) + Sum(g, c[1..])
  }

  /** The latency sum of the longest chain that starts at `i`. */
  ghost predicate IsLongest(g: Dag, i: nat, len: int) {
    && (exists c :: Chain(g, c) && c[0] == i && Sum(g, c) == len)
    && (forall c :: Chain(g, c) && c[0] == i ==> Sum(g, c) <= len)
  }

  lemma {:induction false} ChainTail(g: Dag, c: seq<nat>)
    requires Chain(g, c) && |c| > 1
    ensures Chain(g, c[1..]) && Edge(g, c[0], c[1]) && c[1..][0] == c[1]
  {
    forall k | 0 <= k < |c[1..]| - 1 ensures Edge(g, c[1..][k], c[1..][k + 1]) {
      assert Edge(g, c[k + 1], c[k + 1 + 1]);
    }
    assert Edge(g, c[0], c[0 + 1]);
  }

  lemma {:induction false} ChainCons(g: Dag, i: nat, c: seq<nat>)
    requires Chain(g, c) && Edge(g, i, c[0])
    ensures Chain(g, [i] + c) && Sum(g, [i] + c) == (if i < |g.latency| then g.latency[i] else 0) + Sum(g, c)
  {
    var e := [i] + c;
    assert e[1..] == c;
    forall k | 0 <= k < |e| - 1 ensures Edge(g, e[k], e[k + 1]) {
      if k > 0 { assert Edge(g, c[k - 1], c[k - 1 + 1]); }
    }
  }

  /** With positive latencies, an instruction has a longer path than each of its dependents. */
  lemma {:induction false} LongerThanDependent(g: Dag, i: nat, d: nat, x: int, y: int)
    requires Valid(g) && Edge(g, i, d) && IsLongest(g, i, x) && IsLongest(g, d, y)
    ensures x > y
  {
    var c :| Chain(g, c) && c[0] == d && Sum(g, c) == y;
    ChainCons(g, i, c);
    assert ([i] + c)[0] == i;
  }

  // ----- Depths -----

  /** The number of instructions on the longest chain that ends at `i`. */
  ghost predicate ChainTo(g: Dag, c: seq<nat>, i: nat) {
    Chain(g, c) && c[|c| - 1] == i
  }

  lemma {:induction false} ChainSnoc(g: Dag, c: seq<nat>, i: nat)
    requires Chain(g, c) && Edge(g, c[|c| - 1], i)
    ensures ChainTo(g, c + [i], i)
  {
    var e := c + [i];
    forall k | 0 <= k < |e| - 1 ensures Edge(g, e[k], e[k + 1]) {
      if k < |c| - 1 { assert Edge(g, c[k], c[k + 1]); }
    }
  }

  /** No chain of more than `len` instructions ends at `i`. */
  ghost predicate DepthAtMost(g: Dag, i: nat, len: nat) {
    forall c :: ChainTo(g, c, i) ==> |c| <= len
  }

  lemma {:induction false} AncestorIsShallower(g: Dag, a: nat, i: nat, len: nat)
    requires Edge(g, a, i) && DepthAtMost(g, i, len + 1)
    ensures DepthAtMost(g, a, len)
  {
    forall c | ChainTo(g, c, a) ensures |c| <= len {
      ChainSnoc(g, c, i);
    }
  }

  lemma {:induction false} DepthPositive(g: Dag, i: nat, len: nat)
    requires i < |g.deps| && DepthAtMost(g, i, len)
    ensures len > 0
  {
    assert ChainTo(g, [i], i);
  }
}
