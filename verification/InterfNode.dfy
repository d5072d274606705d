/** Nodes of the interference graph (interfNode.cpp). */
module InterfNodes {
  import opened Collections

  const GRF_SIZE := 70
  const LRF_SIZE := 20
  const LRF_LO := 100
  const LRF_HI := LRF_LO + LRF_SIZE - 1
  const GRF_LO := LRF_HI + 1
  const GRF_HI := GRF_LO + GRF_SIZE - 1

  /** The registers of some nodes. */
  ghost function RegSet(s: seq<InterfNode>): set<nat> {
    set i | 0 <= i < |s| :: s[i].psudoReg
  }

  ghost predicate DistinctRegs(s: seq<InterfNode>) {
    forall i, j :: 0 <= i < j < |s| ==> s[i].psudoReg != s[j].psudoReg
  }

  class InterfNode {
    const psudoReg: nat
    var reg: int
    var edgesStatic: seq<InterfNode>
    var edgesDynamic: seq<InterfNode>
    var neighborSet: set<nat>

    constructor (psudoReg: nat)
      ensures this.psudoReg == psudoReg && reg == -1
      ensures edgesStatic == [] && edgesDynamic == [] && neighborSet == {}
    {
      this.psudoReg := psudoReg;
      reg, edgesStatic, edgesDynamic, neighborSet := -1, [], [], {};
    }

    /** Adds an edge unless this end has it; the other end does the same in turn. */
    method AddEdge(node: InterfNode)
      requires node != this
      modifies this, node
      ensures reg == old(reg) && node.reg == old(node.reg)
      ensures node.psudoReg in old(neighborSet) ==>
                && neighborSet == old(neighborSet) && edgesStatic == old(edgesStatic) && edgesDynamic == old(edgesDynamic)
      ensures node.psudoReg !in old(neighborSet) ==>
                && neighborSet == old(neighborSet) + {node.psudoReg}
                && edgesStatic == old(edgesStatic) + [node] && edgesDynamic == old(edgesDynamic) + [node]
      ensures node.psudoReg in old(neighborSet) || psudoReg in old(node.neighborSet) ==>
                && node.neighborSet == old(node.neighborSet)
                && node.edgesStatic == old(node.edgesStatic) && node.edgesDynamic == old(node.edgesDynamic)
      ensures node.psudoReg !in old(neighborSet) && psudoReg !in old(node.neighborSet) ==>
                && node.neighborSet == old(node.neighborSet) + {psudoReg}
                && node.edgesStatic == old(node.edgesStatic) + [this] && node.edgesDynamic == old(node.edgesDynamic) + [this]
      decreases (if node.psudoReg in neighborSet then 0 else 1) + if psudoReg in node.neighborSet then 0 else 1
    {
      if node.psudoReg !in neighborSet {
        neighborSet := neighborSet + {node.psudoReg};
        edgesStatic := edgesStatic + [node];
        edgesDynamic := edgesDynamic + [node];
        node.AddEdge(this);
      }
    }

    /** Takes one neighbour out of the dynamic edges. */
    method RemoveANeighbor(node: InterfNode)
      requires DistinctRegs(edgesDynamic) && neighborSet == RegSet(edgesDynamic)
      modifies this`neighborSet, this`edgesDynamic
      ensures DistinctRegs(edgesDynamic) && neighborSet == RegSet(edgesDynamic)
      ensures neighborSet == old(neighborSet) - {node.psudoReg}
      ensures forall n :: n in edgesDynamic ==> n in old(edgesDynamic)
    {
      var i := 0;
      while i < |edgesDynamic|
        invariant 0 <= i <= |edgesDynamic|
        invariant edgesDynamic == old(edgesDynamic) && neighborSet == old(neighborSet)
        invariant forall k :: 0 <= k < i ==> edgesDynamic[k].psudoReg != node.psudoReg
      {
        if node.psudoReg == edgesDynamic[i].psudoReg {
          RemoveReg(edgesDynamic, i);
          neighborSet := neighborSet - {node.psudoReg};
          edgesDynamic := edgesDynamic[..i] + edgesDynamic[i + 1..];
          return;
        }
        i := i + 1;
      }
    }

    /** Takes the node out of the dynamic graph, edge by edge from both ends. */
    method RemoveFromGraph(ghost pool: map<nat, InterfNode>)
      requires Linked(pool) && psudoReg in pool && pool[psudoReg] == this && Symmetric(Dyn(pool))
      modifies pool.Values
      ensures Linked(pool) && Dyn(pool) == Without(old(Dyn(pool)), psudoReg)
      ensures forall r :: r in pool ==> pool[r].reg == old(pool[r].reg) && pool[r].edgesStatic == old(pool[r].edgesStatic)
    {
      ghost var d0 := Dyn(pool);
      assert NodeOk(pool, psudoReg);
      NoneTaken(d0, psudoReg);
      while |edgesDynamic| > 0
        invariant Linked(pool)
        invariant Dyn(pool) == WithoutSome(d0, psudoReg, RegSet(edgesDynamic))
        invariant RegSet(edgesDynamic) <= d0[psudoReg]
        invariant forall r :: r in pool ==> pool[r].reg == old(pool[r].reg) && pool[r].edgesStatic == old(pool[r].edgesStatic)
        decreases |edgesDynamic|
      {
        RemoveFirstEdge(pool, d0);
      }
      assert RegSet(edgesDynamic) == {};
    }

    method RemoveFirstEdge(ghost pool: map<nat, InterfNode>, ghost d0: map<nat, set<nat>>)
      requires Linked(pool) && psudoReg in pool && pool[psudoReg] == this && Symmetric(d0) && d0.Keys == pool.Keys
      requires edgesDynamic != [] && RegSet(edgesDynamic) <= d0[psudoReg]
      requires Dyn(pool) == WithoutSome(d0, psudoReg, RegSet(edgesDynamic))
      modifies pool.Values
      ensures Linked(pool) && |edgesDynamic| == |old(edgesDynamic)| - 1
      ensures RegSet(edgesDynamic) <= d0[psudoReg]
      ensures Dyn(pool) == WithoutSome(d0, psudoReg, RegSet(edgesDynamic))
      ensures forall r :: r in pool ==> pool[r].reg == old(pool[r].reg) && pool[r].edgesStatic == old(pool[r].edgesStatic)
    {
      var x := edgesDynamic[0];
      assert NodeOk(pool, psudoReg) && x in edgesDynamic && x.psudoReg in RegSet(edgesDynamic);
      assert x != this && NodeOk(pool, x.psudoReg);
      hide WithoutSome, Symmetric;
      WithoutNext(d0, psudoReg, RegSet(edgesDynamic), x.psudoReg);
      CutLinkedEdge(pool, x);
    }

    /** The same, seen on the whole graph. */
    method CutLinkedEdge(ghost pool: map<nat, InterfNode>, x: InterfNode)
      requires Linked(pool) && psudoReg in pool && pool[psudoReg] == this && edgesDynamic != []
      requires x == edgesDynamic[0] && x != this && x.psudoReg in pool && pool[x.psudoReg] == x
      modifies pool.Values
      ensures Linked(pool) && |edgesDynamic| == |old(edgesDynamic)| - 1
      ensures RegSet(edgesDynamic) == old(RegSet(edgesDynamic)) - {x.psudoReg}
      ensures Dyn(pool) == old(Dyn(pool)[x.psudoReg := x.neighborSet - {psudoReg}])[psudoReg := RegSet(edgesDynamic)]
      ensures forall r :: r in pool ==> pool[r].reg == old(pool[r].reg) && pool[r].edgesStatic == old(pool[r].edgesStatic)
    {
      ghost var before := Dyn(pool);
      assert NodeOk(pool, psudoReg) && NodeOk(pool, x.psudoReg);
      RemoveReg(edgesDynamic, 0);
      assert edgesDynamic[..0] + edgesDynamic[1..] == edgesDynamic[1..];
      CutEdge(x);
      forall r | r in pool ensures pool[r].psudoReg == r && NodeOk(pool, r) { assert old(NodeOk(pool, r)); }
      assert NodeOk(pool, psudoReg);
      ghost var after := before[x.psudoReg := before[x.psudoReg] - {psudoReg}][psudoReg := RegSet(edgesDynamic)];
      forall r | r in pool ensures Dyn(pool)[r] == after[r] {
        assert pool[r] == x <==> r == x.psudoReg;
        assert pool[r] == this <==> r == psudoReg;
      }
      assert Dyn(pool) == before[x.psudoReg := before[x.psudoReg] - {psudoReg}][psudoReg := RegSet(edgesDynamic)];
    }

    /** The first dynamic edge goes from both ends. */
    method CutEdge(x: InterfNode)
      requires x != this && edgesDynamic != [] && x == edgesDynamic[0]
      requires DistinctRegs(x.edgesDynamic) && x.neighborSet == RegSet(x.edgesDynamic)
      modifies x`neighborSet, x`edgesDynamic, this`neighborSet, this`edgesDynamic
      ensures DistinctRegs(x.edgesDynamic) && x.neighborSet == RegSet(x.edgesDynamic)
      ensures x.neighborSet == old(x.neighborSet) - {psudoReg}
      ensures forall n :: n in x.edgesDynamic ==> n in old(x.edgesDynamic)
      ensures neighborSet == old(neighborSet) - {x.psudoReg} && edgesDynamic == old(edgesDynamic)[1..]
    {
      x.RemoveANeighbor(this);
      neighborSet := neighborSet - {edgesDynamic[0].psudoReg};
      edgesDynamic := edgesDynamic[1..];
    }

    /** The lowest register that no static neighbour has; `ok` is false when the source's assertion fires. */
    method AssignReg(rfSet: set<int>) returns (ok: bool)
      modifies this`reg
      ensures ok <==> rfSet - old(Used(edgesStatic)) != {}
      ensures !ok ==> reg == old(reg)
      ensures ok ==> reg in rfSet && forall c :: c in rfSet && c < reg ==> c in old(Used(edgesStatic))
      ensures ok ==> reg !in old(Used(edgesStatic))
    {
      var used: set<int> := {};
      var i := 0;
      while i < |edgesStatic|
        invariant 0 <= i <= |edgesStatic|
        invariant used == Used(edgesStatic[..i])
      {
        assert edgesStatic[..i + 1] == edgesStatic[..i] + [edgesStatic[i]];
        if edgesStatic[i].reg != -1 { used := used + {edgesStatic[i].reg}; }
        i := i + 1;
      }
      assert edgesStatic[..i] == edgesStatic;
      var unused := rfSet - used;
      assert forall c :: c in rfSet && c !in used ==> c in unused;
      ok := unused != {};
      if ok { reg := Least(unused); }
    }
  }

  // ----- The nodes of one graph -----

  ghost predicate Known(pool: map<nat, InterfNode>, s: seq<InterfNode>) {
    forall n :: n in s ==> n.psudoReg in pool && pool[n.psudoReg] == n
  }

  ghost predicate NodeOk(pool: map<nat, InterfNode>, r: nat)
    requires r in pool
    reads pool[r]
  {
    var n := pool[r];
    && n.psudoReg == r && Known(pool, n.edgesStatic) && Known(pool, n.edgesDynamic)
    && DistinctRegs(n.edgesStatic) && DistinctRegs(n.edgesDynamic) && n.neighborSet == RegSet(n.edgesDynamic)
  }

  ghost predicate Linked(pool: map<nat, InterfNode>)
    reads pool.Values
  {
    forall r :: r in pool ==> NodeOk(pool, r)
  }

  /** Neighbour sets of the dynamic graph. */
  ghost function Dyn(pool: map<nat, InterfNode>): (d: map<nat, set<nat>>)
    reads pool.Values
    ensures d.Keys == pool.Keys && forall r :: r in pool ==> d[r] == pool[r].neighborSet
  {
    map r | r in pool :: pool[r].neighborSet
  }

  /** Neighbour sets of the static graph. */
  ghost function Stat(pool: map<nat, InterfNode>): (d: map<nat, set<nat>>)
    reads pool.Values
    ensures d.Keys == pool.Keys && forall r :: r in pool ==> d[r] == RegSet(pool[r].edgesStatic)
  {
    map r | r in pool :: RegSet(pool[r].edgesStatic)
  }

  ghost function Assigned(pool: map<nat, InterfNode>): (m: map<nat, int>)
    reads pool.Values
    ensures m.Keys == pool.Keys && forall r :: r in pool ==> m[r] == pool[r].reg
  {
    map r | r in pool :: pool[r].reg
  }

  ghost predicate Symmetric(d: map<nat, set<nat>>) {
    forall a, b :: a in d && b in d[a] ==> a != b && b in d && a in d[b]
  }

  ghost function Without(d: map<nat, set<nat>>, a: nat): map<nat, set<nat>> {
    map r | r in d :: if r == a then {} else d[r] - {a}
  }

  /** Node `a` taken out, except for its edges to `left`. */
  ghost function WithoutSome(d: map<nat, set<nat>>, a: nat, left: set<nat>): map<nat, set<nat>> {
    map r | r in d :: if r == a then left else if r in left then d[r] else d[r] - {a}
  }

  lemma {:induction false} NoneTaken(d: map<nat, set<nat>>, a: nat)
    requires Symmetric(d) && a in d
    ensures WithoutSome(d, a, d[a]) == d && WithoutSome(d, a, {}) == Without(d, a)
  {
    var e := WithoutSome(d, a, d[a]);
    forall r | r in d ensures e[r] == d[r] {
      if r != a && r !in d[a] { assert a !in d[r]; }
    }
  }

  lemma {:induction false} WithoutNext(d: map<nat, set<nat>>, a: nat, left: set<nat>, x: nat)
    requires a in d && x in d && x in left && x != a
    ensures var e := WithoutSome(d, a, left);
            WithoutSome(d, a, left - {x}) == e[x := e[x] - {a}][a := left - {x}]
  {
  }

  /** Registers assigned to some nodes. */
  ghost function Used(s: seq<InterfNode>): set<int>
    reads s
  {
    set i | 0 <= i < |s| && s[i].reg != -1 :: s[i].reg
  }

  method Least(s: set<int>) returns (m: int)
    requires s != {}
    ensures m in s && forall c :: c in s ==> m <= c
  {
    m := AnyOf(s);
    var rest := s - {m};
    while rest != {}
      invariant rest <= s && m in s && forall c :: c in s && c !in rest ==> m <= c
      decreases rest
    {
      var c := AnyOf(rest);
      if c < m { m := c; }
      rest := rest - {c};
    }
  }

  lemma {:induction false} RemoveReg(s: seq<InterfNode>, i: nat)
    requires i < |s| && DistinctRegs(s)
    ensures var t := s[..i] + s[i + 1..]; DistinctRegs(t) && RegSet(t) == RegSet(s) - {s[i].psudoReg}
  {
    var t := s[..i] + s[i + 1..];
    forall r ensures r in RegSet(t) <==> r in RegSet(s) - {s[i].psudoReg} {
      if r in RegSet(s) && r != s[i].psudoReg {
        var k :| 0 <= k < |s| && s[k].psudoReg == r;
        assert t[if k < i then k else k - 1].psudoReg == r;
      }
      if r in RegSet(t) {
        var k :| 0 <= k < |t| && t[k].psudoReg == r;
        assert t[k] == s[if k < i then k else k + 1];
      }
    }
  }
}
