/** Register allocation of one connected part of the control-flow graph in GLOBAL mode
    (registerAllocate.cpp). */
module RegisterAllocate {
  import opened Allocation
  import opened Cfg
  import opened Collections
  import opened Coloring
  import opened InterfNodes
  import opened Interference
  import opened Liveness

  // ----- One instruction -----

  /** The graph with one more instruction. */
  lemma {:induction false} GraphGrows(p: seq<Code>, s: Sets, done: set<nat>, i: nat, d0: map<nat, set<nat>>, d1: map<nat, set<nat>>,
                                      d2: map<nat, set<nat>>, d3: map<nat, set<nat>>)
    requires IsGraph(p, s, done, d0) && i < |p|
    requires WithClique(d0, d1, s.outs[i]) && WithNodes(d1, d2, s.ins[i]) && WithClique(d2, d3, p[i].def)
    ensures IsGraph(p, s, done + {i}, d3)
  {
    forall r ensures r in d3 <==> exists j :: j in done + {i} && j < |p| && Occurs(p[j], s.ins[j], s.outs[j], r) {
      if Occurs(p[i], s.ins[i], s.outs[i], r) { assert i in done + {i}; }
      if j :| j in done && j < |p| && Occurs(p[j], s.ins[j], s.outs[j], r) { assert j in done + {i}; }
    }
    forall a, b | a in d3 ensures b in d3[a] <==> Interferes(p, s, done + {i}, a, b) {
      OneMoreInterferes(p, s, done, i, a, b);
      if Interferes(p, s, done, a, b) { InterferesIsNode(p, s, done, d0, a, b); }
      assert a in d0 ==> (b in d0[a] <==> Interferes(p, s, done, a, b));
      assert a in d1 ==> (b in d1[a] <==> (a in d0 && b in d0[a]) || (a in s.outs[i] && b in s.outs[i] && a != b));
      assert a in d2 ==> (b in d2[a] <==> a in d1 && b in d1[a]);
    }
  }

  lemma {:induction false} OneMoreInterferes(p: seq<Code>, s: Sets, done: set<nat>, i: nat, a: nat, b: nat)
    requires i < |p| && |s.outs| == |p|
    ensures Interferes(p, s, done + {i}, a, b) <==>
              Interferes(p, s, done, a, b) || (a != b && Together(p[i].def, s.outs[i], a, b))
  {
    if a != b && Together(p[i].def, s.outs[i], a, b) { assert i in done + {i}; }
    if Interferes(p, s, done, a, b) {
      var j :| j in done && j < |p| && j < |s.outs| && Together(p[j].def, s.outs[j], a, b);
      assert j in done + {i};
    }
  }

  lemma {:induction false} InterferesIsNode(p: seq<Code>, s: Sets, done: set<nat>, d: map<nat, set<nat>>, a: nat, b: nat)
    requires IsGraph(p, s, done, d) && Interferes(p, s, done, a, b)
    ensures a in d
  {
    var j :| j in done && j < |p| && j < |s.outs| && Together(p[j].def, s.outs[j], a, b);
    assert Occurs(p[j], s.ins[j], s.outs[j], a);
  }

  /** `ok` is false when the source's size assertion fires. */
  method AddInstruction(nodes0: map<nat, InterfNode>, ins: Instruction) returns (nodes: map<nat, InterfNode>, ok: bool)
    requires Built(nodes0)
    modifies nodes0.Values
    ensures ok <==> |ins.outSet| <= GRF_SIZE
    ensures Built(nodes) && fresh(nodes.Values - nodes0.Values)
    ensures ok ==> exists d1, d2 :: WithClique(old(Stat(nodes0)), d1, ins.outSet) && WithNodes(d1, d2, ins.inSet)
                                 && WithClique(d2, Stat(nodes), ins.code.def)
  {
    hide Built, WithClique, WithNodes;
    nodes, ok := nodes0, |ins.outSet| <= GRF_SIZE;
    if !ok { return; }
    nodes := AddClique(nodes, ins.outSet);
    ghost var d1 := Stat(nodes);
    nodes := AddNodes(nodes, ins.inSet);
    ghost var d2 := Stat(nodes);
    nodes := AddClique(nodes, ins.code.def);
  }

  // ----- The blocks -----

  ghost function Lists(blocks: seq<Block>): (l: seq<seq<nat>>)
    ensures |l| == |blocks| && forall b :: 0 <= b < |blocks| ==> l[b] == blocks[b].insList
  {
    seq(|blocks|, b requires 0 <= b < |blocks| => blocks[b].insList)
  }

  /** The instructions of some blocks. */
  ghost function InsOf(lists: seq<seq<nat>>, v: set<nat>): set<nat> {
    set b, i | b in v && b < |lists| && i in lists[b] :: i
  }

  ghost function Visited(blocks: seq<Block>): (v: set<nat>)
    reads blocks
    ensures forall b :: b in v <==> 0 <= b < |blocks| && blocks[b].visited
  {
    set b: nat | b < |blocks| && blocks[b].visited
  }

  ghost function Allocated(blocks: seq<Block>): (v: set<nat>)
    reads blocks
    ensures forall b :: b in v <==> 0 <= b < |blocks| && blocks[b].regAllocated
  {
    set b: nat | b < |blocks| && blocks[b].regAllocated
  }

  ghost predicate Layout(g: Graph, blocks: seq<Block>, insts: seq<Instruction>) {
    && g.Valid() && |blocks| == |g.pred|
    && NoDup(blocks)
    && (forall b, k :: 0 <= b < |blocks| && 0 <= k < |blocks[b].insList| ==> blocks[b].insList[k] < |insts|)
  }

  /** Nothing is visited that some set closed under neighbours around `starts` leaves out. */
  ghost predicate OnlyFrom(g: Graph, starts: set<nat>, v0: set<nat>, v: set<nat>) {
    forall c: set<nat> {:trigger AllAround(g, c)} :: AllAround(g, c) && starts <= c ==> v <= v0 + c
  }

  ghost predicate AllAround(g: Graph, v: set<nat>) {
    forall x :: x in v ==> Around(g, x, v)
  }

  /** All neighbours of a block are in `v`. */
  ghost predicate Around(g: Graph, x: nat, v: set<nat>) {
    x < |g.succ| && x < |g.pred| && (forall y :: y in g.succ[x] ==> y in v) && (forall y :: y in g.pred[x] ==> y in v)
  }

  /** The blocks visited since `v0`, except for `open`, have all their neighbours visited. */
  ghost predicate ClosedSince(g: Graph, v0: set<nat>, v: set<nat>) {
    v0 <= v && forall x :: x in v && x !in v0 ==> Around(g, x, v)
  }

  /** The instructions of one block. */
  method AddBlock(blocks: seq<Block>, insts: seq<Instruction>, b: nat, nodes0: map<nat, InterfNode>, ghost done: set<nat>)
    returns (nodes: map<nat, InterfNode>, ok: bool)
    requires b < |blocks| && forall k :: 0 <= k < |blocks[b].insList| ==> blocks[b].insList[k] < |insts|
    requires Built(nodes0) && IsGraph(Program(insts), SetsOf(insts), done, Stat(nodes0))
    modifies nodes0.Values
    ensures Built(nodes) && fresh(nodes.Values - nodes0.Values)
    ensures ok ==> IsGraph(Program(insts), SetsOf(insts), done + (set i | i in blocks[b].insList), Stat(nodes))
    ensures (forall i :: i in blocks[b].insList ==> |insts[i].outSet| <= GRF_SIZE) ==> ok
  {
    hide Built, IsGraph, Stat;
    nodes, ok := nodes0, true;
    var list := blocks[b].insList;
    var k := 0;
    ghost var now := done;
    while k < |list|
      invariant 0 <= k <= |list| && ok
      invariant Built(nodes) && fresh(nodes.Values - nodes0.Values)
      invariant IsGraph(Program(insts), SetsOf(insts), now, Stat(nodes))
      invariant forall i :: i in now <==> i in done || i in list[..k]
    {
      assert list[k] in list && list[..k + 1] == list[..k] + [list[k]];
      nodes, ok := AddToGraph(nodes, insts, list[k], now);
      if !ok { return; }
      now := now + {list[k]};
      k := k + 1;
    }
    assert list[..k] == list;
    assert now == done + (set i | i in list);
  }

  method AddToGraph(nodes0: map<nat, InterfNode>, insts: seq<Instruction>, i: nat, ghost done: set<nat>)
    returns (nodes: map<nat, InterfNode>, ok: bool)
    requires i < |insts| && Built(nodes0) && IsGraph(Program(insts), SetsOf(insts), done, Stat(nodes0))
    modifies nodes0.Values
    ensures Built(nodes) && fresh(nodes.Values - nodes0.Values)
    ensures ok <==> |insts[i].outSet| <= GRF_SIZE
    ensures ok ==> IsGraph(Program(insts), SetsOf(insts), done + {i}, Stat(nodes))
  {
    hide Built, IsGraph, Stat, WithClique, WithNodes;
    ghost var d0 := Stat(nodes0);
    nodes, ok := AddInstruction(nodes0, insts[i]);
    if ok {
      ghost var p, s := Program(insts), SetsOf(insts);
      ghost var d1, d2 :| WithClique(d0, d1, insts[i].outSet) && WithNodes(d1, d2, insts[i].inSet)
                          && WithClique(d2, Stat(nodes), insts[i].code.def);
      GraphGrows(p, s, done, i, d0, d1, d2, Stat(nodes));
    }
  }

  ghost predicate SmallSets(insts: seq<Instruction>)
    reads insts
  {
    forall i :: 0 <= i < |insts| ==> |insts[i].outSet| <= GRF_SIZE
  }

  /** The graph of the instructions of the visited blocks. */
  ghost predicate GraphOf(blocks: seq<Block>, insts: seq<Instruction>, v: set<nat>, stat: map<nat, set<nat>>)
    reads insts
  {
    IsGraph(Program(insts), SetsOf(insts), InsOf(Lists(blocks), v), stat)
  }

  /** The graph under construction covers the blocks visited so far. */
  ghost predicate Building(g: Graph, blocks: seq<Block>, insts: seq<Instruction>, nodes: map<nat, InterfNode>)
    reads blocks, insts, nodes.Values
  {
    Layout(g, blocks, insts) && Built(nodes) && GraphOf(blocks, insts, Visited(blocks), Stat(nodes))
  }

  lemma {:induction false} InsOfMore(lists: seq<seq<nat>>, v: set<nat>, b: nat)
    requires b < |lists|
    ensures InsOf(lists, v + {b}) == InsOf(lists, v) + (set i | i in lists[b])
  {
  }

  /** make_interference_nodes_network: visits every block that is connected to `b` through blocks not yet
      visited, along edges in both directions. */
  method MakeInterference(g: Graph, blocks: seq<Block>, insts: seq<Instruction>, b: nat, nodes0: map<nat, InterfNode>)
    returns (nodes: map<nat, InterfNode>, ok: bool)
    requires Building(g, blocks, insts, nodes0) && b < |blocks| && |blocks| == |g.pred| == |g.succ|
    modifies blocks, nodes0.Values
    ensures fresh(nodes.Values - nodes0.Values)
    ensures ok ==> Building(g, blocks, insts, nodes)
    ensures ok ==> b in Visited(blocks) && ClosedSince(g, old(Visited(blocks)), Visited(blocks))
    ensures ok ==> OnlyFrom(g, {b}, old(Visited(blocks)), Visited(blocks))
    ensures SmallSets(insts) == old(SmallSets(insts)) && Allocated(blocks) == old(Allocated(blocks))
    ensures old(SmallSets(insts)) ==> ok
    decreases |blocks| - |Visited(blocks)|, 1
  {
    hide Building, Visited, Allocated, ClosedSince, SmallSets, OnlyFrom;
    nodes, ok := nodes0, true;
    if blocks[b].visited {
      NothingNew(g, Visited(blocks));
      StartOnly(g, {b}, Visited(blocks));
      return;
    }
    ghost var v0 := Visited(blocks);
    nodes, ok := MarkBlock(g, blocks, insts, b, nodes);
    if !ok { return; }
    NothingNew(g, v0 + {b});
    VisitedFits(blocks);
    nodes, ok := VisitAll(g, blocks, insts, g.succ[b], nodes, v0 + {b});
    if !ok { return; }
    ghost var v1 := Visited(blocks);
    VisitedFits(blocks);
    SubsetSmaller(v0 + {b}, v1);
    nodes, ok := VisitAll(g, blocks, insts, g.pred[b], nodes, v0 + {b});
    if ok {
      BlockClosed(g, v0, b, v1, Visited(blocks));
      NeighboursOnly(g, b, v0, v1, Visited(blocks));
    }
  }

  lemma {:induction false} StartOnly(g: Graph, starts: set<nat>, v: set<nat>)
    ensures OnlyFrom(g, starts, v, v)
  {
  }

  lemma {:induction false} NeighboursOnly(g: Graph, b: nat, v0: set<nat>, v1: set<nat>, v2: set<nat>)
    requires b < |g.succ| && b < |g.pred|
    requires OnlyFrom(g, Members(g.succ[b]), v0 + {b}, v1) && OnlyFrom(g, Members(g.pred[b]), v1, v2)
    ensures OnlyFrom(g, {b}, v0, v2)
  {
    forall c: set<nat> | AllAround(g, c) && {b} <= c ensures v2 <= v0 + c {
      assert b in c && Around(g, b, c);
      assert v1 <= v0 + {b} + c && v2 <= v1 + c;
    }
  }

  lemma {:induction false} OneMoreOnly(g: Graph, list: seq<nat>, i: nat, v0: set<nat>, v1: set<nat>, v2: set<nat>)
    requires i < |list| && OnlyFrom(g, Members(list[..i]), v0, v1) && OnlyFrom(g, {list[i]}, v1, v2)
    ensures OnlyFrom(g, Members(list[..i + 1]), v0, v2)
  {
    assert list[..i + 1] == list[..i] + [list[i]];
    forall c: set<nat> | AllAround(g, c) && Members(list[..i + 1]) <= c ensures v2 <= v0 + c {
      assert Members(list[..i]) <= Members(list[..i + 1]) && list[i] in Members(list[..i + 1]);
      assert v1 <= v0 + c && v2 <= v1 + c;
    }
  }

  ghost function Members(list: seq<nat>): set<nat> {
    set y | y in list
  }

  lemma {:induction false} NothingNew(g: Graph, v: set<nat>)
    ensures ClosedSince(g, v, v)
  {
  }

  /** The instructions of one more block enter the graph. */
  method GrowGraph(blocks: seq<Block>, insts: seq<Instruction>, b: nat, nodes0: map<nat, InterfNode>, ghost v: set<nat>)
    returns (nodes: map<nat, InterfNode>, ok: bool)
    requires b < |blocks| && forall k :: 0 <= k < |blocks[b].insList| ==> blocks[b].insList[k] < |insts|
    requires Built(nodes0) && GraphOf(blocks, insts, v, Stat(nodes0))
    modifies nodes0.Values
    ensures fresh(nodes.Values - nodes0.Values) && Built(nodes)
    ensures ok ==> GraphOf(blocks, insts, v + {b}, Stat(nodes))
    ensures SmallSets(insts) == old(SmallSets(insts))
    ensures old(SmallSets(insts)) ==> ok
  {
    hide Built, IsGraph, Stat;
    InsOfMore(Lists(blocks), v, b);
    nodes, ok := AddBlock(blocks, insts, b, nodes0, InsOf(Lists(blocks), v));
  }

  /** The block is marked and its instructions enter the graph. */
  method MarkBlock(g: Graph, blocks: seq<Block>, insts: seq<Instruction>, b: nat, nodes0: map<nat, InterfNode>)
    returns (nodes: map<nat, InterfNode>, ok: bool)
    requires Building(g, blocks, insts, nodes0) && b < |blocks| && !blocks[b].visited
    modifies blocks, nodes0.Values
    ensures forall y :: y in g.succ[b] || y in g.pred[b] ==> y < |blocks|
    ensures Visited(blocks) == old(Visited(blocks)) + {b} && |Visited(blocks)| == |old(Visited(blocks))| + 1
    ensures fresh(nodes.Values - nodes0.Values)
    ensures ok ==> Building(g, blocks, insts, nodes)
    ensures SmallSets(insts) == old(SmallSets(insts)) && Allocated(blocks) == old(Allocated(blocks))
    ensures old(SmallSets(insts)) ==> ok
  {
    ghost var v0 := Visited(blocks);
    hide Built, Stat, GraphOf, Visited, Allocated, SmallSets;
    MarkVisited(blocks, b);
    nodes, ok := GrowGraph(blocks, insts, b, nodes0, v0);
  }

  method MarkVisited(blocks: seq<Block>, b: nat)
    requires b < |blocks| && !blocks[b].visited && NoDup(blocks)
    modifies blocks[b]
    ensures Visited(blocks) == old(Visited(blocks)) + {b} && |Visited(blocks)| == |old(Visited(blocks))| + 1
    ensures Allocated(blocks) == old(Allocated(blocks))
  {
    ghost var v0 := Visited(blocks);
    blocks[b].visited := true;
    assert Visited(blocks) == v0 + {b};
  }

  lemma {:induction false} VisitedFits(blocks: seq<Block>)
    ensures |Visited(blocks)| <= |blocks|
  {
    SubsetSmaller(Visited(blocks), Indices(|blocks|));
  }

  lemma {:induction false} BlockClosed(g: Graph, v0: set<nat>, b: nat, v1: set<nat>, v2: set<nat>)
    requires b < |g.succ| && b < |g.pred| && ClosedSince(g, v0 + {b}, v1) && ClosedSince(g, v0 + {b}, v2) && v1 <= v2
    requires (forall y :: y in g.succ[b] ==> y in v1) && (forall y :: y in g.pred[b] ==> y in v2)
    ensures ClosedSince(g, v0, v2)
  {
    assert Around(g, b, v2);
  }

  lemma {:induction false} ClosedLater(g: Graph, v0: set<nat>, v1: set<nat>, v2: set<nat>)
    requires ClosedSince(g, v0, v1) && ClosedSince(g, v1, v2)
    ensures ClosedSince(g, v0, v2)
  {
    forall x | x in v2 && x !in v0 ensures Around(g, x, v2) {
      if x in v1 { assert Around(g, x, v1); }
    }
  }

  lemma {:induction false} ClosedGrows(g: Graph, v0: set<nat>, v1: set<nat>)
    requires ClosedSince(g, v0, v1)
    ensures v0 <= v1
  {
  }

  /** The loop over one list of neighbours. */
  method VisitAll(g: Graph, blocks: seq<Block>, insts: seq<Instruction>, list: seq<nat>,
                  nodes0: map<nat, InterfNode>, ghost v0: set<nat>)
    returns (nodes: map<nat, InterfNode>, ok: bool)
    requires Building(g, blocks, insts, nodes0) && |blocks| == |g.pred| == |g.succ| && forall y :: y in list ==> y < |blocks|
    requires ClosedSince(g, v0, Visited(blocks))
    modifies blocks, nodes0.Values
    ensures fresh(nodes.Values - nodes0.Values)
    ensures ok ==> Building(g, blocks, insts, nodes)
    ensures ok ==> old(Visited(blocks)) <= Visited(blocks) && ClosedSince(g, v0, Visited(blocks))
    ensures ok ==> forall y :: y in list ==> y in Visited(blocks)
    ensures ok ==> OnlyFrom(g, Members(list), old(Visited(blocks)), Visited(blocks))
    ensures SmallSets(insts) == old(SmallSets(insts)) && Allocated(blocks) == old(Allocated(blocks))
    ensures old(SmallSets(insts)) ==> ok
    decreases |blocks| - |Visited(blocks)|, 2
  {
    hide Building, Visited, Allocated, ClosedSince, SmallSets, OnlyFrom;
    nodes, ok := nodes0, true;
    StartOnly(g, Members(list[..0]), Visited(blocks));
    var i := 0;
    while i < |list|
      invariant 0 <= i <= |list| && ok
      invariant fresh(nodes.Values - nodes0.Values) && Building(g, blocks, insts, nodes)
      invariant old(Visited(blocks)) <= Visited(blocks) && ClosedSince(g, v0, Visited(blocks))
      invariant forall y :: y in list[..i] ==> y in Visited(blocks)
      invariant OnlyFrom(g, Members(list[..i]), old(Visited(blocks)), Visited(blocks))
      invariant |old(Visited(blocks))| <= |Visited(blocks)| && SmallSets(insts) == old(SmallSets(insts))
      invariant Allocated(blocks) == old(Allocated(blocks))
    {
      assert list[i] in list && list[..i + 1] == list[..i] + [list[i]];
      ghost var v1 := Visited(blocks);
      VisitedFits(blocks);
      nodes, ok := MakeInterference(g, blocks, insts, list[i], nodes);
      if !ok { return; }
      OneMoreOnly(g, list, i, old(Visited(blocks)), v1, Visited(blocks));
      ClosedLater(g, v0, v1, Visited(blocks));
      ClosedGrows(g, v1, Visited(blocks));
      SubsetSmaller(v1, Visited(blocks));
      i := i + 1;
    }
    assert list[..i] == list;
  }

  // ----- Operands get their registers -----

  ghost function Replaced(operands: seq<nat>, reg: map<nat, int>): seq<int> {
    seq(|operands|, k requires 0 <= k < |operands| => if operands[k] in reg then reg[operands[k]] else -1)
  }

  ghost function Archs(insts: seq<Instruction>): (a: seq<seq<int>>)
    reads insts
    ensures |a| == |insts| && forall i :: 0 <= i < |insts| ==> a[i] == insts[i].archRegs
  {
    seq(|insts|, i requires 0 <= i < |insts| reads insts => insts[i].archRegs)
  }

  ghost function Operands(insts: seq<Instruction>): (a: seq<seq<nat>>)
    ensures |a| == |insts| && forall i :: 0 <= i < |insts| ==> a[i] == insts[i].operands
  {
    seq(|insts|, i requires 0 <= i < |insts| => insts[i].operands)
  }

  /** An instruction of an allocated block has its registers, any other has none yet. */
  ghost predicate ArchState(lists: seq<seq<nat>>, alloc: set<nat>, archs: seq<seq<int>>, ops: seq<seq<nat>>, reg: map<nat, int>) {
    && |archs| == |ops|
    && forall b, i :: 0 <= b < |lists| && i in lists[b] && i < |archs| ==>
         archs[i] == if b in alloc then Replaced(ops[i], reg) else []
  }

  lemma {:induction false} NextArchState(lists: seq<seq<nat>>, alloc: set<nat>, archs0: seq<seq<int>>, archs: seq<seq<int>>,
                                         ops: seq<seq<nat>>, reg: map<nat, int>, b: nat)
    requires ArchState(lists, alloc, archs0, ops, reg) && b < |lists| && |archs| == |archs0|
    requires forall c, i :: 0 <= c < |lists| && i in lists[c] && i in lists[b] ==> c == b
    requires forall i :: i in lists[b] && i < |archs| ==> archs[i] == Replaced(ops[i], reg)
    requires forall i :: 0 <= i < |archs| && i !in lists[b] ==> archs[i] == archs0[i]
    ensures ArchState(lists, alloc + {b}, archs, ops, reg)
  {
  }

  /** What the assertions of set_arch_reg_for_all_ins need in the blocks of `v`. */
  ghost predicate OperandsKnown(blocks: seq<Block>, insts: seq<Instruction>, v: set<nat>, reg: map<nat, int>) {
    forall b, i, r :: b in v && b < |blocks| && i in blocks[b].insList && i < |insts| && r in insts[i].operands ==>
      r in reg && GRF_LO <= reg[r] <= GRF_HI
  }

  method SetArchRegs(ins: Instruction, nodes: map<nat, InterfNode>)
    requires ins.archRegs == []
    requires forall r :: r in ins.operands ==> r in nodes && GRF_LO <= nodes[r].reg <= GRF_HI
    modifies ins`archRegs
    ensures ins.archRegs == Replaced(ins.operands, Assigned(nodes))
  {
    var j := 0;
    while j < |ins.operands|
      invariant 0 <= j <= |ins.operands| && |ins.archRegs| == j
      invariant forall k :: 0 <= k < j ==> ins.archRegs[k] == Replaced(ins.operands, Assigned(nodes))[k]
    {
      assert ins.operands[j] in ins.operands;
      ins.archRegs := ins.archRegs + [nodes[ins.operands[j]].reg];
      j := j + 1;
    }
  }

  /** The instructions of one block. */
  method SetBlock(list: seq<nat>, insts: seq<Instruction>, nodes: map<nat, InterfNode>)
    requires NoDup(insts) && NoDup(list) && forall k :: 0 <= k < |list| ==> list[k] < |insts|
    requires forall i :: i in list ==> insts[i].archRegs == []
    requires forall i, r :: i in list && r in insts[i].operands ==> r in nodes && GRF_LO <= nodes[r].reg <= GRF_HI
    modifies Instructions(insts, list)
    ensures SetsOf(insts) == old(SetsOf(insts))
    ensures forall i :: i in list ==> insts[i].archRegs == Replaced(insts[i].operands, Assigned(nodes))
    ensures forall i :: 0 <= i < |insts| && i !in list ==> insts[i].archRegs == old(insts[i].archRegs)
  {
    ghost var s := SetsOf(insts);
    var k := 0;
    while k < |list|
      invariant 0 <= k <= |list|
      invariant forall i :: 0 <= i < |insts| ==> insts[i].inSet == s.ins[i] && insts[i].outSet == s.outs[i]
      invariant forall l :: 0 <= l < k ==> insts[list[l]].archRegs == Replaced(insts[list[l]].operands, Assigned(nodes))
      invariant forall l :: k <= l < |list| ==> insts[list[l]].archRegs == []
      invariant forall i :: 0 <= i < |insts| && i !in list ==> insts[i].archRegs == old(insts[i].archRegs)
    {
      assert list[k] in list && insts[list[k]] in Instructions(insts, list);
      SetArchRegs(insts[list[k]], nodes);
      k := k + 1;
    }
    assert SetsOf(insts).ins == s.ins && SetsOf(insts).outs == s.outs;
  }

  /** The lists of the blocks share no instruction and repeat none. */
  ghost predicate Apart(lists: seq<seq<nat>>, n: nat) {
    && (forall b :: 0 <= b < |lists| ==> NoDup(lists[b]))
    && (forall b, c, i :: 0 <= b < |lists| && 0 <= c < |lists| && i in lists[b] && i in lists[c] ==> b == c)
    && (forall b, i :: 0 <= b < |lists| && i in lists[b] ==> i < n)
  }

  method MarkAllocated(blocks: seq<Block>, b: nat, ghost insts: seq<Instruction>)
    requires b < |blocks| && !blocks[b].regAllocated && NoDup(blocks)
    modifies blocks[b]
    ensures Allocated(blocks) == old(Allocated(blocks)) + {b} && |Allocated(blocks)| == |old(Allocated(blocks))| + 1
    ensures Visited(blocks) == old(Visited(blocks))
    ensures SetsOf(insts) == old(SetsOf(insts)) && Archs(insts) == old(Archs(insts))
  {
    ghost var a0 := Allocated(blocks);
    blocks[b].regAllocated := true;
    assert Allocated(blocks) == a0 + {b};
  }

  lemma {:induction false} NotAllocatedYet(blocks: seq<Block>, b: nat)
    requires b < |blocks| && !blocks[b].regAllocated
    ensures b !in Allocated(blocks)
  {
  }

  /** A block that has not been allocated gets its registers. */
  method AllocateBlock(blocks: seq<Block>, insts: seq<Instruction>, b: nat, nodes: map<nat, InterfNode>)
    requires NoDup(insts) && Apart(Lists(blocks), |insts|) && b < |blocks| && !blocks[b].regAllocated
    requires NoDup(blocks)
    requires ArchState(Lists(blocks), Allocated(blocks), Archs(insts), Operands(insts), Assigned(nodes))
    requires OperandsKnown(blocks, insts, {b}, Assigned(nodes))
    modifies blocks, insts
    ensures ArchState(Lists(blocks), Allocated(blocks), Archs(insts), Operands(insts), Assigned(nodes))
    ensures Allocated(blocks) == old(Allocated(blocks)) + {b} && |Allocated(blocks)| == |old(Allocated(blocks))| + 1
    ensures SetsOf(insts) == old(SetsOf(insts)) && Visited(blocks) == old(Visited(blocks))
  {
    NotAllocatedYet(blocks, b);
    hide Visited, Allocated, SetsOf, Apart, NoDup, OperandsKnown, ArchState, Lists, Archs, Operands, Assigned;
    SetOperands(blocks, insts, b, nodes, Allocated(blocks));
    MarkAllocated(blocks, b, insts);
  }

  /** The instructions of a list, while the blocks and nodes stay as they are. */
  method SetListed(blocks: seq<Block>, list: seq<nat>, insts: seq<Instruction>, nodes: map<nat, InterfNode>)
    requires NoDup(insts) && NoDup(list) && forall k :: 0 <= k < |list| ==> list[k] < |insts|
    requires forall i :: i in list ==> insts[i].archRegs == []
    requires forall i, r :: i in list && r in insts[i].operands ==> r in nodes && GRF_LO <= nodes[r].reg <= GRF_HI
    modifies Instructions(insts, list)
    ensures SetsOf(insts) == old(SetsOf(insts)) && Assigned(nodes) == old(Assigned(nodes))
    ensures Allocated(blocks) == old(Allocated(blocks)) && Visited(blocks) == old(Visited(blocks))
    ensures forall i :: i in list ==> insts[i].archRegs == Replaced(insts[i].operands, Assigned(nodes))
    ensures forall i :: 0 <= i < |insts| && i !in list ==> insts[i].archRegs == old(insts[i].archRegs)
  {
    hide NoDup, SetsOf, Assigned, Allocated, Visited;
    SetBlock(list, insts, nodes);
  }

  /** The operands of one block, with the state that they lead to. */
  method SetOperands(blocks: seq<Block>, insts: seq<Instruction>, b: nat, nodes: map<nat, InterfNode>, ghost alloc: set<nat>)
    requires NoDup(insts) && Apart(Lists(blocks), |insts|) && b < |blocks| && b !in alloc
    requires ArchState(Lists(blocks), alloc, Archs(insts), Operands(insts), Assigned(nodes))
    requires OperandsKnown(blocks, insts, {b}, Assigned(nodes))
    modifies insts
    ensures ArchState(Lists(blocks), alloc + {b}, Archs(insts), Operands(insts), Assigned(nodes))
    ensures SetsOf(insts) == old(SetsOf(insts)) && Assigned(nodes) == old(Assigned(nodes))
    ensures Allocated(blocks) == old(Allocated(blocks)) && Visited(blocks) == old(Visited(blocks))
  {
    ghost var archs0 := Archs(insts);
    var list := blocks[b].insList;
    assert list == Lists(blocks)[b];
    assert forall k :: 0 <= k < |list| ==> list[k] in list;
    hide ArchState, SetsOf, Allocated, Visited, NoDup;
    assert forall i :: i in list ==> archs0[i] == [] by { PendingEmpty(Lists(blocks), alloc, archs0, Operands(insts), Assigned(nodes), b); }
    SetListed(blocks, list, insts, nodes);
    NextArchState(Lists(blocks), alloc, archs0, Archs(insts), Operands(insts), Assigned(nodes), b);
  }

  lemma {:induction false} PendingEmpty(lists: seq<seq<nat>>, alloc: set<nat>, archs: seq<seq<int>>, ops: seq<seq<nat>>,
                                        reg: map<nat, int>, b: nat)
    requires ArchState(lists, alloc, archs, ops, reg) && Apart(lists, |archs|) && b < |lists| && b !in alloc
    ensures forall i :: i in lists[b] ==> i < |archs| && archs[i] == []
  {
  }

  lemma {:induction false} AllocatedFits(blocks: seq<Block>)
    ensures |Allocated(blocks)| <= |blocks|
  {
    SubsetSmaller(Allocated(blocks), Indices(|blocks|));
  }

  lemma {:induction false} InRegion(g: Graph, blocks: seq<Block>, insts: seq<Instruction>, b: nat, v: set<nat>, reg: map<nat, int>)
    requires Layout(g, blocks, insts) && AllAround(g, v) && OperandsKnown(blocks, insts, v, reg) && b in v && b < |blocks|
    ensures OperandsKnown(blocks, insts, {b}, reg)
    ensures forall y :: y in g.succ[b] ==> y in v && y < |blocks|
    ensures forall y :: y in g.pred[b] ==> y in v && y < |blocks|
  {
    assert Around(g, b, v);
  }

  /** The operands of the allocated blocks are replaced, and the blocks of `v` can be. */
  ghost predicate Filling(g: Graph, blocks: seq<Block>, insts: seq<Instruction>, nodes: map<nat, InterfNode>, v: set<nat>)
    reads blocks, insts, nodes.Values
  {
    && Layout(g, blocks, insts) && NoDup(insts) && Apart(Lists(blocks), |insts|)
    && AllAround(g, v) && OperandsKnown(blocks, insts, v, Assigned(nodes))
    && ArchState(Lists(blocks), Allocated(blocks), Archs(insts), Operands(insts), Assigned(nodes))
  }

  method FillBlock(g: Graph, blocks: seq<Block>, insts: seq<Instruction>, b: nat, nodes: map<nat, InterfNode>, ghost v: set<nat>)
    requires Filling(g, blocks, insts, nodes, v) && b in v && b < |blocks| && !blocks[b].regAllocated
    modifies blocks, insts
    ensures Filling(g, blocks, insts, nodes, v)
    ensures Allocated(blocks) == old(Allocated(blocks)) + {b} && |Allocated(blocks)| == |old(Allocated(blocks))| + 1
    ensures SetsOf(insts) == old(SetsOf(insts)) && Visited(blocks) == old(Visited(blocks))
  {
    InRegion(g, blocks, insts, b, v, Assigned(nodes));
    hide ArchState, Visited, Allocated, SetsOf, NoDup, Apart, AllAround;
    AllocateBlock(blocks, insts, b, nodes);
  }

  lemma {:induction false} FillingInside(g: Graph, blocks: seq<Block>, insts: seq<Instruction>, b: nat, nodes: map<nat, InterfNode>, v: set<nat>)
    requires Filling(g, blocks, insts, nodes, v) && b in v && b < |blocks|
    ensures b < |g.succ| && b < |g.pred|
    ensures forall y :: y in g.succ[b] ==> y in v && y < |blocks|
    ensures forall y :: y in g.pred[b] ==> y in v && y < |blocks|
  {
    hide ArchState, NoDup, Apart;
    InRegion(g, blocks, insts, b, v, Assigned(nodes));
  }

  /** set_arch_reg_for_all_ins: the same traversal, which stays in the visited blocks `v`. */
  method SetArchReg(g: Graph, blocks: seq<Block>, insts: seq<Instruction>, b: nat, nodes: map<nat, InterfNode>, ghost v: set<nat>)
    requires Filling(g, blocks, insts, nodes, v) && b in v && b < |blocks|
    modifies blocks, insts
    ensures Filling(g, blocks, insts, nodes, v)
    ensures b in Allocated(blocks) && ClosedSince(g, old(Allocated(blocks)), Allocated(blocks))
    ensures SetsOf(insts) == old(SetsOf(insts)) && Visited(blocks) == old(Visited(blocks))
    decreases |blocks| - |Allocated(blocks)|, 1
  {
    FillingInside(g, blocks, insts, b, nodes, v);
    hide Filling, Visited, Allocated, SetsOf, ClosedSince;
    if blocks[b].regAllocated {
      AllocatedAlready(blocks, b);
      NothingNew(g, Allocated(blocks));
      return;
    }
    ghost var a0 := Allocated(blocks);
    FillBlock(g, blocks, insts, b, nodes, v);
    NothingNew(g, a0 + {b});
    AllocatedFits(blocks);
    SetArchRegAll(g, blocks, insts, g.succ[b], nodes, v, a0 + {b});
    ghost var a1 := Allocated(blocks);
    ClosedGrows(g, a0 + {b}, a1);
    AllocatedFits(blocks);
    SubsetSmaller(a0 + {b}, a1);
    SetArchRegAll(g, blocks, insts, g.pred[b], nodes, v, a0 + {b});
    BlockClosed(g, a0, b, a1, Allocated(blocks));
    assert b in Allocated(blocks) by { ClosedGrows(g, a0 + {b}, Allocated(blocks)); }
  }

  lemma {:induction false} AllocatedAlready(blocks: seq<Block>, b: nat)
    requires b < |blocks| && blocks[b].regAllocated
    ensures b in Allocated(blocks)
  {
  }

  method SetArchRegAll(g: Graph, blocks: seq<Block>, insts: seq<Instruction>, list: seq<nat>, nodes: map<nat, InterfNode>,
                       ghost v: set<nat>, ghost a0: set<nat>)
    requires Filling(g, blocks, insts, nodes, v)
    requires forall y :: y in list ==> y in v && y < |blocks|
    requires ClosedSince(g, a0, Allocated(blocks))
    modifies blocks, insts
    ensures Filling(g, blocks, insts, nodes, v)
    ensures old(Allocated(blocks)) <= Allocated(blocks) && ClosedSince(g, a0, Allocated(blocks))
    ensures forall y :: y in list ==> y in Allocated(blocks)
    ensures SetsOf(insts) == old(SetsOf(insts)) && Visited(blocks) == old(Visited(blocks))
    decreases |blocks| - |Allocated(blocks)|, 2
  {
    hide Filling, Visited, Allocated, SetsOf, ClosedSince;
    var i := 0;
    while i < |list|
      invariant 0 <= i <= |list|
      invariant Filling(g, blocks, insts, nodes, v)
      invariant old(Allocated(blocks)) <= Allocated(blocks) && ClosedSince(g, a0, Allocated(blocks))
      invariant forall y :: y in list[..i] ==> y in Allocated(blocks)
      invariant SetsOf(insts) == old(SetsOf(insts)) && Visited(blocks) == old(Visited(blocks))
      invariant |old(Allocated(blocks))| <= |Allocated(blocks)|
    {
      assert list[i] in list && list[..i + 1] == list[..i] + [list[i]];
      ghost var a1 := Allocated(blocks);
      AllocatedFits(blocks);
      SetArchReg(g, blocks, insts, list[i], nodes, v);
      ClosedLater(g, a0, a1, Allocated(blocks));
      ClosedGrows(g, a1, Allocated(blocks));
      SubsetSmaller(a1, Allocated(blocks));
      i := i + 1;
    }
    assert list[..i] == list;
  }

  // ----- One connected part of the program -----

  /** Control flow between blocks follows the edges of the block graph. */
  ghost predicate EdgesFollow(g: Graph, p: seq<Code>, lists: seq<seq<nat>>) {
    forall b, i, s :: 0 <= b < |lists| && i in lists[b] && i < |p| && s in Succ(p[i]) ==> b < |g.succ| && FollowsTo(g, lists, b, s)
  }

  ghost predicate FollowsTo(g: Graph, lists: seq<seq<nat>>, b: nat, s: nat)
    requires b < |g.succ|
  {
    exists c :: (c == b || c in g.succ[b]) && c < |lists| && s in lists[c]
  }

  lemma {:induction false} RegionClosed(g: Graph, p: seq<Code>, lists: seq<seq<nat>>, v: set<nat>)
    requires ValidProgram(p) && AllAround(g, v) && EdgesFollow(g, p, lists)
    ensures ClosedUnder(p, InsOf(lists, v))
  {
    forall i, s | i in InsOf(lists, v) && i < |p| && s in Succ(p[i]) ensures s in InsOf(lists, v) && s < |p| {
      var b :| b in v && b < |lists| && i in lists[b];
      assert Around(g, b, v) && FollowsTo(g, lists, b, s);
      var c :| (c == b || c in g.succ[b]) && c < |lists| && s in lists[c];
      assert c in v;
    }
  }

  /** Every operand is read or written by its instruction. */
  ghost predicate OperandsUsed(insts: seq<Instruction>) {
    forall i, r :: 0 <= i < |insts| && r in insts[i].operands ==> r in insts[i].code.use || r in insts[i].code.def
  }

  lemma {:induction false} OperandsHaveRegisters(blocks: seq<Block>, insts: seq<Instruction>, v: set<nat>, s: Sets,
                                                 stat: map<nat, set<nat>>, reg: map<nat, int>)
    requires OperandsUsed(insts) && Exact(Program(insts), s)
    requires IsGraph(Program(insts), s, InsOf(Lists(blocks), v), stat) && Proper(stat, reg, Range(GRF_LO, GRF_SIZE))
    ensures OperandsKnown(blocks, insts, v, reg)
  {
    var p := Program(insts);
    forall b, i, r | b in v && b < |blocks| && i in blocks[b].insList && i < |insts| && r in insts[i].operands
      ensures r in reg && GRF_LO <= reg[r] <= GRF_HI
    {
      if r in p[i].use { UseIsLive(p, i, r); }
      assert Occurs(p[i], s.ins[i], s.outs[i], r);
      assert i in Lists(blocks)[b];
      assert i in InsOf(Lists(blocks), v);
      assert r in stat;
    }
  }

  /** What allocation from one entry block leaves. */
  ghost predicate AllocatedPart(g: Graph, blocks: seq<Block>, insts: seq<Instruction>, head: nat, v: set<nat>, allMap: map<nat, InterfNode>)
    reads insts, allMap.Values
  {
    && head in v && AllAround(g, v)
    && ClosedUnder(Program(insts), InsOf(Lists(blocks), v))
    && IsGraph(Program(insts), SetsOf(insts), InsOf(Lists(blocks), v), Stat(allMap))
    && Proper(Stat(allMap), Assigned(allMap), Range(GRF_LO, GRF_SIZE))
    && FirstFit(Stat(allMap), Assigned(allMap), Stat(allMap).Keys, Range(GRF_LO, GRF_SIZE))
    && forall b, i :: b in v && b < |blocks| && i in blocks[b].insList && i < |insts| ==>
         insts[i].archRegs == Replaced(insts[i].operands, Assigned(allMap))
  }

  method AssignBuilt(nodes: map<nat, InterfNode>) returns (allMap: map<nat, InterfNode>, ok: bool)
    requires Built(nodes)
    modifies nodes.Values
    ensures allMap == nodes && Stat(allMap) == old(Stat(nodes))
    ensures ok ==> Proper(Stat(allMap), Assigned(allMap), Range(GRF_LO, GRF_SIZE))
    ensures ok ==> FirstFit(Stat(allMap), Assigned(allMap), Stat(allMap).Keys, Range(GRF_LO, GRF_SIZE))
    ensures NoCore(Stat(allMap), GRF_SIZE) ==> ok
  {
    hide Linked, Symmetric, Stat, Dyn, NoCore, Proper, FirstFit;
    allMap, ok := AssignGlobalRegisters(nodes);
  }

  lemma {:induction false} NothingYet(blocks: seq<Block>, insts: seq<Instruction>)
    requires forall b :: 0 <= b < |blocks| ==> !blocks[b].visited && !blocks[b].regAllocated
    ensures Visited(blocks) == {} && Allocated(blocks) == {}
    ensures Built(map[]) && |Program(insts)| == |insts| && GraphOf(blocks, insts, {}, Stat(map[]))
  {
    assert InsOf(Lists(blocks), {}) == {};
  }

  lemma {:induction false} NothingReplaced(lists: seq<seq<nat>>, insts: seq<Instruction>, reg: map<nat, int>)
    requires forall i :: 0 <= i < |insts| ==> insts[i].archRegs == []
    ensures ArchState(lists, {}, Archs(insts), Operands(insts), reg)
  {
  }

  /** The operands of the part, once it has its graph and registers. */
  method FinishPart(g: Graph, blocks: seq<Block>, insts: seq<Instruction>, head: nat, allMap: map<nat, InterfNode>, ghost v: set<nat>)
    requires Layout(g, blocks, insts) && NoDup(insts) && Apart(Lists(blocks), |insts|) && head < |blocks| && head in v
    requires AllAround(g, v) && OperandsKnown(blocks, insts, v, Assigned(allMap))
    requires Allocated(blocks) == {} && forall i :: 0 <= i < |insts| ==> insts[i].archRegs == []
    requires OnlyFrom(g, {head}, {}, v)
    modifies blocks, insts
    ensures SetsOf(insts) == old(SetsOf(insts))
    ensures Stat(allMap) == old(Stat(allMap)) && Assigned(allMap) == old(Assigned(allMap))
    ensures forall b, i :: b in v && b < |blocks| && i in blocks[b].insList && i < |insts| ==>
              insts[i].archRegs == Replaced(insts[i].operands, Assigned(allMap))
  {
    NothingReplaced(Lists(blocks), insts, Assigned(allMap));
    hide ArchState, NoDup, Apart, OperandsKnown, SetsOf, Visited;
    assert Filling(g, blocks, insts, allMap, v);
    SetArchReg(g, blocks, insts, head, allMap, v);
    WholeRegion(g, head, v, Allocated(blocks));
    AllReplaced(blocks, insts, v, Allocated(blocks), Assigned(allMap));
  }

  lemma {:induction false} WholeRegion(g: Graph, head: nat, v: set<nat>, a: set<nat>)
    requires OnlyFrom(g, {head}, {}, v) && head in a && ClosedSince(g, {}, a)
    ensures v <= a
  {
    assert AllAround(g, a) && {head} <= a;
    assert v <= {} + a;
  }

  lemma {:induction false} AllReplaced(blocks: seq<Block>, insts: seq<Instruction>, v: set<nat>, a: set<nat>, reg: map<nat, int>)
    requires ArchState(Lists(blocks), a, Archs(insts), Operands(insts), reg) && v <= a
    ensures forall b, i :: b in v && b < |blocks| && i in blocks[b].insList && i < |insts| ==>
              insts[i].archRegs == Replaced(insts[i].operands, reg)
  {
    forall b, i | b in v && b < |blocks| && i in blocks[b].insList && i < |insts|
      ensures insts[i].archRegs == Replaced(insts[i].operands, reg)
    {
      assert i in Lists(blocks)[b] && Archs(insts)[i] == Replaced(Operands(insts)[i], reg);
    }
  }

  /** Interference graph, assignment and replacement for the part of the program that `head` belongs to.
      `ok` is false when one of the two spilling assertions fires. */
  method AllocateFrom(g: Graph, blocks: seq<Block>, insts: seq<Instruction>, head: nat)
    returns (allMap: map<nat, InterfNode>, ok: bool, ghost v: set<nat>)
    requires Layout(g, blocks, insts) && head < |blocks| && NoDup(insts) && Apart(Lists(blocks), |insts|)
    requires EdgesFollow(g, Program(insts), Lists(blocks)) && OperandsUsed(insts)
    requires Exact(Program(insts), SetsOf(insts))
    requires forall b :: 0 <= b < |blocks| ==> !blocks[b].visited && !blocks[b].regAllocated
    requires forall i :: 0 <= i < |insts| ==> insts[i].archRegs == []
    modifies blocks, insts
    ensures ok ==> AllocatedPart(g, blocks, insts, head, v, allMap) && SetsOf(insts) == old(SetsOf(insts))
    ensures old(SmallSets(insts)) && NoCore(Stat(allMap), GRF_SIZE) ==> ok
  {
    hide Exact, IsGraph, SmallSets, NoCore, OperandsUsed, EdgesFollow, Apart, NoDup, AllocatedPart, Proper, FirstFit, Stat, Assigned,
         Visited, Allocated, OperandsKnown, OnlyFrom, AllAround;
    ghost var s := SetsOf(insts);
    allMap, ok, v := BuildAndAssign(g, blocks, insts, head);
    if !ok { return; }
    OperandsHaveRegisters(blocks, insts, v, s, Stat(allMap), Assigned(allMap));
    FinishPart(g, blocks, insts, head, allMap, v);
    PartDone(g, blocks, insts, head, v, allMap);
  }

  lemma {:induction false} PartDone(g: Graph, blocks: seq<Block>, insts: seq<Instruction>, head: nat, v: set<nat>, allMap: map<nat, InterfNode>)
    requires head in v && AllAround(g, v) && EdgesFollow(g, Program(insts), Lists(blocks)) && Exact(Program(insts), SetsOf(insts))
    requires GraphOf(blocks, insts, v, Stat(allMap)) && Proper(Stat(allMap), Assigned(allMap), Range(GRF_LO, GRF_SIZE))
    requires FirstFit(Stat(allMap), Assigned(allMap), Stat(allMap).Keys, Range(GRF_LO, GRF_SIZE))
    requires forall b, i :: b in v && b < |blocks| && i in blocks[b].insList && i < |insts| ==>
               insts[i].archRegs == Replaced(insts[i].operands, Assigned(allMap))
    ensures AllocatedPart(g, blocks, insts, head, v, allMap)
  {
    RegionClosed(g, Program(insts), Lists(blocks), v);
  }

  /** The first of the three steps, on fresh blocks. */
  method BuildGraph(g: Graph, blocks: seq<Block>, insts: seq<Instruction>, head: nat)
    returns (nodes: map<nat, InterfNode>, ok: bool, ghost v: set<nat>)
    requires Layout(g, blocks, insts) && head < |blocks|
    requires forall b :: 0 <= b < |blocks| ==> !blocks[b].visited && !blocks[b].regAllocated
    modifies blocks
    ensures Allocated(blocks) == {} && SetsOf(insts) == old(SetsOf(insts)) && fresh(nodes.Values)
    ensures ok ==> head in v && AllAround(g, v) && OnlyFrom(g, {head}, {}, v)
    ensures ok ==> Built(nodes) && GraphOf(blocks, insts, v, Stat(nodes))
    ensures old(SmallSets(insts)) ==> ok
  {
    NothingYet(blocks, insts);
    assert Building(g, blocks, insts, map[]);
    hide IsGraph, Built, GraphOf, SmallSets, Visited, Allocated, OnlyFrom;
    nodes, ok := MakeInterference(g, blocks, insts, head, map[]);
    v := Visited(blocks);
  }

  /** The first two of the three steps. */
  method BuildAndAssign(g: Graph, blocks: seq<Block>, insts: seq<Instruction>, head: nat)
    returns (allMap: map<nat, InterfNode>, ok: bool, ghost v: set<nat>)
    requires Layout(g, blocks, insts) && head < |blocks|
    requires forall b :: 0 <= b < |blocks| ==> !blocks[b].visited && !blocks[b].regAllocated
    modifies blocks
    ensures Allocated(blocks) == {} && SetsOf(insts) == old(SetsOf(insts)) && fresh(allMap.Values)
    ensures ok ==> head in v && AllAround(g, v) && OnlyFrom(g, {head}, {}, v)
    ensures ok ==> GraphOf(blocks, insts, v, Stat(allMap)) && Proper(Stat(allMap), Assigned(allMap), Range(GRF_LO, GRF_SIZE))
    ensures ok ==> FirstFit(Stat(allMap), Assigned(allMap), Stat(allMap).Keys, Range(GRF_LO, GRF_SIZE))
    ensures old(SmallSets(insts)) && NoCore(Stat(allMap), GRF_SIZE) ==> ok
  {
    hide IsGraph, Built, SmallSets, NoCore, Allocated, OnlyFrom, AllAround, Proper, FirstFit, Stat, Assigned, Layout;
    allMap, ok, v := BuildGraph(g, blocks, insts, head);
    if ok { allMap, ok := AssignBuilt(allMap); }
  }

  /** The allocated program does what the program over virtual registers does, whenever each definition
      is live out of its instruction. */
  lemma {:induction false} AllocatedPartRunsAlike<M(!new)>(g: Graph, blocks: seq<Block>, insts: seq<Instruction>, head: nat, v: set<nat>,
      allMap: map<nat, InterfNode>, sem: Semantics<M>, a: State<M>, t: PhysState<M>, n: nat)
    requires AllocatedPart(g, blocks, insts, head, v, allMap) && Exact(Program(insts), SetsOf(insts))
    requires forall i :: i in InsOf(Lists(blocks), v) ==> i < |insts| && DefsLiveOut(Program(insts), SetsOf(insts), i)
    requires a.pc in InsOf(Lists(blocks), v) && Related(Program(insts), Assigned(allMap), a, t)
    ensures match Run(Program(insts), sem, a, n)
            case None => PhysRun(Program(insts), sem, Assigned(allMap), t, n).None?
            case Some(a') =>
              && PhysRun(Program(insts), sem, Assigned(allMap), t, n).Some?
              && Related(Program(insts), Assigned(allMap), a', PhysRun(Program(insts), sem, Assigned(allMap), t, n).value)
  {
    var p, s, done := Program(insts), SetsOf(insts), InsOf(Lists(blocks), v);
    GraphSymmetric(p, s, done, Stat(allMap));
    forall i | i in done ensures i < |p| && DefsMeet(p, Stat(allMap), i) && DefsJoined(p, Stat(allMap), i) {
      LiveDefsMeet(p, s, done, Stat(allMap), i);
      GraphJoins(p, s, done, Stat(allMap), i);
    }
    AllocationPreservesMeaning(p, done, Stat(allMap), Assigned(allMap), Range(GRF_LO, GRF_SIZE), sem, a, t, n);
  }
}
