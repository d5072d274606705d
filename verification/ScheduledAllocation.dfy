/** allocate_register (registerAllocate.cpp) schedules the blocks between liveness analysis and the
    interference graph, so the graph is that of the order before scheduling. */
module ScheduledAllocation {
  import D = Dependence
  import L = DependencySetup
  import S = ListSchedule
  import opened Allocation
  import opened Collections
  import opened Coloring
  import opened InterfNodes
  import opened Liveness

  /** A straight-line block in another order. */
  function Reordered(p: seq<Code>, o: seq<nat>): (q: seq<Code>)
    requires forall k :: 0 <= k < |o| ==> o[k] < |p|
    ensures |q| == |o|
  {
    seq(|o|, k requires 0 <= k < |o| =>
      Code('n', None, if k + 1 < |o| then Some(k + 1) else None, p[o[k]].use, p[o[k]].def))
  }

  /** The scheduled block keeps its meaning under every proper assignment for a graph, if in the scheduled
      order too each definition meets what stays live past it. */
  lemma {:induction false} ScheduledMeaning<M(!new)>(p: seq<Code>, o: seq<nat>, stat: map<nat, set<nat>>, reg: map<nat, int>, rf: set<int>,
      sem: Semantics<M>, v: State<M>, t: PhysState<M>, n: nat)
    requires (forall k :: 0 <= k < |o| ==> o[k] < |p|) && Symmetric(stat) && Proper(stat, reg, rf)
    requires forall k :: 0 <= k < |o| ==> DefsMeet(Reordered(p, o), stat, k) && DefsJoined(Reordered(p, o), stat, k)
    requires v.pc < |o| && Related(Reordered(p, o), reg, v, t)
    ensures var q := Reordered(p, o);
            match Run(q, sem, v, n)
            case None => PhysRun(q, sem, reg, t, n).None?
            case Some(v') => PhysRun(q, sem, reg, t, n).Some? && Related(q, reg, v', PhysRun(q, sem, reg, t, n).value)
  {
    AllocationPreservesMeaning(Reordered(p, o), Indices(|o|), stat, reg, rf, sem, v, t, n);
  }

  /** What occurs in the reordered block occurs in the block, so it has a node in the graph. */
  lemma {:induction false} ReorderedJoined(p: seq<Code>, s: Sets, o: seq<nat>, stat: map<nat, set<nat>>, k: nat)
    requires Exact(p, s) && IsGraph(p, s, Indices(|p|), stat) && (forall j :: 0 <= j < |o| ==> o[j] < |p|) && k < |o|
    ensures DefsJoined(Reordered(p, o), stat, k)
  {
    var q := Reordered(p, o);
    forall r | r in Uses(q) ensures r in stat {
      var j :| 0 <= j < |q| && r in q[j].use;
      UseIsLive(p, o[j], r);
      assert Occurs(p[o[j]], s.ins[o[j]], s.outs[o[j]], r);
    }
    forall r | LiveIn(q, k, r) || LiveOut(q, k, r) || r in q[k].def ensures r in stat {
      if LiveIn(q, k, r) {
        LiveIsUsed(q, k, r);
      } else if LiveOut(q, k, r) {
        var n :| n in Succ(q[k]) && LiveIn(q, n, r);
        LiveIsUsed(q, n, r);
      } else {
        assert Occurs(p[o[k]], s.ins[o[k]], s.outs[o[k]], r);
      }
    }
    GraphJoins(p, s, Indices(|p|), stat, o[k]);
  }

  lemma {:induction false} AllReorderedJoined(p: seq<Code>, s: Sets, o: seq<nat>, stat: map<nat, set<nat>>)
    requires Exact(p, s) && IsGraph(p, s, Indices(|p|), stat) && S.IsPermutation(o, |p|)
    ensures forall j :: 0 <= j < |o| ==> o[j] < |p|
    ensures |Reordered(p, o)| == |o| && forall k :: k in Indices(|o|) ==> DefsJoined(Reordered(p, o), stat, k)
  {
    assert forall j :: 0 <= j < |o| ==> o[j] in o;
    hide Exact, IsGraph, DefsJoined, S.IsPermutation;
    forall k | k in Indices(|o|) ensures DefsJoined(Reordered(p, o), stat, k) { ReorderedJoined(p, s, o, stat, k); }
  }

  lemma {:induction false} ReorderedValid(p: seq<Code>, o: seq<nat>)
    requires forall k :: 0 <= k < |o| ==> o[k] < |p|
    ensures ValidProgram(Reordered(p, o)) && ClosedUnder(Reordered(p, o), Indices(|o|))
  {
  }

  /** Scheduling after liveness analysis, and assignment after scheduling: every proper assignment for the graph
      of the original order is right for the scheduled block exactly if in the scheduled order no definition may
      share a register with what stays live past it. */
  lemma {:induction false} ScheduledExactly(p: seq<Code>, s: Sets, o: seq<nat>, stat: map<nat, set<nat>>, rf: set<int>)
    requires Exact(p, s) && IsGraph(p, s, Indices(|p|), stat) && S.IsPermutation(o, |p|)
    ensures forall j :: 0 <= j < |o| ==> o[j] < |p|
    ensures (forall reg :: Proper(stat, reg, rf) ==> RunsAlike(Reordered(p, o), reg, Indices(|o|)))
            <==> forall k :: 0 <= k < |o| ==> !MayShare(Reordered(p, o), stat, rf, k)
  {
    AllReorderedJoined(p, s, o, stat);
    ReorderedValid(p, o);
    hide RunsAlike, MayShare, DefsJoined, Exact, IsGraph, Proper, S.IsPermutation, Reordered, ValidProgram, ClosedUnder;
    GraphSymmetric(p, s, Indices(|p|), stat);
    AllocationExactly(Reordered(p, o), stat, rf, Indices(|o|));
  }

  // ----- A block whose schedule loses a value -----

  /** Two registers, each defined and used before the next is defined. */
  function DefineAndUse(): seq<Code> {
    [Code('n', None, Some(1), {}, {1}), Code('n', None, Some(2), {1}, {}),
     Code('n', None, Some(3), {}, {2}), Code('n', None, None, {2}, {})]
  }

  function DefineAndUseSets(): Sets { Sets([{}, {1}, {}, {2}], [{1}, {}, {2}, {}]) }

  /** The same block as dependence setup sees it, with any latencies. */
  function DefineAndUseOps(l: seq<nat>): seq<L.Op>
    requires |l| == 4
  {
    [L.Op('n', false, [L.Operand(1, true)], l[0]), L.Op('n', false, [L.Operand(1, false)], l[1]),
     L.Op('n', false, [L.Operand(2, true)], l[2]), L.Op('n', false, [L.Operand(2, false)], l[3])]
  }

  lemma {:induction false} SameBlock(l: seq<nat>)
    requires |l| == 4
    ensures L.Ssa(DefineAndUseOps(l))
    ensures forall i, r :: 0 <= i < 4 ==> (r in DefineAndUse()[i].use <==> L.Reads(DefineAndUseOps(l)[i], r))
    ensures forall i, r :: 0 <= i < 4 ==> (r in DefineAndUse()[i].def <==> L.Writes(DefineAndUseOps(l)[i], r))
  {
  }

  lemma {:induction false} DefineAndUseExact()
    ensures Exact(DefineAndUse(), DefineAndUseSets())
  {
    var p, s := DefineAndUse(), DefineAndUseSets();
    assert p[0].fallThru == Some(1) && p[1].fallThru == Some(2) && p[2].fallThru == Some(3);
    UseIsLive(p, 1, 1);
    UseIsLive(p, 3, 2);
    assert forall i :: 0 <= i < |p| ==> SoundAt(p, s, i) && Stable(p, s, i);
    SoundFixpointIsExact(p, s);
  }

  lemma {:induction false} DefinitionsLiveOut()
    ensures forall i :: 0 <= i < 4 ==> DefsLiveOut(DefineAndUse(), DefineAndUseSets(), i)
  {
  }

  lemma {:induction false} DefineAndUseGraph()
    ensures IsGraph(DefineAndUse(), DefineAndUseSets(), {0, 1, 2, 3}, TwoLonelyNodes())
  {
    var p, s := DefineAndUse(), DefineAndUseSets();
    assert Occurs(p[0], s.ins[0], s.outs[0], 1) && Occurs(p[2], s.ins[2], s.outs[2], 2);
  }

  /** Dependence setup leaves two links: from each definition to its use. */
  lemma {:induction false} TwoLinks(l: seq<nat>, loadStoreOrder: bool, g: D.Dag)
    requires |l| == 4 && L.LinksOf(DefineAndUseOps(l), loadStoreOrder, g)
    ensures forall a, i :: 0 <= a < 4 && 0 <= i < 4 ==> (D.Edge(g, a, i) <==> (a == 0 && i == 1) || (a == 2 && i == 3))
  {
    var ops := DefineAndUseOps(l);
    assert L.Reads(ops[1], 1) && L.Writes(ops[0], 1) && L.Reads(ops[3], 2) && L.Writes(ops[2], 2);
    forall a, i | 0 <= a < 4 && 0 <= i < 4 ensures D.Edge(g, a, i) <==> (a == 0 && i == 1) || (a == 2 && i == 3) {
      assert D.Edge(g, a, i) <==> L.Linked(ops, loadStoreOrder, a, i);
    }
  }

  lemma {:induction false} DefinitionsMayRun(g: D.Dag, x: nat)
    requires D.Valid(g) && |g.deps| == 4
    requires forall a, i :: 0 <= a < 4 && 0 <= i < 4 ==> (D.Edge(g, a, i) <==> (a == 0 && i == 1) || (a == 2 && i == 3))
    ensures S.MayRun(g, {}, x) <==> x == 0 || x == 2
  {
    if x == 1 { assert D.Edge(g, 0, x); }
    if x == 3 { assert D.Edge(g, 2, x); }
    if x == 0 || x == 2 {
      forall a | a in g.ancs[x] ensures a >= 4 { assert a < 4 ==> D.Edge(g, a, x); }
    }
  }

  lemma {:induction false} LaterRounds(g: D.Dag, s: seq<nat>, k: nat)
    requires k > 0
    ensures S.FirstReady(g, s, {}) <= S.ScheduleAfter(g, s, k)
  {
    hide S.FirstReady;
    if k > 1 {
      LaterRounds(g, s, k - 1);
    } else {
      assert S.Picked([]) == {};
      assert S.ScheduleAfter(g, s, 0) == [];
    }
  }

  /** Every schedule of the block starts with the two definitions. */
  lemma {:induction false} DefinitionsFirst(l: seq<nat>, loadStoreOrder: bool, g: D.Dag, o: seq<nat>)
    requires |l| == 4 && L.LinksOf(DefineAndUseOps(l), loadStoreOrder, g) && S.IsSchedule(g, o)
    ensures |o| == 4 && ((o[0] == 0 && o[1] == 2) || (o[0] == 2 && o[1] == 0))
  {
    var s, k: nat :| S.ByLongestPath(g, s) && o == S.ScheduleAfter(g, s, k);
    TwoLinks(l, loadStoreOrder, g);
    forall x ensures S.MayRun(g, {}, x) <==> x == 0 || x == 2 { DefinitionsMayRun(g, x); }
    assert k > 0;
    LaterRounds(g, s, k);
    L.PermutationCovers(s, 4);
    S.ReadyMembers(g, s, {});
    TwoMembers(S.ReadyIn(g, s, {}));
    hide S.ReadyIn, S.ScheduleAfter, S.MayRun;
  }

  lemma {:induction false} NoThird(r: seq<nat>)
    requires NoDup(r) && forall x :: x in r ==> x == 0 || x == 2
    ensures |r| <= 2
  {
    S.NoDupCount(r);
    SubsetSmaller(S.Picked(r), {0, 2});
  }

  lemma {:induction false} TwoMembers(r: seq<nat>)
    requires NoDup(r) && forall x :: x in r <==> x == 0 || x == 2
    ensures r == [0, 2] || r == [2, 0]
  {
    assert 0 in r && 2 in r;
    assert forall i :: 0 <= i < |r| ==> r[i] in r;
    NoThird(r);
  }

  /** After the two definitions the value of the first one is live past the second. */
  lemma {:induction false} LiveAcross(o: seq<nat>) returns (d: nat, r: nat)
    requires S.IsPermutation(o, 4) && ((o[0] == 0 && o[1] == 2) || (o[0] == 2 && o[1] == 0))
    ensures forall k :: 0 <= k < |o| ==> o[k] < |DefineAndUse()|
    ensures (d == 1 && r == 2) || (d == 2 && r == 1)
    ensures var q := Reordered(DefineAndUse(), o);
            q[1].def == {d} && LiveOut(q, 1, r) && forall x :: LiveIn(q, 1, x) ==> x == 1 || x == 2
  {
    assert forall k :: 0 <= k < |o| ==> o[k] in o;
    L.PermutationCovers(o, 4);
    var q := Reordered(DefineAndUse(), o);
    var user := if o[0] == 0 then 1 else 3;
    d, r := if o[0] == 0 then 2 else 1, if o[0] == 0 then 1 else 2;
    assert user in o;
    var k :| 0 <= k < |o| && o[k] == user;
    assert q[1].fallThru == Some(2) && q[2].fallThru == Some(3);
    UseIsLive(q, k, r);
    if k == 3 {
      assert 3 in Succ(q[2]) && o[2] != o[0] && o[2] != o[1];
      assert q[2].def == {};
      OutIsLive(q, 2, r);
    }
    assert 2 in Succ(q[1]);
    forall x | LiveIn(q, 1, x) ensures x == 1 || x == 2 {
      LiveIsUsed(q, 1, x);
      var i :| 0 <= i < |q| && x in q[i].use;
    }
  }

  /** In the original order every definition is live out of its instruction, so every proper assignment is right.
      Whatever the latencies are, whichever schedule listSchedule leaves, and whatever the pass assigns on the graph
      of the original order: both registers get the same one, and the first definition is lost to the second. */
  lemma {:induction false} ScheduleLosesValue(l: seq<nat>, loadStoreOrder: bool, g: D.Dag, o: seq<nat>, reg: map<nat, int>)
    returns (sem: Semantics<int>, v: State<int>, t: PhysState<int>)
    requires |l| == 4 && L.LinksOf(DefineAndUseOps(l), loadStoreOrder, g) && S.IsPermutation(o, 4) && S.IsSchedule(g, o)
    requires Proper(TwoLonelyNodes(), reg, Range(GRF_LO, GRF_SIZE))
    requires FirstFit(TwoLonelyNodes(), reg, TwoLonelyNodes().Keys, Range(GRF_LO, GRF_SIZE))
    ensures reg[1] == reg[2] && forall k :: 0 <= k < |o| ==> o[k] < |DefineAndUse()|
    ensures var q := Reordered(DefineAndUse(), o);
            && v.pc == 1 && Related(q, reg, v, t) && Step(q, sem, v).Some? && PhysStep(q, sem, reg, t).Some?
            && !Related(q, reg, Step(q, sem, v).value, PhysStep(q, sem, reg, t).value)
  {
    LonelyNode(TwoLonelyNodes(), reg, 1);
    LonelyNode(TwoLonelyNodes(), reg, 2);
    DefinitionsFirst(l, loadStoreOrder, g, o);
    var d, r := LiveAcross(o);
    hide Reordered, Step, PhysStep, LiveIn, LiveOut, Proper, FirstFit, Related, S.IsSchedule, L.LinksOf, S.IsPermutation;
    sem, v, t := Overwrites(Reordered(DefineAndUse(), o), reg, 1, d, r);
  }
}
