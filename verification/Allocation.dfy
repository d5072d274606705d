/** What register assignment preserves: a program run with every virtual register replaced by its
    assigned register (registerAllocate.cpp). */
module Allocation {
  import opened Collections
  import opened Coloring
  import opened InterfNodes
  import opened Liveness

  /** What instructions compute is left open: values, memory and the next instruction are any functions
      of the values read and of the memory. */
  datatype Semantics<!M> = Semantics(val: (nat, map<nat, int>, M, nat) -> int,
                                     mem: (nat, map<nat, int>, M) -> M,
                                     next: (nat, map<nat, int>, M) -> nat)

  datatype State<!M> = State(pc: nat, regs: nat -> int, mem: M)

  datatype PhysState<!M> = PhysState(pc: nat, regs: int -> int, mem: M)

  ghost function Inputs(use: set<nat>, regs: nat -> int): map<nat, int> {
    map r | r in use :: regs(r)
  }

  /** One step over virtual registers; a run ends where control would leave the program's edges. */
  ghost function Step<M>(p: seq<Code>, sem: Semantics<M>, s: State<M>): Option<State<M>> {
    if s.pc >= |p| then None
    else
      var c := p[s.pc];
      var vals := Inputs(c.use, s.regs);
      var next := sem.next(s.pc, vals, s.mem);
      if next !in Succ(c) then None
      else Some(State(next, (r: nat) => if r in c.def then sem.val(s.pc, vals, s.mem, r) else s.regs(r), sem.mem(s.pc, vals, s.mem)))
  }

  /** The register of `def` that is assigned `x`, if any. */
  ghost function Writer(def: set<nat>, reg: map<nat, int>, x: int): Option<nat> {
    if exists r :: r in def && r in reg && reg[r] == x
    then var r :| r in def && r in reg && reg[r] == x; Some(r)
    else None
  }

  /** The same instruction with its operands replaced by their assigned registers. */
  ghost function PhysStep<M>(p: seq<Code>, sem: Semantics<M>, reg: map<nat, int>, s: PhysState<M>): Option<PhysState<M>> {
    if s.pc >= |p| then None
    else
      var c := p[s.pc];
      var vals := map r | r in c.use :: s.regs(if r in reg then reg[r] else -1);
      var next := sem.next(s.pc, vals, s.mem);
      if next !in Succ(c) then None
      else
        Some(PhysState(next,
                       x => match Writer(c.def, reg, x)
                         case Some(r) => sem.val(s.pc, vals, s.mem, r)
                         case None => s.regs(x),
                       sem.mem(s.pc, vals, s.mem)))
  }

  ghost function Run<M>(p: seq<Code>, sem: Semantics<M>, s: State<M>, n: nat): Option<State<M>> {
    if n == 0 then Some(s)
    else match Run(p, sem, s, n - 1)
      case None => None
      case Some(t) => Step(p, sem, t)
  }

  ghost function PhysRun<M>(p: seq<Code>, sem: Semantics<M>, reg: map<nat, int>, s: PhysState<M>, n: nat): Option<PhysState<M>> {
    if n == 0 then Some(s)
    else match PhysRun(p, sem, reg, s, n - 1)
      case None => None
      case Some(t) => PhysStep(p, sem, reg, t)
  }

  // ----- The interference graph -----

  /** Two registers are together live out of an instruction, or defined by one. */
  ghost predicate Interferes(p: seq<Code>, s: Sets, done: set<nat>, a: nat, b: nat) {
    a != b && exists i :: i in done && i < |p| && i < |s.outs| && Together(p[i].def, s.outs[i], a, b)
  }

  predicate Together(def: set<nat>, out: set<nat>, a: nat, b: nat) {
    (a in out && b in out) || (a in def && b in def)
  }

  predicate Occurs(c: Code, ins: set<nat>, out: set<nat>, r: nat) {
    r in out || r in ins || r in c.def
  }

  /** The static graph built from the instructions of `done`. */
  ghost predicate IsGraph(p: seq<Code>, s: Sets, done: set<nat>, stat: map<nat, set<nat>>) {
    && |s.ins| == |s.outs| == |p|
    && (forall r :: r in stat <==> exists i :: i in done && i < |p| && Occurs(p[i], s.ins[i], s.outs[i], r))
    && (forall a, b :: a in stat ==> (b in stat[a] <==> Interferes(p, s, done, a, b)))
  }

  /** Control stays inside `done`. */
  ghost predicate ClosedUnder(p: seq<Code>, done: set<nat>) {
    forall i, s :: i in done && i < |p| && s in Succ(p[i]) ==> s in done && s < |p|
  }

  // ----- The simulation -----

  /** Each register live before the instruction at `pc` is in its assigned register. */
  ghost predicate Related<M(!new)>(p: seq<Code>, reg: map<nat, int>, s: State<M>, t: PhysState<M>) {
    && s.pc == t.pc && s.mem == t.mem
    && forall r :: LiveIn(p, s.pc, r) ==> r in reg && t.regs(reg[r]) == s.regs(r)
  }

  /** A definition gets another register than what stays live past it. */
  ghost predicate DefsApart(p: seq<Code>, reg: map<nat, int>, i: nat)
    requires i < |p|
  {
    && (forall d :: d in p[i].def ==> d in reg)
    && (forall d, r :: d in p[i].def && LiveOut(p, i, r) && r != d ==> r in reg && reg[r] != reg[d])
  }

  /** One step keeps the relation. */
  lemma {:induction false} StepSimulates<M(!new)>(p: seq<Code>, sem: Semantics<M>, reg: map<nat, int>, s: State<M>, t: PhysState<M>)
    requires ValidProgram(p) && s.pc < |p| && Related(p, reg, s, t) && DefsApart(p, reg, s.pc)
    requires forall r :: LiveOut(p, s.pc, r) ==> r in reg
    ensures match Step(p, sem, s)
            case None => PhysStep(p, sem, reg, t).None?
            case Some(s') => PhysStep(p, sem, reg, t).Some? && Related(p, reg, s', PhysStep(p, sem, reg, t).value)
  {
    var c := p[s.pc];
    var vals := Inputs(c.use, s.regs);
    var pvals := map r | r in c.use :: t.regs(if r in reg then reg[r] else -1);
    forall r | r in c.use ensures pvals[r] == vals[r] { UseIsLive(p, s.pc, r); }
    assert pvals == vals;
    if Step(p, sem, s).Some? {
      var s', t' := Step(p, sem, s).value, PhysStep(p, sem, reg, t).value;
      forall r | LiveIn(p, s'.pc, r) ensures r in reg && t'.regs(reg[r]) == s'.regs(r) {
        assert LiveOut(p, s.pc, r);
        LiveKept(p, reg, s.pc, r);
      }
    }
  }

  /** What is live out of an instruction is written by its own definition or by none. */
  lemma {:induction false} LiveKept(p: seq<Code>, reg: map<nat, int>, i: nat, r: nat)
    requires i < |p| && DefsApart(p, reg, i) && LiveOut(p, i, r) && r in reg
    ensures Writer(p[i].def, reg, reg[r]) == if r in p[i].def then Some(r) else None
    ensures r !in p[i].def ==> LiveIn(p, i, r)
  {
    if r in p[i].def {
      assert r in p[i].def && r in reg && reg[r] == reg[r];
    } else {
      OutIsLive(p, i, r);
    }
  }

  ghost predicate Covers(p: seq<Code>, reg: map<nat, int>, done: set<nat>) {
    forall i {:trigger i in done} :: i in done ==>
      i < |p| && DefsApart(p, reg, i) && forall r :: LiveOut(p, i, r) ==> r in reg
  }

  /** At every point of every run, each live virtual register is in its assigned register, and the two
      programs stop together. */
  lemma {:induction false} RunSimulates<M(!new)>(p: seq<Code>, sem: Semantics<M>, reg: map<nat, int>, done: set<nat>,
                                                 s: State<M>, t: PhysState<M>, n: nat)
    requires ValidProgram(p) && ClosedUnder(p, done) && Covers(p, reg, done)
    requires s.pc in done && Related(p, reg, s, t)
    ensures match Run(p, sem, s, n)
            case None => PhysRun(p, sem, reg, t, n).None?
            case Some(s') =>
              s'.pc in done && PhysRun(p, sem, reg, t, n).Some? && Related(p, reg, s', PhysRun(p, sem, reg, t, n).value)
  {
    if n > 0 {
      RunSimulates(p, sem, reg, done, s, t, n - 1);
      if Run(p, sem, s, n - 1).Some? {
        var s', t' := Run(p, sem, s, n - 1).value, PhysRun(p, sem, reg, t, n - 1).value;
        StepSimulates(p, sem, reg, s', t');
      }
    }
  }

  // ----- What a graph guarantees -----

  /** In the graph each definition of `i` meets whatever else stays live past `i`. */
  ghost predicate DefsMeet(p: seq<Code>, stat: map<nat, set<nat>>, i: nat)
    requires i < |p|
  {
    forall d, r :: d in p[i].def && LiveOut(p, i, r) && r !in p[i].def ==> d in stat && r in stat[d]
  }

  /** The registers of `i` are nodes, and its definitions meet each other. */
  ghost predicate DefsJoined(p: seq<Code>, stat: map<nat, set<nat>>, i: nat)
    requires i < |p|
  {
    && (forall r :: LiveIn(p, i, r) || LiveOut(p, i, r) || r in p[i].def ==> r in stat)
    && (forall d, r :: d in p[i].def && r in p[i].def && d != r ==> d in stat && r in stat[d])
  }

  ghost predicate DefsLiveOut(p: seq<Code>, s: Sets, i: nat)
    requires i < |p| && |s.outs| == |p|
  {
    p[i].def <= s.outs[i]
  }

  lemma {:induction false} GraphJoins(p: seq<Code>, s: Sets, done: set<nat>, stat: map<nat, set<nat>>, i: nat)
    requires Exact(p, s) && IsGraph(p, s, done, stat) && i in done && i < |p|
    ensures DefsJoined(p, stat, i)
  {
    forall r | LiveIn(p, i, r) || LiveOut(p, i, r) || r in p[i].def ensures r in stat {
      assert Occurs(p[i], s.ins[i], s.outs[i], r);
    }
    forall d, r | d in p[i].def && r in p[i].def && d != r ensures d in stat && r in stat[d] {
      assert Together(p[i].def, s.outs[i], d, r);
      assert Occurs(p[i], s.ins[i], s.outs[i], d);
      assert Interferes(p, s, done, d, r);
    }
  }

  /** Definitions that are live out of their instruction meet what else stays live there. */
  lemma {:induction false} LiveDefsMeet(p: seq<Code>, s: Sets, done: set<nat>, stat: map<nat, set<nat>>, i: nat)
    requires Exact(p, s) && IsGraph(p, s, done, stat) && i in done && i < |p| && DefsLiveOut(p, s, i)
    ensures DefsMeet(p, stat, i)
  {
    forall d, r | d in p[i].def && LiveOut(p, i, r) && r !in p[i].def ensures d in stat && r in stat[d] {
      assert Together(p[i].def, s.outs[i], d, r);
      assert Occurs(p[i], s.ins[i], s.outs[i], d);
      assert Interferes(p, s, done, d, r);
    }
  }

  lemma {:induction false} ProperKeepsApart(p: seq<Code>, stat: map<nat, set<nat>>, reg: map<nat, int>, rf: set<int>, i: nat)
    requires Proper(stat, reg, rf) && Symmetric(stat) && i < |p| && DefsMeet(p, stat, i) && DefsJoined(p, stat, i)
    ensures DefsApart(p, reg, i) && forall r :: LiveOut(p, i, r) ==> r in reg
  {
    forall d, r | d in p[i].def && LiveOut(p, i, r) && r != d ensures r in reg && reg[r] != reg[d] {
      assert r in stat[d];
    }
  }

  /** Register assignment preserves meaning: with any graph in which definitions meet what stays live past
      them, and any proper assignment for it, every run from related register files keeps each live register
      equal to its assigned one. */
  lemma {:induction false} AllocationPreservesMeaning<M(!new)>(p: seq<Code>, done: set<nat>, stat: map<nat, set<nat>>,
      reg: map<nat, int>, rf: set<int>, sem: Semantics<M>, v: State<M>, t: PhysState<M>, n: nat)
    requires ValidProgram(p) && Symmetric(stat) && Proper(stat, reg, rf) && ClosedUnder(p, done)
    requires forall i :: i in done ==> i < |p| && DefsMeet(p, stat, i) && DefsJoined(p, stat, i)
    requires v.pc in done && Related(p, reg, v, t)
    ensures match Run(p, sem, v, n)
            case None => PhysRun(p, sem, reg, t, n).None?
            case Some(v') => PhysRun(p, sem, reg, t, n).Some? && Related(p, reg, v', PhysRun(p, sem, reg, t, n).value)
  {
    forall i | i in done ensures i < |p| && DefsApart(p, reg, i) && forall r :: LiveOut(p, i, r) ==> r in reg {
      ProperKeepsApart(p, stat, reg, rf, i);
    }
    RunSimulates(p, sem, reg, done, v, t, n);
  }

  lemma {:induction false} InterferesSymmetric(p: seq<Code>, s: Sets, done: set<nat>, a: nat, b: nat)
    requires Interferes(p, s, done, a, b)
    ensures Interferes(p, s, done, b, a)
  {
    var i :| i in done && i < |p| && i < |s.outs| && Together(p[i].def, s.outs[i], a, b);
    assert Together(p[i].def, s.outs[i], b, a);
  }

  lemma {:induction false} GraphSymmetric(p: seq<Code>, s: Sets, done: set<nat>, stat: map<nat, set<nat>>)
    requires IsGraph(p, s, done, stat)
    ensures Symmetric(stat)
  {
    forall a, b | a in stat && b in stat[a] ensures a != b && b in stat && a in stat[b] {
      var i :| i in done && i < |p| && i < |s.outs| && Together(p[i].def, s.outs[i], a, b);
      assert Occurs(p[i], s.ins[i], s.outs[i], b);
      InterferesSymmetric(p, s, done, a, b);
    }
  }

  // ----- The condition is needed -----

  /** The graph with node `d` merged into node `r`. */
  ghost function Merged(stat: map<nat, set<nat>>, d: nat, r: nat): map<nat, set<nat>>
    requires d in stat && r in stat
  {
    map x | x in stat && x != d ::
      if x == r then stat[r] + stat[d] else if d in stat[x] then stat[x] - {d} + {r} else stat[x]
  }

  lemma {:induction false} MergedSymmetric(stat: map<nat, set<nat>>, d: nat, r: nat)
    requires Symmetric(stat) && d in stat && r in stat && d != r && r !in stat[d]
    ensures Symmetric(Merged(stat, d, r))
  {
  }

  lemma {:induction false} Split(stat: map<nat, set<nat>>, d: nat, r: nat, reg: map<nat, int>, rf: set<int>)
    requires Symmetric(stat) && d in stat && r in stat && d != r && r !in stat[d] && Proper(Merged(stat, d, r), reg, rf)
    ensures r in reg && Proper(stat, reg[d := reg[r]], rf)
  {
    var m := Merged(stat, d, r);
    assert r in m;
    var full := reg[d := reg[r]];
    assert full.Keys == stat.Keys;
    forall a, b | a in stat && b in stat[a] && b in full ensures full[a] != full[b] {
      if a == d {
        assert b in m[r];
      } else if b == d {
        assert a in stat[d] && a in m[r];
        assert r in m[a];
      } else {
        assert a in m && b in m[a];
      }
    }
  }

  /** The other way round: an assignment that gives both nodes one register is one for the merged graph. */
  lemma {:induction false} MergedProper(stat: map<nat, set<nat>>, d: nat, r: nat, reg: map<nat, int>, rf: set<int>)
    requires Symmetric(stat) && d in stat && r in stat && d != r && r !in stat[d] && Proper(stat, reg, rf) && reg[d] == reg[r]
    ensures Proper(Merged(stat, d, r), reg - {d}, rf)
  {
    var m, few := Merged(stat, d, r), reg - {d};
    forall a, b | a in m && b in m[a] && b in few ensures few[a] != few[b] {
      assert a in stat && b in stat;
      if a == r {
        assert b in stat[r] || b in stat[d];
      } else if b == r && b !in stat[a] {
        assert d in stat[a];
      } else {
        assert b in stat[a];
      }
    }
  }

  /** Definition `d` does not meet `r`, which stays live past it. */
  ghost predicate Unmet(p: seq<Code>, stat: map<nat, set<nat>>, i: nat, d: nat, r: nat)
    requires i < |p|
  {
    d in p[i].def && LiveOut(p, i, r) && r !in p[i].def && d in stat && r in stat && r !in stat[d]
  }

  /** Some such pair can share a register: the graph with one node for the two still has an assignment. */
  ghost predicate MayShare(p: seq<Code>, stat: map<nat, set<nat>>, rf: set<int>, i: nat)
    requires i < |p|
  {
    exists d, r, few :: Unmet(p, stat, i, d, r) && Proper(Merged(stat, d, r), few, rf)
  }

  /** Every proper assignment keeps the definitions of `i` apart exactly if no unmet pair may share a register. */
  lemma {:induction false} ApartExactly(p: seq<Code>, stat: map<nat, set<nat>>, rf: set<int>, i: nat)
    requires i < |p| && Symmetric(stat) && DefsJoined(p, stat, i)
    ensures (forall reg :: Proper(stat, reg, rf) ==> DefsApart(p, reg, i)) <==> !MayShare(p, stat, rf, i)
  {
    if d, r, few :| Unmet(p, stat, i, d, r) && Proper(Merged(stat, d, r), few, rf) {
      Split(stat, d, r, few, rf);
      var reg := few[d := few[r]];
      assert Proper(stat, reg, rf) && !DefsApart(p, reg, i);
    } else {
      forall reg | Proper(stat, reg, rf) ensures DefsApart(p, reg, i) {
        forall d, r | d in p[i].def && LiveOut(p, i, r) && r != d ensures r in reg && reg[r] != reg[d] {
          if r !in stat[d] && reg[r] == reg[d] {
            MergedProper(stat, d, r, reg, rf);
            assert Unmet(p, stat, i, d, r);
          }
        }
      }
    }
  }

  ghost predicate SameRun<M(!new)>(p: seq<Code>, reg: map<nat, int>, sem: Semantics<M>, v: State<M>, t: PhysState<M>, n: nat) {
    match Run(p, sem, v, n)
    case None => PhysRun(p, sem, reg, t, n).None?
    case Some(v') => PhysRun(p, sem, reg, t, n).Some? && Related(p, reg, v', PhysRun(p, sem, reg, t, n).value)
  }

  /** The allocated program does what the program does, whatever its instructions compute, from anywhere in `done`. */
  ghost predicate RunsAlike(p: seq<Code>, reg: map<nat, int>, done: set<nat>) {
    forall sem: Semantics<int>, v: State<int>, t: PhysState<int>, n: nat ::
      v.pc in done && Related(p, reg, v, t) ==> SameRun(p, reg, sem, v, t, n)
  }

  /** The registers of the instructions of `done` are assigned, and two definitions of one instruction are apart. */
  ghost predicate Assigns(p: seq<Code>, reg: map<nat, int>, done: set<nat>) {
    forall i {:trigger i in done} :: i in done ==>
      && i < |p| && (forall r :: LiveIn(p, i, r) || LiveOut(p, i, r) || r in p[i].def ==> r in reg)
      && (forall d, r :: d in p[i].def && r in p[i].def && d != r ==> reg[d] != reg[r])
  }

  /** One assignment, the one of the pass or any other, is right exactly if it keeps every definition apart
      from what stays live past it. */
  lemma {:induction false} RunsAlikeExactly(p: seq<Code>, reg: map<nat, int>, done: set<nat>)
    requires ValidProgram(p) && ClosedUnder(p, done) && Assigns(p, reg, done)
    ensures RunsAlike(p, reg, done) <==> forall i :: i in done ==> DefsApart(p, reg, i)
  {
    if forall i :: i in done ==> DefsApart(p, reg, i) {
      forall sem: Semantics<int>, v: State<int>, t: PhysState<int>, n: nat | v.pc in done && Related(p, reg, v, t)
        ensures SameRun(p, reg, sem, v, t, n)
      {
        RunSimulates(p, sem, reg, done, v, t, n);
      }
    } else {
      var i :| i in done && !DefsApart(p, reg, i);
      var d, r :| d in p[i].def && LiveOut(p, i, r) && r != d && reg[r] == reg[d];
      var sem, v, t := Overwrites(p, reg, i, d, r);
      OneStep(p, reg, sem, v, t);
      assert !SameRun(p, reg, sem, v, t, 1);
    }
  }

  lemma {:induction false} OneStep<M(!new)>(p: seq<Code>, reg: map<nat, int>, sem: Semantics<M>, v: State<M>, t: PhysState<M>)
    ensures Run(p, sem, v, 1) == Step(p, sem, v) && PhysRun(p, sem, reg, t, 1) == PhysStep(p, sem, reg, t)
  {
    assert Run(p, sem, v, 0) == Some(v) && PhysRun(p, sem, reg, t, 0) == Some(t);
  }

  /** Every proper assignment of a graph is right exactly if nowhere an unmet pair may share a register. */
  lemma {:induction false} AllocationExactly(p: seq<Code>, stat: map<nat, set<nat>>, rf: set<int>, done: set<nat>)
    requires ValidProgram(p) && ClosedUnder(p, done) && Symmetric(stat)
    requires forall i :: i in done ==> i < |p| && DefsJoined(p, stat, i)
    ensures (forall reg :: Proper(stat, reg, rf) ==> RunsAlike(p, reg, done)) <==> forall i :: i in done ==> !MayShare(p, stat, rf, i)
  {
    hide MayShare, RunsAlike;
    forall reg | Proper(stat, reg, rf) ensures RunsAlike(p, reg, done) <==> forall i :: i in done ==> DefsApart(p, reg, i) {
      ProperAssigns(p, stat, reg, rf, done);
      RunsAlikeExactly(p, reg, done);
    }
    forall i | i in done ensures (forall reg :: Proper(stat, reg, rf) ==> DefsApart(p, reg, i)) <==> !MayShare(p, stat, rf, i) {
      ApartExactly(p, stat, rf, i);
    }
    hide DefsApart, DefsJoined, Proper, Symmetric, ClosedUnder;
  }

  lemma {:induction false} ProperAssigns(p: seq<Code>, stat: map<nat, set<nat>>, reg: map<nat, int>, rf: set<int>, done: set<nat>)
    requires Proper(stat, reg, rf) && forall i :: i in done ==> i < |p| && DefsJoined(p, stat, i)
    ensures Assigns(p, reg, done)
  {
  }

  /** If a definition `d` does not meet a register `r` that stays live past it, then some proper assignment of
      the global registers gives both the same one, provided the graph can do with one node for the two; and
      one step from related states ends with `r` overwritten. */
  lemma {:induction false} UnmetDefinitionBreaks(p: seq<Code>, stat: map<nat, set<nat>>, i: nat, d: nat, r: nat)
    returns (reg: map<nat, int>, sem: Semantics<int>, v: State<int>, t: PhysState<int>)
    requires i < |p| && Symmetric(stat) && DefsJoined(p, stat, i)
    requires d in p[i].def && LiveOut(p, i, r) && r !in p[i].def && r !in stat[d]
    requires NoCore(Merged(stat, d, r), GRF_SIZE)
    ensures Proper(stat, reg, Range(GRF_LO, GRF_SIZE)) && v.pc == i && Related(p, reg, v, t)
    ensures Step(p, sem, v).Some? && PhysStep(p, sem, reg, t).Some?
    ensures !Related(p, reg, Step(p, sem, v).value, PhysStep(p, sem, reg, t).value)
  {
    var m, rf := Merged(stat, d, r), Range(GRF_LO, GRF_SIZE);
    MergedSymmetric(stat, d, r);
    var few := Colourable(m, rf, GRF_SIZE, m.Keys);
    assert Proper(m, few, rf);
    Split(stat, d, r, few, rf);
    reg := few[d := few[r]];
    hide NoCore, Merged, Proper, Symmetric;
    sem, v, t := Overwrites(p, reg, i, d, r);
  }

  /** With one register for a definition `d` and for `r`, which is live past it, `r` is overwritten. */
  lemma {:induction false} Overwrites(p: seq<Code>, reg: map<nat, int>, i: nat, d: nat, r: nat)
    returns (sem: Semantics<int>, v: State<int>, t: PhysState<int>)
    requires i < |p| && d in p[i].def && r !in p[i].def && LiveOut(p, i, r)
    requires d in reg && r in reg && reg[d] == reg[r] && forall x :: LiveIn(p, i, x) ==> x in reg
    ensures v.pc == i && Related(p, reg, v, t)
    ensures Step(p, sem, v).Some? && PhysStep(p, sem, reg, t).Some?
    ensures !Related(p, reg, Step(p, sem, v).value, PhysStep(p, sem, reg, t).value)
  {
    var next :| next in Succ(p[i]) && LiveIn(p, next, r);
    sem := Semantics((_, _, _, _) => 1, (_, _, m) => m, (_, _, _) => next);
    v, t := State(i, _ => 0, 0), PhysState(i, _ => 0, 0);
    assert Writer(p[i].def, reg, reg[r]) != None;
    var v', t' := Step(p, sem, v).value, PhysStep(p, sem, reg, t).value;
    assert v'.regs(r) == 0 && t'.regs(reg[r]) == 1 && v'.pc == next;
  }

  /** The pass gives its first register to every node without neighbours. */
  lemma {:induction false} LonelyNode(stat: map<nat, set<nat>>, reg: map<nat, int>, a: nat)
    requires Proper(stat, reg, Range(GRF_LO, GRF_SIZE)) && FirstFit(stat, reg, stat.Keys, Range(GRF_LO, GRF_SIZE))
    requires a in stat && stat[a] == {}
    ensures reg[a] == GRF_LO
  {
    assert reg[a] in Range(GRF_LO, GRF_SIZE) && GRF_LO in Range(GRF_LO, GRF_SIZE);
    assert GRF_LO < reg[a] ==> Taken(stat, reg, stat.Keys, a, GRF_LO);
  }

  // ----- A dead definition -----

  /** Register 1 is defined and used, and register 2 is defined between and never used. */
  function DeadDefinition(): seq<Code> {
    [Code('n', None, Some(1), {}, {1}), Code('n', None, Some(2), {}, {2}), Code('r', None, None, {1}, {})]
  }

  function DeadDefinitionSets(): Sets { Sets([{}, {1}, {1}], [{1}, {1}, {}]) }

  function TwoLonelyNodes(): map<nat, set<nat>> { map[1 := {}, 2 := {}] }

  lemma {:induction false} DeadDefinitionExact()
    ensures Exact(DeadDefinition(), DeadDefinitionSets())
  {
    var p, s := DeadDefinition(), DeadDefinitionSets();
    assert p[0].fallThru == Some(1) && p[1].fallThru == Some(2);
    UseIsLive(p, 2, 1);
    OutIsLive(p, 1, 1);
    assert forall i :: 0 <= i < |p| ==> SoundAt(p, s, i) && Stable(p, s, i);
    SoundFixpointIsExact(p, s);
  }

  lemma {:induction false} DeadDefinitionGraph()
    ensures IsGraph(DeadDefinition(), DeadDefinitionSets(), {0, 1, 2}, TwoLonelyNodes())
  {
    var p, s, stat := DeadDefinition(), DeadDefinitionSets(), TwoLonelyNodes();
    assert Occurs(p[0], s.ins[0], s.outs[0], 1) && Occurs(p[1], s.ins[1], s.outs[1], 2);
  }

  /** Whatever the pass assigns on this program, register 1 is lost: both registers get the first one. */
  lemma {:induction false} DeadDefinitionLosesValue(reg: map<nat, int>)
    returns (sem: Semantics<int>, v: State<int>, t: PhysState<int>)
    requires Proper(TwoLonelyNodes(), reg, Range(GRF_LO, GRF_SIZE))
    requires FirstFit(TwoLonelyNodes(), reg, TwoLonelyNodes().Keys, Range(GRF_LO, GRF_SIZE))
    ensures reg[1] == reg[2] && v.pc == 1 && Related(DeadDefinition(), reg, v, t)
    ensures Step(DeadDefinition(), sem, v).Some? && PhysStep(DeadDefinition(), sem, reg, t).Some?
    ensures !Related(DeadDefinition(), reg, Step(DeadDefinition(), sem, v).value, PhysStep(DeadDefinition(), sem, reg, t).value)
  {
    var p, s := DeadDefinition(), DeadDefinitionSets();
    LonelyNode(TwoLonelyNodes(), reg, 1);
    LonelyNode(TwoLonelyNodes(), reg, 2);
    DeadDefinitionExact();
    assert 1 in s.outs[1] && s.ins[1] == {1};
    sem, v, t := Overwrites(p, reg, 1, 2, 1);
  }
}
