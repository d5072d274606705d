/** Liveness analysis in GLOBAL mode (registerAllocate.cpp, basicblock.cpp, instruction.cpp). An
    instruction pointer is a position in the instruction list. */
module Liveness {
  import opened Collections

  /** What liveness reads of an instruction. */
  datatype Code = Code(kind: char, dst: Option<nat>, fallThru: Option<nat>, use: set<nat>, def: set<nat>)

  function Jumps(c: Code): bool {
    c.dst.Some? && (c.kind == 'j' || c.kind == 'b')
  }

  function Falls(c: Code): bool {
    c.fallThru.Some? && !(c.kind == 'r' || c.kind == 'j' || c.kind == 's')
  }

  /** Control goes to the destination of a jump or branch and to the fall-through of anything that is
      not a return, jump or system call. */
  function Succ(c: Code): set<nat> {
    (if c.dst.Some? && c.kind in {'j', 'b'} then {c.dst.value} else {}) +
    (if c.fallThru.Some? && c.kind !in {'r', 'j', 's'} then {c.fallThru.value} else {})
  }

  ghost predicate ValidProgram(p: seq<Code>) {
    forall i, s :: 0 <= i < |p| && s in Succ(p[i]) ==> s < |p|
  }

  // ----- Path liveness -----

  /** A walk that ends at a use of `r` and defines `r` nowhere before its end. */
  ghost predicate UsePath(p: seq<Code>, walk: seq<nat>, r: nat) {
    && walk != [] && (forall k :: 0 <= k < |walk| ==> walk[k] < |p|)
    && (forall k :: 0 <= k < |walk| - 1 ==> walk[k + 1] in Succ(p[walk[k]]) && r !in p[walk[k]].def)
    && r in p[walk[|walk| - 1]].use
  }

  ghost predicate LiveIn(p: seq<Code>, i: nat, r: nat) {
    exists walk :: UsePath(p, walk, r) && walk[0] == i
  }

  ghost predicate LiveOut(p: seq<Code>, i: nat, r: nat)
    requires i < |p|
  {
    exists s :: s in Succ(p[i]) && LiveIn(p, s, r)
  }

  lemma {:induction false} UseIsLive(p: seq<Code>, i: nat, r: nat)
    requires i < |p| && r in p[i].use
    ensures LiveIn(p, i, r)
  {
    assert UsePath(p, [i], r);
  }

  lemma {:induction false} OutIsLive(p: seq<Code>, i: nat, r: nat)
    requires i < |p| && LiveOut(p, i, r) && r !in p[i].def
    ensures LiveIn(p, i, r)
  {
    var s :| s in Succ(p[i]) && LiveIn(p, s, r);
    var walk :| UsePath(p, walk, r) && walk[0] == s;
    var longer := [i] + walk;
    forall k | 0 <= k < |longer| - 1 ensures longer[k + 1] in Succ(p[longer[k]]) && r !in p[longer[k]].def {
      if k > 0 { assert longer[k] == walk[k - 1] && longer[k + 1] == walk[k - 1 + 1]; }
    }
    assert longer[|longer| - 1] == walk[|walk| - 1];
    assert UsePath(p, longer, r);
  }

  // ----- The data-flow state -----

  datatype Sets = Sets(ins: seq<set<nat>>, outs: seq<set<nat>>)

  ghost predicate Sized(p: seq<Code>, s: Sets) {
    ValidProgram(p) && |s.ins| == |s.outs| == |p|
  }

  ghost function JumpIn(c: Code, s: Sets): set<nat>
    requires forall x :: x in Succ(c) ==> x < |s.ins|
  {
    if Jumps(c) then assert c.dst.value in Succ(c); s.ins[c.dst.value] else {}
  }

  ghost function FallIn(c: Code, s: Sets): set<nat>
    requires forall x :: x in Succ(c) ==> x < |s.ins|
  {
    if Falls(c) then assert c.fallThru.value in Succ(c); s.ins[c.fallThru.value] else {}
  }

  /** instruction::update_InOutSet: both sets only ever grow. */
  ghost function Update(p: seq<Code>, s: Sets, i: nat): (t: Sets)
    requires Sized(p, s) && i < |p|
    ensures Sized(p, t)
  {
    var out := s.outs[i] + JumpIn(p[i], s) + FallIn(p[i], s);
    Sets(s.ins[i := s.ins[i] + (out - p[i].def) + p[i].use], s.outs[i := out])
  }

  ghost predicate Stable(p: seq<Code>, s: Sets, i: nat)
    requires Sized(p, s) && i < |p|
  {
    && (forall x :: x in Succ(p[i]) ==> s.ins[x] <= s.outs[i])
    && s.outs[i] - p[i].def <= s.ins[i] && p[i].use <= s.ins[i]
  }

  lemma {:induction false} NoChangeIsStable(p: seq<Code>, s: Sets, i: nat)
    requires Sized(p, s) && i < |p|
    ensures Update(p, s, i) == s <==> Stable(p, s, i)
  {
    var t := Update(p, s, i);
    var out := s.outs[i] + JumpIn(p[i], s) + FallIn(p[i], s);
    if t == s {
      assert t.outs[i] == out && t.ins[i] == s.ins[i] + (out - p[i].def) + p[i].use;
    }
    if Stable(p, s, i) {
      assert out == s.outs[i];
      assert s.ins[i] + (out - p[i].def) + p[i].use == s.ins[i];
    }
  }

  /** Every member is live. */
  ghost predicate SoundAt(p: seq<Code>, s: Sets, i: nat)
    requires Sized(p, s) && i < |p|
  {
    && (forall r :: r in s.ins[i] ==> LiveIn(p, i, r))
    && (forall r :: r in s.outs[i] ==> LiveOut(p, i, r))
  }

  ghost predicate Sound(p: seq<Code>, s: Sets) {
    && Sized(p, s)
    && forall i {:trigger SoundAt(p, s, i)} :: 0 <= i < |p| ==> SoundAt(p, s, i)
  }

  lemma {:induction false} UpdateKeepsSound(p: seq<Code>, s: Sets, i: nat)
    requires Sound(p, s) && i < |p|
    ensures Sound(p, Update(p, s, i))
  {
    var t := Update(p, s, i);
    assert SoundAt(p, s, i);
    forall r | r in t.outs[i] ensures LiveOut(p, i, r) {
      if r !in s.outs[i] {
        var x := if r in JumpIn(p[i], s) then p[i].dst.value else p[i].fallThru.value;
        assert x in Succ(p[i]) && SoundAt(p, s, x);
      }
    }
    forall r | r in t.ins[i] ensures LiveIn(p, i, r) {
      if r in p[i].use {
        UseIsLive(p, i, r);
      } else if r !in s.ins[i] {
        OutIsLive(p, i, r);
      }
    }
    forall j | 0 <= j < |p| ensures SoundAt(p, t, j) { assert SoundAt(p, s, j); }
  }

  ghost predicate AllStable(p: seq<Code>, s: Sets) {
    Sized(p, s) && forall i {:trigger Stable(p, s, i)} :: 0 <= i < |p| ==> Stable(p, s, i)
  }

  /** A fixpoint holds everything live. */
  lemma {:induction false} StableIsComplete(p: seq<Code>, s: Sets, walk: seq<nat>, r: nat)
    requires AllStable(p, s) && UsePath(p, walk, r)
    ensures r in s.ins[walk[0]]
    decreases |walk|
  {
    assert Stable(p, s, walk[0]);
    if |walk| > 1 {
      var rest := walk[1..];
      forall k | 0 <= k < |rest| - 1 ensures rest[k + 1] in Succ(p[rest[k]]) && r !in p[rest[k]].def {
        assert rest[k] == walk[k + 1] && rest[k + 1] == walk[k + 1 + 1];
      }
      assert UsePath(p, rest, r);
      StableIsComplete(p, s, rest, r);
      assert walk[0 + 1] in Succ(p[walk[0]]);
    }
  }

  /** The sets are exactly path liveness. */
  ghost predicate Exact(p: seq<Code>, s: Sets) {
    && Sized(p, s)
    && (forall i, r :: 0 <= i < |p| ==> (r in s.ins[i] <==> LiveIn(p, i, r)))
    && (forall i, r :: 0 <= i < |p| ==> (r in s.outs[i] <==> LiveOut(p, i, r)))
  }

  /** A sound fixpoint is exact. */
  lemma {:induction false} SoundFixpointIsExact(p: seq<Code>, s: Sets)
    requires Sound(p, s) && AllStable(p, s)
    ensures Exact(p, s)
  {
    forall i, r | 0 <= i < |p| ensures r in s.ins[i] <==> LiveIn(p, i, r) {
      assert SoundAt(p, s, i);
      if LiveIn(p, i, r) {
        var walk :| UsePath(p, walk, r) && walk[0] == i;
        StableIsComplete(p, s, walk, r);
      }
    }
    forall i, r | 0 <= i < |p| ensures r in s.outs[i] <==> LiveOut(p, i, r) {
      assert SoundAt(p, s, i) && Stable(p, s, i);
      if LiveOut(p, i, r) {
        var x :| x in Succ(p[i]) && LiveIn(p, x, r);
        assert r in s.ins[x];
      }
    }
  }

  // ----- Termination -----

  ghost function Uses(p: seq<Code>): set<nat> {
    set i, r | 0 <= i < |p| && r in p[i].use :: r
  }

  /** What the sets do not hold yet. */
  ghost function Missing(p: seq<Code>, s: Sets): set<(bool, nat, nat)>
    requires Sized(p, s)
  {
    (set i, r | 0 <= i < |p| && r in Uses(p) && r !in s.ins[i] :: (true, i, r)) +
    (set i, r | 0 <= i < |p| && r in Uses(p) && r !in s.outs[i] :: (false, i, r))
  }

  ghost predicate Grown(s: Sets, t: Sets) {
    && |s.ins| == |t.ins| && |s.outs| == |t.outs|
    && (forall i :: 0 <= i < |s.ins| ==> s.ins[i] <= t.ins[i])
    && (forall i :: 0 <= i < |s.outs| ==> s.outs[i] <= t.outs[i])
  }

  lemma {:induction false} LiveIsUsed(p: seq<Code>, i: nat, r: nat)
    requires LiveIn(p, i, r)
    ensures r in Uses(p)
  {
    var walk :| UsePath(p, walk, r) && walk[0] == i;
    assert r in p[walk[|walk| - 1]].use;
  }

  lemma {:induction false} GrowthFillsIn(p: seq<Code>, s: Sets, t: Sets)
    requires Sound(p, s) && Sound(p, t) && Grown(s, t)
    ensures Missing(p, t) <= Missing(p, s)
    ensures s != t ==> Missing(p, t) < Missing(p, s)
  {
    if s.ins != t.ins {
      var i := DifferAt(s.ins, t.ins);
      var r := NewMember(s.ins[i], t.ins[i]);
      assert SoundAt(p, t, i);
      LiveIsUsed(p, i, r);
      assert (true, i, r) in Missing(p, s) && (true, i, r) !in Missing(p, t);
    } else if s.outs != t.outs {
      var i := DifferAt(s.outs, t.outs);
      var r := NewMember(s.outs[i], t.outs[i]);
      assert SoundAt(p, t, i);
      var x :| x in Succ(p[i]) && LiveIn(p, x, r);
      LiveIsUsed(p, x, r);
      assert (false, i, r) in Missing(p, s) && (false, i, r) !in Missing(p, t);
    }
  }

  // ----- Instructions and blocks -----

  lemma {:induction false} GrowthTest(a: set<nat>, b: set<nat>)
    requires a <= b
    ensures a != b <==> |a| != |b| || |b - a| != 0
  {
    if |b - a| == 0 { assert b - a == {}; }
  }

  /** `operands` lists the registers read and written; `archRegs` gets the registers assigned to them. */
  class Instruction {
    const code: Code
    const operands: seq<nat>
    var inSet: set<nat>
    var outSet: set<nat>
    var archRegs: seq<int>

    constructor (code: Code, operands: seq<nat>)
      ensures this.code == code && this.operands == operands && inSet == {} && outSet == {} && archRegs == []
    {
      this.code, this.operands, inSet, outSet, archRegs := code, operands, {}, {}, [];
    }

    method UpdateInOutSet(insts: seq<Instruction>) returns (change: bool)
      requires (Jumps(code) ==> code.dst.value < |insts|) && (Falls(code) ==> code.fallThru.value < |insts|)
      modifies this`inSet, this`outSet
      ensures outSet == old(outSet) + (if Jumps(code) then old(insts[code.dst.value].inSet) else {})
                        + if Falls(code) then old(insts[code.fallThru.value].inSet) else {}
      ensures inSet == old(inSet) + (outSet - code.def) + code.use
      ensures change <==> inSet != old(inSet) || outSet != old(outSet)
    {
      var oldOut, oldIn := outSet, inSet;
      var dstIn: set<nat>, fallIn: set<nat> := {}, {};
      if Jumps(code) { dstIn := insts[code.dst.value].inSet; }
      if Falls(code) { fallIn := insts[code.fallThru.value].inSet; }
      outSet := outSet + dstIn + fallIn;
      inSet := inSet + ((outSet - code.def) + code.use);
      change := |oldOut| != |outSet| || |oldIn| != |inSet| || |outSet - oldOut| != 0 || |inSet - oldIn| != 0;
      GrowthTest(oldOut, outSet);
      GrowthTest(oldIn, inSet);
    }
  }

  ghost function SetsOf(insts: seq<Instruction>): (s: Sets)
    reads insts
    ensures |s.ins| == |s.outs| == |insts|
    ensures forall i :: 0 <= i < |insts| ==> s.ins[i] == insts[i].inSet && s.outs[i] == insts[i].outSet
  {
    Sets(seq(|insts|, i requires 0 <= i < |insts| reads insts => insts[i].inSet),
         seq(|insts|, i requires 0 <= i < |insts| reads insts => insts[i].outSet))
  }

  ghost function Program(insts: seq<Instruction>): (p: seq<Code>)
    ensures |p| == |insts| && forall i :: 0 <= i < |insts| ==> p[i] == insts[i].code
  {
    seq(|insts|, i requires 0 <= i < |insts| => insts[i].code)
  }

  lemma {:induction false} SetsUpdated(s: Sets, t: Sets, i: nat)
    requires |s.ins| == |s.outs| == |t.ins| == |t.outs| && i < |s.ins|
    requires forall j :: 0 <= j < |s.ins| && j != i ==> s.ins[j] == t.ins[j] && s.outs[j] == t.outs[j]
    ensures t == Sets(s.ins[i := t.ins[i]], s.outs[i := t.outs[i]])
  {
    assert t.ins == s.ins[i := t.ins[i]];
    assert t.outs == s.outs[i := t.outs[i]];
  }

  /** One instruction of the list updated. */
  method UpdateAt(insts: seq<Instruction>, i: nat) returns (change: bool)
    requires NoDup(insts) && i < |insts| && Sound(Program(insts), SetsOf(insts))
    modifies insts[i]
    ensures SetsOf(insts) == Update(Program(insts), old(SetsOf(insts)), i)
    ensures Sound(Program(insts), SetsOf(insts)) && Grown(old(SetsOf(insts)), SetsOf(insts))
    ensures change <==> SetsOf(insts) != old(SetsOf(insts))
  {
    ghost var s := SetsOf(insts);
    UpdateKeepsSound(Program(insts), s, i);
    assert forall x :: x in Succ(Program(insts)[i]) ==> x < |insts|;
    assert Jumps(insts[i].code) ==> insts[i].code.dst.value in Succ(Program(insts)[i]);
    assert Falls(insts[i].code) ==> insts[i].code.fallThru.value in Succ(Program(insts)[i]);
    hide Sound, LiveIn, LiveOut;
    change := insts[i].UpdateInOutSet(insts);
    SetsUpdated(s, SetsOf(insts), i);
  }

  // ----- One block -----

  lemma {:induction false} GrownOn(r: Sets, s: Sets, t: Sets, list: seq<nat>)
    requires Grown(r, s) && Grown(s, t) && SameElsewhere(r, s, list) && SameElsewhere(s, t, list)
    ensures Grown(r, t) && SameElsewhere(r, t, list)
  {
  }

  /** The updates of one pass, up to position `k` of the block. */
  ghost function PassTo(p: seq<Code>, s: Sets, list: seq<nat>, k: nat): (t: Sets)
    requires Sized(p, s) && k <= |list| && forall i :: i in list ==> i < |p|
    ensures Sized(p, t)
  {
    if k == 0 then s else assert list[k - 1] in list; Update(p, PassTo(p, s, list, k - 1), list[k - 1])
  }

  ghost function Passes(p: seq<Code>, s: Sets, list: seq<nat>, n: nat): (t: Sets)
    requires Sized(p, s) && forall i :: i in list ==> i < |p|
    ensures Sized(p, t)
    decreases n
  {
    if n == 0 then s else PassTo(p, Passes(p, s, list, n - 1), list, |list|)
  }

  /** Some number of passes lead from `s` to `t`, and a further one changes nothing. */
  ghost predicate SettledFrom(p: seq<Code>, s: Sets, t: Sets, list: seq<nat>)
    requires Sized(p, s) && forall i :: i in list ==> i < |p|
  {
    exists n :: t == Passes(p, s, list, n) && PassTo(p, Passes(p, s, list, n), list, |list|) == t
  }

  /** Passes over the block until one changes nothing. */
  method Settle(b: Block, insts: seq<Instruction>)
    requires NoDup(insts) && Sound(Program(insts), SetsOf(insts)) && Holds(b, insts)
    modifies Instructions(insts, b.insList)
    ensures Sound(Program(insts), SetsOf(insts)) && Grown(old(SetsOf(insts)), SetsOf(insts))
    ensures Sized(Program(insts), SetsOf(insts)) && BlockStable(Program(insts), SetsOf(insts), b.insList)
    ensures SameElsewhere(old(SetsOf(insts)), SetsOf(insts), b.insList)
    ensures Sized(Program(insts), old(SetsOf(insts)))
    ensures SettledFrom(Program(insts), old(SetsOf(insts)), SetsOf(insts), b.insList)
  {
    assert Sized(Program(insts), SetsOf(insts));
    hide Sound, BlockStable, Missing, Grown, SameElsewhere, PassTo;
    ghost var was := SetsOf(insts);
    var intraChange := Pass(b, insts);
    ghost var n := 1;
    assert PassTo(Program(insts), was, b.insList, |b.insList|) == Passes(Program(insts), was, b.insList, 1);
    while intraChange
      invariant n > 0 && SetsOf(insts) == Passes(Program(insts), was, b.insList, n)
      invariant !intraChange ==> Passes(Program(insts), was, b.insList, n) == Passes(Program(insts), was, b.insList, n - 1)
      invariant Sound(Program(insts), SetsOf(insts)) && Grown(was, SetsOf(insts))
      invariant SameElsewhere(was, SetsOf(insts), b.insList)
      invariant Sized(Program(insts), SetsOf(insts))
      invariant !intraChange ==> BlockStable(Program(insts), SetsOf(insts), b.insList)
      decreases Missing(Program(insts), SetsOf(insts)), intraChange
    {
      ghost var before := SetsOf(insts);
      intraChange := Pass(b, insts);
      n := n + 1;
      GrowthFillsIn(Program(insts), before, SetsOf(insts));
      GrownOn(was, before, SetsOf(insts), b.insList);
    }
    assert PassTo(Program(insts), Passes(Program(insts), was, b.insList, n - 1), b.insList, |b.insList|) == SetsOf(insts);
  }

  class Block {
    const insList: seq<nat>
    var inSet: set<nat>
    var outSet: set<nat>
    var visited: bool
    var regAllocated: bool

    constructor (insList: seq<nat>)
      ensures this.insList == insList && inSet == {} && outSet == {} && !visited && !regAllocated
    {
      this.insList, inSet, outSet, visited, regAllocated := insList, {}, {}, false, false;
    }

    /** The do-while loop of the block: repeats until a whole pass changes nothing, then copies the in set
        of the first and the out set of the last instruction. Tells whether a size changed. */
    method UpdateInOutSet(insts: seq<Instruction>) returns (interChange: bool)
      requires NoDup(insts) && Sound(Program(insts), SetsOf(insts)) && Holds(this, insts) && Copied(this, insts)
      modifies this, Instructions(insts, insList)
      ensures Sound(Program(insts), SetsOf(insts)) && Grown(old(SetsOf(insts)), SetsOf(insts))
      ensures Sized(Program(insts), SetsOf(insts)) && BlockStable(Program(insts), SetsOf(insts), insList)
      ensures SameElsewhere(old(SetsOf(insts)), SetsOf(insts), insList)
      ensures Sized(Program(insts), old(SetsOf(insts)))
      ensures SettledFrom(Program(insts), old(SetsOf(insts)), SetsOf(insts), insList)
      ensures Holds(this, insts) && Copied(this, insts)
      ensures interChange <==> inSet != old(inSet) || outSet != old(outSet)
    {
      hide Sound, Stable, Missing, SettledFrom;
      var outSetSize, inSetSize := |outSet|, |inSet|;
      ghost var wasIn, wasOut := inSet, outSet;
      Settle(this, insts);
      inSet := insts[insList[0]].inSet;
      outSet := insts[insList[|insList| - 1]].outSet;
      interChange := outSetSize != |outSet| || inSetSize != |inSet|;
      SubsetSmaller(wasIn, inSet);
      SubsetSmaller(wasOut, outSet);
    }
  }

  ghost predicate Holds(b: Block, insts: seq<Instruction>) {
    b.insList != [] && forall k :: 0 <= k < |b.insList| ==> b.insList[k] < |insts|
  }

  /** The sets of a block are those of its first and last instruction. */
  ghost predicate Copied(b: Block, insts: seq<Instruction>)
    requires Holds(b, insts)
    reads b, insts
  {
    && b.inSet == insts[b.insList[0]].inSet
    && b.outSet == insts[b.insList[|b.insList| - 1]].outSet
  }

  ghost function Instructions(insts: seq<Instruction>, list: seq<nat>): set<Instruction> {
    set k | 0 <= k < |list| && list[k] < |insts| :: insts[list[k]]
  }

  ghost predicate BlockStable(p: seq<Code>, s: Sets, list: seq<nat>)
    requires Sized(p, s)
  {
    forall k :: 0 <= k < |list| && list[k] < |p| ==> Stable(p, s, list[k])
  }

  ghost predicate SameElsewhere(s: Sets, t: Sets, list: seq<nat>) {
    && |s.ins| == |t.ins| && |s.outs| == |t.outs|
    && (forall i :: 0 <= i < |s.ins| && i !in list ==> s.ins[i] == t.ins[i])
    && (forall i :: 0 <= i < |s.outs| && i !in list ==> s.outs[i] == t.outs[i])
  }

  method PassStep(b: Block, insts: seq<Instruction>, k: nat) returns (change: bool)
    requires NoDup(insts) && Sound(Program(insts), SetsOf(insts)) && Holds(b, insts) && k < |b.insList|
    modifies Instructions(insts, b.insList)
    ensures Sound(Program(insts), SetsOf(insts)) && Grown(old(SetsOf(insts)), SetsOf(insts))
    ensures SameElsewhere(old(SetsOf(insts)), SetsOf(insts), b.insList)
    ensures Sized(Program(insts), SetsOf(insts)) && Sized(Program(insts), old(SetsOf(insts)))
    ensures SetsOf(insts) == Update(Program(insts), old(SetsOf(insts)), b.insList[k])
    ensures change <==> SetsOf(insts) != old(SetsOf(insts))
    ensures !change ==> Stable(Program(insts), old(SetsOf(insts)), b.insList[k])
  {
    hide SoundAt, Stable;
    assert insts[b.insList[k]] in Instructions(insts, b.insList);
    NoChangeIsStable(Program(insts), SetsOf(insts), b.insList[k]);
    change := UpdateAt(insts, b.insList[k]);
  }

  /** The state of a pass after `i` instructions. */
  ghost predicate InPass(p: seq<Code>, was: Sets, now: Sets, list: seq<nat>, i: nat, change: bool) {
    && Sound(p, now) && Sized(p, was) && (forall x :: x in list ==> x < |p|) && i <= |list|
    && Grown(was, now) && SameElsewhere(was, now, list) && now == PassTo(p, was, list, i)
    && (change <==> now != was)
    && (!change ==> forall k :: 0 <= k < i && list[k] < |p| ==> Stable(p, was, list[k]))
  }

  lemma {:induction false} NextInPass(p: seq<Code>, was: Sets, before: Sets, now: Sets, list: seq<nat>, i: nat, change: bool, insChange: bool)
    requires InPass(p, was, before, list, i, change) && i < |list| && Sound(p, now) && Grown(before, now)
    requires list[i] < |p| && SameElsewhere(before, now, list) && now == Update(p, before, list[i])
    requires (insChange <==> now != before) && (!insChange ==> Stable(p, before, list[i]))
    ensures InPass(p, was, now, list, i + 1, change || insChange)
  {
    hide Sound, Stable, Update;
    GrownBack(was, before, now);
  }

  /** One pass over the instructions of a block. */
  method Pass(b: Block, insts: seq<Instruction>) returns (change: bool)
    requires NoDup(insts) && Sound(Program(insts), SetsOf(insts)) && Holds(b, insts)
    modifies Instructions(insts, b.insList)
    ensures Sound(Program(insts), SetsOf(insts)) && Grown(old(SetsOf(insts)), SetsOf(insts))
    ensures SameElsewhere(old(SetsOf(insts)), SetsOf(insts), b.insList)
    ensures change <==> SetsOf(insts) != old(SetsOf(insts))
    ensures Sized(Program(insts), SetsOf(insts)) && Sized(Program(insts), old(SetsOf(insts)))
    ensures SetsOf(insts) == PassTo(Program(insts), old(SetsOf(insts)), b.insList, |b.insList|)
    ensures !change ==> BlockStable(Program(insts), SetsOf(insts), b.insList)
  {
    ghost var p, was := Program(insts), SetsOf(insts);
    assert InPass(p, was, was, b.insList, 0, false);
    hide Stable, Update, PassTo, SoundAt, Grown, SameElsewhere;
    change := PassFrom(b, insts, was);
  }

  method PassFrom(b: Block, insts: seq<Instruction>, ghost was: Sets) returns (change: bool)
    requires NoDup(insts) && Holds(b, insts) && InPass(Program(insts), was, SetsOf(insts), b.insList, 0, false)
    modifies Instructions(insts, b.insList)
    ensures InPass(Program(insts), was, SetsOf(insts), b.insList, |b.insList|, change)
  {
    hide InPass, Stable, Update, SoundAt, Grown, SameElsewhere, NoDup, Sound;
    change := false;
    var i := 0;
    while i < |b.insList|
      invariant i <= |b.insList|
      invariant InPass(Program(insts), was, SetsOf(insts), b.insList, i, change)
    {
      ghost var before := SetsOf(insts);
      assert Sound(Program(insts), before) by { PassIsSound(Program(insts), was, before, b.insList, i, change); }
      var insChange := PassStep(b, insts, i);
      NextInPass(Program(insts), was, before, SetsOf(insts), b.insList, i, change, insChange);
      change := change || insChange;
      i := i + 1;
    }
  }

  lemma {:induction false} PassIsSound(p: seq<Code>, was: Sets, now: Sets, list: seq<nat>, i: nat, change: bool)
    requires InPass(p, was, now, list, i, change)
    ensures Sound(p, now)
  {
  }

  /** Growth does not come back to where it started. */
  lemma {:induction false} GrownBack(r: Sets, s: Sets, t: Sets)
    requires Grown(r, s) && Grown(s, t)
    ensures Grown(r, t) && (r == t ==> r == s)
  {
    if r == t {
      assert forall i :: 0 <= i < |r.ins| ==> s.ins[i] == r.ins[i];
      assert forall i :: 0 <= i < |r.outs| ==> s.outs[i] == r.outs[i];
      assert s.ins == r.ins && s.outs == r.outs;
    }
  }

  // ----- The whole analysis -----

  /** The blocks are non-empty and share no instruction; every instruction is in one of them. */
  ghost predicate Partition(insts: seq<Instruction>, blocks: seq<Block>) {
    && (forall b :: 0 <= b < |blocks| ==> Holds(blocks[b], insts))
    && (forall a, b, i :: 0 <= a < b < |blocks| && i in blocks[a].insList ==> i !in blocks[b].insList)
    && NoDup(blocks)
    && (forall i {:trigger InSome(blocks, i)} :: 0 <= i < |insts| ==> InSome(blocks, i))
  }

  ghost predicate InSome(blocks: seq<Block>, i: nat) {
    exists b :: 0 <= b < |blocks| && i in blocks[b].insList
  }

  ghost predicate IsHead(blocks: seq<Block>, s: nat) {
    exists b :: 0 <= b < |blocks| && blocks[b].insList != [] && blocks[b].insList[0] == s
  }

  /** Control enters another block only at its first instruction. */
  ghost predicate EnteredAtHead(p: seq<Code>, blocks: seq<Block>) {
    forall b, i, s :: 0 <= b < |blocks| && i in blocks[b].insList && i < |p| && s in Succ(p[i]) ==>
      s in blocks[b].insList || IsHead(blocks, s)
  }

  ghost predicate AllCopied(insts: seq<Instruction>, blocks: seq<Block>)
    requires forall b :: 0 <= b < |blocks| ==> Holds(blocks[b], insts)
    reads blocks, insts
  {
    forall b :: 0 <= b < |blocks| ==> Copied(blocks[b], insts)
  }

  /** Updating block `x` without a change of its in set leaves the other blocks stable. */
  lemma {:induction false} OthersStayStable(p: seq<Code>, s: Sets, t: Sets, insts: seq<Instruction>, blocks: seq<Block>, b: nat, x: nat)
    requires Sized(p, s) && Sized(p, t) && |p| == |insts| && Partition(insts, blocks) && EnteredAtHead(p, blocks)
    requires b < |blocks| && x < |blocks| && b != x && BlockStable(p, s, blocks[b].insList)
    requires SameElsewhere(s, t, blocks[x].insList)
    requires blocks[x].insList[0] < |p| && t.ins[blocks[x].insList[0]] == s.ins[blocks[x].insList[0]]
    ensures BlockStable(p, t, blocks[b].insList)
  {
    var list := blocks[b].insList;
    forall k | 0 <= k < |list| && list[k] < |p| ensures Stable(p, t, list[k]) {
      var i := list[k];
      assert Stable(p, s, i) && i !in blocks[x].insList;
      forall y | y in Succ(p[i]) ensures t.ins[y] <= t.outs[i] {
        if y !in list {
          assert IsHead(blocks, y);
          var c :| 0 <= c < |blocks| && blocks[c].insList != [] && blocks[c].insList[0] == y;
          if c != x { assert y in blocks[c].insList && y !in blocks[x].insList; }
        }
        assert t.ins[y] == s.ins[y];
      }
    }
  }

  lemma {:induction false} LaterStayStable(p: seq<Code>, s: Sets, t: Sets, insts: seq<Instruction>, blocks: seq<Block>, x: nat)
    requires Sized(p, s) && Sized(p, t) && |p| == |insts| && Partition(insts, blocks) && EnteredAtHead(p, blocks)
    requires x < |blocks| && forall b :: x < b < |blocks| ==> BlockStable(p, s, blocks[b].insList)
    requires SameElsewhere(s, t, blocks[x].insList)
    requires blocks[x].insList[0] < |p| && t.ins[blocks[x].insList[0]] == s.ins[blocks[x].insList[0]]
    ensures forall b :: x < b < |blocks| ==> BlockStable(p, t, blocks[b].insList)
  {
    forall b | x < b < |blocks| ensures BlockStable(p, t, blocks[b].insList) {
      OthersStayStable(p, s, t, insts, blocks, b, x);
    }
  }

  /** One block of the round updated. */
  method UpdateBlock(insts: seq<Instruction>, blocks: seq<Block>, x: nat) returns (change: bool)
    requires NoDup(insts) && Sound(Program(insts), SetsOf(insts)) && Partition(insts, blocks)
    requires AllCopied(insts, blocks) && x < |blocks|
    modifies blocks, insts
    ensures Sound(Program(insts), SetsOf(insts)) && Grown(old(SetsOf(insts)), SetsOf(insts))
    ensures Sized(Program(insts), SetsOf(insts)) && BlockStable(Program(insts), SetsOf(insts), blocks[x].insList)
    ensures SameElsewhere(old(SetsOf(insts)), SetsOf(insts), blocks[x].insList)
    ensures AllCopied(insts, blocks)
    ensures change ==> SetsOf(insts) != old(SetsOf(insts))
    ensures !change ==> SetsOf(insts).ins[blocks[x].insList[0]] == old(SetsOf(insts).ins[blocks[x].insList[0]])
  {
    hide Sound, BlockStable;
    ghost var was := SetsOf(insts);
    assert Copied(blocks[x], insts);
    change := blocks[x].UpdateInOutSet(insts);
    forall b | 0 <= b < |blocks| && b != x ensures Copied(blocks[b], insts) {
      var list := blocks[b].insList;
      assert list[0] in list && list[|list| - 1] in list;
      assert list[0] !in blocks[x].insList && list[|list| - 1] !in blocks[x].insList;
      assert SetsOf(insts).ins[list[0]] == was.ins[list[0]];
      assert SetsOf(insts).outs[list[|list| - 1]] == was.outs[list[|list| - 1]];
    }
  }

  /** The blocks from `i` on are stable, if control enters blocks at their heads. */
  ghost predicate StableFrom(p: seq<Code>, s: Sets, blocks: seq<Block>, i: nat)
    requires Sized(p, s)
  {
    EnteredAtHead(p, blocks) ==> forall b :: i <= b < |blocks| ==> BlockStable(p, s, blocks[b].insList)
  }

  /** One turn of a round. */
  method UpdateNext(insts: seq<Instruction>, blocks: seq<Block>, x: nat, ghost was: Sets, change0: bool) returns (change: bool)
    requires NoDup(insts) && Sound(Program(insts), SetsOf(insts)) && Partition(insts, blocks)
    requires Sized(Program(insts), SetsOf(insts)) && Sized(Program(insts), was)
    requires AllCopied(insts, blocks) && x < |blocks| && Grown(was, SetsOf(insts))
    requires change0 ==> SetsOf(insts) != was
    requires !change0 ==> StableFrom(Program(insts), SetsOf(insts), blocks, x + 1)
    modifies blocks, insts
    ensures Sound(Program(insts), SetsOf(insts)) && Sized(Program(insts), SetsOf(insts)) && Grown(was, SetsOf(insts))
    ensures AllCopied(insts, blocks)
    ensures change ==> SetsOf(insts) != was
    ensures !change ==> StableFrom(Program(insts), SetsOf(insts), blocks, x)
  {
    hide Sound, BlockStable, AllCopied, EnteredAtHead, SameElsewhere;
    ghost var before := SetsOf(insts);
    var blockChange := UpdateBlock(insts, blocks, x);
    GrownBack(was, before, SetsOf(insts));
    if !change0 && !blockChange && EnteredAtHead(Program(insts), blocks) {
      LaterStayStable(Program(insts), before, SetsOf(insts), insts, blocks, x);
    }
    change := change0 || blockChange;
  }

  /** One round over the blocks, last block first. */
  method Round(insts: seq<Instruction>, blocks: seq<Block>) returns (change: bool)
    requires NoDup(insts) && Sound(Program(insts), SetsOf(insts)) && Partition(insts, blocks)
    requires AllCopied(insts, blocks)
    modifies blocks, insts
    ensures Sound(Program(insts), SetsOf(insts)) && Grown(old(SetsOf(insts)), SetsOf(insts))
    ensures AllCopied(insts, blocks)
    ensures change ==> SetsOf(insts) != old(SetsOf(insts))
    ensures !change && EnteredAtHead(Program(insts), blocks) ==> AllStable(Program(insts), SetsOf(insts))
  {
    assert Sized(Program(insts), SetsOf(insts)) && StableFrom(Program(insts), SetsOf(insts), blocks, |blocks|);
    hide Sound, BlockStable, AllCopied, EnteredAtHead, Partition;
    ghost var was := SetsOf(insts);
    change := false;
    var i := |blocks|;
    while i > 0
      invariant 0 <= i <= |blocks|
      invariant Sound(Program(insts), SetsOf(insts)) && Sized(Program(insts), SetsOf(insts)) && Grown(was, SetsOf(insts))
      invariant AllCopied(insts, blocks)
      invariant change ==> SetsOf(insts) != was
      invariant !change ==> StableFrom(Program(insts), SetsOf(insts), blocks, i)
    {
      i := i - 1;
      change := UpdateNext(insts, blocks, i, was, change);
    }
    if !change && EnteredAtHead(Program(insts), blocks) { BlocksCover(Program(insts), SetsOf(insts), insts, blocks); }
  }

  lemma {:induction false} BlocksCover(p: seq<Code>, s: Sets, insts: seq<Instruction>, blocks: seq<Block>)
    requires Sized(p, s) && |p| == |insts| && Partition(insts, blocks)
    requires forall b :: 0 <= b < |blocks| ==> BlockStable(p, s, blocks[b].insList)
    ensures AllStable(p, s)
  {
    forall i | 0 <= i < |p| ensures Stable(p, s, i) {
      assert InSome(blocks, i);
      var b :| 0 <= b < |blocks| && i in blocks[b].insList;
      assert BlockStable(p, s, blocks[b].insList);
    }
  }

  /** livenessAnalysis ends with sets that hold live registers only. They hold all of them although the outer
      loop looks only at the sizes of the sets of the blocks, if control enters blocks at their heads. */
  method LivenessAnalysis(insts: seq<Instruction>, blocks: seq<Block>)
    requires NoDup(insts) && ValidProgram(Program(insts)) && Partition(insts, blocks)
    requires forall i :: 0 <= i < |insts| ==> insts[i].inSet == {} && insts[i].outSet == {}
    requires forall b :: 0 <= b < |blocks| ==> blocks[b].inSet == {} && blocks[b].outSet == {}
    modifies blocks, insts
    ensures Sound(Program(insts), SetsOf(insts))
    ensures EnteredAtHead(Program(insts), blocks) ==> Exact(Program(insts), SetsOf(insts))
    ensures forall b :: 0 <= b < |blocks| ==>
              && blocks[b].inSet == insts[blocks[b].insList[0]].inSet
              && blocks[b].outSet == insts[blocks[b].insList[|blocks[b].insList| - 1]].outSet
  {
    ghost var p := Program(insts);
    assert Sized(p, SetsOf(insts)) && forall i :: 0 <= i < |p| ==> SoundAt(p, SetsOf(insts), i);
    assert Sound(p, SetsOf(insts));
    hide Sound, Exact, AllStable, EnteredAtHead;
    var change := true;
    while change
      invariant Sound(p, SetsOf(insts)) && Sized(p, SetsOf(insts)) && AllCopied(insts, blocks)
      invariant !change && EnteredAtHead(p, blocks) ==> AllStable(p, SetsOf(insts))
      decreases Missing(p, SetsOf(insts)), change
    {
      ghost var before := SetsOf(insts);
      change := Round(insts, blocks);
      GrowthFillsIn(p, before, SetsOf(insts));
    }
    if EnteredAtHead(p, blocks) { SoundFixpointIsExact(p, SetsOf(insts)); }
  }

  // ----- A program on which the analysis stops early -----

  /** Instruction 0 defines register 7, instruction 1 uses it, and instruction 2, in a block of its own,
      jumps to instruction 1. */
  function JumpIntoBlock(): seq<Code> {
    [Code('n', None, Some(1), {}, {7}), Code('r', None, None, {7}, {}), Code('j', Some(1), None, {}, {})]
  }

  function NothingLive(): Sets { Sets([{}, {}, {}], [{}, {}, {}]) }
  function FirstBlockDone(): Sets { Sets([{}, {7}, {}], [{7}, {}, {}]) }

  /** Updating the last block and then the first one, as a round does, changes no set at the ends of a block.
      So the analysis ends, and misses that register 7 is live before and after the jump. */
  lemma {:induction false} SizeTestStopsEarly(s: Sets, t: Sets)
    requires Sized(JumpIntoBlock(), NothingLive())
    requires SettledFrom(JumpIntoBlock(), NothingLive(), s, [2])
    requires Sized(JumpIntoBlock(), s) && SettledFrom(JumpIntoBlock(), s, t, [0, 1])
    ensures s == NothingLive() && t == FirstBlockDone()
    ensures t.ins[2] == {} && t.outs[2] == {} && t.ins[0] == {} && t.outs[1] == {}
    ensures LiveIn(JumpIntoBlock(), 2, 7) && !Exact(JumpIntoBlock(), t)
  {
    LastBlockQuiet();
    SettledIs(JumpIntoBlock(), NothingLive(), s, [2], 0);
    FirstBlockPasses();
    hide JumpIntoBlock, PassTo;
    SettledIs(JumpIntoBlock(), s, t, [0, 1], 2);
    JumpMissed();
  }

  lemma {:induction false} JumpMissed()
    ensures LiveIn(JumpIntoBlock(), 2, 7) && !Exact(JumpIntoBlock(), FirstBlockDone())
  {
    JumpIntoBlockSized();
    var walk: seq<nat> := [2, 1];
    assert UsePath(JumpIntoBlock(), walk, 7);
    assert 7 !in FirstBlockDone().ins[2];
  }

  /** Passes that settle lead to one place. */
  lemma {:induction false} SettledIs(p: seq<Code>, s: Sets, t: Sets, list: seq<nat>, m: nat)
    requires Sized(p, s) && (forall i :: i in list ==> i < |p|) && SettledFrom(p, s, t, list)
    requires PassTo(p, Passes(p, s, list, m), list, |list|) == Passes(p, s, list, m)
    ensures t == Passes(p, s, list, m)
  {
    var n :| t == Passes(p, s, list, n) && PassTo(p, Passes(p, s, list, n), list, |list|) == t;
    hide Passes, PassTo;
    if m <= n { StaysSettled(p, s, list, m, n); } else { StaysSettled(p, s, list, n, m); }
  }

  lemma {:induction false} JumpIntoBlockSized()
    ensures Sized(JumpIntoBlock(), NothingLive()) && Sized(JumpIntoBlock(), FirstBlockDone())
  {
    var p := JumpIntoBlock();
    assert p[0].fallThru == Some(1) && p[2].dst == Some(1);
  }

  /** One update with the sets it leaves. */
  lemma {:induction false} UpdateGives(p: seq<Code>, s: Sets, i: nat, inSet: set<nat>, outSet: set<nat>)
    requires Sized(p, s) && i < |p| && outSet == s.outs[i] + JumpIn(p[i], s) + FallIn(p[i], s)
    requires inSet == s.ins[i] + (outSet - p[i].def) + p[i].use
    ensures Update(p, s, i) == Sets(s.ins[i := inSet], s.outs[i := outSet])
  {
  }

  lemma {:induction false} LastBlockQuiet()
    ensures Sized(JumpIntoBlock(), NothingLive()) && PassTo(JumpIntoBlock(), NothingLive(), [2], 1) == NothingLive()
  {
    JumpIntoBlockSized();
    var p, s := JumpIntoBlock(), NothingLive();
    UpdateGives(p, s, 2, {}, {});
    assert s.ins[2 := {}] == s.ins && s.outs[2 := {}] == s.outs;
    assert PassTo(p, s, [2], 0) == s;
  }

  /** The use is seen in the first pass, and what lies before it in the second. */
  lemma {:induction false} FirstBlockPasses()
    ensures Sized(JumpIntoBlock(), NothingLive())
    ensures PassTo(JumpIntoBlock(), NothingLive(), [0, 1], 2) == Sets([{}, {7}, {}], [{}, {}, {}])
    ensures Passes(JumpIntoBlock(), NothingLive(), [0, 1], 1) == Sets([{}, {7}, {}], [{}, {}, {}])
    ensures Passes(JumpIntoBlock(), NothingLive(), [0, 1], 2) == FirstBlockDone()
    ensures Sized(JumpIntoBlock(), FirstBlockDone())
    ensures PassTo(JumpIntoBlock(), FirstBlockDone(), [0, 1], 2) == FirstBlockDone()
  {
    JumpIntoBlockSized();
    var p, s, t := JumpIntoBlock(), NothingLive(), FirstBlockDone();
    var u := Sets([{}, {7}, {}], [{}, {}, {}]);
    PassGives(s, {}, {}, u);
    PassGives(u, {}, {7}, t);
    PassGives(t, {}, {7}, t);
    assert Passes(p, s, [0, 1], 0) == s;
    assert Passes(p, s, [0, 1], 1) == u;
  }

  /** One pass over the first block. */
  lemma {:induction false} PassGives(s: Sets, inSet: set<nat>, outSet: set<nat>, t: Sets)
    requires Sized(JumpIntoBlock(), s) && outSet == s.outs[0] + s.ins[1] && inSet == s.ins[0] + (outSet - {7})
    requires t == Sets(s.ins[0 := inSet][1 := s.ins[1] + (s.outs[1] + {7})], s.outs[0 := outSet])
    ensures PassTo(JumpIntoBlock(), s, [0, 1], 2) == t
  {
    var p := JumpIntoBlock();
    assert p[0].fallThru == Some(1) && p[0].def == {7} && p[0].use == {} && p[1].def == {} && p[1].use == {7};
    UpdateGives(p, s, 0, inSet, outSet);
    var u := Update(p, s, 0);
    UpdateGives(p, u, 1, s.ins[1] + (s.outs[1] + {7}), s.outs[1]);
    assert u.outs[1 := s.outs[1]] == u.outs;
    assert PassTo(p, s, [0, 1], 0) == s;
    assert PassTo(p, s, [0, 1], 1) == u;
  }

  lemma {:induction false} StaysSettled(p: seq<Code>, s: Sets, list: seq<nat>, m: nat, n: nat)
    requires Sized(p, s) && (forall i :: i in list ==> i < |p|) && m <= n
    requires PassTo(p, Passes(p, s, list, m), list, |list|) == Passes(p, s, list, m)
    ensures Passes(p, s, list, n) == Passes(p, s, list, m)
    decreases n
  {
    if m < n { StaysSettled(p, s, list, m, n - 1); }
  }
}
