/** Renaming refines a sequential register machine: values flow through physical registers, instructions
    complete in any order and commit in program order, and a squash may come at any time. */
module RenameMachine {
  import opened Collections
  import opened RenameSpec
  import opened RenameWindow

  /** Result `k` of an operation on its source values; operations are left uninterpreted. */
  type Semantics = (nat, seq<int>, nat) -> int

  /** A committed instruction. */
  datatype Op = Op(op: nat, rd: seq<nat>, wr: seq<nat>)

  function Get(regs: map<nat, int>, r: nat): int {
    if r in regs then regs[r] else 0
  }

  ghost function Read(regs: map<nat, int>, rd: seq<nat>): (v: seq<int>)
    ensures |v| == |rd|
  {
    seq(|rd|, k requires 0 <= k < |rd| => Get(regs, rd[k]))
  }

  /** The first `n` results written in order. */
  ghost function WriteBack(sem: Semantics, op: nat, src: seq<int>, regs: map<nat, int>, wr: seq<nat>, n: nat): map<nat, int>
    requires n <= |wr|
  {
    if n == 0 then regs else WriteBack(sem, op, src, regs, wr, n - 1)[wr[n - 1] := sem(op, src, n - 1)]
  }

  // ----- The sequential machine -----

  ghost function Exec(sem: Semantics, regs: map<nat, int>, o: Op): map<nat, int> {
    WriteBack(sem, o.op, Read(regs, o.rd), regs, o.wr, |o.wr|)
  }

  ghost function ExecAll(sem: Semantics, regs: map<nat, int>, log: seq<Op>): map<nat, int> {
    if log == [] then regs else Exec(sem, ExecAll(sem, regs, log[..|log| - 1]), log[|log| - 1])
  }

  ghost function OpOf(i: Ins): Op {
    Op(i.op, i.rd, i.wr)
  }

  /** The sequential registers after the in-flight instructions of `win`. */
  ghost function SeqRegs(sem: Semantics, arch: map<nat, int>, win: seq<Ins>): map<nat, int> {
    if win == [] then arch else Exec(sem, SeqRegs(sem, arch, win[..|win| - 1]), OpOf(win[|win| - 1]))
  }

  lemma {:induction false} SeqRegsAfterHead(sem: Semantics, arch: map<nat, int>, win: seq<Ins>, j: nat)
    requires 0 < j <= |win|
    ensures SeqRegs(sem, Exec(sem, arch, OpOf(win[0])), win[1..][..j - 1]) == SeqRegs(sem, arch, win[..j])
    decreases j
  {
    if j == 1 {
      assert win[..1][..0] == [] && win[1..][..0] == [];
    } else {
      SeqRegsAfterHead(sem, arch, win, j - 1);
      assert win[..j][..j - 1] == win[..j - 1];
      assert win[1..][..j - 1][..j - 2] == win[1..][..j - 2];
    }
  }

  // ----- The renamed machine -----

  /** `val` holds the physical registers, `arch` and `log` the committed registers and instructions. */
  datatype Machine = Machine(t: Table, win: seq<Ins>, val: map<nat, int>, arch: map<nat, int>, log: seq<Op>)

  datatype Event =
    | Rename(op: nat, rd: seq<nat>, wr: seq<nat>, blk: nat)
    | Ready(i: nat)
    | Complete(i: nat)
    | Commit
    | Squash

  /** Instructions rename when registers suffice, execute once no source is waiting, and commit in order. */
  ghost predicate Enabled(c: Config, m: Machine, e: Event) {
    match e
    case Rename(op, rd, wr, blk) =>
      AllAR(c, rd) && AllAR(c, wr) && blk < c.blkCnt && |wr| <= TotalFree(m.t.free)
    case Ready(i) => i < |m.win|
    case Complete(i) => i < |m.win| && !m.win[i].complete && m.win[i].waiting == []
    case Commit => m.win != [] && m.win[0].complete
    case Squash => true
  }

  lemma {:induction false} MapHasNames(c: Config, t: Table, win: seq<Ins>, names: seq<nat>)
    requires WindowInv(c, t, win) && AllAR(c, names)
    ensures forall k :: 0 <= k < |names| ==> names[k] in t.frat
  {
    forall k | 0 <= k < |names| ensures names[k] in t.frat { MapHasName(c, t, Flat(win), names[k]); }
  }

  ghost predicate DestsKnown(t: Table, i: Ins) {
    forall k :: 0 <= k < |i.pwr| ==> i.pwr[k] in t.rf
  }

  lemma {:induction false} DestsAreKnown(c: Config, t: Table, win: seq<Ins>, i: nat)
    requires WindowInv(c, t, win) && i < |win|
    ensures DestsKnown(t, win[i])
  {
    forall k | 0 <= k < |win[i].pwr| ensures win[i].pwr[k] in t.rf { DestInFlight(c, t, win, i, k); }
  }

  ghost function Step(c: Config, sem: Semantics, m: Machine, e: Event): Machine
    requires WindowInv(c, m.t, m.win) && Enabled(c, m, e)
  {
    match e
    case Rename(op, rd, wr, blk) =>
      MapHasNames(c, m.t, m.win, rd);
      MapHasNames(c, m.t, m.win, wr);
      m.(t := RenameWrites(c, m.t, wr, blk).0, win := m.win + [Renamed(c, m.t, op, rd, wr, blk)])
    case Ready(i) =>
      m.(win := m.win[i := m.win[i].(waiting := Keep(m.t, m.win[i].waiting))])
    case Complete(i) =>
      DestsAreKnown(c, m.t, m.win, i);
      var ins := m.win[i];
      m.(t := CompleteAll(m.t, ins.pwr), win := m.win[i := ins.(complete := true)],
         val := WriteBack(sem, ins.op, Read(m.val, ins.prd), m.val, ins.pwr, |ins.pwr|))
    case Commit =>
      m.(t := CommitHead(c, m.t, m.win), win := m.win[1..],
         arch := Exec(sem, m.arch, OpOf(m.win[0])), log := m.log + [OpOf(m.win[0])])
    case Squash =>
      m.(t := RenameSpec.Squash(c, m.t), win := [])
  }

  /** A complete instruction left the values that the sequential machine would write. */
  ghost predicate Produced(sem: Semantics, m: Machine, i: nat)
    requires i < |m.win|
  {
    forall k :: 0 <= k < |m.win[i].pwr| ==>
      Get(m.val, m.win[i].pwr[k]) == sem(m.win[i].op, Read(SeqRegs(sem, m.arch, m.win[..i]), m.win[i].rd), k)
  }

  ghost predicate CommittedValues(c: Config, m: Machine) {
    forall a :: c.IsAR(a) ==> a in m.t.crat && a in m.arch && Get(m.val, m.t.crat[a]) == m.arch[a]
  }

  ghost predicate ValueInv(c: Config, sem: Semantics, m: Machine) {
    && WindowInv(c, m.t, m.win)
    && CommittedValues(c, m)
    && forall i {:trigger Produced(sem, m, i)} :: 0 <= i < |m.win| && m.win[i].complete ==> Produced(sem, m, i)
  }

  // ----- A mapped valid register holds the sequential value -----

  lemma {:induction false} ValueOfMapped(c: Config, sem: Semantics, m: Machine, i: nat, a: nat)
    requires ValueInv(c, sem, m) && i <= |m.win| && c.IsAR(a) && a in m.t.crat
    requires ValidReg(m.t, Apply(m.t.crat, Flat(m.win[..i]))[a])
    ensures Get(m.val, Apply(m.t.crat, Flat(m.win[..i]))[a]) == Get(SeqRegs(sem, m.arch, m.win[..i]), a)
    decreases i, 1
  {
    hide RenameSpec.Inv, InsOk;
    if i > 0 {
      var ins := m.win[i - 1];
      assert m.win[..i][..i - 1] == m.win[..i - 1];
      assert Flat(m.win[..i]) == Flat(m.win[..i - 1]) + WritesOf(ins);
      assert WritesOf(ins)[..|ins.wr|] == WritesOf(ins);
      ValueAfterWrites(c, sem, m, i - 1, |ins.wr|, a);
    }
  }

  /** The same after the first `n` writes of instruction `i`. */
  lemma {:induction false} ValueAfterWrites(c: Config, sem: Semantics, m: Machine, i: nat, n: nat, a: nat)
    requires ValueInv(c, sem, m) && i < |m.win| && n <= |m.win[i].wr| && c.IsAR(a) && a in m.t.crat
    requires ValidReg(m.t, Apply(m.t.crat, Flat(m.win[..i]) + WritesOf(m.win[i])[..n])[a])
    ensures var ins, regs := m.win[i], SeqRegs(sem, m.arch, m.win[..i]);
            Get(m.val, Apply(m.t.crat, Flat(m.win[..i]) + WritesOf(ins)[..n])[a])
            == Get(WriteBack(sem, ins.op, Read(regs, ins.rd), regs, ins.wr, n), a)
    decreases i, 2, n
  {
    hide RenameSpec.Inv, InsOk, Produced, SeqRegs;
    var ins := m.win[i];
    var w := Flat(m.win[..i]) + WritesOf(ins)[..n];
    if n == 0 {
      assert w == Flat(m.win[..i]);
      ValueOfMapped(c, sem, m, i, a);
    } else {
      assert w[..|w| - 1] == Flat(m.win[..i]) + WritesOf(ins)[..n - 1];
      assert w[|w| - 1] == Write(ins.wr[n - 1], ins.pwr[n - 1]);
      if ins.wr[n - 1] == a {
        WrittenValue(c, sem, m, i, n - 1);
      } else {
        ValueAfterWrites(c, sem, m, i, n - 1, a);
      }
    }
  }

  /** A valid destination holds the result that its instruction left. */
  lemma {:induction false} WrittenValue(c: Config, sem: Semantics, m: Machine, i: nat, k: nat)
    requires ValueInv(c, sem, m) && i < |m.win| && k < |m.win[i].pwr| && ValidReg(m.t, m.win[i].pwr[k])
    ensures Get(m.val, m.win[i].pwr[k]) == sem(m.win[i].op, Read(SeqRegs(sem, m.arch, m.win[..i]), m.win[i].rd), k)
  {
    hide RenameSpec.Inv, SourceOk;
    assert InsOk(m.t, m.win, i) && DestOk(m.t, m.win[i], k);
    assert Produced(sem, m, i);
  }

  /** An instruction with no waiting source reads exactly the values of the sequential machine, however many
      isReady calls pruned its operands and whatever committed in between. */
  lemma {:induction false} ReadsSequentialValues(c: Config, sem: Semantics, m: Machine, i: nat)
    requires ValueInv(c, sem, m) && i < |m.win| && m.win[i].waiting == []
    ensures Read(m.val, m.win[i].prd) == Read(SeqRegs(sem, m.arch, m.win[..i]), m.win[i].rd)
  {
    forall k | 0 <= k < |m.win[i].rd|
      ensures Get(m.val, m.win[i].prd[k]) == Get(SeqRegs(sem, m.arch, m.win[..i]), m.win[i].rd[k])
    {
      assert InsOk(m.t, m.win, i) && SourceOk(m.t, m.win, i, k);
      ValueOfMapped(c, sem, m, i, m.win[i].rd[k]);
    }
  }

  // ----- Every step keeps the invariant -----

  lemma {:induction false} RenameKeeps(c: Config, sem: Semantics, m: Machine, e: Event)
    requires ValueInv(c, sem, m) && Enabled(c, m, e) && e.Rename?
    ensures ValueInv(c, sem, Step(c, sem, m, e))
  {
    MapHasNames(c, m.t, m.win, e.rd);
    MapHasNames(c, m.t, m.win, e.wr);
    RenameKeepsWindow(c, m.t, m.win, e.op, e.rd, e.wr, e.blk);
    var r := Step(c, sem, m, e);
    forall i | 0 <= i < |r.win| && r.win[i].complete ensures Produced(sem, r, i) {
      assert r.win[..i] == m.win[..i];
      assert Produced(sem, m, i);
    }
  }

  lemma {:induction false} ReadyKeeps(c: Config, sem: Semantics, m: Machine, e: Event)
    requires ValueInv(c, sem, m) && Enabled(c, m, e) && e.Ready?
    ensures ValueInv(c, sem, Step(c, sem, m, e))
  {
    ReadyKeepsWindow(c, m.t, m.win, e.i);
    var r := Step(c, sem, m, e);
    forall i | 0 <= i < |r.win| && r.win[i].complete ensures Produced(sem, r, i) {
      SeqRegsUpdate(sem, m.arch, m.win, e.i, r.win[e.i], i);
      assert Produced(sem, m, i);
    }
  }

  /** The sequential registers do not depend on the renaming state of an instruction. */
  lemma {:induction false} SeqRegsUpdate(sem: Semantics, arch: map<nat, int>, win: seq<Ins>, i: nat, ins: Ins, j: nat)
    requires i < |win| && j <= |win| && OpOf(ins) == OpOf(win[i])
    ensures SeqRegs(sem, arch, win[i := ins][..j]) == SeqRegs(sem, arch, win[..j])
    decreases j
  {
    if j > 0 {
      SeqRegsUpdate(sem, arch, win, i, ins, j - 1);
      assert win[i := ins][..j][..j - 1] == win[i := ins][..j - 1];
      assert win[..j][..j - 1] == win[..j - 1];
    }
  }

  /** Writing distinct registers leaves each with its own result and all others alone. */
  lemma {:induction false} WriteBackDistinct(sem: Semantics, op: nat, src: seq<int>, val: map<nat, int>, ps: seq<nat>, n: nat)
    requires n <= |ps| && NoDup(ps)
    ensures forall k :: 0 <= k < n ==> Get(WriteBack(sem, op, src, val, ps, n), ps[k]) == sem(op, src, k)
    ensures forall p :: p !in ps[..n] ==> Get(WriteBack(sem, op, src, val, ps, n), p) == Get(val, p)
  {
    if n > 0 {
      WriteBackDistinct(sem, op, src, val, ps, n - 1);
      assert ps[..n] == ps[..n - 1] + [ps[n - 1]];
    }
  }

  lemma {:induction false} DestsNoDup(c: Config, t: Table, win: seq<Ins>, i: nat)
    requires WindowInv(c, t, win) && i < |win|
    ensures NoDup(win[i].pwr)
  {
    forall k, l | 0 <= k < l < |win[i].pwr| ensures win[i].pwr[k] != win[i].pwr[l] {
      WriteRegistersDistinct(c, t, win, i, k, i, l);
    }
  }

  /** Two instructions have no destination in common. */
  lemma {:induction false} DestsApart(c: Config, t: Table, win: seq<Ins>, i: nat, x: nat)
    requires WindowInv(c, t, win) && i < |win| && x < |win| && i != x
    ensures forall k :: 0 <= k < |win[i].pwr| ==> win[i].pwr[k] !in win[x].pwr
  {
    forall k | 0 <= k < |win[i].pwr| ensures win[i].pwr[k] !in win[x].pwr {
      if l :| 0 <= l < |win[x].pwr| && win[x].pwr[l] == win[i].pwr[k] {
        WriteRegistersDistinct(c, t, win, i, k, x, l);
      }
    }
  }

  /** Completion writes registers that neither the committed map nor another instruction holds. */
  lemma {:induction false} CompleteKeeps(c: Config, sem: Semantics, m: Machine, e: Event)
    requires ValueInv(c, sem, m) && Enabled(c, m, e) && e.Complete?
    ensures ValueInv(c, sem, Step(c, sem, m, e))
  {
    DestsAreKnown(c, m.t, m.win, e.i);
    CompleteKeepsWindow(c, m.t, m.win, e.i);
    var r := Step(c, sem, m, e);
    hide WindowInv, CompleteAll, WriteBack, Produced, Step, CommittedValues;
    CompleteKeepsCommitted(c, sem, m, e);
    forall i | 0 <= i < |r.win| && r.win[i].complete ensures Produced(sem, r, i) {
      CompleteKeepsProduced(c, sem, m, e, i);
    }
  }

  lemma {:induction false} CompleteKeepsCommitted(c: Config, sem: Semantics, m: Machine, e: Event)
    requires ValueInv(c, sem, m) && Enabled(c, m, e) && e.Complete?
    ensures CommittedValues(c, Step(c, sem, m, e))
  {
    hide RenameSpec.Inv, InsOk;
    var ins, r := m.win[e.i], Step(c, sem, m, e);
    DestsAreKnown(c, m.t, m.win, e.i);
    DestsNoDup(c, m.t, m.win, e.i);
    WriteBackDistinct(sem, ins.op, Read(m.val, ins.prd), m.val, ins.pwr, |ins.pwr|);
    assert ins.pwr[..|ins.pwr|] == ins.pwr;
    forall a | c.IsAR(a) ensures a in r.t.crat && a in r.arch && Get(r.val, r.t.crat[a]) == r.arch[a] {
      CommittedNotInFlight(c, m.t, m.win, a, e.i);
    }
  }

  lemma {:induction false} CompleteKeepsProduced(c: Config, sem: Semantics, m: Machine, e: Event, i: nat)
    requires ValueInv(c, sem, m) && Enabled(c, m, e) && e.Complete?
    requires i < |m.win| && (i == e.i || m.win[i].complete)
    ensures i < |Step(c, sem, m, e).win| && Produced(sem, Step(c, sem, m, e), i)
  {
    hide RenameSpec.Inv, InsOk;
    var x, ins, r := e.i, m.win[e.i], Step(c, sem, m, e);
    DestsAreKnown(c, m.t, m.win, x);
    DestsNoDup(c, m.t, m.win, x);
    WriteBackDistinct(sem, ins.op, Read(m.val, ins.prd), m.val, ins.pwr, |ins.pwr|);
    assert ins.pwr[..|ins.pwr|] == ins.pwr;
    SeqRegsUpdate(sem, m.arch, m.win, x, r.win[x], i);
    if i == x {
      ReadsSequentialValues(c, sem, m, x);
    } else {
      assert Produced(sem, m, i);
      DestsApart(c, m.t, m.win, i, x);
    }
  }

  lemma {:induction false} CommittedNotInFlight(c: Config, t: Table, win: seq<Ins>, a: nat, x: nat)
    requires WindowInv(c, t, win) && c.IsAR(a) && x < |win|
    ensures a in t.crat && t.crat[a] !in win[x].pwr
  {
    assert Committed(t, t.crat[a]);
    forall k | 0 <= k < |win[x].pwr| ensures win[x].pwr[k] != t.crat[a] {
      DestInFlight(c, t, win, x, k);
    }
  }

  lemma {:induction false} CommitKeeps(c: Config, sem: Semantics, m: Machine, e: Event)
    requires ValueInv(c, sem, m) && Enabled(c, m, e) && e.Commit?
    ensures ValueInv(c, sem, Step(c, sem, m, e))
  {
    hide RenameSpec.Inv, InsOk;
    var r := Step(c, sem, m, e);
    CommitKeepsWindow(c, m.t, m.win);
    forall a | c.IsAR(a) ensures a in r.t.crat && a in r.arch && Get(r.val, r.t.crat[a]) == r.arch[a] {
      HeadValue(c, sem, m, a);
    }
    forall i | 0 <= i < |r.win| && r.win[i].complete ensures Produced(sem, r, i) {
      assert Produced(sem, m, i + 1);
      SeqRegsAfterHead(sem, m.arch, m.win, i + 1);
    }
  }

  /** After the oldest instruction commits, each name maps to a register with its sequential value. */
  lemma {:induction false} HeadValue(c: Config, sem: Semantics, m: Machine, a: nat)
    requires ValueInv(c, sem, m) && m.win != [] && m.win[0].complete && c.IsAR(a)
    ensures var t, regs := CommitHead(c, m.t, m.win), Exec(sem, m.arch, OpOf(m.win[0]));
            a in t.crat && a in regs && Get(m.val, t.crat[a]) == regs[a]
  {
    hide RenameSpec.Inv, InsOk;
    HeadValueMapped(c, sem, m, a);
    CommitHeadStates(c, m.t, m.win);
  }

  lemma {:induction false} HeadValueMapped(c: Config, sem: Semantics, m: Machine, a: nat)
    requires ValueInv(c, sem, m) && m.win != [] && m.win[0].complete && c.IsAR(a)
    ensures a in m.t.crat
    ensures var crat, regs := Apply(m.t.crat, WritesOf(m.win[0])), Exec(sem, m.arch, OpOf(m.win[0]));
            a in regs && Get(m.val, crat[a]) == regs[a]
  {
    hide RenameSpec.Inv, InsOk;
    var w := WritesOf(m.win[0]);
    assert m.win[..1][..0] == [];
    assert Flat(m.win[..1]) == w;
    assert SeqRegs(sem, m.arch, m.win[..1]) == Exec(sem, m.arch, OpOf(m.win[0]));
    HeadRegisterValid(c, m.t, m.win, a);
    ValueOfMapped(c, sem, m, 1, a);
    WriteBackKeys(sem, m.win[0].op, Read(m.arch, m.win[0].rd), m.arch, m.win[0].wr, |m.win[0].wr|);
  }

  lemma {:induction false} WriteBackKeys(sem: Semantics, op: nat, src: seq<int>, regs: map<nat, int>, wr: seq<nat>, n: nat)
    requires n <= |wr|
    ensures regs.Keys <= WriteBack(sem, op, src, regs, wr, n).Keys
  {
    if n > 0 { WriteBackKeys(sem, op, src, regs, wr, n - 1); }
  }

  lemma {:induction false} HeadRegisterValid(c: Config, t: Table, win: seq<Ins>, a: nat)
    requires WindowInv(c, t, win) && win != [] && win[0].complete && c.IsAR(a)
    ensures a in t.crat && ValidReg(t, Apply(t.crat, WritesOf(win[0]))[a])
  {
    var w := WritesOf(win[0]);
    ApplyRange(t.crat, w, a);
    assert InsOk(t, win, 0);
    if Apply(t.crat, w)[a] != t.crat[a] {
      var k :| 0 <= k < |w| && w[k] == Write(a, Apply(t.crat, w)[a]);
      assert DestOk(t, win[0], k);
    }
  }

  /** Every enabled step keeps the invariant. */
  lemma {:induction false} StepKeeps(c: Config, sem: Semantics, m: Machine, e: Event)
    requires ValueInv(c, sem, m) && Enabled(c, m, e)
    ensures ValueInv(c, sem, Step(c, sem, m, e))
  {
    match e
    case Rename(_, _, _, _) => RenameKeeps(c, sem, m, e);
    case Ready(_) => ReadyKeeps(c, sem, m, e);
    case Complete(_) => CompleteKeeps(c, sem, m, e);
    case Commit => CommitKeeps(c, sem, m, e);
    case Squash =>
      SquashKeepsWindow(c, m.t, m.win);
      assert RenameSpec.Squash(c, m.t).crat == m.t.crat;
  }

  // ----- Whole runs -----

  /** The machine after some events, or None when one of them is not enabled. */
  ghost function Run(c: Config, sem: Semantics, m: Machine, es: seq<Event>): (r: Option<Machine>)
    requires ValueInv(c, sem, m)
    ensures r.Some? ==> ValueInv(c, sem, r.value)
    decreases |es|
  {
    if es == [] then Some(m)
    else if !Enabled(c, m, es[0]) then None
    else
      StepKeeps(c, sem, m, es[0]);
      Run(c, sem, Step(c, sem, m, es[0]), es[1..])
  }

  /** `arch` and `log` record the committed part of the program that the machine executes. */
  ghost predicate Records(sem: Semantics, init: map<nat, int>, m: Machine) {
    m.arch == ExecAll(sem, init, m.log)
  }

  // ----- The program that a run executes -----

  /** The renamed instructions without the squashed ones, and how many of them have committed. */
  datatype Stream = Stream(ops: seq<Op>, committed: nat)

  /** A rename adds an instruction, a commit counts one more, and a squash takes back what has not committed. */
  ghost function Advance(s: Stream, e: Event): Stream {
    match e
    case Rename(op, rd, wr, _) => s.(ops := s.ops + [Op(op, rd, wr)])
    case Commit => s.(committed := s.committed + 1)
    case Squash => if s.committed <= |s.ops| then s.(ops := s.ops[..s.committed]) else s
    case _ => s
  }

  ghost function StreamAfter(s: Stream, es: seq<Event>): Stream
    decreases |es|
  {
    if es == [] then s else StreamAfter(Advance(s, es[0]), es[1..])
  }

  ghost function OpsOf(win: seq<Ins>): (ops: seq<Op>)
    ensures |ops| == |win| && forall i :: 0 <= i < |win| ==> ops[i] == OpOf(win[i])
  {
    seq(|win|, i requires 0 <= i < |win| => OpOf(win[i]))
  }

  /** The committed instructions and then the window are the stream. */
  ghost predicate Follows(m: Machine, s: Stream) {
    |m.log| == s.committed && m.log + OpsOf(m.win) == s.ops
  }

  lemma {:induction false} StepRecords(c: Config, sem: Semantics, init: map<nat, int>, m: Machine, e: Event)
    requires WindowInv(c, m.t, m.win) && Enabled(c, m, e) && Records(sem, init, m)
    ensures Records(sem, init, Step(c, sem, m, e))
  {
    hide RenameSpec.Inv, InsOk, Exec;
    if e.Commit? { assert (m.log + [OpOf(m.win[0])])[..|m.log|] == m.log; }
  }

  lemma {:induction false} CommitFollows(m: Machine, r: Machine, s: Stream)
    requires Follows(m, s) && m.win != [] && r.log == m.log + [OpOf(m.win[0])] && r.win == m.win[1..]
    ensures Follows(r, Advance(s, Commit))
  {
    assert OpsOf(m.win) == [OpOf(m.win[0])] + OpsOf(r.win);
    Regroup(m.log, [OpOf(m.win[0])], OpsOf(r.win));
  }

  lemma {:induction false} RenameFollows(m: Machine, r: Machine, s: Stream, e: Event)
    requires Follows(m, s) && e.Rename? && r.log == m.log
    requires |r.win| == |m.win| + 1 && r.win[..|m.win|] == m.win && OpOf(r.win[|m.win|]) == Op(e.op, e.rd, e.wr)
    ensures Follows(r, Advance(s, e))
  {
    assert forall i :: 0 <= i < |m.win| ==> r.win[i] == r.win[..|m.win|][i];
    assert OpsOf(r.win) == OpsOf(m.win) + [Op(e.op, e.rd, e.wr)];
  }

  lemma {:induction false} StepFollows(c: Config, sem: Semantics, m: Machine, e: Event, s: Stream)
    requires WindowInv(c, m.t, m.win) && Enabled(c, m, e) && Follows(m, s)
    ensures Follows(Step(c, sem, m, e), Advance(s, e))
  {
    hide RenameSpec.Inv, InsOk, WindowInv, RenameWrites, CommitHead, CompleteAll, RenameSpec.Squash, WriteBack, Exec;
    var r := Step(c, sem, m, e);
    match e
    case Rename(op, rd, wr, blk) =>
      MapHasNames(c, m.t, m.win, rd);
      MapHasNames(c, m.t, m.win, wr);
      RenameFollows(m, r, s, e);
    case Ready(i) => assert OpsOf(r.win) == OpsOf(m.win);
    case Complete(i) => assert OpsOf(r.win) == OpsOf(m.win);
    case Commit => CommitFollows(m, r, s);
    case Squash =>
      assert s.ops[..s.committed] == m.log;
      assert m.log + OpsOf([]) == m.log;
  }

  /** The in-flight instructions continue the program where the committed ones stop. */
  lemma {:induction false} SeqRegsOfStream(sem: Semantics, init: map<nat, int>, m: Machine, s: Stream, i: nat)
    requires Records(sem, init, m) && Follows(m, s) && i <= |m.win|
    ensures s.committed + i <= |s.ops|
    ensures SeqRegs(sem, m.arch, m.win[..i]) == ExecAll(sem, init, s.ops[..s.committed + i])
    decreases i
  {
    hide Exec;
    if i == 0 {
      assert s.ops[..s.committed] == m.log;
    } else {
      var n := s.committed + i;
      SeqRegsOfStream(sem, init, m, s, i - 1);
      LastOp(m, s, i - 1);
      assert m.win[..i][..i - 1] == m.win[..i - 1];
      assert s.ops[..n][..n - 1] == s.ops[..n - 1];
      assert s.ops[..n][n - 1] == OpOf(m.win[i - 1]);
    }
  }

  lemma {:induction false} LastOp(m: Machine, s: Stream, i: nat)
    requires Follows(m, s) && i < |m.win|
    ensures s.committed + i < |s.ops| && s.ops[s.committed + i] == OpOf(m.win[i])
  {
    assert s.ops[s.committed + i] == OpsOf(m.win)[i];
  }

  /** The sequential registers before in-flight instruction `i` of the stream. */
  ghost function Before(sem: Semantics, init: map<nat, int>, s: Stream, i: nat): map<nat, int>
    requires s.committed + i <= |s.ops|
  {
    ExecAll(sem, init, s.ops[..s.committed + i])
  }

  /** The destinations of an in-flight instruction hold its results on sequential operands. */
  ghost predicate Results(sem: Semantics, init: map<nat, int>, win: seq<Ins>, val: map<nat, int>, s: Stream, i: nat)
    requires i < |win| && s.committed + i <= |s.ops|
  {
    forall k :: 0 <= k < |win[i].pwr| ==> Get(val, win[i].pwr[k]) == sem(win[i].op, Read(Before(sem, init, s, i), win[i].rd), k)
  }

  /** What the physical registers hold, told by the stream alone: the committed map leads to the sequential state of
      the committed instructions, the window is the rest of the stream, a complete instruction has left its sequential
      results, and one that waits for nothing reads its sequential operands. */
  ghost predicate Agrees(c: Config, sem: Semantics, init: map<nat, int>, t: Table, win: seq<Ins>, val: map<nat, int>, s: Stream) {
    && s.committed + |win| == |s.ops|
    && (forall a :: c.IsAR(a) ==> a in t.crat && Get(val, t.crat[a]) == Get(Before(sem, init, s, 0), a))
    && (forall i :: 0 <= i < |win| ==> OpOf(win[i]) == s.ops[s.committed + i])
    && (forall i :: 0 <= i < |win| && win[i].complete ==> Results(sem, init, win, val, s, i))
    && (forall i :: 0 <= i < |win| && win[i].waiting == [] ==> Read(val, win[i].prd) == Read(Before(sem, init, s, i), win[i].rd))
  }

  lemma {:induction false} InvAgrees(c: Config, sem: Semantics, init: map<nat, int>, m: Machine, s: Stream)
    requires ValueInv(c, sem, m) && Records(sem, init, m) && Follows(m, s)
    ensures Agrees(c, sem, init, m.t, m.win, m.val, s)
  {
    hide RenameSpec.Inv, InsOk, WindowInv, SeqRegs, ExecAll, Produced;
    forall i | 0 <= i <= |m.win| ensures s.committed + i <= |s.ops| && SeqRegs(sem, m.arch, m.win[..i]) == Before(sem, init, s, i) {
      SeqRegsOfStream(sem, init, m, s, i);
    }
    assert s.ops[..s.committed + 0] == m.log;
    forall i | 0 <= i < |m.win| && m.win[i].complete ensures Results(sem, init, m.win, m.val, s, i) {
      assert Produced(sem, m, i);
      ProducedResults(sem, init, m, s, i);
    }
    forall i | 0 <= i < |m.win| ensures OpOf(m.win[i]) == s.ops[s.committed + i] { LastOp(m, s, i); }
    forall i | 0 <= i < |m.win| && m.win[i].waiting == []
      ensures Read(m.val, m.win[i].prd) == Read(Before(sem, init, s, i), m.win[i].rd)
    {
      ReadsSequentialValues(c, sem, m, i);
    }
  }

  lemma {:induction false} ProducedResults(sem: Semantics, init: map<nat, int>, m: Machine, s: Stream, i: nat)
    requires i < |m.win| && Produced(sem, m, i) && s.committed + i <= |s.ops|
    requires SeqRegs(sem, m.arch, m.win[..i]) == Before(sem, init, s, i)
    ensures Results(sem, init, m.win, m.val, s, i)
  {
  }

  /** For any interleaving of renames, readiness checks, out-of-order completions, in-order commits and squashes, the
      physical registers agree with sequential execution of the renamed stream without the squashed instructions. */
  lemma {:induction false} RunRefinesSequential(c: Config, sem: Semantics, init: map<nat, int>, m: Machine, es: seq<Event>, s: Stream)
    requires ValueInv(c, sem, m) && Records(sem, init, m) && Follows(m, s)
    ensures var r := Run(c, sem, m, es);
            r.Some? ==> Agrees(c, sem, init, r.value.t, r.value.win, r.value.val, StreamAfter(s, es))
    decreases |es|
  {
    hide WindowInv, Agrees, Records, Follows;
    if es == [] {
      InvAgrees(c, sem, init, m, s);
    } else if Enabled(c, m, es[0]) {
      StepKeeps(c, sem, m, es[0]);
      assert WindowInv(c, m.t, m.win);
      StepRecords(c, sem, init, m, es[0]);
      StepFollows(c, sem, m, es[0], s);
      RunRefinesSequential(c, sem, init, Step(c, sem, m, es[0]), es[1..], Advance(s, es[0]));
    }
  }

  /** Nothing that has committed is ever taken back. */
  lemma {:induction false} CommittedStays(s: Stream, es: seq<Event>, n: nat)
    requires n <= s.committed && n <= |s.ops|
    ensures var k := StreamAfter(s, es); n <= k.committed && n <= |k.ops| && k.ops[..n] == s.ops[..n]
    decreases |es|
  {
    if es != [] { CommittedStays(Advance(s, es[0]), es[1..], n); }
  }

  /** After any run each architectural register can be read through the committed map, with the value that
      executing the committed instructions one by one gives it. */
  lemma {:induction false} CommittedMapHoldsSequentialState(c: Config, sem: Semantics, init: map<nat, int>, m: Machine,
                                                            es: seq<Event>, s: Stream, a: nat)
    requires ValueInv(c, sem, m) && Records(sem, init, m) && Follows(m, s) && c.IsAR(a) && Run(c, sem, m, es).Some?
    ensures var r, k := Run(c, sem, m, es).value, StreamAfter(s, es);
            && k.committed <= |k.ops| && a in r.t.crat
            && Get(r.val, r.t.crat[a]) == Get(ExecAll(sem, init, k.ops[..k.committed]), a)
  {
    RunRefinesSequential(c, sem, init, m, es, s);
    var k := StreamAfter(s, es);
    assert k.committed + 0 == k.committed;
  }

  // ----- Pruning ready operands is sound -----

  /** Register `p` is valid before and after the step, with the same value. */
  ghost predicate StaysValid(m: Machine, r: Machine, p: nat) {
    ValidReg(m.t, p) && ValidReg(r.t, p) && Get(r.val, p) == Get(m.val, p)
  }

  lemma {:induction false} CompleteLeavesValid(c: Config, sem: Semantics, m: Machine, e: Event, p: nat)
    requires ValueInv(c, sem, m) && Enabled(c, m, e) && e.Complete? && ValidReg(m.t, p)
    ensures StaysValid(m, Step(c, sem, m, e), p)
  {
    var ins := m.win[e.i];
    DestsAreKnown(c, m.t, m.win, e.i);
    DestsNoDup(c, m.t, m.win, e.i);
    WriteBackDistinct(sem, ins.op, Read(m.val, ins.prd), m.val, ins.pwr, |ins.pwr|);
    assert ins.pwr[..|ins.pwr|] == ins.pwr;
    assert InsOk(m.t, m.win, e.i);
    forall l | 0 <= l < |ins.pwr| ensures ins.pwr[l] != p { assert DestOk(m.t, ins, l); }
  }

  lemma {:induction false} CommitLeavesValid(c: Config, sem: Semantics, m: Machine, e: Event, i: nat, k: nat)
    requires ValueInv(c, sem, m) && Enabled(c, m, e) && e.Commit?
    requires 0 < i < |m.win| && k < |m.win[i].rd| && |m.win[i].prd| == |m.win[i].rd| && ValidReg(m.t, m.win[i].prd[k])
    ensures StaysValid(m, Step(c, sem, m, e), m.win[i].prd[k])
  {
    CommitKeepsWindow(c, m.t, m.win);
    CommitHeadStates(c, m.t, m.win);
    SourceIsNotAvailable(c, CommitHead(c, m.t, m.win), m.win[1..], i - 1, k);
  }

  /** Once valid, a source stays valid, and keeps its value, until its reader leaves the window:
      dropping it from the waiting list in isReady is sound. */
  lemma {:induction false} ValidSourceStaysValid(c: Config, sem: Semantics, m: Machine, e: Event, i: nat, k: nat)
    requires ValueInv(c, sem, m) && Enabled(c, m, e) && !e.Squash?
    requires i < |m.win| && k < |m.win[i].rd| && |m.win[i].prd| == |m.win[i].rd| && ValidReg(m.t, m.win[i].prd[k])
    requires e.Commit? ==> i > 0
    ensures StaysValid(m, Step(c, sem, m, e), m.win[i].prd[k])
  {
    match e
    case Rename(_, _, wr, blk) =>
      MapHasNames(c, m.t, m.win, wr);
      RenameWritesStates(c, m.t, Flat(m.win), wr, blk);
    case Ready(_) =>
    case Complete(_) => CompleteLeavesValid(c, sem, m, e, m.win[i].prd[k]);
    case Commit => CommitLeavesValid(c, sem, m, e, i, k);
  }
}
