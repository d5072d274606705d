/** The global register file manager (grfManager.cpp): each operation on an instruction keeps the
    invariant of the in-flight window, and every assertion of the rename table holds when it is met. */
module GrfManager {
  import opened Collections
  import opened RegisterRename
  import opened RenameRecovery
  import opened RenameSpec
  import opened RenameWindow

  /** The register operands of an instruction. isReady removes elements of `prRd`. */
  class BbInstruction {
    const op: nat
    const bbWin: nat
    const arRd: seq<nat>
    const arWr: seq<nat>
    var prRd: seq<nat>
    var prWr: seq<nat>
    ghost var sources: seq<nat>
    ghost var complete: bool

    constructor (op: nat, bbWin: nat, arRd: seq<nat>, arWr: seq<nat>)
      ensures this.op == op && this.bbWin == bbWin && this.arRd == arRd && this.arWr == arWr && Unrenamed()
    {
      this.op, this.bbWin, this.arRd, this.arWr := op, bbWin, arRd, arWr;
      prRd, prWr, sources, complete := [], [], [], false;
    }

    ghost predicate Unrenamed()
      reads this
    {
      prRd == [] && prWr == [] && sources == [] && !complete
    }

    ghost function Abs(): Ins
      reads this
    {
      Ins(op, arRd, arWr, sources, prWr, prRd, complete)
    }
  }

  ghost function Win(s: seq<BbInstruction>): (w: seq<Ins>)
    reads s
    ensures |w| == |s| && forall i :: 0 <= i < |s| ==> w[i] == s[i].Abs()
  {
    seq(|s|, i requires 0 <= i < |s| reads s => s[i].Abs())
  }

  /** What an instruction still waits for is one of its sources. */
  ghost predicate WaitsForSources(i: Ins) {
    forall p :: p in i.waiting ==> p in i.prd
  }

  lemma {:induction false} WaitedNotAvailable(c: Config, t: Table, win: seq<Ins>, i: nat, p: nat)
    requires WindowInv(c, t, win) && i < |win| && WaitsForSources(win[i]) && p in win[i].waiting
    ensures p in t.rf && c.IsPR(p) && t.rf[p].state != Available
  {
    var k :| 0 <= k < |win[i].prd| && win[i].prd[k] == p;
    SourceIsNotAvailable(c, t, win, i, k);
  }

  /** The destinations of an instruction that is not complete are distinct and not yet valid. */
  lemma {:induction false} DestsPending(c: Config, t: Table, win: seq<Ins>, i: nat)
    requires WindowInv(c, t, win) && i < |win| && !win[i].complete
    ensures NoDup(win[i].pwr)
    ensures forall k :: 0 <= k < |win[i].pwr| ==> win[i].pwr[k] in t.rf && t.rf[win[i].pwr[k]].state == RenamedInvalid
  {
    assert InsOk(t, win, i);
    forall k | 0 <= k < |win[i].pwr|
      ensures win[i].pwr[k] in t.rf && t.rf[win[i].pwr[k]].state == RenamedInvalid
    {
      assert DestOk(t, win[i], k);
    }
    forall k, l | 0 <= k < l < |win[i].pwr| ensures win[i].pwr[k] != win[i].pwr[l] {
      WriteRegistersDistinct(c, t, win, i, k, i, l);
    }
  }

  lemma {:induction false} RenameWritesPrefix(c: Config, t: Table, wr: seq<nat>, blk: nat, n: nat)
    requires CanTakeAll(c, t, wr, blk) && n < |wr|
    ensures CanTakeAll(c, t, wr[..n], blk) && CanTakeAll(c, t, wr[..n + 1], blk)
    ensures var (s, ps) := RenameWrites(c, t, wr[..n], blk);
            && CanTake(c, s, blk) && wr[n] in s.frat
            && RenameWrites(c, t, wr[..n + 1], blk) == (RenameWrite(c, s, wr[n], blk), ps + [Taken(c, s, blk).1])
  {
    assert wr[..n + 1][..n] == wr[..n];
    assert wr[n] in t.frat.Keys;
  }

  /** What the assertions met by one step of renameRegs need. */
  ghost predicate RenameReady(c: Config, s: Table, a: nat, blk: nat) {
    && CanTake(c, s, blk) && a in s.frat && s.frat[a] in s.rf && c.IsPR(s.frat[a])
    && forall i :: 0 <= i < |s.free| && |s.free[i]| > 0 ==>
         var q := s.free[i][|s.free[i]| - 1]; q in s.rf && s.rf[q].state == Available && c.IsPR(q) && c.Home(q) == i
  }

  lemma {:induction false} NextRenameReady(c: Config, t: Table, w: seq<Write>, wr: seq<nat>, blk: nat, n: nat)
    requires Inv(c, t, w) && AllAR(c, wr) && CanTakeAll(c, t, wr, blk) && n < |wr|
    ensures CanTakeAll(c, t, wr[..n], blk) && CanTakeAll(c, t, wr[..n + 1], blk)
    ensures var (s, ps) := RenameWrites(c, t, wr[..n], blk);
            && RenameReady(c, s, wr[n], blk)
            && RenameWrites(c, t, wr[..n + 1], blk) == (RenameWrite(c, s, wr[n], blk), ps + [Taken(c, s, blk).1])
  {
    hide RenameSpec.Inv;
    RenameWritesPrefix(c, t, wr, blk, n);
    RenameWritesKeepsInv(c, t, w, wr[..n], blk);
    var (s, ps) := RenameWrites(c, t, wr[..n], blk);
    InvRenameReady(c, s, w + Zip(wr[..n], ps), wr[n], blk);
  }

  lemma {:induction false} InvRenameReady(c: Config, s: Table, w: seq<Write>, a: nat, blk: nat)
    requires Inv(c, s, w) && CanTake(c, s, blk) && a in s.frat && c.IsAR(a)
    ensures RenameReady(c, s, a, blk)
  {
    ApplyRange(s.crat, w, a);
    forall i | 0 <= i < |s.free| && |s.free[i]| > 0
      ensures var q := s.free[i][|s.free[i]| - 1]; q in s.rf && s.rf[q].state == Available && c.IsPR(q) && c.Home(q) == i
    {
      FreeRegister(c, s, w, i, |s.free[i]| - 1);
    }
  }

  /** Every name is mapped to a register, so renameReg succeeds. */
  lemma {:induction false} NamesMapped(c: Config, t: Table, w: seq<Write>, names: seq<nat>)
    requires Inv(c, t, w) && AllAR(c, names)
    ensures forall k :: 0 <= k < |names| ==> names[k] in t.frat && c.IsPR(t.frat[names[k]])
  {
    forall k | 0 <= k < |names| ensures names[k] in t.frat && c.IsPR(t.frat[names[k]]) {
      MapHasName(c, t, w, names[k]);
      ApplyRange(t.crat, w, names[k]);
    }
  }

  lemma {:induction false} RenamedWindow(c: Config, t: Table, win: seq<Ins>, op: nat, rd: seq<nat>, wr: seq<nat>, blk: nat)
    requires WindowInv(c, t, win) && AllAR(c, rd) && AllAR(c, wr) && blk < c.blkCnt && |wr| <= TotalFree(t.free)
    ensures CanTakeAll(c, t, wr, blk)
    ensures forall k :: 0 <= k < |rd| ==> rd[k] in t.frat && c.IsPR(t.frat[rd[k]])
    ensures WindowInv(c, RenameWrites(c, t, wr, blk).0, win + [Renamed(c, t, op, rd, wr, blk)])
    ensures WaitsForSources(Renamed(c, t, op, rd, wr, blk))
  {
    NamesMapped(c, t, Flat(win), rd);
    NamesMapped(c, t, Flat(win), wr);
    RenameKeepsWindow(c, t, win, op, rd, wr, blk);
  }

  /** What the assertions met by one step of commitRegs need. */
  ghost predicate CommitReady(c: Config, s: Table, a: nat, p: nat) {
    && CanCommit(c, s, p) && s.rf[p].state == RenamedValid && a in s.crat
    && s.rf[p].prev == Some(s.crat[a]) && s.crat[a] in s.rf && s.rf[s.crat[a]].state == ArchReg && s.crat[a] != p
    && |s.free[c.Home(s.crat[a])]| < c.rSize
  }

  /** The tables between the steps of commitRegs. */
  ghost predicate CommitTables(c: Config, ts: seq<Table>, ar: seq<nat>, pr: seq<nat>) {
    && |ts| == |ar| + 1 == |pr| + 1
    && forall k {:trigger CommitReady(c, ts[k], ar[k], pr[k])} :: 0 <= k < |ar| ==>
         CommitReady(c, ts[k], ar[k], pr[k]) && ts[k + 1] == CommitWrite(c, ts[k], ar[k], pr[k])
  }

  lemma {:induction false} HeadTables(c: Config, t: Table, win: seq<Ins>) returns (ts: seq<Table>)
    requires WindowInv(c, t, win) && win != [] && win[0].complete
    ensures CommitTables(c, ts, win[0].wr, win[0].pwr)
    ensures ts[0] == t && ts[|ts| - 1] == CommitHead(c, t, win)
  {
    hide RenameSpec.Inv;
    HeadWrites(win);
    HeadWritesValid(c, t, win);
    ts := FlatTables(c, t, Flat(win), win[0].wr, win[0].pwr);
  }

  lemma {:induction false} FlatTables(c: Config, t: Table, w: seq<Write>, ar: seq<nat>, pr: seq<nat>) returns (ts: seq<Table>)
    requires Inv(c, t, w) && |ar| == |pr| <= |w|
    requires forall k :: 0 <= k < |pr| ==>
               w[k] == Write(ar[k], pr[k]) && pr[k] in t.rf && t.rf[pr[k]].state == RenamedValid
    ensures CommitTables(c, ts, ar, pr) && ts[0] == t && ts[|ts| - 1] == CommitAll(c, t, w, |ar|)
  {
    hide RenameSpec.Inv;
    ts := seq(|ar| + 1, k requires 0 <= k <= |ar| => CommitAll(c, t, w, k));
    forall k | 0 <= k < |ar|
      ensures CommitReady(c, ts[k], ar[k], pr[k]) && ts[k + 1] == CommitWrite(c, ts[k], ar[k], pr[k])
    {
      NextCommitReady(c, t, w, k);
    }
  }

  lemma {:induction false} NextCommitReady(c: Config, t: Table, w: seq<Write>, n: nat)
    requires Inv(c, t, w) && n < |w| && w[n].pr in t.rf && t.rf[w[n].pr].state == RenamedValid
    ensures CommitReady(c, CommitAll(c, t, w, n), w[n].ar, w[n].pr)
    ensures CommitAll(c, t, w, n + 1) == CommitWrite(c, CommitAll(c, t, w, n), w[n].ar, w[n].pr)
  {
    var s := CommitAll(c, t, w, n);
    var v := w[n..];
    CommitAllStates(c, t, w, n);
    assert v[0] == w[n];
    CommitKeepsInv(c, s, v);
    var h := c.Home(s.crat[w[n].ar]);
    FreeListFits(c, CommitWrite(c, s, w[n].ar, w[n].pr), v[1..], h);
  }

  class GrfManager {
    const GRF: RegisterRename
    ghost var window: seq<BbInstruction>

    ghost predicate Valid()
      reads this, GRF, window
    {
      && NoDup(window) && WindowInv(GRF.cfg, GRF.Abs(), Win(window))
      && forall i :: 0 <= i < |window| ==> WaitsForSources(Win(window)[i])
    }

    constructor (cfg: Config)
      requires cfg.Valid()
      ensures Valid() && fresh(GRF) && GRF.cfg == cfg && window == [] && GRF.Abs() == InitTable(cfg)
    {
      GRF := new RegisterRename(cfg);
      window := [];
    }

    /** Room for every destination in all segments together. */
    method CanRename(ins: BbInstruction) returns (b: bool)
      ensures b <==> |ins.arWr| <= TotalFree(GRF.availablePRset)
    {
      var n := GRF.GetNumAvailablePR();
      b := n >= |ins.arWr|;
    }

    /** Sources are renamed before destinations. */
    method RenameRegs(ins: BbInstruction)
      requires Valid() && ins !in window && ins.Unrenamed() && ins.bbWin < GRF.cfg.blkCnt
      requires AllAR(GRF.cfg, ins.arRd) && AllAR(GRF.cfg, ins.arWr)
      requires |ins.arWr| <= TotalFree(GRF.availablePRset)
      modifies this`window, GRF, ins
      ensures Valid() && window == old(window) + [ins]
      ensures CanTakeAll(GRF.cfg, old(GRF.Abs()), ins.arWr, ins.bbWin)
      ensures forall k :: 0 <= k < |ins.arRd| ==> ins.arRd[k] in old(GRF.fRAT)
      ensures GRF.Abs() == RenameWrites(GRF.cfg, old(GRF.Abs()), ins.arWr, ins.bbWin).0
      ensures ins.Abs() == Renamed(GRF.cfg, old(GRF.Abs()), ins.op, ins.arRd, ins.arWr, ins.bbWin)
    {
      hide RenameSpec.Inv;
      ghost var c, t, win := GRF.cfg, GRF.Abs(), Win(window);
      RenamedWindow(c, t, win, ins.op, ins.arRd, ins.arWr, ins.bbWin);
      RenameSources(ins);
      RenameDests(ins, t, Flat(win));
      Append(ins);
    }

    ghost method Append(ins: BbInstruction)
      requires NoDup(window) && ins !in window
      modifies this`window
      ensures window == old(window) + [ins] && NoDup(window)
      ensures Win(window) == old(Win(window)) + [ins.Abs()]
    {
      window := window + [ins];
    }

    ghost method RemoveHead()
      requires NoDup(window) && window != []
      modifies this`window
      ensures window == old(window)[1..] && NoDup(window)
      ensures Win(window) == old(Win(window))[1..]
    {
      window := window[1..];
    }

    method RenameSources(ins: BbInstruction)
      requires ins.Unrenamed()
      requires forall k :: 0 <= k < |ins.arRd| ==> ins.arRd[k] in GRF.fRAT && GRF.cfg.IsPR(GRF.fRAT[ins.arRd[k]])
      modifies ins`prRd, ins`sources
      ensures ins.prRd == Sources(GRF.Abs(), ins.arRd) && ins.sources == ins.prRd
    {
      var i := 0;
      while i < |ins.arRd|
        invariant 0 <= i <= |ins.arRd|
        invariant |ins.prRd| == i && forall k :: 0 <= k < i ==> ins.prRd[k] == GRF.fRAT[ins.arRd[k]]
      {
        var p := GRF.RenameReg(ins.arRd[i]);
        ins.prRd := ins.prRd + [p];
        i := i + 1;
      }
      ins.sources := ins.prRd;
    }

    method RenameDests(ins: BbInstruction, ghost t: Table, ghost w: seq<Write>)
      requires t == GRF.Abs() && Inv(GRF.cfg, t, w) && ins.prWr == []
      requires AllAR(GRF.cfg, ins.arWr) && CanTakeAll(GRF.cfg, t, ins.arWr, ins.bbWin)
      modifies GRF, ins`prWr
      ensures (GRF.Abs(), ins.prWr) == RenameWrites(GRF.cfg, t, ins.arWr, ins.bbWin)
    {
      hide RenameSpec.Inv;
      ghost var c := GRF.cfg;
      var i := 0;
      assert ins.arWr[..0] == [];
      while i < |ins.arWr|
        invariant 0 <= i <= |ins.arWr| && CanTakeAll(c, t, ins.arWr[..i], ins.bbWin)
        invariant (GRF.Abs(), ins.prWr) == RenameWrites(c, t, ins.arWr[..i], ins.bbWin)
      {
        NextRenameReady(c, t, w, ins.arWr, ins.bbWin, i);
        var p := RenameDest(ins.arWr[i], ins.bbWin);
        ins.prWr := ins.prWr + [p];
        i := i + 1;
      }
      assert ins.arWr[..i] == ins.arWr;
    }

    method RenameDest(a: nat, blk: nat) returns (p: nat)
      requires RenameReady(GRF.cfg, GRF.Abs(), a, blk)
      modifies GRF
      ensures GRF.Abs() == RenameWrite(GRF.cfg, old(GRF.Abs()), a, blk)
      ensures p == Taken(GRF.cfg, old(GRF.Abs()), blk).1
    {
      var prev := GRF.RenameReg(a);
      p := GRF.GetAvailablePR(blk);
      GRF.UpdateFRAT(a, p);
      GRF.UpdatePR(p, prev, RenamedInvalid);
    }

    /** Valid sources are dropped from the list; the instruction is ready when none is left. */
    method IsReady(ins: BbInstruction) returns (b: bool)
      requires Valid() && ins in window
      modifies ins`prRd
      ensures Valid() && ins.prRd == Keep(GRF.Abs(), old(ins.prRd))
      ensures b <==> forall p :: p in old(ins.prRd) ==> ValidReg(GRF.Abs(), p)
    {
      hide RenameSpec.Inv, InsOk;
      ghost var t, win, all := GRF.Abs(), Win(window), ins.prRd;
      ghost var j :| 0 <= j < |window| && window[j] == ins;
      assert WaitsForSources(win[j]);
      forall p | p in all ensures p in t.rf && GRF.cfg.IsPR(p) && t.rf[p].state != Available {
        WaitedNotAvailable(GRF.cfg, t, win, j, p);
      }
      var invalid := DropValid(ins);
      KeepMembers(t, all);
      ReadyKeepsWindow(GRF.cfg, t, win, j);
      assert Win(window) == win[j := win[j].(waiting := Keep(t, all))];
      b := !invalid && ins.prRd == [];
      assert forall p :: p in all && !ValidReg(t, p) ==> p in ins.prRd;
      assert !b ==> ins.prRd[0] in ins.prRd;
    }

    method DropValid(ins: BbInstruction) returns (invalid: bool)
      requires forall p :: p in ins.prRd ==> p in GRF.RF && GRF.cfg.IsPR(p) && GRF.RF[p].state != Available
      modifies ins`prRd
      ensures ins.prRd == Keep(GRF.Abs(), old(ins.prRd))
      ensures invalid <==> ins.prRd != []
    {
      ghost var t, all := GRF.Abs(), ins.prRd;
      invalid := false;
      var i := |ins.prRd|;
      assert all[i..] == [];
      hide Keep;
      while i > 0
        invariant 0 <= i <= |all|
        invariant ins.prRd == all[..i] + Keep(t, all[i..])
        invariant invalid <==> Keep(t, all[i..]) != []
      {
        i := i - 1;
        KeepOneMore(t, all, i);
        var valid := GRF.IsPRvalid(ins.prRd[i]);
        if !valid {
          invalid := true;
        } else {
          ins.prRd := ins.prRd[..i] + ins.prRd[i + 1..];
        }
      }
      assert all[..0] == [] && all[0..] == all;
    }

    /** The destinations of an instruction become valid. */
    method CompleteRegs(ins: BbInstruction)
      requires Valid() && ins in window && ins.prRd == [] && !ins.complete
      modifies GRF`RF, ins`complete
      ensures Valid() && ins.complete
      ensures forall k :: 0 <= k < |ins.prWr| ==> ins.prWr[k] in old(GRF.RF)
      ensures GRF.Abs() == CompleteAll(old(GRF.Abs()), ins.prWr)
    {
      hide RenameSpec.Inv;
      ghost var c, t, win := GRF.cfg, GRF.Abs(), Win(window);
      ghost var j :| 0 <= j < |window| && window[j] == ins;
      DestsPending(c, t, win, j);
      CompleteDests(ins.prWr);
      CompleteKeepsWindow(c, t, win, j);
      ins.complete := true;
      assert Win(window) == win[j := win[j].(complete := true)];
    }

    method CompleteDests(pr: seq<nat>)
      requires NoDup(pr) && forall k :: 0 <= k < |pr| ==> pr[k] in GRF.RF && GRF.RF[pr[k]].state == RenamedInvalid
      modifies GRF`RF
      ensures GRF.Abs() == CompleteAll(old(GRF.Abs()), pr)
    {
      ghost var t := GRF.Abs();
      var i := 0;
      while i < |pr|
        invariant 0 <= i <= |pr|
        invariant GRF.Abs() == CompleteAll(t, pr[..i])
      {
        assert pr[..i + 1][..i] == pr[..i];
        assert pr[i] !in pr[..i];
        GRF.UpdatePRstate(pr[i], RenamedValid);
        i := i + 1;
      }
      assert pr[..i] == pr;
    }

    /** The oldest instruction commits: each destination becomes architectural, the register it
        replaces is freed. */
    method CommitRegs(ins: BbInstruction)
      requires Valid() && window != [] && ins == window[0] && ins.complete
      modifies this`window, GRF
      ensures Valid() && window == old(window)[1..]
      ensures WindowInv(GRF.cfg, old(GRF.Abs()), old(Win(window)))
      ensures GRF.Abs() == CommitHead(GRF.cfg, old(GRF.Abs()), old(Win(window)))
    {
      hide RenameSpec.Inv;
      ghost var c, t, win := GRF.cfg, GRF.Abs(), Win(window);
      ghost var ts := HeadTables(c, t, win);
      CommitDests(ins, ts);
      CommitKeepsWindow(c, t, win);
      RemoveHead();
    }

    method CommitDests(ins: BbInstruction, ghost ts: seq<Table>)
      requires CommitTables(GRF.cfg, ts, ins.arWr, ins.prWr) && GRF.Abs() == ts[0]
      modifies GRF
      ensures GRF.Abs() == ts[|ts| - 1]
    {
      var i := 0;
      while i < |ins.prWr|
        invariant 0 <= i <= |ins.prWr|
        invariant GRF.Abs() == ts[i]
      {
        assert CommitReady(GRF.cfg, ts[i], ins.arWr[i], ins.prWr[i]);
        CommitReg(ins.arWr[i], ins.prWr[i]);
        i := i + 1;
      }
    }

    method CommitReg(a: nat, p: nat)
      requires CommitReady(GRF.cfg, GRF.Abs(), a, p)
      modifies GRF
      ensures GRF.Abs() == CommitWrite(GRF.cfg, old(GRF.Abs()), a, p)
    {
      var prev := GRF.GetPrevPR(p);
      GRF.UpdatePRstate(p, ArchReg);
      GRF.UpdatePRstate(prev, Available);
      GRF.UpdateCRAT(a, p);
      GRF.SetAsAvailablePR(prev);
    }

    /** Every in-flight instruction is dropped. */
    method SquashRenameReg()
      requires Valid()
      modifies this`window, GRF
      ensures Valid() && window == [] && GRF.Abs() == Squash(GRF.cfg, old(GRF.Abs()))
    {
      SquashKeepsWindow(GRF.cfg, GRF.Abs(), Win(window));
      GRF.SquashRenameReg();
      window := [];
    }
  }

  lemma {:induction false} HeadWritesValid(c: Config, t: Table, win: seq<Ins>)
    requires WindowInv(c, t, win) && win != [] && win[0].complete
    ensures |Flat(win)| >= |win[0].wr|
    ensures forall k :: 0 <= k < |win[0].pwr| ==>
              && Flat(win)[k] == Write(win[0].wr[k], win[0].pwr[k])
              && win[0].pwr[k] in t.rf && t.rf[win[0].pwr[k]].state == RenamedValid
  {
    HeadWrites(win);
    assert InsOk(t, win, 0);
    forall k | 0 <= k < |win[0].pwr|
      ensures win[0].pwr[k] in t.rf && t.rf[win[0].pwr[k]].state == RenamedValid
    {
      assert DestOk(t, win[0], k);
    }
  }
}
