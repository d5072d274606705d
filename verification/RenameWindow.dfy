/** The in-flight instructions over a rename table, and the operations of the register-file manager
    (grfManager.cpp) on whole instructions. */
module RenameWindow {
  import opened RenameSpec

  /** A renamed instruction. `waiting` holds the source registers not yet seen valid. */
  datatype Ins = Ins(op: nat, rd: seq<nat>, wr: seq<nat>, prd: seq<nat>, pwr: seq<nat>,
                     waiting: seq<nat>, complete: bool)

  ghost predicate Shaped(i: Ins) {
    |i.prd| == |i.rd| && |i.pwr| == |i.wr|
  }

  ghost function WritesOf(i: Ins): (w: seq<Write>)
    requires Shaped(i)
    ensures |w| == |i.wr|
    ensures forall k :: 0 <= k < |w| ==> w[k] == Write(i.wr[k], i.pwr[k])
  {
    Zip(i.wr, i.pwr)
  }

  ghost function Zip(a: seq<nat>, p: seq<nat>): (w: seq<Write>)
    requires |a| == |p|
    ensures |w| == |a| && forall k :: 0 <= k < |w| ==> w[k] == Write(a[k], p[k])
  {
    seq(|a|, k requires 0 <= k < |a| => Write(a[k], p[k]))
  }

  ghost predicate AllShaped(win: seq<Ins>) {
    forall i :: 0 <= i < |win| ==> Shaped(win[i])
  }

  /** All in-flight writes in program order. */
  ghost function Flat(win: seq<Ins>): (w: seq<Write>)
    requires AllShaped(win)
  {
    if win == [] then [] else Flat(win[..|win| - 1]) + WritesOf(win[|win| - 1])
  }

  lemma {:induction false} FlatConcat(v: seq<Ins>, w: seq<Ins>)
    requires AllShaped(v) && AllShaped(w)
    ensures AllShaped(v + w) && Flat(v + w) == Flat(v) + Flat(w)
    decreases |w|
  {
    if w == [] {
      assert v + w == v;
    } else {
      var n := |w| - 1;
      FlatConcat(v, w[..n]);
      assert (v + w)[..|v + w| - 1] == v + w[..n] && (v + w)[|v + w| - 1] == w[n];
      calc {
        Flat(v + w);
        Flat(v + w[..n]) + WritesOf(w[n]);
        (Flat(v) + Flat(w[..n])) + WritesOf(w[n]);
        Flat(v) + Flat(w);
      }
    }
  }

  lemma {:induction false} FlatOne(i: Ins)
    requires Shaped(i)
    ensures Flat([i]) == WritesOf(i)
  {
    assert [i][..0] == [];
  }

  /** Where the writes of instruction `i` sit among all writes. */
  lemma {:induction false} FlatAt(win: seq<Ins>, i: nat, k: nat)
    requires AllShaped(win) && i < |win| && k < |win[i].wr|
    ensures |Flat(win[..i])| + k < |Flat(win)|
    ensures Flat(win)[|Flat(win[..i])| + k] == Write(win[i].wr[k], win[i].pwr[k])
    ensures i + 1 <= |win| && |Flat(win[..i + 1])| == |Flat(win[..i])| + |win[i].wr|
  {
    assert win == win[..i] + [win[i]] + win[i + 1..];
    FlatOne(win[i]);
    FlatConcat(win[..i], [win[i]]);
    FlatConcat(win[..i] + [win[i]], win[i + 1..]);
    assert win[..i + 1] == win[..i] + [win[i]];
  }

  lemma {:induction false} FlatLenMono(win: seq<Ins>, i: nat, j: nat)
    requires AllShaped(win) && i <= j <= |win|
    ensures |Flat(win[..i])| <= |Flat(win[..j])|
  {
    assert win[..j] == win[..i] + win[i..j];
    FlatConcat(win[..i], win[i..j]);
  }

  /** Different in-flight write operands have different registers. */
  lemma {:induction false} WriteRegistersDistinct(c: Config, t: Table, win: seq<Ins>, i: nat, k: nat, j: nat, l: nat)
    requires AllShaped(win) && Inv(c, t, Flat(win))
    requires i < |win| && k < |win[i].wr| && j < |win| && l < |win[j].wr|
    requires i != j || k != l
    ensures win[i].pwr[k] != win[j].pwr[l]
  {
    FlatAt(win, i, k);
    FlatAt(win, j, l);
    if i < j { FlatLenMono(win, i + 1, j); }
    if j < i { FlatLenMono(win, j + 1, i); }
  }

  ghost predicate ValidReg(t: Table, p: nat) {
    p in t.rf && t.rf[p].state in {ArchReg, RenamedValid}
  }

  /** Source `k` of instruction `i` is the register of the youngest older in-flight writer, or else
      of the committed map; it is valid unless the instruction still waits for it. */
  ghost predicate SourceOk(t: Table, win: seq<Ins>, i: nat, k: nat)
    requires AllShaped(win) && i < |win| && k < |win[i].rd|
  {
    && win[i].rd[k] in t.crat
    && win[i].prd[k] == Apply(t.crat, Flat(win[..i]))[win[i].rd[k]]
    && (win[i].prd[k] in win[i].waiting || ValidReg(t, win[i].prd[k]))
  }

  ghost predicate DestOk(t: Table, ins: Ins, k: nat)
    requires Shaped(ins) && k < |ins.pwr|
  {
    ins.pwr[k] in t.rf && t.rf[ins.pwr[k]].state == if ins.complete then RenamedValid else RenamedInvalid
  }

  ghost predicate InsOk(t: Table, win: seq<Ins>, i: nat)
    requires AllShaped(win) && i < |win|
  {
    && (forall k :: 0 <= k < |win[i].rd| ==> SourceOk(t, win, i, k))
    && (forall k :: 0 <= k < |win[i].pwr| ==> DestOk(t, win[i], k))
    && (win[i].complete ==> win[i].waiting == [])
  }

  ghost predicate WindowInv(c: Config, t: Table, win: seq<Ins>) {
    && AllShaped(win) && Inv(c, t, Flat(win))
    && forall i {:trigger InsOk(t, win, i)} :: 0 <= i < |win| ==> InsOk(t, win, i)
  }

  // ----- Sources -----

  /** A source register of an in-flight instruction is never AVAILABLE, so it is never handed out again. */
  lemma {:induction false} SourceIsNotAvailable(c: Config, t: Table, win: seq<Ins>, i: nat, k: nat)
    requires WindowInv(c, t, win) && i < |win| && k < |win[i].rd|
    ensures win[i].prd[k] in t.rf && t.rf[win[i].prd[k]].state != Available
    ensures !InFree(t, win[i].prd[k])
  {
    assert InsOk(t, win, i) && SourceOk(t, win, i, k);
    MappedNotAvailable(c, t, win, i, win[i].rd[k]);
  }

  lemma {:induction false} MappedNotAvailable(c: Config, t: Table, win: seq<Ins>, i: nat, a: nat)
    requires AllShaped(win) && Inv(c, t, Flat(win)) && i <= |win| && a in t.crat
    ensures Apply(t.crat, Flat(win[..i]))[a] in t.rf
    ensures t.rf[Apply(t.crat, Flat(win[..i]))[a]].state != Available
  {
    assert win == win[..i] + win[i..];
    FlatConcat(win[..i], win[i..]);
    ApplyRange(t.crat, Flat(win[..i]), a);
    if Apply(t.crat, Flat(win[..i]))[a] != t.crat[a] {
      var k :| 0 <= k < |Flat(win[..i])| && Flat(win[..i])[k] == Write(a, Apply(t.crat, Flat(win[..i]))[a]);
      assert Flat(win)[k] == Flat(win[..i])[k];
    }
  }

  // ----- renameRegs -----

  ghost predicate AllAR(c: Config, s: seq<nat>) {
    forall k :: 0 <= k < |s| ==> c.IsAR(s[k])
  }

  ghost predicate CanTakeAll(c: Config, t: Table, wr: seq<nat>, blk: nat) {
    && c.Valid() && blk < c.blkCnt && |t.free| == c.segCnt && |wr| <= TotalFree(t.free)
    && forall k :: 0 <= k < |wr| ==> wr[k] in t.frat
  }

  /** The write operands renamed one after the other. */
  ghost function RenameWrites(c: Config, t: Table, wr: seq<nat>, blk: nat): (r: (Table, seq<nat>))
    requires CanTakeAll(c, t, wr, blk)
    ensures |r.1| == |wr| && r.0.crat == t.crat && r.0.frat.Keys == t.frat.Keys && |r.0.free| == c.segCnt
    ensures TotalFree(r.0.free) == TotalFree(t.free) - |wr|
    decreases |wr|
  {
    if wr == [] then (t, [])
    else
      var n := |wr| - 1;
      var (s, ps) := RenameWrites(c, t, wr[..n], blk);
      assert wr[n] in t.frat.Keys;
      RenameTakesOne(c, s, wr[n], blk);
      (RenameWrite(c, s, wr[n], blk), ps + [Taken(c, s, blk).1])
  }

  lemma {:induction false} RenameWritesKeepsInv(c: Config, t: Table, w: seq<Write>, wr: seq<nat>, blk: nat)
    requires Inv(c, t, w) && AllAR(c, wr) && CanTakeAll(c, t, wr, blk)
    ensures var r := RenameWrites(c, t, wr, blk); Inv(c, r.0, w + Zip(wr, r.1))
    decreases |wr|
  {
    if wr == [] {
      assert w + Zip(wr, []) == w;
    } else {
      var n := |wr| - 1;
      RenameWritesKeepsInv(c, t, w, wr[..n], blk);
      var (s, ps) := RenameWrites(c, t, wr[..n], blk);
      assert wr[n] in t.frat.Keys;
      NextRenameKeepsInv(c, s, w, wr, ps, blk);
    }
  }

  lemma {:induction false} NextRenameKeepsInv(c: Config, s: Table, w: seq<Write>, wr: seq<nat>, ps: seq<nat>, blk: nat)
    requires wr != [] && |ps| == |wr| - 1 && c.IsAR(wr[|ps|]) && wr[|ps|] in s.frat
    requires CanTake(c, s, blk) && Inv(c, s, w + Zip(wr[..|ps|], ps))
    ensures Inv(c, RenameWrite(c, s, wr[|ps|], blk), w + Zip(wr, ps + [Taken(c, s, blk).1]))
  {
    hide RenameSpec.Inv;
    var n := |ps|;
    var p := Taken(c, s, blk).1;
    RenameKeepsInv(c, s, w + Zip(wr[..n], ps), wr[n], blk);
    assert w + Zip(wr, ps + [p]) == w + Zip(wr[..n], ps) + [Write(wr[n], p)];
  }

  lemma {:induction false} MapHasName(c: Config, t: Table, w: seq<Write>, a: nat)
    requires Inv(c, t, w) && c.IsAR(a)
    ensures a in t.frat
  {
    ApplyKeys(t.crat, w);
  }

  lemma {:induction false} NamesCommitted(c: Config, t: Table, w: seq<Write>, names: seq<nat>)
    requires Inv(c, t, w) && AllAR(c, names)
    ensures forall k :: 0 <= k < |names| ==> names[k] in t.crat
  {
  }

  ghost function Sources(t: Table, rd: seq<nat>): (prd: seq<nat>)
    requires forall k :: 0 <= k < |rd| ==> rd[k] in t.frat
    ensures |prd| == |rd|
  {
    seq(|rd|, k requires 0 <= k < |rd| => t.frat[rd[k]])
  }

  /** The instruction that renameRegs leaves: sources are read from the map before any destination. */
  ghost function Renamed(c: Config, t: Table, op: nat, rd: seq<nat>, wr: seq<nat>, blk: nat): (i: Ins)
    requires CanTakeAll(c, t, wr, blk) && forall k :: 0 <= k < |rd| ==> rd[k] in t.frat
    ensures Shaped(i) && i.rd == rd && i.wr == wr
  {
    Ins(op, rd, wr, Sources(t, rd), RenameWrites(c, t, wr, blk).1, Sources(t, rd), false)
  }

  /** One more renamed write changes only a register that was free. */
  lemma {:induction false} RenameWriteState(c: Config, t: Table, w: seq<Write>, a: nat, blk: nat)
    requires Inv(c, t, w) && CanTake(c, t, blk) && a in t.frat
    ensures var p, r := Taken(c, t, blk).1, RenameWrite(c, t, a, blk);
            && p in t.rf && t.rf[p].state == Available && r.rf[p].state == RenamedInvalid
            && forall q :: q in t.rf && q != p ==> q in r.rf && r.rf[q] == t.rf[q]
  {
    var (i, p) := Taken(c, t, blk);
    FreeRegister(c, t, w, i, |t.free[i]| - 1);
  }

  /** Every register keeps its state or was free and is now in flight. */
  ghost predicate OnlyFreeChanged(t: Table, r: Table) {
    forall p :: p in t.rf && t.rf[p].state != Available ==> p in r.rf && r.rf[p] == t.rf[p]
  }

  ghost predicate AllInvalid(t: Table, ps: seq<nat>) {
    forall k :: 0 <= k < |ps| ==> ps[k] in t.rf && t.rf[ps[k]].state == RenamedInvalid
  }

  lemma {:induction false} NextInvalid(t: Table, s: Table, ps: seq<nat>, r: Table, p: nat)
    requires AllInvalid(s, ps) && OnlyFreeChanged(t, s)
    requires p in s.rf && s.rf[p].state == Available && p in r.rf && r.rf[p].state == RenamedInvalid
    requires forall q :: q in s.rf && q != p ==> q in r.rf && r.rf[q] == s.rf[q]
    ensures AllInvalid(r, ps + [p]) && OnlyFreeChanged(t, r)
  {
  }

  /** Renaming leaves the registers that were not free as they were and marks the new ones invalid. */
  lemma {:induction false} RenameWritesStates(c: Config, t: Table, w: seq<Write>, wr: seq<nat>, blk: nat)
    requires Inv(c, t, w) && AllAR(c, wr) && CanTakeAll(c, t, wr, blk)
    ensures var r := RenameWrites(c, t, wr, blk); AllInvalid(r.0, r.1) && OnlyFreeChanged(t, r.0)
    decreases |wr|
  {
    if wr != [] {
      var n := |wr| - 1;
      RenameWritesStates(c, t, w, wr[..n], blk);
      RenameWritesKeepsInv(c, t, w, wr[..n], blk);
      var (s, ps) := RenameWrites(c, t, wr[..n], blk);
      assert wr[n] in t.frat.Keys;
      RenameWriteState(c, s, w + Zip(wr[..n], ps), wr[n], blk);
      NextInvalid(t, s, ps, RenameWrite(c, s, wr[n], blk), Taken(c, s, blk).1);
    }
  }

  /** Older instructions keep their place when the table changes only free registers. */
  lemma {:induction false} OlderInsOk(t: Table, r: Table, win: seq<Ins>, ins: Ins, i: nat)
    requires AllShaped(win + [ins]) && AllShaped(win) && i < |win| && InsOk(t, win, i)
    requires r.crat == t.crat && OnlyFreeChanged(t, r)
    ensures InsOk(r, win + [ins], i)
  {
    var v := win + [ins];
    assert v[..i] == win[..i] && v[i] == win[i];
    forall k | 0 <= k < |v[i].rd| ensures SourceOk(r, v, i, k) { assert SourceOk(t, win, i, k); }
    forall k | 0 <= k < |v[i].pwr| ensures DestOk(r, v[i], k) { assert DestOk(t, win[i], k); }
  }

  /** A freshly renamed instruction waits for every source and has invalid destinations. */
  lemma {:induction false} NewestInsOk(t: Table, r: Table, win: seq<Ins>, ins: Ins)
    requires AllShaped(win) && Shaped(ins) && !ins.complete && ins.waiting == ins.prd && AllInvalid(r, ins.pwr)
    requires r.crat == t.crat && t.frat == Apply(t.crat, Flat(win))
    requires forall k :: 0 <= k < |ins.rd| ==> ins.rd[k] in t.crat && ins.rd[k] in t.frat && ins.prd[k] == t.frat[ins.rd[k]]
    ensures AllShaped(win + [ins]) && InsOk(r, win + [ins], |win|)
  {
    var v := win + [ins];
    assert v[..|win|] == win && v[|win|] == ins;
    forall k | 0 <= k < |ins.rd| ensures SourceOk(r, v, |win|, k) {
      assert ins.prd[k] in ins.waiting;
    }
    forall k | 0 <= k < |ins.pwr| ensures DestOk(r, ins, k) { }
  }

  /** renameRegs keeps the invariant. */
  lemma {:induction false} RenameKeepsWindow(c: Config, t: Table, win: seq<Ins>, op: nat, rd: seq<nat>, wr: seq<nat>, blk: nat)
    requires WindowInv(c, t, win) && AllAR(c, rd) && AllAR(c, wr) && CanTakeAll(c, t, wr, blk)
    requires forall k :: 0 <= k < |rd| ==> rd[k] in t.frat
    ensures WindowInv(c, RenameWrites(c, t, wr, blk).0, win + [Renamed(c, t, op, rd, wr, blk)])
  {
    hide CommittedInv, FreeInv, FlightInv, InsOk, AllInvalid, OnlyFreeChanged;
    var r := RenameWrites(c, t, wr, blk).0;
    var ins := Renamed(c, t, op, rd, wr, blk);
    var v := win + [ins];
    RenameWritesStates(c, t, Flat(win), wr, blk);
    RenameWritesKeepsInv(c, t, Flat(win), wr, blk);
    FlatOne(ins);
    FlatConcat(win, [ins]);
    NamesCommitted(c, t, Flat(win), rd);
    NewestInsOk(t, r, win, ins);
    forall i | 0 <= i < |win| ensures InsOk(r, v, i) {
      assert InsOk(t, win, i);
      OlderInsOk(t, r, win, ins, i);
    }
  }

  // ----- isReady -----

  /** isReady drops the source registers that are valid now. */
  ghost function Keep(t: Table, s: seq<nat>): seq<nat> {
    if s == [] then [] else (if ValidReg(t, s[0]) then [] else [s[0]]) + Keep(t, s[1..])
  }

  /** One step of the loop of isReady, from the back of the list. */
  lemma {:induction false} KeepOneMore(t: Table, s: seq<nat>, i: nat)
    requires i < |s|
    ensures var kept := s[..i + 1] + Keep(t, s[i + 1..]);
            && kept[i] == s[i]
            && (if ValidReg(t, s[i]) then kept[..i] + kept[i + 1..] else kept) == s[..i] + Keep(t, s[i..])
    ensures Keep(t, s[i..]) != [] <==> !ValidReg(t, s[i]) || Keep(t, s[i + 1..]) != []
  {
    assert s[i..][0] == s[i] && s[i..][1..] == s[i + 1..];
    assert s[..i + 1] == s[..i] + [s[i]];
  }

  lemma {:induction false} KeepMembers(t: Table, s: seq<nat>)
    ensures forall p :: p in Keep(t, s) <==> p in s && !ValidReg(t, p)
  {
    if s != [] { KeepMembers(t, s[1..]); }
  }

  /** Flat looks only at the write operands. */
  lemma {:induction false} FlatUpdate(win: seq<Ins>, i: nat, ins: Ins)
    requires AllShaped(win) && i < |win| && Shaped(ins) && ins.wr == win[i].wr && ins.pwr == win[i].pwr
    ensures AllShaped(win[i := ins]) && Flat(win[i := ins]) == Flat(win)
    ensures forall j :: 0 <= j <= |win| ==> Flat(win[i := ins][..j]) == Flat(win[..j])
  {
    forall j | 0 <= j <= |win| ensures Flat(win[i := ins][..j]) == Flat(win[..j]) {
      FlatUpdatePrefix(win, i, ins, j);
    }
    assert win[i := ins][..|win|] == win[i := ins] && win[..|win|] == win;
  }

  lemma {:induction false} FlatUpdatePrefix(win: seq<Ins>, i: nat, ins: Ins, j: nat)
    requires AllShaped(win) && i < |win| && j <= |win| && Shaped(ins) && ins.wr == win[i].wr && ins.pwr == win[i].pwr
    ensures Flat(win[i := ins][..j]) == Flat(win[..j])
    decreases j
  {
    if j > 0 {
      FlatUpdatePrefix(win, i, ins, j - 1);
      assert win[i := ins][..j][..j - 1] == win[i := ins][..j - 1];
      assert win[..j][..j - 1] == win[..j - 1];
    }
  }

  /** Dropping valid sources keeps the invariant. */
  lemma {:induction false} ReadyKeepsWindow(c: Config, t: Table, win: seq<Ins>, i: nat)
    requires WindowInv(c, t, win) && i < |win|
    ensures WindowInv(c, t, win[i := win[i].(waiting := Keep(t, win[i].waiting))])
  {
    var ins := win[i].(waiting := Keep(t, win[i].waiting));
    var v := win[i := ins];
    FlatUpdate(win, i, ins);
    KeepMembers(t, win[i].waiting);
    forall j | 0 <= j < |v| ensures InsOk(t, v, j) {
      assert InsOk(t, win, j);
      forall k | 0 <= k < |v[j].rd| ensures SourceOk(t, v, j, k) { assert SourceOk(t, win, j, k); }
      forall k | 0 <= k < |v[j].pwr| ensures DestOk(t, v[j], k) { assert DestOk(t, win[j], k); }
    }
  }

  // ----- completeRegs -----

  ghost function CompleteAll(t: Table, ps: seq<nat>): (r: Table)
    requires forall k :: 0 <= k < |ps| ==> ps[k] in t.rf
    ensures r.frat == t.frat && r.crat == t.crat && r.free == t.free && r.rf.Keys == t.rf.Keys
    ensures forall p :: p in t.rf ==>
              r.rf[p] == if p in ps then t.rf[p].(state := RenamedValid) else t.rf[p]
    decreases |ps|
  {
    if ps == [] then t
    else
      var n := |ps| - 1;
      assert ps == ps[..n] + [ps[n]];
      CompleteWrite(CompleteAll(t, ps[..n]), ps[n])
  }

  lemma {:induction false} CompleteAllKeepsInv(c: Config, t: Table, w: seq<Write>, ps: seq<nat>)
    requires Inv(c, t, w) && forall k :: 0 <= k < |ps| ==> InFlight(w, ps[k]) && ps[k] in t.rf
    ensures Inv(c, CompleteAll(t, ps), w)
    decreases |ps|
  {
    if ps != [] {
      var n := |ps| - 1;
      forall k | 0 <= k < n ensures InFlight(w, ps[..n][k]) && ps[..n][k] in t.rf { assert ps[..n][k] == ps[k]; }
      CompleteAllKeepsInv(c, t, w, ps[..n]);
      CompleteKeepsInv(c, CompleteAll(t, ps[..n]), w, ps[n]);
    }
  }

  lemma {:induction false} DestInFlight(c: Config, t: Table, win: seq<Ins>, i: nat, k: nat)
    requires AllShaped(win) && Inv(c, t, Flat(win)) && i < |win| && k < |win[i].pwr|
    ensures InFlight(Flat(win), win[i].pwr[k]) && win[i].pwr[k] in t.rf
  {
    FlatAt(win, i, k);
  }

  /** completeRegs, in any order among the in-flight instructions, keeps the invariant. */
  lemma {:induction false} CompleteKeepsWindow(c: Config, t: Table, win: seq<Ins>, i: nat)
    requires WindowInv(c, t, win) && i < |win| && win[i].waiting == []
    requires forall k :: 0 <= k < |win[i].pwr| ==> win[i].pwr[k] in t.rf
    ensures WindowInv(c, CompleteAll(t, win[i].pwr), win[i := win[i].(complete := true)])
  {
    hide RenameSpec.Inv;
    var ins := win[i].(complete := true);
    var v := win[i := ins];
    var r := CompleteAll(t, win[i].pwr);
    FlatUpdate(win, i, ins);
    forall k | 0 <= k < |win[i].pwr| ensures InFlight(Flat(win), win[i].pwr[k]) { DestInFlight(c, t, win, i, k); }
    CompleteAllKeepsInv(c, t, Flat(win), win[i].pwr);
    forall j | 0 <= j < |v| ensures InsOk(r, v, j) {
      assert InsOk(t, win, j);
      forall k | 0 <= k < |v[j].rd| ensures SourceOk(r, v, j, k) { assert SourceOk(t, win, j, k); }
      forall k | 0 <= k < |v[j].pwr| ensures DestOk(r, v[j], k) {
        assert DestOk(t, win[j], k);
        if j != i && win[j].pwr[k] in win[i].pwr {
          var l :| 0 <= l < |win[i].pwr| && win[i].pwr[l] == win[j].pwr[k];
          WriteRegistersDistinct(c, t, win, j, k, i, l);
        }
      }
    }
  }

  // ----- commitRegs -----

  /** What commitRegs needs of the table before it commits one write. */
  ghost predicate CanCommit(c: Config, t: Table, p: nat) {
    && c.Valid() && p in t.rf && t.rf[p].prev.Some? && c.IsPR(t.rf[p].prev.value) && |t.free| == c.segCnt
  }

  /** The first `n` writes committed in order. */
  ghost function CommitAll(c: Config, t: Table, w: seq<Write>, n: nat): (r: Table)
    requires Inv(c, t, w) && n <= |w|
    ensures Inv(c, r, w[n..])
    decreases n
  {
    if n == 0 then
      assert w[0..] == w;
      t
    else
      var s := CommitAll(c, t, w, n - 1);
      assert w[n - 1..][0] == w[n - 1] && w[n - 1..][1..] == w[n..];
      CommitKeepsInv(c, s, w[n - 1..]);
      CommitWrite(c, s, w[n - 1].ar, w[n - 1].pr)
  }

  lemma {:induction false} OldestCanCommit(c: Config, t: Table, w: seq<Write>)
    requires Inv(c, t, w) && w != []
    ensures CanCommit(c, t, w[0].pr)
  {
    hide CommittedInv, FlightInv;
    CommitKeepsInv(c, t, w);
  }

  /** Committing a write changes only the two registers involved. */
  lemma {:induction false} CommitStates(c: Config, t: Table, w: seq<Write>)
    requires Inv(c, t, w) && w != [] && CanCommit(c, t, w[0].pr)
    ensures var r := CommitWrite(c, t, w[0].ar, w[0].pr);
            && (forall p :: p in t.rf ==> p in r.rf && (r.rf[p] == t.rf[p] || r.rf[p].state in {ArchReg, Available}))
            && (forall k :: 0 < k < |w| ==> w[k].pr in t.rf && r.rf[w[k].pr] == t.rf[w[k].pr])
            && r.crat == t.crat[w[0].ar := w[0].pr]
  {
    OldestLinksToCommitted(c, t, w);
    assert Committed(t, t.crat[w[0].ar]);
  }

  /** Registers keep their state or become committed or free; younger writes are not touched. */
  ghost predicate OnlyRetired(t: Table, r: Table, w: seq<Write>) {
    && (forall p :: p in t.rf ==> p in r.rf && (r.rf[p] == t.rf[p] || r.rf[p].state in {ArchReg, Available}))
    && (forall k :: 0 <= k < |w| ==> w[k].pr in t.rf && w[k].pr in r.rf && r.rf[w[k].pr] == t.rf[w[k].pr])
  }

  lemma {:induction false} CommitAllStates(c: Config, t: Table, w: seq<Write>, n: nat)
    requires Inv(c, t, w) && n <= |w|
    ensures var r := CommitAll(c, t, w, n); OnlyRetired(t, r, w[n..]) && r.crat == Apply(t.crat, w[..n])
    decreases n
  {
    if n > 0 {
      CommitAllStates(c, t, w, n - 1);
      NextCommitStates(c, t, CommitAll(c, t, w, n - 1), w, n);
    }
  }

  lemma {:induction false} NextCommitStates(c: Config, t: Table, s: Table, w: seq<Write>, n: nat)
    requires 0 < n <= |w| && Inv(c, s, w[n - 1..])
    requires OnlyRetired(t, s, w[n - 1..]) && s.crat == Apply(t.crat, w[..n - 1])
    ensures CanCommit(c, s, w[n - 1].pr)
    ensures var r := CommitWrite(c, s, w[n - 1].ar, w[n - 1].pr);
            OnlyRetired(t, r, w[n..]) && r.crat == Apply(t.crat, w[..n])
  {
    var v := w[n - 1..];
    assert v[0] == w[n - 1] && v[1..] == w[n..];
    OldestCanCommit(c, s, v);
    hide RenameSpec.Inv;
    CommitStates(c, s, v);
    assert w[..n][..n - 1] == w[..n - 1];
    RetiredStep(t, s, CommitWrite(c, s, w[n - 1].ar, w[n - 1].pr), v);
  }

  lemma {:induction false} RetiredStep(t: Table, s: Table, r: Table, v: seq<Write>)
    requires v != [] && OnlyRetired(t, s, v)
    requires forall p :: p in s.rf ==> p in r.rf && (r.rf[p] == s.rf[p] || r.rf[p].state in {ArchReg, Available})
    requires forall k :: 0 < k < |v| ==> v[k].pr in s.rf && v[k].pr in r.rf && r.rf[v[k].pr] == s.rf[v[k].pr]
    ensures OnlyRetired(t, r, v[1..])
  {
  }

  lemma {:induction false} HeadWrites(win: seq<Ins>)
    requires AllShaped(win) && win != []
    ensures AllShaped(win[1..]) && Flat(win) == WritesOf(win[0]) + Flat(win[1..])
    ensures forall j :: 0 < j <= |win| ==> Flat(win[..j]) == WritesOf(win[0]) + Flat(win[1..][..j - 1])
  {
    assert win == [win[0]] + win[1..];
    FlatOne(win[0]);
    FlatConcat([win[0]], win[1..]);
    forall j | 0 < j <= |win| ensures Flat(win[..j]) == WritesOf(win[0]) + Flat(win[1..][..j - 1]) {
      assert win[..j] == [win[0]] + win[1..][..j - 1];
      FlatConcat([win[0]], win[1..][..j - 1]);
    }
  }

  /** The table after commitRegs of the oldest instruction. */
  ghost function CommitHead(c: Config, t: Table, win: seq<Ins>): (r: Table)
    requires WindowInv(c, t, win) && win != []
    ensures Inv(c, r, Flat(win[1..]))
  {
    HeadWrites(win);
    var w := Flat(win);
    assert w[|win[0].wr|..] == Flat(win[1..]);
    CommitAll(c, t, w, |win[0].wr|)
  }

  lemma {:induction false} CommitHeadStates(c: Config, t: Table, win: seq<Ins>)
    requires WindowInv(c, t, win) && win != []
    ensures var r := CommitHead(c, t, win); OnlyRetired(t, r, Flat(win[1..])) && r.crat == Apply(t.crat, WritesOf(win[0]))
  {
    hide RenameSpec.Inv;
    HeadWrites(win);
    var w := Flat(win);
    assert w[|win[0].wr|..] == Flat(win[1..]) && w[..|win[0].wr|] == WritesOf(win[0]);
    CommitAllStates(c, t, w, |win[0].wr|);
  }

  lemma {:induction false} HeadNames(c: Config, t: Table, win: seq<Ins>)
    requires AllShaped(win) && win != [] && Inv(c, t, Flat(win))
    ensures Apply(t.crat, WritesOf(win[0])).Keys == t.crat.Keys
  {
    ApplyKeys(t.crat, WritesOf(win[0])) by {
      forall l | 0 <= l < |win[0].wr| ensures WritesOf(win[0])[l].ar in t.crat { FlatAt(win, 0, l); }
    }
  }

  /** What a younger instruction sees of the map does not change when the oldest one commits. */
  lemma {:induction false} MapSurvivesCommit(c: Config, t: Table, win: seq<Ins>, j: nat)
    requires WindowInv(c, t, win) && win != [] && 0 < j <= |win|
    ensures AllShaped(win[1..])
    ensures Apply(CommitHead(c, t, win).crat, Flat(win[1..][..j - 1])) == Apply(t.crat, Flat(win[..j]))
    ensures CommitHead(c, t, win).crat.Keys == t.crat.Keys
  {
    hide RenameSpec.Inv, InsOk, OnlyRetired;
    HeadWrites(win);
    CommitHeadStates(c, t, win);
    HeadNames(c, t, win);
    ApplyConcat(t.crat, WritesOf(win[0]), Flat(win[1..][..j - 1]));
  }

  /** A source that was valid is still valid after the oldest instruction committed. */
  lemma {:induction false} SourceSurvivesCommit(c: Config, t: Table, win: seq<Ins>, j: nat, k: nat)
    requires WindowInv(c, t, win) && win != [] && 0 < j < |win| && k < |win[j].rd|
    ensures AllShaped(win[1..]) && SourceOk(CommitHead(c, t, win), win[1..], j - 1, k)
  {
    hide RenameSpec.Inv, Apply, Flat;
    var r := CommitHead(c, t, win);
    MapSurvivesCommit(c, t, win, j);
    CommitHeadStates(c, t, win);
    assert InsOk(t, win, j) && SourceOk(t, win, j, k);
    MappedNotAvailable(c, r, win[1..], j - 1, win[j].rd[k]);
  }

  lemma {:induction false} InsSurvivesCommit(c: Config, t: Table, win: seq<Ins>, j: nat)
    requires WindowInv(c, t, win) && 0 < j < |win|
    ensures AllShaped(win[1..]) && InsOk(CommitHead(c, t, win), win[1..], j - 1)
  {
    hide RenameSpec.Inv, SourceOk;
    var r, v := CommitHead(c, t, win), win[1..];
    HeadWrites(win);
    CommitHeadStates(c, t, win);
    assert InsOk(t, win, j) && v[j - 1] == win[j];
    var n: nat := j - 1;
    forall k | 0 <= k < |win[j].rd| ensures SourceOk(r, v, n, k) { SourceSurvivesCommit(c, t, win, j, k); }
    forall k | 0 <= k < |win[j].pwr| ensures DestOk(r, win[j], k) {
      assert DestOk(t, win[j], k);
      FlatAt(v, j - 1, k);
    }
  }

  /** commitRegs of a complete oldest instruction keeps the invariant. */
  lemma {:induction false} CommitKeepsWindow(c: Config, t: Table, win: seq<Ins>)
    requires WindowInv(c, t, win) && win != []
    ensures WindowInv(c, CommitHead(c, t, win), win[1..])
  {
    hide RenameSpec.Inv, InsOk;
    HeadWrites(win);
    forall j | 0 <= j < |win[1..]| ensures InsOk(CommitHead(c, t, win), win[1..], j) {
      InsSurvivesCommit(c, t, win, j + 1);
    }
  }

  /** squashRenameReg drops everything in flight. */
  lemma {:induction false} SquashKeepsWindow(c: Config, t: Table, win: seq<Ins>)
    requires WindowInv(c, t, win)
    ensures WindowInv(c, Squash(c, t), [])
  {
    SquashKeepsInv(c, t, Flat(win));
  }
}
