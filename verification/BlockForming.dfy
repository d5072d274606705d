/** Forming basic blocks and dropping dead NOP blocks (make_basicblock.cpp). */
module BlockForming {

  /** `isNop` tells whether the opcode is the NOP one. */
  datatype Ins = Ins(addr: nat, kind: char, hasFallThru: bool, hasDst: bool, isNop: bool)

  predicate EndsBlock(ins: Ins) {
    ins.kind == 'j' || ins.kind == 'b' || ins.kind == 'r' || ins.kind == 'c' || ins.kind == 's'
  }

  /** Jumps, branches, returns, calls and system calls. */
  const TRANSFERS: set<char> := {'j', 'b', 'r', 'c', 's'}

  predicate LeadsNowhere(ins: Ins) {
    !ins.hasFallThru && !ins.hasDst
  }

  ghost function Concat(bbs: seq<seq<Ins>>): seq<Ins> {
    if bbs == [] then [] else Concat(bbs[..|bbs| - 1]) + bbs[|bbs| - 1]
  }

  lemma {:induction false} ConcatSnoc(bbs: seq<seq<Ins>>, b: seq<Ins>)
    ensures Concat(bbs + [b]) == Concat(bbs) + b
  {
    assert (bbs + [b])[..|bbs|] == bbs;
  }

  // ----- What a block list promises -----

  /** A branch target stands first, and what ends a block stands last. */
  ghost predicate WellFormed(b: seq<Ins>, brDstSet: set<nat>, size: nat) {
    && |b| <= size
    && (forall k :: 0 < k < |b| ==> b[k].addr !in brDstSet)
    && (forall k :: 0 <= k < |b| - 1 ==> b[k].kind !in TRANSFERS && !LeadsNowhere(b[k]))
  }

  ghost predicate AllWellFormed(bbs: seq<seq<Ins>>, brDstSet: set<nat>, size: nat) {
    forall n :: 0 <= n < |bbs| ==> WellFormed(bbs[n], brDstSet, size)
  }

  /** The last block is still open: nothing in it ends a block, and it holds at most `size`. */
  ghost predicate Open(b: seq<Ins>, brDstSet: set<nat>, size: nat) {
    WellFormed(b, brDstSet, size) && (b != [] ==> b[|b| - 1].kind !in TRANSFERS && !LeadsNowhere(b[|b| - 1]))
  }

  ghost predicate ClosesBlock(b: seq<Ins>) {
    b != [] && (b[|b| - 1].kind in TRANSFERS || LeadsNowhere(b[|b| - 1]))
  }

  /** A block goes on while it may: it ends where control does, when it is full, or before a branch target. Only
      an instruction that ends it may come on top of a full block. */
  ghost predicate EndsRightly(bbs: seq<seq<Ins>>, n: nat, brDstSet: set<nat>, size: nat)
    requires n < |bbs|
  {
    && (|bbs[n]| > size ==> ClosesBlock(bbs[n]))
    && (n + 1 < |bbs| ==>
          ClosesBlock(bbs[n]) || |bbs[n]| >= size || (bbs[n + 1] != [] && bbs[n + 1][0].addr in brDstSet))
  }

  ghost predicate AllEndRightly(bbs: seq<seq<Ins>>, brDstSet: set<nat>, size: nat) {
    forall n {:trigger bbs[n]} :: 0 <= n < |bbs| ==> EndsRightly(bbs, n, brDstSet, size)
  }

  ghost function WithIns(bbs: seq<seq<Ins>>, ins: Ins): seq<seq<Ins>>
    requires bbs != []
  {
    bbs[..|bbs| - 1] + [bbs[|bbs| - 1] + [ins]]
  }

  /** One more instruction for a block that is not full, or that it ends. */
  lemma {:induction false} WithInsEndsRightly(bbs: seq<seq<Ins>>, ins: Ins, brDstSet: set<nat>, size: nat)
    requires bbs != [] && AllEndRightly(bbs, brDstSet, size)
    requires |bbs[|bbs| - 1]| < size || EndsBlock(ins) || LeadsNowhere(ins)
    ensures AllEndRightly(WithIns(bbs, ins), brDstSet, size)
  {
    var w, last := WithIns(bbs, ins), |bbs| - 1;
    forall n | 0 <= n < |w| ensures EndsRightly(w, n, brDstSet, size) {
      if n < last {
        assert EndsRightly(bbs, n, brDstSet, size);
        assert w[n] == bbs[n] && (bbs[n + 1] != [] ==> w[n + 1][0] == bbs[n + 1][0]);
      }
    }
  }

  /** A new block after one that ended or is full, or for a branch target. */
  lemma {:induction false} NewBlockEndsRightly(bbs: seq<seq<Ins>>, b: seq<Ins>, brDstSet: set<nat>, size: nat)
    requires AllEndRightly(bbs, brDstSet, size) && (|b| > size ==> ClosesBlock(b))
    requires bbs != [] ==> ClosesBlock(bbs[|bbs| - 1]) || |bbs[|bbs| - 1]| >= size || (b != [] && b[0].addr in brDstSet)
    ensures AllEndRightly(bbs + [b], brDstSet, size)
  {
    var w := bbs + [b];
    forall n | 0 <= n < |w| ensures EndsRightly(w, n, brDstSet, size) {
      if n < |bbs| {
        assert EndsRightly(bbs, n, brDstSet, size);
        assert w[n] == bbs[n] && (n + 1 < |bbs| ==> w[n + 1] == bbs[n + 1]);
      }
    }
  }

  lemma {:induction false} StartsRightly(bbs: seq<seq<Ins>>, ins: Ins, brDstSet: set<nat>, size: nat)
    requires AllEndRightly(bbs, brDstSet, size) && size > 0 && (bbs == [] || ins.addr in brDstSet)
    ensures AllEndRightly(WithIns(bbs + [[]], ins), brDstSet, size)
  {
    NewBlockEndsRightly(bbs, [ins], brDstSet, size);
    var open := bbs + [[]];
    assert open[..|open| - 1] == bbs && open[|open| - 1] + [ins] == [ins];
  }

  ghost predicate Distinct(s: seq<Ins>) {
    forall i, j :: 0 <= i < j < |s| ==> s[i].addr != s[j].addr
  }

  /** A single NOP, or nothing at all. */
  predicate Dead(b: seq<Ins>) {
    |b| == 0 || (|b| == 1 && b[0].isNop)
  }

  class Blocks {
    var insList: seq<Ins>
    var bbList: seq<seq<Ins>>

    constructor (insList: seq<Ins>)
      ensures this.insList == insList && bbList == []
    {
      this.insList, bbList := insList, [];
    }

    method AppendNewBB()
      modifies this`bbList
      ensures bbList == old(bbList) + [[]] && Concat(bbList) == Concat(old(bbList))
    {
      ConcatSnoc(bbList, []);
      bbList := bbList + [[]];
    }

    /** Adds to the last block. */
    method AddIns(ins: Ins)
      requires bbList != []
      modifies this`bbList
      ensures bbList == old(bbList)[..|old(bbList)| - 1] + [old(bbList)[|old(bbList)| - 1] + [ins]]
      ensures Concat(bbList) == Concat(old(bbList)) + [ins]
    {
      var n := |bbList| - 1;
      assert bbList == bbList[..n] + [bbList[n]];
      ConcatSnoc(bbList[..n], bbList[n]);
      ConcatSnoc(bbList[..n], bbList[n] + [ins]);
      bbList := bbList[..n] + [bbList[n] + [ins]];
    }

    /** All blocks are well formed, only the last one may be empty, and the last one is open. */
    ghost predicate Forming(brDstSet: set<nat>, size: nat)
      reads this
    {
      && AllWellFormed(bbList, brDstSet, size + 1)
      && (forall n :: 0 <= n < |bbList| - 1 ==> bbList[n] != [])
      && (bbList != [] ==> Open(bbList[|bbList| - 1], brDstSet, size))
    }

    /** A new block once the last one holds something. */
    method OpenNewBB(brDstSet: set<nat>, ghost size: nat)
      requires Forming(brDstSet, size) && (bbList == [] || bbList[|bbList| - 1] != [])
      modifies this`bbList
      ensures Forming(brDstSet, size) && bbList == old(bbList) + [[]] && Concat(bbList) == Concat(old(bbList))
    {
      AppendNewBB();
    }

    /** An instruction that leaves the last block open. */
    method Extend(ins: Ins, brDstSet: set<nat>, ghost size: nat)
      requires Forming(brDstSet, size) && bbList != [] && |bbList[|bbList| - 1]| < size
      requires ins.addr in brDstSet ==> bbList[|bbList| - 1] == []
      requires !EndsBlock(ins) && !LeadsNowhere(ins)
      modifies this`bbList
      ensures Forming(brDstSet, size) && bbList == WithIns(old(bbList), ins)
      ensures Concat(bbList) == Concat(old(bbList)) + [ins]
    {
      ghost var last := bbList[|bbList| - 1];
      AddIns(ins);
      assert bbList[|bbList| - 1] == last + [ins];
    }

    /** An instruction that closes the last block; a new one follows. */
    method Close(ins: Ins, brDstSet: set<nat>, ghost size: nat)
      requires Forming(brDstSet, size) && bbList != []
      requires ins.addr in brDstSet ==> bbList[|bbList| - 1] == []
      modifies this`bbList
      ensures Forming(brDstSet, size) && bbList == WithIns(old(bbList), ins) + [[]]
      ensures Concat(bbList) == Concat(old(bbList)) + [ins]
    {
      ghost var last := bbList[|bbList| - 1];
      AddIns(ins);
      ghost var closed := bbList;
      assert closed[|closed| - 1] == last + [ins];
      AppendNewBB();
      assert bbList[..|closed|] == closed;
    }

    /** The instruction ends the last block. */
    method CloseBlock(ins: Ins, brDstSet: set<nat>, ghost size: nat)
      requires Forming(brDstSet, size) && bbList != [] && AllEndRightly(bbList, brDstSet, size)
      requires ins.addr in brDstSet ==> bbList[|bbList| - 1] == []
      requires EndsBlock(ins) || LeadsNowhere(ins)
      modifies this`bbList
      ensures Forming(brDstSet, size) && bbList == WithIns(old(bbList), ins) + [[]] && AllEndRightly(bbList, brDstSet, size)
      ensures Concat(bbList) == Concat(old(bbList)) + [ins]
    {
      WithInsEndsRightly(bbList, ins, brDstSet, size);
      NewBlockEndsRightly(WithIns(bbList, ins), [], brDstSet, size);
      Close(ins, brDstSet, size);
    }

    /** The first instruction and every branch target start a block, unless the last one is still empty. */
    method StartBlock(ins: Ins, first: bool, brDstSet: set<nat>, clusterSize: nat)
      requires clusterSize > 0 && Forming(brDstSet, clusterSize) && (first <==> bbList == [])
      requires AllEndRightly(bbList, brDstSet, clusterSize) && (first || ins.addr in brDstSet)
      modifies this`bbList
      ensures Forming(brDstSet, clusterSize) && bbList != []
      ensures AllEndRightly(bbList, brDstSet, clusterSize)
      ensures Concat(bbList) == Concat(old(bbList)) + [ins]
    {
      hide WellFormed, EndsRightly, AllWellFormed, Concat;
      ghost var was := bbList;
      if first || |bbList[|bbList| - 1]| > 0 {
        OpenNewBB(brDstSet, clusterSize);
        StartsRightly(was, ins, brDstSet, clusterSize);
      } else {
        WithInsEndsRightly(bbList, ins, brDstSet, clusterSize);
      }
      ghost var placed := WithIns(bbList, ins);
      assert AllEndRightly(placed, brDstSet, clusterSize);
      if EndsBlock(ins) {
        Close(ins, brDstSet, clusterSize);
        NewBlockEndsRightly(placed, [], brDstSet, clusterSize);
      } else if LeadsNowhere(ins) {
        Close(ins, brDstSet, clusterSize);
        NewBlockEndsRightly(placed, [], brDstSet, clusterSize);
      } else {
        Extend(ins, brDstSet, clusterSize);
        if |bbList[|bbList| - 1]| >= clusterSize {
          OpenNewBB(brDstSet, clusterSize);
          NewBlockEndsRightly(placed, [], brDstSet, clusterSize);
        }
      }
    }

    /** One turn of the forming loop. */
    method PlaceIns(ins: Ins, first: bool, brDstSet: set<nat>, clusterSize: nat)
      requires clusterSize > 0 && Forming(brDstSet, clusterSize) && (first <==> bbList == [])
      requires AllEndRightly(bbList, brDstSet, clusterSize)
      modifies this`bbList
      ensures Forming(brDstSet, clusterSize) && bbList != []
      ensures AllEndRightly(bbList, brDstSet, clusterSize)
      ensures Concat(bbList) == Concat(old(bbList)) + [ins]
    {
      hide WellFormed, EndsRightly, AllWellFormed, Concat;
      if first || ins.addr in brDstSet {
        StartBlock(ins, first, brDstSet, clusterSize);
      } else if EndsBlock(ins) {
        CloseBlock(ins, brDstSet, clusterSize);
      } else if LeadsNowhere(ins) {
        CloseBlock(ins, brDstSet, clusterSize);
      } else if |bbList[|bbList| - 1]| >= clusterSize {
        OpenNewBB(brDstSet, clusterSize);
        NewBlockEndsRightly(old(bbList), [], brDstSet, clusterSize);
        WithInsEndsRightly(bbList, ins, brDstSet, clusterSize);
        Extend(ins, brDstSet, clusterSize);
      } else {
        WithInsEndsRightly(bbList, ins, brDstSet, clusterSize);
        Extend(ins, brDstSet, clusterSize);
      }
    }

    /** The forming loop. */
    method FormBlocks(brDstSet: set<nat>, clusterSize: nat)
      requires clusterSize > 0 && bbList == []
      modifies this`bbList
      ensures Forming(brDstSet, clusterSize) && Concat(bbList) == insList && AllEndRightly(bbList, brDstSet, clusterSize)
    {
      var i := 0;
      while i < |insList|
        invariant 0 <= i <= |insList| && insList == old(insList)
        invariant Forming(brDstSet, clusterSize) && Concat(bbList) == insList[..i] && AllEndRightly(bbList, brDstSet, clusterSize)
        invariant i == 0 <==> bbList == []
      {
        assert insList[..i + 1] == insList[..i] + [insList[i]];
        PlaceIns(insList[i], i == 0, brDstSet, clusterSize);
        i := i + 1;
      }
      assert insList[..i] == insList;
    }

    /** Empty blocks and blocks of one NOP go; the addresses of those NOPs are collected. */
    method DropDeadBlocks() returns (toRemove: set<nat>)
      modifies this`bbList
      ensures bbList == Live(old(bbList)) && toRemove == DeadAddrs(old(bbList))
    {
      ghost var all := bbList;
      toRemove := {};
      var i := |bbList|;
      assert all[i..] == [];
      while i > 0
        invariant 0 <= i <= |all|
        invariant bbList == all[..i] + Live(all[i..]) && toRemove == DeadAddrs(all[i..])
      {
        i := i - 1;
        assert all[i..] == [all[i]] + all[i + 1..] && bbList[i] == all[i];
        if |bbList[i]| == 0 {
          bbList := bbList[..i] + bbList[i + 1..];
        } else if |bbList[i]| == 1 {
          var ins := bbList[i][0];
          if ins.isNop {
            toRemove := toRemove + {ins.addr};
            bbList := bbList[..i] + bbList[i + 1..];
          }
        }
      }
      assert all[..0] == [] && all[0..] == all;
    }

    method RemoveDeadIns(toRemove: set<nat>)
      modifies this`insList
      ensures insList == Keep(old(insList), toRemove)
    {
      ghost var all := insList;
      var i := |insList|;
      assert all[i..] == [];
      while i > 0
        invariant 0 <= i <= |all|
        invariant insList == all[..i] + Keep(all[i..], toRemove)
      {
        i := i - 1;
        assert all[i..] == [all[i]] + all[i + 1..] && insList[i] == all[i];
        if insList[i].addr in toRemove { insList := insList[..i] + insList[i + 1..]; }
      }
      assert all[..0] == [] && all[0..] == all;
    }

    /** make_basicblock up to the edges between blocks: the blocks still spell the instruction list, none is
        dead, targets start blocks, control transfers end them, and no block exceeds the cluster size plus one. */
    method MakeBasicblock(brDstSet: set<nat>, clusterSize: nat)
      requires clusterSize > 0 && bbList == [] && Distinct(insList)
      modifies this
      ensures Concat(bbList) == insList && AllWellFormed(bbList, brDstSet, clusterSize + 1)
      ensures forall b: seq<Ins> :: b in bbList ==> |b| > 1 || (|b| == 1 && !b[0].isNop)
      ensures forall x :: x in old(insList) && x !in insList ==> x.isNop
      ensures exists bbs: seq<seq<Ins>> ::
                && Concat(bbs) == old(insList) && AllWellFormed(bbs, brDstSet, clusterSize + 1)
                && AllEndRightly(bbs, brDstSet, clusterSize) && LosesOnlyNops(bbs, bbList)
                && bbList == Live(bbs) && insList == Keep(old(insList), DeadAddrs(bbs))
    {
      FormBlocks(brDstSet, clusterSize);
      ghost var bbs := bbList;
      var toRemove := DropDeadBlocks();
      RemoveDeadIns(toRemove);
      LiveWellFormed(bbs, brDstSet, clusterSize + 1);
      LiveSpellsKept(bbs);
      LiveLosesOnlyNops(bbs);
      forall x | x in old(insList) && x !in insList ensures x.isNop { LostIsNop(bbs, x); }
    }
  }

  /** The blocks left are blocks formed; those missing are empty or a NOP alone. */
  ghost predicate LosesOnlyNops(bbs: seq<seq<Ins>>, left: seq<seq<Ins>>) {
    && (forall b: seq<Ins> :: b in left ==> b in bbs)
    && (forall b: seq<Ins> :: b in bbs && b !in left ==> b == [] || (|b| == 1 && b[0].isNop))
  }

  lemma {:induction false} LiveLosesOnlyNops(bbs: seq<seq<Ins>>)
    ensures LosesOnlyNops(bbs, Live(bbs))
    ensures forall b: seq<Ins> :: b in Live(bbs) ==> |b| > 1 || (|b| == 1 && !b[0].isNop)
  {
    if bbs != [] { LiveLosesOnlyNops(bbs[1..]); }
  }

  lemma {:induction false} LostIsNop(bbs: seq<seq<Ins>>, x: Ins)
    requires Distinct(Concat(bbs)) && x in Concat(bbs) && x !in Keep(Concat(bbs), DeadAddrs(bbs))
    ensures x.isNop
  {
    KeptUnless(Concat(bbs), DeadAddrs(bbs), x);
    DeadAddrIsNop(bbs, x.addr);
    var y :| y in Concat(bbs) && y.addr == x.addr && y.isNop;
    var i :| 0 <= i < |Concat(bbs)| && Concat(bbs)[i] == x;
    var j :| 0 <= j < |Concat(bbs)| && Concat(bbs)[j] == y;
  }

  lemma {:induction false} KeptUnless(s: seq<Ins>, toRemove: set<nat>, x: Ins)
    requires x in s && x !in Keep(s, toRemove)
    ensures x.addr in toRemove
  {
    if s[0] != x { KeptUnless(s[1..], toRemove, x); }
  }

  lemma {:induction false} DeadAddrIsNop(bbs: seq<seq<Ins>>, a: nat)
    requires a in DeadAddrs(bbs)
    ensures exists y :: y in Concat(bbs) && y.addr == a && y.isNop
  {
    assert bbs == [bbs[0]] + bbs[1..];
    ConcatCons(bbs[0], bbs[1..]);
    if |bbs[0]| == 1 && bbs[0][0].isNop && bbs[0][0].addr == a {
      assert bbs[0][0] in Concat(bbs);
    } else {
      DeadAddrIsNop(bbs[1..], a);
    }
  }

  // ----- Removal as functions -----

  ghost function Live(bbs: seq<seq<Ins>>): seq<seq<Ins>> {
    if bbs == [] then [] else (if Dead(bbs[0]) then [] else [bbs[0]]) + Live(bbs[1..])
  }

  ghost function DeadAddrs(bbs: seq<seq<Ins>>): set<nat> {
    if bbs == [] then {}
    else (if |bbs[0]| == 1 && bbs[0][0].isNop then {bbs[0][0].addr} else {}) + DeadAddrs(bbs[1..])
  }

  ghost function Keep(s: seq<Ins>, toRemove: set<nat>): seq<Ins> {
    if s == [] then [] else (if s[0].addr in toRemove then [] else [s[0]]) + Keep(s[1..], toRemove)
  }

  lemma {:induction false} LiveWellFormed(bbs: seq<seq<Ins>>, brDstSet: set<nat>, size: nat)
    requires AllWellFormed(bbs, brDstSet, size)
    ensures AllWellFormed(Live(bbs), brDstSet, size) && forall n :: 0 <= n < |Live(bbs)| ==> !Dead(Live(bbs)[n])
  {
    if bbs != [] {
      assert forall n :: 0 <= n < |bbs[1..]| ==> bbs[1..][n] == bbs[n + 1];
      LiveWellFormed(bbs[1..], brDstSet, size);
    }
  }

  lemma {:induction false} ConcatCons(b: seq<Ins>, bbs: seq<seq<Ins>>)
    ensures Concat([b] + bbs) == b + Concat(bbs)
  {
    if bbs == [] {
      assert [b] + bbs == [] + [b];
      ConcatSnoc([], b);
    } else {
      var n := |bbs| - 1;
      ConcatCons(b, bbs[..n]);
      assert [b] + bbs == ([b] + bbs[..n]) + [bbs[n]];
      ConcatSnoc([b] + bbs[..n], bbs[n]);
    }
  }

  lemma {:induction false} KeepConcat(s: seq<Ins>, t: seq<Ins>, r: set<nat>)
    ensures Keep(s + t, r) == Keep(s, r) + Keep(t, r)
  {
    if s == [] {
      assert s + t == t;
    } else {
      assert (s + t)[1..] == s[1..] + t;
      KeepConcat(s[1..], t, r);
    }
  }

  lemma {:induction false} KeepAll(s: seq<Ins>, r: set<nat>)
    requires forall k :: 0 <= k < |s| ==> s[k].addr !in r
    ensures Keep(s, r) == s
  {
    if s != [] { KeepAll(s[1..], r); }
  }

  lemma {:induction false} KeepSame(s: seq<Ins>, r: set<nat>, q: set<nat>)
    requires forall k :: 0 <= k < |s| ==> (s[k].addr in r <==> s[k].addr in q)
    ensures Keep(s, r) == Keep(s, q)
  {
    if s != [] { KeepSame(s[1..], r, q); }
  }

  lemma {:induction false} DeadAddrsOccur(bbs: seq<seq<Ins>>, a: nat)
    requires a in DeadAddrs(bbs)
    ensures exists k :: 0 <= k < |Concat(bbs)| && Concat(bbs)[k].addr == a
  {
    assert bbs == [bbs[0]] + bbs[1..];
    ConcatCons(bbs[0], bbs[1..]);
    if |bbs[0]| == 1 && bbs[0][0].addr == a {
      assert Concat(bbs)[0].addr == a;
    } else {
      DeadAddrsOccur(bbs[1..], a);
      var k :| 0 <= k < |Concat(bbs[1..])| && Concat(bbs[1..])[k].addr == a;
      assert Concat(bbs)[|bbs[0]| + k].addr == a;
    }
  }

  /** With distinct addresses, removing dead blocks and removing their NOPs by address agree. */
  lemma {:induction false} LiveSpellsKept(bbs: seq<seq<Ins>>)
    requires Distinct(Concat(bbs))
    ensures Concat(Live(bbs)) == Keep(Concat(bbs), DeadAddrs(bbs))
  {
    if bbs != [] {
      var b, rest := bbs[0], bbs[1..];
      assert bbs == [b] + rest;
      ConcatCons(b, rest);
      RestDistinct(b, Concat(rest));
      LiveSpellsKept(rest);
      RestKept(b, rest);
      FirstKept(b, rest);
      if Dead(b) {
        assert Live(bbs) == Live(rest);
      } else {
        assert Live(bbs) == [b] + Live(rest);
        ConcatCons(b, Live(rest));
      }
      hide Concat, Keep, DeadAddrs, Distinct;
    }
  }

  lemma {:induction false} RestDistinct(b: seq<Ins>, rest: seq<Ins>)
    requires Distinct(b + rest)
    ensures Distinct(rest)
  {
    var all := b + rest;
    forall i, j | 0 <= i < j < |rest| ensures rest[i].addr != rest[j].addr { assert all[|b| + i].addr != all[|b| + j].addr; }
  }

  /** What the first block adds to the addresses to remove does not concern the rest. */
  lemma {:induction false} RestKept(b: seq<Ins>, rest: seq<seq<Ins>>)
    requires Distinct(b + Concat(rest))
    ensures Keep(b + Concat(rest), DeadAddrs([b] + rest)) ==
            Keep(b, DeadAddrs([b] + rest)) + Keep(Concat(rest), DeadAddrs(rest))
  {
    var all, r := b + Concat(rest), DeadAddrs([b] + rest);
    assert ([b] + rest)[1..] == rest;
    KeepConcat(b, Concat(rest), r);
    forall k | 0 <= k < |Concat(rest)| ensures Concat(rest)[k].addr in r <==> Concat(rest)[k].addr in DeadAddrs(rest) {
      assert Concat(rest)[k] == all[|b| + k];
      if |b| == 1 { assert all[0].addr != all[|b| + k].addr; }
    }
    KeepSame(Concat(rest), r, DeadAddrs(rest));
  }

  /** The first block is kept whole, or is empty or a NOP that goes. */
  lemma {:induction false} FirstKept(b: seq<Ins>, rest: seq<seq<Ins>>)
    requires Distinct(b + Concat(rest))
    ensures Keep(b, DeadAddrs([b] + rest)) == if Dead(b) then [] else b
  {
    assert ([b] + rest)[1..] == rest;
    ApartFromRest(b, rest);
    if Dead(b) {
      if |b| == 1 { assert b[1..] == []; }
    } else {
      KeepAll(b, DeadAddrs([b] + rest));
    }
  }

  /** The addresses of one block occur in no other block. */
  lemma {:induction false} ApartFromRest(b: seq<Ins>, rest: seq<seq<Ins>>)
    requires Distinct(b + Concat(rest))
    ensures forall k :: 0 <= k < |b| ==> b[k].addr !in DeadAddrs(rest)
  {
    var all := b + Concat(rest);
    forall k | 0 <= k < |b| ensures b[k].addr !in DeadAddrs(rest) {
      forall l | 0 <= l < |Concat(rest)| ensures Concat(rest)[l].addr != b[k].addr {
        assert all[k].addr != all[|b| + l].addr;
      }
      if b[k].addr in DeadAddrs(rest) { DeadAddrsOccur(rest, b[k].addr); }
    }
  }
}
