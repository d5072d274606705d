/** The blocks of make_basicblock.cpp meet what liveness analysis (registerAllocate.cpp) needs of them. */
module BlockEntry {
  import F = BlockForming
  import opened Liveness

  /** Where block `b` starts in the instruction list. */
  ghost function Offset(bbs: seq<seq<F.Ins>>, b: nat): nat
    requires b <= |bbs|
  {
    |F.Concat(bbs[..b])|
  }

  lemma {:induction false} OffsetNext(bbs: seq<seq<F.Ins>>, b: nat)
    requires b < |bbs|
    ensures Offset(bbs, b + 1) == Offset(bbs, b) + |bbs[b]|
  {
    assert bbs[..b + 1] == bbs[..b] + [bbs[b]];
    F.ConcatSnoc(bbs[..b], bbs[b]);
  }

  lemma {:induction false} OffsetLast(bbs: seq<seq<F.Ins>>)
    ensures Offset(bbs, |bbs|) == |F.Concat(bbs)|
  {
    assert bbs[..|bbs|] == bbs;
  }

  /** The block of position `s`. */
  lemma {:induction false} Locate(bbs: seq<seq<F.Ins>>, s: nat) returns (b: nat, k: nat)
    requires s < |F.Concat(bbs)|
    ensures b < |bbs| && k < |bbs[b]| && s == Offset(bbs, b) + k && F.Concat(bbs)[s] == bbs[b][k]
  {
    var n := |bbs| - 1;
    if s < |F.Concat(bbs[..n])| {
      b, k := Locate(bbs[..n], s);
      assert bbs[..n][..b] == bbs[..b];
    } else {
      b, k := n, s - |F.Concat(bbs[..n])|;
    }
  }

  /** The blocks list the instructions of `bbs` by position. */
  ghost predicate Listed(bbs: seq<seq<F.Ins>>, blocks: seq<Block>) {
    && |blocks| == |bbs|
    && forall b :: 0 <= b < |bbs| ==>
         |blocks[b].insList| == |bbs[b]| && forall k :: 0 <= k < |bbs[b]| ==> blocks[b].insList[k] == Offset(bbs, b) + k
  }

  /** Jumps go to branch targets, and what falls through goes to the next instruction. */
  ghost predicate FollowsList(ins: seq<F.Ins>, brDstSet: set<nat>, p: seq<Code>) {
    && |p| == |ins|
    && forall i :: 0 <= i < |p| ==>
         && (Jumps(p[i]) ==> p[i].dst.value < |p| && ins[p[i].dst.value].addr in brDstSet)
         && (Falls(p[i]) ==> p[i].fallThru.value == i + 1 < |p|)
  }

  /** Control enters the blocks that were formed only at their heads. */
  lemma {:induction false} FormedBlocksAreEnteredAtHead(bbs: seq<seq<F.Ins>>, brDstSet: set<nat>, size: nat, p: seq<Code>, blocks: seq<Block>)
    requires F.AllWellFormed(bbs, brDstSet, size) && forall n :: 0 <= n < |bbs| ==> !F.Dead(bbs[n])
    requires FollowsList(F.Concat(bbs), brDstSet, p) && Listed(bbs, blocks)
    ensures EnteredAtHead(p, blocks)
  {
    forall b, i, s | 0 <= b < |blocks| && i in blocks[b].insList && i < |p| && s in Succ(p[i])
      ensures s in blocks[b].insList || IsHead(blocks, s)
    {
      var j :| 0 <= j < |bbs[b]| && blocks[b].insList[j] == i;
      if Falls(p[i]) && s == p[i].fallThru.value {
        FallsIntoHead(bbs, blocks, b, j);
      } else {
        var c, k := Locate(bbs, s);
        assert F.WellFormed(bbs[c], brDstSet, size);
        assert k == 0;
        assert blocks[c].insList[0] == s;
      }
    }
  }

  lemma {:induction false} FallsIntoHead(bbs: seq<seq<F.Ins>>, blocks: seq<Block>, b: nat, j: nat)
    requires Listed(bbs, blocks) && b < |bbs| && j < |bbs[b]| && forall n :: 0 <= n < |bbs| ==> !F.Dead(bbs[n])
    requires Offset(bbs, b) + j + 1 < |F.Concat(bbs)|
    ensures Offset(bbs, b) + j + 1 in blocks[b].insList || IsHead(blocks, Offset(bbs, b) + j + 1)
  {
    if j + 1 < |bbs[b]| {
      assert blocks[b].insList[j + 1] == Offset(bbs, b) + (j + 1);
    } else {
      OffsetNext(bbs, b);
      OffsetLast(bbs);
      assert b + 1 < |bbs| ==> blocks[b + 1].insList[0] == Offset(bbs, b + 1) + 0;
    }
  }
}
