/** The rename table as a value: one function per table operation of registerRename.cpp and
    grfManager.cpp, and the invariant of all its runs. */
module RenameSpec {
  import opened Collections

  datatype RegState = Available | RenamedInvalid | RenamedValid | ArchReg

  /** A physical register with the link to the register its architectural name had before. */
  datatype RegElem = RegElem(state: RegState, prev: Option<nat>)

  /** Sizes of the register files; physical registers are numbered from 1, as PR2APRindx needs. */
  datatype Config = Config(aLo: nat, aSize: nat, pSize: nat, rSize: nat, segCnt: nat, blkCnt: nat) {
    ghost predicate Valid() {
      && 0 < segCnt <= blkCnt && blkCnt % segCnt == 0
      && aSize % segCnt == 0 && pSize % segCnt == 0
      && ASeg() < PSeg()
      && rSize / segCnt == PSeg() - ASeg()
    }

    function ASeg(): nat requires segCnt > 0 { aSize / segCnt }

    function PSeg(): nat requires segCnt > 0 { pSize / segCnt }

    predicate IsPR(p: nat) { 1 <= p <= pSize }

    predicate IsAR(a: nat) { aLo <= a < aLo + aSize }

    /** PR2APRindx: the segment a physical register belongs to. */
    function Home(p: nat): (i: nat)
      requires Valid() && IsPR(p)
      ensures i < segCnt
    {
      HomeInRange(p);
      (p - 1) / PSeg()
    }

    lemma {:induction false} HomeInRange(p: nat)
      requires Valid() && IsPR(p)
      ensures 0 <= (p - 1) / PSeg() < segCnt
    {
      var s := PSeg();
      assert pSize == s * segCnt;
      DivBelow(p - 1, s, segCnt);
    }

    /** How many consecutive block windows a segment serves. */
    function Share(): nat requires segCnt > 0 { blkCnt / segCnt }

    /** The segment that serves a block window. */
    function SegmentOf(blk: nat): (i: nat)
      requires Valid() && blk < blkCnt
      ensures i < segCnt
    {
      assert blkCnt == blkCnt / segCnt * segCnt;
      DivBelow(blk, Share(), segCnt);
      blk / Share()
    }
  }

  lemma {:induction false} DivBelow(x: nat, s: nat, n: nat)
    requires x < s * n
    ensures s > 0 && 0 <= x / s < n
  {
    assert s > 0;
    assert x == x / s * s + x % s;
    assert (n - x / s) * s > 0;
  }

  lemma {:induction false} QuotientIs(x: nat, s: nat, i: nat)
    requires i * s <= x < (i + 1) * s
    ensures s > 0 && x / s == i
  {
    assert s > 0;
    assert x == x / s * s + x % s;
    var q := x / s;
    if q < i { TimesMonotone(q + 1, i, s); }
    if q > i { TimesMonotone(i + 1, q, s); }
  }

  lemma {:induction false} TimesMonotone(a: nat, b: nat, s: nat)
    requires a <= b
    ensures a * s <= b * s
  {
    assert b * s == a * s + (b - a) * s;
  }

  /** Each segment serves as many consecutive windows, and holds as many consecutive registers. */
  lemma {:induction false} SegmentServes(c: Config, blk: nat, i: nat)
    requires c.Valid() && blk < c.blkCnt
    requires var n := c.blkCnt / c.segCnt; i * n <= blk < (i + 1) * n
    ensures c.SegmentOf(blk) == i
  {
    QuotientIs(blk, c.Share(), i);
  }

  lemma {:induction false} SegmentHolds(c: Config, p: nat, i: nat)
    requires c.Valid() && c.IsPR(p)
    requires var n := c.pSize / c.segCnt; i * n < p <= (i + 1) * n
    ensures c.Home(p) == i
  {
    QuotientIs(p - 1, c.PSeg(), i);
  }

  /** One in-flight write: architectural register and its new physical register. */
  datatype Write = Write(ar: nat, pr: nat)

  datatype Table = Table(frat: map<nat, nat>, crat: map<nat, nat>, rf: map<nat, RegElem>, free: seq<seq<nat>>)

  /** The map after some writes, in program order, over a committed map. */
  ghost function Apply(crat: map<nat, nat>, w: seq<Write>): (m: map<nat, nat>)
    ensures forall a :: a in crat ==> a in m
  {
    if w == [] then crat else Apply(crat, w[..|w| - 1])[w[|w| - 1].ar := w[|w| - 1].pr]
  }

  ghost predicate InFree(t: Table, p: nat) {
    exists i :: 0 <= i < |t.free| && p in t.free[i]
  }

  ghost predicate InFlight(w: seq<Write>, p: nat) {
    exists k :: 0 <= k < |w| && w[k].pr == p
  }

  ghost predicate Committed(t: Table, p: nat) {
    exists a :: a in t.crat && t.crat[a] == p
  }

  /** The committed map is one-to-one and names architectural registers only. */
  ghost predicate CommittedInv(c: Config, t: Table) {
    && (forall a :: a in t.crat <==> c.IsAR(a))
    && (forall a :: a in t.crat ==> t.crat[a] in t.rf && t.rf[t.crat[a]].state == ArchReg)
    && (forall a, b :: a in t.crat && b in t.crat && t.crat[a] == t.crat[b] ==> a == b)
  }

  /** Free registers sit once in their home segment. */
  ghost predicate FreeInv(c: Config, t: Table)
    requires c.Valid()
  {
    && |t.free| == c.segCnt
    && (forall i, p :: 0 <= i < |t.free| && p in t.free[i] ==>
          c.IsPR(p) && c.Home(p) == i && p in t.rf && t.rf[p] == RegElem(Available, None))
    && (forall i :: 0 <= i < |t.free| ==> NoDup(t.free[i]))
  }

  /** The `_prev_pr` link of write `k` is the register its name had before it. */
  ghost predicate Linked(t: Table, w: seq<Write>, k: nat) {
    && k < |w| && w[k].ar in t.crat && w[k].pr in t.rf
    && t.rf[w[k].pr].prev == Some(Apply(t.crat, w[..k])[w[k].ar])
  }

  /** In-flight registers are distinct and linked to the register their name had before them. */
  ghost predicate FlightInv(c: Config, t: Table, w: seq<Write>) {
    && (forall k :: 0 <= k < |w| ==>
          && w[k].ar in t.crat && w[k].pr in t.rf
          && (t.rf[w[k].pr].state == RenamedInvalid || t.rf[w[k].pr].state == RenamedValid))
    && (forall k {:trigger Linked(t, w, k)} :: 0 <= k < |w| ==> Linked(t, w, k))
    && (forall j, k :: 0 <= j < k < |w| ==> w[j].pr != w[k].pr)
  }

  /** A register is committed, free or in flight. */
  ghost predicate Placed(t: Table, w: seq<Write>, p: nat) {
    Committed(t, p) || InFree(t, p) || InFlight(w, p)
  }

  /** The invariant of the rename table with `w` in flight. A register's state tells which of
      free, committed and in-flight it is, so it is exactly one of them. */
  ghost predicate Inv(c: Config, t: Table, w: seq<Write>)
  {
    && c.Valid()
    && (forall p :: p in t.rf <==> c.IsPR(p))
    && CommittedInv(c, t) && FreeInv(c, t) && FlightInv(c, t, w)
    && (forall p {:trigger Placed(t, w, p)} :: p in t.rf ==> Placed(t, w, p))
    && t.frat == Apply(t.crat, w)
  }

  // ----- Facts about Apply -----

  lemma {:induction false} ApplyConcat(crat: map<nat, nat>, v: seq<Write>, w: seq<Write>)
    ensures Apply(crat, v + w) == Apply(Apply(crat, v), w)
    decreases |w|
  {
    if w == [] {
      assert v + w == v;
    } else {
      ApplyConcat(crat, v, w[..|w| - 1]);
      assert (v + w)[..|v + w| - 1] == v + w[..|w| - 1];
    }
  }

  /** A mapped register is committed or in flight. */
  lemma {:induction false} ApplyRange(crat: map<nat, nat>, w: seq<Write>, a: nat)
    requires a in crat
    ensures Apply(crat, w)[a] == crat[a] || exists k :: 0 <= k < |w| && w[k] == Write(a, Apply(crat, w)[a])
    decreases |w|
  {
    if w != [] {
      var n := |w| - 1;
      ApplyRange(crat, w[..n], a);
      if w[n].ar == a {
        assert w[n] == Write(a, Apply(crat, w)[a]);
      } else if Apply(crat, w[..n])[a] != crat[a] {
        var k :| 0 <= k < n && w[..n][k] == Write(a, Apply(crat, w[..n])[a]);
        assert w[k] == Write(a, Apply(crat, w)[a]);
      }
    }
  }

  lemma {:induction false} ApplyKeys(crat: map<nat, nat>, w: seq<Write>)
    requires forall k :: 0 <= k < |w| ==> w[k].ar in crat
    ensures Apply(crat, w).Keys == crat.Keys
    decreases |w|
  {
    if w != [] {
      var n := |w| - 1;
      forall k | 0 <= k < n ensures w[..n][k].ar in crat { assert w[..n][k] == w[k]; }
      ApplyKeys(crat, w[..n]);
    }
  }

  // ----- Taking a free register -----

  ghost function TotalFree(free: seq<seq<nat>>): nat {
    if free == [] then 0 else TotalFree(free[..|free| - 1]) + |free[|free| - 1]|
  }

  lemma {:induction false} SomeSegmentNonEmpty(free: seq<seq<nat>>)
    requires TotalFree(free) > 0
    ensures exists i :: 0 <= i < |free| && |free[i]| > 0
  {
    var n := |free| - 1;
    if |free[n]| == 0 {
      SomeSegmentNonEmpty(free[..n]);
      var i :| 0 <= i < n && |free[..n][i]| > 0;
      assert |free[i]| > 0;
    }
  }

  lemma {:induction false} TotalAfterUpdate(free: seq<seq<nat>>, i: nat, s: seq<nat>)
    requires i < |free|
    ensures TotalFree(free[i := s]) == TotalFree(free) - |free[i]| + |s|
  {
    var n := |free| - 1;
    if i == n {
      assert free[i := s][..n] == free[..n];
    } else {
      assert free[i := s][..n] == free[..n][i := s];
      TotalAfterUpdate(free[..n], i, s);
    }
  }

  function Around(start: nat, d: nat, n: nat): nat
    requires start < n && d < n
  {
    if start + d < n then start + d else start + d - n
  }

  ghost predicate NonEmptyFrom(free: seq<seq<nat>>, start: nat, d: nat) {
    start < |free| && exists k: nat :: d <= k < |free| && |free[Around(start, k, |free|)]| > 0
  }

  /** The first non-empty segment at distance `d` or more from `start`, going round. */
  ghost function FindSegment(free: seq<seq<nat>>, start: nat, d: nat): (i: nat)
    requires NonEmptyFrom(free, start, d)
    ensures i < |free| && |free[i]| > 0
    decreases |free| - d
  {
    if |free[Around(start, d, |free|)]| > 0 then Around(start, d, |free|) else FindSegment(free, start, d + 1)
  }

  lemma {:induction false} AnyFreeIsFound(free: seq<seq<nat>>, start: nat)
    requires TotalFree(free) > 0 && start < |free|
    ensures NonEmptyFrom(free, start, 0)
  {
    SomeSegmentNonEmpty(free);
    var i :| 0 <= i < |free| && |free[i]| > 0;
    var k := if i >= start then i - start else i - start + |free|;
    assert Around(start, k, |free|) == i;
  }

  ghost predicate EmptyAt(free: seq<seq<nat>>, start: nat, d: nat)
    requires free != []
  {
    free[(start + d) % |free|] == []
  }

  /** Segment `d` after `start`, going round, is the first that is not empty. */
  ghost predicate FirstAfter(free: seq<seq<nat>>, start: nat, d: nat) {
    d < |free| && !EmptyAt(free, start, d) && forall e: nat :: e < d ==> EmptyAt(free, start, e)
  }

  lemma {:induction false} FoundIsFirst(free: seq<seq<nat>>, start: nat, from: nat) returns (d: nat)
    requires NonEmptyFrom(free, start, from) && free != [] && forall e: nat :: e < from ==> EmptyAt(free, start, e)
    ensures FirstAfter(free, start, d) && FindSegment(free, start, from) == (start + d) % |free|
    decreases |free| - from
  {
    var k: nat :| from <= k < |free| && |free[Around(start, k, |free|)]| > 0;
    AroundIs(start, from, |free|);
    hide Around;
    if |free[Around(start, from, |free|)]| > 0 {
      d := from;
    } else {
      assert EmptyAt(free, start, from);
      hide EmptyAt;
      d := FoundIsFirst(free, start, from + 1);
    }
  }

  lemma {:induction false} AroundIs(start: nat, d: nat, n: nat)
    requires start < n && d < n
    ensures Around(start, d, n) == (start + d) % n
  {
    if start + d >= n { QuotientIs(start + d, n, 1); } else { QuotientIs(start + d, n, 0); }
  }

  // ----- The operations -----

  /** What the operations of one instruction write need: room, and a window index in range. */
  ghost predicate CanTake(c: Config, t: Table, blk: nat) {
    c.Valid() && blk < c.blkCnt && |t.free| == c.segCnt && TotalFree(t.free) > 0
  }

  /** getAvailablePR: the last register of the segment found. */
  ghost function Taken(c: Config, t: Table, blk: nat): (r: (nat, nat))
    requires CanTake(c, t, blk)
    ensures r.0 < |t.free| && |t.free[r.0]| > 0 && r.1 == t.free[r.0][|t.free[r.0]| - 1]
  {
    AnyFreeIsFound(t.free, c.SegmentOf(blk));
    var i := FindSegment(t.free, c.SegmentOf(blk), 0);
    (i, t.free[i][|t.free[i]| - 1])
  }

  /** One write operand renamed. */
  ghost function RenameWrite(c: Config, t: Table, a: nat, blk: nat): (r: Table)
    requires CanTake(c, t, blk) && a in t.frat
  {
    var (i, p) := Taken(c, t, blk);
    Table(t.frat[a := p], t.crat,
          t.rf[p := RegElem(RenamedInvalid, Some(t.frat[a]))],
          t.free[i := t.free[i][..|t.free[i]| - 1]])
  }

  /** One write operand completed. */
  ghost function CompleteWrite(t: Table, p: nat): (r: Table)
    requires p in t.rf
  {
    t.(rf := t.rf[p := t.rf[p].(state := RenamedValid)])
  }

  /** One write operand committed: the register it replaces is freed. */
  ghost function CommitWrite(c: Config, t: Table, a: nat, p: nat): (r: Table)
    requires c.Valid() && p in t.rf && t.rf[p].prev.Some? && c.IsPR(t.rf[p].prev.value) && |t.free| == c.segCnt
  {
    var q := t.rf[p].prev.value;
    var h := c.Home(q);
    Table(t.frat, t.crat[a := p],
          t.rf[p := RegElem(ArchReg, t.rf[p].prev)][q := RegElem(Available, None)],
          t.free[h := t.free[h] + [q]])
  }

  /** The registers of segment `i` below `p` that are not committed, in ascending order. */
  ghost function Uncommitted(c: Config, t: Table, i: nat, p: nat): (r: seq<nat>)
    requires c.Valid() && p <= c.pSize + 1
  {
    if p <= 1 then []
    else Uncommitted(c, t, i, p - 1) + if c.Home(p - 1) == i && !Committed(t, p - 1) then [p - 1] else []
  }

  /** squashRenameReg: everything is rebuilt from the committed map. */
  ghost function Squash(c: Config, t: Table): (r: Table)
    requires c.Valid() && forall p :: p in t.rf <==> c.IsPR(p)
  {
    Table(t.crat, t.crat,
          map p | p in t.rf :: RegElem(if Committed(t, p) then ArchReg else Available, None),
          seq(c.segCnt, i requires 0 <= i < c.segCnt => Uncommitted(c, t, i, c.pSize + 1)))
  }

  // ----- The invariant is kept -----

  lemma {:induction false} FreeRegister(c: Config, t: Table, w: seq<Write>, i: nat, k: nat)
    requires Inv(c, t, w) && i < |t.free| && k < |t.free[i]|
    ensures var p := t.free[i][k]; c.IsPR(p) && t.rf[p].state == Available && !Committed(t, p) && !InFlight(w, p)
  {
    assert t.free[i][k] in t.free[i];
  }

  lemma {:induction false} RenameKeepsFree(c: Config, t: Table, w: seq<Write>, a: nat, blk: nat)
    requires Inv(c, t, w) && CanTake(c, t, blk) && a in t.frat
    ensures FreeInv(c, RenameWrite(c, t, a, blk))
  {
    var (i, p) := Taken(c, t, blk);
    var r := RenameWrite(c, t, a, blk);
    forall j, q | 0 <= j < |r.free| && q in r.free[j]
      ensures c.IsPR(q) && c.Home(q) == j && q in r.rf && r.rf[q] == RegElem(Available, None)
    {
      assert q in t.free[j];
    }
  }

  lemma {:induction false} RenameKeepsFlight(c: Config, t: Table, w: seq<Write>, a: nat, blk: nat)
    requires Inv(c, t, w) && CanTake(c, t, blk) && c.IsAR(a) && a in t.frat
    ensures FlightInv(c, RenameWrite(c, t, a, blk), w + [Write(a, Taken(c, t, blk).1)])
  {
    var (i, p) := Taken(c, t, blk);
    var r := RenameWrite(c, t, a, blk);
    var v := w + [Write(a, p)];
    FreeRegister(c, t, w, i, |t.free[i]| - 1);
    assert v[..|w|] == w;
    forall k | 0 <= k < |v| ensures Linked(r, v, k) {
      if k < |w| {
        assert v[..k] == w[..k] && v[k] == w[k];
        assert InFlight(w, w[k].pr) && Linked(t, w, k);
      }
    }
    forall k | 0 <= k < |w| ensures w[k].pr != p { assert InFlight(w, w[k].pr); }
  }

  lemma {:induction false} RenameKeepsCover(c: Config, t: Table, w: seq<Write>, a: nat, blk: nat, q: nat)
    requires Inv(c, t, w) && CanTake(c, t, blk) && a in t.frat
    requires q in RenameWrite(c, t, a, blk).rf
    ensures var r := RenameWrite(c, t, a, blk);
            Placed(r, w + [Write(a, Taken(c, t, blk).1)], q)
  {
    var (i, p) := Taken(c, t, blk);
    var r := RenameWrite(c, t, a, blk);
    var v := w + [Write(a, p)];
    FreeRegister(c, t, w, i, |t.free[i]| - 1);
    assert q == p || Placed(t, w, q);
    if q == p {
      assert v[|w|].pr == p;
    } else if Committed(t, q) {
      var b :| b in t.crat && t.crat[b] == q;
      assert r.crat[b] == q;
    } else if InFlight(w, q) {
      var k :| 0 <= k < |w| && w[k].pr == q;
      assert v[k].pr == q;
    } else {
      var j :| 0 <= j < |t.free| && q in t.free[j];
      assert q in r.free[j];
    }
  }

  lemma {:induction false} RenameKeepsCommitted(c: Config, t: Table, w: seq<Write>, a: nat, blk: nat)
    requires Inv(c, t, w) && CanTake(c, t, blk) && a in t.frat
    ensures c.IsPR(Taken(c, t, blk).1)
    ensures CommittedInv(c, RenameWrite(c, t, a, blk))
  {
    var (i, p) := Taken(c, t, blk);
    FreeRegister(c, t, w, i, |t.free[i]| - 1);
  }

  /** An in-order rename of a write keeps the invariant and uses up one free register. */
  lemma {:induction false} RenameKeepsInv(c: Config, t: Table, w: seq<Write>, a: nat, blk: nat)
    requires Inv(c, t, w) && CanTake(c, t, blk) && a in t.frat && c.IsAR(a)
    ensures Inv(c, RenameWrite(c, t, a, blk), w + [Write(a, Taken(c, t, blk).1)])
  {
    var p := Taken(c, t, blk).1;
    var r := RenameWrite(c, t, a, blk);
    var v := w + [Write(a, p)];
    RenameKeepsCommitted(c, t, w, a, blk);
    RenameKeepsFree(c, t, w, a, blk);
    RenameKeepsFlight(c, t, w, a, blk);
    forall q | q in r.rf ensures Placed(r, v, q) {
      RenameKeepsCover(c, t, w, a, blk, q);
    }
    assert r.frat == Apply(r.crat, v) by { assert v[..|w|] == w; }
    assert forall q :: q in r.rf <==> c.IsPR(q);
  }

  lemma {:induction false} RenameTakesOne(c: Config, t: Table, a: nat, blk: nat)
    requires CanTake(c, t, blk) && a in t.frat
    ensures TotalFree(RenameWrite(c, t, a, blk).free) == TotalFree(t.free) - 1
  {
    var (i, p) := Taken(c, t, blk);
    TotalAfterUpdate(t.free, i, t.free[i][..|t.free[i]| - 1]);
  }

  /** Completing an in-flight write keeps the invariant. */
  lemma {:induction false} CompleteKeepsInv(c: Config, t: Table, w: seq<Write>, p: nat)
    requires Inv(c, t, w) && InFlight(w, p)
    ensures p in t.rf && Inv(c, CompleteWrite(t, p), w)
  {
    var r := CompleteWrite(t, p);
    assert forall q :: Committed(t, q) <==> Committed(r, q);
    assert forall q :: InFree(t, q) <==> InFree(r, q);
    forall k | 0 <= k < |w| ensures Linked(r, w, k) { assert Linked(t, w, k); }
    forall q | q in r.rf ensures Placed(r, w, q) { assert Placed(t, w, q); }
  }

  // ----- Committing the oldest write -----

  /** The oldest write is linked to the committed register of its name. */
  lemma {:induction false} OldestLinksToCommitted(c: Config, t: Table, w: seq<Write>)
    requires Inv(c, t, w) && w != []
    ensures w[0].ar in t.crat && w[0].pr in t.rf
    ensures t.rf[w[0].pr].prev == Some(t.crat[w[0].ar]) && c.IsPR(t.crat[w[0].ar])
  {
    assert Linked(t, w, 0) && w[..0] == [];
  }

  /** The same in-flight writes over a committed map that already holds the oldest one. */
  lemma {:induction false} ApplyShift(crat: map<nat, nat>, w: seq<Write>, k: nat)
    requires 0 < k <= |w|
    ensures Apply(crat, w[..k]) == Apply(crat[w[0].ar := w[0].pr], w[1..][..k - 1])
  {
    assert w[..k] == w[..1] + w[1..][..k - 1];
    assert w[..1][..0] == [];
    ApplyConcat(crat, w[..1], w[1..][..k - 1]);
  }

  lemma {:induction false} CommitKeepsCommitted(c: Config, t: Table, w: seq<Write>)
    requires Inv(c, t, w) && w != []
    requires t.rf[w[0].pr].prev == Some(t.crat[w[0].ar]) && c.IsPR(t.crat[w[0].ar])
    ensures CommittedInv(c, CommitWrite(c, t, w[0].ar, w[0].pr))
  {
    assert InFlight(w, w[0].pr);
    assert Committed(t, t.crat[w[0].ar]);
  }

  lemma {:induction false} CommitKeepsFree(c: Config, t: Table, w: seq<Write>)
    requires Inv(c, t, w) && w != []
    requires t.rf[w[0].pr].prev == Some(t.crat[w[0].ar]) && c.IsPR(t.crat[w[0].ar])
    ensures FreeInv(c, CommitWrite(c, t, w[0].ar, w[0].pr))
  {
    var r := CommitWrite(c, t, w[0].ar, w[0].pr);
    var q := t.crat[w[0].ar];
    forall j, x | 0 <= j < |r.free| && x in r.free[j]
      ensures c.IsPR(x) && c.Home(x) == j && x in r.rf && r.rf[x] == RegElem(Available, None)
    {
      assert x in t.free[j] || (x == q && j == c.Home(q));
    }
    assert q !in t.free[c.Home(q)];
  }

  lemma {:induction false} CommitKeepsFlight(c: Config, t: Table, w: seq<Write>)
    requires Inv(c, t, w) && w != []
    requires t.rf[w[0].pr].prev == Some(t.crat[w[0].ar]) && c.IsPR(t.crat[w[0].ar])
    ensures FlightInv(c, CommitWrite(c, t, w[0].ar, w[0].pr), w[1..])
  {
    var r := CommitWrite(c, t, w[0].ar, w[0].pr);
    var v := w[1..];
    assert Committed(t, t.crat[w[0].ar]);
    forall k | 0 <= k < |v| ensures Linked(r, v, k) {
      assert v[k] == w[k + 1] && Linked(t, w, k + 1);
      assert w[k + 1].pr != w[0].pr && w[k + 1].pr != t.crat[w[0].ar];
      ApplyShift(t.crat, w, k + 1);
    }
  }

  lemma {:induction false} CommitKeepsCover(c: Config, t: Table, w: seq<Write>, x: nat)
    requires Inv(c, t, w) && w != []
    requires t.rf[w[0].pr].prev == Some(t.crat[w[0].ar]) && c.IsPR(t.crat[w[0].ar])
    requires x in t.rf
    ensures var r := CommitWrite(c, t, w[0].ar, w[0].pr);
            Placed(r, w[1..], x)
  {
    var r := CommitWrite(c, t, w[0].ar, w[0].pr);
    var q := t.crat[w[0].ar];
    assert Placed(t, w, x);
    if x == w[0].pr {
      assert r.crat[w[0].ar] == x;
    } else if x == q {
      assert x in r.free[c.Home(q)];
    } else if Committed(t, x) {
      var b :| b in t.crat && t.crat[b] == x;
      assert r.crat[b] == x;
    } else if InFlight(w, x) {
      var k :| 0 <= k < |w| && w[k].pr == x;
      assert w[1..][k - 1].pr == x;
    } else {
      var j :| 0 <= j < |t.free| && x in t.free[j];
      assert x in r.free[j];
    }
  }

  /** Committing the oldest write keeps the invariant and frees one register. */
  lemma {:induction false} CommitKeepsInv(c: Config, t: Table, w: seq<Write>)
    requires Inv(c, t, w) && w != []
    ensures w[0].ar in t.crat && w[0].pr in t.rf
    ensures t.rf[w[0].pr].prev == Some(t.crat[w[0].ar]) && c.IsPR(t.crat[w[0].ar])
    ensures Inv(c, CommitWrite(c, t, w[0].ar, w[0].pr), w[1..])
    ensures TotalFree(CommitWrite(c, t, w[0].ar, w[0].pr).free) == TotalFree(t.free) + 1
  {
    OldestLinksToCommitted(c, t, w);
    var r := CommitWrite(c, t, w[0].ar, w[0].pr);
    var h := c.Home(t.crat[w[0].ar]);
    TotalAfterUpdate(t.free, h, t.free[h] + [t.crat[w[0].ar]]);
    CommitKeepsCommitted(c, t, w);
    CommitKeepsFree(c, t, w);
    CommitKeepsFlight(c, t, w);
    ApplyShift(t.crat, w, |w|);
    assert w[..|w|] == w && w[1..][..|w| - 1] == w[1..];
    forall x | x in r.rf ensures Placed(r, w[1..], x) {
      CommitKeepsCover(c, t, w, x);
    }
  }

  // ----- Squash -----

  lemma {:induction false} UncommittedMembers(c: Config, t: Table, i: nat, p: nat)
    requires c.Valid() && 0 < p <= c.pSize + 1
    ensures forall x :: x in Uncommitted(c, t, i, p) <==>
              1 <= x < p && c.Home(x) == i && !Committed(t, x)
    ensures NoDup(Uncommitted(c, t, i, p))
    decreases p
  {
    if p > 1 { UncommittedMembers(c, t, i, p - 1); }
  }

  lemma {:induction false} SquashFree(c: Config, t: Table, i: nat)
    requires c.Valid() && (forall p :: p in t.rf <==> c.IsPR(p)) && i < c.segCnt
    ensures var f := Squash(c, t).free;
            NoDup(f[i]) && forall x :: x in f[i] <==> c.IsPR(x) && c.Home(x) == i && !Committed(t, x)
  {
    UncommittedMembers(c, t, i, c.pSize + 1);
  }

  lemma {:induction false} SquashKeepsFree(c: Config, t: Table)
    requires c.Valid() && (forall p :: p in t.rf <==> c.IsPR(p))
    ensures FreeInv(c, Squash(c, t))
  {
    var r := Squash(c, t);
    forall i | 0 <= i < |r.free|
      ensures NoDup(r.free[i])
      ensures forall p :: p in r.free[i] ==>
                c.IsPR(p) && c.Home(p) == i && p in r.rf && r.rf[p] == RegElem(Available, None)
    {
      SquashFree(c, t, i);
    }
  }

  /** After a squash nothing is in flight and the invariant holds, whatever was in flight before. */
  lemma {:induction false} SquashKeepsInv(c: Config, t: Table, w: seq<Write>)
    requires Inv(c, t, w)
    ensures Inv(c, Squash(c, t), [])
  {
    var r := Squash(c, t);
    SquashKeepsFree(c, t);
    forall a | a in t.crat ensures r.rf[t.crat[a]].state == ArchReg { assert Committed(t, t.crat[a]); }
    assert CommittedInv(c, r);
    forall q | q in r.rf ensures Placed(r, [], q) {
      if Committed(t, q) {
        var a :| a in t.crat && t.crat[a] == q;
        assert r.crat[a] == q;
      } else {
        SquashFree(c, t, c.Home(q));
        assert q in r.free[c.Home(q)];
      }
    }
  }
}
