/** The register rename table (registerRename.cpp). A bb_regElem is named by its register number, so the
    pointers of the RATs, of the free lists and of `_prev_pr` are register numbers here. The source's
    assertions are preconditions; GrfManager meets them on every run. */
module RegisterRename {
  import opened Collections
  import opened RenameSpec

  // ----- The initial table -----

  lemma {:induction false} MulAtLeast(a: int, n: int)
    requires n > 0
    ensures a >= 1 ==> a * n >= n
    ensures a <= -1 ==> a * n <= -n
  {
  }

  lemma {:induction false} QuotUnique(q: int, r: int, u: int, s: int, n: int)
    requires 0 <= r < n && 0 <= s < n && q * n + r == u * n + s
    ensures q == u && r == s
  {
    MulAtLeast(q - u, n);
    assert (q - u) * n == q * n - u * n;
  }

  lemma {:induction false} DivModUnique(q: nat, r: nat, n: nat)
    requires r < n
    ensures (q * n + r) / n == q && (q * n + r) % n == r
  {
    var x := q * n + r;
    assert x == x / n * n + x % n;
    QuotUnique(q, r, x / n, x % n, n);
  }

  /** Place `k` of segment `i` lies below `n` segments of size `s`. */
  lemma {:induction false} InSegments(i: nat, k: nat, s: nat, n: nat)
    requires i < n && k < s
    ensures i * s + k < i * s + s == (i + 1) * s <= n * s
  {
    assert (n - i - 1) * s >= 0;
    assert (n - i - 1) * s == n * s - (i + 1) * s;
  }

  lemma {:induction false} Segments(x: nat, n: nat)
    requires n > 0 && x % n == 0
    ensures x == n * (x / n)
  {
  }

  /** The physical register that architectural register `a` starts with. */
  function InitPR(c: Config, a: nat): nat
    requires c.segCnt > 0 && c.IsAR(a) && c.ASeg() > 0
  {
    1 + (a - c.aLo) / c.ASeg() * c.PSeg() + (a - c.aLo) % c.ASeg()
  }

  ghost function InitCRAT(c: Config): (m: map<nat, nat>)
    requires c.Valid()
    ensures forall a :: a in m <==> c.IsAR(a)
  {
    if c.ASeg() == 0 then
      assert c.aSize == 0;
      map[]
    else map a | c.aLo <= a < c.aLo + c.aSize :: InitPR(c, a)
  }

  predicate StartsCommitted(c: Config, p: nat)
    requires c.segCnt > 0 && c.PSeg() > 0 && c.IsPR(p)
  {
    (p - 1) % c.PSeg() < c.ASeg()
  }

  ghost function InitRF(c: Config): (m: map<nat, RegElem>)
    requires c.Valid()
  {
    map p | 1 <= p <= c.pSize :: RegElem(if StartsCommitted(c, p) then ArchReg else Available, None)
  }

  ghost function Numbers(base: nat, n: nat): seq<nat> {
    seq(n, k requires 0 <= k < n => base + k)
  }

  /** The rename registers of segment `i`. */
  ghost function InitFree(c: Config, i: nat): seq<nat>
    requires c.Valid()
  {
    Numbers(1 + i * c.PSeg() + c.ASeg(), c.PSeg() - c.ASeg())
  }

  ghost function InitTable(c: Config): Table
    requires c.Valid()
  {
    Table(InitCRAT(c), InitCRAT(c), InitRF(c), seq(c.segCnt, i requires 0 <= i < c.segCnt => InitFree(c, i)))
  }

  lemma {:induction false} PRofSegment(c: Config, i: nat, k: nat)
    requires c.Valid() && i < c.segCnt && k < c.PSeg()
    ensures var p := 1 + i * c.PSeg() + k;
            c.IsPR(p) && c.Home(p) == i && (p - 1) % c.PSeg() == k
  {
    Segments(c.pSize, c.segCnt);
    InSegments(i, k, c.PSeg(), c.segCnt);
    DivModUnique(i, k, c.PSeg());
  }

  /** The register at place `k` of segment `i`, for every register. */
  lemma {:induction false} PlaceOf(c: Config, p: nat)
    requires c.Valid() && c.IsPR(p)
    ensures var i, k := c.Home(p), (p - 1) % c.PSeg();
            k < c.PSeg() && p == 1 + i * c.PSeg() + k
  {
  }

  /** The initial register of an architectural register, with its place in its segment. */
  lemma {:induction false} InitPRPlace(c: Config, a: nat)
    requires c.Valid() && c.IsAR(a) && c.ASeg() > 0
    ensures var i, k := (a - c.aLo) / c.ASeg(), (a - c.aLo) % c.ASeg();
            && i < c.segCnt && k < c.ASeg() && a == c.aLo + i * c.ASeg() + k
            && InitPR(c, a) == 1 + i * c.PSeg() + k
            && c.IsPR(InitPR(c, a)) && c.Home(InitPR(c, a)) == i && (InitPR(c, a) - 1) % c.PSeg() == k
  {
    assert c.aSize == c.ASeg() * c.segCnt;
    DivBelow(a - c.aLo, c.ASeg(), c.segCnt);
    PRofSegment(c, (a - c.aLo) / c.ASeg(), (a - c.aLo) % c.ASeg());
  }

  lemma {:induction false} InitCommitted(c: Config)
    requires c.Valid()
    ensures CommittedInv(c, InitTable(c))
  {
    var t := InitTable(c);
    forall a | a in t.crat ensures t.crat[a] in t.rf && t.rf[t.crat[a]].state == ArchReg {
      InitPRPlace(c, a);
    }
    forall a, b | a in t.crat && b in t.crat && t.crat[a] == t.crat[b] ensures a == b {
      InitPRPlace(c, a);
      InitPRPlace(c, b);
    }
  }

  lemma {:induction false} InitFreeInv(c: Config)
    requires c.Valid()
    ensures FreeInv(c, InitTable(c))
  {
    var t := InitTable(c);
    forall i, p | 0 <= i < |t.free| && p in t.free[i]
      ensures c.IsPR(p) && c.Home(p) == i && p in t.rf && t.rf[p] == RegElem(Available, None)
    {
      var k :| 0 <= k < |t.free[i]| && t.free[i][k] == p;
      PRofSegment(c, i, c.ASeg() + k);
    }
  }

  lemma {:induction false} ArchPlace(c: Config, i: nat, k: nat)
    requires c.Valid() && i < c.segCnt && k < c.ASeg()
    ensures c.IsAR(c.aLo + i * c.ASeg() + k)
    ensures InitPR(c, c.aLo + i * c.ASeg() + k) == 1 + i * c.PSeg() + k
  {
    Segments(c.aSize, c.segCnt);
    InSegments(i, k, c.ASeg(), c.segCnt);
    DivModUnique(i, k, c.ASeg());
  }

  lemma {:induction false} InitPlaced(c: Config, p: nat)
    requires c.Valid() && c.IsPR(p)
    ensures Placed(InitTable(c), [], p)
  {
    var t := InitTable(c);
    var i, k := c.Home(p), (p - 1) % c.PSeg();
    PlaceOf(c, p);
    if k < c.ASeg() {
      ArchPlace(c, i, k);
      assert t.crat[c.aLo + i * c.ASeg() + k] == p;
    } else {
      assert t.free[i] == InitFree(c, i);
      assert t.free[i][k - c.ASeg()] == p;
    }
  }

  lemma {:induction false} InitInv(c: Config)
    requires c.Valid()
    ensures Inv(c, InitTable(c), [])
  {
    InitCommitted(c);
    InitFreeInv(c);
    forall p | p in InitTable(c).rf ensures Placed(InitTable(c), [], p) { InitPlaced(c, p); }
  }

  // ----- What the constructor's loops build -----

  ghost function Names(lo: nat, base: nat, n: nat): map<nat, nat> {
    if n == 0 then map[] else Names(lo, base, n - 1)[lo + n - 1 := base + n - 1]
  }

  lemma {:induction false} NamesAre(lo: nat, base: nat, n: nat, a: nat)
    ensures a in Names(lo, base, n) <==> lo <= a < lo + n
    ensures a in Names(lo, base, n) ==> Names(lo, base, n)[a] == base + (a - lo)
  {
    if n > 0 { NamesAre(lo, base, n - 1, a); }
  }

  ghost function Elems(base: nat, n: nat, state: RegState): map<nat, RegElem> {
    if n == 0 then map[] else Elems(base, n - 1, state)[base + n - 1 := RegElem(state, None)]
  }

  lemma {:induction false} ElemsAre(base: nat, n: nat, state: RegState, p: nat)
    ensures p in Elems(base, n, state) <==> base <= p < base + n
    ensures p in Elems(base, n, state) ==> Elems(base, n, state)[p] == RegElem(state, None)
  {
    if n > 0 { ElemsAre(base, n - 1, state, p); }
  }

  /** The map after `n` segments. */
  ghost function ArchNames(c: Config, n: nat): map<nat, nat>
    requires c.Valid()
  {
    if n == 0 then map[]
    else ArchNames(c, n - 1) + Names(c.aLo + (n - 1) * c.ASeg(), 1 + (n - 1) * c.PSeg(), c.ASeg())
  }

  ghost function ArchElems(c: Config, n: nat): map<nat, RegElem>
    requires c.Valid()
  {
    if n == 0 then map[] else ArchElems(c, n - 1) + Elems(1 + (n - 1) * c.PSeg(), c.ASeg(), ArchReg)
  }

  ghost function RenameElems(c: Config, n: nat): map<nat, RegElem>
    requires c.Valid()
  {
    if n == 0 then map[]
    else RenameElems(c, n - 1) + Elems(1 + (n - 1) * c.PSeg() + c.ASeg(), c.PSeg() - c.ASeg(), Available)
  }

  lemma {:induction false} ArchNamesAre(c: Config, n: nat, a: nat)
    requires c.Valid() && n <= c.segCnt
    ensures a in ArchNames(c, n) <==> c.aLo <= a < c.aLo + n * c.ASeg()
    ensures a in ArchNames(c, n) ==> c.IsAR(a) && c.ASeg() > 0 && ArchNames(c, n)[a] == InitPR(c, a)
  {
    if n > 0 {
      ArchNamesAre(c, n - 1, a);
      var i := n - 1;
      var lo := c.aLo + i * c.ASeg();
      NamesAre(lo, 1 + i * c.PSeg(), c.ASeg(), a);
      assert n * c.ASeg() == i * c.ASeg() + c.ASeg();
      if lo <= a < lo + c.ASeg() { ArchPlace(c, i, a - lo); }
    }
  }

  lemma {:induction false} ArchNamesAll(c: Config)
    requires c.Valid()
    ensures ArchNames(c, c.segCnt) == InitCRAT(c)
  {
    Segments(c.aSize, c.segCnt);
    forall a: nat | true
      ensures a in ArchNames(c, c.segCnt) <==> a in InitCRAT(c)
      ensures a in ArchNames(c, c.segCnt) ==> ArchNames(c, c.segCnt)[a] == InitCRAT(c)[a]
    {
      ArchNamesAre(c, c.segCnt, a);
    }
  }

  lemma {:induction false} ArchElemsAre(c: Config, n: nat, p: nat)
    requires c.Valid() && n <= c.segCnt
    ensures p in ArchElems(c, n) <==> c.IsPR(p) && c.Home(p) < n && StartsCommitted(c, p)
    ensures p in ArchElems(c, n) ==> ArchElems(c, n)[p] == RegElem(ArchReg, None)
  {
    if n > 0 {
      ArchElemsAre(c, n - 1, p);
      var base := 1 + (n - 1) * c.PSeg();
      ElemsAre(base, c.ASeg(), ArchReg, p);
      if base <= p < base + c.ASeg() { PRofSegment(c, n - 1, p - base); }
      if c.IsPR(p) { PlaceOf(c, p); }
    }
  }

  lemma {:induction false} RenameElemsAre(c: Config, n: nat, p: nat)
    requires c.Valid() && n <= c.segCnt
    ensures p in RenameElems(c, n) <==> c.IsPR(p) && c.Home(p) < n && !StartsCommitted(c, p)
    ensures p in RenameElems(c, n) ==> RenameElems(c, n)[p] == RegElem(Available, None)
  {
    if n > 0 {
      RenameElemsAre(c, n - 1, p);
      var base := 1 + (n - 1) * c.PSeg();
      ElemsAre(base + c.ASeg(), c.PSeg() - c.ASeg(), Available, p);
      if base + c.ASeg() <= p < base + c.PSeg() { PRofSegment(c, n - 1, p - base); }
      if c.IsPR(p) { PlaceOf(c, p); }
    }
  }

  lemma {:induction false} ElemsAll(c: Config)
    requires c.Valid()
    ensures ArchElems(c, c.segCnt) + RenameElems(c, c.segCnt) == InitRF(c)
  {
    var m := ArchElems(c, c.segCnt) + RenameElems(c, c.segCnt);
    forall p: nat | true
      ensures p in m <==> p in InitRF(c)
      ensures p in m ==> m[p] == InitRF(c)[p]
    {
      ArchElemsAre(c, c.segCnt, p);
      RenameElemsAre(c, c.segCnt, p);
    }
  }

  /** `p` is at home in the first non-empty segment, going round from the one that serves window `blk`. */
  ghost predicate Nearest(c: Config, free: seq<seq<nat>>, blk: nat, p: nat)
    requires c.Valid()
  {
    var n := c.blkCnt / c.segCnt;
    c.IsPR(p) && forall i: nat :: i < c.segCnt && i * n <= blk < (i + 1) * n ==> NearestFrom(c, free, i, p)
  }

  ghost predicate NearestFrom(c: Config, free: seq<seq<nat>>, i: nat, p: nat)
    requires c.Valid() && c.IsPR(p)
  {
    exists d :: FirstAfter(free, i, d) && c.Home(p) == (i + d) % |free|
  }

  lemma {:induction false} FoundNearest(c: Config, free: seq<seq<nat>>, blk: nat, p: nat)
    requires c.Valid() && c.IsPR(p) && blk < c.blkCnt && |free| == c.segCnt && NonEmptyFrom(free, c.SegmentOf(blk), 0)
    requires c.Home(p) == FindSegment(free, c.SegmentOf(blk), 0)
    ensures Nearest(c, free, blk, p)
  {
    var d := FoundIsFirst(free, c.SegmentOf(blk), 0);
    var n := c.blkCnt / c.segCnt;
    forall i: nat | i < c.segCnt && i * n <= blk < (i + 1) * n ensures NearestFrom(c, free, i, p) {
      SegmentServes(c, blk, i);
    }
  }

  lemma {:induction false} AroundStart(start: nat, free: seq<seq<nat>>)
    requires NonEmptyFrom(free, start, 0)
    ensures start < |free| && Around(start, 0, |free|) == start
  {
  }

  lemma {:induction false} NextAround(start: nat, d: nat, free: seq<seq<nat>>)
    requires start < |free| && d < |free| && NonEmptyFrom(free, start, d) && |free[Around(start, d, |free|)]| == 0
    ensures NonEmptyFrom(free, start, d + 1) && d + 1 < |free|
    ensures FindSegment(free, start, d) == FindSegment(free, start, d + 1)
    ensures (Around(start, d, |free|) + 1) % |free| == Around(start, d + 1, |free|)
  {
    var n := |free|;
    var k: nat :| d <= k < n && |free[Around(start, k, n)]| > 0;
    var x := Around(start, d, n) + 1;
    if x < n { DivModUnique(0, x, n); } else { DivModUnique(1, 0, n); }
  }

  /** The committed names of `f` are restored, and `rf` has the registers not met. */
  ghost predicate Restored(t: Table, f: map<nat, nat>, r: map<nat, RegElem>, rf: set<nat>) {
    && f.Keys <= t.crat.Keys && (forall a :: a in f ==> f[a] == t.crat[a])
    && rf <= t.rf.Keys && r.Keys == t.rf.Keys && |rf| + |f| == |t.rf|
    && (forall p :: p in t.rf ==> (p !in rf <==> p in f.Values))
    && (forall p :: p in r ==> r[p] == if p in rf then t.rf[p] else RegElem(ArchReg, None))
  }

  lemma {:induction false} RestoredNone(t: Table)
    ensures Restored(t, map[], t.rf, t.rf.Keys)
  {
    assert |t.rf.Keys| == |t.rf|;
  }

  lemma {:induction false} RestoreNext(t: Table, f: map<nat, nat>, r: map<nat, RegElem>, rf: set<nat>, a: nat)
    requires Restored(t, f, r, rf) && a in t.crat && a !in f && t.crat[a] in t.rf
    requires forall x, y :: x in t.crat && y in t.crat && t.crat[x] == t.crat[y] ==> x == y
    ensures var p := t.crat[a]; Restored(t, f[a := p], r[p := RegElem(ArchReg, None)], rf - {p})
  {
    var p := t.crat[a];
    var g := f[a := p];
    assert p !in f.Values;
    assert |g| == |f| + 1;
    forall q | q in f.Values ensures q in g.Values {
      var x :| x in f && f[x] == q;
      assert g[x] == q;
    }
    assert g[a] == p;
  }

  lemma {:induction false} RestoredAll(t: Table, f: map<nat, nat>, r: map<nat, RegElem>, rf: set<nat>)
    requires Restored(t, f, r, rf) && f.Keys == t.crat.Keys
    ensures f == t.crat && |f| == |t.crat| && |r| == |t.rf|
    ensures forall p :: p in rf <==> p in t.rf && !Committed(t, p)
  {
    assert |r.Keys| == |r| && |t.rf.Keys| == |t.rf|;
    assert f == t.crat;
    assert forall p :: p in t.crat.Values <==> Committed(t, p);
  }

  // ----- The class -----

  class RegisterRename {
    const cfg: Config
    var fRAT: map<nat, nat>
    var cRAT: map<nat, nat>
    var RF: map<nat, RegElem>
    var availablePRset: seq<seq<nat>>

    ghost function Abs(): Table
      reads this
    {
      Table(fRAT, cRAT, RF, availablePRset)
    }

    constructor (cfg: Config)
      requires cfg.Valid()
      ensures this.cfg == cfg && Abs() == InitTable(cfg) && Inv(cfg, Abs(), [])
    {
      var f, r := ArchRegisters(cfg);
      var sets;
      sets, r := RenameRegisters(cfg, r);
      ArchNamesAll(cfg);
      ElemsAll(cfg);
      InitInv(cfg);
      assert sets == InitTable(cfg).free;
      this.cfg := cfg;
      fRAT, cRAT, RF, availablePRset := f, f, r, sets;
    }

    static method ArchRegisters(c: Config) returns (f: map<nat, nat>, r: map<nat, RegElem>)
      requires c.Valid()
      ensures f == ArchNames(c, c.segCnt) && r == ArchElems(c, c.segCnt)
    {
      f, r := map[], map[];
      var i := 0;
      while i < c.segCnt
        invariant 0 <= i <= c.segCnt
        invariant f == ArchNames(c, i) && r == ArchElems(c, i)
      {
        f, r := ArchSegment(c.aLo + i * c.ASeg(), 1 + i * c.PSeg(), c.ASeg(), f, r);
        i := i + 1;
      }
    }

    static method RenameRegisters(c: Config, r0: map<nat, RegElem>) returns (sets: seq<seq<nat>>, r: map<nat, RegElem>)
      requires c.Valid()
      ensures |sets| == c.segCnt && forall j :: 0 <= j < c.segCnt ==> sets[j] == InitFree(c, j)
      ensures r == r0 + RenameElems(c, c.segCnt)
    {
      sets, r := [], r0;
      var i := 0;
      while i < c.segCnt
        invariant 0 <= i <= c.segCnt
        invariant |sets| == i && forall j :: 0 <= j < i ==> sets[j] == InitFree(c, j)
        invariant r == r0 + RenameElems(c, i)
      {
        var s;
        s, r := NextRenameSegment(c, i, r0, r);
        sets := sets + [s];
        i := i + 1;
      }
    }

    static method NextRenameSegment(c: Config, i: nat, ghost r0: map<nat, RegElem>, r1: map<nat, RegElem>)
      returns (s: seq<nat>, r: map<nat, RegElem>)
      requires c.Valid() && r1 == r0 + RenameElems(c, i)
      ensures s == InitFree(c, i) && r == r0 + RenameElems(c, i + 1)
    {
      s, r := RenameSegment(1 + i * c.PSeg() + c.ASeg(), c.PSeg() - c.ASeg(), r1);
    }

    /** `n` architectural registers from `lo` get the physical registers from `base`. */
    static method ArchSegment(lo: nat, base: nat, n: nat, f0: map<nat, nat>, r0: map<nat, RegElem>)
      returns (f: map<nat, nat>, r: map<nat, RegElem>)
      ensures f == f0 + Names(lo, base, n) && r == r0 + Elems(base, n, ArchReg)
    {
      f, r := f0, r0;
      var k := 0;
      while k < n
        invariant 0 <= k <= n
        invariant f == f0 + Names(lo, base, k) && r == r0 + Elems(base, k, ArchReg)
      {
        f := NextName(lo, base, k, f0, f);
        r := r[base + k := RegElem(ArchReg, None)];
        k := k + 1;
      }
    }

    static method NextName(lo: nat, base: nat, k: nat, ghost f0: map<nat, nat>, f1: map<nat, nat>) returns (f: map<nat, nat>)
      requires f1 == f0 + Names(lo, base, k)
      ensures f == f0 + Names(lo, base, k + 1)
    {
      f := f1[lo + k := base + k];
    }

    /** `n` rename registers from `base` are listed as available. */
    static method RenameSegment(base: nat, n: nat, r0: map<nat, RegElem>) returns (s: seq<nat>, r: map<nat, RegElem>)
      ensures s == Numbers(base, n) && r == r0 + Elems(base, n, Available)
    {
      s, r := [], r0;
      var k := 0;
      while k < n
        invariant 0 <= k <= n
        invariant s == Numbers(base, k) && r == r0 + Elems(base, k, Available)
      {
        s := s + [base + k];
        r := r[base + k := RegElem(Available, None)];
        k := k + 1;
      }
    }

    /** The register that the fetch map gives an architectural register. */
    method RenameReg(a: nat) returns (p: nat)
      requires a in fRAT && cfg.IsPR(fRAT[a])
      ensures p == fRAT[a]
    {
      p := fRAT[a];
    }

    method UpdateFRAT(a: nat, p: nat)
      requires p in RF && RF[p].state == Available
      modifies this`fRAT
      ensures fRAT == old(fRAT)[a := p]
    {
      fRAT := fRAT[a := p];
    }

    method UpdateCRAT(a: nat, p: nat)
      requires a in cRAT && cRAT[a] in RF && RF[cRAT[a]].state == Available
      requires p in RF && RF[p].state == ArchReg
      modifies this`cRAT
      ensures cRAT == old(cRAT)[a := p]
    {
      cRAT := cRAT[a := p];
    }

    /** Takes the last register of the segment that serves the window, or of the next one that has any. */
    method GetAvailablePR(blk: nat) returns (p: nat)
      requires CanTake(cfg, Abs(), blk)
      requires forall i :: 0 <= i < |availablePRset| && |availablePRset[i]| > 0 ==>
                 var q := availablePRset[i][|availablePRset[i]| - 1];
                 q in RF && RF[q].state == Available && cfg.IsPR(q) && cfg.Home(q) == i
      modifies this`availablePRset
      ensures Nearest(cfg, old(availablePRset), blk, p)
      ensures var (i, q) := Taken(cfg, old(Abs()), blk);
              p == q && availablePRset == old(availablePRset)[i := old(availablePRset)[i][..|old(availablePRset)[i]| - 1]]
    {
      AnyFreeIsFound(availablePRset, cfg.SegmentOf(blk));
      var i := SearchFrom(cfg.SegmentOf(blk));
      p := availablePRset[i][|availablePRset[i]| - 1];
      FoundNearest(cfg, availablePRset, blk, p);
      availablePRset := availablePRset[i := availablePRset[i][..|availablePRset[i]| - 1]];
    }

    /** The segments in round-robin order, up to one that has a free register. */
    method SearchFrom(start: nat) returns (i: nat)
      requires |availablePRset| == cfg.segCnt && NonEmptyFrom(availablePRset, start, 0)
      ensures i == FindSegment(availablePRset, start, 0)
    {
      hide NonEmptyFrom;
      AroundStart(start, availablePRset);
      hide Around;
      i := start;
      ghost var d := 0;
      while |availablePRset[i]| == 0
        invariant 0 <= d < |availablePRset| && i == Around(start, d, |availablePRset|)
        invariant NonEmptyFrom(availablePRset, start, d)
        invariant FindSegment(availablePRset, start, 0) == FindSegment(availablePRset, start, d)
        decreases |availablePRset| - d
      {
        NextAround(start, d, availablePRset);
        i := (i + 1) % cfg.segCnt;
        d := d + 1;
      }
    }

    method SetAsAvailablePR(p: nat)
      requires cfg.Valid() && p in RF && cfg.IsPR(p) && |availablePRset| == cfg.segCnt
      requires |availablePRset[cfg.Home(p)]| < cfg.rSize
      modifies this`availablePRset, this`RF
      ensures availablePRset == old(availablePRset)[cfg.Home(p) := old(availablePRset)[cfg.Home(p)] + [p]]
      ensures RF == old(RF)[p := old(RF)[p].(prev := None)]
    {
      var i := cfg.Home(p);
      availablePRset := availablePRset[i := availablePRset[i] + [p]];
      RF := RF[p := RF[p].(prev := None)];
    }

    /** Free registers of all segments together. */
    method GetNumAvailablePR() returns (n: nat)
      ensures n == TotalFree(availablePRset)
    {
      n := 0;
      var i := 0;
      while i < |availablePRset|
        invariant 0 <= i <= |availablePRset|
        invariant n == TotalFree(availablePRset[..i])
      {
        assert availablePRset[..i + 1][..i] == availablePRset[..i];
        n := n + |availablePRset[i]|;
        i := i + 1;
      }
      assert availablePRset[..i] == availablePRset;
    }

    method GetPrevPR(p: nat) returns (q: nat)
      requires p in RF && RF[p].prev.Some?
      ensures q == RF[p].prev.value
    {
      q := RF[p].prev.value;
    }

    method UpdatePR(p: nat, prev: nat, state: RegState)
      requires p in RF && prev in RF && RF[p].state == Available && state == RenamedInvalid
      modifies this`RF
      ensures RF == old(RF)[p := RegElem(state, Some(prev))]
    {
      RF := RF[p := RegElem(state, Some(prev))];
    }

    method UpdatePRstate(p: nat, state: RegState)
      requires p in RF
      requires (RF[p].state, state) in {(Available, RenamedInvalid), (RenamedInvalid, RenamedValid),
                                        (RenamedValid, ArchReg), (ArchReg, Available)}
      modifies this`RF
      ensures RF == old(RF)[p := old(RF)[p].(state := state)]
    {
      RF := RF[p := RF[p].(state := state)];
    }

    method IsPRvalid(p: nat) returns (b: bool)
      requires cfg.IsPR(p) && p in RF && RF[p].state != Available
      ensures b <==> RF[p].state in {ArchReg, RenamedValid}
    {
      b := RF[p].state == ArchReg || RF[p].state == RenamedValid;
    }

    /** Rebuilds maps, states and free lists from the committed map. */
    method SquashRenameReg()
      requires cfg.Valid() && (forall p :: p in RF <==> cfg.IsPR(p)) && |availablePRset| == cfg.segCnt
      requires CommittedInv(cfg, Abs())
      modifies this`fRAT, this`RF, this`availablePRset
      ensures Abs() == Squash(cfg, old(Abs()))
    {
      ghost var t := Abs();
      var rf := RestoreCommitted(t);
      RestoredAll(t, fRAT, RF, rf);
      assert |rf| == |RF| - |cRAT|;
      FreeTheRest(rf, t);
    }

    /** The first half of squashRenameReg: `rf` collects the registers that are not committed. */
    method RestoreCommitted(ghost t: Table) returns (rf: set<nat>)
      requires CommittedInv(cfg, t) && t == Abs()
      modifies this`fRAT, this`RF
      ensures fRAT == cRAT && Restored(t, fRAT, RF, rf)
    {
      rf := RF.Keys;
      var names := cRAT.Keys;
      fRAT := map[];
      RestoredNone(t);
      while names != {}
        invariant forall x :: x in cRAT <==> x in names || x in fRAT
        invariant forall x :: x in names ==> x !in fRAT
        invariant Restored(t, fRAT, RF, rf)
        decreases names
      {
        var a := AnyOf(names);
        rf := RestoreOne(t, rf, a);
        names := names - {a};
      }
      RestoredAll(t, fRAT, RF, rf);
    }

    method RestoreOne(ghost t: Table, rf0: set<nat>, a: nat) returns (rf: set<nat>)
      requires CommittedInv(cfg, t) && t.crat == cRAT && a in cRAT && a !in fRAT && Restored(t, fRAT, RF, rf0)
      modifies this`fRAT, this`RF
      ensures (forall x :: x in fRAT <==> x in old(fRAT) || x == a) && Restored(t, fRAT, RF, rf)
    {
      RestoreNext(t, fRAT, RF, rf0, a);
      fRAT := fRAT[a := cRAT[a]];
      RF := RF[cRAT[a] := RegElem(ArchReg, None)];
      rf := rf0 - {cRAT[a]};
    }

    /** The second half of squashRenameReg: what is left is freed, in the order of the register file. */
    method FreeTheRest(rf: set<nat>, ghost t: Table)
      requires cfg.Valid() && (forall p :: p in t.rf <==> cfg.IsPR(p)) && RF.Keys == t.rf.Keys
      requires forall p :: p in rf <==> p in t.rf && !Committed(t, p)
      requires forall p :: p in t.rf ==> RF[p] == if p in rf then t.rf[p] else RegElem(ArchReg, None)
      modifies this`RF, this`availablePRset
      ensures RF == Squash(cfg, t).rf && availablePRset == Squash(cfg, t).free
    {
      hide Squash, Uncommitted, IsFreedUpTo;
      availablePRset := seq(cfg.segCnt, _ => []);
      var p: nat := 1;
      NothingFreed(cfg, t, rf, RF, availablePRset);
      while p <= cfg.pSize
        invariant 1 <= p <= cfg.pSize + 1 && |availablePRset| == cfg.segCnt && RF.Keys == t.rf.Keys
        invariant IsFreedUpTo(cfg, t, rf, RF, availablePRset, p)
      {
        ghost var was, lists := RF, availablePRset;
        if p in rf {
          RF := RF[p := RegElem(Available, None)];
          ListAsFree(p);
        }
        OneFreed(cfg, t, rf, was, RF, lists, availablePRset, p);
        p := p + 1;
      }
      SquashParts(cfg, t, rf, RF, availablePRset);
    }

    /** The registers below `p` that were not committed are free and listed in their home segments. */
    static ghost predicate IsFreedUpTo(c: Config, t: Table, rf: set<nat>, m: map<nat, RegElem>, free: seq<seq<nat>>, p: nat)
      requires c.Valid() && p <= c.pSize + 1
    {
      && (forall i :: 0 <= i < |free| ==> free[i] == Uncommitted(c, t, i, p))
      && (forall q :: q in t.rf ==>
            q in m && m[q] == if q !in rf then RegElem(ArchReg, None) else if q < p then RegElem(Available, None) else t.rf[q])
    }

    static lemma {:induction false} NothingFreed(c: Config, t: Table, rf: set<nat>, m: map<nat, RegElem>, free: seq<seq<nat>>)
      requires c.Valid() && (forall p :: p in t.rf <==> c.IsPR(p)) && m.Keys == t.rf.Keys
      requires forall p :: p in t.rf ==> m[p] == if p in rf then t.rf[p] else RegElem(ArchReg, None)
      requires forall i :: 0 <= i < |free| ==> free[i] == []
      ensures IsFreedUpTo(c, t, rf, m, free, 1)
    {
    }

    static lemma {:induction false} OneFreed(c: Config, t: Table, rf: set<nat>, m: map<nat, RegElem>, n: map<nat, RegElem>,
                                             free: seq<seq<nat>>, more: seq<seq<nat>>, p: nat)
      requires c.Valid() && c.IsPR(p) && IsFreedUpTo(c, t, rf, m, free, p) && |more| == |free|
      requires forall q :: q in rf <==> q in t.rf && !Committed(t, q)
      requires p in t.rf && n == if p in rf then m[p := RegElem(Available, None)] else m
      requires forall i :: 0 <= i < |free| ==> more[i] == free[i] + if p in rf && i == c.Home(p) then [p] else []
      ensures IsFreedUpTo(c, t, rf, n, more, p + 1)
    {
      hide Committed;
    }

    static lemma {:induction false} SquashParts(c: Config, t: Table, rf: set<nat>, m: map<nat, RegElem>, free: seq<seq<nat>>)
      requires c.Valid() && (forall p :: p in t.rf <==> c.IsPR(p)) && m.Keys == t.rf.Keys && |free| == c.segCnt
      requires forall p :: p in rf <==> p in t.rf && !Committed(t, p)
      requires IsFreedUpTo(c, t, rf, m, free, c.pSize + 1)
      ensures m == Squash(c, t).rf && free == Squash(c, t).free
    {
      hide Committed, Uncommitted;
    }

    method ListAsFree(p: nat)
      requires cfg.Valid() && cfg.IsPR(p) && |availablePRset| == cfg.segCnt
      modifies this`availablePRset
      ensures |availablePRset| == cfg.segCnt
      ensures forall i :: 0 <= i < cfg.segCnt ==>
                availablePRset[i] == old(availablePRset)[i] + if i == cfg.Home(p) then [p] else []
    {
      var i := cfg.Home(p);
      availablePRset := availablePRset[i := availablePRset[i] + [p]];
    }
  }
}
