/** Squash against undo, and the shape of the `_prev_pr` links. */
module RenameRecovery {
  import opened Collections
  import opened RenameSpec

  /** Takes back the youngest rename: the old mapping returns, the register is free again. */
  ghost function UndoWrite(c: Config, t: Table, w: seq<Write>): (r: Table)
    requires Inv(c, t, w) && w != []
  {
    var k := |w| - 1;
    var p := w[k].pr;
    assert Linked(t, w, k);
    Table(t.frat[w[k].ar := t.rf[p].prev.value], t.crat,
          t.rf[p := RegElem(Available, None)],
          t.free[c.Home(p) := t.free[c.Home(p)] + [p]])
  }

  lemma {:induction false} UndoKeepsFlight(c: Config, t: Table, w: seq<Write>)
    requires Inv(c, t, w) && w != []
    ensures FlightInv(c, UndoWrite(c, t, w), w[..|w| - 1])
  {
    var r := UndoWrite(c, t, w);
    var v := w[..|w| - 1];
    forall k | 0 <= k < |v| ensures Linked(r, v, k) {
      assert Linked(t, w, k) && v[..k] == w[..k] && v[k] == w[k];
    }
  }

  lemma {:induction false} UndoKeepsFree(c: Config, t: Table, w: seq<Write>)
    requires Inv(c, t, w) && w != []
    ensures FreeInv(c, UndoWrite(c, t, w))
  {
    var r := UndoWrite(c, t, w);
    var p := w[|w| - 1].pr;
    assert p !in t.free[c.Home(p)];
    forall i, x | 0 <= i < |r.free| && x in r.free[i]
      ensures c.IsPR(x) && c.Home(x) == i && x in r.rf && r.rf[x] == RegElem(Available, None)
    {
      assert x in t.free[i] || (x == p && i == c.Home(p));
    }
  }

  lemma {:induction false} UndoKeepsCover(c: Config, t: Table, w: seq<Write>, x: nat)
    requires Inv(c, t, w) && w != [] && x in t.rf
    ensures Placed(UndoWrite(c, t, w), w[..|w| - 1], x)
  {
    var r := UndoWrite(c, t, w);
    var p := w[|w| - 1].pr;
    assert Placed(t, w, x);
    if x == p {
      assert x in r.free[c.Home(p)];
    } else if InFlight(w, x) {
      var k :| 0 <= k < |w| && w[k].pr == x;
      assert w[..|w| - 1][k].pr == x;
    } else if InFree(t, x) {
      var j :| 0 <= j < |t.free| && x in t.free[j];
      assert x in r.free[j];
    } else {
      var a :| a in t.crat && t.crat[a] == x;
      assert r.crat[a] == x;
    }
  }

  lemma {:induction false} UndoKeepsCommitted(c: Config, t: Table, w: seq<Write>)
    requires Inv(c, t, w) && w != []
    ensures CommittedInv(c, UndoWrite(c, t, w))
    ensures UndoWrite(c, t, w).frat == Apply(t.crat, w[..|w| - 1])
  {
    var k := |w| - 1;
    assert Linked(t, w, k);
    ApplyKeys(t.crat, w[..k]);
    assert t.frat == Apply(t.crat, w[..k])[w[k].ar := w[k].pr];
    forall a | a in t.crat ensures t.crat[a] != w[k].pr { }
  }

  lemma {:induction false} UndoKeepsInv(c: Config, t: Table, w: seq<Write>)
    requires Inv(c, t, w) && w != []
    ensures Inv(c, UndoWrite(c, t, w), w[..|w| - 1])
  {
    var r := UndoWrite(c, t, w);
    var k := |w| - 1;
    UndoKeepsCommitted(c, t, w);
    UndoKeepsFlight(c, t, w);
    UndoKeepsFree(c, t, w);
    forall x | x in r.rf ensures Placed(r, w[..k], x) { UndoKeepsCover(c, t, w, x); }
    hide CommittedInv, FlightInv, FreeInv, Placed;
  }

  /** Every in-flight rename undone, youngest first. */
  ghost function UndoAll(c: Config, t: Table, w: seq<Write>): (r: Table)
    requires Inv(c, t, w)
    ensures Inv(c, r, []) && r.crat == t.crat
    decreases |w|
  {
    if w == [] then t
    else
      UndoKeepsInv(c, t, w);
      UndoAll(c, UndoWrite(c, t, w), w[..|w| - 1])
  }

  /** With nothing in flight the committed map decides everything but list order and stale links
      of committed registers. */
  lemma {:induction false} IdleTablesAgree(c: Config, t: Table, u: Table)
    requires Inv(c, t, []) && Inv(c, u, []) && t.crat == u.crat
    ensures t.frat == u.frat && t.rf.Keys == u.rf.Keys
    ensures forall p :: p in t.rf ==> t.rf[p].state == u.rf[p].state
    ensures forall p :: p in t.rf && t.rf[p].state == Available ==> t.rf[p].prev == u.rf[p].prev == None
    ensures forall i :: 0 <= i < c.segCnt ==> multiset(t.free[i]) == multiset(u.free[i])
  {
    forall p ensures Committed(t, p) <==> Committed(u, p) { }
    forall p | c.IsPR(p)
      ensures t.rf[p].state == u.rf[p].state
      ensures t.rf[p].state == Available ==> t.rf[p].prev == u.rf[p].prev == None
      ensures p in t.free[c.Home(p)] <==> p in u.free[c.Home(p)]
    {
      assert Placed(t, [], p) && Placed(u, [], p);
    }
    forall i | 0 <= i < c.segCnt ensures multiset(t.free[i]) == multiset(u.free[i]) {
      NoDupMultiset(t.free[i]);
      NoDupMultiset(u.free[i]);
      forall p: nat ensures multiset(t.free[i])[p] == multiset(u.free[i])[p] {
        if p in t.free[i] { assert c.IsPR(p) && c.Home(p) == i; }
        if p in u.free[i] { assert c.IsPR(p) && c.Home(p) == i; }
      }
    }
  }

  lemma {:induction false} NoDupMultiset(s: seq<nat>)
    requires NoDup(s)
    ensures forall p :: multiset(s)[p] == if p in s then 1 else 0
  {
    if s != [] {
      var n := |s| - 1;
      NoDupMultiset(s[..n]);
      assert s == s[..n] + [s[n]];
      assert s[n] !in s[..n];
    }
  }

  /** squashRenameReg gives the same maps, states and free registers as undoing every in-flight
      rename one by one from youngest to oldest. */
  lemma {:induction false} SquashIsUndoAll(c: Config, t: Table, w: seq<Write>)
    requires Inv(c, t, w)
    ensures var s, u := Squash(c, t), UndoAll(c, t, w);
            && s.frat == u.frat && s.crat == u.crat && s.rf.Keys == u.rf.Keys
            && (forall p :: p in s.rf ==> s.rf[p].state == u.rf[p].state)
            && (forall i :: 0 <= i < c.segCnt ==> multiset(s.free[i]) == multiset(u.free[i]))
  {
    SquashKeepsInv(c, t, w);
    IdleTablesAgree(c, Squash(c, t), UndoAll(c, t, w));
  }

  // ----- The chains of previous registers -----

  /** The physical registers of the in-flight writers of `a`, youngest first. */
  ghost function Writers(w: seq<Write>, a: nat): seq<nat> {
    if w == [] then []
    else (if w[|w| - 1].ar == a then [w[|w| - 1].pr] else []) + Writers(w[..|w| - 1], a)
  }

  /** The registers met by following `n` links from `p`. */
  ghost function Follow(t: Table, p: nat, n: nat): seq<nat>
    decreases n
  {
    if n == 0 || p !in t.rf || t.rf[p].prev.None? then [p]
    else [p] + Follow(t, t.rf[p].prev.value, n - 1)
  }

  lemma {:induction false} LinkStep(c: Config, t: Table, w: seq<Write>, a: nat, k: nat)
    requires Inv(c, t, w) && a in t.crat && k < |w|
    ensures var p := Apply(t.crat, w[..k + 1])[a];
            if w[k].ar == a then p == w[k].pr && p in t.rf && t.rf[p].prev == Some(Apply(t.crat, w[..k])[a])
            else p == Apply(t.crat, w[..k])[a]
  {
    assert w[..k + 1][..k] == w[..k];
    assert Linked(t, w, k);
  }

  lemma {:induction false} PrefixChain(c: Config, t: Table, w: seq<Write>, a: nat, j: nat)
    requires Inv(c, t, w) && a in t.crat && j <= |w|
    ensures Follow(t, Apply(t.crat, w[..j])[a], |Writers(w[..j], a)|) == Writers(w[..j], a) + [t.crat[a]]
    decreases j
  {
    if j > 0 {
      hide RenameSpec.Inv;
      PrefixChain(c, t, w, a, j - 1);
      assert w[..j][..j - 1] == w[..j - 1];
      LinkStep(c, t, w, a, j - 1);
    }
  }

  /** From the fetch map the links pass the in-flight writers of the register from youngest to oldest
      and end at the committed map. */
  lemma {:induction false} ChainEndsAtCommitted(c: Config, t: Table, w: seq<Write>, a: nat)
    requires Inv(c, t, w) && a in t.crat
    ensures Follow(t, t.frat[a], |Writers(w, a)|) == Writers(w, a) + [t.crat[a]]
  {
    PrefixChain(c, t, w, a, |w|);
    assert w[..|w|] == w;
  }

  // ----- Exactly one of free, committed and in flight -----

  /** A register is in exactly one place, and if it is free it is listed once, in its home segment. */
  lemma {:induction false} ExactlyOnePlace(c: Config, t: Table, w: seq<Write>, p: nat)
    requires Inv(c, t, w) && c.IsPR(p)
    ensures InFree(t, p) <==> !Committed(t, p) && !InFlight(w, p)
    ensures !(Committed(t, p) && InFlight(w, p))
    ensures InFree(t, p) ==> multiset(t.free[c.Home(p)])[p] == 1
    ensures forall i :: 0 <= i < |t.free| && i != c.Home(p) ==> p !in t.free[i]
  {
    assert Placed(t, w, p);
    NoDupMultiset(t.free[c.Home(p)]);
  }

  lemma {:induction false} NoDupSize(s: seq<nat>) returns (m: set<nat>)
    requires NoDup(s)
    ensures |m| == |s| && forall x :: x in m <==> x in s
  {
    if s == [] {
      m := {};
    } else {
      var n := |s| - 1;
      m := NoDupSize(s[..n]);
      assert s == s[..n] + [s[n]];
      assert s[n] !in s[..n];
      m := m + {s[n]};
    }
  }

  ghost predicate CommittedBelow(t: Table, hi: nat, p: nat) {
    exists a :: a < hi && a in t.crat && t.crat[a] == p
  }

  lemma {:induction false} CommittedCount(c: Config, t: Table, n: nat) returns (m: set<nat>)
    requires CommittedInv(c, t) && n <= c.aSize
    ensures |m| == n && forall p :: p in m <==> CommittedBelow(t, c.aLo + n, p)
  {
    if n == 0 {
      m := {};
    } else {
      m := CommittedCount(c, t, n - 1);
      var a := c.aLo + n - 1;
      assert c.IsAR(a);
      m := m + {t.crat[a]};
    }
  }

  lemma {:induction false} FreeNotCommitted(c: Config, t: Table, w: seq<Write>, i: nat, p: nat)
    requires Inv(c, t, w) && i < |t.free| && p in t.free[i]
    ensures c.IsPR(p) && !Committed(t, p)
  {
  }

  lemma {:induction false} CommittedIsPR(c: Config, t: Table, w: seq<Write>, p: nat)
    requires Inv(c, t, w)
    ensures Committed(t, p) ==> c.IsPR(p)
  {
  }

  /** A free list never outgrows the rename register file, so the size check of setAsAvailablePR holds. */
  lemma {:induction false} FreeListFits(c: Config, t: Table, w: seq<Write>, i: nat)
    requires Inv(c, t, w) && i < |t.free|
    ensures |t.free[i]| <= c.rSize
  {
    var f := NoDupSize(t.free[i]);
    var m := CommittedCount(c, t, c.aSize);
    hide RenameSpec.Inv;
    forall p | p in f ensures c.IsPR(p) && p !in m { FreeNotCommitted(c, t, w, i, p); }
    forall p | p in m ensures c.IsPR(p) { CommittedIsPR(c, t, w, p); }
    DisjointFit(f, m, c.pSize);
    RenameFileSize(c);
  }

  lemma {:induction false} DisjointFit(f: set<nat>, m: set<nat>, n: nat)
    requires f !! m && forall p :: p in f + m ==> 1 <= p <= n
    ensures |f| + |m| <= n
  {
    var all := Indices(n + 1);
    assert |all - {0}| == n by { assert 0 in all; }
    forall p | p in f + m ensures p in all - {0} { }
    SubsetSmaller(f + m, all - {0});
    assert |f + m| == |f| + |m|;
  }

  lemma {:induction false} RenameFileSize(c: Config)
    requires c.Valid()
    ensures c.pSize - c.aSize <= c.rSize
  {
    assert c.pSize == c.PSeg() * c.segCnt && c.aSize == c.ASeg() * c.segCnt;
    assert c.rSize >= c.rSize / c.segCnt * c.segCnt;
    assert (c.PSeg() - c.ASeg()) * c.segCnt == c.pSize - c.aSize;
  }
}
