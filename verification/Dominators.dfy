/** Dominator sets by round-robin iteration (dominator.cpp, build_dominators). */
module Dominators {
  import opened BasicBlocks
  import opened Cfg
  import opened Collections

  // ----- The iteration as a function on states -----

  datatype State = State(dom: seq<set<nat>>, all: seq<bool>)

  ghost function StateOf(bbs: seq<BasicBlock>): (s: State)
    reads bbs
    ensures |s.dom| == |bbs| && |s.all| == |bbs|
    ensures forall i :: 0 <= i < |bbs| ==> s.dom[i] == bbs[i].dominatorMap && s.all[i] == bbs[i].domSetIsAll
  {
    State(seq(|bbs|, i requires 0 <= i < |bbs| reads bbs => bbs[i].dominatorMap),
          seq(|bbs|, i requires 0 <= i < |bbs| reads bbs => bbs[i].domSetIsAll))
  }

  ghost predicate Sized(g: Graph, s: State) {
    g.Valid() && |s.dom| == |s.all| == |g.pred|
  }

  ghost predicate HasProcessedAncestor(g: Graph, s: State, n: nat)
    requires Sized(g, s) && n < |g.pred|
  {
    exists p :: p in g.pred[n] && !s.all[p]
  }

  ghost predicate InEveryProcessedAncestor(g: Graph, s: State, n: nat, d: nat)
    requires Sized(g, s) && n < |g.pred|
  {
    forall p :: p in g.pred[n] && !s.all[p] ==> d in s.dom[p]
  }

  /** The blocks in the dominator set of every processed ancestor. */
  ghost function Meet(g: Graph, s: State, n: nat): set<nat>
    requires Sized(g, s) && n < |g.pred|
  {
    set d | 0 <= d < |g.pred| && InEveryProcessedAncestor(g, s, n, d)
  }

  /** What one visit of a block that is not an entry point computes. */
  ghost function Visit(g: Graph, s: State, n: nat): (t: State)
    requires Sized(g, s) && n < |g.pred|
    ensures Sized(g, t)
  {
    if HasProcessedAncestor(g, s, n)
    then State(s.dom[n := Meet(g, s, n) + {n}], s.all[n := false])
    else s.(dom := s.dom[n := s.dom[n] + {n}])
  }

  /** Unprocessed blocks hold at most themselves. Processed blocks are reachable, hold themselves, cover
      their true dominators, and never gain a member when revisited. */
  ghost predicate BlockInv(g: Graph, es: set<nat>, s: State, n: nat)
    requires Sized(g, s) && n < |g.pred|
  {
    if s.all[n] then s.dom[n] <= {n}
    else
      && Reachable(g, es, n) && n in s.dom[n]
      && Dom(g, es, n) <= s.dom[n]
      && (forall d :: d in s.dom[n] ==> d < |g.pred|)
      && (n !in es ==> HasProcessedAncestor(g, s, n) && Meet(g, s, n) <= s.dom[n])
  }

  /** Kept by every visit. */
  ghost predicate Inv(g: Graph, es: set<nat>, s: State) {
    && EntriesAre(g, es) && Sized(g, s)
    && (forall e :: e in es ==> !s.all[e] && s.dom[e] == {e})
    && forall n {:trigger BlockInv(g, es, s, n)} :: 0 <= n < |g.pred| ==> BlockInv(g, es, s, n)
  }

  lemma {:induction false} VisitKeepsInv(g: Graph, es: set<nat>, s: State, n: nat)
    requires Inv(g, es, s) && n < |g.pred| && n !in es
    ensures Inv(g, es, Visit(g, s, n))
  {
    var t := Visit(g, s, n);
    assert BlockInv(g, es, s, n);
    if HasProcessedAncestor(g, s, n) {
      var p :| p in g.pred[n] && !s.all[p];
      assert Edge(g, p, n) && BlockInv(g, es, s, p);
      ReachableSucc(g, es, p, n);
      forall d | d in Dom(g, es, n) ensures d in t.dom[n] {
        DomReachable(g, es, d, n);
        if d != n {
          forall q | q in g.pred[n] && !s.all[q] ensures d in s.dom[q] {
            assert Edge(g, q, n) && BlockInv(g, es, s, q);
            DomPred(g, es, d, q, n);
          }
        }
      }
      forall m | 0 <= m < |g.pred| ensures BlockInv(g, es, t, m) {
        assert BlockInv(g, es, s, m);
        if !t.all[m] && m !in es { MeetShrinks(g, es, s, n, m); }
      }
    } else {
      forall m | 0 <= m < |g.pred| ensures BlockInv(g, es, t, m) {
        assert BlockInv(g, es, s, m);
        if !t.all[m] && m !in es { MeetUntouched(g, es, s, n, m); }
      }
    }
  }

  /** Visiting a block without processed ancestors leaves every processed block as it was. */
  lemma {:induction false} MeetUntouched(g: Graph, es: set<nat>, s: State, n: nat, m: nat)
    requires Inv(g, es, s) && n < |g.pred| && n !in es && !HasProcessedAncestor(g, s, n)
    requires m < |g.pred| && m !in es && !s.all[m]
    ensures var t := Visit(g, s, n);
            HasProcessedAncestor(g, t, m) && Meet(g, t, m) <= t.dom[m] && n != m
  {
    var t := Visit(g, s, n);
    assert BlockInv(g, es, s, n) && BlockInv(g, es, s, m);
    var p :| p in g.pred[m] && !s.all[p];
    assert !t.all[p];
    forall d | d in Meet(g, t, m) ensures d in Meet(g, s, m) {
      forall q | q in g.pred[m] && !s.all[q] ensures d in s.dom[q] {
        assert !t.all[q];
      }
    }
  }

  /** Visiting `n` only lowers the meet of every processed block `m`. */
  lemma {:induction false} MeetShrinks(g: Graph, es: set<nat>, s: State, n: nat, m: nat)
    requires Inv(g, es, s) && n < |g.pred| && n !in es && HasProcessedAncestor(g, s, n)
    requires m < |g.pred| && m !in es && !Visit(g, s, n).all[m]
    ensures var t := Visit(g, s, n); HasProcessedAncestor(g, t, m) && Meet(g, t, m) <= t.dom[m]
  {
    var t := Visit(g, s, n);
    assert BlockInv(g, es, s, n) && BlockInv(g, es, s, m);
    if m == n {
      var p :| p in g.pred[n] && !s.all[p];
      assert !t.all[p];
    } else {
      var p :| p in g.pred[m] && !s.all[p];
      assert !t.all[p];
    }
    forall d | d in Meet(g, t, m) ensures d in Meet(g, s, m) {
      forall q | q in g.pred[m] && !s.all[q] ensures d in s.dom[q] {
        assert !t.all[q] && d in t.dom[q];
        if q == n {
          if d == n {
          } else {
            assert d in Meet(g, s, n) && Meet(g, s, n) <= s.dom[n];
          }
        }
      }
    }
  }

  /** The change test looks at the set only. It misses a visit exactly when the block held {n} while it
      stood for all blocks, and its first processed ancestors have no other block in common. */
  ghost predicate Silent(g: Graph, s: State, n: nat)
    requires Sized(g, s) && n < |g.pred|
  {
    s.all[n] && HasProcessedAncestor(g, s, n) && s.dom[n] == {n} && Meet(g, s, n) <= {n}
  }

  lemma {:induction false} ChangeMissed(g: Graph, es: set<nat>, s: State, n: nat)
    requires Inv(g, es, s) && n < |g.pred| && n !in es
    ensures Visit(g, s, n) != s && Visit(g, s, n).dom[n] == s.dom[n] <==> Silent(g, s, n)
  {
    assert BlockInv(g, es, s, n);
    var t := Visit(g, s, n);
    if HasProcessedAncestor(g, s, n) {
      assert s.all[n] ==> t.all[n] != s.all[n];
      assert s.dom[n] == {n} && Meet(g, s, n) <= {n} ==> Meet(g, s, n) + {n} == {n};
      assert Meet(g, s, n) + {n} == s.dom[n] ==> Meet(g, s, n) <= s.dom[n];
      if !s.all[n] && t.dom[n] == s.dom[n] { assert t.dom == s.dom && t.all == s.all; }
      if s.all[n] && t.dom[n] == s.dom[n] { assert s.dom[n] == {n}; }
    } else if t.dom[n] == s.dom[n] {
      assert t.dom == s.dom;
    }
  }

  /** A block with a strict dominator is never missed. */
  lemma {:induction false} DominatedIsNoticed(g: Graph, es: set<nat>, s: State, n: nat)
    requires Inv(g, es, s) && n < |g.pred| && n !in es && SDom(g, es, n) != {}
    ensures !Silent(g, s, n)
  {
    VisitKeepsInv(g, es, s, n);
    if HasProcessedAncestor(g, s, n) {
      var t := Visit(g, s, n);
      assert BlockInv(g, es, t, n);
      var d :| d in SDom(g, es, n);
      assert d in t.dom[n] && d in Meet(g, s, n);
    }
  }

  lemma {:induction false} ProcessedMembersAreBlocks(g: Graph, es: set<nat>, s: State)
    requires Inv(g, es, s)
    ensures forall i, d :: 0 <= i < |g.pred| && !s.all[i] && d in s.dom[i] ==> d < |g.pred|
  {
    forall i, d | 0 <= i < |g.pred| && !s.all[i] && d in s.dom[i] ensures d < |g.pred| {
      assert BlockInv(g, es, s, i);
    }
  }

  // ----- Termination -----

  /** Strictly decreases whenever a visit changes the block. */
  ghost function Rank(g: Graph, s: State, n: nat): nat
    requires Sized(g, s) && n < |g.pred|
  {
    if s.all[n] then (if n in s.dom[n] then |g.pred| + 1 else |g.pred| + 2) else |s.dom[n]|
  }

  ghost function Measure(g: Graph, s: State, k: nat): nat
    requires Sized(g, s) && k <= |g.pred|
  {
    if k == 0 then 0 else Measure(g, s, k - 1) + Rank(g, s, k - 1)
  }

  lemma {:induction false} MeasureDrops(g: Graph, s: State, t: State, n: nat, k: nat)
    requires Sized(g, s) && Sized(g, t) && n < |g.pred| && k <= |g.pred|
    requires forall i :: 0 <= i < |g.pred| && i != n ==> t.dom[i] == s.dom[i] && t.all[i] == s.all[i]
    requires Rank(g, t, n) < Rank(g, s, n)
    ensures Measure(g, t, k) <= Measure(g, s, k)
    ensures n < k ==> Measure(g, t, k) < Measure(g, s, k)
  {
    if k > 0 {
      MeasureDrops(g, s, t, n, k - 1);
    }
  }

  lemma {:induction false} VisitLowersMeasure(g: Graph, es: set<nat>, s: State, n: nat)
    requires Inv(g, es, s) && n < |g.pred| && n !in es && Visit(g, s, n) != s
    ensures Measure(g, Visit(g, s, n), |g.pred|) < Measure(g, s, |g.pred|)
  {
    var t := Visit(g, s, n);
    VisitKeepsInv(g, es, s, n);
    assert BlockInv(g, es, s, n) && BlockInv(g, es, t, n);
    if HasProcessedAncestor(g, s, n) {
      SubsetSmaller(t.dom[n], Indices(|g.pred|));
      if !s.all[n] {
        assert t.dom[n] <= s.dom[n];
        assert t.dom[n] == s.dom[n] ==> t.dom == s.dom && t.all == s.all;
        SubsetSmaller(t.dom[n], s.dom[n]);
      }
    } else {
      assert s.dom[n] + {n} == s.dom[n] ==> t.dom == s.dom;
    }
    MeasureDrops(g, s, t, n, |g.pred|);
  }

  // ----- The fixpoint is path dominance -----

  ghost predicate Fixpoint(g: Graph, es: set<nat>, s: State)
    requires Sized(g, s)
  {
    forall n :: 0 <= n < |g.pred| && n !in es ==> Visit(g, s, n) == s
  }

  /** At the fixpoint a block on a path is processed, and every member of its set is on the path. */
  lemma {:induction false} MembersAreOnPath(g: Graph, es: set<nat>, s: State, p: seq<nat>, n: nat, d: nat)
    requires Inv(g, es, s) && Fixpoint(g, es, s) && EntryPath(g, es, p, n)
    ensures !s.all[n]
    ensures d in s.dom[n] ==> d in p
    decreases |p|
  {
    if n !in es {
      assert |p| >= 2;
      var m := p[|p| - 2];
      assert Edge(g, p[|p| - 2], p[|p| - 1]);
      EntryPrefix(g, es, p, n, |p| - 2);
      var q := p[..|p| - 1];
      MembersAreOnPath(g, es, s, q, m, d);
      assert HasProcessedAncestor(g, s, n);
      assert Visit(g, s, n) == s && Visit(g, s, n).dom[n] == Meet(g, s, n) + {n};
      if d in s.dom[n] && d != n {
        assert d in q;
      }
    }
  }

  lemma {:induction false} FixpointIsDominance(g: Graph, es: set<nat>, s: State, n: nat)
    requires Inv(g, es, s) && Fixpoint(g, es, s) && n < |g.pred|
    ensures s.dom[n] == Dom(g, es, n)
  {
    assert BlockInv(g, es, s, n);
    if Reachable(g, es, n) {
      var w :| EntryPath(g, es, w, n);
      MembersAreOnPath(g, es, s, w, n, n);
      forall d | d in s.dom[n] ensures d in Dom(g, es, n) {
        forall p | EntryPath(g, es, p, n) ensures d in p {
          MembersAreOnPath(g, es, s, p, n, d);
        }
      }
    } else {
      if n in es { EntryOnly(g, es, n); }
      assert s.all[n] && Visit(g, s, n) == s;
    }
  }

  lemma {:induction false} FixpointIsDominanceEverywhere(g: Graph, es: set<nat>, s: State)
    requires Inv(g, es, s) && Fixpoint(g, es, s)
    ensures forall n :: 0 <= n < |g.pred| ==> s.dom[n] == Dom(g, es, n)
  {
    forall n | 0 <= n < |g.pred| ensures s.dom[n] == Dom(g, es, n) {
      FixpointIsDominance(g, es, s, n);
    }
  }

  // ----- Sweeps -----

  /** The visits of one sweep to the blocks before `i`. */
  ghost function SweepTo(g: Graph, es: set<nat>, s: State, i: nat): (t: State)
    requires Sized(g, s) && i <= |g.pred|
    ensures Sized(g, t)
  {
    if i == 0 then s
    else
      var t := SweepTo(g, es, s, i - 1);
      if i - 1 in es then t else Visit(g, t, i - 1)
  }

  ghost function SweepOf(g: Graph, es: set<nat>, s: State): (t: State)
    requires Sized(g, s)
    ensures Sized(g, t)
  {
    SweepTo(g, es, s, |g.pred|)
  }

  /** Entries hold themselves; every other block starts as "all blocks". */
  ghost function InitState(g: Graph, es: set<nat>): (s: State)
    requires g.Valid()
    ensures Sized(g, s)
  {
    State(seq(|g.pred|, n requires 0 <= n < |g.pred| => if n in es then {n} else {}),
          seq(|g.pred|, n requires 0 <= n < |g.pred| => n !in es))
  }

  ghost function Sweeps(g: Graph, es: set<nat>, k: nat): (t: State)
    requires g.Valid()
    ensures Sized(g, t)
  {
    if k == 0 then InitState(g, es) else SweepOf(g, es, Sweeps(g, es, k - 1))
  }

  /** The loop ends after sweep `k`: the first one that changes no set. */
  ghost predicate EndsAfter(g: Graph, es: set<nat>, k: nat)
    requires g.Valid()
  {
    && k > 0 && Sweeps(g, es, k).dom == Sweeps(g, es, k - 1).dom
    && forall j :: 0 < j < k ==> Sweeps(g, es, j).dom != Sweeps(g, es, j - 1).dom
  }

  lemma {:induction false} InitHolds(g: Graph, es: set<nat>)
    requires EntriesAre(g, es)
    ensures Inv(g, es, InitState(g, es))
  {
    forall n | 0 <= n < |g.pred| ensures BlockInv(g, es, InitState(g, es), n) {
      if n in es { EntryOnly(g, es, n); }
    }
  }

  /** A sweep keeps the invariant, lowers the measure unless it changes nothing, and settles each set at
      the visit of its block. */
  lemma {:induction false} SweepKeepsInv(g: Graph, es: set<nat>, s: State, i: nat)
    requires Inv(g, es, s) && i <= |g.pred|
    ensures Inv(g, es, SweepTo(g, es, s, i))
    ensures SweepTo(g, es, s, i) == s || Measure(g, SweepTo(g, es, s, i), |g.pred|) < Measure(g, s, |g.pred|)
    ensures forall n :: i <= n < |g.pred| ==> SweepTo(g, es, s, i).dom[n] == s.dom[n] && SweepTo(g, es, s, i).all[n] == s.all[n]
  {
    assert Sized(g, s);
    hide Inv, Visit, Measure, Sized;
    if i > 0 {
      SweepKeepsInv(g, es, s, i - 1);
      var t := SweepTo(g, es, s, i - 1);
      if i - 1 !in es {
        VisitKeepsInv(g, es, t, i - 1);
        VisitElsewhere(g, t, i - 1);
        if Visit(g, t, i - 1) != t { VisitLowersMeasure(g, es, t, i - 1); }
      }
    }
  }

  /** Later visits of a sweep leave the set of a block as it was settled. */
  lemma {:induction false} SettledAtVisit(g: Graph, es: set<nat>, s: State, i: nat, j: nat)
    requires Sized(g, s) && i <= j <= |g.pred|
    ensures forall n :: 0 <= n < i ==> SweepTo(g, es, s, j).dom[n] == SweepTo(g, es, s, i).dom[n]
    ensures forall n :: 0 <= n < i ==> SweepTo(g, es, s, j).all[n] == SweepTo(g, es, s, i).all[n]
    decreases j
  {
    if i < j { SettledAtVisit(g, es, s, i, j - 1); }
  }

  // ----- When the change test suffices -----

  /** The first sweep processes the block: an entry, or an earlier block of that kind, is its ancestor. */
  ghost predicate FirstSweep(g: Graph, es: set<nat>, n: nat)
    decreases n
  {
    n < |g.pred| && exists p :: p in g.pred[n] && (p in es || (p < n && FirstSweep(g, es, p)))
  }

  /** Every block that an entry reaches has a strict dominator or is processed by the first sweep. */
  ghost predicate Timely(g: Graph, es: set<nat>) {
    forall n :: 0 <= n < |g.pred| && n !in es && Reachable(g, es, n) && SDom(g, es, n) == {} ==> FirstSweep(g, es, n)
  }

  /** With one entry every reachable block has a strict dominator. */
  lemma {:induction false} SingleEntryIsTimely(g: Graph, e: nat)
    requires EntriesAre(g, {e})
    ensures Timely(g, {e})
  {
    forall n | 0 <= n < |g.pred| && n !in {e} && Reachable(g, {e}, n) ensures SDom(g, {e}, n) != {} {
      EntryDominates(g, e, n);
      assert e in SDom(g, {e}, n);
    }
  }

  /** So are blocks listed after one of their reachable ancestors, whatever the entries are. */
  lemma {:induction false} ListedInOrderIsTimely(g: Graph, es: set<nat>)
    requires EntriesAre(g, es)
    requires forall n :: 0 <= n < |g.pred| && n !in es && Reachable(g, es, n) ==>
               exists p :: p in g.pred[n] && (p in es || (p < n && Reachable(g, es, p)))
    ensures Timely(g, es)
  {
    forall n | 0 <= n < |g.pred| && n !in es && Reachable(g, es, n) ensures FirstSweep(g, es, n) {
      ListedInOrder(g, es, n);
    }
  }

  lemma {:induction false} ListedInOrder(g: Graph, es: set<nat>, n: nat)
    requires EntriesAre(g, es) && n < |g.pred| && n !in es && Reachable(g, es, n)
    requires forall m :: 0 <= m < |g.pred| && m !in es && Reachable(g, es, m) ==>
               exists p :: p in g.pred[m] && (p in es || (p < m && Reachable(g, es, p)))
    ensures FirstSweep(g, es, n)
    decreases n
  {
    var p :| p in g.pred[n] && (p in es || (p < n && Reachable(g, es, p)));
    if p !in es { ListedInOrder(g, es, p); }
  }

  /** What holds after the first sweep. */
  ghost predicate Swept(g: Graph, es: set<nat>, s: State)
    requires Sized(g, s)
  {
    SweptTo(g, es, s, |g.pred|)
  }

  ghost predicate SweptTo(g: Graph, es: set<nat>, s: State, i: nat)
    requires Sized(g, s) && i <= |g.pred|
  {
    forall n :: 0 <= n < i && n !in es ==> n in s.dom[n] && (FirstSweep(g, es, n) ==> !s.all[n])
  }

  lemma {:induction false} FirstSweepDone(g: Graph, es: set<nat>, i: nat)
    requires EntriesAre(g, es) && i <= |g.pred|
    ensures SweptTo(g, es, SweepTo(g, es, InitState(g, es), i), i)
  {
    if i > 0 {
      var n := i - 1;
      FirstSweepDone(g, es, n);
      InitHolds(g, es);
      SweepKeepsInv(g, es, InitState(g, es), n);
      var t := SweepTo(g, es, InitState(g, es), n);
      if n !in es && FirstSweep(g, es, n) {
        var p :| p in g.pred[n] && (p in es || (p < n && FirstSweep(g, es, p)));
        assert !t.all[p];
        assert HasProcessedAncestor(g, t, n);
      }
    }
  }

  lemma {:induction false} VisitKeepsSwept(g: Graph, es: set<nat>, s: State, n: nat)
    requires Sized(g, s) && Swept(g, es, s) && n < |g.pred|
    ensures Swept(g, es, Visit(g, s, n))
  {
  }

  lemma {:induction false} LaterSweeps(g: Graph, es: set<nat>, s: State, i: nat)
    requires Sized(g, s) && Swept(g, es, s) && i <= |g.pred|
    ensures Swept(g, es, SweepTo(g, es, s, i))
  {
    if i > 0 {
      LaterSweeps(g, es, s, i - 1);
      VisitKeepsSwept(g, es, SweepTo(g, es, s, i - 1), i - 1);
      hide Swept, Visit;
    }
  }

  lemma {:induction false} SweptAfter(g: Graph, es: set<nat>, k: nat)
    requires EntriesAre(g, es)
    ensures Inv(g, es, Sweeps(g, es, k))
    ensures k > 0 ==> Swept(g, es, Sweeps(g, es, k))
  {
    if k == 0 {
      InitHolds(g, es);
    } else {
      SweptAfter(g, es, k - 1);
      SweepKeepsInv(g, es, Sweeps(g, es, k - 1), |g.pred|);
      if k == 1 { FirstSweepDone(g, es, |g.pred|); } else { LaterSweeps(g, es, Sweeps(g, es, k - 1), |g.pred|); }
      hide Inv, SweptTo, SweepTo;
    }
  }

  /** After the first sweep of a timely program no visit is missed, so a sweep that changes no set changes
      nothing and the state is a fixpoint. */
  lemma {:induction false} QuietSweepChangesNothing(g: Graph, es: set<nat>, s: State, i: nat)
    requires Inv(g, es, s) && Swept(g, es, s) && Timely(g, es) && i <= |g.pred|
    requires SweepOf(g, es, s).dom == s.dom
    ensures SweepTo(g, es, s, i) == s
    ensures forall n :: 0 <= n < i && n !in es ==> Visit(g, s, n) == s
  {
    hide Inv, Visit, Swept, Timely;
    if i > 0 {
      var n := i - 1;
      QuietSweepChangesNothing(g, es, s, n);
      if n !in es { QuietVisit(g, es, s, n); }
    }
  }

  lemma {:induction false} QuietVisit(g: Graph, es: set<nat>, s: State, n: nat)
    requires Inv(g, es, s) && Swept(g, es, s) && Timely(g, es) && n < |g.pred| && n !in es
    requires SweepOf(g, es, s).dom == s.dom && SweepTo(g, es, s, n) == s
    ensures Visit(g, s, n) == s
  {
    hide Inv, Visit, Swept, Timely, Silent;
    SettledAtVisit(g, es, s, n + 1, |g.pred|);
    assert Visit(g, s, n).dom[n] == s.dom[n];
    NotSilent(g, es, s, n);
    ChangeMissed(g, es, s, n);
  }

  lemma {:induction false} NotSilent(g: Graph, es: set<nat>, s: State, n: nat)
    requires Inv(g, es, s) && Swept(g, es, s) && Timely(g, es) && n < |g.pred| && n !in es
    ensures !Silent(g, s, n)
  {
    if HasProcessedAncestor(g, s, n) {
      var p :| p in g.pred[n] && !s.all[p];
      assert BlockInv(g, es, s, p) && Edge(g, p, n);
      ReachableSucc(g, es, p, n);
      if SDom(g, es, n) != {} { DominatedIsNoticed(g, es, s, n); }
    }
  }

  /** If the loop ends after sweep `k` of a timely program, its state is a fixpoint. */
  lemma {:induction false} TimelyEndIsFixpoint(g: Graph, es: set<nat>, k: nat)
    requires EntriesAre(g, es) && Timely(g, es) && EndsAfter(g, es, k)
    ensures Inv(g, es, Sweeps(g, es, k)) && Fixpoint(g, es, Sweeps(g, es, k))
  {
    SweptAfter(g, es, k);
    SweptAfter(g, es, k - 1);
    var s := Sweeps(g, es, k - 1);
    if k > 1 {
      QuietSweepChangesNothing(g, es, s, |g.pred|);
    } else {
      assert forall n :: 0 <= n < |g.pred| && n !in es ==> s.dom[n] == {};
      assert forall n :: 0 <= n < |g.pred| && n !in es ==> n in Sweeps(g, es, k).dom[n];
    }
  }

  // ----- The pass -----

  /** The meet over the ancestor list, skipping ancestors whose set still stands for all blocks. */
  method MeetOfAncestors(g: Graph, bbs: seq<BasicBlock>, n: nat)
    returns (found: bool, intersection: set<nat>)
    requires g.Valid() && Layout(g, bbs) && n < |g.pred|
    requires forall i, d :: 0 <= i < |bbs| && !bbs[i].domSetIsAll && d in bbs[i].dominatorMap ==> d < |g.pred|
    ensures found <==> HasProcessedAncestor(g, StateOf(bbs), n)
    ensures found ==> intersection == Meet(g, StateOf(bbs), n)
  {
    hide Meet;
    ghost var s := StateOf(bbs);
    var anc := g.pred[n];
    var indx := 0;
    found, intersection := false, {};
    while indx < |anc|
      invariant 0 <= indx <= |anc|
      invariant !found
      invariant forall k :: 0 <= k < indx ==> s.all[anc[k]]
    {
      if !bbs[anc[indx]].domSetIsAll {
        found := true;
        break;
      }
      indx := indx + 1;
    }
    if found { intersection := MeetFrom(g, bbs, n, indx); }
  }

  /** `indx` is the first processed ancestor. */
  method MeetFrom(g: Graph, bbs: seq<BasicBlock>, n: nat, indx: nat) returns (intersection: set<nat>)
    requires g.Valid() && Layout(g, bbs) && n < |g.pred| && indx < |g.pred[n]|
    requires forall d :: d in bbs[g.pred[n][indx]].dominatorMap ==> d < |g.pred|
    requires !bbs[g.pred[n][indx]].domSetIsAll && forall k :: 0 <= k < indx ==> bbs[g.pred[n][k]].domSetIsAll
    ensures intersection == Meet(g, StateOf(bbs), n)
  {
    hide Meet, HasProcessedAncestor;
    ghost var s := StateOf(bbs);
    var anc := g.pred[n];
    intersection := bbs[anc[indx]].dominatorMap;
    var j := indx + 1;
    while j < |anc|
      invariant indx < j <= |anc|
      invariant forall d :: d in intersection <==>
                  0 <= d < |g.pred| && forall k :: 0 <= k < j && !s.all[anc[k]] ==> d in s.dom[anc[k]]
    {
      if !bbs[anc[j]].domSetIsAll {
        intersection := intersection * bbs[anc[j]].dominatorMap;
      }
      j := j + 1;
    }
    MeetIs(g, s, n, intersection);
  }

  lemma {:induction false} MeetIs(g: Graph, s: State, n: nat, m: set<nat>)
    requires Sized(g, s) && n < |g.pred|
    requires forall d :: d in m <==>
               0 <= d < |g.pred| && forall k :: 0 <= k < |g.pred[n]| && !s.all[g.pred[n][k]] ==> d in s.dom[g.pred[n][k]]
    ensures m == Meet(g, s, n)
  {
    forall d: nat | d in m ensures d in Meet(g, s, n) { }
    forall d: nat | d in Meet(g, s, n) ensures d in m {
      forall k | 0 <= k < |g.pred[n]| && !s.all[g.pred[n][k]] ensures d in s.dom[g.pred[n][k]] {
        assert g.pred[n][k] in g.pred[n];
      }
    }
  }

  lemma {:induction false} StateUpdated(s: State, t: State, n: nat)
    requires |s.dom| == |t.dom| == |s.all| == |t.all| && n < |s.dom|
    requires forall i :: 0 <= i < |s.dom| && i != n ==> t.dom[i] == s.dom[i] && t.all[i] == s.all[i]
    ensures t == State(s.dom[n := t.dom[n]], s.all[n := t.all[n]])
    ensures t.all[n] == s.all[n] ==> t == s.(dom := s.dom[n := t.dom[n]])
  {
    assert t.dom == s.dom[n := t.dom[n]];
    assert t.all == s.all[n := t.all[n]];
    assert t.all[n] == s.all[n] ==> t.all == s.all;
  }

  /** One visit: the body of the pass's inner loop for a block that is not an entry point. */
  method VisitBlock(g: Graph, bbs: seq<BasicBlock>, n: nat) returns (c: bool)
    requires g.Valid() && Layout(g, bbs) && n < |g.pred|
    requires forall i, d :: 0 <= i < |bbs| && !bbs[i].domSetIsAll && d in bbs[i].dominatorMap ==> d < |g.pred|
    modifies bbs[n]
    ensures bbs[n].entryPoint == old(bbs[n].entryPoint)
    ensures StateOf(bbs) == Visit(g, old(StateOf(bbs)), n)
    ensures c <==> StateOf(bbs).dom[n] != old(StateOf(bbs)).dom[n]
  {
    hide Meet, HasProcessedAncestor;
    var found, intersection := MeetOfAncestors(g, bbs, n);
    ghost var s := StateOf(bbs);
    if found {
      c := bbs[n].SetDominatorsTo(n, intersection);
      bbs[n].domSetIsAll := false;
    } else {
      c := bbs[n].SetDominators(n);
    }
    StateUpdated(s, StateOf(bbs), n);
  }

  ghost predicate InState(bbs: seq<BasicBlock>, s: State)
    reads bbs
  {
    StateOf(bbs) == s
  }

  ghost predicate SetsDiffer(s: State, t: State) {
    s.dom != t.dom
  }

  ghost predicate EntriesMarked(bbs: seq<BasicBlock>, es: set<nat>)
    reads bbs
  {
    forall n :: 0 <= n < |bbs| ==> (bbs[n].entryPoint <==> n in es)
  }

  /** Entry points hold themselves; every other block starts as "all blocks". */
  method InitDominators(g: Graph, bbs: seq<BasicBlock>, ghost es: set<nat>)
    requires EntriesAre(g, es) && Layout(g, bbs)
    requires forall b :: b in bbs ==> b.dominatorMap == {} && !b.entryPoint
    modifies bbs
    ensures StateOf(bbs) == InitState(g, es)
    ensures EntriesMarked(bbs, es)
  {
    var i := 0;
    while i < |bbs|
      invariant 0 <= i <= |bbs|
      invariant forall k :: 0 <= k < i ==>
                  && bbs[k].dominatorMap == (if k in es then {k} else {})
                  && bbs[k].domSetIsAll == (k !in es) && bbs[k].entryPoint == (k in es)
      invariant forall k :: i <= k < |bbs| ==> bbs[k].dominatorMap == {} && !bbs[k].entryPoint
    {
      if |g.pred[i]| == 0 {
        var change := bbs[i].SetDominators(i);
        bbs[i].entryPoint := true;
        bbs[i].domSetIsAll := false;
      } else {
        bbs[i].domSetIsAll := true;
      }
      i := i + 1;
    }
    assert StateOf(bbs).dom == InitState(g, es).dom && StateOf(bbs).all == InitState(g, es).all;
  }

  /** One sweep over the block list; it reports exactly whether some set changed. */
  method Sweep(g: Graph, bbs: seq<BasicBlock>, ghost es: set<nat>, ghost s: State) returns (change: bool)
    requires Layout(g, bbs) && |bbs| == |g.pred| && Inv(g, es, s) && Sized(g, s)
    requires InState(bbs, s) && EntriesMarked(bbs, es)
    modifies bbs
    ensures InState(bbs, SweepOf(g, es, s)) && EntriesMarked(bbs, es)
    ensures change <==> SetsDiffer(s, SweepOf(g, es, s))
  {
    hide Inv, Sized, StateOf, EntriesMarked, SetsDiffer, InState, Layout, Visit;
    NoDifference(s);
    change := false;
    var i := 0;
    while i < |bbs|
      invariant i <= |bbs|
      invariant InState(bbs, SweepTo(g, es, s, i)) && EntriesMarked(bbs, es)
      invariant change <==> SetsDiffer(s, SweepTo(g, es, s, i))
    {
      var c := VisitStep(g, bbs, i, es, s);
      change := change || c;
      i := i + 1;
    }
  }

  lemma {:induction false} NoDifference(s: State)
    ensures !SetsDiffer(s, s)
  {
  }

  /** One turn of a sweep that started at `s`. */
  method VisitStep(g: Graph, bbs: seq<BasicBlock>, i: nat, ghost es: set<nat>, ghost s: State) returns (c: bool)
    requires Layout(g, bbs) && Inv(g, es, s) && i < |bbs| && InState(bbs, SweepTo(g, es, s, i))
    requires EntriesMarked(bbs, es)
    modifies bbs
    ensures EntriesMarked(bbs, es)
    ensures InState(bbs, SweepTo(g, es, s, i + 1))
    ensures SetsDiffer(s, SweepTo(g, es, s, i + 1)) <==> SetsDiffer(s, SweepTo(g, es, s, i)) || c
  {
    c := false;
    if bbs[i].entryPoint { return; }
    ghost var t := StateOf(bbs);
    SweepKeepsInv(g, es, s, i);
    ProcessedMembersAreBlocks(g, es, t);
    c := VisitBlock(g, bbs, i);
    VisitElsewhere(g, t, i);
    hide Inv, Visit;
    SetChanged(s.dom, t.dom, StateOf(bbs).dom, i);
  }

  lemma {:induction false} VisitElsewhere(g: Graph, s: State, n: nat)
    requires Sized(g, s) && n < |g.pred|
    ensures forall m :: 0 <= m < |g.pred| && m != n ==>
              Visit(g, s, n).dom[m] == s.dom[m] && Visit(g, s, n).all[m] == s.all[m]
  {
  }

  lemma {:induction false} SetChanged(s: seq<set<nat>>, t: seq<set<nat>>, u: seq<set<nat>>, i: nat)
    requires |s| == |t| == |u| && i < |s| && t[i] == s[i] && (forall n :: 0 <= n < |s| && n != i ==> u[n] == t[n])
    ensures u != s <==> t != s || u[i] != t[i]
  {
    if u == s { assert t == s; }
    if t == s && u[i] == t[i] { assert u == s; }
  }

  /** build_dominators terminates, with the state after the first sweep that changes no set. In a timely
      program that is exactly path dominance at every block. */
  method BuildDominators(g: Graph, bbs: seq<BasicBlock>, ghost es: set<nat>)
    requires EntriesAre(g, es) && Layout(g, bbs)
    requires forall b :: b in bbs ==> b.dominatorMap == {} && !b.entryPoint
    modifies bbs
    ensures exists k :: EndsAfter(g, es, k) && StateOf(bbs) == Sweeps(g, es, k)
    ensures Timely(g, es) ==> forall n :: 0 <= n < |bbs| ==> bbs[n].dominatorMap == Dom(g, es, n)
  {
    hide Inv, SweepOf, Sized, Fixpoint, Timely;
    InitDominators(g, bbs, es);
    var change := true;
    ghost var k := 0;
    while change
      invariant StateOf(bbs) == Sweeps(g, es, k)
      invariant EntriesMarked(bbs, es)
      invariant change ==> forall j :: 0 < j <= k ==> Sweeps(g, es, j).dom != Sweeps(g, es, j - 1).dom
      invariant !change ==> EndsAfter(g, es, k)
      decreases change, Measure(g, StateOf(bbs), |g.pred|)
    {
      SweptAfter(g, es, k);
      SweepKeepsInv(g, es, StateOf(bbs), |g.pred|);
      assert SweepOf(g, es, StateOf(bbs)) == SweepTo(g, es, StateOf(bbs), |g.pred|) by { SweepIs(g, es, StateOf(bbs)); }
      change := Sweep(g, bbs, es, StateOf(bbs));
      k := k + 1;
    }
    if Timely(g, es) {
      TimelyEndIsFixpoint(g, es, k);
      FixpointIsDominanceEverywhere(g, es, StateOf(bbs));
    }
  }

  lemma {:induction false} SweepIs(g: Graph, es: set<nat>, s: State)
    requires Sized(g, s)
    ensures SweepOf(g, es, s) == SweepTo(g, es, s, |g.pred|)
  {
  }

  // ----- A program with two entries on which the pass stops early -----

  /** Blocks in list order: `m` follows `n`, which two branches reach, each from an entry of its own. */
  function TwoEntries(): Graph {
    Graph([[1], [2, 3], [4], [5], [], []], [[], [0], [1], [1], [2], [3]])
  }

  lemma {:induction false} TwoEntriesValid()
    ensures EntriesAre(TwoEntries(), {4, 5})
  {
    var g := TwoEntries();
    assert |g.pred| == 6 && |g.succ| == 6;
    assert g.pred[0] == [1] && g.pred[1] == [2, 3] && g.pred[2] == [4] && g.pred[3] == [5] && g.pred[4] == [] && g.pred[5] == [];
  }

  function State0(): State { State([{}, {}, {}, {}, {4}, {5}], [true, true, true, true, false, false]) }
  function State1(): State { State([{0}, {1}, {2, 4}, {3, 5}, {4}, {5}], [true, true, false, false, false, false]) }
  function State2(): State { State([{0}, {1}, {2, 4}, {3, 5}, {4}, {5}], [true, false, false, false, false, false]) }

  lemma {:induction false} FirstStates()
    ensures Sweeps(TwoEntries(), {4, 5}, 0) == State0()
  {
    var s := InitState(TwoEntries(), {4, 5});
    assert s.dom == State0().dom && s.all == State0().all;
  }

  /** A visit of a block whose ancestors all stand for every block. */
  lemma {:induction false} VisitUnprocessed(g: Graph, s: State, n: nat, d: set<nat>)
    requires Sized(g, s) && n < |g.pred| && d == s.dom[n] + {n} && forall p :: p in g.pred[n] ==> s.all[p]
    ensures Visit(g, s, n) == State(s.dom[n := d], s.all)
  {
  }

  /** A visit of a block with one ancestor, which is processed. */
  lemma {:induction false} VisitBelow(g: Graph, s: State, n: nat, p: nat, d: set<nat>)
    requires Sized(g, s) && n < |g.pred| && p < |g.pred| && g.pred[n] == [p] && !s.all[p] && d == s.dom[p] + {n}
    requires forall x :: x in s.dom[p] ==> x < |g.pred|
    ensures Visit(g, s, n) == State(s.dom[n := d], s.all[n := false])
  {
    assert p in g.pred[n] && g.pred[n][0] == p;
    forall x: nat | x < |g.pred| && forall k :: 0 <= k < |g.pred[n]| && !s.all[g.pred[n][k]] ==> x in s.dom[g.pred[n][k]]
      ensures x in s.dom[p]
    {
      assert !s.all[g.pred[n][0]];
    }
    MeetIs(g, s, n, s.dom[p]);
  }

  /** Two processed ancestors with disjoint sets leave an empty meet. */
  lemma {:induction false} NothingShared(g: Graph, s: State, n: nat, j: nat, k: nat)
    requires Sized(g, s) && n < |g.pred| && j < |g.pred[n]| && k < |g.pred[n]|
    requires !s.all[g.pred[n][j]] && !s.all[g.pred[n][k]] && s.dom[g.pred[n][j]] !! s.dom[g.pred[n][k]]
    ensures Meet(g, s, n) == {}
  {
    assert g.pred[n][j] in g.pred[n] && g.pred[n][k] in g.pred[n];
  }

  lemma {:induction false} FirstSweepOfTwoEntries()
    ensures Sweeps(TwoEntries(), {4, 5}, 1) == State1()
  {
    TwoEntriesValid();
    FirstStates();
    var g, es, s := TwoEntries(), {4, 5}, State0();
    hide Visit, InitState;
    VisitUnprocessed(g, s, 0, {0});
    var s1 := State(s.dom[0 := {0}], s.all);
    VisitUnprocessed(g, s1, 1, {1});
    var s2 := State(s1.dom[1 := {1}], s.all);
    VisitBelow(g, s2, 2, 4, {2, 4});
    var s3 := State(s2.dom[2 := {2, 4}], s2.all[2 := false]);
    VisitBelow(g, s3, 3, 5, {3, 5});
    var s4 := State(s3.dom[3 := {3, 5}], s3.all[3 := false]);
    assert SweepTo(g, es, s, 1) == s1;
    assert SweepTo(g, es, s, 2) == s2;
    assert SweepTo(g, es, s, 3) == s3;
    assert SweepTo(g, es, s, 4) == s4;
    assert SweepTo(g, es, s, 5) == s4;
    assert SweepTo(g, es, s, 6) == s4;
    assert s4.dom == State1().dom && s4.all == State1().all;
    assert Sweeps(g, es, 1) == SweepOf(g, es, Sweeps(g, es, 0));
  }

  /** Block 1 stops standing for every block without a change of its set. */
  lemma {:induction false} MissedVisit()
    ensures Sized(TwoEntries(), State1()) && Visit(TwoEntries(), State1(), 1) == State2()
  {
    TwoEntriesValid();
    var g, s := TwoEntries(), State1();
    assert g.pred[1] == [2, 3] && g.pred[1][0] == 2 && g.pred[1][1] == 3 && 2 in g.pred[1];
    NothingShared(g, s, 1, 0, 1);
    assert HasProcessedAncestor(g, s, 1);
    hide Meet;
    assert Meet(g, s, 1) + {1} == {1};
    assert s.dom[1 := {1}] == State2().dom && s.all[1 := false] == State2().all;
  }

  lemma {:induction false} LaterVisits()
    ensures Sized(TwoEntries(), State2())
    ensures Visit(TwoEntries(), State1(), 0) == State1()
    ensures Visit(TwoEntries(), State2(), 2) == State2() && Visit(TwoEntries(), State2(), 3) == State2()
  {
    TwoEntriesValid();
    MissedVisit();
    var g, s, t := TwoEntries(), State1(), State2();
    hide Visit;
    VisitUnprocessed(g, s, 0, {0});
    assert s.dom[0 := {0}] == s.dom;
    VisitBelow(g, t, 2, 4, {2, 4});
    VisitBelow(g, t, 3, 5, {3, 5});
    assert t.dom[2 := {2, 4}] == t.dom && t.all[2 := false] == t.all;
    assert t.dom[3 := {3, 5}] == t.dom && t.all[3 := false] == t.all;
  }

  lemma {:induction false} SecondSweepOfTwoEntries()
    ensures Sweeps(TwoEntries(), {4, 5}, 2) == State2()
  {
    TwoEntriesValid();
    FirstSweepOfTwoEntries();
    MissedVisit();
    LaterVisits();
    var g, es, s, t := TwoEntries(), {4, 5}, State1(), State2();
    assert |g.pred| == 6;
    hide Visit, InitState, State1, State2, TwoEntries;
    assert SweepTo(g, es, s, 1) == s;
    assert SweepTo(g, es, s, 2) == t;
    assert SweepTo(g, es, s, 3) == t;
    assert SweepTo(g, es, s, 4) == t;
    assert SweepTo(g, es, s, 5) == t;
    assert SweepTo(g, es, s, 6) == t;
    assert Sweeps(g, es, 2) == SweepOf(g, es, Sweeps(g, es, 1));
  }

  lemma {:induction false} TrueDominators()
    ensures Dom(TwoEntries(), {4, 5}, 0) == {0, 1}
  {
    var g, es := TwoEntries(), {4, 5};
    assert g.pred[0] == [1] && g.pred[1] == [2, 3] && g.pred[2] == [4] && g.pred[3] == [5];
    var p: seq<nat>, q: seq<nat> := [4, 2, 1, 0], [5, 3, 1, 0];
    assert EntryPath(g, es, p, 0) && EntryPath(g, es, q, 0);
    forall d: nat | d in Dom(g, es, 0) ensures d in {0, 1} {
      assert d in p && d in q;
    }
    forall w | EntryPath(g, es, w, 0) ensures 0 in w && 1 in w {
      assert |w| >= 2;
      assert Edge(g, w[|w| - 2], w[|w| - 2 + 1]);
    }
  }

  /** With this list the pass ends after its second sweep. Block 0 still stands for every block and holds
      itself only, although block 1 dominates it. */
  lemma {:induction false} StopsEarly()
    ensures EntriesAre(TwoEntries(), {4, 5}) && EndsAfter(TwoEntries(), {4, 5}, 2)
    ensures Sweeps(TwoEntries(), {4, 5}, 2).dom[0] == {0} && Sweeps(TwoEntries(), {4, 5}, 2).all[0]
    ensures Dom(TwoEntries(), {4, 5}, 0) == {0, 1}
    ensures !Timely(TwoEntries(), {4, 5})
  {
    TwoEntriesValid();
    FirstStates();
    FirstSweepOfTwoEntries();
    SecondSweepOfTwoEntries();
    TrueDominators();
    var g, es := TwoEntries(), {4, 5};
    hide Visit, InitState, SweepOf, Dom;
    assert State0().dom[0] != State1().dom[0];
    assert EndsAfter(g, es, 2);
    assert {0} != {0, 1} by { assert 1 !in {0}; }
    WrongEndIsUntimely(g, es, 2, 0);
  }

  /** Every failure is excluded by the condition. */
  lemma {:induction false} WrongEndIsUntimely(g: Graph, es: set<nat>, k: nat, n: nat)
    requires EntriesAre(g, es) && EndsAfter(g, es, k) && n < |g.pred| && Sweeps(g, es, k).dom[n] != Dom(g, es, n)
    ensures !Timely(g, es)
  {
    if Timely(g, es) {
      TimelyEndIsFixpoint(g, es, k);
      FixpointIsDominance(g, es, Sweeps(g, es, k), n);
    }
  }

  // ----- The condition is not needed for every list -----

  /** Block 0 joins two branches that come later in the list. */
  function LateBranches(): Graph {
    Graph([[1, 2], [3], [4], [], []], [[], [0], [0], [1], [2]])
  }

  function Late0(): State { State([{}, {}, {}, {3}, {4}], [true, true, true, false, false]) }
  function Late1(): State { State([{0}, {1, 3}, {2, 4}, {3}, {4}], [true, false, false, false, false]) }
  function Late2(): State { State([{0}, {1, 3}, {2, 4}, {3}, {4}], [false, false, false, false, false]) }

  lemma {:induction false} LateValid()
    ensures EntriesAre(LateBranches(), {3, 4}) && Sized(LateBranches(), Late1()) && Sized(LateBranches(), Late2())
    ensures LateBranches().pred == [[1, 2], [3], [4], [], []]
    ensures Sweeps(LateBranches(), {3, 4}, 0) == Late0()
  {
    var g := LateBranches();
    assert |g.pred| == 5 && |g.succ| == 5;
    assert g.pred[0] == [1, 2] && g.pred[1] == [3] && g.pred[2] == [4] && g.pred[3] == [] && g.pred[4] == [];
    var s := InitState(g, {3, 4});
    assert s.dom == Late0().dom && s.all == Late0().all;
  }

  lemma {:induction false} LateFirstSweep()
    ensures Sweeps(LateBranches(), {3, 4}, 1) == Late1()
  {
    LateValid();
    var g, es, s := LateBranches(), {3, 4}, Late0();
    hide Visit, InitState;
    VisitUnprocessed(g, s, 0, {0});
    var s1 := State(s.dom[0 := {0}], s.all);
    VisitBelow(g, s1, 1, 3, {1, 3});
    var s2 := State(s1.dom[1 := {1, 3}], s1.all[1 := false]);
    VisitBelow(g, s2, 2, 4, {2, 4});
    var s3 := State(s2.dom[2 := {2, 4}], s2.all[2 := false]);
    assert SweepTo(g, es, s, 1) == s1;
    assert SweepTo(g, es, s, 2) == s2;
    assert SweepTo(g, es, s, 3) == s3;
    assert SweepTo(g, es, s, 4) == s3;
    assert SweepTo(g, es, s, 5) == s3;
    assert s3.dom == Late1().dom && s3.all == Late1().all;
    assert Sweeps(g, es, 1) == SweepOf(g, es, Sweeps(g, es, 0));
  }

  /** A visit of a block two of whose processed ancestors share nothing. */
  lemma {:induction false} VisitJoin(g: Graph, s: State, n: nat)
    requires Sized(g, s) && n < |g.pred| && |g.pred[n]| == 2
    requires !s.all[g.pred[n][0]] && !s.all[g.pred[n][1]] && s.dom[g.pred[n][0]] !! s.dom[g.pred[n][1]]
    ensures Visit(g, s, n) == State(s.dom[n := {n}], s.all[n := false])
  {
    NothingShared(g, s, n, 0, 1);
    assert g.pred[n][0] in g.pred[n];
    assert HasProcessedAncestor(g, s, n);
    hide Meet;
    assert {} + {n} == {n};
  }

  lemma {:induction false} LateJoin()
    ensures Sized(LateBranches(), Late1()) && Sized(LateBranches(), Late2())
    ensures Visit(LateBranches(), Late1(), 0) == Late2() && Visit(LateBranches(), Late2(), 0) == Late2()
  {
    LateValid();
    var g, s, t := LateBranches(), Late1(), Late2();
    assert s.dom[0 := {0}] == t.dom && s.all[0 := false] == t.all && t.dom[0 := {0}] == t.dom && t.all[0 := false] == t.all;
    assert {1, 3} !! {2, 4};
    hide Visit, Sized, InitState, Sweeps, EntriesAre;
    VisitJoin(g, s, 0);
    VisitJoin(g, t, 0);
  }

  lemma {:induction false} LateRest()
    ensures Sized(LateBranches(), Late2())
    ensures Visit(LateBranches(), Late2(), 1) == Late2() && Visit(LateBranches(), Late2(), 2) == Late2()
  {
    LateValid();
    var g, t := LateBranches(), Late2();
    assert {3} + {1} == {1, 3} && {4} + {2} == {2, 4};
    hide Visit, Sized, InitState, Sweeps, EntriesAre;
    VisitBelow(g, t, 1, 3, {1, 3});
    VisitBelow(g, t, 2, 4, {2, 4});
    assert t.dom[1 := {1, 3}] == t.dom && t.all[1 := false] == t.all;
    assert t.dom[2 := {2, 4}] == t.dom && t.all[2 := false] == t.all;
  }

  lemma {:induction false} FiveVisits(g: Graph, s: State, t: State)
    requires Sized(g, s) && Sized(g, t) && |g.pred| == 5
    requires Visit(g, s, 0) == t && Visit(g, t, 1) == t && Visit(g, t, 2) == t
    ensures SweepOf(g, {3, 4}, s) == t
  {
    var es: set<nat> := {3, 4};
    hide Visit, Sized;
    assert SweepTo(g, es, s, 1) == t;
    assert SweepTo(g, es, s, 2) == t;
    assert SweepTo(g, es, s, 3) == t;
    assert SweepTo(g, es, s, 4) == t;
    assert SweepTo(g, es, s, 5) == t;
  }

  lemma {:induction false} FiveFixed(g: Graph, t: State)
    requires Sized(g, t) && |g.pred| == 5 && Visit(g, t, 0) == t && Visit(g, t, 1) == t && Visit(g, t, 2) == t
    ensures Fixpoint(g, {3, 4}, t)
  {
    hide Visit, Sized;
    forall n | 0 <= n < 5 && n !in {3, 4} ensures Visit(g, t, n) == t { assert n == 0 || n == 1 || n == 2; }
  }

  lemma {:induction false} LateSecondSweep()
    ensures Sweeps(LateBranches(), {3, 4}, 2) == Late2()
    ensures Sized(LateBranches(), Late2()) && Fixpoint(LateBranches(), {3, 4}, Late2())
  {
    LateValid();
    LateFirstSweep();
    LateJoin();
    LateRest();
    var g, es, s, t := LateBranches(), {3, 4}, Late1(), Late2();
    assert |g.pred| == 5;
    hide Visit, InitState, Late1, Late2, LateBranches, EntriesAre, Sized, SweepOf;
    FiveVisits(g, s, t);
    FiveFixed(g, t);
    hide Fixpoint;
    assert Sweeps(g, es, 2) == SweepOf(g, es, Sweeps(g, es, 1));
  }

  lemma {:induction false} LateIsUntimely()
    requires Dom(LateBranches(), {3, 4}, 0) == {0}
    ensures !Timely(LateBranches(), {3, 4})
  {
    var g, es := LateBranches(), {3, 4};
    assert g.pred[0] == [1, 2] && g.pred[1] == [3];
    assert EntryPath(g, es, [3, 1, 0], 0);
    hide Dom;
    assert SDom(g, es, 0) == {};
    assert !FirstSweep(g, es, 0);
  }

  /** This list is not timely, and the pass ends on it with the right sets. */
  lemma {:induction false} TimelyIsNotNeeded()
    ensures EntriesAre(LateBranches(), {3, 4}) && !Timely(LateBranches(), {3, 4}) && EndsAfter(LateBranches(), {3, 4}, 2)
    ensures forall n :: 0 <= n < 5 ==> Sweeps(LateBranches(), {3, 4}, 2).dom[n] == Dom(LateBranches(), {3, 4}, n)
  {
    LateValid();
    LateFirstSweep();
    LateSecondSweep();
    var g, es := LateBranches(), {3, 4};
    SweptAfter(g, es, 2);
    assert Late0().dom[0] != Late1().dom[0] && Late1().dom == Late2().dom;
    assert |g.pred| == 5 && Late2().dom[0] == {0};
    hide Visit, InitState, SweepOf, Dom, Inv, Fixpoint, Timely, Late0, Late1, Late2, LateBranches, EntriesAre, Sweeps;
    forall n | 0 <= n < 5 ensures Sweeps(g, es, 2).dom[n] == Dom(g, es, n) { FixpointIsDominance(g, es, Late2(), n); }
    LateIsUntimely();
  }
}
