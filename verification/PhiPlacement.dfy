/** Phi placement by iterated dominance frontiers (ssa.cpp, phi_func_placement). */
module PhiPlacement {
  import opened BasicBlocks
  import opened Cfg
  import opened Collections
  import opened DomTree

  /** Every frontier of a definition or of a phi lies inside `s`. */
  ghost predicate Closed(g: Graph, es: set<nat>, defs: set<nat>, s: set<nat>) {
    forall x :: x in defs + s ==> DF(g, es, x) <= s
  }

  /** `s` is the least closed set. */
  ghost predicate LeastClosed(g: Graph, es: set<nat>, defs: set<nat>, s: set<nat>) {
    && Closed(g, es, defs, s)
    && forall t :: Closed(g, es, defs, t) ==> s <= t
  }

  lemma {:induction false} LeastClosedUnique(g: Graph, es: set<nat>, defs: set<nat>, s: set<nat>, t: set<nat>)
    requires LeastClosed(g, es, defs, s) && LeastClosed(g, es, defs, t)
    ensures s == t
  {
  }

  // ----- The convergence criterion -----

  /** Walking along a path, some block that defines the variable or has a phi for it dominates where we are. */
  lemma {:induction false} SourceDominates(g: Graph, es: set<nat>, defs: set<nat>, s: set<nat>,
                                           p: seq<nat>, x: nat, z: nat, k: nat) returns (i: nat)
    requires Closed(g, es, defs, s) && Path(g, p, x, z) && x in defs && k < |p|
    ensures i <= k && p[i] in defs + s && p[i] in Dom(g, es, p[k])
    decreases k
  {
    if k == 0 {
      i := 0;
      DomRefl(g, es, x);
    } else {
      i := SourceDominates(g, es, defs, s, p, x, z, k - 1);
      assert Edge(g, p[k - 1], p[k - 1 + 1]);
      if p[i] !in SDom(g, es, p[k]) {
        assert InDF(g, es, p[i], p[k]);
        assert p[k] in DF(g, es, p[i]);
        i := k;
        DomRefl(g, es, p[k]);
      }
    }
  }

  /** The same for the end of the path: without a phi there, its source strictly dominates it. */
  lemma {:induction false} SourceOfEnd(g: Graph, es: set<nat>, defs: set<nat>, s: set<nat>, p: seq<nat>, x: nat, z: nat) returns (i: nat)
    requires Closed(g, es, defs, s) && Path(g, p, x, z) && x in defs && |p| >= 2 && z !in s
    ensures i <= |p| - 2 && p[i] in SDom(g, es, z)
  {
    i := SourceDominates(g, es, defs, s, p, x, z, |p| - 2);
    assert Edge(g, p[|p| - 2], p[|p| - 2 + 1]);
    assert DF(g, es, p[i]) <= s;
    assert !InDF(g, es, p[i], z);
  }

  /** A walk from a reachable block to `z` passes every dominator of `z` that does not dominate its start. */
  lemma {:induction false} WalkPassesDominator(g: Graph, es: set<nat>, w: seq<nat>, a: nat, b: nat, z: nat)
    requires Path(g, w, a, z) && Reachable(g, es, a) && b in Dom(g, es, z)
    ensures b in w || b in Dom(g, es, a)
  {
    ReachablePath(g, es, w, a, z);
    DomReachable(g, es, b, z);
    if b !in Dom(g, es, a) {
      var q :| EntryPath(g, es, q, a) && b !in q;
      EntryJoin(g, es, q, a, w, z);
      assert b in q + w[1..];
    }
  }

  /** Sources on two paths that meet only at `z` cannot both strictly dominate `z` with one above the other. */
  lemma {:induction false} SourcesClash(g: Graph, es: set<nat>, p: seq<nat>, q: seq<nat>, x: nat, y: nat, z: nat, i: nat, j: nat)
    requires Path(g, p, x, z) && Path(g, q, y, z) && i <= |p| - 2 && j <= |q| - 2
    requires forall k, l :: 0 <= k < |p| && 0 <= l < |q| && p[k] == q[l] ==> k == |p| - 1 || l == |q| - 1
    requires p[i] in SDom(g, es, z) && q[j] in SDom(g, es, z)
    ensures q[j] in Dom(g, es, p[i])
  {
    DomReachable(g, es, p[i], z);
    PathSuffix(g, p, x, z, i);
    WalkPassesDominator(g, es, p[i..], p[i], q[j], z);
    forall k | i <= k < |p| ensures p[k] != q[j] { }
  }

  /** If two distinct blocks that define a variable have non-empty paths that meet only at `z`,
      then `z` is in every closed set, so it gets a phi. */
  lemma {:induction false} ConvergenceGetsPhi(g: Graph, es: set<nat>, defs: set<nat>, s: set<nat>,
                           x: nat, y: nat, z: nat, p: seq<nat>, q: seq<nat>)
    requires Closed(g, es, defs, s) && x in defs && y in defs && x != y
    requires Path(g, p, x, z) && |p| >= 2 && Path(g, q, y, z) && |q| >= 2
    requires forall k, l :: 0 <= k < |p| && 0 <= l < |q| && p[k] == q[l] ==> k == |p| - 1 || l == |q| - 1
    ensures z in s
  {
    if z !in s {
      var i := SourceOfEnd(g, es, defs, s, p, x, z);
      var j := SourceOfEnd(g, es, defs, s, q, y, z);
      SourcesClash(g, es, p, q, x, y, z, i, j);
      SourcesClash(g, es, q, p, y, x, z, j, i);
      DomAntisym(g, es, p[i], q[j]);
    }
  }

  // ----- The pass -----

  ghost predicate FrontiersBuilt(g: Graph, es: set<nat>, bbs: seq<BasicBlock>)
    reads bbs
  {
    Layout(g, bbs) && forall n :: 0 <= n < |bbs| ==> bbs[n].dominanceFrontier == DF(g, es, n)
  }

  ghost function PhiMaps(bbs: seq<BasicBlock>): (r: seq<map<int, seq<int>>>)
    reads bbs
    ensures |r| == |bbs| && forall n :: 0 <= n < |bbs| ==> r[n] == bbs[n].phiFuncMap
  {
    seq(|bbs|, n requires 0 <= n < |bbs| reads bbs => bbs[n].phiFuncMap)
  }

  /** The phi maps after phis of `v` were put into the blocks of `s`. */
  ghost predicate PhisPlaced(g: Graph, now: seq<map<int, seq<int>>>, was: seq<map<int, seq<int>>>, v: int, s: set<nat>) {
    && |now| == |was| == |g.pred|
    && forall n :: 0 <= n < |now| ==>
         now[n] == if n in s then was[n][v := Operands(v, |g.pred[n]|)] else was[n]
  }

  ghost function Marked(m: seq<nat>, iter: nat): set<nat> {
    set n | 0 <= n < |m| && m[n] == iter
  }

  ghost function DefSet(blocks: seq<nat>): set<nat> {
    set b | b in blocks
  }

  ghost predicate AtMost(m: seq<nat>, iter: nat) {
    forall n :: 0 <= n < |m| ==> m[n] <= iter
  }

  /** The worklist state for one variable. Blocks that left the worklist have their frontier marked. */
  ghost predicate Worklist(g: Graph, es: set<nat>, defs: set<nat>, hasAlready: seq<nat>, work: seq<nat>, w: set<nat>, iter: nat) {
    && |hasAlready| == |work| == |g.pred|
    && AtMost(hasAlready, iter) && AtMost(work, iter)
    && Marked(work, iter) == defs + Marked(hasAlready, iter)
    && w <= Marked(work, iter)
    && (forall t :: Closed(g, es, defs, t) ==> Marked(hasAlready, iter) <= t)
  }

  ghost predicate Processed(g: Graph, es: set<nat>, hasAlready: seq<nat>, iter: nat, s: set<nat>) {
    forall x :: x in s ==> DF(g, es, x) <= Marked(hasAlready, iter)
  }

  lemma {:induction false} MarkOne(m: seq<nat>, n: nat, iter: nat)
    requires n < |m| && AtMost(m, iter)
    ensures AtMost(m[n := iter], iter) && Marked(m[n := iter], iter) == Marked(m, iter) + {n}
  {
  }

  /** One worklist step: takes `x` off and handles its frontier. */
  method HandleFrontier(g: Graph, bbs: seq<BasicBlock>, v: int, x: nat, iter: nat,
                        hasAlready0: seq<nat>, work0: seq<nat>, w0: set<nat>,
                        ghost es: set<nat>, ghost defs: set<nat>, ghost was: seq<map<int, seq<int>>>)
    returns (hasAlready: seq<nat>, work: seq<nat>, w: set<nat>)
    requires g.Valid() && FrontiersBuilt(g, es, bbs) && X86_REG_LO <= v <= X86_REG_HI && 0 < iter
    requires Worklist(g, es, defs, hasAlready0, work0, w0, iter) && x in Marked(work0, iter) && x !in w0
    requires Processed(g, es, hasAlready0, iter, Marked(work0, iter) - w0 - {x})
    requires PhisPlaced(g, PhiMaps(bbs), was, v, Marked(hasAlready0, iter))
    requires forall n :: 0 <= n < |was| ==> v !in was[n]
    modifies bbs
    ensures FrontiersBuilt(g, es, bbs)
    ensures Worklist(g, es, defs, hasAlready, work, w, iter)
    ensures Processed(g, es, hasAlready, iter, Marked(work, iter) - w)
    ensures PhisPlaced(g, PhiMaps(bbs), was, v, Marked(hasAlready, iter))
    ensures Marked(work0, iter) <= Marked(work, iter)
    ensures Marked(work, iter) == Marked(work0, iter) ==> w == w0
  {
    hasAlready, work, w := hasAlready0, work0, w0;
    var rest := bbs[x].dominanceFrontier;
    while rest != {}
      invariant rest <= DF(g, es, x)
      invariant FrontiersBuilt(g, es, bbs)
      invariant Worklist(g, es, defs, hasAlready, work, w, iter)
      invariant DF(g, es, x) - rest <= Marked(hasAlready, iter)
      invariant Marked(hasAlready0, iter) <= Marked(hasAlready, iter)
      invariant Marked(work0, iter) <= Marked(work, iter)
      invariant w == w0 + (Marked(work, iter) - Marked(work0, iter))
      invariant PhisPlaced(g, PhiMaps(bbs), was, v, Marked(hasAlready, iter))
      decreases rest
    {
      var y :| y in rest;
      hasAlready, work, w := HandleMember(g, bbs, v, x, y, iter, hasAlready, work, w, es, defs, was);
      rest := rest - {y};
    }
  }

  /** One member of the frontier of `x`. */
  method HandleMember(g: Graph, bbs: seq<BasicBlock>, v: int, ghost x: nat, y: nat, iter: nat,
                      hasAlready0: seq<nat>, work0: seq<nat>, w0: set<nat>,
                      ghost es: set<nat>, ghost defs: set<nat>, ghost was: seq<map<int, seq<int>>>)
    returns (hasAlready: seq<nat>, work: seq<nat>, w: set<nat>)
    requires g.Valid() && FrontiersBuilt(g, es, bbs) && X86_REG_LO <= v <= X86_REG_HI && 0 < iter
    requires Worklist(g, es, defs, hasAlready0, work0, w0, iter)
    requires x in Marked(work0, iter) && y in DF(g, es, x)
    requires PhisPlaced(g, PhiMaps(bbs), was, v, Marked(hasAlready0, iter))
    requires forall n :: 0 <= n < |was| ==> v !in was[n]
    modifies bbs
    ensures FrontiersBuilt(g, es, bbs)
    ensures Worklist(g, es, defs, hasAlready, work, w, iter)
    ensures Marked(hasAlready, iter) == Marked(hasAlready0, iter) + {y}
    ensures Marked(work0, iter) <= Marked(work, iter)
    ensures w == w0 + (Marked(work, iter) - Marked(work0, iter))
    ensures PhisPlaced(g, PhiMaps(bbs), was, v, Marked(hasAlready, iter))
  {
    hasAlready, work, w := hasAlready0, work0, w0;
    if hasAlready[y] < iter {
      bbs[y].InsertPhiFunc(v, |g.pred[y]|);
      MarkOne(hasAlready, y, iter);
      hasAlready := hasAlready[y := iter];
      if work[y] < iter {
        MarkOne(work, y, iter);
        work := work[y := iter];
        w := w + {y};
      }
    }
    assert hasAlready[y] == iter && work[y] == iter by { assert y in Marked(hasAlready0, iter) ==> y in Marked(work0, iter); }
    PhiIsForced(g, es, defs, Marked(hasAlready0, iter), x, y);
  }

  /** The frontier of a definition or phi block is in every closed set. */
  lemma {:induction false} PhiIsForced(g: Graph, es: set<nat>, defs: set<nat>, s: set<nat>, x: nat, y: nat)
    requires x in defs + s && y in DF(g, es, x)
    requires forall t :: Closed(g, es, defs, t) ==> s <= t
    ensures forall t :: Closed(g, es, defs, t) ==> s + {y} <= t
  {
    forall t | Closed(g, es, defs, t) ensures s + {y} <= t {
      assert x in defs + t;
      assert DF(g, es, x) <= t;
    }
  }

  /** The blocks that define the variable enter the worklist. */
  method MarkDefinitions(defBlocks: seq<nat>, iter: nat, work0: seq<nat>) returns (work: seq<nat>, w: set<nat>)
    requires 0 < iter && AtMost(work0, iter - 1) && forall b :: b in defBlocks ==> b < |work0|
    ensures |work| == |work0| && AtMost(work, iter)
    ensures w == Marked(work, iter) == DefSet(defBlocks)
  {
    work, w := work0, {};
    var j := 0;
    while j < |defBlocks|
      invariant 0 <= j <= |defBlocks|
      invariant |work| == |work0| && AtMost(work, iter)
      invariant w == Marked(work, iter) == DefSet(defBlocks[..j])
    {
      assert defBlocks[j] in defBlocks && defBlocks[..j + 1] == defBlocks[..j] + [defBlocks[j]];
      MarkOne(work, defBlocks[j], iter);
      work := work[defBlocks[j] := iter];
      w := w + {defBlocks[j]};
      j := j + 1;
    }
    assert defBlocks[..j] == defBlocks;
  }

  lemma {:induction false} MarkedFits(g: Graph, es: set<nat>, defs: set<nat>, hasAlready: seq<nat>, work: seq<nat>, w: set<nat>, iter: nat)
    requires Worklist(g, es, defs, hasAlready, work, w, iter)
    ensures |Marked(work, iter)| <= |g.pred|
  {
    assert Marked(work, iter) <= Indices(|work|);
    SubsetSmaller(Marked(work, iter), Indices(|work|));
  }

  /** Taking a block off the worklist. */
  lemma {:induction false} TakeOff(g: Graph, es: set<nat>, defs: set<nat>, hasAlready: seq<nat>, work: seq<nat>, w: set<nat>, iter: nat, x: nat)
    requires Worklist(g, es, defs, hasAlready, work, w, iter) && x in w
    ensures Worklist(g, es, defs, hasAlready, work, w - {x}, iter) && x in Marked(work, iter)
    ensures Marked(work, iter) - (w - {x}) - {x} == Marked(work, iter) - w
  {
  }

  /** The worklist loop: it ends with every marked block handled. */
  method DrainWorklist(g: Graph, bbs: seq<BasicBlock>, v: int, iter: nat,
                       hasAlready0: seq<nat>, work0: seq<nat>, w0: set<nat>, ghost es: set<nat>, ghost defs: set<nat>)
    returns (hasAlready: seq<nat>, work: seq<nat>)
    requires g.Valid() && FrontiersBuilt(g, es, bbs) && X86_REG_LO <= v <= X86_REG_HI && 0 < iter
    requires Worklist(g, es, defs, hasAlready0, work0, w0, iter) && w0 == Marked(work0, iter)
    requires Marked(hasAlready0, iter) == {}
    requires forall n :: 0 <= n < |bbs| ==> v !in PhiMaps(bbs)[n]
    modifies bbs
    ensures FrontiersBuilt(g, es, bbs)
    ensures Worklist(g, es, defs, hasAlready, work, {}, iter)
    ensures Processed(g, es, hasAlready, iter, Marked(work, iter))
    ensures PhisPlaced(g, PhiMaps(bbs), old(PhiMaps(bbs)), v, Marked(hasAlready, iter))
  {
    ghost var was := PhiMaps(bbs);
    hasAlready, work := hasAlready0, work0;
    var w := w0;
    MarkedFits(g, es, defs, hasAlready, work, w, iter);
    assert Processed(g, es, hasAlready, iter, Marked(work, iter) - w) && PhisPlaced(g, was, was, v, Marked(hasAlready, iter));
    hide Processed, PhisPlaced, FrontiersBuilt, Marked, Worklist;
    while w != {}
      invariant FrontiersBuilt(g, es, bbs)
      invariant Worklist(g, es, defs, hasAlready, work, w, iter)
      invariant Processed(g, es, hasAlready, iter, Marked(work, iter) - w)
      invariant PhisPlaced(g, PhiMaps(bbs), was, v, Marked(hasAlready, iter))
      invariant |Marked(work, iter)| <= |g.pred|
      decreases |g.pred| - |Marked(work, iter)|, |w|
    {
      var x := AnyOf(w);
      ghost var marked := Marked(work, iter);
      TakeOff(g, es, defs, hasAlready, work, w, iter, x);
      hasAlready, work, w := HandleFrontier(g, bbs, v, x, iter, hasAlready, work, w - {x}, es, defs, was);
      MarkedFits(g, es, defs, hasAlready, work, w, iter);
      SubsetSmaller(marked, Marked(work, iter));
    }
    assert Marked(work, iter) - {} == Marked(work, iter);
  }

  /** The worklist loop of one variable ends with phis in exactly the least closed set. */
  method PlaceVariable(g: Graph, bbs: seq<BasicBlock>, v: int, defBlocks: seq<nat>, iter: nat,
                       hasAlready0: seq<nat>, work0: seq<nat>, ghost es: set<nat>)
    returns (hasAlready: seq<nat>, work: seq<nat>, ghost s: set<nat>)
    requires g.Valid() && FrontiersBuilt(g, es, bbs) && X86_REG_LO <= v <= X86_REG_HI && 0 < iter
    requires forall b :: b in defBlocks ==> b < |g.pred|
    requires |hasAlready0| == |work0| == |g.pred| && AtMost(hasAlready0, iter - 1) && AtMost(work0, iter - 1)
    requires forall n :: 0 <= n < |bbs| ==> v !in bbs[n].phiFuncMap
    modifies bbs
    ensures FrontiersBuilt(g, es, bbs)
    ensures |hasAlready| == |work| == |g.pred| && AtMost(hasAlready, iter) && AtMost(work, iter)
    ensures LeastClosed(g, es, DefSet(defBlocks), s)
    ensures PhisPlaced(g, PhiMaps(bbs), old(PhiMaps(bbs)), v, s)
  {
    var w;
    work, w := MarkDefinitions(defBlocks, iter, work0);
    assert Marked(hasAlready0, iter) == {};
    hasAlready, work := DrainWorklist(g, bbs, v, iter, hasAlready0, work, w, es, DefSet(defBlocks));
    s := Marked(hasAlready, iter);
  }

  /** The blocks with a phi for `v` are those of `s`, with one operand per ancestor. */
  ghost predicate PhisAre(g: Graph, m: seq<map<int, seq<int>>>, v: int, s: set<nat>)
    requires |m| == |g.pred|
  {
    forall n :: 0 <= n < |m| ==>
      if n in s
      then v in m[n] && |m[n][v]| == |g.pred[n]| && forall k :: 0 <= k < |g.pred[n]| ==> m[n][v][k] == v
      else v !in m[n]
  }

  /** What phi_func_placement leaves for one variable. */
  ghost predicate PhisExact(g: Graph, es: set<nat>, now: seq<map<int, seq<int>>>, v: int, defBlocks: seq<nat>) {
    && |now| == |g.pred|
    && exists s :: LeastClosed(g, es, DefSet(defBlocks), s) && PhisAre(g, now, v, s)
  }

  /** phi_func_placement terminates; each variable has phis in exactly the least set closed under the
      frontiers of its definitions and phis, each with one operand per ancestor, and no others. */
  method PhiFuncPlacement(g: Graph, bbs: seq<BasicBlock>, varList: map<int, seq<nat>>, ghost es: set<nat>)
    requires g.Valid() && FrontiersBuilt(g, es, bbs)
    requires forall v :: v in varList ==> X86_REG_LO <= v <= X86_REG_HI
    requires forall v, b :: v in varList && b in varList[v] ==> b < |g.pred|
    requires forall n :: 0 <= n < |bbs| ==> bbs[n].phiFuncMap == map[]
    modifies bbs
    ensures FrontiersBuilt(g, es, bbs)
    ensures forall v :: v in varList ==> PhisExact(g, es, PhiMaps(bbs), v, varList[v])
    ensures forall v, n :: v !in varList && 0 <= n < |bbs| ==> v !in bbs[n].phiFuncMap
  {
    var hasAlready, work := seq(|g.pred|, _ => 0), seq(|g.pred|, _ => 0);
    var iterCount: nat := 0;
    var rest := varList.Keys;
    while rest != {}
      invariant rest <= varList.Keys
      invariant |hasAlready| == |work| == |g.pred| && AtMost(hasAlready, iterCount) && AtMost(work, iterCount)
      invariant FrontiersBuilt(g, es, bbs) && PlacedSoFar(g, es, PhiMaps(bbs), varList, rest)
      decreases rest
    {
      var v := AnyOf(rest);
      iterCount := iterCount + 1;
      hasAlready, work := PlaceNext(g, bbs, v, varList, iterCount, hasAlready, work, es, rest);
      rest := rest - {v};
    }
  }

  /** The variables not in `rest` are finished, the others have no phi yet. */
  ghost predicate PlacedSoFar(g: Graph, es: set<nat>, m: seq<map<int, seq<int>>>, varList: map<int, seq<nat>>, rest: set<int>) {
    && (forall v :: v in varList && v !in rest ==> PhisExact(g, es, m, v, varList[v]))
    && (forall v, n :: (v !in varList || v in rest) && 0 <= n < |m| ==> v !in m[n])
  }

  method PlaceNext(g: Graph, bbs: seq<BasicBlock>, v: int, varList: map<int, seq<nat>>, iter: nat,
                   hasAlready0: seq<nat>, work0: seq<nat>, ghost es: set<nat>, ghost rest: set<int>)
    returns (hasAlready: seq<nat>, work: seq<nat>)
    requires g.Valid() && FrontiersBuilt(g, es, bbs) && v in rest && v in varList && X86_REG_LO <= v <= X86_REG_HI
    requires forall b :: b in varList[v] ==> b < |g.pred|
    requires 0 < iter && |hasAlready0| == |work0| == |g.pred| && AtMost(hasAlready0, iter - 1) && AtMost(work0, iter - 1)
    requires PlacedSoFar(g, es, PhiMaps(bbs), varList, rest)
    modifies bbs
    ensures FrontiersBuilt(g, es, bbs)
    ensures |hasAlready| == |work| == |g.pred| && AtMost(hasAlready, iter) && AtMost(work, iter)
    ensures PlacedSoFar(g, es, PhiMaps(bbs), varList, rest - {v})
  {
    ghost var was := PhiMaps(bbs);
    ghost var s;
    forall n | 0 <= n < |bbs| ensures v !in bbs[n].phiFuncMap { assert v !in was[n]; }
    hasAlready, work, s := PlaceVariable(g, bbs, v, varList[v], iter, hasAlready0, work0, es);
    PhisOfOthersKept(g, es, PhiMaps(bbs), was, v, s, varList, rest);
  }

  lemma {:induction false} PhisOfOthersKept(g: Graph, es: set<nat>, now: seq<map<int, seq<int>>>, was: seq<map<int, seq<int>>>, v: int, s: set<nat>,
                         varList: map<int, seq<nat>>, rest: set<int>)
    requires PhisPlaced(g, now, was, v, s) && v in varList && v in rest
    requires LeastClosed(g, es, DefSet(varList[v]), s) && PlacedSoFar(g, es, was, varList, rest)
    ensures PlacedSoFar(g, es, now, varList, rest - {v})
  {
    forall u | u in varList && u !in rest - {v} ensures PhisExact(g, es, now, u, varList[u]) {
      if u != v {
        assert PhisExact(g, es, was, u, varList[u]);
        var t :| LeastClosed(g, es, DefSet(varList[u]), t) && PhisAre(g, was, u, t);
        assert PhisAre(g, now, u, t);
      } else {
        assert PhisAre(g, now, v, s);
      }
    }
  }
}
