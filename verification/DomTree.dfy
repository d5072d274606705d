/** Strict and immediate dominators, the dominator tree and dominance frontiers
    (dominator.cpp, build_strict_dominators to build_dominance_frontier). */
module DomTree {
  import opened BasicBlocks
  import opened Cfg
  import opened Collections

  // ----- Immediate dominators -----

  ghost function SDoms(g: Graph, es: set<nat>): (r: seq<set<nat>>)
    ensures |r| == |g.pred| && forall n :: 0 <= n < |g.pred| ==> r[n] == SDom(g, es, n)
  {
    seq(|g.pred|, n requires 0 <= n < |g.pred| => SDom(g, es, n))
  }

  lemma {:induction false} SDomInRange(g: Graph, es: set<nat>, n: nat)
    requires n < |g.pred|
    ensures forall d :: d in SDom(g, es, n) ==> d < |g.pred|
  {
  }

  /** The parents that buildImmediateDominators leaves. */
  ghost function Parents(g: Graph, es: set<nat>, n: nat): (r: set<nat>)
    requires n < |g.pred|
  {
    SDomInRange(g, es, n);
    Closest(SDom(g, es, n), SDoms(g, es))
  }

  /** Among some dominators of a block, one is dominated by all of them. */
  lemma {:induction false} Deepest(g: Graph, es: set<nat>, n: nat, s: set<nat>) returns (d: nat)
    requires n < |g.pred| && Reachable(g, es, n) && s <= Dom(g, es, n) && s != {}
    ensures d in s && d < |g.pred| && forall c :: c in s ==> c in Dom(g, es, d)
    decreases s
  {
    var x :| x in s;
    if s == {x} {
      d := x;
    } else {
      d := Deepest(g, es, n, s - {x});
      DomChain(g, es, x, d, n);
      if x !in Dom(g, es, d) {
        forall c | c in s - {x} ensures c in Dom(g, es, x) {
          DomTrans(g, es, c, d, x);
        }
        d := x;
      }
    }
  }

  /** Strict dominators form a chain, so a block that has any has exactly one parent. */
  lemma {:induction false} OneParent(g: Graph, es: set<nat>, n: nat)
    requires n < |g.pred| && SDom(g, es, n) != {}
    ensures exists d :: Parents(g, es, n) == {d}
  {
    var x :| x in SDom(g, es, n);
    DomReachable(g, es, x, n);
    var d := Deepest(g, es, n, SDom(g, es, n));
    forall c | c in SDom(g, es, n) && c != d ensures c in SDoms(g, es)[d] { }
    assert d in Parents(g, es, n);
    forall y | y in Parents(g, es, n) ensures y == d {
      if y != d { DomAntisym(g, es, y, d); }
    }
    assert Parents(g, es, n) == {d};
  }

  /** Entries and blocks that no entry reaches have no strict dominator, and a block without strict
      dominators has no parent. With one entry there are no others. */
  lemma {:induction false} NoParent(g: Graph, es: set<nat>, n: nat)
    requires n < |g.pred|
    ensures n in es || !Reachable(g, es, n) ==> SDom(g, es, n) == {}
    ensures SDom(g, es, n) == {} ==> Parents(g, es, n) == {}
    ensures (exists e :: e < |g.pred| && es == {e}) && SDom(g, es, n) == {} ==> n in es || !Reachable(g, es, n)
  {
    if n in es { EntryOnly(g, es, n); }
    if e :| e < |g.pred| && es == {e} && n != e && Reachable(g, es, n) {
      EntryDominates(g, e, n);
      assert e in SDom(g, es, n);
    }
  }

  ghost function Children(g: Graph, es: set<nat>, x: nat): set<nat> {
    set c | 0 <= c < |g.pred| && x in Parents(g, es, c)
  }

  /** A child has strictly more dominators than its parent, so the child links have no cycle. */
  lemma {:induction false} ChildIsDeeper(g: Graph, es: set<nat>, x: nat, c: nat)
    requires c in Children(g, es, x) && x < |g.pred|
    ensures c != x && x in Dom(g, es, c) && c !in Dom(g, es, x) && Dom(g, es, x) < Dom(g, es, c)
    ensures |Dom(g, es, x)| < |Dom(g, es, c)| <= |g.pred|
  {
    assert x in Parents(g, es, c) && x in SDom(g, es, c);
    forall d | d in Dom(g, es, x) ensures d in Dom(g, es, c) { DomTrans(g, es, d, x, c); }
    if c in Dom(g, es, x) { DomAntisym(g, es, c, x); }
    SubsetSmaller(Dom(g, es, x), Dom(g, es, c));
    DomRefl(g, es, c);
    forall d | d in Dom(g, es, c) ensures d in Indices(|g.pred|) { DomReachable(g, es, d, c); }
    SubsetSmaller(Dom(g, es, c), Indices(|g.pred|));
  }

  /** Below a strict dominator there is a child of it on the way down. */
  lemma {:induction false} ChildTowards(g: Graph, es: set<nat>, x: nat, p: nat) returns (c: nat)
    requires g.Valid() && p < |g.pred| && x in SDom(g, es, p)
    ensures c in Children(g, es, x) && c in Dom(g, es, p)
    decreases |Dom(g, es, p)|
  {
    DomReachable(g, es, x, p);
    OneParent(g, es, p);
    var d :| Parents(g, es, p) == {d};
    assert d in Parents(g, es, p);
    assert d in SDom(g, es, p) && IsClosest(SDom(g, es, p), SDoms(g, es), d);
    if d == x {
      c := p;
      DomRefl(g, es, p);
    } else {
      assert x in SDoms(g, es)[d];
      assert p in Children(g, es, d);
      ChildIsDeeper(g, es, d, p);
      c := ChildTowards(g, es, x, d);
      DomTrans(g, es, c, d, p);
    }
  }

  // ----- Dominance frontiers -----

  /** `x` dominates an ancestor of `y` and does not strictly dominate `y`. */
  ghost predicate InDF(g: Graph, es: set<nat>, x: nat, y: nat) {
    && y < |g.pred|
    && (exists p :: Edge(g, p, y) && x in Dom(g, es, p))
    && x !in SDom(g, es, y)
  }

  ghost function DF(g: Graph, es: set<nat>, x: nat): set<nat> {
    set y | 0 <= y < |g.pred| && InDF(g, es, x, y)
  }

  /** The part of the frontier that comes through one child. */
  ghost function Up(g: Graph, es: set<nat>, x: nat, c: nat): set<nat> {
    set y | y in DF(g, es, c) && x !in SDom(g, es, y)
  }

  ghost function Local(g: Graph, es: set<nat>, x: nat): set<nat>
  {
    set y | 0 <= y < |g.pred| && Edge(g, x, y) && x !in SDom(g, es, y)
  }

  /** The frontier is its local part and what comes up through the children. */
  lemma {:induction false} FrontierSplits(g: Graph, es: set<nat>, x: nat, y: nat)
    requires g.Valid() && x < |g.pred|
    ensures y in DF(g, es, x) <==>
            y in Local(g, es, x) || exists c :: c in Children(g, es, x) && y in Up(g, es, x, c)
  {
    if y in DF(g, es, x) && y !in Local(g, es, x) {
      var p :| Edge(g, p, y) && x in Dom(g, es, p);
      var c := ChildTowards(g, es, x, p);
      if c in SDom(g, es, y) {
        ChildIsDeeper(g, es, x, c);
        DomTrans(g, es, x, c, y);
        if x == y { DomAntisym(g, es, c, y); }
      }
      assert InDF(g, es, c, y);
      assert y in Up(g, es, x, c);
    }
    if y in Local(g, es, x) { DomRefl(g, es, x); }
    if c :| c in Children(g, es, x) && y in Up(g, es, x, c) {
      var p :| Edge(g, p, y) && c in Dom(g, es, p);
      ChildIsDeeper(g, es, x, c);
      DomTrans(g, es, x, c, p);
    }
  }

  // ----- The passes -----

  /** The fields that the frontier pass reads. */
  ghost predicate TreeBuilt(g: Graph, es: set<nat>, bbs: seq<BasicBlock>)
    reads bbs
  {
    && Layout(g, bbs)
    && forall n :: 0 <= n < |bbs| ==> bbs[n].sDominatorMap == SDom(g, es, n) && bbs[n].childrenMap == Children(g, es, n)
  }

  /** build_strict_dominators, build_idom and build_dominator_tree. */
  method BuildDominatorTree(g: Graph, bbs: seq<BasicBlock>, ghost es: set<nat>)
    requires g.Valid() && Layout(g, bbs)
    requires forall n :: 0 <= n < |bbs| ==> bbs[n].dominatorMap == Dom(g, es, n)
    requires forall b :: b in bbs ==> b.sDominatorMap == {} && b.parentsMap == {} && b.childrenMap == {}
    modifies bbs
    ensures TreeBuilt(g, es, bbs)
    ensures forall n :: 0 <= n < |bbs| ==> bbs[n].parentsMap == Parents(g, es, n)
    ensures forall n :: 0 <= n < |bbs| ==> bbs[n].visited == old(bbs[n].visited)
  {
    BuildStrictDominators(g, bbs, es);
    BuildIdom(g, bbs, es);
    LinkChildren(g, bbs, es);
  }

  method BuildStrictDominators(g: Graph, bbs: seq<BasicBlock>, ghost es: set<nat>)
    requires Layout(g, bbs)
    requires forall n :: 0 <= n < |bbs| ==> bbs[n].dominatorMap == Dom(g, es, n)
    requires forall b :: b in bbs ==> b.sDominatorMap == {} && b.parentsMap == {} && b.childrenMap == {}
    modifies bbs
    ensures SDomsOf(bbs) == SDoms(g, es)
    ensures forall b :: b in bbs ==> b.parentsMap == {} && b.childrenMap == {} && b.visited == old(b.visited)
  {
    var i := 0;
    while i < |bbs|
      invariant 0 <= i <= |bbs|
      invariant forall n :: 0 <= n < |bbs| ==>
                  bbs[n].dominatorMap == Dom(g, es, n) && bbs[n].parentsMap == {} && bbs[n].childrenMap == {}
      invariant forall n :: 0 <= n < |bbs| ==> bbs[n].visited == old(bbs[n].visited)
      invariant forall n :: 0 <= n < |bbs| ==> bbs[n].sDominatorMap == if n < i then SDom(g, es, n) else {}
    {
      bbs[i].BuildSDominators(i);
      i := i + 1;
    }
  }

  method BuildIdom(g: Graph, bbs: seq<BasicBlock>, ghost es: set<nat>)
    requires Layout(g, bbs) && SDomsOf(bbs) == SDoms(g, es)
    requires forall b :: b in bbs ==> b.parentsMap == {} && b.childrenMap == {}
    modifies bbs
    ensures SDomsOf(bbs) == SDoms(g, es)
    ensures forall n :: 0 <= n < |bbs| ==> bbs[n].childrenMap == {} && bbs[n].visited == old(bbs[n].visited)
    ensures forall n :: 0 <= n < |bbs| ==> bbs[n].parentsMap == Parents(g, es, n)
  {
    var i := 0;
    while i < |bbs|
      invariant 0 <= i <= |bbs|
      invariant SDomsOf(bbs) == SDoms(g, es)
      invariant forall n :: 0 <= n < |bbs| ==> bbs[n].childrenMap == {} && bbs[n].visited == old(bbs[n].visited)
      invariant forall n :: 0 <= n < |bbs| ==> bbs[n].parentsMap == if n < i then Parents(g, es, n) else {}
    {
      assert bbs[i].sDominatorMap == SDomsOf(bbs)[i];
      SDomInRange(g, es, i);
      bbs[i].BuildImmediateDominators(bbs);
      i := i + 1;
    }
  }

  /** buildDomTree of every block: each block enters itself with its parents. */
  method LinkChildren(g: Graph, bbs: seq<BasicBlock>, ghost es: set<nat>)
    requires Layout(g, bbs) && SDomsOf(bbs) == SDoms(g, es)
    requires forall n :: 0 <= n < |bbs| ==> bbs[n].childrenMap == {} && bbs[n].parentsMap == Parents(g, es, n)
    modifies bbs
    ensures TreeBuilt(g, es, bbs)
    ensures forall n :: 0 <= n < |bbs| ==> bbs[n].parentsMap == old(bbs[n].parentsMap)
    ensures forall n :: 0 <= n < |bbs| ==> bbs[n].visited == old(bbs[n].visited)
  {
    var i := 0;
    while i < |bbs|
      invariant 0 <= i <= |bbs|
      invariant forall n :: 0 <= n < |bbs| ==>
                  && bbs[n].sDominatorMap == old(bbs[n].sDominatorMap)
                  && bbs[n].parentsMap == old(bbs[n].parentsMap) && bbs[n].visited == old(bbs[n].visited)
      invariant forall n :: 0 <= n < |bbs| ==> bbs[n].childrenMap == set c | c in Children(g, es, n) && c < i
    {
      BuildDomTree(g, bbs, i, es);
      i := i + 1;
    }
    forall n | 0 <= n < |bbs|
      ensures bbs[n].sDominatorMap == SDom(g, es, n) && bbs[n].childrenMap == Children(g, es, n)
    {
      assert bbs[n].sDominatorMap == old(SDomsOf(bbs))[n];
    }
  }

  /** Block `i` enters itself with its parents. */
  method BuildDomTree(g: Graph, bbs: seq<BasicBlock>, i: nat, ghost es: set<nat>)
    requires Layout(g, bbs) && i < |bbs| && bbs[i].parentsMap == Parents(g, es, i)
    requires forall n :: 0 <= n < |bbs| ==> bbs[n].childrenMap == set c | c in Children(g, es, n) && c < i
    modifies bbs
    ensures forall n :: 0 <= n < |bbs| ==> bbs[n].childrenMap == set c | c in Children(g, es, n) && c < i + 1
    ensures forall n :: 0 <= n < |bbs| ==>
              && bbs[n].sDominatorMap == old(bbs[n].sDominatorMap)
              && bbs[n].parentsMap == old(bbs[n].parentsMap) && bbs[n].visited == old(bbs[n].visited)
  {
    SDomInRange(g, es, i);
    var rest := bbs[i].parentsMap;
    while rest != {}
      invariant rest <= Parents(g, es, i)
      invariant forall n :: 0 <= n < |bbs| ==>
                  && bbs[n].sDominatorMap == old(bbs[n].sDominatorMap)
                  && bbs[n].parentsMap == old(bbs[n].parentsMap) && bbs[n].visited == old(bbs[n].visited)
      invariant forall n :: 0 <= n < |bbs| ==>
                  bbs[n].childrenMap == set c | c in Children(g, es, n) && (c < i || (c == i && n !in rest))
      decreases rest
    {
      var myIdom := AnyOf(rest);
      bbs[myIdom].AddChild(i);
      rest := rest - {myIdom};
    }
  }

  /** The blocks below `x` in the dominator tree, `x` included. */
  ghost function Subtree(g: Graph, es: set<nat>, x: nat): set<nat> {
    set z | 0 <= z < |g.pred| && x in Dom(g, es, z)
  }

  /** Two children of one block share no descendant. */
  lemma {:induction false} SiblingsDisjoint(g: Graph, es: set<nat>, x: nat, c1: nat, c2: nat, z: nat)
    requires g.Valid() && x < |g.pred|
    requires c1 in Children(g, es, x) && c2 in Children(g, es, x)
    requires z in Subtree(g, es, c1) && z in Subtree(g, es, c2)
    ensures c1 == c2
  {
    if c1 != c2 {
      ChildIsDeeper(g, es, x, c1);
      ChildIsDeeper(g, es, x, c2);
      DomReachable(g, es, c1, z);
      DomReachable(g, es, c2, z);
      DomChain(g, es, c1, c2, z);
      if c1 in Dom(g, es, c2) { NoChildBetween(g, es, x, c1, c2); } else { NoChildBetween(g, es, x, c2, c1); }
    }
  }

  /** A child of `x` has no other child of `x` above it: that one would be closer than `x`. */
  lemma {:induction false} NoChildBetween(g: Graph, es: set<nat>, x: nat, c1: nat, c2: nat)
    requires x < |g.pred| && c1 in Children(g, es, x) && c2 in Children(g, es, x) && c1 in Dom(g, es, c2)
    ensures c1 == c2
  {
    ChildIsDeeper(g, es, x, c1);
    assert x in Parents(g, es, c2) && IsClosest(SDom(g, es, c2), SDoms(g, es), x);
    assert c1 !in SDoms(g, es)[x];
  }

  lemma {:induction false} SubtreeOfChild(g: Graph, es: set<nat>, x: nat, c: nat)
    requires g.Valid() && x < |g.pred| && c in Children(g, es, x)
    ensures Subtree(g, es, c) <= Subtree(g, es, x) && x !in Subtree(g, es, c)
  {
    ChildIsDeeper(g, es, x, c);
    forall z: nat | z in Subtree(g, es, c) ensures z in Subtree(g, es, x) { DomTrans(g, es, x, c, z); }
  }

  /** The two fields that the frontier pass writes. */
  datatype Mark = Mark(visited: bool, frontier: set<nat>)

  ghost function Marks(bbs: seq<BasicBlock>): (r: seq<Mark>)
    reads bbs
    ensures |r| == |bbs|
    ensures forall z :: 0 <= z < |bbs| ==> r[z] == Mark(bbs[z].visited, bbs[z].dominanceFrontier)
  {
    seq(|bbs|, z requires 0 <= z < |bbs| reads bbs => Mark(bbs[z].visited, bbs[z].dominanceFrontier))
  }

  ghost predicate Done(g: Graph, es: set<nat>, m: seq<Mark>, s: set<nat>) {
    forall z :: z in s && z < |m| ==> m[z] == Mark(true, DF(g, es, z))
  }

  ghost predicate Unvisited(m: seq<Mark>, s: set<nat>) {
    forall z :: z in s && z < |m| ==> !m[z].visited
  }

  ghost predicate SameOutside(m: seq<Mark>, was: seq<Mark>, s: set<nat>) {
    |m| == |was| && forall z :: 0 <= z < |m| && z !in s ==> m[z] == was[z]
  }

  ghost predicate ChildrenDone(g: Graph, es: set<nat>, m: seq<Mark>, cs: set<nat>) {
    forall c :: c in cs ==> Done(g, es, m, Subtree(g, es, c))
  }

  ghost predicate ChildrenUnvisited(g: Graph, es: set<nat>, m: seq<Mark>, cs: set<nat>) {
    forall c :: c in cs ==> Unvisited(m, Subtree(g, es, c))
  }

  /** A recursive visit of one child leaves the subtrees of its siblings alone. */
  lemma {:induction false} ChildVisited(g: Graph, es: set<nat>, m: seq<Mark>, before: seq<Mark>, x: nat, c: nat, rest: set<nat>, done: set<nat>)
    requires g.Valid() && x < |g.pred| && |m| == |g.pred|
    requires rest + done == Children(g, es, x) && rest !! done && c in rest
    requires ChildrenDone(g, es, before, done) && ChildrenUnvisited(g, es, before, rest)
    requires Done(g, es, m, Subtree(g, es, c)) && SameOutside(m, before, Subtree(g, es, c))
    ensures ChildrenDone(g, es, m, done + {c}) && ChildrenUnvisited(g, es, m, rest - {c})
  {
    forall d | d in done ensures Done(g, es, m, Subtree(g, es, d)) {
      assert Done(g, es, before, Subtree(g, es, d));
      forall z: nat | z in Subtree(g, es, d) ensures m[z] == before[z] {
        if z in Subtree(g, es, c) { SiblingsDisjoint(g, es, x, c, d, z); }
      }
    }
    forall d | d in rest - {c} ensures Unvisited(m, Subtree(g, es, d)) {
      assert Unvisited(before, Subtree(g, es, d));
      forall z: nat | z in Subtree(g, es, d) ensures m[z] == before[z] {
        if z in Subtree(g, es, c) { SiblingsDisjoint(g, es, x, c, d, z); }
      }
    }
  }

  /** Writing the fields of `x` touches no subtree of a child of `x`. */
  lemma {:induction false} RootWritten(g: Graph, es: set<nat>, m: seq<Mark>, before: seq<Mark>, x: nat, rest: set<nat>, done: set<nat>)
    requires g.Valid() && x < |g.pred| && rest + done <= Children(g, es, x)
    requires SameOutside(m, before, {x})
    requires ChildrenDone(g, es, before, done) && ChildrenUnvisited(g, es, before, rest)
    ensures ChildrenDone(g, es, m, done) && ChildrenUnvisited(g, es, m, rest)
  {
    forall c | c in rest + done ensures x !in Subtree(g, es, c) { SubtreeOfChild(g, es, x, c); }
    forall d | d in done ensures Done(g, es, m, Subtree(g, es, d)) {
      assert Done(g, es, before, Subtree(g, es, d)) && d in rest + done;
      forall z: nat | z in Subtree(g, es, d) && z < |m| ensures m[z] == Mark(true, DF(g, es, z)) {
        assert m[z] == before[z];
      }
    }
    forall d | d in rest ensures Unvisited(m, Subtree(g, es, d)) {
      assert Unvisited(before, Subtree(g, es, d)) && d in rest + done;
      forall z: nat | z in Subtree(g, es, d) && z < |m| ensures !m[z].visited {
        assert m[z] == before[z];
      }
    }
  }

  lemma {:induction false} SubtreeUnvisited(g: Graph, es: set<nat>, m: seq<Mark>, x: nat)
    requires g.Valid() && x < |g.pred| && Unvisited(m, Subtree(g, es, x))
    ensures ChildrenUnvisited(g, es, m, Children(g, es, x))
  {
    forall c | c in Children(g, es, x) ensures Unvisited(m, Subtree(g, es, c)) {
      SubtreeOfChild(g, es, x, c);
    }
  }

  /** A subtree is its root and the subtrees of the children of the root. */
  lemma {:induction false} SubtreeDone(g: Graph, es: set<nat>, m: seq<Mark>, x: nat)
    requires g.Valid() && x < |g.pred| && |m| == |g.pred|
    requires m[x] == Mark(true, DF(g, es, x)) && ChildrenDone(g, es, m, Children(g, es, x))
    ensures Done(g, es, m, Subtree(g, es, x))
  {
    forall z: nat | z in Subtree(g, es, x) ensures m[z] == Mark(true, DF(g, es, z)) {
      if z != x {
        var c := ChildTowards(g, es, x, z);
        assert Done(g, es, m, Subtree(g, es, c)) && z in Subtree(g, es, c);
      }
    }
  }

  lemma {:induction false} FrontierComplete(g: Graph, es: set<nat>, x: nat, df: set<nat>)
    requires g.Valid() && x < |g.pred|
    requires forall y :: y in df <==>
               y in Local(g, es, x) || exists c :: c in Children(g, es, x) && y in Up(g, es, x, c)
    ensures df == DF(g, es, x)
  {
    forall y ensures y in df <==> y in DF(g, es, x) { FrontierSplits(g, es, x, y); }
  }

  /** Adds those members of a child's frontier that `x` does not strictly dominate. */
  method AddChildFrontier(g: Graph, bbs: seq<BasicBlock>, x: nat, c: nat, ghost es: set<nat>)
    requires TreeBuilt(g, es, bbs) && x < |bbs| && c < |bbs| && c != x
    requires bbs[c].dominanceFrontier == DF(g, es, c)
    modifies bbs[x]
    ensures TreeBuilt(g, es, bbs) && bbs[x].visited == old(bbs[x].visited)
    ensures bbs[x].dominanceFrontier == old(bbs[x].dominanceFrontier) + Up(g, es, x, c)
  {
    var rest := bbs[c].dominanceFrontier;
    ghost var start := bbs[x].dominanceFrontier;
    while rest != {}
      invariant rest <= DF(g, es, c)
      invariant TreeBuilt(g, es, bbs) && bbs[x].visited == old(bbs[x].visited)
      invariant bbs[x].dominanceFrontier == start + (Up(g, es, x, c) - rest)
      decreases rest
    {
      var u :| u in rest;
      if !bbs[u].IsASDominator(x) { bbs[x].AddToDFset(u); }
      rest := rest - {u};
    }
  }

  /** Adds the descendants in the graph that `x` does not strictly dominate. */
  method AddDescendents(g: Graph, bbs: seq<BasicBlock>, x: nat, ghost es: set<nat>)
    requires g.Valid() && TreeBuilt(g, es, bbs) && x < |bbs|
    modifies bbs[x]
    ensures TreeBuilt(g, es, bbs) && bbs[x].visited == old(bbs[x].visited)
    ensures bbs[x].dominanceFrontier == old(bbs[x].dominanceFrontier) + Local(g, es, x)
  {
    var i := 0;
    while i < |g.succ[x]|
      invariant 0 <= i <= |g.succ[x]|
      invariant TreeBuilt(g, es, bbs) && bbs[x].visited == old(bbs[x].visited)
      invariant forall y :: y in bbs[x].dominanceFrontier <==>
                  y in old(bbs[x].dominanceFrontier) || (y in Local(g, es, x) && y in g.succ[x][..i])
    {
      var descendent := g.succ[x][i];
      assert descendent in g.succ[x] && Edge(g, x, descendent);
      if !bbs[descendent].IsASDominator(x) { bbs[x].AddToDFset(descendent); }
      i := i + 1;
    }
  }

  /** findDF visits the subtree of `x` once, never meets a visited block, and computes the frontiers. */
  method FindDF(g: Graph, bbs: seq<BasicBlock>, x: nat, ghost es: set<nat>)
    requires g.Valid() && TreeBuilt(g, es, bbs) && x < |bbs|
    requires Unvisited(Marks(bbs), Subtree(g, es, x))
    modifies bbs
    ensures TreeBuilt(g, es, bbs)
    ensures Done(g, es, Marks(bbs), Subtree(g, es, x))
    ensures SameOutside(Marks(bbs), old(Marks(bbs)), Subtree(g, es, x))
    decreases |g.pred| - |Dom(g, es, x)|, 2
  {
    hide Done, ChildrenDone, ChildrenUnvisited, Unvisited, DF, Up, Local;
    ghost var was := Marks(bbs);
    DomRefl(g, es, x);
    bbs[x].visited := true;
    bbs[x].dominanceFrontier := {};
    SubtreeUnvisited(g, es, was, x);
    RootWritten(g, es, Marks(bbs), was, x, Children(g, es, x), {});
    VisitChildren(g, bbs, x, es, was);
    ghost var before := Marks(bbs);
    AddDescendents(g, bbs, x, es);
    RootWritten(g, es, Marks(bbs), before, x, {}, Children(g, es, x));
    FrontierComplete(g, es, x, bbs[x].dominanceFrontier);
    SubtreeDone(g, es, Marks(bbs), x);
  }

  /** The loop over the children of `x`. */
  method VisitChildren(g: Graph, bbs: seq<BasicBlock>, x: nat, ghost es: set<nat>, ghost was: seq<Mark>)
    requires g.Valid() && TreeBuilt(g, es, bbs) && x < |bbs|
    requires bbs[x].visited && bbs[x].dominanceFrontier == {}
    requires ChildrenDone(g, es, Marks(bbs), {}) && ChildrenUnvisited(g, es, Marks(bbs), Children(g, es, x))
    requires SameOutside(Marks(bbs), was, Subtree(g, es, x))
    modifies bbs
    ensures TreeBuilt(g, es, bbs) && bbs[x].visited
    ensures forall y :: y in bbs[x].dominanceFrontier <==> exists c :: c in Children(g, es, x) && y in Up(g, es, x, c)
    ensures ChildrenDone(g, es, Marks(bbs), Children(g, es, x))
    ensures SameOutside(Marks(bbs), was, Subtree(g, es, x))
    decreases |g.pred| - |Dom(g, es, x)|, 1
  {
    hide Done, ChildrenDone, ChildrenUnvisited, Unvisited, DF, Up, SameOutside, Subtree;
    var rest := bbs[x].childrenMap;
    ghost var done: set<nat> := {};
    while rest != {}
      invariant TreeBuilt(g, es, bbs)
      invariant rest + done == Children(g, es, x) && rest !! done
      invariant bbs[x].visited
      invariant forall y :: y in bbs[x].dominanceFrontier <==> exists c :: c in done && y in Up(g, es, x, c)
      invariant ChildrenDone(g, es, Marks(bbs), done) && ChildrenUnvisited(g, es, Marks(bbs), rest)
      invariant SameOutside(Marks(bbs), was, Subtree(g, es, x))
      decreases rest
    {
      var c :| c in rest;
      done := VisitChild(g, bbs, x, c, es, rest, done, was);
      rest := rest - {c};
    }
    assert done == Children(g, es, x);
  }

  /** One turn of the loop over the children. */
  method VisitChild(g: Graph, bbs: seq<BasicBlock>, x: nat, c: nat, ghost es: set<nat>,
                    ghost rest: set<nat>, ghost done: set<nat>, ghost was: seq<Mark>)
    returns (ghost done': set<nat>)
    requires g.Valid() && TreeBuilt(g, es, bbs) && x < |bbs|
    requires rest + done == Children(g, es, x) && rest !! done && c in rest && bbs[x].visited
    requires ChildrenDone(g, es, Marks(bbs), done) && ChildrenUnvisited(g, es, Marks(bbs), rest)
    requires SameOutside(Marks(bbs), was, Subtree(g, es, x))
    modifies bbs
    ensures TreeBuilt(g, es, bbs) && done' == done + {c} && bbs[x].visited
    ensures bbs[x].dominanceFrontier == old(bbs[x].dominanceFrontier) + Up(g, es, x, c)
    ensures ChildrenDone(g, es, Marks(bbs), done') && ChildrenUnvisited(g, es, Marks(bbs), rest - {c})
    ensures SameOutside(Marks(bbs), was, Subtree(g, es, x))
    decreases |g.pred| - |Dom(g, es, x)|, 0
  {
    ghost var before := Marks(bbs);
    ChildIsDeeper(g, es, x, c);
    SubtreeOfChild(g, es, x, c);
    DomRefl(g, es, x);
    FindDF(g, bbs, c, es);
    ghost var after := Marks(bbs);
    ChildVisited(g, es, after, before, x, c, rest, done);
    DomRefl(g, es, c);
    assert c in Subtree(g, es, c) && after[c].frontier == DF(g, es, c);
    done' := done + {c};
    AddChildFrontier(g, bbs, x, c, es);
    RootWritten(g, es, Marks(bbs), after, x, rest - {c}, done');
  }

  /** Every block lies below exactly one block without strict dominators. */
  lemma {:induction false} RootOf(g: Graph, es: set<nat>, n: nat) returns (r: nat)
    requires n < |g.pred|
    ensures r < |g.pred| && SDom(g, es, r) == {} && n in Subtree(g, es, r)
    decreases |Dom(g, es, n)|
  {
    if SDom(g, es, n) == {} {
      r := n;
      DomRefl(g, es, n);
    } else {
      OneParent(g, es, n);
      var d :| Parents(g, es, n) == {d};
      SDomInRange(g, es, n);
      assert d in Parents(g, es, n) && d in SDom(g, es, n) && n in Children(g, es, d);
      ChildIsDeeper(g, es, d, n);
      r := RootOf(g, es, d);
      DomTrans(g, es, r, d, n);
    }
  }

  lemma {:induction false} RootsDisjoint(g: Graph, es: set<nat>, r1: nat, r2: nat, z: nat)
    requires g.Valid() && r1 < |g.pred| && r2 < |g.pred|
    requires SDom(g, es, r1) == {} && SDom(g, es, r2) == {}
    requires z in Subtree(g, es, r1) && z in Subtree(g, es, r2)
    ensures r1 == r2
  {
    DomReachable(g, es, r1, z);
    DomReachable(g, es, r2, z);
    if Reachable(g, es, z) {
      DomChain(g, es, r1, r2, z);
    }
  }

  method UnmarkAll(g: Graph, bbs: seq<BasicBlock>, ghost es: set<nat>)
    requires TreeBuilt(g, es, bbs)
    modifies bbs
    ensures TreeBuilt(g, es, bbs)
    ensures forall n :: 0 <= n < |bbs| ==> Marks(bbs)[n] == Mark(false, old(Marks(bbs))[n].frontier)
  {
    var i := 0;
    while i < |bbs|
      invariant 0 <= i <= |bbs| && TreeBuilt(g, es, bbs)
      invariant forall n :: 0 <= n < |bbs| ==> bbs[n].dominanceFrontier == old(bbs[n].dominanceFrontier)
      invariant forall n :: 0 <= n < i ==> !bbs[n].visited
    {
      bbs[i].visited := false;
      i := i + 1;
    }
  }

  /** The roots below `i` are finished, the others untouched. */
  ghost predicate RootsDone(g: Graph, es: set<nat>, m: seq<Mark>, i: nat)
    requires |m| == |g.pred|
  {
    forall r :: 0 <= r < |m| && SDom(g, es, r) == {} ==>
      if r < i then Done(g, es, m, Subtree(g, es, r)) else Unvisited(m, Subtree(g, es, r))
  }

  lemma {:induction false} RootVisited(g: Graph, es: set<nat>, m: seq<Mark>, before: seq<Mark>, i: nat)
    requires g.Valid() && |m| == |before| == |g.pred| && i < |g.pred|
    requires RootsDone(g, es, before, i)
    requires if SDom(g, es, i) == {}
             then Done(g, es, m, Subtree(g, es, i)) && SameOutside(m, before, Subtree(g, es, i))
             else m == before
    ensures RootsDone(g, es, m, i + 1)
  {
    forall r | 0 <= r < |m| && SDom(g, es, r) == {} && r != i
      ensures if r < i then Done(g, es, m, Subtree(g, es, r)) else Unvisited(m, Subtree(g, es, r))
    {
      forall z: nat | z in Subtree(g, es, r) ensures m[z] == before[z] {
        if SDom(g, es, i) == {} && z in Subtree(g, es, i) { RootsDisjoint(g, es, r, i, z); }
      }
    }
  }

  lemma {:induction false} AllDone(g: Graph, es: set<nat>, m: seq<Mark>)
    requires g.Valid() && |m| == |g.pred| && RootsDone(g, es, m, |m|)
    ensures forall n :: 0 <= n < |m| ==> m[n] == Mark(true, DF(g, es, n))
  {
    forall n | 0 <= n < |m| ensures m[n] == Mark(true, DF(g, es, n)) {
      var r := RootOf(g, es, n);
      assert Done(g, es, m, Subtree(g, es, r)) && n in Subtree(g, es, r);
    }
  }

  /** build_dominance_frontier: one findDF per block without strict dominators. Every block is visited
      exactly once, holds its frontier at the end, and is unmarked again. */
  method BuildDominanceFrontier(g: Graph, bbs: seq<BasicBlock>, ghost es: set<nat>)
    requires g.Valid() && TreeBuilt(g, es, bbs)
    modifies bbs
    ensures TreeBuilt(g, es, bbs)
    ensures forall n :: 0 <= n < |bbs| ==> bbs[n].dominanceFrontier == DF(g, es, n) && !bbs[n].visited
  {
    UnmarkAll(g, bbs, es);
    var i := 0;
    while i < |bbs|
      invariant 0 <= i <= |bbs| && TreeBuilt(g, es, bbs)
      invariant RootsDone(g, es, Marks(bbs), i)
    {
      ghost var before := Marks(bbs);
      if bbs[i].sDominatorMap == {} {
        FindDF(g, bbs, i, es);
      }
      RootVisited(g, es, Marks(bbs), before, i);
      i := i + 1;
    }
    AllDone(g, es, Marks(bbs));
    ghost var final := Marks(bbs);
    UnmarkAll(g, bbs, es);
    forall n | 0 <= n < |bbs| ensures bbs[n].dominanceFrontier == DF(g, es, n) && !bbs[n].visited {
      assert Marks(bbs)[n] == Mark(false, final[n].frontier);
    }
  }
}
