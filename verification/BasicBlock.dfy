/** The dominance part of a basic block (basicblock.cpp). */
module BasicBlocks {
  import opened Cfg
  import opened Collections

  /** The dominance fields of a basic block. The maps of the source go from block address to
      block, so they are sets of blocks here. */
  class BasicBlock {
    var dominatorMap: set<nat>
    var domSetIsAll: bool
    var entryPoint: bool
    var sDominatorMap: set<nat>
    var parentsMap: set<nat>
    var childrenMap: set<nat>
    var dominanceFrontier: set<nat>
    var visited: bool
    var phiFuncMap: map<int, seq<int>>

    constructor ()
      ensures dominatorMap == {} && !domSetIsAll && !entryPoint && sDominatorMap == {}
      ensures parentsMap == {} && childrenMap == {} && dominanceFrontier == {} && !visited
      ensures phiFuncMap == map[]
    {
      dominatorMap, sDominatorMap, parentsMap, childrenMap, dominanceFrontier := {}, {}, {}, {}, {};
      domSetIsAll, entryPoint, visited, phiFuncMap := false, false, false, map[];
    }

    /** Adds the block to its own dominators; reports whether it was missing. */
    method SetDominators(id: nat) returns (change: bool)
      modifies this`dominatorMap
      ensures dominatorMap == old(dominatorMap) + {id}
      ensures change <==> dominatorMap != old(dominatorMap)
    {
      change := id !in dominatorMap;
      if change { dominatorMap := dominatorMap + {id}; }
    }

    /** Replaces the dominators; the change test compares sizes first, then looks for a new member. */
    method SetDominatorsTo(id: nat, intersection: set<nat>) returns (change: bool)
      modifies this`dominatorMap
      ensures dominatorMap == intersection + {id}
      ensures change <==> dominatorMap != old(dominatorMap)
    {
      var oldMap := dominatorMap;
      dominatorMap := intersection;
      if id !in dominatorMap { dominatorMap := dominatorMap + {id}; }
      if |oldMap| != |dominatorMap| {
        change := true;
      } else {
        var rest := dominatorMap;
        while rest != {}
          invariant rest <= dominatorMap
          invariant dominatorMap - rest <= oldMap
          decreases rest
        {
          var d :| d in rest;
          if d !in oldMap { return true; }
          rest := rest - {d};
        }
        SubsetSameSize(dominatorMap, oldMap);
        change := false;
      }
    }

    /** Adds the dominators other than the block itself. */
    method BuildSDominators(id: nat)
      modifies this`sDominatorMap
      ensures sDominatorMap == old(sDominatorMap) + (dominatorMap - {id})
    {
      sDominatorMap := sDominatorMap + (dominatorMap - {id});
    }

    predicate IsASDominator(node: nat)
      reads this`sDominatorMap
    {
      node in sDominatorMap
    }

    /** A strict dominator is dropped when some other strict dominator does not dominate it. */
    method BuildImmediateDominators(bbs: seq<BasicBlock>)
      requires forall d :: d in sDominatorMap ==> d < |bbs|
      modifies this`parentsMap
      ensures parentsMap == old(parentsMap) + Closest(sDominatorMap, SDomsOf(bbs))
    {
      ghost var sd := SDomsOf(bbs);
      var notParents, rest := {}, sDominatorMap;
      while rest != {}
        invariant rest <= sDominatorMap
        invariant notParents == set d | d in sDominatorMap - rest && !IsClosest(sDominatorMap, sd, d)
        decreases rest
      {
        var d1 :| d1 in rest;
        var inner := sDominatorMap;
        var dropped := false;
        while inner != {} && !dropped
          invariant inner <= sDominatorMap
          invariant dropped ==> !IsClosest(sDominatorMap, sd, d1)
          invariant !dropped ==> forall c :: c in sDominatorMap - inner && c != d1 ==> c in sd[d1]
          decreases inner
        {
          var d2 :| d2 in inner;
          inner := inner - {d2};
          dropped := d1 != d2 && !bbs[d1].IsASDominator(d2);
        }
        if dropped { notParents := notParents + {d1}; }
        rest := rest - {d1};
      }
      parentsMap := parentsMap + (sDominatorMap - notParents);
    }

    method AddChild(child: nat)
      modifies this`childrenMap
      ensures childrenMap == old(childrenMap) + {child}
    {
      childrenMap := childrenMap + {child};
    }

    method AddToDFset(node: nat)
      modifies this`dominanceFrontier
      ensures dominanceFrontier == old(dominanceFrontier) + {node}
    {
      dominanceFrontier := dominanceFrontier + {node};
    }

    /** A first phi function of a variable gets one operand per ancestor of the block. */
    method InsertPhiFunc(v: int, numAncestors: nat)
      requires X86_REG_LO <= v <= X86_REG_HI
      modifies this`phiFuncMap
      ensures v in old(phiFuncMap) ==> phiFuncMap == old(phiFuncMap)
      ensures v !in old(phiFuncMap) ==> phiFuncMap == old(phiFuncMap)[v := Operands(v, numAncestors)]
      ensures v !in old(phiFuncMap) ==>
                |phiFuncMap[v]| == numAncestors && forall k :: 0 <= k < numAncestors ==> phiFuncMap[v][k] == v
    {
      if v !in phiFuncMap {
        var vars: seq<int> := [];
        var i := 0;
        while i < numAncestors
          invariant 0 <= i <= numAncestors
          invariant vars == Operands(v, i)
        {
          vars := vars + [v];
          i := i + 1;
        }
        phiFuncMap := phiFuncMap[v := vars];
      }
    }
  }

  /** The initial operands of a phi function. */
  function Operands(v: int, n: nat): (r: seq<int>)
    ensures |r| == n && forall k :: 0 <= k < n ==> r[k] == v
  {
    seq(n, _ => v)
  }

  const X86_REG_LO := 21
  const X86_REG_HI := 68

  ghost function SDomsOf(bbs: seq<BasicBlock>): (r: seq<set<nat>>)
    reads bbs
    ensures |r| == |bbs| && forall i :: 0 <= i < |bbs| ==> r[i] == bbs[i].sDominatorMap
  {
    seq(|bbs|, i requires 0 <= i < |bbs| reads bbs => bbs[i].sDominatorMap)
  }

  /** Every other member of `s` strictly dominates `d`. */
  ghost predicate IsClosest(s: set<nat>, sd: seq<set<nat>>, d: nat)
    requires d < |sd|
  {
    forall c :: c in s && c != d ==> c in sd[d]
  }

  ghost function Closest(s: set<nat>, sd: seq<set<nat>>): set<nat>
    requires forall d :: d in s ==> d < |sd|
  {
    set d | d in s && IsClosest(s, sd, d)
  }

  /** One object per block of the graph. */
  ghost predicate Layout(g: Graph, bbs: seq<BasicBlock>) {
    && |bbs| == |g.pred|
    && NoDup(bbs)
  }
}
