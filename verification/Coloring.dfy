/** Register assignment by simplify and select (registerAllocate.cpp). */
module Coloring {
  import opened Collections
  import opened InterfNodes

  // ----- What is promised -----

  /** Adjacent nodes have different registers, all of them in `rf`. */
  ghost predicate Proper(stat: map<nat, set<nat>>, reg: map<nat, int>, rf: set<int>) {
    && stat.Keys == reg.Keys
    && (forall a :: a in reg ==> reg[a] in rf)
    && (forall a, b :: a in stat && b in stat[a] && b in reg ==> reg[a] != reg[b])
  }

  /** Some neighbour of `a` among the nodes of `done` has register `c`. */
  ghost predicate Taken(stat: map<nat, set<nat>>, reg: map<nat, int>, done: set<nat>, a: nat, c: int)
    requires a in stat
  {
    exists b :: b in stat[a] && b in done && b in reg && reg[b] == c
  }

  /** Every register below that of a node is taken by one of its neighbours. */
  ghost predicate FirstFit(stat: map<nat, set<nat>>, reg: map<nat, int>, done: set<nat>, rf: set<int>) {
    forall a, c :: a in done && a in stat && a in reg && c in rf && c < reg[a] ==> Taken(stat, reg, done, a, c)
  }

  /** Every non-empty set of nodes has a member with fewer than `k` neighbours inside the set. */
  ghost predicate NoCore(stat: map<nat, set<nat>>, k: nat) {
    forall s: set<nat> {:trigger HasLowNode(stat, s, k)} :: s != {} && s <= stat.Keys ==> HasLowNode(stat, s, k)
  }

  ghost predicate HasLowNode(stat: map<nat, set<nat>>, s: set<nat>, k: nat) {
    exists n :: n in s && n in stat && |stat[n] * s| < k
  }

  // ----- Partial assignments -----

  /** The nodes of `done` have proper registers, the others have none. */
  ghost predicate Coloured(stat: map<nat, set<nat>>, reg: map<nat, int>, done: set<nat>, rf: set<int>) {
    && stat.Keys == reg.Keys
    && (forall a :: a in reg ==> if a in done then reg[a] in rf else reg[a] == -1)
    && (forall a, b :: a in stat && a in done && b in stat[a] && b in done && b in reg ==> reg[a] != reg[b])
  }

  ghost function UsedRegs(stat: map<nat, set<nat>>, reg: map<nat, int>, a: nat): set<int>
    requires a in stat
  {
    set n | n in stat[a] && n in reg && reg[n] != -1 :: reg[n]
  }

  lemma {:induction false} ColourOne(stat: map<nat, set<nat>>, reg: map<nat, int>, done: set<nat>, rf: set<int>, a: nat, c: int)
    requires Symmetric(stat) && Coloured(stat, reg, done, rf) && -1 !in rf
    requires a in stat && a !in done && c in rf && c !in UsedRegs(stat, reg, a)
    ensures Coloured(stat, reg[a := c], done + {a}, rf)
  {
    var r := reg[a := c];
    forall x, y | x in stat && x in done + {a} && y in stat[x] && y in done + {a} && y in r ensures r[x] != r[y] {
      if x == a {
        assert reg[y] in UsedRegs(stat, reg, a);
      } else if y == a {
        assert x in stat[a] && reg[x] in UsedRegs(stat, reg, a);
      }
    }
  }

  /** The least free register keeps the assignment first-fit. */
  lemma {:induction false} FitOne(stat: map<nat, set<nat>>, reg: map<nat, int>, done: set<nat>, rf: set<int>, a: nat, c: int)
    requires Coloured(stat, reg, done, rf) && FirstFit(stat, reg, done, rf) && -1 !in rf
    requires a in stat && a !in done && forall x :: x in rf && x < c ==> x in UsedRegs(stat, reg, a)
    ensures FirstFit(stat, reg[a := c], done + {a}, rf)
  {
    var r := reg[a := c];
    forall b, x | b in done + {a} && b in stat && b in r && x in rf && x < r[b] ensures Taken(stat, r, done + {a}, b, x) {
      if b == a {
        var n :| n in stat[a] && n in reg && reg[n] != -1 && reg[n] == x;
        assert n in done && r[n] == x;
      } else {
        assert Taken(stat, reg, done, b, x);
        var n :| n in stat[b] && n in done && n in reg && reg[n] == x;
        assert r[n] == x;
      }
    }
  }

  lemma {:induction false} ImageSize(reg: map<nat, int>, s: set<nat>) returns (image: set<int>)
    requires s <= reg.Keys
    ensures |image| <= |s| && forall n :: n in s ==> reg[n] in image
    decreases s
  {
    if n :| n in s {
      image := ImageSize(reg, s - {n});
      image := image + {reg[n]};
    } else {
      image := {};
    }
  }

  /** A node with fewer than `k` coloured neighbours finds one of `k` registers free. */
  lemma {:induction false} RoomLeft(stat: map<nat, set<nat>>, reg: map<nat, int>, done: set<nat>, rf: set<int>, a: nat, k: nat)
    requires Coloured(stat, reg, done, rf) && a in stat && stat[a] <= stat.Keys
    requires |stat[a] * done| < k <= |rf|
    ensures rf - UsedRegs(stat, reg, a) != {}
  {
    var image := ImageSize(reg, stat[a] * done);
    assert UsedRegs(stat, reg, a) <= image;
    if rf <= image {
      SubsetSmaller(rf, image);
    } else {
      var c := NewMember(rf * image, rf);
      assert c in rf - UsedRegs(stat, reg, a);
    }
  }

  /** Without a core a graph has a proper assignment of `k` registers. */
  lemma {:induction false} Colourable(stat: map<nat, set<nat>>, rf: set<int>, k: nat, s: set<nat>) returns (reg: map<nat, int>)
    requires Symmetric(stat) && NoCore(stat, k) && k <= |rf| && -1 !in rf && s <= stat.Keys
    ensures Coloured(stat, reg, s, rf)
    decreases |s|
  {
    if s == {} {
      reg := map a | a in stat :: -1;
    } else {
      assert HasLowNode(stat, s, k);
      var n :| n in s && n in stat && |stat[n] * s| < k;
      reg := Colourable(stat, rf, k, s - {n});
      hide NoCore, HasLowNode;
      reg := ColourLow(stat, reg, rf, k, s, n);
    }
  }

  lemma {:induction false} ColourLow(stat: map<nat, set<nat>>, reg0: map<nat, int>, rf: set<int>, k: nat, s: set<nat>, n: nat)
    returns (reg: map<nat, int>)
    requires Symmetric(stat) && k <= |rf| && -1 !in rf && s <= stat.Keys && n in s && |stat[n] * s| < k
    requires Coloured(stat, reg0, s - {n}, rf)
    ensures Coloured(stat, reg, s, rf)
  {
    var rest := s - {n};
    assert s == rest + {n} && stat[n] <= stat.Keys;
    SubsetSmaller(stat[n] * rest, stat[n] * s);
    RoomLeft(stat, reg0, rest, rf, n, k);
    hide Coloured, Symmetric;
    var c := NewMember({}, rf - UsedRegs(stat, reg0, n));
    ColourOne(stat, reg0, rest, rf, n, c);
    reg := reg0[n := c];
  }

  // ----- Step 1: take nodes out of the graph -----

  ghost function Size(pool: map<nat, InterfNode>, r: nat): nat
    requires r in pool
    reads pool.Values
  {
    |pool[r].neighborSet|
  }

  /** The node with most neighbours below `k`, or with most neighbours if none is below `k`; which of
      several is taken is left open. */
  method PickNode(nodeMap: map<nat, InterfNode>, k: nat) returns (candidate: nat)
    requires nodeMap.Keys != {}
    ensures candidate in nodeMap
    ensures (exists r :: r in nodeMap && Size(nodeMap, r) < k) ==>
              && Size(nodeMap, candidate) < k
              && forall r :: r in nodeMap && Size(nodeMap, r) < k ==> Size(nodeMap, r) <= Size(nodeMap, candidate)
    ensures (forall r :: r in nodeMap ==> Size(nodeMap, r) >= k) ==>
              forall r :: r in nodeMap ==> Size(nodeMap, r) <= Size(nodeMap, candidate)
  {
    var neighborCount := -1;
    candidate := 0;
    var rest := nodeMap.Keys;
    while rest != {}
      invariant rest <= nodeMap.Keys
      invariant neighborCount == -1 ==> forall r :: r in nodeMap && r !in rest ==> Size(nodeMap, r) >= k
      invariant neighborCount != -1 ==> candidate in nodeMap && neighborCount == Size(nodeMap, candidate) < k
      invariant forall r :: r in nodeMap && r !in rest && Size(nodeMap, r) < k ==> Size(nodeMap, r) <= neighborCount
      decreases rest
    {
      var r := AnyOf(rest);
      if |nodeMap[r].neighborSet| > neighborCount && |nodeMap[r].neighborSet| < k {
        neighborCount, candidate := |nodeMap[r].neighborSet|, r;
      }
      rest := rest - {r};
    }
    if neighborCount == -1 {
      rest := nodeMap.Keys;
      while rest != {}
        invariant rest <= nodeMap.Keys && neighborCount >= -1
        invariant neighborCount == -1 ==> rest == nodeMap.Keys
        invariant neighborCount != -1 ==> candidate in nodeMap && neighborCount == Size(nodeMap, candidate)
        invariant forall r :: r in nodeMap && r !in rest ==> Size(nodeMap, r) <= neighborCount
        decreases rest
      {
        var r := AnyOf(rest);
        if |nodeMap[r].neighborSet| > neighborCount {
          neighborCount, candidate := |nodeMap[r].neighborSet|, r;
        }
        rest := rest - {r};
      }
    }
  }

  /** The dynamic graph on the nodes not removed yet. */
  ghost function Restrict(stat: map<nat, set<nat>>, left: set<nat>): map<nat, set<nat>> {
    map r | r in stat :: if r in left then stat[r] * left else {}
  }

  lemma {:induction false} RestrictNext(stat: map<nat, set<nat>>, left: set<nat>, a: nat)
    requires Symmetric(stat) && a in left && left <= stat.Keys
    ensures Without(Restrict(stat, left), a) == Restrict(stat, left - {a})
    ensures Symmetric(Restrict(stat, left))
  {
    var d, e := Without(Restrict(stat, left), a), Restrict(stat, left - {a});
    forall r | r in stat ensures d[r] == e[r] { }
  }

  /** What is left of the graph once the nodes of `removed[..j]` are gone. */
  ghost function Left(stat: map<nat, set<nat>>, removed: seq<nat>, j: nat): set<nat>
    requires j <= |removed|
  {
    set r | r in stat && r !in removed[..j]
  }

  /** Every node had fewer than `k` neighbours when it was removed. */
  ghost predicate AllLow(stat: map<nat, set<nat>>, removed: seq<nat>, k: nat) {
    forall j :: 0 <= j < |removed| ==> removed[j] in stat && |stat[removed[j]] * Left(stat, removed, j)| < k
  }

  lemma {:induction false} AllLowNext(stat: map<nat, set<nat>>, removed: seq<nat>, k: nat, a: nat)
    requires a in stat
    ensures AllLow(stat, removed + [a], k) <==>
              AllLow(stat, removed, k) && |stat[a] * Left(stat, removed, |removed|)| < k
    ensures Left(stat, removed + [a], |removed| + 1) == Left(stat, removed, |removed|) - {a}
  {
    var next := removed + [a];
    assert next[..|next|] == next && next[..|removed|] == removed;
    forall j | 0 <= j <= |removed| ensures Left(stat, next, j) == Left(stat, removed, j) {
      assert next[..j] == removed[..j];
    }
    if AllLow(stat, next, k) {
      assert next[|removed|] == a;
      forall j | 0 <= j < |removed| ensures removed[j] in stat && |stat[removed[j]] * Left(stat, removed, j)| < k {
        assert next[j] == removed[j];
      }
    }
  }

  /** The nodes of `left` are still to be removed. */
  ghost predicate Halfway(stat: map<nat, set<nat>>, removed: seq<nat>, left: set<nat>, k: nat) {
    && NoDup(removed) && (forall r :: r in stat ==> (r in left <==> r !in removed))
    && left <= stat.Keys && (forall r :: r in removed ==> r in stat)
    && left == Left(stat, removed, |removed|)
    && (NoCore(stat, k) ==> AllLow(stat, removed, k))
  }

  lemma {:induction false} NoneRemoved(stat: map<nat, set<nat>>, k: nat)
    requires Symmetric(stat)
    ensures Halfway(stat, [], stat.Keys, k) && Restrict(stat, stat.Keys) == stat
  {
    hide NoCore;
    assert Left(stat, [], 0) == stat.Keys;
    forall r | r in stat ensures Restrict(stat, stat.Keys)[r] == stat[r] {
      assert forall b :: b in stat[r] ==> b in stat;
    }
    SameMap(Restrict(stat, stat.Keys), stat);
  }

  lemma {:induction false} OneMoreRemoved(stat: map<nat, set<nat>>, removed: seq<nat>, left: set<nat>, k: nat, r: nat)
    requires Halfway(stat, removed, left, k) && r in left && (NoCore(stat, k) ==> |stat[r] * left| < k)
    ensures Halfway(stat, removed + [r], left - {r}, k)
  {
    hide NoCore;
    AllLowNext(stat, removed, k, r);
  }

  /** Nodes move from one map to the other. */
  ghost predicate Moved(pool: map<nat, InterfNode>, nodeMap: map<nat, InterfNode>, allMap: map<nat, InterfNode>) {
    && (forall r :: r in nodeMap ==> r in pool && nodeMap[r] == pool[r])
    && (forall r :: r in allMap ==> r in pool && allMap[r] == pool[r])
    && (forall r :: r in pool ==> (r in allMap <==> r !in nodeMap))
  }

  lemma {:induction false} MoveNode(pool: map<nat, InterfNode>, nodeMap: map<nat, InterfNode>, allMap: map<nat, InterfNode>, r: nat)
    requires Moved(pool, nodeMap, allMap) && r in nodeMap
    ensures Moved(pool, nodeMap - {r}, allMap[r := nodeMap[r]]) && (nodeMap - {r}).Keys == nodeMap.Keys - {r}
  {
  }

  /** The state of the loop: `dyn` is the graph on the nodes still in `nodeMap`. */
  ghost predicate Going(pool: map<nat, InterfNode>, stat: map<nat, set<nat>>, dyn: map<nat, set<nat>>, removed: seq<nat>,
                        nodeMap: map<nat, InterfNode>, allMap: map<nat, InterfNode>, k: nat) {
    && Symmetric(stat) && stat.Keys == pool.Keys && nodeMap.Keys <= stat.Keys && dyn == Restrict(stat, nodeMap.Keys)
    && Moved(pool, nodeMap, allMap) && Halfway(stat, removed, nodeMap.Keys, k)
  }

  lemma {:induction false} GoingNext(pool: map<nat, InterfNode>, stat: map<nat, set<nat>>, dyn: map<nat, set<nat>>,
                                     removed: seq<nat>, nodeMap: map<nat, InterfNode>, allMap: map<nat, InterfNode>, k: nat, r: nat)
    requires Going(pool, stat, dyn, removed, nodeMap, allMap, k) && r in nodeMap
    requires NoCore(stat, k) ==> |stat[r] * nodeMap.Keys| < k
    ensures Symmetric(dyn) && r in pool && nodeMap[r] == pool[r]
    ensures Going(pool, stat, Without(dyn, r), removed + [r], nodeMap - {r}, allMap[r := nodeMap[r]], k)
  {
    RestrictNext(stat, nodeMap.Keys, r);
    OneMoreRemoved(stat, removed, nodeMap.Keys, k, r);
    MoveNode(pool, nodeMap, allMap, r);
  }

  /** Takes every node out of the graph; their registers stay in `removed`, in order. */
  method Simplify(ghost pool: map<nat, InterfNode>, globalMap: map<nat, InterfNode>, k: nat)
    returns (removed: seq<nat>, allMap: map<nat, InterfNode>)
    requires globalMap == pool && Linked(pool) && Symmetric(Stat(pool)) && Dyn(pool) == Stat(pool)
    modifies pool.Values
    ensures Linked(pool) && Stat(pool) == old(Stat(pool))
    ensures allMap == pool && Halfway(Stat(pool), removed, {}, k)
    ensures forall r :: r in pool ==> pool[r].reg == old(pool[r].reg)
  {
    ghost var stat := Stat(pool);
    var nodeMap := globalMap;
    removed, allMap := [], map[];
    NoneRemoved(stat, k);
    assert Going(pool, stat, Dyn(pool), removed, nodeMap, allMap, k);
    hide Linked, Stat, Assigned, Dyn, Going, NoCore;
    while nodeMap.Keys != {}
      invariant Linked(pool) && Stat(pool) == stat && Assigned(pool) == old(Assigned(pool))
      invariant Going(pool, stat, Dyn(pool), removed, nodeMap, allMap, k)
      decreases nodeMap.Keys
    {
      removed, nodeMap, allMap := RemoveOne(pool, stat, removed, nodeMap, allMap, k);
    }
    AllMoved(pool, stat, Dyn(pool), removed, nodeMap, allMap, k);
    assert forall r :: r in pool ==> Assigned(pool)[r] == old(Assigned(pool))[r];
  }

  /** One turn: a node is picked, taken out of the graph and moved. */
  method RemoveOne(ghost pool: map<nat, InterfNode>, ghost stat: map<nat, set<nat>>, removed0: seq<nat>,
                   nodeMap0: map<nat, InterfNode>, allMap0: map<nat, InterfNode>, k: nat)
    returns (removed: seq<nat>, nodeMap: map<nat, InterfNode>, allMap: map<nat, InterfNode>)
    requires Linked(pool) && Going(pool, stat, Dyn(pool), removed0, nodeMap0, allMap0, k) && nodeMap0.Keys != {}
    modifies pool.Values
    ensures Linked(pool) && Stat(pool) == old(Stat(pool)) && Assigned(pool) == old(Assigned(pool))
    ensures Going(pool, stat, Dyn(pool), removed, nodeMap, allMap, k)
    ensures nodeMap.Keys < nodeMap0.Keys
  {
    hide Linked, Stat, Assigned, Dyn, Going, NoCore, Symmetric, InterfNodes.Without;
    var r := PickLow(pool, stat, removed0, nodeMap0, allMap0, k);
    GoingNext(pool, stat, Dyn(pool), removed0, nodeMap0, allMap0, k, r);
    TakeOut(pool, nodeMap0[r], r);
    removed, nodeMap, allMap := removed0 + [r], nodeMap0 - {r}, allMap0[r := nodeMap0[r]];
    assert r !in nodeMap.Keys;
  }

  lemma {:induction false} AllMoved(pool: map<nat, InterfNode>, stat: map<nat, set<nat>>, dyn: map<nat, set<nat>>,
                                    removed: seq<nat>, nodeMap: map<nat, InterfNode>, allMap: map<nat, InterfNode>, k: nat)
    requires Going(pool, stat, dyn, removed, nodeMap, allMap, k) && nodeMap.Keys == {}
    ensures nodeMap == map[] && allMap == pool && Halfway(stat, removed, {}, k)
  {
    assert forall r :: r in pool ==> r !in nodeMap.Keys;
    SameMap(allMap, pool);
  }

  lemma {:induction false} LowNodePicked(stat: map<nat, set<nat>>, left: set<nat>, k: nat) returns (n: nat)
    requires NoCore(stat, k) && left != {} && left <= stat.Keys
    ensures n in left && |stat[n] * left| < k
  {
    assert HasLowNode(stat, left, k);
    n :| n in left && n in stat && |stat[n] * left| < k;
  }

  /** The node picked has fewer than `k` neighbours left if the graph has no core. */
  method PickLow(ghost pool: map<nat, InterfNode>, ghost stat: map<nat, set<nat>>, ghost removed: seq<nat>,
                 nodeMap: map<nat, InterfNode>, ghost allMap: map<nat, InterfNode>, k: nat)
    returns (r: nat)
    requires Going(pool, stat, Dyn(pool), removed, nodeMap, allMap, k) && nodeMap.Keys != {}
    ensures r in nodeMap && r in stat
    ensures NoCore(stat, k) ==> |stat[r] * nodeMap.Keys| < k
  {
    hide NoCore, Halfway;
    r := PickNode(nodeMap, k);
    assert forall n :: n in nodeMap ==> nodeMap[n].neighborSet == Dyn(pool)[n] == stat[n] * nodeMap.Keys;
    if NoCore(stat, k) {
      ghost var n := LowNodePicked(stat, nodeMap.Keys, k);
      assert Size(nodeMap, n) < k;
    }
  }

  /** Removal leaves static edges and registers alone. */
  method TakeOut(ghost pool: map<nat, InterfNode>, node: InterfNode, ghost r: nat)
    requires Linked(pool) && r in pool && node == pool[r] && Symmetric(Dyn(pool))
    modifies pool.Values
    ensures Linked(pool) && Stat(pool) == old(Stat(pool)) && Assigned(pool) == old(Assigned(pool))
    ensures Dyn(pool) == Without(old(Dyn(pool)), r)
  {
    assert NodeOk(pool, r);
    hide Linked, Symmetric, InterfNodes.Without, Dyn, Stat, Assigned;
    ghost var stat, regs := Stat(pool), Assigned(pool);
    node.RemoveFromGraph(pool);
    SameMap(Stat(pool), stat);
    SameMap(Assigned(pool), regs);
  }

  // ----- Step 2: assign registers in reverse order -----

  /** The registers of the static neighbours, as maps. */
  lemma {:induction false} UsedByNeighbours(pool: map<nat, InterfNode>, a: nat)
    requires Linked(pool) && a in pool
    ensures Used(pool[a].edgesStatic) == UsedRegs(Stat(pool), Assigned(pool), a)
  {
    assert NodeOk(pool, a);
    var s := pool[a].edgesStatic;
    forall i | 0 <= i < |s| ensures s[i].psudoReg in pool && pool[s[i].psudoReg] == s[i] { assert s[i] in s; }
    forall c ensures c in Used(s) <==> c in UsedRegs(Stat(pool), Assigned(pool), a) {
      if c in Used(s) {
        var i :| 0 <= i < |s| && s[i].reg != -1 && s[i].reg == c;
        assert s[i].psudoReg in Stat(pool)[a];
      }
      if c in UsedRegs(Stat(pool), Assigned(pool), a) {
        var n :| n in Stat(pool)[a] && n in Assigned(pool) && Assigned(pool)[n] == c && c != -1;
        var i :| 0 <= i < |s| && s[i].psudoReg == n;
        assert s[i].reg == c;
      }
    }
  }

  lemma {:induction false} LeftStep(stat: map<nat, set<nat>>, removed: seq<nat>, i: nat)
    requires NoDup(removed) && i < |removed| && removed[i] in stat
    ensures removed[i] !in Left(stat, removed, i + 1)
    ensures Left(stat, removed, i) == Left(stat, removed, i + 1) + {removed[i]}
  {
    assert removed[..i + 1] == removed[..i] + [removed[i]];
    assert removed[i] !in removed[..i];
  }

  lemma {:induction false} FewerNeighbours(stat: map<nat, set<nat>>, removed: seq<nat>, i: nat, k: nat)
    requires AllLow(stat, removed, k) && i < |removed| && Left(stat, removed, i + 1) <= Left(stat, removed, i)
    ensures removed[i] in stat && |stat[removed[i]] * Left(stat, removed, i + 1)| < k
  {
    SubsetSmaller(stat[removed[i]] * Left(stat, removed, i + 1), stat[removed[i]] * Left(stat, removed, i));
  }

  method AssignTo(pool: map<nat, InterfNode>, a: nat, rfSet: set<int>) returns (ok: bool)
    requires Linked(pool) && a in pool
    modifies pool.Values
    ensures Linked(pool) && Stat(pool) == old(Stat(pool))
    ensures ok <==> rfSet - old(UsedRegs(Stat(pool), Assigned(pool), a)) != {}
    ensures ok ==> Assigned(pool) == old(Assigned(pool))[a := pool[a].reg]
    ensures ok ==> pool[a].reg in rfSet && pool[a].reg !in old(UsedRegs(Stat(pool), Assigned(pool), a))
    ensures ok ==> forall c :: c in rfSet && c < pool[a].reg ==> c in old(UsedRegs(Stat(pool), Assigned(pool), a))
  {
    ghost var stat, regs := Stat(pool), Assigned(pool);
    UsedByNeighbours(pool, a);
    ok := pool[a].AssignReg(rfSet);
    forall r | r in pool ensures NodeOk(pool, r) && (pool[r] == pool[a] ==> r == a) {
      assert old(NodeOk(pool, r)) && old(NodeOk(pool, a));
    }
    SameMap(Stat(pool), stat);
    if ok { SameMap(Assigned(pool), regs[a := pool[a].reg]); }
  }

  lemma {:induction false} NoneColoured(stat: map<nat, set<nat>>, reg: map<nat, int>, removed: seq<nat>, rf: set<int>, k: nat)
    requires Halfway(stat, removed, {}, k) && stat.Keys == reg.Keys && forall r :: r in reg ==> reg[r] == -1
    ensures Coloured(stat, reg, Left(stat, removed, |removed|), rf) && FirstFit(stat, reg, Left(stat, removed, |removed|), rf)
  {
  }

  lemma {:induction false} AllColoured(stat: map<nat, set<nat>>, reg: map<nat, int>, removed: seq<nat>, rf: set<int>)
    requires Symmetric(stat) && Coloured(stat, reg, Left(stat, removed, 0), rf) && FirstFit(stat, reg, Left(stat, removed, 0), rf)
    ensures Proper(stat, reg, rf) && FirstFit(stat, reg, stat.Keys, rf)
  {
    assert Left(stat, removed, 0) == stat.Keys;
  }

  /** Registers go to the nodes in the reverse of the order of removal. It fails only when some node had
      `k` or more neighbours left when it was removed. */
  method Select(pool: map<nat, InterfNode>, removed: seq<nat>, rfSet: set<int>, ghost k: nat) returns (ok: bool)
    requires Linked(pool) && Symmetric(Stat(pool)) && Halfway(Stat(pool), removed, {}, k)
    requires -1 !in rfSet && k <= |rfSet| && forall r :: r in pool ==> pool[r].reg == -1
    modifies pool.Values
    ensures Linked(pool) && Stat(pool) == old(Stat(pool))
    ensures ok ==> Proper(Stat(pool), Assigned(pool), rfSet) && FirstFit(Stat(pool), Assigned(pool), Stat(pool).Keys, rfSet)
    ensures AllLow(Stat(pool), removed, k) ==> ok
  {
    ghost var stat := Stat(pool);
    NoneColoured(stat, Assigned(pool), removed, rfSet, k);
    ok := SelectAll(pool, stat, removed, rfSet, k);
    if ok { AllColoured(stat, Assigned(pool), removed, rfSet); }
  }

  method SelectAll(pool: map<nat, InterfNode>, ghost stat: map<nat, set<nat>>, removed: seq<nat>, rfSet: set<int>, ghost k: nat)
    returns (ok: bool)
    requires Linked(pool) && stat == Stat(pool) && Symmetric(stat) && Halfway(stat, removed, {}, k)
    requires -1 !in rfSet && k <= |rfSet|
    requires Coloured(stat, Assigned(pool), Left(stat, removed, |removed|), rfSet)
    requires FirstFit(stat, Assigned(pool), Left(stat, removed, |removed|), rfSet)
    modifies pool.Values
    ensures Linked(pool) && Stat(pool) == stat
    ensures ok ==> Coloured(stat, Assigned(pool), Left(stat, removed, 0), rfSet)
    ensures ok ==> FirstFit(stat, Assigned(pool), Left(stat, removed, 0), rfSet)
    ensures AllLow(stat, removed, k) ==> ok
  {
    hide Linked, NoCore, Symmetric, Halfway, Left, Coloured, FirstFit, Stat, Assigned, AllLow;
    var i := |removed|;
    ok := true;
    while i > 0
      invariant 0 <= i <= |removed|
      invariant Linked(pool) && Stat(pool) == stat
      invariant Coloured(stat, Assigned(pool), Left(stat, removed, i), rfSet)
      invariant FirstFit(stat, Assigned(pool), Left(stat, removed, i), rfSet)
      invariant ok
    {
      i := i - 1;
      ok := ColourNode(pool, removed, i, rfSet, k);
      if !ok { return; }
    }
  }

  method ColourNode(pool: map<nat, InterfNode>, removed: seq<nat>, i: nat, rfSet: set<int>, ghost k: nat) returns (ok: bool)
    requires Linked(pool) && Symmetric(Stat(pool)) && Halfway(Stat(pool), removed, {}, k) && i < |removed|
    requires -1 !in rfSet && k <= |rfSet|
    requires Coloured(Stat(pool), Assigned(pool), Left(Stat(pool), removed, i + 1), rfSet)
    requires FirstFit(Stat(pool), Assigned(pool), Left(Stat(pool), removed, i + 1), rfSet)
    modifies pool.Values
    ensures Linked(pool) && Stat(pool) == old(Stat(pool))
    ensures ok ==> Coloured(Stat(pool), Assigned(pool), Left(Stat(pool), removed, i), rfSet)
    ensures ok ==> FirstFit(Stat(pool), Assigned(pool), Left(Stat(pool), removed, i), rfSet)
    ensures AllLow(Stat(pool), removed, k) ==> ok
  {
    hide NoCore;
    var a := removed[i];
    ghost var stat, regs := Stat(pool), Assigned(pool);
    LeftStep(stat, removed, i);
    if AllLow(stat, removed, k) {
      FewerNeighbours(stat, removed, i, k);
      assert stat[a] <= stat.Keys;
      RoomLeft(stat, regs, Left(stat, removed, i + 1), rfSet, a, k);
    }
    ok := AssignTo(pool, a, rfSet);
    if ok {
      ColourOne(stat, regs, Left(stat, removed, i + 1), rfSet, a, pool[a].reg);
      FitOne(stat, regs, Left(stat, removed, i + 1), rfSet, a, pool[a].reg);
      hide Coloured, FirstFit, Left, Linked;
    }
  }

  // ----- Both steps -----

  ghost function Range(lo: int, n: nat): (s: set<int>)
    ensures |s| == n && forall c :: c in s <==> lo <= c < lo + n
  {
    if n == 0 then {} else Range(lo, n - 1) + {lo + n - 1}
  }

  method RegisterFile(lo: int, hi: int) returns (s: set<int>)
    requires lo <= hi + 1
    ensures s == Range(lo, hi + 1 - lo)
  {
    s := {};
    var i := lo;
    while i <= hi
      invariant lo <= i <= hi + 1
      invariant s == Range(lo, i - lo)
    {
      s := s + {i};
      i := i + 1;
    }
  }

  /** assign_global_registers. When it completes, adjacent nodes have different global registers; it
      completes whenever the graph has no core. The symmetry of the graph survives every removal. */
  method AssignGlobalRegisters(globalMap: map<nat, InterfNode>) returns (allMap: map<nat, InterfNode>, ok: bool)
    requires Linked(globalMap) && Symmetric(Stat(globalMap)) && Dyn(globalMap) == Stat(globalMap)
    requires forall r :: r in globalMap ==> globalMap[r].reg == -1
    modifies globalMap.Values
    ensures allMap == globalMap && Stat(allMap) == old(Stat(globalMap))
    ensures ok ==> Proper(Stat(allMap), Assigned(allMap), Range(GRF_LO, GRF_SIZE))
    ensures ok ==> FirstFit(Stat(allMap), Assigned(allMap), Stat(allMap).Keys, Range(GRF_LO, GRF_SIZE))
    ensures NoCore(old(Stat(globalMap)), GRF_SIZE) ==> ok
  {
    allMap, ok := AssignRegisters(globalMap, GRF_SIZE, GRF_LO, GRF_HI);
  }

  /** assign_local_registers is the same pass over the local register file. */
  method AssignLocalRegisters(localMap: map<nat, InterfNode>) returns (allMap: map<nat, InterfNode>, ok: bool)
    requires Linked(localMap) && Symmetric(Stat(localMap)) && Dyn(localMap) == Stat(localMap)
    requires forall r :: r in localMap ==> localMap[r].reg == -1
    modifies localMap.Values
    ensures allMap == localMap && Stat(allMap) == old(Stat(localMap))
    ensures ok ==> Proper(Stat(allMap), Assigned(allMap), Range(LRF_LO, LRF_SIZE))
    ensures ok ==> FirstFit(Stat(allMap), Assigned(allMap), Stat(allMap).Keys, Range(LRF_LO, LRF_SIZE))
    ensures NoCore(old(Stat(localMap)), LRF_SIZE) ==> ok
  {
    allMap, ok := AssignRegisters(localMap, LRF_SIZE, LRF_LO, LRF_HI);
  }

  method AssignRegisters(nodes: map<nat, InterfNode>, k: nat, lo: int, hi: int) returns (allMap: map<nat, InterfNode>, ok: bool)
    requires Linked(nodes) && Symmetric(Stat(nodes)) && Dyn(nodes) == Stat(nodes)
    requires 0 <= lo <= hi + 1 && hi + 1 - lo == k && forall r :: r in nodes ==> nodes[r].reg == -1
    modifies nodes.Values
    ensures allMap == nodes && Stat(allMap) == old(Stat(nodes))
    ensures ok ==> Proper(Stat(allMap), Assigned(allMap), Range(lo, k))
    ensures ok ==> FirstFit(Stat(allMap), Assigned(allMap), Stat(allMap).Keys, Range(lo, k))
    ensures NoCore(old(Stat(nodes)), k) ==> ok
  {
    hide Linked, NoCore, Symmetric, Proper, FirstFit, Stat, Dyn, Restrict, AllLow;
    var removed;
    removed, allMap := Simplify(nodes, nodes, k);
    var rf := RegisterFile(lo, hi);
    ok := Select(allMap, removed, rf, k);
  }
}
