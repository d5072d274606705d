/** Building the interference graph in GLOBAL mode (registerAllocate.cpp). */
module Interference {
  import opened Collections
  import opened InterfNodes

  /** A graph under construction: both ends know every edge and no register is assigned. */
  ghost predicate Built(nodes: map<nat, InterfNode>)
    reads nodes.Values
  {
    && Linked(nodes) && Symmetric(Stat(nodes)) && Dyn(nodes) == Stat(nodes)
    && forall r :: r in nodes ==> nodes[r].reg == -1
  }

  /** `e` is `d` with the nodes `ks` and the edges `pairs` added. */
  ghost predicate Extends(d: map<nat, set<nat>>, e: map<nat, set<nat>>, ks: set<nat>, pairs: set<(nat, nat)>) {
    && (forall r :: r in e <==> r in d || r in ks)
    && (forall a, b :: (a, b) in pairs ==> a in ks && b in ks)
    && (forall a, b :: a in e ==> (b in e[a] <==> (a in d && b in d[a]) || (a, b) in pairs))
  }

  /** The node of a register, made when there is none. */
  method GetNode(nodes0: map<nat, InterfNode>, r: nat) returns (nodes: map<nat, InterfNode>)
    requires Built(nodes0)
    ensures Built(nodes) && r in nodes && nodes.Keys == nodes0.Keys + {r}
    ensures forall x :: x in nodes0 ==> nodes[x] == nodes0[x]
    ensures fresh(nodes.Values - nodes0.Values)
    ensures Stat(nodes) == if r in nodes0 then Stat(nodes0) else Stat(nodes0)[r := {}]
  {
    if r in nodes0 {
      nodes := nodes0;
    } else {
      nodes := NewNode(nodes0, r);
      ValuesGrow(nodes0, nodes, r);
    }
  }

  method NewNode(nodes0: map<nat, InterfNode>, r: nat) returns (nodes: map<nat, InterfNode>)
    requires Built(nodes0) && r !in nodes0
    ensures Built(nodes) && nodes.Keys == nodes0.Keys + {r} && fresh(nodes[r])
    ensures forall x :: x in nodes0 ==> nodes[x] == nodes0[x]
    ensures Stat(nodes) == Stat(nodes0)[r := {}]
  {
    hide Symmetric;
    AloneSymmetric(Stat(nodes0), r);
    var node := new InterfNode(r);
    nodes := nodes0[r := node];
    forall x | x in nodes0 ensures NodeOk(nodes, x) { StillKnown(nodes0, nodes, x); }
    assert NodeOk(nodes, r);
    hide Linked;
    SameMap(Stat(nodes), Stat(nodes0)[r := {}]);
    SameMap(Dyn(nodes), Dyn(nodes0)[r := {}]);
  }

  lemma {:induction false} ValuesGrow(nodes0: map<nat, InterfNode>, nodes: map<nat, InterfNode>, r: nat)
    requires nodes.Keys == nodes0.Keys + {r} && r in nodes && forall x :: x in nodes0 ==> nodes[x] == nodes0[x]
    ensures nodes.Values <= nodes0.Values + {nodes[r]}
  {
    forall n | n in nodes.Values ensures n in nodes0.Values + {nodes[r]} {
      var x :| x in nodes && nodes[x] == n;
      if x in nodes0 { assert n in nodes0.Values; }
    }
  }

  lemma {:induction false} AloneSymmetric(d: map<nat, set<nat>>, r: nat)
    requires Symmetric(d) && r !in d
    ensures Symmetric(d[r := {}])
  {
  }

  lemma {:induction false} StillKnown(nodes0: map<nat, InterfNode>, nodes: map<nat, InterfNode>, x: nat)
    requires x in nodes0 && NodeOk(nodes0, x) && forall y :: y in nodes0 ==> y in nodes && nodes[y] == nodes0[y]
    ensures NodeOk(nodes, x)
  {
  }

  ghost function Joined(d: map<nat, set<nat>>, a: nat, b: nat): map<nat, set<nat>>
    requires a in d && b in d
  {
    d[a := d[a] + {b}][b := d[b] + {a}]
  }

  /** An edge between two nodes. */
  method Connect(nodes: map<nat, InterfNode>, a: nat, b: nat)
    requires Built(nodes) && a in nodes && b in nodes && a != b
    modifies nodes.Values
    ensures Built(nodes) && Stat(nodes) == old(Joined(Stat(nodes), a, b))
  {
    ghost var d := Stat(nodes);
    JoinedSymmetric(d, a, b);
    assert b in d[a] <==> a in d[b];
    hide Symmetric;
    assert Dyn(nodes)[a] == d[a] && Dyn(nodes)[b] == d[b];
    JoinNodes(nodes, a, b);
    hide Linked;
    JoinedIs(d, Stat(nodes), a, b);
    JoinedIs(d, Dyn(nodes), a, b);
  }

  lemma {:induction false} JoinedIs(d: map<nat, set<nat>>, e: map<nat, set<nat>>, a: nat, b: nat)
    requires e.Keys == d.Keys && a in d && b in d && a != b
    requires forall x :: x in d ==> e[x] == Gains(d[x], x, a, b)
    ensures e == Joined(d, a, b)
  {
    SameMap(e, Joined(d, a, b));
  }

  lemma {:induction false} JoinedSymmetric(d: map<nat, set<nat>>, a: nat, b: nat)
    requires Symmetric(d) && a in d && b in d && a != b
    ensures Symmetric(Joined(d, a, b))
  {
  }

  lemma {:induction false} AppendReg(s: seq<InterfNode>, n: InterfNode)
    ensures RegSet(s + [n]) == RegSet(s) + {n.psudoReg}
    ensures DistinctRegs(s) && n.psudoReg !in RegSet(s) ==> DistinctRegs(s + [n])
  {
    var t := s + [n];
    forall r ensures r in RegSet(t) <==> r in RegSet(s) + {n.psudoReg} {
      if r in RegSet(s) {
        var i :| 0 <= i < |s| && s[i].psudoReg == r;
        assert t[i].psudoReg == r;
      }
      assert t[|s|].psudoReg == n.psudoReg;
    }
  }

  /** The neighbours of node `x` after `a` and `b` are joined. */
  ghost function Gains(s: set<nat>, x: nat, a: nat, b: nat): set<nat> {
    if x == a then s + {b} else if x == b then s + {a} else s
  }

  method JoinNodes(nodes: map<nat, InterfNode>, a: nat, b: nat)
    requires Linked(nodes) && a in nodes && b in nodes && a != b
    requires b in nodes[a].neighborSet <==> a in nodes[b].neighborSet
    requires RegSet(nodes[a].edgesStatic) == nodes[a].neighborSet && RegSet(nodes[b].edgesStatic) == nodes[b].neighborSet
    modifies nodes.Values
    ensures Linked(nodes)
    ensures forall x :: x in nodes ==> nodes[x].reg == old(nodes[x].reg)
    ensures forall x :: x in nodes ==> nodes[x].neighborSet == Gains(old(nodes[x].neighborSet), x, a, b)
    ensures forall x :: x in nodes ==> RegSet(nodes[x].edgesStatic) == Gains(old(RegSet(nodes[x].edgesStatic)), x, a, b)
  {
    assert NodeOk(nodes, a) && NodeOk(nodes, b);
    AppendReg(nodes[a].edgesStatic, nodes[b]);
    AppendReg(nodes[b].edgesStatic, nodes[a]);
    AppendReg(nodes[a].edgesDynamic, nodes[b]);
    AppendReg(nodes[b].edgesDynamic, nodes[a]);
    nodes[a].AddEdge(nodes[b]);
    forall x | x in nodes
      ensures NodeOk(nodes, x) && (x != a ==> nodes[x] != nodes[a]) && (x != b ==> nodes[x] != nodes[b])
    {
      assert old(NodeOk(nodes, x));
    }
  }

  // ----- Cliques -----

  lemma {:induction false} ExtendsNode(d: map<nat, set<nat>>, e: map<nat, set<nat>>, ks: set<nat>, pairs: set<(nat, nat)>, r: nat)
    requires Extends(d, e, ks, pairs)
    ensures Extends(d, if r in e then e else e[r := {}], ks + {r}, pairs)
  {
  }

  lemma {:induction false} ExtendsEdge(d: map<nat, set<nat>>, e: map<nat, set<nat>>, ks: set<nat>, pairs: set<(nat, nat)>, a: nat, b: nat)
    requires Extends(d, e, ks, pairs) && a in ks && b in ks && a in e && b in e
    ensures Extends(d, Joined(e, a, b), ks, pairs + {(a, b), (b, a)})
  {
  }

  /** Pairs of different members of `live`, with every pair that starts in `done`. */
  ghost predicate PairsOf(pairs: set<(nat, nat)>, live: set<nat>, done: set<nat>) {
    && (forall a, b :: (a, b) in pairs ==> a in live && b in live && a != b)
    && (forall a, b :: a in done && b in live && a != b ==> (a, b) in pairs)
  }

  /** One node joined with all others of the set. */
  method JoinAll(nodes0: map<nat, InterfNode>, it: nat, live: set<nat>, ghost d: map<nat, set<nat>>, ghost ks0: set<nat>,
                 ghost pairs0: set<(nat, nat)>, ghost done: set<nat>)
    returns (nodes: map<nat, InterfNode>, ghost ks: set<nat>, ghost pairs: set<(nat, nat)>)
    requires Built(nodes0) && it in live && Extends(d, Stat(nodes0), ks0, pairs0) && ks0 <= live && PairsOf(pairs0, live, done)
    modifies nodes0.Values
    ensures Built(nodes) && fresh(nodes.Values - nodes0.Values)
    ensures Extends(d, Stat(nodes), ks, pairs) && ks0 + {it} <= ks <= live && PairsOf(pairs, live, done + {it})
  {
    hide Built, Extends, Stat, PairsOf, Joining;
    nodes := GetNode(nodes0, it);
    ExtendsNode(d, Stat(nodes0), ks0, pairs0, it);
    ks, pairs := ks0 + {it}, pairs0;
    var rest := live;
    JoiningStart(live, ks0, pairs0, it, done);
    while rest != {}
      invariant it in nodes && Built(nodes) && fresh(nodes.Values - nodes0.Values)
      invariant Extends(d, Stat(nodes), ks, pairs)
      invariant rest <= live && Joining(live, ks0, ks, pairs, it, done, rest)
      decreases rest
    {
      var itLive := AnyOf(rest);
      JoiningNext(live, ks0, ks, pairs, it, done, rest, itLive);
      if it != itLive {
        nodes, ks, pairs := JoinPair(nodes, it, itLive, d, ks, pairs);
      }
      rest := rest - {itLive};
    }
    JoiningEnd(live, ks0, ks, pairs, it, done);
  }

  /** The state of the inner loop, apart from the nodes. */
  ghost predicate Joining(live: set<nat>, ks0: set<nat>, ks: set<nat>, pairs: set<(nat, nat)>, it: nat, done: set<nat>, rest: set<nat>) {
    && ks0 + {it} <= ks <= live && PairsOf(pairs, live, done)
    && forall b :: b in live && b !in rest && it != b ==> (it, b) in pairs
  }

  lemma {:induction false} JoiningStart(live: set<nat>, ks0: set<nat>, pairs: set<(nat, nat)>, it: nat, done: set<nat>)
    requires ks0 <= live && it in live && PairsOf(pairs, live, done)
    ensures Joining(live, ks0, ks0 + {it}, pairs, it, done, live) && it in ks0 + {it}
  {
  }

  lemma {:induction false} JoiningNext(live: set<nat>, ks0: set<nat>, ks: set<nat>, pairs: set<(nat, nat)>, it: nat, done: set<nat>,
                                       rest: set<nat>, x: nat)
    requires Joining(live, ks0, ks, pairs, it, done, rest) && x in rest && rest <= live && it in live
    ensures it in ks
    ensures x == it ==> Joining(live, ks0, ks, pairs, it, done, rest - {x})
    ensures x != it ==> Joining(live, ks0, ks + {x}, pairs + {(it, x), (x, it)}, it, done, rest - {x})
  {
  }

  lemma {:induction false} JoiningEnd(live: set<nat>, ks0: set<nat>, ks: set<nat>, pairs: set<(nat, nat)>, it: nat, done: set<nat>)
    requires Joining(live, ks0, ks, pairs, it, done, {})
    ensures ks0 + {it} <= ks <= live && PairsOf(pairs, live, done + {it})
  {
  }

  method JoinPair(nodes0: map<nat, InterfNode>, it: nat, itLive: nat, ghost d: map<nat, set<nat>>, ghost ks0: set<nat>,
                  ghost pairs0: set<(nat, nat)>)
    returns (nodes: map<nat, InterfNode>, ghost ks: set<nat>, ghost pairs: set<(nat, nat)>)
    requires Built(nodes0) && it in nodes0 && it in ks0 && it != itLive && Extends(d, Stat(nodes0), ks0, pairs0)
    modifies nodes0.Values
    ensures Built(nodes) && fresh(nodes.Values - nodes0.Values) && it in nodes
    ensures Extends(d, Stat(nodes), ks, pairs)
    ensures ks == ks0 + {itLive} && pairs == pairs0 + {(it, itLive), (itLive, it)}
  {
    hide Built, Extends, Stat;
    nodes := GetNode(nodes0, itLive);
    ExtendsNode(d, Stat(nodes0), ks0, pairs0, itLive);
    ks, pairs := ks0 + {itLive}, pairs0 + {(it, itLive), (itLive, it)};
    ExtendsEdge(d, Stat(nodes), ks, pairs0, it, itLive);
    Connect(nodes, it, itLive);
  }

  /** The nodes of a set and the edges between them. */
  ghost predicate WithClique(d: map<nat, set<nat>>, e: map<nat, set<nat>>, live: set<nat>) {
    && (forall r :: r in e <==> r in d || r in live)
    && (forall a, b :: a in e ==> (b in e[a] <==> (a in d && b in d[a]) || (a in live && b in live && a != b)))
  }

  /** Joins every two registers of a set. */
  method AddClique(nodes0: map<nat, InterfNode>, live: set<nat>) returns (nodes: map<nat, InterfNode>)
    requires Built(nodes0)
    modifies nodes0.Values
    ensures Built(nodes) && fresh(nodes.Values - nodes0.Values)
    ensures WithClique(old(Stat(nodes0)), Stat(nodes), live)
  {
    ghost var d := Stat(nodes0);
    ghost var ks: set<nat>, pairs: set<(nat, nat)> := {}, {};
    nodes := nodes0;
    assert Extends(d, Stat(nodes), ks, pairs) && PairsOf(pairs, live, {});
    hide Built, Extends, PairsOf, Stat;
    var rest := live;
    while rest != {}
      invariant rest <= live && live - rest <= ks <= live
      invariant Built(nodes) && fresh(nodes.Values - nodes0.Values)
      invariant Extends(d, Stat(nodes), ks, pairs) && PairsOf(pairs, live, live - rest)
      decreases rest
    {
      var it := AnyOf(rest);
      assert (live - rest) + {it} == live - (rest - {it});
      nodes, ks, pairs := JoinAll(nodes, it, live, d, ks, pairs, live - rest);
      rest := rest - {it};
    }
    CliqueComplete(d, Stat(nodes), live, ks, pairs);
  }

  lemma {:induction false} CliqueComplete(d: map<nat, set<nat>>, e: map<nat, set<nat>>, live: set<nat>, ks: set<nat>, pairs: set<(nat, nat)>)
    requires Extends(d, e, ks, pairs) && live - {} <= ks <= live && PairsOf(pairs, live, live - {})
    ensures WithClique(d, e, live)
  {
  }

  ghost predicate WithNodes(d: map<nat, set<nat>>, e: map<nat, set<nat>>, rs: set<nat>) {
    && (forall r :: r in e <==> r in d || r in rs)
    && (forall a, b :: a in e ==> (b in e[a] <==> a in d && b in d[a]))
  }

  /** Nodes for registers that may have no edge. */
  method AddNodes(nodes0: map<nat, InterfNode>, rs: set<nat>) returns (nodes: map<nat, InterfNode>)
    requires Built(nodes0)
    ensures Built(nodes) && fresh(nodes.Values - nodes0.Values)
    ensures WithNodes(Stat(nodes0), Stat(nodes), rs)
  {
    nodes := nodes0;
    ghost var d := Stat(nodes0);
    ghost var done: set<nat> := {};
    assert WithNodes(d, d, done);
    hide Built, Stat, WithNodes;
    var rest := rs;
    while rest != {}
      invariant Built(nodes) && fresh(nodes.Values - nodes0.Values)
      invariant WithNodes(d, Stat(nodes), done)
      invariant forall x :: x in rs <==> x in rest || x in done
      decreases rest
    {
      var it := AnyOf(rest);
      nodes := AddNode(nodes, it, d, done);
      rest, done := rest - {it}, done + {it};
    }
    assert done == rs;
  }

  method AddNode(nodes0: map<nat, InterfNode>, it: nat, ghost d: map<nat, set<nat>>, ghost done: set<nat>)
    returns (nodes: map<nat, InterfNode>)
    requires Built(nodes0) && WithNodes(d, Stat(nodes0), done)
    ensures Built(nodes) && fresh(nodes.Values - nodes0.Values)
    ensures WithNodes(d, Stat(nodes), done + {it})
  {
    hide Built, WithNodes;
    nodes := GetNode(nodes0, it);
    WithOneMore(d, Stat(nodes0), done, it);
  }

  lemma {:induction false} WithOneMore(d: map<nat, set<nat>>, e: map<nat, set<nat>>, rs: set<nat>, r: nat)
    requires WithNodes(d, e, rs)
    ensures WithNodes(d, if r in e then e else e[r := {}], rs + {r})
  {
  }
}
