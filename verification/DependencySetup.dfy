/** In-block dependence links (instruction.cpp, basicblock.cpp) and what a schedule that keeps them
    preserves. */
module DependencySetup {
  import opened Collections
  import opened Dependence
  import opened ListSchedule

  datatype Operand = Operand(reg: nat, isWrite: bool)

  datatype Op = Op(kind: char, memWrite: bool, operands: seq<Operand>, latency: nat)

  ghost predicate Reads(o: Op, r: nat) {
    Operand(r, false) in o.operands
  }

  ghost predicate Writes(o: Op, r: nat) {
    Operand(r, true) in o.operands
  }

  predicate IsBranch(o: Op) {
    o.kind == 'j' || o.kind == 'c' || o.kind == 'r' || o.kind == 'b'
  }

  predicate IsStore(o: Op) {
    o.kind == 'M' && o.memWrite
  }

  /** Memory operations are kept in order, all of them or only stores according to the mode. */
  predicate InMemOrder(o: Op, loadStoreOrder: bool) {
    o.kind == 'M' && (loadStoreOrder || o.memWrite)
  }

  /** With these tables `o` depends on `x`: the last writer of a register that it reads, or the last store. */
  ghost predicate TableLink(o: Op, loadStoreOrder: bool, regWrites: map<nat, nat>, memWrites: seq<nat>, x: nat) {
    || (exists r :: Reads(o, r) && r in regWrites && regWrites[r] == x)
    || (InMemOrder(o, loadStoreOrder) && memWrites != [] && memWrites[|memWrites| - 1] == x)
  }

  /** Links are recorded at both ends and lead from earlier to later instructions. */
  ghost predicate Forward(deps: seq<seq<nat>>, ancs: seq<seq<nat>>) {
    && |deps| == |ancs|
    && (forall i, d :: 0 <= i < |deps| && 0 <= d < |deps| ==> (d in deps[i] <==> i in ancs[d]))
    && (forall i, a :: 0 <= i < |ancs| && a in ancs[i] && a < |deps| ==> a < i)
  }

  /** Only the list of instruction `i` changed. */
  ghost predicate OnlyAt(ancs0: seq<seq<nat>>, ancs: seq<seq<nat>>, i: nat) {
    |ancs0| == |ancs| && forall k :: 0 <= k < |ancs| && k != i ==> ancs[k] == ancs0[k]
  }

  /** The dependent and ancestor lists of the instructions of a block, with the dependency table. Numbers
      from |deps| on name instructions of other blocks, which the table may hold too. */
  class DependencyTable {
    var deps: seq<seq<nat>>
    var ancs: seq<seq<nat>>
    var regWrites: map<nat, nat>
    var memWrites: seq<nat>

    constructor (n: nat, regWrites: map<nat, nat>, memWrites: seq<nat>)
      ensures |deps| == n && Forward(deps, ancs) && forall i :: 0 <= i < n ==> ancs[i] == []
      ensures this.regWrites == regWrites && this.memWrites == memWrites
    {
      deps, ancs := seq(n, _ => []), seq(n, _ => []);
      this.regWrites, this.memWrites := regWrites, memWrites;
    }

    /** setAsDependent on one instruction and setAsAncestor on the other. */
    method Link(x: nat, i: nat)
      requires Forward(deps, ancs) && i < |deps| && (x < |deps| ==> x < i)
      modifies this`deps, this`ancs
      ensures Forward(deps, ancs) && |deps| == old(|deps|) && ancs == old(ancs)[i := old(ancs)[i] + [x]]
    {
      if x < |deps| { deps := deps[x := deps[x] + [i]]; }
      ancs := ancs[i := ancs[i] + [x]];
    }

    /** The instruction gets exactly the links that the tables name; then it enters the tables. */
    method DependencyTableCheck(i: nat, o: Op, loadStoreOrder: bool)
      requires Forward(deps, ancs) && i < |deps| && Earlier(regWrites, memWrites, i, |deps|)
      modifies this
      ensures Forward(deps, ancs) && |deps| == old(|deps|) && OnlyAt(old(ancs), ancs, i)
      ensures forall x :: x in ancs[i] <==> x in old(ancs)[i] || TableLink(o, loadStoreOrder, old(regWrites), old(memWrites), x)
      ensures memWrites == old(memWrites) + if IsStore(o) then [i] else []
      ensures forall r :: r in regWrites <==> r in old(regWrites) || Writes(o, r)
      ensures forall r :: r in regWrites ==> regWrites[r] == if Writes(o, r) then i else old(regWrites)[r]
      ensures Earlier(regWrites, memWrites, i + 1, |deps|)
    {
      LinkReads(i, o);
      if o.kind == 'M' && (loadStoreOrder || o.memWrite) && |memWrites| > 0 {
        assert memWrites[|memWrites| - 1] in memWrites;
        Link(memWrites[|memWrites| - 1], i);
      }
      if o.kind == 'M' && o.memWrite { memWrites := memWrites + [i]; }
      AddWrites(i, o);
    }

    method LinkReads(i: nat, o: Op)
      requires Forward(deps, ancs) && i < |deps| && Earlier(regWrites, memWrites, i, |deps|)
      modifies this`deps, this`ancs
      ensures Forward(deps, ancs) && |deps| == old(|deps|) && OnlyAt(old(ancs), ancs, i)
      ensures forall x :: x in ancs[i] <==> x in old(ancs)[i] || exists r :: Reads(o, r) && r in regWrites && regWrites[r] == x
    {
      var k := 0;
      while k < |o.operands|
        invariant 0 <= k <= |o.operands|
        invariant Forward(deps, ancs) && |deps| == old(|deps|) && OnlyAt(old(ancs), ancs, i)
        invariant forall x :: x in ancs[i] <==> x in old(ancs)[i] || ReadLink(o, regWrites, k, x)
      {
        if !o.operands[k].isWrite && o.operands[k].reg in regWrites {
          var ins := regWrites[o.operands[k].reg];
          if ins !in ancs[i] { Link(ins, i); }
        }
        k := k + 1;
      }
      ReadLinks(o, regWrites);
    }

    method AddWrites(i: nat, o: Op)
      modifies this`regWrites
      ensures forall r :: r in regWrites <==> r in old(regWrites) || Writes(o, r)
      ensures forall r :: r in regWrites ==> regWrites[r] == if Writes(o, r) then i else old(regWrites)[r]
    {
      var k := 0;
      while k < |o.operands|
        invariant 0 <= k <= |o.operands|
        invariant forall r :: r in regWrites <==> r in old(regWrites) || Operand(r, true) in o.operands[..k]
        invariant forall r :: r in regWrites ==>
                    regWrites[r] == if Operand(r, true) in o.operands[..k] then i else old(regWrites)[r]
      {
        assert o.operands[..k + 1] == o.operands[..k] + [o.operands[k]];
        if o.operands[k].isWrite { regWrites := regWrites[o.operands[k].reg := i]; }
        k := k + 1;
      }
      assert o.operands[..k] == o.operands;
    }

    /** From the last instruction to the first: every branch depends on exactly what stands before it, besides
        the links that it has. */
    method BrDependencyTableCheck(ops: seq<Op>)
      requires Forward(deps, ancs) && |ops| == |deps|
      modifies this`deps, this`ancs
      ensures Forward(deps, ancs) && |deps| == old(|deps|)
      ensures forall b, x: nat :: 0 <= b < |ops| ==> (x in ancs[b] <==> x in old(ancs)[b] || (x < b && IsBranch(ops[b])))
    {
      var brList: seq<nat> := [];
      var i := |ops|;
      while i > 0
        invariant 0 <= i <= |ops|
        invariant Forward(deps, ancs) && |deps| == old(|deps|)
        invariant forall b :: b in brList <==> i <= b < |ops| && IsBranch(ops[b])
        invariant forall b, x: nat :: 0 <= b < |ops| ==> (x in ancs[b] <==> x in old(ancs)[b] || (i <= x < b && IsBranch(ops[b])))
      {
        i := i - 1;
        if IsBranch(ops[i]) { brList := brList + [i]; }
        LinkBranches(i, brList);
      }
    }

    method LinkBranches(i: nat, brList: seq<nat>)
      requires Forward(deps, ancs) && i < |deps| && forall b :: b in brList ==> i <= b < |deps|
      modifies this`deps, this`ancs
      ensures Forward(deps, ancs) && |deps| == old(|deps|)
      ensures forall b, x: nat :: 0 <= b < |ancs| ==> (x in ancs[b] <==> x in old(ancs)[b] || (x == i && b in brList && b != i))
    {
      var j := 0;
      while j < |brList|
        invariant 0 <= j <= |brList|
        invariant Forward(deps, ancs) && |deps| == old(|deps|)
        invariant forall b, x: nat :: 0 <= b < |ancs| ==> (x in ancs[b] <==> x in old(ancs)[b] || (x == i && b in brList[..j] && b != i))
      {
        var br := brList[j];
        assert br in brList && brList[..j + 1] == brList[..j] + [br];
        if br != i { Link(i, br); }
        j := j + 1;
      }
      assert brList[..j] == brList;
    }
  }

  /** Some read among the first `k` operands has the writer `x` in the table. */
  ghost predicate ReadLink(o: Op, regWrites: map<nat, nat>, k: nat, x: nat)
    requires k <= |o.operands|
  {
    exists l :: 0 <= l < k && !o.operands[l].isWrite && o.operands[l].reg in regWrites && regWrites[o.operands[l].reg] == x
  }

  lemma {:induction false} ReadLinks(o: Op, regWrites: map<nat, nat>)
    ensures forall x :: ReadLink(o, regWrites, |o.operands|, x) <==> exists r :: Reads(o, r) && r in regWrites && regWrites[r] == x
  {
    forall x | ReadLink(o, regWrites, |o.operands|, x) ensures exists r :: Reads(o, r) && r in regWrites && regWrites[r] == x {
      var l :| 0 <= l < |o.operands| && !o.operands[l].isWrite && o.operands[l].reg in regWrites && regWrites[o.operands[l].reg] == x;
      assert o.operands[l] == Operand(o.operands[l].reg, false) && Reads(o, o.operands[l].reg);
    }
    forall r | Reads(o, r) && r in regWrites ensures ReadLink(o, regWrites, |o.operands|, regWrites[r]) {
      var l :| 0 <= l < |o.operands| && o.operands[l] == Operand(r, false);
    }
  }

  /** The table holds instructions of other blocks and earlier ones of this block. */
  ghost predicate Earlier(regWrites: map<nat, nat>, memWrites: seq<nat>, i: nat, n: nat) {
    && (forall r :: r in regWrites && regWrites[r] < n ==> regWrites[r] < i)
    && (forall x :: x in memWrites && x < n ==> x < i)
  }

  // ----- SSA blocks of register operations -----

  /** Each register is written by at most one instruction, and read only after it. */
  ghost predicate Ssa(ops: seq<Op>) {
    && (forall j, k, r :: 0 <= j < |ops| && 0 <= k < |ops| && Writes(ops[j], r) && Writes(ops[k], r) ==> j == k)
    && (forall i, j, r :: 0 <= i < |ops| && 0 <= j < |ops| && Reads(ops[i], r) && Writes(ops[j], r) ==> j < i)
  }

  /** Every in-block writer of a register is an ancestor of each of its readers. */
  ghost predicate DataLinked(ops: seq<Op>, g: Dag) {
    forall i, j, r :: 0 <= i < |ops| && 0 <= j < |ops| && Reads(ops[i], r) && Writes(ops[j], r) ==> Edge(g, j, i)
  }

  // ----- The links of a block -----

  /** The last store before instruction `i`. */
  ghost predicate LastStore(ops: seq<Op>, i: nat, a: nat) {
    a < i <= |ops| && IsStore(ops[a]) && forall k :: a < k < i ==> !IsStore(ops[k])
  }

  ghost predicate DataLink(ops: seq<Op>, a: nat, i: nat)
    requires a < |ops| && i < |ops|
  {
    exists r :: Reads(ops[i], r) && Writes(ops[a], r)
  }

  /** Instruction `i` depends on `a`: it reads what `a` writes, follows it as the last store, or is a branch after it. */
  ghost predicate Linked(ops: seq<Op>, loadStoreOrder: bool, a: nat, i: nat)
    requires a < |ops| && i < |ops|
  {
    || DataLink(ops, a, i)
    || (InMemOrder(ops[i], loadStoreOrder) && LastStore(ops, i, a))
    || (IsBranch(ops[i]) && a < i)
  }

  /** The graph has exactly the links of the block. */
  ghost predicate LinksOf(ops: seq<Op>, loadStoreOrder: bool, g: Dag) {
    && Valid(g) && |g.deps| == |ops| && (forall i :: 0 <= i < |ops| ==> g.latency[i] == ops[i].latency)
    && forall a, i :: 0 <= a < |ops| && 0 <= i < |ops| ==> (Edge(g, a, i) <==> Linked(ops, loadStoreOrder, a, i))
  }

  /** The tables name the in-block writers and the last store among the first `n` instructions. */
  ghost predicate TablesOf(ops: seq<Op>, regWrites: map<nat, nat>, memWrites: seq<nat>, n: nat) {
    && n <= |ops| && (forall j, r :: 0 <= j < n && Writes(ops[j], r) ==> r in regWrites && regWrites[r] == j)
    && (forall r :: r in regWrites && regWrites[r] < |ops| ==> Writes(ops[regWrites[r]], r))
    && (forall a :: 0 <= a < |ops| ==> (memWrites != [] && memWrites[|memWrites| - 1] == a <==> LastStore(ops, n, a)))
  }

  /** The first `n` instructions have their data and memory links, the others none. */
  ghost predicate LinkedUpTo(ops: seq<Op>, loadStoreOrder: bool, ancs: seq<seq<nat>>, n: nat) {
    && n <= |ops| == |ancs| && (forall i :: n <= i < |ops| ==> ancs[i] == [])
    && forall a, i :: 0 <= a < |ops| && 0 <= i < n ==>
         (a in ancs[i] <==> DataLink(ops, a, i) || (InMemOrder(ops[i], loadStoreOrder) && LastStore(ops, i, a)))
  }

  /** Data, memory and control links of one block: exactly those of Linked, all of them forward. */
  method SetupBlock(ops: seq<Op>, loadStoreOrder: bool, regWrites: map<nat, nat>, memWrites: seq<nat>) returns (g: Dag)
    requires Ssa(ops) && forall i :: 0 <= i < |ops| ==> ops[i].latency > 0
    requires Earlier(regWrites, memWrites, 0, |ops|)
    ensures LinksOf(ops, loadStoreOrder, g) && Acyclic(g) && forall i, d :: Edge(g, i, d) ==> i < d
  {
    var t := new DependencyTable(|ops|, regWrites, memWrites);
    NothingBefore(ops, t.regWrites, t.memWrites);
    var i := 0;
    while i < |ops|
      invariant 0 <= i <= |ops| == |t.deps|
      invariant Forward(t.deps, t.ancs) && Earlier(t.regWrites, t.memWrites, i, |ops|)
      invariant TablesOf(ops, t.regWrites, t.memWrites, i) && LinkedUpTo(ops, loadStoreOrder, t.ancs, i)
    {
      ghost var table, stores, ancs := t.regWrites, t.memWrites, t.ancs;
      hide TableLink, TablesOf, LinkedUpTo, Linked, LastStore, DataLink, Writes, Reads, Ssa;
      t.DependencyTableCheck(i, ops[i], loadStoreOrder);
      NextTables(ops, table, stores, t.regWrites, t.memWrites, i);
      NextLinks(ops, loadStoreOrder, table, stores, ancs, t.ancs, i);
      i := i + 1;
    }
    ghost var ancs := t.ancs;
    t.BrDependencyTableCheck(ops);
    g := Dag(t.deps, t.ancs, seq(|ops|, k requires 0 <= k < |ops| => ops[k].latency));
    AllLinks(ops, loadStoreOrder, ancs, g);
    ForwardIsAcyclic(g);
  }

  lemma {:induction false} NothingBefore(ops: seq<Op>, regWrites: map<nat, nat>, memWrites: seq<nat>)
    requires Earlier(regWrites, memWrites, 0, |ops|)
    ensures TablesOf(ops, regWrites, memWrites, 0)
  {
    assert memWrites != [] ==> memWrites[|memWrites| - 1] in memWrites;
  }

  lemma {:induction false} NextTables(ops: seq<Op>, table0: map<nat, nat>, stores0: seq<nat>, table: map<nat, nat>, stores: seq<nat>, i: nat)
    requires Ssa(ops) && i < |ops| && TablesOf(ops, table0, stores0, i)
    requires forall r :: r in table <==> r in table0 || Writes(ops[i], r)
    requires forall r :: r in table ==> table[r] == if Writes(ops[i], r) then i else table0[r]
    requires stores == stores0 + if IsStore(ops[i]) then [i] else []
    ensures TablesOf(ops, table, stores, i + 1)
  {
    var n := i + 1;
    forall a | 0 <= a < |ops| ensures stores != [] && stores[|stores| - 1] == a <==> LastStore(ops, n, a) {
      if !IsStore(ops[i]) { assert LastStore(ops, n, a) <==> LastStore(ops, i, a); }
    }
  }

  lemma {:induction false} NextLinks(ops: seq<Op>, loadStoreOrder: bool, table: map<nat, nat>, stores: seq<nat>,
                                     ancs0: seq<seq<nat>>, ancs: seq<seq<nat>>, i: nat)
    requires Ssa(ops) && i < |ops| && TablesOf(ops, table, stores, i) && LinkedUpTo(ops, loadStoreOrder, ancs0, i) && OnlyAt(ancs0, ancs, i)
    requires forall x :: x in ancs[i] <==> x in ancs0[i] || TableLink(ops[i], loadStoreOrder, table, stores, x)
    ensures LinkedUpTo(ops, loadStoreOrder, ancs, i + 1)
  {
    forall a | 0 <= a < |ops|
      ensures a in ancs[i] <==> DataLink(ops, a, i) || (InMemOrder(ops[i], loadStoreOrder) && LastStore(ops, i, a))
    {
      assert DataLink(ops, a, i) <==> exists r :: Reads(ops[i], r) && r in table && table[r] == a;
    }
  }

  lemma {:induction false} AllLinks(ops: seq<Op>, loadStoreOrder: bool, ancs: seq<seq<nat>>, g: Dag)
    requires LinkedUpTo(ops, loadStoreOrder, ancs, |ops|) && |g.deps| == |g.latency| == |ops| && Forward(g.deps, g.ancs)
    requires forall b, x: nat :: 0 <= b < |ops| ==> (x in g.ancs[b] <==> x in ancs[b] || (x < b && IsBranch(ops[b])))
    requires forall i :: 0 <= i < |ops| ==> g.latency[i] == ops[i].latency && ops[i].latency > 0
    ensures LinksOf(ops, loadStoreOrder, g)
  {
    forall a, i | 0 <= a < |ops| && 0 <= i < |ops| ensures Edge(g, a, i) <==> Linked(ops, loadStoreOrder, a, i) {
      assert Edge(g, a, i) <==> a in g.ancs[i];
    }
  }

  lemma {:induction false} ForwardIsAcyclic(g: Dag)
    requires |g.deps| == |g.ancs| == |g.latency| && Forward(g.deps, g.ancs)
    ensures Acyclic(g) && forall i, d :: Edge(g, i, d) ==> i < d
  {
    var rank: seq<nat> := seq(|g.deps|, k requires 0 <= k < |g.deps| => |g.deps| - k);
    forall i: nat, d: nat | Edge(g, i, d) ensures i < d { assert i in g.ancs[d]; }
    assert Ranked(g, rank);
  }

  // ----- Running a block -----

  /** What an instruction computes is any function of the values it reads. */
  type Semantics = (nat, map<nat, int>, nat) -> int

  ghost function ReadSet(o: Op): set<nat> {
    set k | 0 <= k < |o.operands| && !o.operands[k].isWrite :: o.operands[k].reg
  }

  ghost function Inputs(o: Op, regs: nat -> int): map<nat, int> {
    map r | r in ReadSet(o) :: regs(r)
  }

  ghost function ExecOne(ops: seq<Op>, sem: Semantics, regs: nat -> int, x: nat): nat -> int {
    if x < |ops|
    then var vals := Inputs(ops[x], regs);
         (r: nat) => if Writes(ops[x], r) then sem(x, vals, r) else regs(r)
    else regs
  }

  /** The registers after the instructions of `o`, in that order. */
  ghost function Exec(ops: seq<Op>, sem: Semantics, init: nat -> int, o: seq<nat>): nat -> int {
    if o == [] then init else ExecOne(ops, sem, Exec(ops, sem, init, o[..|o| - 1]), o[|o| - 1])
  }

  ghost predicate WrittenBy(ops: seq<Op>, s: seq<nat>, r: nat) {
    exists x :: x in s && x < |ops| && Writes(ops[x], r)
  }

  /** The first instructions of an order leave each register they write as the whole order does. */
  lemma {:induction false} PrefixIsFinal(ops: seq<Op>, sem: Semantics, init: nat -> int, o: seq<nat>, k: nat, r: nat)
    requires Ssa(ops) && IsPermutation(o, |ops|) && k <= |o| && WrittenBy(ops, o[..k], r)
    ensures Exec(ops, sem, init, o[..k])(r) == Exec(ops, sem, init, o)(r)
    decreases |o| - k
  {
    if k == |o| {
      assert o[..k] == o;
    } else {
      var x :| x in o[..k] && x < |ops| && Writes(ops[x], r);
      assert o[..k + 1][..k] == o[..k] && o[k] in o;
      assert x in o[..k + 1];
      PrefixIsFinal(ops, sem, init, o, k + 1, r);
      assert x != o[k];
    }
  }

  lemma {:induction false} WrittenLater(ops: seq<Op>, o: seq<nat>, n: nat, r: nat)
    requires n <= |o|
    ensures WrittenBy(ops, o[..n], r) ==> WrittenBy(ops, o, r)
  {
    forall x | x in o[..n] ensures x in o { }
  }

  lemma {:induction false} UnwrittenIsInitial(ops: seq<Op>, sem: Semantics, init: nat -> int, o: seq<nat>, r: nat)
    requires !WrittenBy(ops, o, r)
    ensures Exec(ops, sem, init, o)(r) == init(r)
  {
    if o != [] {
      var n := |o| - 1;
      WrittenLater(ops, o, n, r);
      UnwrittenIsInitial(ops, sem, init, o[..n], r);
      assert o[n] in o;
    }
  }

  /** In an order that keeps the data links, an instruction reads the final values of the registers that
      the block writes and the initial values of the others. */
  lemma {:induction false} ReadsSettled(ops: seq<Op>, sem: Semantics, init: nat -> int, o: seq<nat>, k: nat, r: nat)
    requires Ssa(ops) && IsPermutation(o, |ops|) && k < |o| && o[k] < |ops| && Reads(ops[o[k]], r)
    requires forall j :: 0 <= j < |o| && o[j] < |ops| && Writes(ops[o[j]], r) ==> j < k
    ensures Exec(ops, sem, init, o[..k])(r) == if WrittenBy(ops, o, r) then Exec(ops, sem, init, o)(r) else init(r)
  {
    if WrittenBy(ops, o, r) {
      var x :| x in o && x < |ops| && Writes(ops[x], r);
      var j :| 0 <= j < |o| && o[j] == x;
      assert o[j] in o[..k];
      PrefixIsFinal(ops, sem, init, o, k, r);
    } else {
      WrittenLater(ops, o, k, r);
      UnwrittenIsInitial(ops, sem, init, o[..k], r);
    }
  }

  /** The final value of a register is what its writer computes from settled inputs. */
  lemma {:induction false} FinalValue(ops: seq<Op>, sem: Semantics, init: nat -> int, o: seq<nat>, k: nat, r: nat)
    requires Ssa(ops) && IsPermutation(o, |ops|) && k < |o| && o[k] < |ops| && Writes(ops[o[k]], r)
    ensures Exec(ops, sem, init, o)(r) == sem(o[k], Inputs(ops[o[k]], Exec(ops, sem, init, o[..k])), r)
  {
    assert o[..k + 1][..k] == o[..k] && o[k] in o && o[k] in o[..k + 1];
    PrefixIsFinal(ops, sem, init, o, k + 1, r);
  }

  ghost predicate KeepsData(ops: seq<Op>, o: seq<nat>) {
    forall j, k, r :: 0 <= j < |o| && 0 <= k < |o| && o[j] < |ops| && o[k] < |ops| && Writes(ops[o[j]], r) && Reads(ops[o[k]], r) ==> j < k
  }

  /** Two orders that keep the data links leave every register alike. */
  lemma {:induction false} OrdersAgree(ops: seq<Op>, sem: Semantics, init: nat -> int, o: seq<nat>, q: seq<nat>, k: nat, r: nat)
    requires Ssa(ops) && IsPermutation(o, |ops|) && IsPermutation(q, |ops|) && KeepsData(ops, o) && KeepsData(ops, q)
    requires k < |o| && o[k] < |ops| && Writes(ops[o[k]], r) && (forall x: nat :: x < |ops| ==> x in o && x in q)
    ensures Exec(ops, sem, init, o)(r) == Exec(ops, sem, init, q)(r)
    decreases k
  {
    var x := o[k];
    assert x in o && x in q;
    var l :| 0 <= l < |q| && q[l] == x;
    FinalValue(ops, sem, init, o, k, r);
    FinalValue(ops, sem, init, q, l, r);
    var a, b := Inputs(ops[x], Exec(ops, sem, init, o[..k])), Inputs(ops[x], Exec(ops, sem, init, q[..l]));
    forall s | s in ReadSet(ops[x]) ensures a[s] == b[s] {
      ReadOf(ops[x], s);
      ReadsSettled(ops, sem, init, o, k, s);
      ReadsSettled(ops, sem, init, q, l, s);
      SameWritten(ops, o, q, s);
      if WrittenBy(ops, o, s) {
        var y :| y in o && y < |ops| && Writes(ops[y], s);
        var j :| 0 <= j < |o| && o[j] == y;
        OrdersAgree(ops, sem, init, o, q, j, s);
      }
    }
    assert a == b;
  }

  lemma {:induction false} ReadOf(o: Op, r: nat)
    requires r in ReadSet(o)
    ensures Reads(o, r)
  {
    var k :| 0 <= k < |o.operands| && !o.operands[k].isWrite && o.operands[k].reg == r;
    assert o.operands[k] == Operand(r, false);
  }

  lemma {:induction false} SameWritten(ops: seq<Op>, o: seq<nat>, q: seq<nat>, r: nat)
    requires forall x: nat :: x < |ops| ==> x in o && x in q
    ensures WrittenBy(ops, o, r) <==> WrittenBy(ops, q, r)
  {
    if x :| x in o && x < |ops| && Writes(ops[x], r) { assert x in q; }
    if x :| x in q && x < |ops| && Writes(ops[x], r) { assert x in o; }
  }

  /** An order that puts in-block ancestors first keeps the data links. */
  lemma {:induction false} TopologicalKeepsData(ops: seq<Op>, g: Dag, o: seq<nat>)
    requires Valid(g) && |g.deps| == |ops| && DataLinked(ops, g) && Topological(g, o)
    ensures KeepsData(ops, o)
  {
    forall j, k, r | 0 <= j < |o| && 0 <= k < |o| && o[j] < |ops| && o[k] < |ops| && Writes(ops[o[j]], r) && Reads(ops[o[k]], r)
      ensures j < k
    {
      assert Edge(g, o[j], o[k]);
    }
  }

  lemma {:induction false} OriginalOrder(ops: seq<Op>)
    requires Ssa(ops)
    ensures IsPermutation(Positions(|ops|), |ops|) && KeepsData(ops, Positions(|ops|))
    ensures forall x: nat :: x < |ops| ==> x in Positions(|ops|)
  {
    var q := Positions(|ops|);
    PositionsAre(|ops|);
    assert forall k :: 0 <= k < |q| ==> q[k] == k;
  }

  lemma {:induction false} PositionsAre(n: nat)
    ensures |Positions(n)| == n && forall k: nat :: k < n ==> Positions(n)[k] == k && k in Positions(n)
    ensures forall x :: x in Positions(n) ==> x < n
  {
    if n > 0 {
      PositionsAre(n - 1);
      assert Positions(n)[n - 1] == n - 1;
    }
  }

  lemma {:induction false} PermutationCovers(o: seq<nat>, n: nat)
    requires IsPermutation(o, n)
    ensures forall x: nat :: x < n ==> x in o
  {
    NoDupCount(o);
    forall x | x in Picked(o) ensures x in Indices(n) { }
    SubsetSmaller(Picked(o), Indices(n));
    forall x: nat | x < n ensures x in o { assert x in Indices(n); }
  }

  /** Scheduling preserves meaning: on an SSA block of register operations, every order in which in-block
      ancestors come first leaves each register as the original order does. */
  lemma {:induction false} SchedulePreservesRegisters(ops: seq<Op>, g: Dag, sem: Semantics, init: nat -> int, o: seq<nat>, r: nat)
    requires Ssa(ops) && Valid(g) && |g.deps| == |ops| && DataLinked(ops, g)
    requires IsPermutation(o, |ops|) && Topological(g, o)
    ensures Exec(ops, sem, init, o)(r) == Exec(ops, sem, init, Positions(|ops|))(r)
  {
    var q := Positions(|ops|);
    TopologicalKeepsData(ops, g, o);
    OriginalOrder(ops);
    PermutationCovers(o, |ops|);
    SameWritten(ops, o, q, r);
    if WrittenBy(ops, o, r) {
      var x :| x in o && x < |ops| && Writes(ops[x], r);
      var k :| 0 <= k < |o| && o[k] == x;
      OrdersAgree(ops, sem, init, o, q, k, r);
    } else {
      UnwrittenIsInitial(ops, sem, init, o, r);
      UnwrittenIsInitial(ops, sem, init, q, r);
    }
  }

  lemma {:induction false} LinksAreData(ops: seq<Op>, loadStoreOrder: bool, g: Dag)
    requires LinksOf(ops, loadStoreOrder, g)
    ensures DataLinked(ops, g)
  {
    forall i, j, r | 0 <= i < |ops| && 0 <= j < |ops| && Reads(ops[i], r) && Writes(ops[j], r) ensures Edge(g, j, i) {
      assert DataLink(ops, j, i) && Linked(ops, loadStoreOrder, j, i);
    }
  }

  /** In every order `b` stays behind an earlier `a`: both are stores, or `a` is a store and `b` a load whose order is
      kept, or `b` is a branch. */
  ghost predicate KeptBehind(a: Op, b: Op, loadStoreOrder: bool) {
    || (a.kind == 'M' && a.memWrite && b.kind == 'M' && (b.memWrite || loadStoreOrder))
    || b.kind in {'j', 'c', 'r', 'b'}
  }

  /** From a store to a later memory operation that is kept in order there is a link, or a chain of stores. */
  lemma {:induction false} StoreChain(ops: seq<Op>, loadStoreOrder: bool, g: Dag, o: seq<nat>, j: nat, k: nat)
    requires LinksOf(ops, loadStoreOrder, g) && IsPermutation(o, |ops|) && Topological(g, o)
    requires j < |o| && k < |o| && o[j] < o[k] < |ops| && IsStore(ops[o[j]]) && InMemOrder(ops[o[k]], loadStoreOrder)
    ensures j < k
    decreases o[k]
  {
    var a, i := o[j], o[k];
    var m := LastStoreFrom(ops, a, i);
    assert Linked(ops, loadStoreOrder, m, i) && Edge(g, m, i);
    if m != a {
      PermutationCovers(o, |ops|);
      assert m in o;
      var l :| 0 <= l < |o| && o[l] == m;
      StoreChain(ops, loadStoreOrder, g, o, j, l);
    }
  }

  lemma {:induction false} LastStoreFrom(ops: seq<Op>, a: nat, i: nat) returns (m: nat)
    requires a < i <= |ops| && IsStore(ops[a])
    ensures a <= m && LastStore(ops, i, m)
    decreases i - a
  {
    if k :| a < k < i && IsStore(ops[k]) { m := LastStoreFrom(ops, k, i); } else { m := a; }
  }

  /** Every order with ancestors first keeps the stores, the branches and, where asked for, the loads behind what has to
      be done before them. */
  lemma {:induction false} MemoryAndBranchesKept(ops: seq<Op>, loadStoreOrder: bool, g: Dag, o: seq<nat>, j: nat, k: nat)
    requires LinksOf(ops, loadStoreOrder, g) && IsPermutation(o, |ops|) && Topological(g, o)
    requires j < |o| && k < |o| && o[j] < o[k] < |ops| && KeptBehind(ops[o[j]], ops[o[k]], loadStoreOrder)
    ensures j < k
  {
    hide LastStore, DataLink;
    if IsBranch(ops[o[k]]) {
      assert Linked(ops, loadStoreOrder, o[j], o[k]) && Edge(g, o[j], o[k]);
    } else {
      hide LinksOf;
      StoreChain(ops, loadStoreOrder, g, o, j, k);
    }
  }

  /** Dependence setup and list scheduling of one block: whatever the instructions compute, the scheduled
      block leaves every register as the block did; stores, and loads where asked for, stay behind the stores before
      them; and a branch stays behind everything before it. */
  method ScheduleBlock(ops: seq<Op>, loadStoreOrder: bool, regWrites: map<nat, nat>, memWrites: seq<nat>)
    returns (order: seq<nat>, ghost g: Dag)
    requires Ssa(ops) && forall i :: 0 <= i < |ops| ==> ops[i].latency > 0
    requires Earlier(regWrites, memWrites, 0, |ops|)
    ensures IsPermutation(order, |ops|) && LinksOf(ops, loadStoreOrder, g) && IsSchedule(g, order)
    ensures forall sem: Semantics, init: nat -> int, r: nat ::
              Exec(ops, sem, init, order)(r) == Exec(ops, sem, init, Positions(|ops|))(r)
    ensures forall j, k :: 0 <= j < |order| && 0 <= k < |order| && order[j] < order[k] < |ops| ==>
              (KeptBehind(ops[order[j]], ops[order[k]], loadStoreOrder) ==> j < k)
  {
    var links := SetupBlock(ops, loadStoreOrder, regWrites, memWrites);
    g := links;
    LinksAreData(ops, loadStoreOrder, g);
    ghost var s, rounds;
    order, s, rounds := ListSchedule.ListSchedule(links);
    hide ByLongestPath, ScheduleAfter, Ssa, Topological, DataLinked, LinksOf;
    forall sem: Semantics, init: nat -> int, r: nat | true
      ensures Exec(ops, sem, init, order)(r) == Exec(ops, sem, init, Positions(|ops|))(r)
    {
      SchedulePreservesRegisters(ops, g, sem, init, order, r);
    }
    forall j, k | 0 <= j < |order| && 0 <= k < |order| && order[j] < order[k] < |ops|
        && KeptBehind(ops[order[j]], ops[order[k]], loadStoreOrder)
      ensures j < k
    {
      MemoryAndBranchesKept(ops, loadStoreOrder, g, order, j, k);
    }
  }
}
