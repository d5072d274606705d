/** Programs of small blocks, for runs that are followed cycle by cycle. */
module SmallBlocks {
  import opened Collections
  import opened ProtocolCycle
  import opened ProtocolFrontEnd
  import opened ProtocolRuns
  import opened ProtocolSpec
  import opened ProtocolStages
  import opened ProtocolSteps

  /** Block `i` of a program of one-instruction blocks. With `w` the first one is on the wrong path, and the third one has
      two instructions. */
  function Small(w: bool, i: nat): Block {
    Block(i + 1, if w && i > 2 then i + 2 else i + 1, if w && i == 2 then 2 else 1, w && i == 0)
  }

  function Deliveries(w: bool, n: nat): seq<Action> {
    if n == 0 then [] else Deliveries(w, n - 1) + [Feed(Small(w, n - 1))]
  }

  function Smalls(w: bool, n: nat): (s: seq<Block>)
    ensures |s| == n && forall i :: 0 <= i < n ==> s[i] == Small(w, i)
  {
    seq(n, i requires 0 <= i < n => Small(w, i))
  }

  ghost function FreshTable(w: bool, n: nat): (st: map<nat, BlockState>)
    ensures forall k :: 1 <= k <= n ==> k in st && st[k] == Fresh(Small(w, k - 1))
  {
    if n == 0 then map[] else FreshTable(w, n - 1)[n := Fresh(Small(w, n - 1))]
  }

  lemma {:induction false} OneMore(r: seq<Action>, a: Action)
    ensures Fed(r + [a]) == Extend(Fed(r), a)
    ensures After(Init(), r + [a]) == if After(Init(), r).None? then None else Step(After(Init(), r).value, a)
    ensures AlwaysRunning(r) && (a.Tick? ==> a.ch.running) ==> AlwaysRunning(r + [a])
  {
    hide Step, Extend;
    assert (r + [a])[..|r|] == r;
  }

  lemma {:induction false} AfterDeliveries(w: bool, n: nat)
    ensures After(Init(), Deliveries(w, n)) == Some(Init().(cache := Smalls(w, n), st := FreshTable(w, n)))
    ensures Fed(Deliveries(w, n)) == Smalls(w, n) && |Deliveries(w, n)| == n && AlwaysRunning(Deliveries(w, n))
  {
    hide Smalls, FreshTable, FeedBlock, Small, Cycle;
    if n > 0 {
      AfterDeliveries(w, n - 1);
      SmallsExtend(w, n);
      NextDelivered(w, n - 1);
      hide After, Fed, AlwaysRunning;
      OneMore(Deliveries(w, n - 1), Feed(Small(w, n - 1)));
    } else {
      NoDelivery(w);
    }
  }

  lemma {:induction false} NoDelivery(w: bool)
    ensures Init().(cache := Smalls(w, 0), st := FreshTable(w, 0)) == Init() && Fed([]) == Smalls(w, 0)
  {
  }

  lemma {:induction false} SmallsOrdered(w: bool, n: nat)
    ensures Ordered(Smalls(w, n))
  {
  }

  lemma {:induction false} SmallsExtend(w: bool, n: nat)
    requires n > 0
    ensures Smalls(w, n) == Smalls(w, n - 1) + [Small(w, n - 1)]
  {
  }

  lemma {:induction false} NextDelivered(w: bool, n: nat)
    requires Smalls(w, n + 1) == Smalls(w, n) + [Small(w, n)]
    ensures FeedBlock(Init().(cache := Smalls(w, n), st := FreshTable(w, n)), Small(w, n))
            == Init().(cache := Smalls(w, n + 1), st := FreshTable(w, n + 1))
  {
  }

  const IDLE := Choices(0, [], [], {}, false, [], false, 0, true, 0)

  lemma {:induction false} IdleBackEnd(s: State, ch: Choices)
    requires s.pipe == Normal && s.sn == 0 && s.oldSn == 0 && s.badIns == 0 && s.kind == NoMispred
    requires ch.loads == [] && ch.events == [] && ch.dispatched == [] && !ch.push
    ensures AfterScheduler(s, ch) == Issue(s, ch.issued)
  {
    assert CompleteAll(Completing(StartComplete(s), None), []) == Completing(s, None);
  }

  lemma {:induction false} IssueNone(s: State)
    ensures Issue(s, {}) == s
  {
    assert s.win - {} == s.win && s.eu + ({} * s.win) == s.eu;
  }
}
