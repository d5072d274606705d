/** The back end as the source runs it: stages that update the tables, the ports and the pipe state in place,
    each proved against its function in ProtocolStages and ProtocolCycle. */
module BlockProtocol {
  import Refill = ProtocolRefill
  import Runs = ProtocolRuns
  import Spec = ProtocolCycle
  import opened Collections
  import opened ProtocolFrontEnd
  import opened ProtocolSpec
  import opened ProtocolStages
  import opened ProtocolSteps

  /** What a stage reports about a block: a failed assertion, a switch to the frontend, none to work on, or one
      at hand. */
  datatype StageStatus = Failed | ToFrontend | NoBlock | Ready

  /** isBBcomplete. */
  predicate IsComplete(b: Block, done: set<Ins>) {
    forall x :: x in InsOf(b) ==> x in done
  }

  /** What only the proofs need: the blocks that left, and the positions of State. */
  datatype Log = Log(committed: seq<Block>, deleted: set<nat>, disp: nat, lim: nat)

  class BackEnd {
    var cache: seq<Block>
    var que: seq<Block>
    var rob: seq<Block>
    var st: map<nat, BlockState>
    var current: Option<Block>
    var inProgress: bool
    var f2d: seq<Ins>
    var d2s: seq<Ins>
    var win: set<Ins>
    var eu: set<Ins>
    var mem: set<Ins>
    var lq: set<Ins>
    var done: set<Ins>
    var pipe: PipeState
    var sn: nat
    var oldSn: nat
    var kind: SquashType
    var badIns: nat
    ghost var log: Log

    constructor ()
      ensures View() == Runs.Init()
    {
      cache, que, rob, st := [], [], [], map[];
      current, inProgress, f2d, d2s := None, false, [], [];
      win, eu, mem, lq, done := {}, {}, {}, {}, {};
      pipe, sn, oldSn, kind, badIns := Normal, 0, 0, NoMispred, 0;
      log := Log([], {}, 0, 0);
    }

    ghost function View(): State
      reads this
    {
      State(cache, que, rob, log.committed, log.deleted, st, current, inProgress, f2d, d2s, win, eu, mem, lq, done,
            pipe, sn, oldSn, kind, badIns, log.disp, log.lim)
    }

    /** The frontend delivers a block. */
    method Feed(b: Block)
      modifies this
      ensures View() == Runs.FeedBlock(old(View()), b)
    {
      cache := cache + [b];
      st := st[b.id := Fresh(b)];
    }

    // ----- commit.cpp -----

    method CommitImpl(ghost input: seq<Block>, width: nat) returns (ok: bool)
      requires Core(input, View())
      modifies this
      ensures match CommitRun(old(View()), width) case None => !ok case Some(t) => ok && View() == t
    {
      hide View, Core, FrontComplete, CommitBlock;
      var i := 0;
      while i < width
        invariant i <= width && Core(input, View())
        invariant CommitRun(View(), width - i) == CommitRun(old(View()), width)
      {
        if CanCommit(View()) { CommitKeepsCore(input, View()); }
        var r := CommitFront(input);
        if r == Failed { return false; }
        if r != Ready { break; }
        i := i + 1;
      }
      return true;
    }

    /** The checks on the front block, the assertion on its fetch, and its commit. */
    method CommitFront(ghost input: seq<Block>) returns (r: StageStatus)
      requires Core(input, View())
      modifies this
      ensures !FrontComplete(old(View())) ==> r == NoBlock && View() == old(View())
      ensures FrontComplete(old(View())) && !CanCommit(old(View())) ==> r == Failed
      ensures CanCommit(old(View())) ==> r == Ready && View() == CommitBlock(old(View()))
    {
      if rob != [] { FrontOfBoth(input, View()); }
      hide Core, InsOf, CommitBlock;
      if rob == [] { return NoBlock; }
      var bb := rob[0];
      if bb.wrongPath || st[bb.id].memViolation { return NoBlock; }
      if st[bb.id].wait != 0 { return NoBlock; }
      if !IsComplete(bb, done) { return NoBlock; }
      if !st[bb.id].doneFetch { return Failed; }
      CommitBB();
      return Ready;
    }

    method CommitBB()
      requires rob != [] && que != [] && rob[0] == que[0]
      modifies this`rob, this`que, this`done, this`lq, this`log
      ensures View() == CommitBlock(old(View()))
    {
      hide InsSet, Minus;
      var bb := PopFront();
      RetireIns(bb);
      log := log.(committed := log.committed + [bb], disp := Minus(log.disp, bb.size), lim := Minus(log.lim, bb.size));
    }

    method PopFront() returns (bb: Block)
      requires rob != [] && que != []
      modifies this`rob, this`que
      ensures bb == old(rob[0]) && rob == old(rob[1..]) && que == old(que[1..])
    {
      bb := rob[0];
      rob := rob[1..];
      que := que[1..];
    }

    method RetireIns(bb: Block)
      modifies this`done, this`lq
      ensures done == old(done) - InsSet(bb) && lq == old(lq) - InsSet(bb)
    {
      done := done - InsSet(bb);
      lq := lq - InsSet(bb);
    }

    // The squash of commit.cpp, with the offending block in front of both tables.

    method Squash(input: seq<Block>)
      requires ReadyToSquash(input, View())
      modifies this
      ensures View() == if old(kind) == BpMispred then BpSquash(old(View())).(kind := NoMispred)
                        else MemSquash(old(View())).(kind := NoMispred)
    {
      assert kind == BpMispred || kind == MemMispred;
      if kind == BpMispred { BpMispredSquash(input); } else { MemMispredSquash(input); }
      kind := NoMispred;
    }

    method BpMispredSquash(input: seq<Block>)
      requires ReadyToSquash(input, View()) && kind == BpMispred
      modifies this
      ensures View() == BpSquash(old(View()))
    {
      ghost var s := View();
      BeforeSquash(input, s);
      SquashBBROB();
      var start, stop := FindWrongPath();
      hide ReadyToSquash, ResetAll, WrongRun, DoneIn;
      PushBackAfter(View(), stop);
      ghost var t := View();
      DeleteBack(t, start, stop);
      BpLoops(s, t, View());
      hide BpSquash, DeletedBack, PushedBack;
      ClearPositions();
    }

    method MemMispredSquash(input: seq<Block>)
      requires ReadyToSquash(input, View()) && kind == MemMispred
      modifies this
      ensures View() == MemSquash(old(View()))
    {
      ghost var s := View();
      BeforeSquash(input, s);
      SquashBBROB();
      PushBackNotOlder(View());
      MemLoop(s, View());
      hide MemSquash, PushedBack;
      ClearPositions();
    }

    /** Drop from the back of bbROB what is not older than the squash number. */
    method SquashBBROB()
      requires forall b :: b in rob ==> b.head >= sn
      modifies this`rob
      ensures View() == old(View()).(rob := [])
    {
      var i := |rob| - 1;
      while i >= 0
        invariant -1 <= i && |rob| == i + 1
        invariant forall b :: b in rob ==> b.head >= sn
      {
        if rob[i].head < sn { break; }
        rob := rob[..i];
        i := i - 1;
      }
    }

    /** The stretch of bbQUE to delete: from the offending block to the last one before the correct path. */
    method FindWrongPath() returns (start: nat, stop: int)
      requires Ordered(que) && que != [] && que[0].head == sn && que[0].wrongPath
      requires forall b :: b in que ==> b.id in st
      ensures start == 0 && stop + 1 == WrongRun(que) && start <= stop < |que|
    {
      start, stop := 0, |que| - 1;
      var i := 0;
      while i < |que|
        invariant i <= |que| && start == 0 && stop == |que| - 1
        invariant forall j :: 0 <= j < i ==> que[j].wrongPath
      {
        var bb := que[i];
        assert bb in que;
        if bb.head == sn {
          start := i;
          assert bb.wrongPath;
        } else if bb.head > sn {
          if !(st[bb.id].memViolation || bb.wrongPath) || !bb.wrongPath {
            stop := i - 1;
            assert i > start;
            break;
          }
        }
        i := i + 1;
      }
      WrongRunEnds(que, stop + 1);
    }

    /** Push back the blocks behind `stop`, youngest first. */
    method PushBackAfter(ghost s: State, stop: nat)
      requires View() == s && stop < |que| && DoneIn(s)
      modifies this`que, this`cache, this`st, this`done
      ensures PushedBack(s, View(), stop + 1) && |que| == stop + 1
    {
      assert s.que == que;
      hide View, PushedBack, DoneIn;
      var i := |que| - 1;
      PushedBackNone(s);
      while i > stop
        invariant stop <= i < |s.que| && |que| == i + 1
        invariant PushedBack(s, View(), i + 1)
      {
        PushBack(s, i);
        i := i - 1;
      }
    }

    method PushBackNotOlder(ghost s: State)
      requires View() == s && DoneIn(s) && forall b :: b in que ==> b.head >= sn
      modifies this`que, this`cache, this`st, this`done
      ensures PushedBack(s, View(), 0)
    {
      assert s.que == que;
      hide View, PushedBack, DeletedBack, DoneIn;
      var i := |que| - 1;
      PushedBackNone(s);
      while i >= 0
        invariant -1 <= i && |que| == i + 1 && PushedBack(s, View(), i + 1)
        invariant forall b :: b in que ==> b.head >= sn
      {
        if que[i].head < sn { break; }
        PushBack(s, i);
        i := i - 1;
      }
    }

    method PushBack(ghost s: State, i: nat)
      requires |que| == i + 1 && PushedBack(s, View(), i + 1)
      modifies this`que, this`cache, this`st, this`done
      ensures PushedBack(s, View(), i) && que == old(que[..i])
    {
      var bb := que[i];
      ghost var u := View();
      PushedBackOne(s, u, i);
      hide PushedBack, InsSet, Fresh;
      cache := [bb] + cache;
      st := st[bb.id := Fresh(bb)];
      done := done - InsSet(bb);
      que := que[..i];
      assert View() == PushBackLast(u);
    }

    /** Delete the blocks from `stop` down to `start`. */
    method DeleteBack(ghost s: State, start: nat, stop: int)
      requires View() == s && DoneIn(s) && start == 0 && |que| == stop + 1
      requires forall b :: b in que ==> b.wrongPath && b.head >= sn && b.id in st
      modifies this`que, this`log, this`done
      ensures DeletedBack(s, View(), 0)
    {
      assert s.que == que;
      hide View, PushedBack, DeletedBack, DoneIn;
      var i := stop;
      DeletedBackNone(s);
      while i >= start
        invariant -1 <= i && |que| == i + 1 && DeletedBack(s, View(), i + 1)
        invariant forall b :: b in que ==> b.wrongPath && b.head >= sn && b.id in st
      {
        var bb := que[i];
        assert st[bb.id].memViolation || bb.wrongPath;
        assert bb.head >= sn;
        DeleteBB(s, i);
        i := i - 1;
      }
    }

    method DeleteBB(ghost s: State, i: nat)
      requires |que| == i + 1 && DeletedBack(s, View(), i + 1)
      modifies this`que, this`log, this`done
      ensures DeletedBack(s, View(), i) && que == old(que[..i])
    {
      var bb := que[i];
      ghost var u := View();
      DeletedBackOne(s, u, i);
      hide DeletedBack, InsSet;
      log := log.(deleted := log.deleted + {bb.id});
      done := done - InsSet(bb);
      que := que[..i];
      assert View() == DeleteLast(u);
    }

    method ClearPositions()
      modifies this`log
      ensures View() == old(View()).(disp := 0, lim := 0)
    {
      log := log.(disp := 0, lim := 0);
    }

    // ----- memory.cpp -----

    method Memory(loads: seq<Ins>)
      modifies this
      ensures View() == MemoryStage(old(View()), loads)
    {
      var i := 0;
      assert loads[..0] == [];
      while i < |loads|
        invariant i <= |loads| && View() == LoadsRun(old(View()), loads[..i])
      {
        assert loads[..i + 1][..i] == loads[..i];
        if loads[i] in mem {
          mem := mem - {loads[i]};
          done := done + {loads[i]};
        }
        i := i + 1;
      }
      assert loads[..|loads|] == loads;
      LoadsPipe(old(View()), loads);
      if pipe == Flush {
        mem := Below(mem, sn);
        lq := Below(lq, sn);
      }
    }

    // ----- execution.cpp -----

    method CompleteIns(events: seq<Event>)
      modifies this
      ensures View() == CompleteStage(old(View()), events)
    {
      BeginCompletion();
      var bad := CompleteEUs(if pipe == Flush then [] else events);
      if bad.Some? { SetSquash(bad.value.head); }
    }

    method BeginCompletion()
      modifies this`oldSn, this`badIns
      ensures View() == StartComplete(old(View()))
    {
      oldSn := sn;
      if pipe == Normal { badIns := 0; }
    }

    /** setSquashSN of g_variable.h. */
    method SetSquash(n: nat)
      modifies this`sn
      ensures View() == old(View()).(sn := SetSquashSN(old(sn), n))
    {
      if sn > 0 && n < sn { sn := n; } else if sn == 0 { sn := n; }
    }

    method CompleteEUs(events: seq<Event>) returns (bad: Option<Block>)
      modifies this
      ensures Completing(View(), bad) == CompleteAll(Completing(old(View()), None), events)
    {
      hide View, CompleteOne;
      bad := None;
      var i := 0;
      assert events[..0] == [];
      while i < |events|
        invariant i <= |events| && Completing(View(), bad) == CompleteAll(Completing(old(View()), None), events[..i])
      {
        assert events[..i + 1][..i] == events[..i];
        bad := CompleteEU(events[i], bad);
        i := i + 1;
      }
      assert events[..|events|] == events;
    }

    /** One execution unit: completion, then squash detection. */
    method CompleteEU(e: Event, bad0: Option<Block>) returns (bad: Option<Block>)
      modifies this`eu, this`mem, this`done, this`st, this`badIns, this`kind
      ensures Completing(View(), bad) == CompleteOne(Completing(old(View()), bad0), e)
    {
      bad := bad0;
      var x, v := e.x, e.v;
      if x in eu && (v.Some? ==> MayViolate(lq, done, x, v.value)) {
        WriteBack(x, e.isLoad, v);
        bad := DetectSquash(x, e.isLoad, v, bad0);
      }
    }

    method WriteBack(x: Ins, isLoad: bool, v: Option<Ins>)
      modifies this`eu, this`mem, this`done, this`st
      ensures View() == Completed(old(View()), x, isLoad, v)
    {
      eu := eu - {x};
      if isLoad {
        mem := mem + {x};
      } else {
        done := done + {x};
        if v.Some? && v.value.bb.id in st {
          st := st[v.value.bb.id := st[v.value.bb.id].(memViolation := true)];
        }
      }
    }

    method DetectSquash(x: Ins, isLoad: bool, v: Option<Ins>, bad0: Option<Block>) returns (bad: Option<Block>)
      modifies this`badIns, this`kind
      ensures View() == Detected(old(View()), x, isLoad, v)
      ensures bad == NextBlame(old(View()), x, isLoad, v, bad0)
    {
      bad := bad0;
      if !isLoad && v.Some? && (v.value.bb.head < badIns || badIns == 0) {
        bad := Some(v.value.bb);
        badIns := v.value.id;
        kind := MemMispred;
      } else if x.bb.wrongPath && (x.bb.head < badIns || badIns == 0) {
        bad := Some(x.bb);
        badIns := x.id;
        kind := BpMispred;
      }
    }

    method Execution(events: seq<Event>, issued: set<Ins>, wire: bool)
      modifies this
      ensures View() == ExecutionStage(old(View()), events, issued, wire)
    {
      CompleteIns(events);
      if sn == oldSn && pipe != WaitFlush && pipe != Flush {
        eu := eu + (issued * win);
        win := win - issued;
      }
      SquashControl(wire);
    }

    method SquashControl(wire: bool)
      modifies this
      ensures View() == SquashCtrl(old(View()), wire)
    {
      if sn != oldSn {
        pipe := WaitFlush;
      } else if pipe == Normal {
        kind, sn, oldSn := NoMispred, 0, 0;
      } else if pipe == WaitFlush {
        if eu == {} { pipe := Flush; }
      } else if pipe == Flush {
        pipe := Drain;
      } else if pipe == Drain && wire && rob != [] && rob[0].head >= sn {
        pipe := SquashRob;
      } else if pipe == SquashRob && rob == [] {
        kind, sn, oldSn, pipe := NoMispred, 0, 0, Normal;
      }
    }

    // ----- decode.cpp -----

    method FlushPort(p: seq<Ins>) returns (r: seq<Ins>)
      ensures r == Spec.FlushPort(p, sn)
    {
      r := p;
      while r != [] && r[|r| - 1].id >= sn
        invariant Spec.FlushPort(r, sn) == Spec.FlushPort(p, sn)
      {
        r := r[..|r| - 1];
      }
    }

    method Decode(n: nat)
      modifies this
      ensures View() == Spec.DecodeStage(old(View()), n)
    {
      if pipe == Flush {
        d2s := FlushPort(d2s);
      } else if pipe != WaitFlush {
        var i := 0;
        while i < n && f2d != []
          invariant i <= n && Spec.DecodeRun(View(), n - i) == Spec.DecodeRun(old(View()), n)
        {
          d2s := d2s + [f2d[0]];
          f2d := f2d[1..];
          i := i + 1;
        }
      }
    }

    // ----- schedulers.cpp -----

    method UpdateBBROB(input: seq<Block>)
      requires Core(input, View()) && d2s != []
      modifies this`rob
      ensures View() == PushRob(old(View()))
    {
      hide Core;
      var bb := d2s[0].bb;
      PushRobKeepsCore(input, View());
      if rob == [] {
        rob := rob + [bb];
      } else {
        var tail := rob[|rob| - 1];
        assert bb.id >= tail.id;
        if bb.id > tail.id { rob := rob + [bb]; }
      }
    }

    /** Write the instruction at the front of the port into the block window, and a load into the load queue. */
    method Dispatch(isLoad: bool)
      requires d2s != []
      modifies this`win, this`lq, this`d2s, this`log
      ensures View() == DispatchOne(old(View()), isLoad)
    {
      win := win + {d2s[0]};
      if isLoad { lq := lq + {d2s[0]}; }
      d2s := d2s[1..];
      log := log.(disp := log.disp + 1);
    }

    method UpdateBbWindows(input: seq<Block>, loads: seq<bool>)
      requires Core(input, View())
      modifies this
      ensures View() == Spec.DispatchRun(old(View()), loads) && Core(input, View())
    {
      hide View, Core, PushRob;
      var i := 0;
      assert loads[..0] == [];
      while i < |loads|
        invariant i <= |loads| && View() == Spec.DispatchRun(old(View()), loads[..i]) && Core(input, View())
      {
        assert loads[..i + 1][..i] == loads[..i];
        DispatchNext(input, loads[i]);
        i := i + 1;
      }
      assert loads[..|loads|] == loads;
    }

    method DispatchNext(input: seq<Block>, isLoad: bool)
      requires Core(input, View())
      modifies this
      ensures View() == if old(View()).d2s == [] then old(View()) else DispatchOne(PushRob(old(View())), isLoad)
      ensures Core(input, View())
    {
      hide Core, DispatchOne;
      if d2s != [] {
        PushRobKeepsCore(input, View());
        DispatchKeepsCore(input, PushRob(View()), isLoad);
        UpdateBBROB(input);
        Dispatch(isLoad);
      }
    }

    method Scheduler(input: seq<Block>, loads: seq<bool>, push: bool)
      requires Core(input, View())
      modifies this
      ensures View() == Spec.SchedulerStage(old(View()), loads, push)
    {
      if pipe == Flush {
        win := Below(win, sn);
      } else if pipe != WaitFlush {
        UpdateBbWindows(input, loads);
        if push && d2s != [] { UpdateBBROB(input); }
      }
    }

    // ----- fetch.cpp -----

    /** fetchBB with getNewBB. */
    method FetchBB(running: bool) returns (r: StageStatus)
      requires current.Some? ==> current.value.id in st
      modifies this
      ensures match Spec.FetchBB(old(View()), running)
              case Abort => r == Failed
              case Stop(t) => View() == t && r == (if GoToFrontend(old(View()), running) then ToFrontend else NoBlock)
              case Go(t) => View() == t && r == Ready
    {
      if inProgress { return Ready; }
      if (running && |cache| <= BB_NEAR_EMPTY_SIZE) || (!running && cache == [] && que == [] && rob == []) { return ToFrontend; }
      if current.Some? {
        if st[current.value.id].doneFetch { return Failed; }
        SetDoneFetch();
      }
      if cache == [] { return NoBlock; }
      PopBBcache();
      return Ready;
    }

    method SetDoneFetch()
      requires current.Some? && current.value.id in st
      modifies this`st
      ensures View() == SetDone(old(View()))
    {
      st := st[current.value.id := st[current.value.id].(doneFetch := true)];
    }

    /** popBBcache, and the push to bbQUE. */
    method PopBBcache()
      requires cache != []
      modifies this`current, this`que, this`cache
      ensures View() == PopCache(old(View()))
    {
      current := Some(cache[0]);
      que := que + [cache[0]];
      cache := cache[1..];
    }

    method UpdateBBfetchState()
      requires current.Some? && current.value.id in st
      modifies this`inProgress
      ensures View() == Update(old(View()))
    {
      inProgress := st[current.value.id].wait > 0;
    }

    method FetchIns()
      requires Spec.CanFetch(View())
      modifies this`f2d, this`st, this`log, this`inProgress
      ensures View() == Update(FetchOne(old(View())))
      ensures current.value.id in st
    {
      var b := current.value;
      var w := st[b.id].wait;
      f2d := f2d + [Ins(b.head + (b.size - w), b)];
      st := st[b.id := st[b.id].(wait := w - 1)];
      log := log.(lim := log.lim + 1);
      UpdateBBfetchState();
    }

    /** Keep the current block, or take a new one when it is read to its end. */
    method NextBlock(ghost input: seq<Block>, running: bool) returns (r: StageStatus)
      requires Core(input, View()) && Spec.Between(View())
      modifies this
      ensures match (if Spec.CanFetch(old(View())) then Spec.Go(old(View())) else Spec.FetchBB(old(View()), running))
              case Abort => r == Failed
              case Stop(t) => View() == t && r == (if GoToFrontend(old(View()), running) then ToFrontend else NoBlock)
              case Go(t) => View() == t && r == Ready
      ensures r != Failed ==> current.Some? && current.value.id in st
    {
      hide Core;
      if !Spec.CanFetch(View()) { Spec.FetchBBKeeps(input, View(), running); }
      r := Ready;
      if st[current.value.id].wait == 0 { r := FetchBB(running); }
    }

    method FetchImpl(ghost input: seq<Block>, running: bool, n: nat) returns (r: StageStatus)
      requires Core(input, View()) && FetchInv(View()) && pipe == Normal
      modifies this
      ensures match Spec.FetchImpl(old(View()), running, n) case None => r == Failed case Some(t) => r != Failed && View() == t
      ensures r == ToFrontend ==> GoToFrontend(View(), running)
      ensures r == ToFrontend <==> Refill.FetchStops(old(View()), running, n)
    {
      hide Core;
      Spec.FetchBBKeeps(input, View(), running);
      r := FetchBB(running);
      if r == Ready { r := FetchWidth(input, running, n); }
    }

    method FetchWidth(ghost input: seq<Block>, running: bool, n: nat) returns (r: StageStatus)
      requires Core(input, View()) && Spec.Between(View())
      modifies this
      ensures match Spec.Finish(Spec.FetchLoop(old(View()), running, n)) case None => r == Failed case Some(t) => r != Failed && View() == t
      ensures r == ToFrontend ==> GoToFrontend(View(), running)
      ensures r == ToFrontend <==> Refill.LoopStops(old(View()), running, n)
    {
      assert current.Some? && current.value.id in st;
      hide Core, Spec.FetchLoop, Spec.Between, Refill.LoopStops;
      r := FetchLoop(input, running, n);
      if r != Failed { UpdateBBfetchState(); }
    }

    method FetchLoop(ghost input: seq<Block>, running: bool, n: nat) returns (r: StageStatus)
      requires current.Some? && current.value.id in st
      requires Core(input, View()) && Spec.Between(View())
      modifies this
      ensures var q := Spec.FetchLoop(old(View()), running, n); if q.Abort? then r == Failed else r != Failed && View() == q.s
      ensures r == ToFrontend ==> GoToFrontend(View(), running)
      ensures r == ToFrontend <==> Refill.LoopStops(old(View()), running, n)
      ensures r != Failed ==> current.Some? && current.value.id in st
    {
      hide View, Core, FetchOne, Update, Spec.Between, Spec.CanFetch, Spec.FetchBB, GoToFrontend, Refill.AsksFrontend;
      var i := 0;
      r := Ready;
      while i < n
        invariant current.Some? && current.value.id in st
        invariant i <= n && r == Ready && Core(input, View()) && Spec.Between(View())
        invariant Spec.FetchLoop(View(), running, n - i) == Spec.FetchLoop(old(View()), running, n)
        invariant Refill.LoopStops(View(), running, n - i) == Refill.LoopStops(old(View()), running, n)
      {
        r := FetchNext(input, running);
        if r != Ready { break; }
        i := i + 1;
      }
    }

    method FetchNext(ghost input: seq<Block>, running: bool) returns (r: StageStatus)
      requires Core(input, View()) && Spec.Between(View())
      modifies this
      ensures var q := if Spec.CanFetch(old(View())) then Spec.Go(old(View())) else Spec.FetchBB(old(View()), running);
              match q
              case Abort => r == Failed
              case Stop(t) => View() == t && (r == ToFrontend || r == NoBlock) && (r == ToFrontend ==> GoToFrontend(t, running))
              case Go(t) => r == Ready && Spec.CanFetch(t) && View() == Update(FetchOne(t)) && Core(input, View()) && Spec.Between(View())
      ensures r == ToFrontend <==> !Spec.CanFetch(old(View())) && Refill.AsksFrontend(old(View()), running)
      ensures r != Failed ==> current.Some? && current.value.id in st
    {
      hide View, Core, FetchOne, Update, Spec.Between, Spec.FetchBB, GoToFrontend;
      LoopStep(input, View(), running);
      r := NextBlock(input, running);
      if r == Ready { FetchIns(); }
    }

    method Fetch(ghost input: seq<Block>, running: bool, n: nat) returns (r: StageStatus)
      requires pipe == Normal ==> Core(input, View()) && FetchInv(View())
      modifies this
      ensures match Spec.FetchStage(old(View()), running, n) case None => r == Failed case Some(t) => r != Failed && View() == t
      ensures r == ToFrontend ==> pipe == Normal && GoToFrontend(View(), running)
      ensures r == ToFrontend <==> Refill.FetchStops(old(View()), running, n)
    {
      r := Ready;
      if pipe == Flush {
        f2d := FlushPort(f2d);
        log := log.(lim := log.disp + |d2s| + |f2d|);
      } else if pipe == Normal {
        FetchImplPipe(View(), running, n);
        hide Core, FetchInv, GoToFrontend, Spec.FetchImpl, Refill.FetchStops;
        r := FetchImpl(input, running, n);
      }
    }

    // ----- sysCore.cpp -----

    /** What follows execution in a cycle that squashes. */
    method SquashAll(input: seq<Block>)
      requires Executed(input, View())
      modifies this
      ensures View() == SquashStage(old(View()))
    {
      if pipe == SquashRob {
        CurrentDropped(input, View());
        current, inProgress := None, false;
        hide Executed, BpSquash, MemSquash;
        if rob != [] { Squash(input); }
      }
    }

    /** One iteration of runCore. */
    method RunCycle(input: seq<Block>, ch: Spec.Choices) returns (ok: bool, toFrontend: bool)
      requires Inv(input, View())
      modifies this
      ensures match Spec.Cycle(old(View()), ch) case None => !ok case Some(t) => ok && View() == t && Inv(input, t)
      ensures toFrontend ==> ok && pipe == Normal && GoToFrontend(View(), ch.running)
      ensures toFrontend <==> Refill.Stops(old(View()), ch)
    {
      hide View, Inv, Core, Executed, Spec.Scheduled, Spec.AfterScheduler, CommitStage, SquashStage, GoToFrontend, Refill.FetchStops;
      ghost var s := View();
      Spec.CycleKeeps(input, s, ch);
      CommitStageKeeps(input, s, ch.commits);
      toFrontend := false;
      ok := Commit(input, ch.commits);
      if !ok { return; }
      RunBackEnd(input, ch);
      var r := RunFrontEnd(input, ch);
      ok, toFrontend := r != Failed, r == ToFrontend;
    }

    method Commit(ghost input: seq<Block>, width: nat) returns (ok: bool)
      requires Inv(input, View())
      modifies this
      ensures match CommitStage(old(View()), width) case None => !ok case Some(t) => ok && View() == t
    {
      ok := true;
      if pipe != WaitFlush && pipe != Flush { ok := CommitImpl(input, width); }
    }

    method RunBackEnd(input: seq<Block>, ch: Spec.Choices)
      requires Inv(input, View())
      modifies this
      ensures View() == Spec.AfterScheduler(old(View()), ch)
      ensures Spec.Scheduled(input, View())
    {
      hide View, Inv, Core, Executed, Spec.Scheduled, MemoryStage, ExecutionStage, SquashStage, Spec.SchedulerStage;
      ghost var s := View();
      Spec.BackEndKeeps(input, s, ch);
      Spec.StagesInOrder(input, s, ch);
      Memory(ch.loads);
      Execution(ch.events, ch.issued, ch.wire);
      SquashAll(input);
      Scheduler(input, ch.dispatched, ch.push);
    }

    method RunFrontEnd(input: seq<Block>, ch: Spec.Choices) returns (r: StageStatus)
      requires Spec.Scheduled(input, View())
      modifies this
      ensures match Spec.FetchStage(Spec.DecodeStage(old(View()), ch.decodes), ch.running, ch.fetches)
              case None => r == Failed
              case Some(t) => r != Failed && View() == t
      ensures r == ToFrontend ==> pipe == Normal && GoToFrontend(View(), ch.running)
      ensures r == ToFrontend <==> Refill.FetchStops(Spec.DecodeStage(old(View()), ch.decodes), ch.running, ch.fetches)
    {
      Spec.DecodedReady(input, View(), ch.decodes);
      hide Core, FetchInv, Spec.Scheduled, Spec.DecodeStage, Spec.FetchStage, GoToFrontend, Refill.FetchStops;
      Decode(ch.decodes);
      r := Fetch(input, ch.running, ch.fetches);
    }

    /** runCore: cycles until one leaves for the frontend, or the choices end. Between two cycles the invariant holds;
        with the frontend running, no assertion fails from a safe state. */
    method RunCore(input: seq<Block>, running: bool, choices: seq<Spec.Choices>) returns (ok: bool, left: bool, n: nat)
      requires Inv(input, View()) && forall c :: c in choices ==> c.running == running
      modifies this
      ensures n <= |choices| && (ok && !left ==> n == |choices|)
      ensures ok ==> Runs.After(old(View()), Runs.Ticks(choices[..n])) == Some(View()) && Inv(input, View())
      ensures left ==> ok && n > 0 && Refill.StopsAt(old(View()), choices, n - 1) && pipe == Normal && GoToFrontend(View(), running)
      ensures forall k :: 0 <= k < n && (left ==> k != n - 1) ==> !Refill.StopsAt(old(View()), choices, k)
      ensures !ok ==> n < |choices| && Runs.After(old(View()), Runs.Ticks(choices[..n + 1])) == None
      ensures running && old(Going(false)) ==> ok && Going(left)
    {
      hide View, Inv, Spec.Cycle, GoToFrontend, Refill.Stops, Going;
      n, ok, left := 0, true, false;
      while n < |choices|
        invariant ok && !left && n <= |choices| && Inv(input, View())
        invariant Runs.After(old(View()), Runs.Ticks(choices[..n])) == Some(View())
        invariant forall k :: 0 <= k < n ==> !Refill.StopsAt(old(View()), choices, k)
        invariant running && old(Going(false)) ==> Going(false)
      {
        Runs.OneMoreTick(old(View()), choices, n);
        ok, left := RunNext(input, running, choices[n]);
        if !ok { return; }
        n := n + 1;
        if left { return; }
      }
    }

    /** No assertion is about to fail while the frontend is running; `left` is set when it must fill the cache up first. */
    ghost predicate Going(left: bool)
      reads this
    {
      Spec.Open(View()) && if left then Refill.Held(View()) else Refill.Safe(View())
    }

    method RunNext(input: seq<Block>, running: bool, ch: Spec.Choices) returns (ok: bool, left: bool)
      requires Inv(input, View()) && ch.running == running
      modifies this
      ensures match Spec.Cycle(old(View()), ch) case None => !ok case Some(t) => ok && View() == t && Inv(input, t)
      ensures left ==> ok && pipe == Normal && GoToFrontend(View(), running)
      ensures left <==> Refill.Stops(old(View()), ch)
      ensures running && old(Going(false)) ==> ok && Going(left)
    {
      hide View, Inv, Spec.Cycle, GoToFrontend, Refill.Stops, Refill.Safe, Refill.Held, Spec.Open;
      if running && Going(false) { Refill.SafeCycle(input, View(), ch); }
      ok, left := RunCycle(input, ch);
    }

    /** backEnd while the application runs: it waits until the frontend has delivered enough blocks. Whatever the
        choices, no assertion fails and the next call may follow. */
    method BackEndRun(input: seq<Block>, choices: seq<Spec.Choices>) returns (ok: bool)
      requires Inv(input, View()) && Going(true) && forall c :: c in choices ==> c.running
      modifies this
      ensures ok && Inv(input, View()) && Going(true)
    {
      ok := true;
      if |cache| >= BB_CNT_THR {
        Refill.FilledUp(View());
        hide View, Inv, Refill.Stops, GoToFrontend;
        var left, n;
        ok, left, n := RunCore(input, true, choices);
      }
    }
  }

  /** How many blocks the back end waits for (pars.cpp). */
  const BB_CNT_THR := 500 + BB_NEAR_EMPTY_SIZE

  lemma {:induction false} FetchImplPipe(s: State, running: bool, n: nat)
    ensures var r := Spec.FetchImpl(s, running, n); r.Some? ==> r.value.pipe == s.pipe
  {
    var r := Spec.FetchBB(s, running);
    if r.Go? { LoopPipe(r.s, running, n); }
  }

  lemma {:induction false} LoopPipe(s: State, running: bool, n: nat)
    ensures var r := Spec.FetchLoop(s, running, n); !r.Abort? ==> r.s.pipe == s.pipe
    decreases n
  {
    if n > 0 {
      var r := if Spec.CanFetch(s) then Spec.Go(s) else Spec.FetchBB(s, running);
      if r.Go? && Spec.CanFetch(r.s) { LoopPipe(Update(FetchOne(r.s)), running, n - 1); }
    }
  }

  /** What one iteration of the fetch loop keeps. */
  lemma {:induction false} LoopStep(input: seq<Block>, s: State, running: bool)
    requires Core(input, s) && Spec.Between(s)
    ensures var r := if Spec.CanFetch(s) then Spec.Go(s) else Spec.FetchBB(s, running);
            r.Go? ==> Spec.CanFetch(r.s) && Core(input, Update(FetchOne(r.s))) && Spec.Between(Update(FetchOne(r.s)))
    ensures var r := if Spec.CanFetch(s) then Spec.Go(s) else Spec.FetchBB(s, running);
            && (r.Stop? ==> (GoToFrontend(s, running) ==> GoToFrontend(r.s, running)))
            && (r.Stop? ==> !s.inProgress && !Spec.CanFetch(s))
            && (!Spec.CanFetch(s) && Refill.AsksFrontend(s, running) ==> r.Stop?)
  {
    hide Core, FetchOne, Update;
    if !Spec.CanFetch(s) { Spec.FetchBBKeeps(input, s, running); }
    var r := if Spec.CanFetch(s) then Spec.Go(s) else Spec.FetchBB(s, running);
    if r.Go? { Spec.FetchStepKeeps(input, r.s); }
  }
}
