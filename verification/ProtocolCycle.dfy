/** The remaining stages, one whole cycle of runCore (sysCore.cpp), and all runs. */
module ProtocolCycle {
  import opened Collections
  import opened ProtocolFrontEnd
  import opened ProtocolSpec
  import opened ProtocolStages
  import opened ProtocolSteps

  // ----- schedulers.cpp -----

  /** One dispatched instruction for every entry, which says whether it is a load. */
  ghost function DispatchRun(s: State, loads: seq<bool>): State {
    if loads == [] then s
    else
      var r := DispatchRun(s, loads[..|loads| - 1]);
      if r.d2s == [] then r else DispatchOne(PushRob(r), loads[|loads| - 1])
  }

  /** `push`: the next block entered bbROB, but its first instruction could not be dispatched. */
  ghost function SchedulerStage(s: State, loads: seq<bool>, push: bool): State {
    if s.pipe == Flush then s.(win := Below(s.win, s.sn))
    else if s.pipe == WaitFlush then s
    else
      var r := DispatchRun(s, loads);
      if push && r.d2s != [] then PushRob(r) else r
  }

  /** What dispatch leaves alone. */
  ghost predicate DispatchFrame(s: State, t: State) {
    && t == s.(rob := t.rob, win := t.win, lq := t.lq, d2s := t.d2s, disp := t.disp)
    && (s.d2s == [] ==> t == s)
  }

  lemma {:induction false} DispatchRunKeeps(input: seq<Block>, s: State, loads: seq<bool>)
    requires Core(input, s)
    ensures Core(input, DispatchRun(s, loads)) && DispatchFrame(s, DispatchRun(s, loads))
  {
    hide Core, NewToRob;
    if loads != [] {
      var n := |loads| - 1;
      var r := DispatchRun(s, loads[..n]);
      DispatchRunKeeps(input, s, loads[..n]);
      if r.d2s != [] {
        PushRobKeepsCore(input, r);
        DispatchKeepsCore(input, PushRob(r), loads[n]);
      }
    }
  }

  /** What holds after scheduling, by pipe state. */
  ghost predicate Scheduled(input: seq<Block>, s: State) {
    && Core(input, s)
    && match s.pipe
       case Normal => s.sn == 0 && FetchInv(s)
       case WaitFlush => InEpisode(s)
       case Flush => InEpisode(s) && s.eu == {} && AllBelow(s.win, s.sn)
       case Drain => PipeInv(s)
       case SquashRob => PipeInv(s)
  }

  /** What holds when scheduling starts. */
  ghost predicate Squashed(input: seq<Block>, s: State) {
    if s.pipe == SquashRob then Inv(input, s) else Executed(input, s)
  }

  lemma {:induction false} EmptyPorts(s: State)
    requires PortInv(s) && s.que == []
    ensures s.d2s == [] && s.f2d == []
  {
    assert |s.d2s + s.f2d| == 0;
  }

  lemma {:induction false} SchedulerStageKeeps(input: seq<Block>, s: State, loads: seq<bool>, push: bool)
    requires Squashed(input, s)
    ensures Scheduled(input, SchedulerStage(s, loads, push))
    ensures SchedulerStage(s, loads, push).pipe == s.pipe && SchedulerStage(s, loads, push).sn == s.sn
  {
    hide Core, InEpisode, NewToRob;
    if s.pipe == Flush {
      FlushedWindows(input, s);
    } else if s.pipe != WaitFlush {
      DispatchStageKeeps(input, s, loads, push);
      if s.pipe == SquashRob { NothingQueued(input, s); }
    }
  }

  lemma {:induction false} NothingQueued(input: seq<Block>, s: State)
    requires Core(input, s) && s.que == []
    ensures s.d2s == [] && s.f2d == []
  {
    EmptyPorts(s);
  }

  lemma {:induction false} DispatchStageKeeps(input: seq<Block>, s: State, loads: seq<bool>, push: bool)
    requires Core(input, s) && s.pipe != Flush && s.pipe != WaitFlush
    ensures Core(input, SchedulerStage(s, loads, push)) && DispatchFrame(s, SchedulerStage(s, loads, push))
  {
    hide Core, NewToRob;
    DispatchRunKeeps(input, s, loads);
    var r := DispatchRun(s, loads);
    if r.d2s != [] { PushRobKeepsCore(input, r); }
  }

  lemma {:induction false} FlushedWindows(input: seq<Block>, s: State)
    requires Core(input, s) && InEpisode(s)
    ensures Core(input, s.(win := Below(s.win, s.sn))) && InEpisode(s.(win := Below(s.win, s.sn)))
  {
    SameTables(s, s.(win := Below(s.win, s.sn)));
    hide InEpisode, Ordered, Without, All, AllSet, Start;
  }

  // ----- decode.cpp -----

  /** flushPort: drop from the back what is not older than `sn`. */
  function FlushPort(p: seq<Ins>, sn: nat): seq<Ins> {
    if p == [] || p[|p| - 1].id < sn then p else FlushPort(p[..|p| - 1], sn)
  }

  ghost function DecodeRun(s: State, n: nat): State
    decreases n
  {
    if n == 0 || s.f2d == [] then s else DecodeRun(DecodeOne(s), n - 1)
  }

  ghost function DecodeStage(s: State, n: nat): State {
    if s.pipe == Flush then s.(d2s := FlushPort(s.d2s, s.sn))
    else if s.pipe == WaitFlush then s
    else DecodeRun(s, n)
  }

  lemma {:induction false} DecodeRunKeeps(input: seq<Block>, s: State, n: nat)
    requires Core(input, s)
    ensures Core(input, DecodeRun(s, n))
    ensures DecodeRun(s, n) == s.(f2d := DecodeRun(s, n).f2d, d2s := DecodeRun(s, n).d2s)
    ensures s.f2d == [] ==> DecodeRun(s, n) == s
    decreases n
  {
    hide Core;
    if n > 0 && s.f2d != [] {
      DecodeKeepsCore(input, s);
      DecodeRunKeeps(input, DecodeOne(s), n - 1);
    }
  }

  lemma {:induction false} FlushAll(p: seq<Ins>, sn: nat)
    requires forall x :: x in p ==> x.id >= sn
    ensures FlushPort(p, sn) == []
  {
    if p != [] {
      assert p[|p| - 1] in p;
      FlushAll(p[..|p| - 1], sn);
    }
  }

  /** What waits in the ports is not older than the offending block. */
  lemma {:induction false} PortsYounger(input: seq<Block>, s: State)
    requires Core(input, s) && InEpisode(s)
    ensures forall x :: x in s.d2s || x in s.f2d ==> x.id >= s.sn
  {
    WaitingYounger(input, s);
    hide InEpisode, Ordered;
    var waiting := s.d2s + s.f2d;
    forall x | x in s.d2s || x in s.f2d ensures x.id >= s.sn {
      assert x in waiting;
      var i :| 0 <= i < |waiting| && waiting[i] == x;
      assert All(s.que)[s.disp + i] == x;
    }
  }

  lemma {:induction false} WaitingYounger(input: seq<Block>, s: State)
    requires Core(input, s) && InEpisode(s)
    ensures forall p :: s.disp <= p < s.lim ==> All(s.que)[p].id >= s.sn
  {
    var b :| Offender(s, b);
    var k :| 0 <= k < |s.rob| && s.rob[k] == b;
    QueueOrdered(input, s);
    hide Ordered, StreamInv, FlightInv;
    assert s.rob <= s.que && Start(s.que, k) <= s.disp;
    forall p | s.disp <= p < s.lim ensures All(s.que)[p].id >= s.sn { PositionYounger(s, k, p); }
  }

  lemma {:induction false} PositionYounger(s: State, k: nat, p: nat)
    requires Ordered(s.que) && s.rob <= s.que && k < |s.rob| && Start(s.que, k) <= p < |All(s.que)|
    ensures All(s.que)[p].id >= s.rob[k].head
  {
    var j := BlockOfPos(s.que, p);
    assert s.rob[k] == s.que[k];
    if j < k {
      StartMono(s.que, j + 1, k);
      BlockAt(s.que, j);
    }
  }

  // ----- fetch.cpp -----

  /** The assertion of setDoneFetch fails, no block could be had, or there is one to fetch from. */
  datatype FetchResult = Abort | Stop(s: State) | Go(s: State)

  ghost function FetchBB(s: State, running: bool): FetchResult {
    if s.inProgress then Go(s)
    else if GoToFrontend(s, running) then Stop(s)
    else if DoneTwice(s) then Abort
    else if SetDone(s).cache == [] then Stop(SetDone(s))
    else Go(PopCache(SetDone(s)))
  }

  ghost predicate CanFetch(s: State) {
    && s.current.Some? && s.current.value.id in s.st
    && 0 < s.st[s.current.value.id].wait <= s.current.value.size
  }

  /** `n` instructions are fetched unless a new block is needed and there is none. */
  ghost function FetchLoop(s: State, running: bool, n: nat): FetchResult
    decreases n
  {
    if n == 0 then Stop(s)
    else
      var r := if CanFetch(s) then Go(s) else FetchBB(s, running);
      if r.Go? && CanFetch(r.s) then FetchLoop(Update(FetchOne(r.s)), running, n - 1) else r
  }

  ghost function FetchImpl(s: State, running: bool, n: nat): Option<State> {
    match FetchBB(s, running)
    case Abort => None
    case Stop(t) => Some(t)
    case Go(t) => Finish(FetchLoop(t, running, n))
  }

  ghost function Finish(r: FetchResult): Option<State> {
    if r.Abort? then None else Some(Update(r.s))
  }

  ghost function FetchStage(s: State, running: bool, n: nat): Option<State> {
    if s.pipe == Flush then
      var f := FlushPort(s.f2d, s.sn);
      Some(s.(f2d := f, lim := s.disp + |s.d2s| + |f|))
    else if s.pipe == Normal then FetchImpl(s, running, n)
    else Some(s)
  }

  /** What fetch leaves alone. */
  ghost predicate FetchFrame(s: State, t: State) {
    t == s.(cache := t.cache, que := t.que, st := t.st, current := t.current, inProgress := t.inProgress, f2d := t.f2d, lim := t.lim)
  }

  lemma {:induction false} FetchBBKeeps(input: seq<Block>, s: State, running: bool)
    requires Core(input, s) && FetchInv(s)
    ensures var r := FetchBB(s, running);
            match r
            case Abort => DoneTwice(s)
            case Stop(t) => Core(input, t) && FetchInv(t) && FetchFrame(s, t)
            case Go(t) => Core(input, t) && Fetching(t) && CanFetch(t) && FetchFrame(s, t)
  {
    hide Core, All;
    if !s.inProgress && !DoneTwice(s) {
      SetDoneKeeps(input, s);
      hide FetchInv, Fetching, FetchIdle;
      if s.cache != [] { PopCacheKeeps(input, SetDone(s)); }
    }
  }

  lemma {:induction false} FetchStepKeeps(input: seq<Block>, s: State)
    requires Core(input, s) && Fetching(s) && CanFetch(s)
    ensures var t := Update(FetchOne(s)); Core(input, t) && Fetching(t) && FetchInv(t) && FetchFrame(s, t)
  {
    FetchOneKeeps(input, s);
    UpdateKeeps(input, FetchOne(s));
    hide Core;
  }

  /** Between iterations: fetching from the current block, or at its end with the state updated. */
  ghost predicate Between(s: State) {
    Fetching(s) && (CanFetch(s) || FetchInv(s))
  }

  lemma {:induction false} FetchLoopKeeps(input: seq<Block>, s: State, running: bool, n: nat)
    requires Core(input, s) && Between(s)
    ensures match FetchLoop(s, running, n)
            case Abort => true
            case Stop(t) => Core(input, t) && (Fetching(t) || FetchInv(t)) && FetchFrame(s, t)
            case Go(t) => Core(input, t) && (Fetching(t) || FetchInv(t)) && FetchFrame(s, t)
    decreases n
  {
    hide Core, FetchInv, Fetching, Update, FetchOne;
    if n > 0 {
      if !CanFetch(s) { FetchBBKeeps(input, s, running); }
      var r := if CanFetch(s) then Go(s) else FetchBB(s, running);
      if r.Go? {
        FetchStepKeeps(input, r.s);
        FetchLoopKeeps(input, Update(FetchOne(r.s)), running, n - 1);
      }
    }
  }

  lemma {:induction false} FetchImplKeeps(input: seq<Block>, s: State, running: bool, n: nat)
    requires Core(input, s) && FetchInv(s)
    ensures var r := FetchImpl(s, running, n);
            r.Some? ==> Core(input, r.value) && FetchInv(r.value) && FetchFrame(s, r.value)
  {
    hide Core, FetchInv, Fetching, FetchLoop;
    FetchBBKeeps(input, s, running);
    var r := FetchBB(s, running);
    if r.Go? {
      FetchLoopKeeps(input, r.s, running, n);
      var q := FetchLoop(r.s, running, n);
      if !q.Abort? { UpdateKeeps(input, q.s); }
    }
  }

  /** Fetch aborts exactly when the current block was already marked as done: the cache was empty when its
      end was reached and no squash came since. */
  lemma {:induction false} FetchAborts(input: seq<Block>, s: State, running: bool, n: nat)
    requires Core(input, s) && FetchInv(s)
    ensures FetchImpl(s, running, n) == None <==> DoneTwice(s) && !GoToFrontend(s, running)
  {
    hide Core, GoToFrontend;
    FetchBBKeeps(input, s, running);
    var r := FetchBB(s, running);
    if r.Go? { LoopNeverAborts(input, r.s, running, n); }
  }

  lemma {:induction false} LoopNeverAborts(input: seq<Block>, s: State, running: bool, n: nat)
    requires Core(input, s) && Between(s)
    ensures !FetchLoop(s, running, n).Abort?
    decreases n
  {
    hide Core, FetchInv, Update, FetchOne;
    if n > 0 {
      if !CanFetch(s) { FetchBBKeeps(input, s, running); }
      var r := if CanFetch(s) then Go(s) else FetchBB(s, running);
      if r.Go? {
        FetchStepKeeps(input, r.s);
        LoopNeverAborts(input, Update(FetchOne(r.s)), running, n - 1);
      }
    }
  }

  /** While the frontend is running, a block is never marked as done before the next one is taken. */
  lemma {:induction false} RunningLeavesOpen(input: seq<Block>, s: State, n: nat)
    requires Core(input, s) && FetchInv(s) && !DoneTwice(s)
    ensures FetchImpl(s, true, n).Some? && !DoneTwice(FetchImpl(s, true, n).value)
  {
    hide Core;
    FetchAborts(input, s, true, n);
    FetchBBKeeps(input, s, true);
    var r := FetchBB(s, true);
    if r.Go? { RunningLoopLeavesOpen(input, r.s, n); }
  }

  lemma {:induction false} RunningLoopLeavesOpen(input: seq<Block>, s: State, n: nat)
    requires Core(input, s) && Between(s)
    ensures !FetchLoop(s, true, n).Abort? && !DoneTwice(FetchLoop(s, true, n).s)
    decreases n
  {
    hide Core, FetchInv, Update, FetchOne;
    if n > 0 {
      if !CanFetch(s) { FetchBBKeeps(input, s, true); }
      var r := if CanFetch(s) then Go(s) else FetchBB(s, true);
      if r.Go? {
        FetchStepKeeps(input, r.s);
        RunningLoopLeavesOpen(input, Update(FetchOne(r.s)), n - 1);
      }
    }
  }

  lemma {:induction false} FlushedPorts(input: seq<Block>, s: State)
    requires Core(input, s)
    ensures Core(input, s.(d2s := [], f2d := [], lim := s.disp))
  {
    hide Ordered, Without, All, AllSet, Start;
    assert [] + [] == All(s.que)[s.disp..s.disp];
  }

  /** Decode and fetch keep the invariant; a flush empties both ports. */
  lemma {:induction false} FrontEndKeeps(input: seq<Block>, s: State, decodes: nat, running: bool, fetches: nat)
    requires Scheduled(input, s)
    ensures var r := FetchStage(DecodeStage(s, decodes), running, fetches);
            if r.Some? then Inv(input, r.value) && r.value.pipe == s.pipe && r.value.sn == s.sn
            else s.pipe == Normal && DoneTwice(s)
  {
    hide Core, InEpisode, FetchImpl, DecodeRun, GoToFrontend;
    if s.pipe == Flush {
      FlushKeeps(input, s);
    } else if s.pipe == Normal {
      DecodeRunKeeps(input, s, decodes);
      FetchImplKeeps(input, DecodeRun(s, decodes), running, fetches);
      FetchAborts(input, DecodeRun(s, decodes), running, fetches);
    } else if s.pipe != WaitFlush {
      DecodeRunKeeps(input, s, decodes);
      if s.pipe == SquashRob { NothingQueued(input, s); }
    }
  }

  lemma {:induction false} FlushKeeps(input: seq<Block>, s: State)
    requires Core(input, s) && s.pipe == Flush && InEpisode(s)
    ensures FlushPort(s.d2s, s.sn) == [] && FlushPort(s.f2d, s.sn) == []
    ensures Core(input, s.(d2s := [], f2d := [], lim := s.disp)) && InEpisode(s.(d2s := [], f2d := [], lim := s.disp))
  {
    hide Core, InEpisode;
    PortsYounger(input, s);
    FlushAll(s.d2s, s.sn);
    FlushAll(s.f2d, s.sn);
    FlushedPorts(input, s);
    SameTables(s, s.(d2s := [], f2d := [], lim := s.disp));
  }

  // ----- One cycle -----

  /** What the environment decides in one cycle. */
  datatype Choices = Choices(commits: nat, loads: seq<Ins>, events: seq<Event>, issued: set<Ins>, wire: bool,
                             dispatched: seq<bool>, push: bool, decodes: nat, running: bool, fetches: nat)

  ghost function AfterExecution(s: State, ch: Choices): State {
    ExecutionStage(MemoryStage(s, ch.loads), ch.events, ch.issued, ch.wire)
  }

  ghost function AfterScheduler(s: State, ch: Choices): State {
    SchedulerStage(SquashStage(AfterExecution(s, ch)), ch.dispatched, ch.push)
  }

  /** One iteration of runCore; nothing if an assertion of the source fails in it. */
  ghost function Cycle(s: State, ch: Choices): Option<State> {
    var c := CommitStage(s, ch.commits);
    if c.None? then None
    else FetchStage(DecodeStage(AfterScheduler(c.value, ch), ch.decodes), ch.running, ch.fetches)
  }

  /** How the squash number and the pipe state move in an episode. */
  ghost predicate EpisodeStep(s: State, t: State) {
    && (s.pipe != Normal ==> if t.pipe == Normal then s.pipe == SquashRob && t.sn == 0 else 0 < t.sn <= s.sn)
    && (s.pipe != Normal && s.pipe != WaitFlush && t.pipe == WaitFlush ==> t.sn < s.sn)
    && (s.pipe == Normal && t.pipe != Normal ==> t.pipe == WaitFlush && t.sn > 0)
  }

  lemma {:induction false} BackEndKeeps(input: seq<Block>, s: State, ch: Choices)
    requires Inv(input, s)
    ensures Scheduled(input, AfterScheduler(s, ch)) && EpisodeStep(s, AfterScheduler(s, ch))
  {
    var m := MemoryStage(s, ch.loads);
    MemoryStageKeeps(input, s, ch.loads);
    ExecutionStageKeeps(input, m, ch.events, ch.issued, ch.wire);
    var e := AfterExecution(s, ch);
    SquashStageKeeps(input, e);
    SchedulerStageKeeps(input, SquashStage(e), ch.dispatched, ch.push);
    if s.pipe != Normal { PipeNumber(input, s); }
    hide Core, InEpisode, MemoryStage, ExecutionStage, SquashStage, SchedulerStage, Executed, Scheduled, PipeInv;
  }

  /** What each stage finds when it starts. */
  lemma {:induction false} StagesInOrder(input: seq<Block>, s: State, ch: Choices)
    requires Inv(input, s)
    ensures Executed(input, AfterExecution(s, ch)) && Core(input, SquashStage(AfterExecution(s, ch)))
  {
    MemoryStageKeeps(input, s, ch.loads);
    ExecutionStageKeeps(input, MemoryStage(s, ch.loads), ch.events, ch.issued, ch.wire);
    hide MemoryStage, ExecutionStage, Core, SquashStage;
    SquashStageKeeps(input, AfterExecution(s, ch));
  }

  /** Fetch starts from an invariant of its own. */
  lemma {:induction false} DecodedReady(input: seq<Block>, s: State, n: nat)
    requires Scheduled(input, s)
    ensures DecodeStage(s, n).pipe == s.pipe
    ensures s.pipe == Normal ==> Core(input, DecodeStage(s, n)) && FetchInv(DecodeStage(s, n))
  {
    hide Core, DecodeRun;
    DecodeRunKeeps(input, s, n);
  }

  lemma {:induction false} LoadsFrame(s: State, loads: seq<Ins>)
    ensures LoadsRun(s, loads) == s.(mem := LoadsRun(s, loads).mem, done := LoadsRun(s, loads).done)
  {
    if loads != [] { LoadsFrame(s, loads[..|loads| - 1]); }
  }

  lemma {:induction false} DispatchRunFrame(s: State, loads: seq<bool>)
    ensures DispatchRun(s, loads).pipe == s.pipe && SameFetch(s, DispatchRun(s, loads))
  {
    if loads != [] { DispatchRunFrame(s, loads[..|loads| - 1]); }
  }

  lemma {:induction false} BackEndSameFetch(s: State, ch: Choices)
    ensures AfterScheduler(s, ch).pipe == Normal ==> SameFetch(s, AfterScheduler(s, ch))
  {
    LoadsFrame(s, ch.loads);
    ExecutionSameFetch(MemoryStage(s, ch.loads), ch.events, ch.issued, ch.wire);
    hide LoadsRun, ExecutionStage, DispatchRun, WrongRun, ResetAll;
    DispatchRunFrame(SquashStage(AfterExecution(s, ch)), ch.dispatched);
  }

  lemma {:induction false} PipeNumber(input: seq<Block>, s: State)
    requires Inv(input, s)
    ensures s.sn > 0 <==> s.pipe != Normal
  {
    if s.pipe != Normal && s.pipe != SquashRob { EpisodeNumber(s); }
  }

  /** No assertion on the end of a block's fetch is about to fail. */
  ghost predicate Open(s: State) {
    s.pipe == Normal ==> !DoneTwice(s)
  }

  lemma {:induction false} OpenBeforeFetch(input: seq<Block>, s: State, ch: Choices)
    requires Inv(input, s) && Open(s)
    ensures Open(AfterScheduler(s, ch))
  {
    BackEndKeeps(input, s, ch);
    BackEndSameFetch(s, ch);
    if s.pipe == Normal { CurrentKnown(s); }
    hide Core, AfterScheduler, InEpisode, Scheduled;
  }

  lemma {:induction false} CurrentKnown(s: State)
    requires FetchInv(s)
    ensures s.current.Some? ==> s.current.value.id in s.st
  {
  }

  /** Every cycle keeps the invariant and moves an episode forward; it fails only in normal operation, and
      when fetch has not marked the current block, only by commit's assertion. */
  lemma {:induction false} CycleKeeps(input: seq<Block>, s: State, ch: Choices)
    requires Inv(input, s)
    ensures Cycle(s, ch).Some? ==> Inv(input, Cycle(s, ch).value) && EpisodeStep(s, Cycle(s, ch).value)
    ensures Cycle(s, ch) == None ==> s.pipe == Normal
  {
    CommitStageKeeps(input, s, ch.commits);
    var c := CommitStage(s, ch.commits);
    hide Inv, AfterScheduler, CommitStage, DecodeStage, FetchStage;
    if c.Some? {
      BackEndKeeps(input, c.value, ch);
      FrontEndKeeps(input, AfterScheduler(c.value, ch), ch.decodes, ch.running, ch.fetches);
      if s.pipe == SquashRob { OpenAfterSquash(input, c.value, ch); }
    }
  }

  lemma {:induction false} OpenAfterSquash(input: seq<Block>, s: State, ch: Choices)
    requires Inv(input, s) && s.pipe == SquashRob
    ensures Open(AfterScheduler(s, ch))
  {
    OpenBeforeFetch(input, s, ch);
    BackEndKeeps(input, s, ch);
    hide Core, AfterScheduler, Scheduled;
  }

  /** While the frontend is running the assertion on the end of a block's fetch never fails. */
  lemma {:induction false} RunningStaysOpen(input: seq<Block>, s: State, ch: Choices)
    requires Inv(input, s) && Open(s) && ch.running
    ensures Cycle(s, ch).Some? ==> Open(Cycle(s, ch).value)
    ensures Cycle(s, ch) == None ==> CommitStage(s, ch.commits) == None
  {
    CommitStageKeeps(input, s, ch.commits);
    CommitFrame(s, ch.commits);
    var c := CommitStage(s, ch.commits);
    if c.Some? {
      hide Inv, Open, AfterScheduler, CommitStage, FetchStage, DecodeStage;
      assert Open(c.value) by { OpenSame(s, c.value); }
      OpenBeforeFetch(input, c.value, ch);
      BackEndKeeps(input, c.value, ch);
      OpenFrontEnd(input, AfterScheduler(c.value, ch), ch.decodes, ch.fetches);
    }
  }

  lemma {:induction false} OpenSame(s: State, t: State)
    requires Open(s) && t.current == s.current && t.st == s.st && t.pipe == s.pipe
    ensures Open(t)
  {
  }

  lemma {:induction false} CommitFrame(s: State, n: nat)
    ensures var c := CommitStage(s, n);
            c.Some? ==> SameFetch(s, c.value) && c.value.st == s.st && c.value.pipe == s.pipe && c.value.d2s == s.d2s
    decreases n
  {
    if n > 0 && CanCommit(s) { CommitFrame(CommitBlock(s), n - 1); }
    hide FrontComplete;
  }

  lemma {:induction false} DecodedFetch(s: State, t: State)
    requires FetchInv(s) && t == s.(f2d := t.f2d, d2s := t.d2s)
    ensures FetchInv(t)
  {
  }

  lemma {:induction false} OpenFrontEnd(input: seq<Block>, s: State, decodes: nat, fetches: nat)
    requires Scheduled(input, s) && Open(s)
    ensures var r := FetchStage(DecodeStage(s, decodes), true, fetches); r.Some? && Open(r.value)
  {
    hide Core, Inv, InEpisode, FetchInv, FetchImpl, DecodeRun, FlushPort;
    FrontEndKeeps(input, s, decodes, true, fetches);
    if s.pipe == Normal {
      DecodeRunKeeps(input, s, decodes);
      OpenSame(s, DecodeRun(s, decodes));
      DecodedFetch(s, DecodeRun(s, decodes));
      RunningLeavesOpen(input, DecodeRun(s, decodes), fetches);
    }
  }
}
