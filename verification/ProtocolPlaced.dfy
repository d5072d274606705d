/** No dispatched instruction is lost, unless a squash will take it back. */
module ProtocolPlaced {
  import opened Collections
  import opened ProtocolCycle
  import opened ProtocolFrontEnd
  import opened ProtocolRuns
  import opened ProtocolSpec
  import opened ProtocolStages
  import opened ProtocolSteps

  /** A squash will not take the instruction back: none is under way, or it is older than the squash number. */
  ghost predicate Stays(s: State, x: Ins) {
    s.sn == 0 || x.id < s.sn
  }

  ghost function InPlace(s: State): set<Ins> {
    s.win + s.eu + s.mem + s.done
  }

  /** Each dispatched instruction of a queued block that stays waits, executes, loads or is complete. */
  ghost predicate Placed(s: State) {
    s.disp <= |All(s.que)| && forall x :: x in AllSet(s.que, s.disp) && Stays(s, x) ==> x in InPlace(s)
  }

  lemma {:induction false} CommitPlaced(input: seq<Block>, s: State)
    requires Core(input, s) && CanCommit(s) && Placed(s)
    ensures Placed(CommitBlock(s))
  {
    CommitDispatched(input, s);
    CommitKeepsCore(input, s);
    var b, rest := s.que[0], s.que[1..];
    forall p | 0 <= p < |All(rest)| ensures All(rest)[p] !in InsSet(b) { LaterThanFront(input, s, p); }
    hide Core, CanCommit, All, Placed;
    RestPlaced(s, CommitBlock(s), b, rest);
  }

  lemma {:induction false} RestPlaced(s: State, t: State, b: Block, rest: seq<Block>)
    requires Placed(s) && All(s.que) == InsOf(b) + All(rest) && t.que == rest && t.disp + b.size == s.disp
    requires forall p :: 0 <= p < |All(rest)| ==> All(rest)[p] !in InsSet(b)
    requires t.win == s.win && t.eu == s.eu && t.mem == s.mem && t.done == s.done - InsSet(b) && t.sn == s.sn
    ensures Placed(t)
  {
    hide All;
    forall x | x in AllSet(rest, t.disp) && Stays(t, x) ensures x in InPlace(t) {
      var p :| 0 <= p < t.disp && All(rest)[p] == x;
      assert All(s.que)[b.size + p] == x;
      assert x in AllSet(s.que, s.disp);
    }
  }

  lemma {:induction false} LaterThanFront(input: seq<Block>, s: State, p: nat)
    requires Core(input, s) && s.que != [] && All(s.que) == InsOf(s.que[0]) + All(s.que[1..]) && p < |All(s.que[1..])|
    ensures All(s.que[1..])[p] !in InsSet(s.que[0])
  {
    QueueOrdered(input, s);
    var b, x := s.que[0], All(s.que[1..])[p];
    hide Core;
    if x in InsSet(b) {
      var k :| 0 <= k < b.size && InsOf(b)[k] == x;
      assert All(s.que)[k] == x && All(s.que)[b.size + p] == x;
      PosUnique(s.que, k, b.size + p);
    }
  }

  lemma {:induction false} CommitStagePlaced(input: seq<Block>, s: State, n: nat)
    requires Inv(input, s) && Placed(s)
    ensures CommitStage(s, n).Some? ==> Placed(CommitStage(s, n).value)
    decreases n
  {
    if s.pipe != WaitFlush && s.pipe != Flush && n > 0 && CanCommit(s) {
      CommitPlaced(input, s);
      CommitKeepsInv(input, s);
      hide Inv, Placed;
      CommitStagePlaced(input, CommitBlock(s), n - 1);
    }
    hide FrontComplete, Placed;
  }

  /** An instruction only moves on. */
  ghost predicate MovesOn(s: State, t: State) {
    t.que == s.que && t.disp == s.disp && InPlace(s) <= InPlace(t)
  }

  /** The squash number is set or lowered, or stays as it is. */
  ghost predicate Lowers(s: State, t: State) {
    t.sn == s.sn || (t.sn > 0 && (s.sn == 0 || t.sn < s.sn))
  }

  lemma {:induction false} MovedPlaced(s: State, t: State)
    requires Placed(s) && MovesOn(s, t) && Lowers(s, t)
    ensures Placed(t)
  {
  }

  lemma {:induction false} FlushedPlaced(s: State, t: State)
    requires Placed(s) && s.sn > 0 && t.sn == s.sn && t.que == s.que && t.disp == s.disp && t.eu == s.eu && t.done == s.done
    requires Below(s.win, s.sn) <= t.win && Below(s.mem, s.sn) <= t.mem
    ensures Placed(t)
  {
  }

  lemma {:induction false} LoadsMoveOn(s: State, loads: seq<Ins>)
    ensures MovesOn(s, LoadsRun(s, loads))
  {
    if loads != [] { LoadsMoveOn(s, loads[..|loads| - 1]); }
  }

  lemma {:induction false} CompletionsMoveOn(c: Completing, events: seq<Event>)
    ensures MovesOn(c.s, CompleteAll(c, events).s)
  {
    if events != [] {
      CompletionsMoveOn(c, events[..|events| - 1]);
      CompletionMovesOn(CompleteAll(c, events[..|events| - 1]), events[|events| - 1]);
      hide CompleteOne;
    }
  }

  lemma {:induction false} CompletionMovesOn(c: Completing, e: Event)
    ensures MovesOn(c.s, CompleteOne(c, e).s)
  {
  }

  lemma {:induction false} ExecutionMovesOn(s: State, events: seq<Event>, issued: set<Ins>, wire: bool)
    ensures MovesOn(s, ExecutionStage(s, events, issued, wire))
  {
    CompletionsMoveOn(Completing(StartComplete(s), None), if s.pipe == Flush then [] else events);
    hide CompleteAll;
  }

  lemma {:induction false} DispatchPlaced(input: seq<Block>, s: State, loads: seq<bool>)
    requires Core(input, s) && Placed(s)
    ensures Placed(DispatchRun(s, loads))
  {
    hide Core, Placed, NewToRob;
    if loads != [] {
      var n := |loads| - 1;
      var r := DispatchRun(s, loads[..n]);
      DispatchPlaced(input, s, loads[..n]);
      DispatchRunKeeps(input, s, loads[..n]);
      if r.d2s != [] { DispatchedPlaced(input, r, loads[n]); }
    }
  }

  lemma {:induction false} DispatchedPlaced(input: seq<Block>, s: State, isLoad: bool)
    requires Core(input, s) && Placed(s) && s.d2s != []
    ensures Placed(DispatchOne(PushRob(s), isLoad))
  {
    var k := NextToDispatch(input, s);
    PortsInQueue(s);
    hide Core, Placed, Start, All, NewToRob;
    NextPlaced(s, DispatchOne(PushRob(s), isLoad));
  }

  lemma {:induction false} PortsInQueue(s: State)
    requires PortInv(s)
    ensures s.lim <= |All(s.que)|
  {
  }

  lemma {:induction false} NextPlaced(s: State, t: State)
    requires Placed(s) && s.disp < |All(s.que)| && t.que == s.que && t.disp == s.disp + 1
    requires t.win == s.win + {All(s.que)[s.disp]} && t.eu == s.eu && t.mem == s.mem && t.done == s.done && t.sn == s.sn
    ensures Placed(t)
  {
    hide All;
    forall x | x in AllSet(t.que, t.disp) && Stays(t, x) ensures x in InPlace(t) {
      var p :| 0 <= p < t.disp && All(t.que)[p] == x;
      if p < s.disp { assert x in AllSet(s.que, s.disp); }
    }
  }

  lemma {:induction false} LoopQueue(s: State, running: bool, n: nat)
    ensures var q := FetchLoop(s, running, n); !q.Abort? ==> s.que <= q.s.que
    decreases n
  {
    if n > 0 {
      var r := if CanFetch(s) then Go(s) else FetchBB(s, running);
      if r.Go? && CanFetch(r.s) { LoopQueue(Update(FetchOne(r.s)), running, n - 1); }
    }
  }

  lemma {:induction false} QueueGrows(s: State, running: bool, n: nat)
    ensures var r := FetchImpl(s, running, n); r.Some? ==> s.que <= r.value.que
  {
    var r := FetchBB(s, running);
    if r.Go? { LoopQueue(r.s, running, n); }
    hide FetchLoop;
  }

  lemma {:induction false} GrownPlaced(s: State, t: State)
    requires Placed(s) && s.que <= t.que && t.disp == s.disp
    requires t.win == s.win && t.eu == s.eu && t.mem == s.mem && t.done == s.done && t.sn == s.sn
    ensures Placed(t)
  {
    assert t.que == s.que + t.que[|s.que|..];
    AllConcat(s.que, t.que[|s.que|..]);
    SamePrefix(s.que, t.que, s.disp);
    hide All, AllSet;
  }

  lemma {:induction false} FetchPlaced(input: seq<Block>, s: State, running: bool, n: nat)
    requires Core(input, s) && FetchInv(s) && Placed(s) && FetchImpl(s, running, n).Some?
    ensures Placed(FetchImpl(s, running, n).value)
  {
    FetchImplKeeps(input, s, running, n);
    QueueGrows(s, running, n);
    hide Core, FetchImpl, FetchInv, Placed;
    GrownPlaced(s, FetchImpl(s, running, n).value);
  }

  lemma {:induction false} MemoryPlaced(input: seq<Block>, s: State, loads: seq<Ins>)
    requires Inv(input, s) && Placed(s)
    ensures Placed(MemoryStage(s, loads))
  {
    LoadsMoveOn(s, loads);
    LoadsFrame(s, loads);
    hide LoadsRun, Core, Placed, AllSet, All, InPlace;
    MovedPlaced(s, LoadsRun(s, loads));
    if s.pipe == Flush {
      EpisodeNumber(s);
      FlushedPlaced(LoadsRun(s, loads), MemoryStage(s, loads));
    }
  }

  lemma {:induction false} ExecutionPlaced(input: seq<Block>, s: State, events: seq<Event>, issued: set<Ins>, wire: bool)
    requires Inv(input, s) && MemoryFlushed(s) && Placed(s)
    ensures Placed(ExecutionStage(s, events, issued, wire))
  {
    var t := ExecutionStage(s, events, issued, wire);
    ExecutionStageKeeps(input, s, events, issued, wire);
    ExecutionMovesOn(s, events, issued, wire);
    PipeNumber(input, s);
    ExecutedNumber(input, t);
    hide Core, ExecutionStage, Placed, InEpisode, InPlace, OnlyFront, FetchInv;
    if s.pipe == SquashRob { NothingToPlace(input, t); } else { MovedPlaced(s, t); }
  }

  lemma {:induction false} ExecutedNumber(input: seq<Block>, t: State)
    requires Executed(input, t)
    ensures Core(input, t) && (t.pipe == Normal ==> t.sn == 0)
  {
    hide Core;
  }

  lemma {:induction false} SquashPlaced(input: seq<Block>, s: State)
    requires Executed(input, s) && Placed(s)
    ensures Placed(SquashStage(s)) && Squashed(input, SquashStage(s))
  {
    SquashStageKeeps(input, s);
    hide SquashStage, Placed, Executed;
    if s.pipe == SquashRob { NothingLeft(input, SquashStage(s)); }
  }

  lemma {:induction false} NothingLeft(input: seq<Block>, s: State)
    requires Inv(input, s) && s.pipe == SquashRob
    ensures Placed(s)
  {
    NothingToPlace(input, s);
  }

  lemma {:induction false} SchedulerPlaced(input: seq<Block>, s: State, loads: seq<bool>, push: bool)
    requires Squashed(input, s) && Placed(s)
    ensures Placed(SchedulerStage(s, loads, push))
  {
    SquashedCore(input, s);
    hide Core, DispatchRun, Placed, NewToRob, Squashed, InPlace;
    if s.pipe == Flush {
      FlushedPlaced(s, s.(win := Below(s.win, s.sn)));
    } else if s.pipe != WaitFlush {
      DispatchPlaced(input, s, loads);
      if DispatchRun(s, loads).d2s != [] { PushedPlaced(DispatchRun(s, loads)); }
    }
  }

  lemma {:induction false} SquashedCore(input: seq<Block>, s: State)
    requires Squashed(input, s)
    ensures Core(input, s) && (s.pipe == Flush ==> s.sn > 0)
  {
    if s.pipe == Flush { EpisodeNumber(s); }
    hide Core;
  }

  lemma {:induction false} PushedPlaced(s: State)
    requires Placed(s) && s.d2s != []
    ensures Placed(PushRob(s))
  {
    hide NewToRob, AllSet, All;
  }

  lemma {:induction false} NothingToPlace(input: seq<Block>, s: State)
    requires Core(input, s) && s.que == []
    ensures Placed(s)
  {
  }

  lemma {:induction false} BackEndPlaced(input: seq<Block>, s: State, ch: Choices)
    requires Inv(input, s) && Placed(s)
    ensures Placed(AfterScheduler(s, ch))
  {
    var m := MemoryStage(s, ch.loads);
    MemoryStageKeeps(input, s, ch.loads);
    MemoryPlaced(input, s, ch.loads);
    StagesInOrder(input, s, ch);
    hide Inv, Placed, MemoryStage, ExecutionStage, SquashStage, SchedulerStage, Executed, Squashed, MemoryFlushed;
    ExecutionPlaced(input, m, ch.events, ch.issued, ch.wire);
    SquashPlaced(input, AfterExecution(s, ch));
    SchedulerPlaced(input, SquashStage(AfterExecution(s, ch)), ch.dispatched, ch.push);
  }

  lemma {:induction false} FrontEndPlaced(input: seq<Block>, u: State, ch: Choices)
    requires Scheduled(input, u) && Placed(u)
    ensures var r := FetchStage(DecodeStage(u, ch.decodes), ch.running, ch.fetches); r.Some? ==> Placed(r.value)
  {
    var d := DecodeStage(u, ch.decodes);
    ScheduledCore(input, u);
    DecodedReady(input, u, ch.decodes);
    DecodeRunKeeps(input, u, ch.decodes);
    hide Core, FetchInv, DecodeRun, FetchImpl, Scheduled, FlushPort;
    assert Placed(d);
    if d.pipe == Normal && FetchImpl(d, ch.running, ch.fetches).Some? { FetchPlaced(input, d, ch.running, ch.fetches); }
  }

  lemma {:induction false} ScheduledCore(input: seq<Block>, s: State)
    requires Scheduled(input, s)
    ensures Core(input, s)
  {
    hide Core;
  }

  lemma {:induction false} CyclePlaced(input: seq<Block>, s: State, ch: Choices)
    requires Inv(input, s) && Placed(s) && Cycle(s, ch).Some?
    ensures Placed(Cycle(s, ch).value)
  {
    var c := CommitStage(s, ch.commits).value;
    CommitStageKeeps(input, s, ch.commits);
    CommitStagePlaced(input, s, ch.commits);
    BackEndKeeps(input, c, ch);
    hide Inv, Placed, Scheduled, CommitStage, AfterScheduler, DecodeStage, FetchStage;
    BackEndPlaced(input, c, ch);
    FrontEndPlaced(input, AfterScheduler(c, ch), ch);
  }

  /** Nothing that was dispatched is lost: in every reachable state each dispatched instruction that no squash will take
      back is in exactly one place, and in normal operation there is nothing else in these places. */
  lemma {:induction false} DispatchedIsPlaced(run: seq<Action>)
    requires Ordered(Fed(run)) && After(Init(), run).Some?
    ensures var s := After(Init(), run).value;
            && s.win !! s.eu && s.win !! s.mem && s.eu !! s.mem && (s.win + s.eu + s.mem) !! s.done
            && s.disp <= |All(s.que)| && (s.pipe == Normal ==> s.win + s.eu + s.mem + s.done == AllSet(s.que, s.disp))
            && forall x :: x in AllSet(s.que, s.disp) && (s.sn == 0 || x.id < s.sn) ==> x in s.win + s.eu + s.mem + s.done
  {
    RunSafe(run);
    RunPlaced(run);
    var s := After(Init(), run).value;
    hide After, StreamInv, TableInv, PortInv, AllSet, All, InEpisode, FetchInv;
    assert forall x :: x in AllSet(s.que, s.disp) && Stays(s, x) ==> x in InPlace(s);
  }

  lemma {:induction false} RunPlaced(run: seq<Action>)
    requires Ordered(Fed(run)) && After(Init(), run).Some?
    ensures Placed(After(Init(), run).value)
  {
    if run != [] {
      var n := |run| - 1;
      FedOrdered(run, n);
      RunSafe(run[..n]);
      RunPlaced(run[..n]);
      var s := After(Init(), run[..n]).value;
      hide Inv, Cycle, Ordered;
      match run[n]
      case Feed(b) =>
      case Tick(ch) => CyclePlaced(Fed(run[..n]), s, ch);
    }
  }
}
