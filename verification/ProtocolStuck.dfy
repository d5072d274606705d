/** A squash that overlooked a block, with nothing under way that could lower its number, never ends
    (execution.cpp, commit.cpp). */
module ProtocolStuck {
  import opened Collections
  import opened ProtocolCycle
  import opened ProtocolEpisode
  import opened ProtocolFrontEnd
  import opened ProtocolRuns
  import opened ProtocolSpec
  import opened ProtocolStages
  import opened ProtocolSteps

  /** The store `x` may still find the load `v` violated: unless `x` executes in PIPE_WAIT_FLUSH while `v` is in a
      window, which issues nothing before `x` has finished. */
  ghost predicate MayReveal(s: State, x: Ins, v: Ins) {
    && x in s.win + s.eu && x !in s.lq && v in s.lq && x.id < v.id && (exists u :: u in s.lq && u.id < v.id)
    && (x in s.eu && v in s.win ==> s.pipe != WaitFlush)
  }

  /** A wrong-path instruction under way, or a load that may be found violated, is of a block that starts at `h` or
      before. */
  ghost predicate Lowerable(s: State, h: nat) {
    || (exists x :: x in s.win + s.eu && x.bb.wrongPath && x.bb.head <= h)
    || (exists x, v :: MayReveal(s, x, v) && v.bb.head <= h)
  }

  /** The block was overlooked, and nothing can bring the squash number down to it. */
  ghost predicate Doomed(s: State, b: Block) {
    Overlooked(s, b) && !Lowerable(s, b.head)
  }

  ghost predicate Waits(p: PipeState) {
    p == WaitFlush || p == Flush || p == Drain
  }

  ghost predicate Stuck(s: State) {
    Waits(s.pipe) && exists b :: Doomed(s, b)
  }

  // ----- What keeps a squash stuck -----

  /** What waits or executes gets no more, and nothing is issued while the pipe waits for the units. */
  ghost predicate NothingNew(s: State, t: State) {
    && t.win <= s.win && t.win + t.eu <= s.win + s.eu && s.win !! s.eu
    && t.lq <= s.lq && (forall x :: x in t.win + t.eu && x in s.lq ==> x in t.lq)
    && (s.pipe == WaitFlush ==> (t.pipe == WaitFlush && t.win == s.win) || t.eu == {})
  }

  lemma {:induction false} RevealedBefore(s: State, t: State, x: Ins, v: Ins)
    requires NothingNew(s, t) && MayReveal(t, x, v)
    ensures MayReveal(s, x, v)
  {
    assert x in t.win + t.eu;
  }

  lemma {:induction false} NotLowerable(s: State, t: State, h: nat)
    requires NothingNew(s, t) && !Lowerable(s, h)
    ensures !Lowerable(t, h)
  {
    hide MayReveal;
    forall x, v ensures !(MayReveal(t, x, v) && v.bb.head <= h) {
      if MayReveal(t, x, v) { RevealedBefore(s, t, x, v); }
    }
  }

  lemma {:induction false} StillDoomed(s: State, t: State, b: Block)
    requires Doomed(s, b) && NothingNew(s, t) && b in t.que && b.head < t.sn && forall x :: x in InsOf(b) ==> x in t.done
    ensures Doomed(t, b)
  {
    NotLowerable(s, t, b.head);
    hide Lowerable, NothingNew;
  }

  lemma {:induction false} SameDoomed(s: State, t: State, b: Block)
    requires Doomed(s, b) && NothingNew(s, t) && t.que == s.que && t.sn == s.sn && s.done <= t.done
    ensures Doomed(t, b)
  {
    StillDoomed(s, t, b);
  }

  // ----- Commit -----

  lemma {:induction false} FrontIsCorrect(input: seq<Block>, s: State)
    requires Core(input, s) && CanCommit(s)
    ensures s.que != [] && s.rob != [] && !s.que[0].wrongPath && InsSet(s.que[0]) <= s.done
    ensures s.win !! s.eu && (s.win + s.eu) !! s.done
  {
    FrontOfBoth(input, s);
  }

  lemma {:induction false} CommitDoomed(input: seq<Block>, s: State, b: Block)
    requires Core(input, s) && Doomed(s, b) && CanCommit(s)
    ensures s.que != [] && s.rob != [] && Doomed(CommitBlock(s), b)
  {
    FrontIsCorrect(input, s);
    hide Core, CanCommit, Lowerable;
    var t := CommitBlock(s);
    var i :| 0 <= i < |s.que| && s.que[i] == b;
    assert t.que[i - 1] == b;
    StillDoomed(s, t, b);
  }

  lemma {:induction false} CommitRunDoomed(input: seq<Block>, s: State, n: nat, b: Block)
    requires Inv(input, s) && s.pipe == Drain && Doomed(s, b) && CommitRun(s, n).Some?
    ensures Doomed(CommitRun(s, n).value, b)
    decreases n
  {
    hide Doomed, PipeInv;
    if n > 0 && CanCommit(s) {
      CommitDoomed(input, s, b);
      CommitKeepsInv(input, s);
      CommitRunDoomed(input, CommitBlock(s), n - 1, b);
    }
    hide Core, FrontComplete;
  }

  lemma {:induction false} CommitStageDoomed(input: seq<Block>, s: State, n: nat, b: Block)
    requires Inv(input, s) && Waits(s.pipe) && Doomed(s, b)
    ensures CommitStage(s, n).Some? && Doomed(CommitStage(s, n).value, b)
  {
    CommitStageKeeps(input, s, n);
    hide Inv, Doomed, CommitRun;
    if s.pipe == Drain { CommitRunDoomed(input, s, n, b); }
  }

  // ----- Memory and execution -----

  lemma {:induction false} LoadsDoomed(input: seq<Block>, s: State, loads: seq<Ins>, b: Block)
    requires Inv(input, s) && Doomed(s, b)
    ensures Doomed(MemoryStage(s, loads), b)
  {
    LoadsFrame(s, loads);
    LoadsMoreDone(s, loads);
    UnitsApart(input, s);
    if s.pipe == Flush { FlushedUnits(s); }
    hide LoadsRun, Inv, Doomed;
    SameDoomed(s, MemoryStage(s, loads), b);
  }

  lemma {:induction false} UnitsApart(input: seq<Block>, s: State)
    requires Core(input, s)
    ensures s.win !! s.eu && (s.win + s.eu) !! s.done
  {
  }

  lemma {:induction false} FlushedUnits(s: State)
    requires PipeInv(s) && s.pipe == Flush
    ensures s.eu == {} && AllBelow(s.win, s.sn)
  {
  }

  lemma {:induction false} LoadsMoreDone(s: State, loads: seq<Ins>)
    ensures s.done <= LoadsRun(s, loads).done
  {
    if loads != [] { LoadsMoreDone(s, loads[..|loads| - 1]); }
  }

  /** The block blamed in this cycle starts after `h`. */
  ghost predicate BlamesLater(c: Completing, h: nat) {
    c.bad.Some? ==> c.bad.value.head > h
  }

  lemma {:induction false} CompletionDoomed(input: seq<Block>, c: Completing, e: Event, b: Block)
    requires Core(input, c.s) && Doomed(c.s, b) && BlamesLater(c, b.head)
    ensures Doomed(CompleteOne(c, e).s, b) && BlamesLater(CompleteOne(c, e), b.head)
  {
    UnitsApart(input, c.s);
    hide Core;
    if MayComplete(c.s, e.x, e.v) {
      if e.v.Some? { assert MayReveal(c.s, e.x, e.v.value); }
      assert BlamesLater(CompleteOne(c, e), b.head);
      hide Lowerable, Doomed, BlamesLater;
      SameDoomed(c.s, CompleteOne(c, e).s, b);
    }
  }

  lemma {:induction false} CompletionsDoomed(input: seq<Block>, s: State, events: seq<Event>, o: Option<Block>, b: Block)
    requires Core(input, s) && BlameAt(s, o) && Doomed(s, b)
    ensures var c := CompleteAll(Completing(s, None), events); Doomed(c.s, b) && BlamesLater(c, b.head)
  {
    hide Core, BlameAt, Doomed;
    if events != [] {
      var n := |events| - 1;
      CompleteAllKeeps(input, s, events[..n], o);
      CompletionsDoomed(input, s, events[..n], o, b);
      CompletionDoomed(input, CompleteAll(Completing(s, None), events[..n]), events[n], b);
    }
  }

  lemma {:induction false} SettledDoomed(input: seq<Block>, c: Completing, b: Block)
    requires Core(input, c.s) && Doomed(c.s, b) && BlamesLater(c, b.head)
    ensures Doomed(Settle(c), b)
  {
    UnitsApart(input, c.s);
    var t := Settle(c);
    assert b in t.que && b.head < t.sn && forall x :: x in InsOf(b) ==> x in t.done;
    hide Core, Doomed;
    StillDoomed(c.s, t, b);
  }

  /** The front block is not younger than the overlooked one, so the tables are not squashed. */
  lemma {:induction false} FrontNotYounger(input: seq<Block>, s: State, b: Block)
    requires Core(input, s) && Doomed(s, b)
    ensures s.rob != [] ==> s.rob[0].head < s.sn
  {
    QueueOrdered(input, s);
    var i :| 0 <= i < |s.que| && s.que[i] == b;
    if s.rob != [] { assert s.rob[0] == s.que[0]; }
  }

  lemma {:induction false} ControlDoomed(input: seq<Block>, s: State, issued: set<Ins>, wire: bool, b: Block)
    requires Core(input, s) && Waits(s.pipe) && Doomed(s, b)
    ensures var t := SquashCtrl(ExecutionImpl(s, issued), wire); Waits(t.pipe) && Doomed(t, b)
  {
    FrontNotYounger(input, s, b);
    UnitsApart(input, s);
    hide Core, Doomed;
    var t := SquashCtrl(ExecutionImpl(s, issued), wire);
    assert NothingNew(s, t);
    SameDoomed(s, t, b);
  }

  lemma {:induction false} ExecutionDoomed(input: seq<Block>, s: State, events: seq<Event>, issued: set<Ins>, wire: bool, b: Block)
    requires Inv(input, s) && MemoryFlushed(s) && Waits(s.pipe) && Doomed(s, b)
    ensures var t := ExecutionStage(s, events, issued, wire); Waits(t.pipe) && Doomed(t, b)
  {
    var u := StartComplete(s);
    var es := if s.pipe == Flush then [] else events;
    var o := FirstBlame(s);
    ControlCore(input, s, u);
    CompleteAllKeeps(input, u, es, o);
    UnitsApart(input, s);
    CompleteStageKeeps(input, s, events);
    CompletedCore(input, CompleteStage(s, events));
    hide Inv, Core, CompleteAll, Doomed, Settle, SquashCtrl, ExecutionImpl, Completions, Lowerable;
    SameDoomed(s, u, b);
    CompletionsDoomed(input, u, es, o, b);
    SettledDoomed(input, CompleteAll(Completing(u, None), es), b);
    ControlDoomed(input, CompleteStage(s, events), issued, wire, b);
  }

  lemma {:induction false} CompletedCore(input: seq<Block>, s: State)
    requires Completions(input, s)
    ensures Core(input, s)
  {
    hide Core;
  }

  lemma {:induction false} BackEndDoomed(input: seq<Block>, c: State, ch: Choices, b: Block)
    requires Inv(input, c) && Waits(c.pipe) && Doomed(c, b)
    ensures Waits(AfterExecution(c, ch).pipe) && Doomed(AfterExecution(c, ch), b)
  {
    MemoryStageKeeps(input, c, ch.loads);
    hide Inv, LoadsRun, ExecutionStage, MemoryFlushed, Doomed, MemoryStage;
    LoadsDoomed(input, c, ch.loads, b);
    ExecutionDoomed(input, MemoryStage(c, ch.loads), ch.events, ch.issued, ch.wire, b);
  }

  // ----- The later stages -----

  /** Nothing is dispatched during a squash. */
  lemma {:induction false} NothingDispatches(s: State, loads: seq<bool>)
    requires s.d2s == []
    ensures DispatchRun(s, loads) == s
  {
    if loads != [] { NothingDispatches(s, loads[..|loads| - 1]); }
  }

  lemma {:induction false} DrainPorts(input: seq<Block>, e: State)
    requires Executed(input, e)
    ensures e.pipe == Drain ==> e.d2s == [] && e.f2d == []
    ensures e.win !! e.eu
  {
    hide StreamInv, TableInv, PortInv, InEpisode;
  }

  lemma {:induction false} LaterStagesDoomed(input: seq<Block>, e: State, ch: Choices, b: Block)
    requires Executed(input, e) && Waits(e.pipe) && Doomed(e, b)
    ensures var r := FetchStage(DecodeStage(SchedulerStage(SquashStage(e), ch.dispatched, ch.push), ch.decodes), ch.running, ch.fetches);
            r.Some? && Waits(r.value.pipe) && Doomed(r.value, b)
  {
    DrainPorts(input, e);
    if e.pipe == Drain { NothingDispatches(e, ch.dispatched); }
    var u := SchedulerStage(e, ch.dispatched, ch.push);
    hide Core, DispatchRun, FlushPort, InEpisode, NewToRob, Doomed, Executed;
    SameDoomed(e, FetchStage(DecodeStage(u, ch.decodes), ch.running, ch.fetches).value, b);
  }

  // ----- All runs -----

  lemma {:induction false} CycleDoomed(input: seq<Block>, s: State, ch: Choices, b: Block)
    requires Inv(input, s) && Waits(s.pipe) && Doomed(s, b)
    ensures Cycle(s, ch).Some? && Waits(Cycle(s, ch).value.pipe) && Doomed(Cycle(s, ch).value, b)
  {
    CommitStageKeeps(input, s, ch.commits);
    CommitStageDoomed(input, s, ch.commits, b);
    var c := CommitStage(s, ch.commits).value;
    hide Inv, Doomed, CommitStage, MemoryStage, ExecutionStage, SquashStage, SchedulerStage, DecodeStage, FetchStage, Executed;
    BackEndDoomed(input, c, ch, b);
    StagesInOrder(input, c, ch);
    LaterStagesDoomed(input, AfterExecution(c, ch), ch, b);
  }

  lemma {:induction false} StepStuck(input: seq<Block>, s: State, a: Action)
    requires Inv(input, s) && Stuck(s)
    ensures Step(s, a).Some? && Stuck(Step(s, a).value)
  {
    var b :| Doomed(s, b);
    hide Inv, Doomed, Cycle, InsOf;
    if a.Tick? { CycleDoomed(input, s, a.ch, b); } else { FeedDoomed(input, s, a.b, b); }
  }

  lemma {:induction false} FeedDoomed(input: seq<Block>, s: State, c: Block, b: Block)
    requires Inv(input, s) && Doomed(s, b)
    ensures Doomed(FeedBlock(s, c), b)
  {
    UnitsApart(input, s);
    hide Inv, Doomed;
    SameDoomed(s, FeedBlock(s, c), b);
  }

  /** Whatever the frontend delivers and the environment decides from there on, the squash goes on for ever. */
  lemma {:induction false} StuckForEver(input: seq<Block>, s: State, more: seq<Action>)
    requires Inv(input, s) && Stuck(s) && Ordered(input + Fed(more))
    ensures After(s, more).Some? && After(s, more).value.pipe != Normal && After(s, more).value.pipe != SquashRob
    ensures Inv(input + Fed(more), After(s, more).value) && Stuck(After(s, more).value)
  {
    hide Doomed;
    if more == [] {
      assert input + [] == input;
    } else {
      var n := |more| - 1;
      ExtendLast(input, more);
      hide Inv, Ordered, Cycle, Fed;
      StuckForEver(input, s, more[..n]);
      var t := After(s, more[..n]).value;
      StepStuck(input + Fed(more[..n]), t, more[n]);
      StepKeeps(input + Fed(more[..n]), t, more[n]);
    }
  }
}
