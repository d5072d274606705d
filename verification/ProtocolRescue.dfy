/** Exactly which squashes can end (execution.cpp, commit.cpp). */
module ProtocolRescue {
  import opened Collections
  import opened ProtocolCycle
  import opened ProtocolDetect
  import opened ProtocolEpisode
  import opened ProtocolFrontEnd
  import opened ProtocolPlaced
  import opened ProtocolRuns
  import opened ProtocolSeen
  import opened ProtocolSpec
  import opened ProtocolStages
  import opened ProtocolStall
  import opened ProtocolSteps
  import opened ProtocolStuck

  /** These cycles, with the frontend running, end the squash; before the last one both tables are empty. */
  ghost predicate Ends(s: State, choices: seq<Choices>) {
    && (forall c :: c in choices ==> c.running) && choices != []
    && After(s, Ticks(choices)).Some? && Restarted(After(s, Ticks(choices)).value)
    && var u := After(s, Ticks(choices[..|choices| - 1]));
       u.Some? && u.value.pipe == SquashRob && u.value.que == [] && u.value.rob == []
  }

  ghost predicate CanEnd(s: State) {
    exists choices :: Ends(s, choices)
  }

  lemma {:induction false} TicksEnd(choices: seq<Choices>)
    requires choices != []
    ensures var n := |choices| - 1;
            Ticks(choices)[..|Ticks(choices)| - 1] == Ticks(choices[..n]) && Ticks(choices) != []
            && Ticks(choices)[|Ticks(choices)| - 1] == Tick(choices[n])
  {
  }

  lemma {:induction false} LastTick(s: State, choices: seq<Choices>)
    requires choices != []
    ensures var n := |choices| - 1; var before := After(s, Ticks(choices[..n]));
            After(s, Ticks(choices)) == if before.None? then None else Cycle(before.value, choices[n])
  {
    TicksEnd(choices);
    hide Ticks, Cycle;
  }

  lemma {:induction false} FirstTick(s: State, ch: Choices, t: State, choices: seq<Choices>)
    requires Cycle(s, ch) == Some(t)
    ensures After(s, Ticks([ch] + choices)) == After(t, Ticks(choices))
  {
    hide Cycle, After, Ticks;
    var more := [ch] + choices;
    var n := |more| - 1;
    LastTick(s, more);
    if choices == [] {
      AfterNothing(s);
      AfterNothing(t);
      assert more[..n] == [];
    } else {
      assert more[..n] == [ch] + choices[..n - 1] && more[n] == choices[n - 1];
      FirstTick(s, ch, t, choices[..n - 1]);
      LastTick(t, choices);
    }
  }

  lemma {:induction false} EndsAfterTick(s: State, ch: Choices, t: State)
    requires Cycle(s, ch) == Some(t) && ch.running && CanEnd(t)
    ensures CanEnd(s)
  {
    hide Cycle, After, Ticks, Restarted;
    var choices :| Ends(t, choices);
    var more, n := [ch] + choices, |choices| - 1;
    FirstTick(s, ch, t, choices);
    FirstTick(s, ch, t, choices[..n]);
    assert more[..|more| - 1] == [ch] + choices[..n];
    assert Ends(s, more);
  }

  lemma {:induction false} UnblindEnds(input: seq<Block>, s: State)
    requires Squashing(input, s)
    ensures CanEnd(s)
  {
    hide Squashing, After, Ticks, Restarted;
    var choices := SquashEnds(input, s);
    assert Ends(s, choices);
  }

  // ----- A squash in which nothing before `h` was overlooked -----

  ghost predicate Clear(s: State, h: nat) {
    forall b :: Overlooked(s, b) ==> b.head >= h
  }

  ghost predicate Rescuing(input: seq<Block>, s: State, h: nat) {
    Inv(input, s) && Placed(s) && Seen(s) && s.pipe != Normal && Clear(s, h)
  }

  lemma {:induction false} LoweredEnds(input: seq<Block>, s: State, h: nat)
    requires Rescuing(input, s, h) && s.sn <= h
    ensures CanEnd(s)
  {
    hide Inv, Placed, Seen;
    UnblindEnds(input, s);
  }

  lemma {:induction false} RescuingKeeps(input: seq<Block>, s: State, ch: Choices, h: nat)
    requires Rescuing(input, s, h)
    ensures Cycle(s, ch).Some?
    ensures var t := Cycle(s, ch).value; Inv(input, t) && Placed(t) && Seen(t)
  {
    CycleKeeps(input, s, ch);
    hide Inv, Placed, Seen, Cycle, Clear;
    CyclePlaced(input, s, ch);
    CycleSeen(input, s, ch);
  }

  /** A dispatched instruction of an older block has an older number. */
  lemma {:induction false} OlderNumber(input: seq<Block>, s: State, x: Ins)
    requires Inv(input, s) && Waits(s.pipe) && x in s.win + s.eu + s.mem + s.lq + s.done && x.bb.head < s.sn
    ensures x.id < s.sn && s.rob != [] && s.rob[0].head <= x.bb.head
  {
    InFlightInRob(input, s, x);
    QueueOrdered(input, s);
    hide Inv, InEpisode, StreamInv;
    var o := NamedBlock(s);
    var i :| 0 <= i < |s.rob| && s.rob[i] == x.bb;
    var k :| 0 <= k < |s.rob| && s.rob[k] == o;
    assert s.que[i] == x.bb && s.que[k] == o && s.que[0] == s.rob[0];
  }

  lemma {:induction false} InFlightInRob(input: seq<Block>, s: State, x: Ins)
    requires Inv(input, s) && Waits(s.pipe) && x in s.win + s.eu + s.mem + s.lq + s.done
    ensures x.bb in s.rob && x.bb.head <= x.id < x.bb.head + x.bb.size && s.rob <= s.que && StreamInv(input, s) && InEpisode(s)
  {
    assert x in AllSet(s.que, s.disp);
    DispatchedInRob(s, x);
    hide StreamInv, PortInv, InEpisode;
  }

  lemma {:induction false} NamedBlock(s: State) returns (o: Block)
    requires InEpisode(s)
    ensures o in s.rob && o.head == s.sn
  {
    o :| Offender(s, o);
  }

  lemma {:induction false} SquashedHasNone(input: seq<Block>, s: State, x: Ins)
    requires Inv(input, s) && s.pipe != Normal && x in s.win + s.eu
    ensures Waits(s.pipe) && (x in s.eu ==> s.pipe != Flush)
  {
    if s.pipe == SquashRob { EmptyInFlight(s); }
  }

  // ----- Waiting until an instruction executes -----

  /** A settling cycle in which nothing commits. */
  ghost function Wait(s: State): Choices {
    Settling(s).(commits := 0)
  }

  /** What waits and is older than the squash number waits on or is issued in PIPE_DRAIN; the older loads stay. */
  ghost predicate Waited(s: State, t: State) {
    && (forall y :: y in s.win && y.id < s.sn ==> y in t.win || (y in t.eu && t.pipe == Drain))
    && (forall y :: y in s.lq && y.id < s.sn ==> y in t.lq) && t.lq <= s.lq
  }

  lemma {:induction false} ControlWaits(c: State, win: set<Ins>)
    requires c.win == win && c.pipe != Normal && c.pipe != SquashRob && !(c.rob != [] && c.rob[0].head >= c.sn)
    ensures var e := SquashCtrl(ExecutionImpl(c, win), true);
            e.lq == c.lq && (e.pipe == Drain && c.sn == c.oldSn && c.pipe == Drain ==> e.eu == c.eu + win)
            && (!(e.pipe == Drain && c.sn == c.oldSn && c.pipe == Drain) ==> e.win == win)
            && e.pipe != SquashRob
  {
  }

  /** The stages up to execution. */
  lemma {:induction false} WaitExecutes(input: seq<Block>, s: State, m: State)
    requires Inv(input, m) && MemoryFlushed(m) && m.pipe == s.pipe && Waits(s.pipe) && m.eu == s.eu && m.win == s.win && m.sn == s.sn
    requires m.rob != [] && m.rob[0].head < m.sn && Execute(m, s).sn > m.rob[0].head
    requires (forall y :: y in s.lq && y.id < s.sn ==> y in m.lq) && m.lq <= s.lq
    ensures var e := Execute(m, s);
            && e.pipe != SquashRob && (forall y :: y in s.win ==> y in e.win || (y in e.eu && e.pipe == Drain))
            && (forall y :: y in s.lq && y.id < s.sn ==> y in e.lq) && e.lq <= s.lq
  {
    UnitsDone(m, s);
    var c := CompleteStage(m, Units(Listed(s.eu), s.lq));
    assert Execute(m, s) == SquashCtrl(ExecutionImpl(c, s.win), true);
    CompletedSn(c, s.win);
    hide Inv, CompleteStage, ExecutionImpl, SquashCtrl, Units, MemoryFlushed, Execute;
    ControlWaits(c, s.win);
  }

  lemma {:induction false} CompletedSn(c: State, win: set<Ins>)
    requires Waits(c.pipe)
    ensures SquashCtrl(ExecutionImpl(c, win), true).sn == c.sn
  {
  }

  lemma {:induction false} LaterStagesWait(input: seq<Block>, e: State)
    requires Executed(input, e) && Waits(e.pipe)
    ensures var r := FetchStage(DecodeStage(SchedulerStage(SquashStage(e), [], false), 0), true, 0);
            && r.Some? && r.value.pipe == e.pipe && r.value.sn == e.sn && r.value.eu == e.eu && r.value.lq == e.lq
            && r.value.win == if e.pipe == Flush then Below(e.win, e.sn) else e.win
  {
    hide Core, FlushPort, InEpisode;
  }

  /** The memory stage of a squash keeps the loads older than its number. */
  lemma {:induction false} OlderLoadsKept(s: State, loads: seq<Ins>)
    ensures var m := MemoryStage(s, loads); m.lq <= s.lq && forall y :: y in s.lq && y.id < s.sn ==> y in m.lq
  {
    LoadsFrame(s, loads);
    hide LoadsRun;
  }

  ghost predicate Lower(s: State, t: State) {
    t.sn <= s.sn && (t.sn == s.sn ==> Rank(t) < Rank(s))
  }

  /** After the stages up to execution, such a cycle lowers the number or brings the squash further, and overlooks
      nothing. */
  lemma {:induction false} WaitRests(input: seq<Block>, s: State, e: State, h: nat)
    requires Clear(s, h) && s.pipe != Normal && s.pipe != SquashRob && !Idle(s)
    requires Executed(input, e) && Advances(s, e) && forall b :: Overlooked(e, b) ==> Overlooked(s, b)
    ensures var r := FetchStage(DecodeStage(SchedulerStage(SquashStage(e), [], false), 0), true, 0);
            r.Some? && Clear(r.value, h) && Lower(s, r.value) && r.value.pipe != Normal && r.value.sn == e.sn
  {
    EpisodeGoesOn(s, e);
    LaterStagesRest(input, e);
    hide Executed, Advances, Overlooked, Rests, SquashStage, SchedulerStage, DecodeStage, FetchStage, Rank;
    var t := FetchStage(DecodeStage(SchedulerStage(SquashStage(e), [], false), 0), true, 0).value;
    RankDrops(s, s, e, t);
    SameNumber(e, t);
    forall b | Overlooked(t, b) ensures b.head >= h { RestOverlooked(e, t, b); }
  }

  lemma {:induction false} SameNumber(e: State, t: State)
    requires Rests(e, t)
    ensures t.sn == e.sn
  {
  }

  lemma {:induction false} NumberLowered(s: State, e: State)
    requires Advances(s, e)
    ensures e.sn != s.sn ==> e.pipe == WaitFlush
    ensures e.pipe != Normal
  {
  }

  lemma {:induction false} WaitKeeps(input: seq<Block>, s: State, x: Ins)
    requires Inv(input, s) && Waits(s.pipe) && s.rob != [] && s.rob[0].head <= x.bb.head < s.sn
    requires var e := Execute(MemoryStage(s, Listed(s.mem)), s); Executed(input, e) && Advances(s, e) && e.sn > x.bb.head
    ensures Cycle(s, Wait(s)).Some? ==> Waited(s, Cycle(s, Wait(s)).value)
  {
    hide Inv, Cycle, MemoryStage, ExecutionStage, SquashStage, SchedulerStage, DecodeStage, FetchStage, Units, Executed, Advances, Execute, Wait;
    WaitSteps(input, s);
    var e := Execute(MemoryStage(s, Listed(s.mem)), s);
    WaitToExecution(input, s, x);
    NumberLowered(s, e);
    LaterStagesWait(input, e);
  }

  lemma {:induction false} WaitToExecution(input: seq<Block>, s: State, x: Ins)
    requires Inv(input, s) && Waits(s.pipe) && s.rob != [] && s.rob[0].head <= x.bb.head < s.sn
    requires var e := Execute(MemoryStage(s, Listed(s.mem)), s); Advances(s, e) && e.sn > x.bb.head
    ensures var e := Execute(MemoryStage(s, Listed(s.mem)), s);
            && Waits(e.pipe) && (forall y :: y in s.win ==> y in e.win || (y in e.eu && e.pipe == Drain))
            && (forall y :: y in s.lq && y.id < s.sn ==> y in e.lq) && e.lq <= s.lq
  {
    var m := MemoryStage(s, Listed(s.mem));
    MemoryStageKeeps(input, s, Listed(s.mem));
    OlderLoadsKept(s, Listed(s.mem));
    LoadsFrame(s, Listed(s.mem));
    assert m.eu == s.eu && m.win == s.win && m.rob == s.rob;
    hide Inv, LoadsRun, MemoryStage, ExecutionStage, Units, Advances, Execute, MemoryFlushed;
    WaitExecutes(input, s, m);
    NumberLowered(s, Execute(m, s));
  }

  lemma {:induction false} WaitFinds(input: seq<Block>, s: State, x: Ins)
    requires Inv(input, s) && s.pipe != Flush && x in s.eu && x.bb.wrongPath
    ensures Execute(MemoryStage(s, Listed(s.mem)), s).sn <= x.bb.head
  {
    var m := MemoryStage(s, Listed(s.mem));
    MemoryStageKeeps(input, s, Listed(s.mem));
    LoadsFrame(s, Listed(s.mem));
    hide Inv, LoadsRun, Execute, MemoryFlushed;
    UnitIsFound(input, m, s, x);
  }

  lemma {:induction false} WaitSteps(input: seq<Block>, s: State)
    ensures CommitStage(s, 0) == Some(s)
    ensures var e := Execute(MemoryStage(s, Listed(s.mem)), s);
            Cycle(s, Wait(s)) == FetchStage(DecodeStage(SchedulerStage(SquashStage(e), [], false), 0), true, 0)
  {
    hide MemoryStage, ExecutionStage, SquashStage, SchedulerStage, DecodeStage, FetchStage, Units;
  }

  /** One such cycle, while something older than the squash number is not complete. */
  lemma {:induction false} WaitCycle(input: seq<Block>, s: State, x: Ins, h: nat)
    requires Rescuing(input, s, h) && h < s.sn && x in s.win + s.eu && x.bb.head <= h
    ensures var r := Cycle(s, Wait(s)); r.Some? && Rescuing(input, r.value, h) && Lower(s, r.value)
    ensures Cycle(s, Wait(s)).value.sn > h ==> Waited(s, Cycle(s, Wait(s)).value)
    ensures x in s.eu && x.bb.wrongPath ==> Cycle(s, Wait(s)).value.sn <= h
  {
    SquashedHasNone(input, s, x);
    OlderNumber(input, s, x);
    RescuingKeeps(input, s, Wait(s), h);
    assert !Idle(s);
    var e := Execute(MemoryStage(s, Listed(s.mem)), s);
    hide Inv, Placed, Seen, MemoryStage, ExecutionStage, SquashStage, SchedulerStage, DecodeStage, FetchStage, Units, Executed, Overlooked,
         Rests, Advances, Moved, Execute, Waited, Lower, Idle, Cycle, Wait, Clear;
    WaitSteps(input, s);
    SettlingMoves(input, s, s);
    WaitRests(input, s, e, h);
    if e.sn > h { WaitKeeps(input, s, x); }
    if x in s.eu && x.bb.wrongPath { WaitFinds(input, s, x); }
  }

  lemma {:induction false} WaitRuns(s: State)
    ensures Wait(s).running
  {
  }

  /** A wrong-path instruction under way is found when it completes. */
  lemma {:induction false} WrongPathRescues(input: seq<Block>, s: State, x: Ins, h: nat)
    requires Rescuing(input, s, h) && x in s.win + s.eu && x.bb.wrongPath && x.bb.head <= h
    ensures CanEnd(s)
    decreases s.sn, Rank(s)
  {
    hide Rescuing, Cycle, Wait, Rank, CanEnd;
    if s.sn <= h {
      LoweredEnds(input, s, h);
    } else {
      WaitCycle(input, s, x, h);
      RescuedNumber(input, s, x, h);
      var t := Cycle(s, Wait(s)).value;
      if t.sn <= h { LoweredEnds(input, t, h); } else { WrongPathRescues(input, t, x, h); }
      WaitRuns(s);
      EndsAfterTick(s, Wait(s), t);
    }
  }

  lemma {:induction false} RescuedNumber(input: seq<Block>, s: State, x: Ins, h: nat)
    requires Rescuing(input, s, h) && h < s.sn && x in s.win + s.eu + s.mem + s.lq && x.bb.head <= h
    ensures x.id < s.sn && Waits(s.pipe)
  {
    if s.pipe == SquashRob { EmptyInFlight(s); }
    OlderNumber(input, s, x);
  }

  // ----- Keeping a store in its unit until the load is complete -----

  /** Only these loads, units and windows go on. */
  ghost function Only(loads: seq<Ins>, events: seq<Event>, issued: set<Ins>): Choices {
    Choices(0, loads, events, issued, false, [], false, 0, true, 0)
  }

  lemma {:induction false} OnlyRuns(loads: seq<Ins>, events: seq<Event>, issued: set<Ins>)
    ensures Only(loads, events, issued).running
  {
  }

  lemma {:induction false} OnlyCycle(s: State, loads: seq<Ins>, events: seq<Event>, issued: set<Ins>)
    requires s.pipe == WaitFlush || s.pipe == Drain
    requires var t := ExecutionStage(LoadsRun(s, loads), events, issued, false); t.pipe == WaitFlush || t.pipe == Drain
    ensures Cycle(s, Only(loads, events, issued)) == Some(ExecutionStage(LoadsRun(s, loads), events, issued, false))
  {
    LoadsPipe(s, loads);
    hide ExecutionStage, LoadsRun;
  }

  /** The store `x` executes, and the load `v` can still be found violated. */
  ghost predicate Holding(s: State, x: Ins, v: Ins, h: nat) {
    MayReveal(s, x, v) && x in s.eu && v.bb.head <= h < s.sn && !x.bb.wrongPath
  }

  lemma {:induction false} HoldingWaits(input: seq<Block>, s: State, x: Ins, v: Ins, h: nat)
    requires Rescuing(input, s, h) && Holding(s, x, v, h)
    ensures (s.pipe == WaitFlush || s.pipe == Drain) && v in s.win + s.eu + s.mem + s.done
  {
    SquashedHasNone(input, s, x);
    RescuedNumber(input, s, v, h);
    LoadPlaced(s, v);
  }

  lemma {:induction false} LoadPlaced(s: State, v: Ins)
    requires Placed(s) && FlightInv(s) && v in s.lq && v.id < s.sn
    ensures v in s.win + s.eu + s.mem + s.done
  {
    hide AllSet;
    assert Stays(s, v) && v in InPlace(s);
  }

  /** Nothing completes, so nothing new is overlooked. */
  lemma {:induction false} ClearStays(s: State, t: State, h: nat)
    requires Clear(s, h) && t.que == s.que && t.done <= s.done && t.sn <= s.sn
    ensures Clear(t, h)
  {
    forall b | Overlooked(t, b) ensures b.head >= h { assert Overlooked(s, b); }
  }

  /** The load is complete: the store finds it violated. */
  lemma {:induction false} CompleteLoadRescues(input: seq<Block>, s: State, x: Ins, v: Ins, h: nat)
    requires Rescuing(input, s, h) && Holding(s, x, v, h) && v in s.done
    ensures CanEnd(s)
  {
    var e := Event(x, false, Some(v));
    HoldingWaits(input, s, x, v, h);
    assert Finds(s, e, v.bb);
    ViolationStartsSquash(input, s, [e], {}, false, 0, v.bb);
    var t := ExecutionStage(s, [e], {}, false);
    ExecutionDone(s, [e], {}, false);
    OnlyCycle(s, [], [e], {});
    RescuingKeeps(input, s, Only([], [e], {}), h);
    hide Inv, Placed, Seen, ExecutionStage, Cycle, CanEnd;
    assert t.done <= s.done + {x};
    forall b | Overlooked(t, b) ensures b.head >= h { StillOverlooked(s, t, x, b); }
    LoweredEnds(input, t, h);
    OnlyRuns([], [e], {});
    EndsAfterTick(s, Only([], [e], {}), t);
  }

  lemma {:induction false} StillOverlooked(s: State, t: State, x: Ins, b: Block)
    requires Overlooked(t, b) && t.que == s.que && t.done <= s.done + {x} && t.sn <= s.sn && !x.bb.wrongPath
    ensures Overlooked(s, b)
  {
  }

  /** One completion completes one instruction at most. */
  lemma {:induction false} ExecutionDone(s: State, events: seq<Event>, issued: set<Ins>, wire: bool)
    requires |events| <= 1
    ensures var t := ExecutionStage(s, events, issued, wire);
            t.que == s.que && t.done <= if events == [] then s.done else s.done + {events[0].x}
  {
    var u := StartComplete(s);
    var es := if s.pipe == Flush then [] else events;
    CompletionsFrame(Completing(u, None), es);
    OneCompletes(Completing(u, None), es);
    hide CompleteAll;
  }

  lemma {:induction false} OneCompletes(c: Completing, events: seq<Event>)
    requires |events| <= 1
    ensures CompleteAll(c, events).s.done <= if events == [] then c.s.done else c.s.done + {events[0].x}
  {
    if events != [] { assert events[..0] == [] && CompleteAll(c, events) == CompleteOne(c, events[0]); }
  }

  /** The load is being read: it finishes first. */
  lemma {:induction false} ReadLoadRescues(input: seq<Block>, s: State, x: Ins, v: Ins, h: nat)
    requires Rescuing(input, s, h) && Holding(s, x, v, h) && v in s.mem
    ensures CanEnd(s)
  {
    HoldingWaits(input, s, x, v, h);
    var t := ExecutionStage(LoadDone(s, v), [], {}, false);
    assert [v][..0] == [] && LoadsRun(s, [v]) == LoadDone(s, v);
    NothingExecutes(LoadDone(s, v), {});
    LoadsSettle(input, s, [v]);
    OnlyCycle(s, [v], [], {});
    RescuingKeeps(input, s, Only([v], [], {}), h);
    hide Inv, Placed, Seen, ExecutionStage, Cycle, CanEnd;
    ClearStays(LoadDone(s, v), t, h);
    CompleteLoadRescues(input, t, x, v, h);
    OnlyRuns([v], [], {});
    EndsAfterTick(s, Only([v], [], {}), t);
  }

  lemma {:induction false} NothingExecutes(s: State, issued: set<Ins>)
    requires (s.pipe == WaitFlush && s.eu != {} && issued == {}) || s.pipe == Drain
    ensures ExecutionStage(s, [], issued, false) == Issue(s.(oldSn := s.sn), issued)
  {
    if issued == {} { assert s.win - {} == s.win && s.eu + ({} * s.win) == s.eu; }
  }

  /** The load executes: it gets its address first. */
  lemma {:induction false} ExecutingLoadRescues(input: seq<Block>, s: State, x: Ins, v: Ins, h: nat)
    requires Rescuing(input, s, h) && Holding(s, x, v, h) && v in s.eu
    ensures CanEnd(s)
  {
    var e := Event(v, true, None);
    HoldingWaits(input, s, x, v, h);
    AddressOnly(input, s, x, v);
    var t := ExecutionStage(s, [e], {}, false);
    OnlyCycle(s, [], [e], {});
    RescuingKeeps(input, s, Only([], [e], {}), h);
    hide Inv, Placed, Seen, ExecutionStage, Cycle, CanEnd, Overlooked;
    ClearStays(s, t, h);
    if t.sn <= h { LoweredEnds(input, t, h); } else { ReadLoadRescues(input, t, x, v, h); }
    OnlyRuns([], [e], {});
    EndsAfterTick(s, Only([], [e], {}), t);
  }

  /** A load gets its address; the other units go on. */
  lemma {:induction false} AddressOnly(input: seq<Block>, s: State, x: Ins, v: Ins)
    requires Inv(input, s) && (s.pipe == WaitFlush || s.pipe == Drain) && x in s.eu && v in s.eu && x != v
    ensures var t := ExecutionStage(s, [Event(v, true, None)], {}, false);
            && (t.pipe == WaitFlush || t.pipe == Drain) && t.sn <= s.sn
            && t.que == s.que && t.done == s.done && t.lq == s.lq && t.win == s.win && x in t.eu && v in t.mem
  {
    ExecutionStageKeeps(input, s, [Event(v, true, None)], {}, false);
    PipeNumber(input, s);
    AddressCompletes(s, v);
    hide Inv, Executed, CompleteStage;
    UnitsGoOn(CompleteStage(s, [Event(v, true, None)]));
  }

  lemma {:induction false} AddressCompletes(s: State, v: Ins)
    requires s.pipe != Flush && v in s.eu
    ensures var c := CompleteStage(s, [Event(v, true, None)]);
            && c.que == s.que && c.done == s.done && c.lq == s.lq && c.win == s.win && c.pipe == s.pipe
            && c.eu == s.eu - {v} && v in c.mem
  {
    var e := Event(v, true, None);
    var c := Completing(StartComplete(s), None);
    assert [e][..0] == [] && CompleteAll(c, []) == c;
    assert CompleteAll(c, [e]) == CompleteOne(c, e);
    hide CompleteAll;
  }

  lemma {:induction false} UnitsGoOn(c: State)
    requires (c.pipe == WaitFlush && c.eu != {}) || c.pipe == Drain
    ensures var t := SquashCtrl(ExecutionImpl(c, {}), false);
            && (t.pipe == WaitFlush || t.pipe == Drain)
            && t.que == c.que && t.done == c.done && t.lq == c.lq && t.win == c.win && t.eu == c.eu && t.mem == c.mem
  {
    assert c.win - {} == c.win && c.eu + ({} * c.win) == c.eu;
  }

  /** The load waits in a window in PIPE_DRAIN: it is issued first. */
  lemma {:induction false} WaitingLoadRescues(input: seq<Block>, s: State, x: Ins, v: Ins, h: nat)
    requires Rescuing(input, s, h) && Holding(s, x, v, h) && v in s.win
    ensures CanEnd(s)
  {
    HoldingWaits(input, s, x, v, h);
    NothingExecutes(s, {v});
    var t := ExecutionStage(s, [], {v}, false);
    OnlyCycle(s, [], [], {v});
    RescuingKeeps(input, s, Only([], [], {v}), h);
    hide Inv, Placed, Seen, ExecutionStage, Cycle, CanEnd;
    ClearStays(s, t, h);
    ExecutingLoadRescues(input, t, x, v, h);
    OnlyRuns([], [], {v});
    EndsAfterTick(s, Only([], [], {v}), t);
  }

  lemma {:induction false} HeldStoreRescues(input: seq<Block>, s: State, x: Ins, v: Ins, h: nat)
    requires Rescuing(input, s, h) && Holding(s, x, v, h)
    ensures CanEnd(s)
  {
    HoldingWaits(input, s, x, v, h);
    hide Rescuing, Holding, CanEnd;
    if v in s.done { CompleteLoadRescues(input, s, x, v, h); }
    else if v in s.mem { ReadLoadRescues(input, s, x, v, h); }
    else if v in s.eu { ExecutingLoadRescues(input, s, x, v, h); }
    else { WaitingLoadRescues(input, s, x, v, h); }
  }

  lemma {:induction false} RevealedOlder(input: seq<Block>, s: State, x: Ins, v: Ins)
    requires Inv(input, s) && s.pipe != Normal && MayReveal(s, x, v)
    ensures x in s.win + s.eu && x.bb.head <= v.bb.head
  {
    if s.pipe == SquashRob { EmptyInFlight(s); }
    InFlightInRob(input, s, x);
    InFlightInRob(input, s, v);
    QueueOrdered(input, s);
    hide Inv;
    var i :| 0 <= i < |s.rob| && s.rob[i] == x.bb;
    var k :| 0 <= k < |s.rob| && s.rob[k] == v.bb;
    assert s.que[i] == x.bb && s.que[k] == v.bb;
  }

  lemma {:induction false} StoreFirst(input: seq<Block>, s: State, x: Ins, v: Ins, h: nat)
    requires Rescuing(input, s, h) && MayReveal(s, x, v)
    ensures x in s.win + s.eu && x.bb.head <= v.bb.head
  {
    hide MayReveal;
    RevealedOlder(input, s, x, v);
  }

  /** A store that waits is issued with the load, or after it. */
  lemma {:induction false} StoreRescues(input: seq<Block>, s: State, x: Ins, v: Ins, h: nat)
    requires Rescuing(input, s, h) && MayReveal(s, x, v) && v.bb.head <= h && !x.bb.wrongPath
    ensures CanEnd(s)
    decreases s.sn, Rank(s)
  {
    hide Rescuing, Cycle, Wait, Rank, CanEnd;
    if s.sn <= h {
      LoweredEnds(input, s, h);
    } else if x in s.eu {
      HeldStoreRescues(input, s, x, v, h);
    } else {
      StoreFirst(input, s, x, v, h);
      WaitCycle(input, s, x, h);
      RescuedNumber(input, s, x, h);
      RescuedNumber(input, s, v, h);
      var t := Cycle(s, Wait(s)).value;
      if t.sn <= h {
        LoweredEnds(input, t, h);
      } else {
        RescuingApart(input, t, h);
        WaitedReveals(s, t, x, v);
        StoreRescues(input, t, x, v, h);
      }
      WaitRuns(s);
      EndsAfterTick(s, Wait(s), t);
    }
  }

  lemma {:induction false} RescuingApart(input: seq<Block>, s: State, h: nat)
    requires Rescuing(input, s, h)
    ensures s.win !! s.eu
  {
    UnitsApart(input, s);
  }

  lemma {:induction false} WaitedReveals(s: State, t: State, x: Ins, v: Ins)
    requires MayReveal(s, x, v) && Waited(s, t) && x in s.win && x.id < s.sn && v.id < s.sn && (x in t.win ==> x !in t.eu)
    ensures MayReveal(t, x, v)
  {
    var u :| u in s.lq && u.id < v.id;
    assert u in t.lq;
  }

  // ----- The exact condition -----

  lemma {:induction false} OldestOverlooked(s: State, c: Block) returns (b: Block)
    requires Overlooked(s, c)
    ensures Overlooked(s, b) && Clear(s, b.head)
  {
    b := c;
    hide Overlooked;
    while !Clear(s, b.head)
      invariant Overlooked(s, b)
      decreases b.head
    {
      var earlier :| Overlooked(s, earlier) && earlier.head < b.head;
      b := earlier;
    }
  }

  lemma {:induction false} NotDoomedEnds(input: seq<Block>, s: State)
    requires Inv(input, s) && Placed(s) && Seen(s) && s.pipe != Normal && !exists b :: Doomed(s, b)
    ensures CanEnd(s)
  {
    hide Inv, Placed, Seen, Overlooked, MayReveal, CanEnd;
    if c :| Overlooked(s, c) {
      var b := OldestOverlooked(s, c);
      assert !Doomed(s, b);
      hide Clear;
      if x :| x in s.win + s.eu && x.bb.wrongPath && x.bb.head <= b.head {
        WrongPathRescues(input, s, x, b.head);
      } else {
        var x, v :| MayReveal(s, x, v) && v.bb.head <= b.head;
        RevealedOlder(input, s, x, v);
        StoreRescues(input, s, x, v, b.head);
      }
    } else {
      UnblindEnds(input, s);
    }
  }

  lemma {:induction false} TicksFeedNothing(choices: seq<Choices>)
    ensures Fed(Ticks(choices)) == []
  {
    if choices != [] {
      TicksFeedNothing(choices[..|choices| - 1]);
      TicksEnd(choices);
    }
  }

  lemma {:induction false} DoomedIsStuck(input: seq<Block>, s: State, b: Block)
    requires Inv(input, s) && s.pipe != Normal && Doomed(s, b)
    ensures Stuck(s)
  {
    hide Core, Lowerable;
  }

  /** These cycles bring the back end back to normal operation. */
  ghost predicate Recovers(s: State, choices: seq<Choices>) {
    After(s, Ticks(choices)).Some? && After(s, Ticks(choices)).value.pipe == Normal
  }

  lemma {:induction false} DoomedNeverRecovers(input: seq<Block>, s: State, b: Block, choices: seq<Choices>)
    requires Inv(input, s) && s.pipe != Normal && Doomed(s, b)
    ensures !Recovers(s, choices)
  {
    hide Core, PipeInv, After, Ticks, Fed;
    DoomedIsStuck(input, s, b);
    TicksFeedNothing(choices);
    InputOrdered(input, s);
    assert input + [] == input;
    hide Inv, Stuck, Ordered, Doomed;
    StuckForEver(input, s, Ticks(choices));
  }

  lemma {:induction false} InputOrdered(input: seq<Block>, s: State)
    requires Inv(input, s)
    ensures Ordered(input)
  {
  }

  lemma {:induction false} EndIsRecovery(s: State, choices: seq<Choices>)
    requires Ends(s, choices)
    ensures Recovers(s, choices)
  {
    hide After, Ticks;
  }

  lemma {:induction false} EndsExactly(input: seq<Block>, s: State)
    requires Inv(input, s) && Placed(s) && Seen(s) && s.pipe != Normal
    ensures CanEnd(s) <==> !exists b :: Doomed(s, b)
    ensures CanEnd(s) <==> exists choices :: Recovers(s, choices)
  {
    hide Inv, Placed, Seen, Doomed, Ends, Recovers;
    if b :| Doomed(s, b) {
      forall choices ensures !Recovers(s, choices) { DoomedNeverRecovers(input, s, b, choices); }
      if choices :| Ends(s, choices) { EndIsRecovery(s, choices); }
    } else {
      NotDoomedEnds(input, s);
      var choices :| Ends(s, choices);
      EndIsRecovery(s, choices);
    }
  }

  /** Every reachable squash can end unless a block is doomed in it, and then nothing the environment decides brings it
      back to normal operation. */
  lemma {:induction false} EpisodeEndsExactly(run: seq<Action>)
    requires Ordered(Fed(run)) && After(Init(), run).Some? && After(Init(), run).value.pipe != Normal
    ensures var s := After(Init(), run).value;
            && (CanEnd(s) <==> !exists b :: Doomed(s, b))
            && (CanEnd(s) <==> exists choices :: Recovers(s, choices))
  {
    RunSafe(run);
    RunPlaced(run);
    RunSeen(run);
    hide Inv, Placed, Seen, After, Doomed, Ordered, Recovers, CanEnd, Fed;
    EndsExactly(Fed(run), After(Init(), run).value);
  }
}
