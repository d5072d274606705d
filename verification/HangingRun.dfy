/** A squash that never ends: a wrong-path store, alone in its block, finds a load of a later block violated, and
    completion records the load only (execution.cpp). */
module HangingRun {
  import opened Collections
  import opened ProtocolCycle
  import opened ProtocolEpisode
  import opened ProtocolFrontEnd
  import opened ProtocolRefill
  import opened ProtocolRescue
  import opened ProtocolRuns
  import opened ProtocolSpec
  import opened ProtocolStages
  import opened ProtocolSteps
  import opened ProtocolStuck
  import opened SmallBlocks

  const BLOCKS := BB_NEAR_EMPTY_SIZE + 4

  /** The store and two loads. */
  function St(): Ins { Ins(1, Small(true, 0)) }
  function Old(): Ins { Ins(2, Small(true, 1)) }
  function Ld(): Ins { Ins(3, Small(true, 2)) }

  /** They are fetched, decoded and dispatched; the younger load completes first; then the store finds it violated. */
  ghost function TooEarly(): seq<Choices> {
    [IDLE.(fetches := 3), IDLE.(decodes := 3), IDLE.(dispatched := [false, true, true]), IDLE.(issued := {Ld()}),
     IDLE.(events := [Event(Ld(), true, None)]), IDLE.(loads := [Ld()], issued := {St()}),
     IDLE.(events := [Event(St(), false, Some(Ld()))])]
  }

  ghost function Fetched(): State {
    var s := Init().(cache := Smalls(true, BLOCKS), st := FreshTable(true, BLOCKS));
    s.(que := [Small(true, 0), Small(true, 1), Small(true, 2)], cache := s.cache[3..], current := Some(Small(true, 2)), lim := 3,
       inProgress := true, st := s.st[1 := BlockState(0, false, true)][2 := BlockState(0, false, true)][3 := BlockState(1, false, false)])
  }

  /** The states between those cycles. */
  ghost function Phase(k: nat): State {
    var f := Fetched();
    var d := f.(rob := f.que, disp := 3, lq := {Old(), Ld()});
    if k == 0 then Init().(cache := Smalls(true, BLOCKS), st := FreshTable(true, BLOCKS))
    else if k == 1 then f.(f2d := [St(), Old(), Ld()])
    else if k == 2 then f.(d2s := [St(), Old(), Ld()])
    else if k == 3 then d.(win := {St(), Old(), Ld()})
    else if k == 4 then d.(win := {St(), Old()}, eu := {Ld()})
    else if k == 5 then d.(win := {St(), Old()}, mem := {Ld()})
    else if k == 6 then d.(win := {Old()}, eu := {St()}, done := {Ld()})
    else d.(win := {Old()}, done := {St(), Ld()}, st := f.st[3 := BlockState(1, true, false)], badIns := 3, kind := MemMispred, sn := 3,
            pipe := WaitFlush)
  }

  lemma {:induction false} PhaseWaits(k: nat, s: State)
    requires 1 <= k && s.pipe == Normal && s.st == Phase(k).st && s.current == Phase(k).current && s.cache == Phase(k).cache && s.inProgress
    requires k <= 6
    ensures FetchStage(s, true, 0) == Some(s)
  {
  }

  /** The state when `k` instructions have been fetched. */
  ghost function Reading(k: nat): State {
    var s := Phase(0);
    if k == 1 then
      s.(que := [Small(true, 0)], cache := s.cache[1..], current := Some(Small(true, 0)), lim := 1, f2d := [St()],
         st := s.st[1 := BlockState(0, false, false)])
    else if k == 2 then
      s.(que := [Small(true, 0), Small(true, 1)], cache := s.cache[2..], current := Some(Small(true, 1)), lim := 2, f2d := [St(), Old()],
         st := s.st[1 := BlockState(0, false, true)][2 := BlockState(0, false, false)])
    else Phase(1)
  }

  lemma {:induction false} ReadFirst()
    ensures var t := PopCache(Phase(0));
            FetchBB(Phase(0), true) == Go(t) && CanFetch(t) && Update(FetchOne(t)) == Reading(1)
  {
    assert Phase(0).cache[0] == Small(true, 0);
  }

  lemma {:induction false} ReadSecond()
    ensures var s := Reading(1); var t := PopCache(SetDone(s));
            FetchBB(s, true) == Go(t) && !CanFetch(s) && CanFetch(t) && Update(FetchOne(t)) == Reading(2)
  {
    assert Reading(1).cache[0] == Small(true, 1) && Reading(1).cache[1..] == Reading(2).cache;
  }

  lemma {:induction false} ReadThird()
    ensures var s := Reading(2); var t := PopCache(SetDone(s));
            FetchBB(s, true) == Go(t) && !CanFetch(s) && CanFetch(t) && Update(FetchOne(t)) == Reading(3)
  {
    assert Reading(2).cache[0] == Small(true, 2) && Reading(2).cache[1..] == Reading(3).cache;
  }

  lemma {:induction false} ReadThree()
    ensures FetchImpl(Phase(0), true, 3) == Some(Phase(1))
  {
    ReadFirst();
    ReadSecond();
    ReadThird();
    assert Reading(3) == Phase(1);
    hide FetchBB, CanFetch, Phase, Reading, PopCache, SetDone, Update, FetchOne;
    assert FetchLoop(Reading(3), true, 0) == Stop(Reading(3));
    assert FetchLoop(Reading(2), true, 1) == Stop(Reading(3));
    assert FetchLoop(Reading(1), true, 2) == Stop(Reading(3));
    assert FetchLoop(PopCache(Phase(0)), true, 3) == Stop(Reading(3));
  }

  lemma {:induction false} FetchThree()
    ensures Cycle(Phase(0), TooEarly()[0]) == Some(Phase(1))
  {
    var s, ch := Phase(0), TooEarly()[0];
    IdleBackEnd(s, ch);
    IssueNone(s);
    ReadThree();
    hide AfterScheduler, FetchImpl;
  }

  lemma {:induction false} DecodeThree()
    ensures Cycle(Phase(1), TooEarly()[1]) == Some(Phase(2))
  {
    var s, ch := Phase(1), TooEarly()[1];
    IdleBackEnd(s, ch);
    IssueNone(s);
    hide AfterScheduler, FetchStage;
    var t := DecodeOne(DecodeOne(s));
    assert DecodeRun(DecodeOne(t), 0) == Phase(2);
    assert DecodeRun(s, 3) == DecodeRun(DecodeOne(s), 2) == DecodeRun(t, 1) == Phase(2);
    PhaseWaits(1, Phase(2));
  }

  /** The state when `k` instructions have been dispatched. */
  ghost function Dispatched(k: nat): State {
    var f := Fetched();
    if k == 1 then f.(rob := f.que[..1], disp := 1, d2s := [Old(), Ld()], win := {St()})
    else f.(rob := f.que[..2], disp := 2, d2s := [Ld()], win := {St(), Old()}, lq := {Old()})
  }

  lemma {:induction false} DispatchSteps()
    ensures DispatchOne(PushRob(Phase(2)), false) == Dispatched(1)
    ensures DispatchOne(PushRob(Dispatched(1)), true) == Dispatched(2)
    ensures DispatchOne(PushRob(Dispatched(2)), true) == Phase(3)
  {
    assert Phase(3).que[..2] + [Phase(3).que[2]] == Phase(3).que;
  }

  lemma {:induction false} DispatchAll()
    ensures DispatchRun(Phase(2), [false, true, true]) == Phase(3)
  {
    DispatchSteps();
    assert [false, true, true][..2] == [false, true] && [false, true][..1] == [false] && [false][..0] == [];
    assert Phase(2).d2s != [] && Dispatched(1).d2s != [] && Dispatched(2).d2s != [];
    hide Phase, Dispatched, DispatchOne, PushRob;
    assert DispatchRun(Phase(2), []) == Phase(2);
    assert DispatchRun(Phase(2), [false]) == Dispatched(1);
    assert DispatchRun(Phase(2), [false, true]) == Dispatched(2);
  }

  lemma {:induction false} DispatchThree()
    ensures Cycle(Phase(2), TooEarly()[2]) == Some(Phase(3))
  {
    var s, ch := Phase(2), TooEarly()[2];
    var idle := ch.(dispatched := []);
    IdleBackEnd(s, idle);
    IssueNone(s);
    assert AfterExecution(s, ch) == AfterExecution(s, idle);
    assert AfterExecution(s, idle) == s;
    hide AfterExecution, FetchStage;
    DispatchAll();
    PhaseWaits(2, Phase(3));
  }

  lemma {:induction false} IssueLoad()
    ensures Cycle(Phase(3), TooEarly()[3]) == Some(Phase(4))
  {
    var s, ch := Phase(3), TooEarly()[3];
    IdleBackEnd(s, ch);
    hide AfterScheduler, FetchStage;
    assert Issue(s, ch.issued) == Phase(4);
    PhaseWaits(3, Phase(4));
  }

  /** One completion in normal operation that finds nothing. */
  lemma {:induction false} OneEvent(s: State, e: Event)
    requires s.pipe == Normal && s.sn == 0 && s.oldSn == 0 && s.badIns == 0 && s.kind == NoMispred
    requires MayComplete(s, e.x, e.v)
    ensures CompleteStage(s, [e]) == Settle(CompleteOne(Completing(s, None), e))
  {
    var c := Completing(StartComplete(s), None);
    assert [e][..0] == [];
    assert CompleteAll(c, []) == c;
    assert c.s == s;
  }

  lemma {:induction false} LoadAddress()
    ensures Cycle(Phase(4), TooEarly()[4]) == Some(Phase(5))
  {
    var s, ch := Phase(4), TooEarly()[4];
    OneEvent(s, ch.events[0]);
    assert ch.events == [ch.events[0]];
    hide FetchStage, CompleteAll;
    assert CompleteStage(s, ch.events) == Phase(5);
    IssueNone(Phase(5));
    assert AfterScheduler(s, ch) == Phase(5);
    PhaseWaits(4, Phase(5));
  }

  lemma {:induction false} LoadCompletes()
    ensures Cycle(Phase(5), TooEarly()[5]) == Some(Phase(6))
  {
    var s, ch := Phase(5), TooEarly()[5];
    var m := LoadDone(s, Ld());
    assert [Ld()][..0] == [] && LoadsRun(s, []) == s && LoadsRun(s, [Ld()]) == m;
    IdleBackEnd(m, ch.(loads := []));
    assert AfterScheduler(s, ch) == AfterScheduler(m, ch.(loads := []));
    hide AfterScheduler, FetchStage, LoadsRun;
    assert Issue(m, {St()}) == Phase(6);
    PhaseWaits(5, Phase(6));
  }

  lemma {:induction false} StoreFindsLoad()
    ensures Cycle(Phase(6), TooEarly()[6]) == Some(Phase(7))
  {
    var s, ch := Phase(6), TooEarly()[6];
    OneEvent(s, ch.events[0]);
    assert ch.events == [ch.events[0]];
    hide FetchImpl, CompleteAll;
    assert CompleteStage(s, ch.events) == Phase(7).(pipe := Normal);
    assert AfterScheduler(s, ch) == Phase(7);
  }

  // ----- The run -----

  /** The deliveries and the first `k` cycles. */
  ghost function HangingRun(k: nat): seq<Action>
    requires k <= |TooEarly()|
  {
    if k == 0 then Deliveries(true, BLOCKS) else HangingRun(k - 1) + [Tick(TooEarly()[k - 1])]
  }

  lemma {:induction false} HangingStep(k: nat)
    requires k < 7
    ensures Cycle(Phase(k), TooEarly()[k]) == Some(Phase(k + 1))
  {
    hide Cycle, Phase;
    if k == 0 { FetchThree(); }
    else if k == 1 { DecodeThree(); }
    else if k == 2 { DispatchThree(); }
    else if k == 3 { IssueLoad(); }
    else if k == 4 { LoadAddress(); }
    else if k == 5 { LoadCompletes(); }
    else { StoreFindsLoad(); }
  }

  lemma {:induction false} FirstPhase()
    ensures After(Init(), Deliveries(true, BLOCKS)) == Some(Phase(0)) && Fed(Deliveries(true, BLOCKS)) == Smalls(true, BLOCKS)
  {
    AfterDeliveries(true, BLOCKS);
    hide After, Smalls, FreshTable, Deliveries, Fed;
  }

  lemma {:induction false} HangingPhases(k: nat)
    requires k <= 7
    ensures After(Init(), HangingRun(k)) == Some(Phase(k)) && Fed(HangingRun(k)) == Smalls(true, BLOCKS)
    ensures AlwaysRunning(HangingRun(k))
  {
    hide Cycle, Phase, After, AlwaysRunning, Fed, Deliveries, Smalls;
    if k == 0 {
      FirstPhase();
      AfterDeliveries(true, BLOCKS);
    } else {
      HangingPhases(k - 1);
      HangingStep(k - 1);
      EarlyRuns(k - 1);
      hide TooEarly;
      OneMore(HangingRun(k - 1), Tick(TooEarly()[k - 1]));
    }
  }

  lemma {:induction false} EarlyRuns(k: nat)
    requires k < 7
    ensures TooEarly()[k].running
  {
  }

  // ----- No cycle leaves for the frontend -----

  /** Fetch asks for no new block while one is in progress. */
  lemma {:induction false} ReadsOn(s: State, t: State)
    requires FetchStage(s, true, 0) == Some(t) && t.inProgress
    ensures !FetchStops(s, true, 0)
  {
  }

  lemma {:induction false} FirstGoesOn()
    ensures !Stops(Phase(0), TooEarly()[0])
  {
    var s, ch := Phase(0), TooEarly()[0];
    IdleBackEnd(s, ch);
    IssueNone(s);
    FirstNotStopped();
    hide AfterScheduler, FetchStops;
    assert BeforeFetch(s, ch) == s;
  }

  lemma {:induction false} FirstNotStopped()
    ensures !FetchStops(Phase(0), true, 3)
  {
    ReadFirst();
    ReadSecond();
    ReadThird();
    assert !AsksFrontend(Phase(0), true) && !AsksFrontend(Reading(1), true) && !AsksFrontend(Reading(2), true);
    hide FetchBB, CanFetch, Phase, Reading, PopCache, SetDone, Update, FetchOne, AsksFrontend;
    assert !LoopStops(Reading(2), true, 1);
    assert !LoopStops(Reading(1), true, 2);
    assert !LoopStops(PopCache(Phase(0)), true, 3);
  }

  lemma {:induction false} CycleReadsOn(s: State, ch: Choices, t: State)
    requires Cycle(s, ch) == Some(t) && t.inProgress && ch.running && ch.fetches == 0
    ensures !Stops(s, ch)
  {
    var c := CommitStage(s, ch.commits).value;
    hide CommitStage, AfterScheduler, DecodeStage, FetchStage, FetchStops;
    ReadsOn(BeforeFetch(c, ch), t);
  }

  lemma {:induction false} GoesOn(k: nat)
    requires k < 7
    ensures !Stops(Phase(k), TooEarly()[k])
  {
    if k == 0 {
      FirstGoesOn();
    } else {
      HangingStep(k);
      assert Phase(k + 1).inProgress && TooEarly()[k].running && TooEarly()[k].fetches == 0;
      hide Phase, TooEarly, Stops, Cycle;
      CycleReadsOn(Phase(k), TooEarly()[k], Phase(k + 1));
    }
  }

  lemma {:induction false} DeliveriesNeverWait(n: nat)
    ensures !Waiting(Deliveries(true, n))
  {
    if n > 0 {
      DeliveriesNeverWait(n - 1);
      assert Deliveries(true, n)[..|Deliveries(true, n)| - 1] == Deliveries(true, n - 1);
    }
  }

  lemma {:induction false} NeverWaits(k: nat)
    requires k <= 7
    ensures !Waiting(HangingRun(k))
  {
    hide Stops, After, Deliveries;
    if k == 0 {
      DeliveriesNeverWait(BLOCKS);
    } else {
      HangingPhases(k - 1);
      GoesOn(k - 1);
      assert HangingRun(k)[..|HangingRun(k)| - 1] == HangingRun(k - 1);
    }
  }

  /** Up to the deliveries nothing but a delivery, after them cycle by cycle. */
  lemma {:induction false} HangingPrefix(k: nat, i: nat)
    requires k <= 7
    ensures |HangingRun(k)| == BLOCKS + k
    ensures i < BLOCKS ==> HangingRun(k)[i].Feed?
    ensures BLOCKS <= i <= BLOCKS + k ==> HangingRun(k)[..i] == HangingRun(i - BLOCKS)
  {
    if k == 0 {
      AfterDeliveries(true, BLOCKS);
      DeliveriesFeed(BLOCKS, i);
    } else {
      HangingPrefix(k - 1, i);
      if i == BLOCKS + k { assert HangingRun(k)[..i] == HangingRun(k); }
      else if BLOCKS <= i < BLOCKS + k { assert HangingRun(k)[..i] == HangingRun(k - 1)[..i]; }
    }
    hide Deliveries, TooEarly;
  }

  lemma {:induction false} DeliveriesFeed(n: nat, i: nat)
    ensures |Deliveries(true, n)| == n && (i < n ==> Deliveries(true, n)[i].Feed?)
  {
    if n > 0 { DeliveriesFeed(n - 1, i); }
  }

  lemma {:induction false} NothingToRefill()
    ensures Refilled(HangingRun(7))
  {
    var run := HangingRun(7);
    hide HangingRun, Waiting, After, Refilled, Deliveries, TooEarly;
    forall i | 0 <= i < |run| && run[i].Tick? ensures !Waiting(run[..i]) {
      HangingPrefix(7, i);
      NeverWaits(i - BLOCKS);
    }
    NeverLeft(run);
  }

  lemma {:induction false} NeverLeft(run: seq<Action>)
    requires forall i :: 0 <= i < |run| && run[i].Tick? ==> !Waiting(run[..i])
    ensures Refilled(run)
  {
    hide Waiting, After;
  }

  /** The store's block is complete and on the wrong path, and what is squashed starts two blocks later. */
  lemma {:induction false} StoreOverlooked()
    ensures Doomed(Phase(7), Small(true, 0)) && Phase(7).pipe == WaitFlush && |Phase(7).cache| > BB_NEAR_EMPTY_SIZE
  {
    var s := Phase(7);
    assert s.que[0] == Small(true, 0);
    assert s.win + s.eu == {Old()};
  }

  /** The frontend keeps running and no cycle leaves for it, and after seven cycles nothing that it delivers and nothing that
      the environment decides brings the back end back to normal operation. */
  lemma {:induction false} SquashNeverEnds(more: seq<Action>)
    requires Ordered(Fed(HangingRun(7)) + Fed(more))
    ensures var s := After(Init(), HangingRun(7));
            && Ordered(Fed(HangingRun(7))) && AlwaysRunning(HangingRun(7)) && Refilled(HangingRun(7)) && s.Some? && !CanEnd(s.value)
            && |s.value.cache| > BB_NEAR_EMPTY_SIZE && After(s.value, more).Some? && After(s.value, more).value.pipe != Normal
  {
    hide Cycle, Phase, After, AlwaysRunning, Fed, Smalls, Inv, Doomed, CanEnd, HangingRun, Ordered, Recovers, Refilled;
    NothingToRefill();
    HangingPhases(7);
    SmallsOrdered(true, BLOCKS);
    StoreOverlooked();
    RunSafe(HangingRun(7));
    EpisodeEndsExactly(HangingRun(7));
    StuckForEver(Fed(HangingRun(7)), Phase(7), more);
  }
}
