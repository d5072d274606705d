/** Two runs in which an assertion of the block protocol fails: one goes on where the source would leave for the
    frontend, the other drains the back end after the frontend is done. */
module FailingRuns {
  import opened Collections
  import opened ProtocolCycle
  import opened ProtocolFrontEnd
  import opened ProtocolRefill
  import opened ProtocolRuns
  import opened ProtocolSpec
  import opened ProtocolStages
  import opened ProtocolSteps
  import opened SmallBlocks

  /** One instruction is fetched, decoded, dispatched, issued and completed, and its block commits. */
  ghost function OneByOne(): seq<Choices> {
    var x := Ins(1, Small(false, 0));
    [IDLE.(fetches := 1), IDLE.(decodes := 1), IDLE.(dispatched := [false]), IDLE.(issued := {x}),
     IDLE.(events := [Event(x, false, None)]), IDLE.(commits := 1)]
  }

  /** The states between those cycles. */
  ghost function Stage(k: nat): State {
    var b, x, n := Small(false, 0), Ins(1, Small(false, 0)), BB_NEAR_EMPTY_SIZE + 1;
    var s := Init().(cache := Smalls(false, n), st := FreshTable(false, n));
    var f := s.(que := [b], cache := s.cache[1..], current := Some(b), lim := 1, st := s.st[1 := BlockState(0, false, false)]);
    if k == 0 then s
    else if k == 1 then f.(f2d := [x])
    else if k == 2 then f.(d2s := [x])
    else if k == 3 then f.(rob := [b], disp := 1, win := {x})
    else if k == 4 then f.(rob := [b], disp := 1, eu := {x})
    else f.(rob := [b], disp := 1, done := {x})
  }

  /** In the later stages fetch waits for the frontend. */
  lemma {:induction false} StageWaits(k: nat, s: State, n: nat)
    requires 1 <= k && s.pipe == Normal && s.st == Stage(k).st && s.current == Stage(k).current && s.cache == Stage(k).cache && !s.inProgress
    ensures FetchStage(s, true, n) == Some(s) && FetchStops(s, true, n)
  {
  }

  lemma {:induction false} FetchCycle()
    ensures Cycle(Stage(0), OneByOne()[0]) == Some(Stage(1))
  {
    var s, ch := Stage(0), OneByOne()[0];
    IdleBackEnd(s, ch);
    IssueNone(s);
    hide AfterScheduler;
    var t := PopCache(s);
    assert s.cache[0] == Small(false, 0) && t.que == [Small(false, 0)];
    assert FetchBB(s, true) == Go(t);
    var u := Update(FetchOne(t));
    assert u == Stage(1);
    assert FetchLoop(t, true, 1) == FetchLoop(u, true, 0) == Stop(u);
    assert FetchImpl(s, true, 1) == Some(u);
  }

  lemma {:induction false} DecodeCycle()
    ensures Cycle(Stage(1), OneByOne()[1]) == Some(Stage(2)) && Stops(Stage(1), OneByOne()[1])
  {
    var s, ch := Stage(1), OneByOne()[1];
    IdleBackEnd(s, ch);
    IssueNone(s);
    hide AfterScheduler, FetchStage, FetchStops;
    assert DecodeRun(s, 1) == DecodeRun(DecodeOne(s), 0) == Stage(2);
    StageWaits(1, Stage(2), 0);
  }

  lemma {:induction false} DispatchCycle()
    ensures Cycle(Stage(2), OneByOne()[2]) == Some(Stage(3))
  {
    var s, ch := Stage(2), OneByOne()[2];
    var idle := ch.(dispatched := []);
    IdleBackEnd(s, idle);
    IssueNone(s);
    assert AfterExecution(s, ch) == AfterExecution(s, idle);
    assert AfterExecution(s, idle) == s;
    hide AfterExecution, FetchStage;
    assert DispatchRun(s, [false][..0]) == s;
    assert DispatchRun(s, [false]) == Stage(3);
    StageWaits(2, Stage(3), 0);
  }

  lemma {:induction false} IssueCycle()
    ensures Cycle(Stage(3), OneByOne()[3]) == Some(Stage(4))
  {
    var s, ch := Stage(3), OneByOne()[3];
    IdleBackEnd(s, ch);
    hide AfterScheduler, FetchStage;
    assert Issue(s, ch.issued) == Stage(4);
    StageWaits(3, Stage(4), 0);
  }

  lemma {:induction false} CompleteCycle()
    ensures Cycle(Stage(4), OneByOne()[4]) == Some(Stage(5))
  {
    var s, ch, x := Stage(4), OneByOne()[4], Ins(1, Small(false, 0));
    hide FetchStage;
    var c := Completing(StartComplete(s), None);
    assert [Event(x, false, None)][..0] == [];
    assert CompleteAll(c, []) == c;
    assert CompleteAll(c, [Event(x, false, None)]) == CompleteOne(c, Event(x, false, None));
    assert CompleteStage(s, ch.events) == Stage(5);
    IssueNone(Stage(5));
    assert AfterScheduler(s, ch) == Stage(5);
    StageWaits(4, Stage(5), 0);
  }

  lemma {:induction false} CommitCycle()
    ensures Cycle(Stage(5), OneByOne()[5]) == None
  {
    assert InsOf(Small(false, 0)) == [Ins(1, Small(false, 0))];
    assert FrontComplete(Stage(5));
  }

  /** The deliveries and the first `k` cycles. */
  ghost function FailingRun(k: nat): seq<Action>
    requires k <= |OneByOne()|
  {
    if k == 0 then Deliveries(false, BB_NEAR_EMPTY_SIZE + 1) else FailingRun(k - 1) + [Tick(OneByOne()[k - 1])]
  }

  lemma {:induction false} FailingStep(k: nat)
    requires k < 5
    ensures Cycle(Stage(k), OneByOne()[k]) == Some(Stage(k + 1))
  {
    hide Cycle, Stage;
    if k == 0 { FetchCycle(); }
    else if k == 1 { DecodeCycle(); }
    else if k == 2 { DispatchCycle(); }
    else if k == 3 { IssueCycle(); }
    else { CompleteCycle(); }
  }

  lemma {:induction false} FirstStage()
    ensures After(Init(), Deliveries(false, BB_NEAR_EMPTY_SIZE + 1)) == Some(Stage(0))
  {
    AfterDeliveries(false, BB_NEAR_EMPTY_SIZE + 1);
    hide After, Smalls, FreshTable, Deliveries;
  }

  lemma {:induction false} FailingStages(k: nat)
    requires k <= 5
    ensures After(Init(), FailingRun(k)) == Some(Stage(k))
  {
    hide Cycle, Stage, After, AlwaysRunning, Fed, Deliveries;
    if k == 0 {
      FirstStage();
    } else {
      FailingStages(k - 1);
      FailingStep(k - 1);
      hide OneByOne;
      OneMore(FailingRun(k - 1), Tick(OneByOne()[k - 1]));
    }
  }

  lemma {:induction false} FailingShape(k: nat)
    requires k <= |OneByOne()|
    ensures |FailingRun(k)| == BB_NEAR_EMPTY_SIZE + 1 + k && Fed(FailingRun(k)) == Smalls(false, BB_NEAR_EMPTY_SIZE + 1)
    ensures AlwaysRunning(FailingRun(k))
  {
    hide After, AlwaysRunning, Fed, Step, Deliveries, Smalls;
    if k == 0 {
      AfterDeliveries(false, BB_NEAR_EMPTY_SIZE + 1);
    } else {
      FailingShape(k - 1);
      OneMore(FailingRun(k - 1), Tick(OneByOne()[k - 1]));
    }
  }

  lemma {:induction false} FailingPrefix(j: nat, k: nat)
    requires j <= k <= |OneByOne()|
    ensures |FailingRun(j)| <= |FailingRun(k)| && FailingRun(k)[..|FailingRun(j)|] == FailingRun(j)
    decreases k
  {
    if j < k {
      FailingPrefix(j, k - 1);
      var n := |FailingRun(k - 1)|;
      assert FailingRun(k)[..n] == FailingRun(k - 1);
      assert FailingRun(k)[..|FailingRun(j)|] == FailingRun(k)[..n][..|FailingRun(j)|];
    }
  }

  /** 51 one-instruction blocks are delivered. When the first one has been read the back end asks for the frontend;
      if it goes on instead, that block completes and commits before its fetch is marked as done. */
  lemma {:induction false} UnrefilledRunFails()
    ensures var run := FailingRun(6);
            Ordered(Fed(run)) && AlwaysRunning(run) && !Refilled(run) && After(Init(), run) == None
  {
    FailingShape(6);
    SmallsOrdered(false, BB_NEAR_EMPTY_SIZE + 1);
    FailingStages(5);
    CommitCycle();
    NotRefilled();
    hide Cycle, Stage, After, Refilled, Ordered, Smalls, AlwaysRunning, Fed, Deliveries;
    OneMore(FailingRun(5), Tick(OneByOne()[5]));
    assert FailingRun(6) == FailingRun(5) + [Tick(OneByOne()[5])];
  }

  lemma {:induction false} NotRefilled()
    ensures !Refilled(FailingRun(6))
  {
    var run, n := FailingRun(6), BB_NEAR_EMPTY_SIZE + 1;
    FailingShape(6);
    FailingShape(1);
    FailingShape(2);
    FailingShape(3);
    FailingPrefix(2, 6);
    FailingPrefix(3, 6);
    FailingStages(1);
    FailingStages(2);
    DecodeCycle();
    assert |Stage(2).cache| == BB_NEAR_EMPTY_SIZE;
    hide Cycle, Stage, Stops, After, Smalls, Deliveries, AlwaysRunning, Fed;
    assert FailingRun(2)[..n + 1] == FailingRun(1);
    assert run[n + 2] == run[..n + 3][n + 2] == Tick(OneByOne()[2]);
    assert Waiting(run[..n + 2]);
  }

  // ----- Draining -----

  /** After the frontend is done, a block is fetched, marked as done with an empty cache, and asked for again. */
  function DrainingRun(): seq<Action> {
    var idle := IDLE.(running := false);
    [Feed(Small(false, 0)), Tick(idle.(fetches := 1)), Tick(idle), Tick(idle)]
  }

  /** The states after the first actions. */
  ghost function Drain(k: nat): State {
    var b := Small(false, 0);
    var s := Init().(cache := [b], st := map[1 := Fresh(b)]);
    var f := s.(que := [b], cache := [], current := Some(b), lim := 1, f2d := [Ins(1, b)]);
    if k <= 1 then s
    else if k == 2 then f.(st := s.st[1 := BlockState(0, false, false)])
    else f.(st := s.st[1 := BlockState(0, false, true)])
  }

  lemma {:induction false} FetchLast()
    ensures Cycle(Drain(1), IDLE.(running := false, fetches := 1)) == Some(Drain(2))
  {
    var s, ch := Drain(1), IDLE.(running := false, fetches := 1);
    IdleBackEnd(s, ch);
    IssueNone(s);
    hide AfterScheduler;
    var t := PopCache(s);
    assert FetchBB(s, false) == Go(t);
    var u := Update(FetchOne(t));
    assert u == Drain(2);
    assert FetchLoop(t, false, 1) == FetchLoop(u, false, 0) == Stop(u);
    assert FetchImpl(s, false, 1) == Some(u);
  }

  lemma {:induction false} MarkLast()
    ensures Cycle(Drain(2), IDLE.(running := false)) == Some(Drain(3))
    ensures Cycle(Drain(3), IDLE.(running := false)) == None
  {
    var ch := IDLE.(running := false);
    IdleBackEnd(Drain(2), ch);
    IdleBackEnd(Drain(3), ch);
    IssueNone(Drain(2));
    IssueNone(Drain(3));
    hide AfterScheduler;
    assert FetchBB(Drain(2), false) == Stop(Drain(3));
    assert FetchBB(Drain(3), false) == Abort;
  }

  lemma {:induction false} DrainingRunFails()
    ensures Ordered(Fed(DrainingRun())) && After(Init(), DrainingRun()) == None
  {
    var r, idle := DrainingRun(), IDLE.(running := false);
    FetchLast();
    MarkLast();
    DrainingStart();
    hide Cycle, Drain, After, Fed, AlwaysRunning;
    OneMore([r[0]], r[1]);
    OneMore([r[0], r[1]], r[2]);
    OneMore([r[0], r[1], r[2]], r[3]);
    assert [r[0], r[1], r[2]] == [r[0], r[1]] + [r[2]] && [r[0], r[1]] == [r[0]] + [r[1]];
    assert r == [r[0], r[1], r[2]] + [r[3]];
  }

  lemma {:induction false} DrainingStart()
    ensures After(Init(), [Feed(Small(false, 0))]) == Some(Drain(1)) && Fed([Feed(Small(false, 0))]) == [Small(false, 0)] && Ordered([Small(false, 0)])
  {
    var a := Feed(Small(false, 0));
    assert [a] == [] + [a];
    OneMore([], a);
    assert After(Init(), []) == Some(Init()) && Fed([]) == [];
    hide After, Fed, AlwaysRunning;
    assert [] + [Small(false, 0)] == [Small(false, 0)];
  }
}
