/** Without refills commit's assertion can fail: every state that waits for the frontend, with only the correct path
    queued, leads there. */
module ProtocolStall {
  import opened Collections
  import opened ProtocolCycle
  import opened ProtocolFrontEnd
  import opened ProtocolPlaced
  import opened ProtocolRefill
  import opened ProtocolRuns
  import opened ProtocolSpec
  import opened ProtocolStages
  import opened ProtocolSteps

  // ----- A stalled state can fail -----

  /** The current block was read to its end, fetch waits for the frontend, and nothing queued will be squashed. */
  ghost predicate Stalled(s: State) {
    && s.pipe == Normal && Unmarked(s) && |s.cache| <= BB_NEAR_EMPTY_SIZE
    && forall b :: b in s.que ==> b.id in s.st && !b.wrongPath && !s.st[b.id].memViolation
  }

  ghost function Listed(xs: set<Ins>): (r: seq<Ins>)
    ensures forall x :: x in r <==> x in xs
  {
    if xs == {} then [] else var x :| x in xs; Listed(xs - {x}) + [x]
  }

  /** Every instruction finishes without finding a violated load. */
  ghost function Finishes(xs: seq<Ins>): seq<Event> {
    if xs == [] then [] else Finishes(xs[..|xs| - 1]) + [Event(xs[|xs| - 1], false, None)]
  }

  function Stores(n: nat): seq<bool> {
    seq(n, _ => false)
  }

  /** Loads and execution units finish, all windows issue, and both ports move on. */
  ghost function PushOn(s: State): Choices {
    Choices(0, Listed(s.mem), Finishes(Listed(s.eu)), s.win, false, Stores(|s.d2s|), false, |s.f2d|, true, 0)
  }

  lemma {:induction false} LoadsFinish(s: State, loads: seq<Ins>)
    ensures LoadsRun(s, loads) == s.(mem := LoadsRun(s, loads).mem, done := LoadsRun(s, loads).done)
    ensures LoadsRun(s, loads).mem == s.mem - set x | x in loads
  {
    if loads != [] {
      var n := |loads| - 1;
      LoadsFinish(s, loads[..n]);
      assert (set x | x in loads) == (set x | x in loads[..n]) + {loads[n]};
    }
  }

  lemma {:induction false} UnitsFinish(s: State, xs: seq<Ins>)
    requires forall x :: x in xs ==> !x.bb.wrongPath
    ensures var c := CompleteAll(Completing(s, None), Finishes(xs));
            c.bad == None && c.s == s.(eu := c.s.eu, done := c.s.done) && c.s.eu == s.eu - set x | x in xs
  {
    if xs != [] {
      var n, es := |xs| - 1, Finishes(xs);
      UnitsFinish(s, xs[..n]);
      assert es[..|es| - 1] == Finishes(xs[..n]) && es[|es| - 1] == Event(xs[n], false, None);
      assert (set x | x in xs) == (set x | x in xs[..n]) + {xs[n]};
    }
  }

  lemma {:induction false} AllDispatch(s: State, n: nat)
    requires n == |s.d2s|
    ensures var r := DispatchRun(s, Stores(n));
            r == s.(rob := r.rob, win := r.win, d2s := [], disp := r.disp, lq := r.lq) && (s.d2s == [] ==> r.win == s.win)
  {
    DispatchSome(s, n, n);
  }

  lemma {:induction false} DispatchSome(s: State, n: nat, k: nat)
    requires n == |s.d2s| && k <= n
    ensures var r := DispatchRun(s, Stores(k));
            && r == s.(rob := r.rob, win := r.win, d2s := s.d2s[k..], disp := r.disp, lq := r.lq)
            && (k == 0 ==> r == s)
    decreases k
  {
    if k > 0 {
      assert Stores(k)[..k - 1] == Stores(k - 1);
      DispatchSome(s, n, k - 1);
    }
  }

  lemma {:induction false} AllDecode(s: State, n: nat)
    requires n == |s.f2d|
    ensures DecodeRun(s, n) == s.(f2d := [], d2s := s.d2s + s.f2d)
    decreases n
  {
    if n > 0 {
      AllDecode(DecodeOne(s), n - 1);
      assert s.d2s + [s.f2d[0]] + s.f2d[1..] == s.d2s + s.f2d;
    } else {
      assert s.d2s + s.f2d == s.d2s;
    }
  }

  lemma {:induction false} FetchWaits(s: State)
    requires s.pipe == Normal && FetchInv(s) && Unmarked(s) && |s.cache| <= BB_NEAR_EMPTY_SIZE
    ensures FetchStage(s, true, 0) == Some(s)
  {
  }

  lemma {:induction false} MembersGone(a: set<Ins>, b: seq<Ins>)
    requires forall x :: x in b <==> x in a
    ensures a - (set x | x in b) == {}
  {
  }

  lemma {:induction false} QueuedUnits(s: State)
    requires TableInv(s) && PortInv(s) && FlightInv(s) && Stalled(s)
    ensures forall x :: x in s.eu ==> !x.bb.wrongPath
  {
    forall x | x in s.eu ensures !x.bb.wrongPath { EuInRob(s, x); }
  }

  /** The execution stage of the cycle. */
  lemma {:induction false} ExecutePushed(s: State, m: State)
    requires s.pipe == Normal && s.sn == 0 && m == s.(mem := {}, done := m.done)
    requires forall x :: x in s.eu ==> !x.bb.wrongPath
    ensures var e := ExecutionStage(m, Finishes(Listed(s.eu)), s.win, false);
            e == s.(mem := {}, done := e.done, win := {}, eu := s.win, badIns := 0, kind := NoMispred, oldSn := 0)
  {
    var u := StartComplete(m);
    UnitsFinish(u, Listed(s.eu));
    MembersGone(s.eu, Listed(s.eu));
    hide CompleteAll;
  }

  /** The cycle moves everything on by one place. */
  ghost predicate Pushed(s: State, t: State) {
    && t.pipe == Normal && t.que == s.que && t.cache == s.cache && t.st == s.st && t.current == s.current
    && t.mem == {} && t.f2d == [] && t.d2s == s.f2d
    && (s.d2s == [] ==> t.win == {}) && (s.win == {} ==> t.eu == {})
  }

  lemma {:induction false} PushBackEnd(input: seq<Block>, s: State)
    requires Inv(input, s) && Stalled(s)
    ensures var u := AfterScheduler(s, PushOn(s));
            && u.pipe == Normal && u.que == s.que && u.cache == s.cache && u.st == s.st && u.current == s.current
            && u.mem == {} && u.f2d == s.f2d && u.d2s == [] && u.eu == s.win && (s.d2s == [] ==> u.win == {})
  {
    var m, e := MemoryStage(s, Listed(s.mem)), AfterExecution(s, PushOn(s));
    LoadsFinish(s, Listed(s.mem));
    MembersGone(s.mem, Listed(s.mem));
    QueuedUnits(s);
    ExecutePushed(s, m);
    AllDispatch(e, |s.d2s|);
    hide Core, FetchInv, Stalled, LoadsRun, ExecutionStage, DispatchRun;
  }

  lemma {:induction false} PushFrontEnd(input: seq<Block>, u: State, n: nat)
    requires Scheduled(input, u) && u.pipe == Normal && n == |u.f2d| && u.d2s == []
    requires Unmarked(u) && |u.cache| <= BB_NEAR_EMPTY_SIZE
    ensures FetchStage(DecodeStage(u, n), true, 0) == Some(u.(f2d := [], d2s := u.f2d))
  {
    AllDecode(u, n);
    DecodedReady(input, u, n);
    assert u.d2s + u.f2d == u.f2d;
    hide Core, FetchInv, DecodeRun;
    FetchWaits(DecodeStage(u, n));
  }

  lemma {:induction false} PushedOn(input: seq<Block>, s: State)
    requires Inv(input, s) && Stalled(s) && Placed(s)
    ensures var r := Cycle(s, PushOn(s));
            r.Some? && Inv(input, r.value) && Placed(r.value) && Stalled(r.value) && Pushed(s, r.value)
  {
    var ch := PushOn(s);
    assert CommitStage(s, 0) == Some(s);
    PushBackEnd(input, s);
    BackEndKeeps(input, s, ch);
    hide Inv, AfterScheduler, Scheduled, DecodeStage, FetchStage, Placed;
    PushFrontEnd(input, AfterScheduler(s, ch), ch.decodes);
    CycleKeeps(input, s, ch);
    CyclePlaced(input, s, ch);
  }

  lemma {:induction false} PlacedDone(s: State)
    requires Placed(s) && s.sn == 0 && s.win == {} && s.eu == {} && s.mem == {}
    ensures AllSet(s.que, s.disp) <= s.done
  {
    hide AllSet, All;
    forall x | x in AllSet(s.que, s.disp) ensures x in s.done { assert Stays(s, x) && x in InPlace(s); }
  }

  lemma {:induction false} DrainedComplete(input: seq<Block>, s: State)
    requires Inv(input, s) && Stalled(s) && Placed(s)
    requires s.f2d == [] && s.d2s == [] && s.win == {} && s.eu == {} && s.mem == {}
    ensures AllComplete(s)
  {
    QueueOrdered(input, s);
    assert s.lim == s.disp == |All(s.que)| by { assert |s.d2s + s.f2d| == 0; }
    AllDispatchedFrom(s);
    PlacedDone(s);
    hide Inv, Placed, All, AllSet;
    forall b | b in s.que ensures CompleteBlock(s, b) {
      var k :| 0 <= k < |s.que| && s.que[k] == b;
      AllDone(s, k);
    }
  }

  lemma {:induction false} StartInside(s: seq<Block>, k: nat)
    requires Ordered(s) && k < |s|
    ensures Start(s, k) < |All(s)|
  {
    BlockAt(s, k);
  }

  lemma {:induction false} AllDispatchedFrom(s: State)
    requires PortInv(s) && TableInv(s) && Ordered(s.que) && s.disp == |All(s.que)|
    ensures s.rob == s.que
  {
    if |s.rob| < |s.que| { StartInside(s.que, |s.rob|); }
  }

  lemma {:induction false} AllDone(s: State, k: nat)
    requires k < |s.que| && s.disp == |All(s.que)| && AllSet(s.que, s.disp) <= s.done
    ensures forall x :: x in InsOf(s.que[k]) ==> x in s.done
  {
    BlockAt(s.que, k);
    forall j | 0 <= j < s.que[k].size ensures InsOf(s.que[k])[j] in s.done {
      assert All(s.que)[Start(s.que, k) + j] == InsOf(s.que[k])[j];
      assert All(s.que)[Start(s.que, k) + j] in AllSet(s.que, s.disp);
    }
  }

  /** Wherever a run stalls, going on without a delivery can fail: once everything queued is complete, commit finds
      that the last block's fetch was never marked as done. */
  lemma {:induction false} StalledCanFail(run: seq<Action>) returns (choices: seq<Choices>)
    requires Ordered(Fed(run)) && After(Init(), run).Some? && Stalled(After(Init(), run).value)
    ensures forall c :: c in choices ==> c.running
    ensures After(After(Init(), run).value, Ticks(choices)) == None
  {
    var s := After(Init(), run).value;
    RunSafe(run);
    RunPlaced(run);
    hide Inv, Placed, Stalled, Cycle, After, PushOn, AllComplete, Pushed;
    choices := FailsFrom(Fed(run), s);
  }

  lemma {:induction false} FailsFrom(input: seq<Block>, s: State) returns (choices: seq<Choices>)
    requires Inv(input, s) && Stalled(s) && Placed(s)
    ensures (forall c :: c in choices ==> c.running) && After(s, Ticks(choices)) == None
  {
    hide Inv, Placed, Stalled, Cycle, After, AllComplete;
    choices := [];
    var t := s;
    assert After(s, Ticks([])) == Some(s) by { AfterNothing(s); }
    var i := 0;
    while i < 4
      invariant 0 <= i <= 4 && After(s, Ticks(choices)) == Some(t) && forall c :: c in choices ==> c.running
      invariant Inv(input, t) && Stalled(t) && Placed(t)
      invariant i > 0 ==> t.f2d == [] && t.mem == {}
      invariant i > 1 ==> t.d2s == []
      invariant i > 2 ==> t.win == {}
      invariant i > 3 ==> t.eu == {}
    {
      PushedOn(input, t);
      AnotherTick(s, choices, PushOn(t));
      choices := choices + [PushOn(t)];
      t := Cycle(t, PushOn(t)).value;
      i := i + 1;
    }
    DrainedComplete(input, t);
    var last := PushOn(t).(commits := |t.que|);
    CommitFailsExactly(input, t, last.commits);
    CommitFailsCycle(t, last);
    AnotherTick(s, choices, last);
    choices := choices + [last];
  }

  lemma {:induction false} CommitFailsCycle(t: State, ch: Choices)
    requires CommitStage(t, ch.commits) == None
    ensures Cycle(t, ch) == None
  {
  }

  lemma {:induction false} AfterNothing(s: State)
    ensures After(s, Ticks([])) == Some(s)
  {
  }

  lemma {:induction false} AnotherTick(s: State, choices: seq<Choices>, ch: Choices)
    requires After(s, Ticks(choices)).Some?
    ensures After(s, Ticks(choices + [ch])) == Cycle(After(s, Ticks(choices)).value, ch)
  {
    var more := choices + [ch];
    assert more[..|choices|] == choices && more[..|choices| + 1] == more;
    OneMoreTick(s, more, |choices|);
  }
}
