/** When commit's assertion on a block's fetch fails, and why it cannot while the frontend fills the cache up
    whenever the back end has left for it (fetch.cpp, commit.cpp, sysCore.cpp). */
module ProtocolRefill {
  import opened Collections
  import opened ProtocolCycle
  import opened ProtocolFrontEnd
  import opened ProtocolRuns
  import opened ProtocolSpec
  import opened ProtocolStages
  import opened ProtocolSteps

  // ----- Leaving for the frontend -----

  ghost predicate AsksFrontend(s: State, running: bool) {
    !s.inProgress && GoToFrontend(s, running)
  }

  ghost predicate LoopStops(s: State, running: bool, n: nat)
    decreases n
  {
    n > 0 && if !CanFetch(s) && AsksFrontend(s, running) then true
             else
               var r := if CanFetch(s) then Go(s) else FetchBB(s, running);
               r.Go? && CanFetch(r.s) && LoopStops(Update(FetchOne(r.s)), running, n - 1)
  }

  /** fetchBB asks for the frontend at the start of the stage or after some block. */
  ghost predicate FetchStops(s: State, running: bool, n: nat) {
    s.pipe == Normal && (AsksFrontend(s, running) || (FetchBB(s, running).Go? && LoopStops(FetchBB(s, running).s, running, n)))
  }

  ghost function BeforeFetch(s: State, ch: Choices): State {
    DecodeStage(AfterScheduler(s, ch), ch.decodes)
  }

  /** After this cycle runCore returns to the frontend. */
  ghost predicate Stops(s: State, ch: Choices) {
    var c := CommitStage(s, ch.commits);
    c.Some? && FetchStops(BeforeFetch(c.value, ch), ch.running, ch.fetches)
  }

  /** Cycle `k` of those chosen returns to the frontend. */
  ghost predicate StopsAt(s: State, choices: seq<Choices>, k: nat) {
    k < |choices| && After(s, Ticks(choices[..k])).Some? && Stops(After(s, Ticks(choices[..k])).value, choices[k])
  }

  // ----- The end of the current block -----

  /** The current block was read to its end and is not marked so. */
  ghost predicate Unmarked(s: State) {
    s.current.Some? && s.current.value.id in s.st && s.st[s.current.value.id].wait == 0 && !s.st[s.current.value.id].doneFetch
  }

  /** Its last instruction is still in a port when a cycle ends. */
  ghost predicate Held(s: State) {
    s.pipe == Normal && Unmarked(s) ==> s.f2d != [] || s.d2s != []
  }

  /** It is there when a cycle begins, and fetch will mark the block before the instruction can complete. */
  ghost predicate Safe(s: State) {
    s.pipe == Normal && Unmarked(s) ==> s.f2d != [] || (s.d2s != [] && |s.cache| > BB_NEAR_EMPTY_SIZE)
  }

  lemma {:induction false} PortsUndispatched(input: seq<Block>, s: State)
    requires Core(input, s) && s.que != [] && s.lim == |All(s.que)| && (s.f2d != [] || s.d2s != [])
    ensures exists x :: x in InsOf(s.que[|s.que| - 1]) && x !in s.done
  {
    QueueOrdered(input, s);
    var n, b := |All(s.que)|, s.que[|s.que| - 1];
    BlockAt(s.que, |s.que| - 1);
    assert s.que[..|s.que|] == s.que;
    assert |s.d2s + s.f2d| == s.lim - s.disp;
    var x := InsOf(b)[b.size - 1];
    assert All(s.que)[n - 1] == x;
    if x in s.done {
      assert x in AllSet(s.que, s.disp);
      LastDispatched(s, n - 1);
    }
    assert x in InsOf(b);
  }

  lemma {:induction false} SafeCommits(input: seq<Block>, s: State, n: nat)
    requires Inv(input, s) && Safe(s)
    ensures CommitStage(s, n).Some?
  {
    if CommitStage(s, n) == None {
      CommitAborts(input, s, n);
      PortsUndispatched(input, s);
    }
  }

  lemma {:induction false} DecodeKeepsPorts(s: State, n: nat)
    requires s.f2d != [] || s.d2s != []
    ensures DecodeRun(s, n).f2d != [] || DecodeRun(s, n).d2s != []
    decreases n
  {
    if n > 0 && s.f2d != [] { DecodeKeepsPorts(DecodeOne(s), n - 1); }
  }

  // ----- One cycle -----

  /** What fetch finds. */
  ghost predicate Refreshed(s: State) {
    s.pipe == Normal && Unmarked(s) ==> s.f2d != [] || s.d2s != [] || |s.cache| > BB_NEAR_EMPTY_SIZE
  }

  lemma {:induction false} UnmarkedSame(s: State, t: State)
    requires SameFetch(s, t) && Unmarked(t) && (s.current.Some? ==> s.current.value.id in s.st)
    ensures Unmarked(s)
  {
  }

  lemma {:induction false} SafeRefreshed(input: seq<Block>, s: State, ch: Choices)
    requires Inv(input, s) && Safe(s)
    ensures Refreshed(BeforeFetch(s, ch))
  {
    var u := AfterScheduler(s, ch);
    hide AfterScheduler, Core, InEpisode, SameFetch, FetchInv, Unmarked, Safe, DecodeRun;
    BackEndKeeps(input, s, ch);
    BackEndSameFetch(s, ch);
    if u.pipe == Normal {
      DecodeRunKeeps(input, u, ch.decodes);
      if Unmarked(u) { SafeStays(s, u); }
      if u.f2d != [] || u.d2s != [] { DecodeKeepsPorts(u, ch.decodes); }
    } else {
      DecodedReady(input, u, ch.decodes);
    }
  }

  lemma {:induction false} SafeStays(s: State, u: State)
    requires PipeInv(s) && Safe(s) && SameFetch(s, u) && u.pipe == Normal && Unmarked(u)
    requires s.pipe == Normal || s.pipe == SquashRob
    ensures u.f2d != [] || |u.cache| > BB_NEAR_EMPTY_SIZE
  {
    if s.pipe == Normal { UnmarkedSame(s, u); }
  }

  /** What the fetch loop leaves. */
  lemma {:induction false} LoopHolds(input: seq<Block>, s: State, n: nat)
    requires Core(input, s) && Between(s) && (Unmarked(s) ==> s.f2d != [])
    ensures var q := FetchLoop(s, true, n);
            !q.Abort? && (Unmarked(q.s) ==> q.s.f2d != []) && q.s.current.Some? && q.s.current.value.id in q.s.st
    decreases n
  {
    hide Core, FetchInv, GoToFrontend;
    if n > 0 {
      if !CanFetch(s) { FetchBBKeeps(input, s, true); }
      var r := if CanFetch(s) then Go(s) else FetchBB(s, true);
      if r.Go? {
        FetchStepKeeps(input, r.s);
        hide Update, FetchOne;
        FetchedHolds(r.s);
        LoopHolds(input, Update(FetchOne(r.s)), n - 1);
      }
    }
  }

  lemma {:induction false} FetchedHolds(s: State)
    requires CanFetch(s)
    ensures Update(FetchOne(s)).f2d != []
  {
  }

  /** A fetch that does not start by asking for the frontend marks what was read to its end. */
  lemma {:induction false} FetchHolds(input: seq<Block>, s: State, n: nat)
    requires Core(input, s) && FetchInv(s) && !DoneTwice(s) && s.pipe == Normal && Refreshed(s)
    ensures var r := FetchImpl(s, true, n);
            r.Some? && Held(r.value) && (!AsksFrontend(s, true) ==> Unmarked(r.value) ==> r.value.f2d != [])
  {
    hide Core;
    FetchBBKeeps(input, s, true);
    var r := FetchBB(s, true);
    if r.Go? {
      LoopHolds(input, r.s, n);
      hide FetchLoop, FetchInv;
      UpdateMarks(FetchLoop(r.s, true, n).s);
    }
  }

  lemma {:induction false} UpdateMarks(s: State)
    ensures Unmarked(Update(s)) <==> Unmarked(s)
    ensures Update(s).f2d == s.f2d
  {
  }

  /** While the frontend is running, a cycle from a safe state meets no assertion. What it leaves is safe if the
      back end goes on, and becomes safe when the frontend fills the cache up. */
  lemma {:induction false} SafeCycle(input: seq<Block>, s: State, ch: Choices)
    requires Inv(input, s) && Open(s) && Safe(s) && ch.running
    ensures Cycle(s, ch).Some? && Held(Cycle(s, ch).value) && Open(Cycle(s, ch).value)
    ensures !Stops(s, ch) ==> Safe(Cycle(s, ch).value)
  {
    SafeCommits(input, s, ch.commits);
    CommitStageKeeps(input, s, ch.commits);
    CommitFrame(s, ch.commits);
    RunningStaysOpen(input, s, ch);
    var c := CommitStage(s, ch.commits).value;
    assert Open(c) by { OpenSame(s, c); }
    assert Safe(c) by { CommittedSafe(s, c); }
    SafeRefreshed(input, c, ch);
    OpenBeforeFetch(input, c, ch);
    BackEndKeeps(input, c, ch);
    hide Inv, AfterScheduler, CommitStage, Open, Safe, Refreshed, DecodeStage, FetchStage, Held, FetchStops;
    FetchStageHolds(input, AfterScheduler(c, ch), ch);
  }

  lemma {:induction false} CommittedSafe(s: State, c: State)
    requires Safe(s) && SameFetch(s, c) && c.st == s.st && c.pipe == s.pipe && c.d2s == s.d2s
    ensures Safe(c)
  {
  }

  lemma {:induction false} FetchStageHolds(input: seq<Block>, u: State, ch: Choices)
    requires Scheduled(input, u) && Open(u) && ch.running && Refreshed(DecodeStage(u, ch.decodes))
    ensures var d := DecodeStage(u, ch.decodes); var r := FetchStage(d, true, ch.fetches);
            r.Some? ==> Held(r.value) && (!FetchStops(d, true, ch.fetches) ==> Safe(r.value))
  {
    var d := DecodeStage(u, ch.decodes);
    DecodedReady(input, u, ch.decodes);
    hide Core, FetchInv, DecodeRun, FetchBB, LoopStops;
    if d.pipe == Normal {
      DecodeRunKeeps(input, u, ch.decodes);
      OpenSame(u, d);
      FetchHolds(input, d, ch.fetches);
      hide FetchImpl;
    }
  }

  lemma {:induction false} FilledUp(s: State)
    requires Held(s) && |s.cache| > BB_NEAR_EMPTY_SIZE
    ensures Safe(s)
  {
  }

  // ----- Whole runs -----

  /** The last cycle of the run left for the frontend. */
  ghost predicate Waiting(run: seq<Action>) {
    run != [] &&
    match run[|run| - 1]
    case Feed(_) => Waiting(run[..|run| - 1])
    case Tick(ch) => After(Init(), run[..|run| - 1]).Some? && Stops(After(Init(), run[..|run| - 1]).value, ch)
  }

  /** When a cycle has left for the frontend, the next one finds more than BB_NEAR_EMPTY_SIZE blocks. */
  ghost predicate Refilled(run: seq<Action>) {
    forall i :: 0 <= i < |run| && run[i].Tick? && Waiting(run[..i]) && After(Init(), run[..i]).Some? ==>
      |After(Init(), run[..i]).value.cache| > BB_NEAR_EMPTY_SIZE
  }

  lemma {:induction false} RefilledPrefix(run: seq<Action>, n: nat)
    requires AlwaysRunning(run) && Refilled(run) && n <= |run|
    ensures AlwaysRunning(run[..n]) && Refilled(run[..n])
  {
    assert forall i :: 0 <= i < n ==> run[..n][i] == run[i] && run[..n][..i] == run[..i];
    hide After, Waiting;
  }

  lemma {:induction false} FedHolds(s: State, b: Block)
    requires b.size > 0
    ensures Held(s) ==> Held(FeedBlock(s, b))
    ensures Safe(s) ==> Safe(FeedBlock(s, b))
  {
  }

  /** While the frontend keeps running and refills the cache, no assertion of the block protocol ever fails. */
  lemma {:induction false} RefilledNeverFails(run: seq<Action>)
    requires Ordered(Fed(run)) && AlwaysRunning(run) && Refilled(run)
    ensures After(Init(), run).Some?
    ensures var s := After(Init(), run).value; Open(s) && Held(s) && (!Waiting(run) ==> Safe(s))
  {
    if run != [] {
      var n := |run| - 1;
      FedOrdered(run, n);
      RefilledPrefix(run, n);
      RefilledNeverFails(run[..n]);
      RunSafe(run[..n]);
      var s := After(Init(), run[..n]).value;
      hide Inv, Cycle, Open, Held, Safe, Stops, Ordered;
      match run[n]
      case Feed(b) =>
        FedPrefixOrdered(Fed(run[..n]), b);
        FeedOpen(Fed(run[..n]), s, b);
        FedHolds(s, b);
      case Tick(ch) =>
        if Waiting(run[..n]) { FilledUp(s); }
        SafeCycle(Fed(run[..n]), s, ch);
    }
  }

  // ----- When a cycle fails -----

  /** Everything queued is complete and on the correct path, and its last block is not marked. */
  ghost predicate AllComplete(s: State) {
    && s.pipe == Normal && s.que != [] && s.rob == s.que && Unmarked(s) && s.current == Some(s.que[|s.que| - 1])
    && forall b :: b in s.que ==> CompleteBlock(s, b)
  }

  ghost predicate CompleteBlock(s: State, b: Block) {
    && b.id in s.st && !b.wrongPath && !s.st[b.id].memViolation && s.st[b.id].wait == 0
    && forall x :: x in InsOf(b) ==> x in s.done
  }

  /** Commit's assertion fails exactly if the stage is wide enough for all that is queued and all that is complete. */
  lemma {:induction false} CommitFailsExactly(input: seq<Block>, s: State, n: nat)
    requires Inv(input, s)
    ensures CommitStage(s, n) == None <==> AllComplete(s) && n >= |s.que|
    decreases n
  {
    if AllComplete(s) && n >= |s.que| {
      AllCompleteFails(input, s, n);
    } else if CommitStage(s, n) == None {
      FailedComplete(input, s, n);
    }
  }

  lemma {:induction false} AllCompleteFails(input: seq<Block>, s: State, n: nat)
    requires Inv(input, s) && AllComplete(s) && n >= |s.que|
    ensures CommitStage(s, n) == None
    decreases n
  {
    assert s.rob[0] in s.que;
    if |s.que| > 1 {
      FrontFetched(s);
      CommitKeepsInv(input, s);
      NextComplete(input, s);
      hide Inv;
      AllCompleteFails(input, CommitBlock(s), n - 1);
    }
  }

  lemma {:induction false} NextComplete(input: seq<Block>, s: State)
    requires Inv(input, s) && AllComplete(s) && |s.que| > 1 && CanCommit(s)
    ensures AllComplete(CommitBlock(s))
  {
    var t := CommitBlock(s);
    QueueOrdered(input, s);
    hide Inv;
    forall b | b in t.que ensures CompleteBlock(t, b) { LaterComplete(s, b); }
  }

  lemma {:induction false} LaterComplete(s: State, b: Block)
    requires Ordered(s.que) && s.que != [] && s.rob != [] && b in s.que[1..] && CompleteBlock(s, b)
    ensures CompleteBlock(CommitBlock(s), b)
  {
    var k :| 1 <= k < |s.que| && s.que[k] == b;
    forall x | x in InsOf(b) ensures x !in InsSet(s.que[0]) { assert s.que[0].id < s.que[k].id; }
  }

  lemma {:induction false} FailedComplete(input: seq<Block>, s: State, n: nat)
    requires Inv(input, s) && CommitStage(s, n) == None
    ensures AllComplete(s) && n >= |s.que|
    decreases n
  {
    CommitAborts(input, s, n);
    assert s.rob[0] == s.que[0];
    if CanCommit(s) {
      CommitKeepsInv(input, s);
      FailedComplete(input, CommitBlock(s), n - 1);
      hide Inv;
      FrontToo(s);
    } else {
      if |s.que| > 1 { FrontFetched(s); }
      hide StreamInv, PortInv, FlightInv;
    }
  }

  lemma {:induction false} FrontToo(s: State)
    requires CanCommit(s) && s.que != [] && s.rob[0] == s.que[0] && AllComplete(CommitBlock(s))
    ensures forall b :: b in s.que ==> CompleteBlock(s, b)
    ensures s.rob == s.que
  {
    var t := CommitBlock(s);
    assert s.que == [s.que[0]] + t.que && s.rob == [s.rob[0]] + t.rob;
    forall b | b in s.que ensures CompleteBlock(s, b) {
      if b in t.que { assert CompleteBlock(t, b); }
    }
  }

  /** While the frontend is running this is the only way a cycle fails. */
  lemma {:induction false} CycleFailsExactly(run: seq<Action>, ch: Choices)
    requires Ordered(Fed(run)) && AlwaysRunning(run) && After(Init(), run).Some? && ch.running
    ensures var s := After(Init(), run).value; Cycle(s, ch) == None <==> AllComplete(s) && ch.commits >= |s.que|
  {
    RunSafe(run);
    RunOpen(run);
    var s := After(Init(), run).value;
    RunningStaysOpen(Fed(run), s, ch);
    CommitFailsExactly(Fed(run), s, ch.commits);
  }
}
