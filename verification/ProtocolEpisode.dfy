/** How a squash ends: from every state of it there are cycles after which the back end works again, unless
    completion has overlooked a wrong-path block (execution.cpp, commit.cpp). */
module ProtocolEpisode {
  import opened Collections
  import opened ProtocolCycle
  import opened ProtocolDetect
  import opened ProtocolFrontEnd
  import opened ProtocolPlaced
  import opened ProtocolRuns
  import opened ProtocolSeen
  import opened ProtocolSpec
  import opened ProtocolStages
  import opened ProtocolStall
  import opened ProtocolSteps

  /** A wrong-path block older than the squash number is complete, so nothing will find it any more. */
  ghost predicate Overlooked(s: State, b: Block) {
    b in s.que && b.wrongPath && b.head < s.sn && forall x :: x in InsOf(b) ==> x in s.done
  }

  ghost predicate Blind(s: State) {
    exists b :: Overlooked(s, b)
  }

  // ----- A cycle in which everything finishes -----

  /** Each unit finishes: a load its address, anything else altogether, and no load is found violated. */
  ghost function Units(xs: seq<Ins>, lq: set<Ins>): (r: seq<Event>)
    ensures |r| == |xs| && forall k :: 0 <= k < |xs| ==> r[k] == Event(xs[k], xs[k] in lq, None)
  {
    seq(|xs|, k requires 0 <= k < |xs| => Event(xs[k], xs[k] in lq, None))
  }

  /** Everything that may commits; loads and units finish; the windows issue; nothing new comes in. */
  ghost function Settling(s: State): Choices {
    Choices(|s.que|, Listed(s.mem), Units(Listed(s.eu), s.lq), s.win, true, [], false, 0, true, 0)
  }

  lemma {:induction false} UnitsEmpty(s: State, xs: seq<Ins>, lq: set<Ins>)
    ensures var c := CompleteAll(Completing(s, None), Units(xs, lq));
            c.s.eu == s.eu - (set x | x in xs) && c.s.mem <= s.mem + s.eu && c.s.st == s.st && c.s.done <= s.done + s.eu
  {
    var es := Units(xs, lq);
    if xs != [] {
      var n := |xs| - 1;
      UnitsEmpty(s, xs[..n], lq);
      assert es[..n] == Units(xs[..n], lq);
      assert (set x | x in xs) == (set x | x in xs[..n]) + {xs[n]};
    } else {
      assert es == [];
    }
  }

  /** The execution stage of such a cycle. */
  ghost function Execute(m: State, s: State): State {
    ExecutionStage(m, Units(Listed(s.eu), s.lq), s.win, true)
  }

  lemma {:induction false} UnitsDone(m: State, s: State)
    requires m.eu == s.eu
    ensures var c := CompleteStage(m, Units(Listed(s.eu), s.lq));
            && c.que == m.que && c.rob == m.rob && c.lq == m.lq && c.win == m.win && c.pipe == m.pipe && c.oldSn == m.sn
            && c.done <= m.done + m.eu && c.mem <= m.mem + m.eu
            && if m.pipe == Flush then c.sn == m.sn else c.eu == {}
  {
    var u := StartComplete(m);
    UnitsEmpty(u, Listed(s.eu), s.lq);
    MembersGone(s.eu, Listed(s.eu));
    CompletionsFrame(Completing(u, None), Units(Listed(s.eu), s.lq));
    hide CompleteAll, Units;
  }

  /** Issue and the pipe state after completion. */
  lemma {:induction false} PipeMoves(c: State, win: set<Ins>)
    requires c.win == win && c.sn > 0 && c.pipe != Normal && c.pipe != SquashRob && (c.pipe != Flush ==> c.eu == {})
    ensures var e := SquashCtrl(ExecutionImpl(c, win), true);
            && e.que == c.que && e.rob == c.rob && e.lq == c.lq && e.done == c.done && e.mem == c.mem && e.sn == c.sn
            && (c.sn != c.oldSn ==> e.pipe == WaitFlush)
            && (c.sn == c.oldSn && c.pipe == WaitFlush ==> e.pipe == Flush)
            && (c.sn == c.oldSn && c.pipe == Flush ==> e.pipe == Drain)
            && (c.sn == c.oldSn && c.pipe == Drain ==>
                  && e.win == {} && e.eu == win
                  && e.pipe == if c.rob != [] && c.rob[0].head >= c.sn then SquashRob else Drain)
  {
  }

  /** What one such cycle brings from `m`, when its number is `n` afterwards. */
  ghost predicate Moved(m: State, e: State) {
    && e.que == m.que && e.done <= m.done + m.eu
    && (e.sn != m.sn ==> e.pipe == WaitFlush)
    && (e.sn == m.sn && m.pipe == WaitFlush ==> e.pipe == Flush)
    && (e.sn == m.sn && m.pipe == Flush ==> e.pipe == Drain)
    && (e.sn == m.sn && m.pipe == Drain ==>
          && e.win == {} && e.eu == m.win && e.mem <= m.mem + m.eu
          && e.pipe == if m.rob != [] && m.rob[0].head >= m.sn then SquashRob else Drain)
  }

  lemma {:induction false} ExecuteMoves(input: seq<Block>, m: State, s: State)
    requires Inv(input, m) && MemoryFlushed(m) && m.eu == s.eu && m.win == s.win && m.pipe != Normal && m.pipe != SquashRob
    ensures 0 < Execute(m, s).sn <= m.sn && Moved(m, Execute(m, s))
  {
    PipeNumber(input, m);
    UnitsDone(m, s);
    ExecutionStageKeeps(input, m, Units(Listed(s.eu), s.lq), s.win, true);
    CompleteStageKeeps(input, m, Units(Listed(s.eu), s.lq));
    CompletedNumber(input, CompleteStage(m, Units(Listed(s.eu), s.lq)), m);
    hide Inv, Core, CompleteStage, ExecutionImpl, SquashCtrl, Units, Completions, Executed, MemoryFlushed;
    PipeMoves(CompleteStage(m, Units(Listed(s.eu), s.lq)), s.win);
  }

  lemma {:induction false} CompletedNumber(input: seq<Block>, c: State, m: State)
    requires Completions(input, c) && c.oldSn == m.sn && m.sn > 0
    ensures c.sn > 0
  {
    hide Core;
  }

  /** Nothing is overlooked by such a cycle: what completes on the wrong path is found. */
  lemma {:induction false} ExecuteFinds(input: seq<Block>, m: State, s: State, b: Block)
    requires Inv(input, m) && MemoryFlushed(m) && m.eu == s.eu && m.win == s.win && m.pipe != Normal && m.pipe != SquashRob && m.pipe != Flush
    requires Overlooked(Execute(m, s), b)
    ensures Overlooked(m, b)
  {
    ExecuteMoves(input, m, s);
    var e, es := Execute(m, s), Units(Listed(s.eu), s.lq);
    hide Inv, Execute, MemoryFlushed, Moved;
    assert e.que == m.que && e.done <= m.done + m.eu by { MovedOn(m, e); }
    forall x | x in InsOf(b) ensures x in m.done {
      if x in m.eu { UnitIsFound(input, m, s, x); }
    }
  }

  lemma {:induction false} MovedOn(m: State, e: State)
    requires Moved(m, e)
    ensures e.que == m.que && e.done <= m.done + m.eu
  {
  }

  lemma {:induction false} UnitIsFound(input: seq<Block>, m: State, s: State, x: Ins)
    requires Inv(input, m) && MemoryFlushed(m) && m.eu == s.eu && m.pipe != Flush && x in m.eu && x.bb.wrongPath
    ensures Execute(m, s).sn <= x.bb.head
  {
    var xs := Listed(s.eu);
    var es := Units(xs, s.lq);
    assert x in xs;
    var k := FirstIndex(xs, x);
    assert Finds(m, es[k], x.bb);
    hide Inv, Finds, MemoryFlushed;
    ViolationStartsSquash(input, m, es, s.win, true, k, x.bb);
  }

  lemma {:induction false} FirstIndex(xs: seq<Ins>, x: Ins) returns (k: nat)
    requires x in xs
    ensures k < |xs| && xs[k] == x && forall j :: 0 <= j < k ==> xs[j] != x
  {
    if xs[0] == x {
      k := 0;
    } else {
      k := FirstIndex(xs[1..], x);
      k := k + 1;
      assert forall j :: 0 < j < k ==> xs[j] == xs[1..][j - 1];
    }
  }

  // ----- What is older than the squash number commits -----

  lemma {:induction false} OffenderBehindFront(input: seq<Block>, s: State) returns (k: nat)
    requires Core(input, s) && InEpisode(s) && s.que != [] && s.que[0].head < s.sn
    ensures 0 < k < |s.rob| && s.rob <= s.que && s.rob[k].head == s.sn
  {
    var b :| Offender(s, b);
    k :| 0 <= k < |s.rob| && s.rob[k] == b;
    hide StreamInv, PortInv, FlightInv;
  }

  /** The front block, if older than the offending one, is dispatched, fetched to its end and marked so. */
  lemma {:induction false} OlderFront(input: seq<Block>, s: State)
    requires Core(input, s) && InEpisode(s) && s.que != [] && s.que[0].head < s.sn
    ensures |s.rob| > 1 && |s.que| > 1 && s.rob[0] == s.que[0] && s.rob[0].id in s.st
    ensures s.st[s.rob[0].id].wait == 0 && s.st[s.rob[0].id].doneFetch
    ensures forall x :: x in InsOf(s.que[0]) ==> x in AllSet(s.que, s.disp) && x.id < s.sn
  {
    var k := OffenderBehindFront(input, s);
    QueueOrdered(input, s);
    hide StreamInv, FlightInv, InEpisode;
    assert s.rob[0] == s.que[0] && s.rob[k] == s.que[k];
    OlderDispatched(s, 0, k);
  }

  /** Blocks before one of bbROB are dispatched. */
  lemma {:induction false} OlderDispatched(s: State, j: nat, k: nat)
    requires Ordered(s.que) && PortInv(s) && s.rob <= s.que && j < k < |s.rob| && s.que[k].head == s.sn
    ensures forall x :: x in InsOf(s.que[j]) ==> x in AllSet(s.que, s.disp) && x.id < s.sn
  {
    BlockAt(s.que, j);
    StartMono(s.que, j + 1, k);
    forall x | x in InsOf(s.que[j]) ensures x in AllSet(s.que, s.disp) && x.id < s.sn {
      var i :| 0 <= i < s.que[j].size && InsOf(s.que[j])[i] == x;
      assert All(s.que)[Start(s.que, j) + i] == x;
    }
  }

  /** Nothing waits, executes or loads any more. */
  ghost predicate Idle(s: State) {
    s.win == {} && s.eu == {} && s.mem == {}
  }

  lemma {:induction false} OlderCommits(input: seq<Block>, s: State)
    requires Inv(input, s) && s.pipe == Drain && Placed(s) && Seen(s) && !Blind(s) && Idle(s)
    requires s.que != [] && s.que[0].head < s.sn
    ensures CanCommit(s)
  {
    OlderFront(input, s);
    var b := s.que[0];
    forall x | x in InsOf(b) ensures x in s.done {
      assert Stays(s, x) && x in InPlace(s);
    }
    assert b in s.que;
    assert b.wrongPath ==> Overlooked(s, b);
    hide Core, InEpisode;
  }

  lemma {:induction false} CommitOverlooks(s: State, b: Block)
    requires s.que != [] && s.rob != [] && Overlooked(CommitBlock(s), b)
    ensures Overlooked(s, b)
  {
  }

  lemma {:induction false} CommitNotBlind(s: State)
    requires s.que != [] && s.rob != [] && !Blind(s)
    ensures !Blind(CommitBlock(s))
  {
    hide Overlooked;
    forall b ensures !Overlooked(CommitBlock(s), b) {
      if Overlooked(CommitBlock(s), b) { CommitOverlooks(s, b); }
    }
  }

  lemma {:induction false} CommitStageOverlooks(s: State, n: nat, b: Block)
    requires CommitStage(s, n).Some? && Overlooked(CommitStage(s, n).value, b)
    ensures Overlooked(s, b)
    decreases n
  {
    if s.pipe != WaitFlush && s.pipe != Flush && n > 0 && CanCommit(s) {
      CommitStageOverlooks(CommitBlock(s), n - 1, b);
      CommitOverlooks(s, b);
    }
    hide FrontComplete, Overlooked;
  }

  lemma {:induction false} QueueStarts(input: seq<Block>, s: State)
    requires Core(input, s) && InEpisode(s)
    ensures s.que != [] && s.rob != [] && s.rob[0] == s.que[0]
  {
    OffenderAtFront(input, s);
  }

  /** All that a drained squash relies on. */
  ghost predicate Settled(input: seq<Block>, s: State) {
    Inv(input, s) && s.pipe == Drain && Placed(s) && Seen(s) && !Blind(s) && Idle(s)
  }

  lemma {:induction false} SettledCommits(input: seq<Block>, s: State)
    requires Settled(input, s) && s.que != [] && s.que[0].head < s.sn
    ensures CanCommit(s) && s.rob != [] && Settled(input, CommitBlock(s))
  {
    OlderCommits(input, s);
    CommitKeepsInv(input, s);
    CommitPlaced(input, s);
    StillSeen(s, CommitBlock(s));
    CommitNotBlind(s);
    hide Inv, Placed, Seen, Blind;
  }

  /** Once nothing is under way any more, commit brings the offending block to the front. */
  lemma {:induction false} CommitsToOffender(input: seq<Block>, s: State, n: nat)
    requires Settled(input, s) && n >= |s.que|
    ensures var c := CommitStage(s, n); c.Some? && c.value.rob != [] && c.value.rob[0].head >= s.sn
    decreases n
  {
    QueueStarts(input, s);
    if s.que[0].head < s.sn {
      SettledCommits(input, s);
      assert s.pipe == Drain && CommitBlock(s).sn == s.sn && |CommitBlock(s).que| == |s.que| - 1;
      hide Settled, CanCommit, CommitBlock, FrontComplete;
      CommitsToOffender(input, CommitBlock(s), n - 1);
      CommitStageNext(s, n);
    } else {
      FrontStays(input, s);
    }
  }

  lemma {:induction false} CommitStageNext(s: State, n: nat)
    requires s.pipe == Drain && n > 0 && CanCommit(s) && s.que != [] && s.rob != []
    ensures CommitStage(s, n) == CommitStage(CommitBlock(s), n - 1)
  {
  }

  /** The offending block is not committed. */
  lemma {:induction false} FrontStays(input: seq<Block>, s: State)
    requires Inv(input, s) && s.pipe == Drain && s.rob != [] && s.rob[0].head >= s.sn
    ensures !FrontComplete(s)
  {
    OffenderAtFront(input, s);
    if FrontComplete(s) { hide InsOf; }
  }

  // ----- One such cycle -----

  /** After execution such a cycle changes little. */
  ghost predicate Rests(e: State, t: State) {
    && t.pipe == e.pipe && t.sn == e.sn
    && (e.pipe == Drain ==> t == e)
    && (e.pipe == SquashRob ==> t.que == [])
    && (e.pipe != SquashRob ==> t.que == e.que && t.done == e.done)
  }

  lemma {:induction false} LaterStagesRest(input: seq<Block>, e: State)
    requires Executed(input, e) && e.pipe != Normal
    ensures var r := FetchStage(DecodeStage(SchedulerStage(SquashStage(e), [], false), 0), true, 0); r.Some? && Rests(e, r.value)
  {
    SquashStageKeeps(input, e);
    if e.pipe == SquashRob { QueueGone(input, SquashStage(e)); }
    hide Core, SquashStage, FlushPort, InEpisode;
  }

  lemma {:induction false} QueueGone(input: seq<Block>, s: State)
    requires Inv(input, s) && s.pipe == SquashRob
    ensures s.que == []
  {
  }

  /** Which part of the squash is under way. */
  ghost function Rank(s: State): nat {
    match s.pipe
    case Normal => 0
    case SquashRob => 1
    case Drain => if s.win != {} then 5 else if s.eu != {} then 4 else if s.mem != {} then 3 else 2
    case Flush => 6
    case WaitFlush => 7
  }

  /** The memory stage of such a cycle. */
  lemma {:induction false} LoadsSettle(input: seq<Block>, c: State, loads: seq<Ins>)
    requires Inv(input, c) && Seen(c)
    ensures var m := MemoryStage(c, loads);
            && m.que == c.que && m.rob == c.rob && m.win == c.win && m.eu == c.eu && m.sn == c.sn && m.pipe == c.pipe
            && m.mem <= c.mem - (set x | x in loads) && m.done <= c.done + c.mem
            && forall b :: Overlooked(m, b) ==> Overlooked(c, b)
  {
    var m := MemoryStage(c, loads);
    LoadsFinish(c, loads);
    LoadedDone(c, loads);
    hide LoadsRun, Inv;
    forall b | Overlooked(m, b) ensures Overlooked(c, b) {
      forall x | x in InsOf(b) ensures x in c.done { assert x in c.mem ==> Covers(c, x.bb.head); }
    }
  }

  lemma {:induction false} LoadedDone(s: State, loads: seq<Ins>)
    ensures LoadsRun(s, loads).done <= s.done + s.mem && LoadsRun(s, loads).mem <= s.mem
  {
    if loads != [] { LoadedDone(s, loads[..|loads| - 1]); }
  }

  /** What the stages up to execution bring. */
  ghost predicate Advances(c: State, e: State) {
    && 0 < e.sn <= c.sn && e.pipe != Normal
    && (e.sn != c.sn ==> e.pipe == WaitFlush)
    && (e.sn == c.sn && c.pipe == WaitFlush ==> e.pipe == Flush)
    && (e.sn == c.sn && c.pipe == Flush ==> e.pipe == Drain)
    && (e.sn == c.sn && c.pipe == Drain ==>
          && e.win == {} && e.eu == c.win && (c.eu == {} ==> e.mem == {})
          && e.pipe == if c.rob != [] && c.rob[0].head >= c.sn then SquashRob else Drain)
  }

  lemma {:induction false} MovedAdvances(c: State, m: State, e: State)
    requires Moved(m, e) && 0 < e.sn <= m.sn && m.sn == c.sn && m.pipe == c.pipe && m.rob == c.rob && m.win == c.win
    requires m.mem == {} && m.eu == c.eu && c.pipe != Normal && c.pipe != SquashRob
    ensures Advances(c, e)
  {
  }

  lemma {:induction false} ExecuteOverlooks(input: seq<Block>, m: State, s: State, b: Block)
    requires Inv(input, m) && MemoryFlushed(m) && m.eu == s.eu && m.win == s.win && m.pipe != Normal && m.pipe != SquashRob
    requires Overlooked(Execute(m, s), b)
    ensures Overlooked(m, b)
  {
    hide Inv, MemoryFlushed, Overlooked, Execute;
    if m.pipe == Flush { FlushOverlooks(m, Execute(m, s), s, b); } else { ExecuteFinds(input, m, s, b); }
  }

  /** Everything up to execution in such a cycle. */
  lemma {:induction false} SettlingMoves(input: seq<Block>, s: State, c: State)
    requires Inv(input, c) && Seen(c) && c.pipe != Normal && c.pipe != SquashRob
    requires c.eu == s.eu && c.win == s.win && c.mem == s.mem && c.lq <= s.lq
    ensures var e := Execute(MemoryStage(c, Listed(s.mem)), s);
            Executed(input, e) && Advances(c, e) && forall b :: Overlooked(e, b) ==> Overlooked(c, b)
  {
    var m := MemoryStage(c, Listed(s.mem));
    LoadsSettle(input, c, Listed(s.mem));
    MembersGone(s.mem, Listed(s.mem));
    MemoryStageKeeps(input, c, Listed(s.mem));
    hide Inv, Seen, MemoryStage, MemoryFlushed, Executed, Units, Overlooked, Moved, Advances, ExecutionStage;
    ExecutionStageKeeps(input, m, Units(Listed(s.eu), s.lq), s.win, true);
    ExecuteMoves(input, m, s);
    var e := Execute(m, s);
    MovedAdvances(c, m, e);
    hide Execute;
    forall b | Overlooked(e, b) ensures Overlooked(c, b) { ExecuteOverlooks(input, m, s, b); }
  }

  lemma {:induction false} FlushOverlooks(m: State, e: State, s: State, b: Block)
    requires e == Execute(m, s) && m.pipe == Flush && Overlooked(e, b)
    ensures Overlooked(m, b)
  {
    hide InsOf;
  }

  /** A squash under way that can end. */
  ghost predicate Squashing(input: seq<Block>, s: State) {
    Inv(input, s) && Placed(s) && Seen(s) && !Blind(s) && s.pipe != Normal
  }

  lemma {:induction false} CommitsRest(s: State, n: nat)
    ensures var c := CommitStage(s, n);
            c.Some? ==> c.value.win == s.win && c.value.eu == s.eu && c.value.mem == s.mem && c.value.lq <= s.lq
                        && c.value.sn == s.sn && c.value.pipe == s.pipe
    decreases n
  {
    if n > 0 && CanCommit(s) { CommitsRest(CommitBlock(s), n - 1); }
    hide FrontComplete;
  }

  lemma {:induction false} CommitsNotBlind(s: State, n: nat)
    requires !Blind(s) && CommitStage(s, n).Some?
    ensures !Blind(CommitStage(s, n).value)
  {
    hide Overlooked, CommitStage;
    forall b ensures !Overlooked(CommitStage(s, n).value, b) {
      if Overlooked(CommitStage(s, n).value, b) { CommitStageOverlooks(s, n, b); }
    }
  }

  /** The front is the offending block once nothing is under way in PIPE_DRAIN. */
  ghost predicate FrontReady(s: State, c: State) {
    s.pipe == Drain && Idle(s) ==> c.rob != [] && c.rob[0].head >= s.sn
  }

  lemma {:induction false} RankDrops(s: State, c: State, e: State, t: State)
    requires c.win == s.win && c.eu == s.eu && c.mem == s.mem && c.sn == s.sn && c.pipe == s.pipe
    requires s.pipe != Normal && s.pipe != SquashRob && FrontReady(s, c) && Advances(c, e) && Rests(e, t)
    ensures t.sn <= s.sn && t.pipe != Normal && (t.sn == s.sn ==> Rank(t) < Rank(s)) && (t.pipe == SquashRob ==> t.que == [])
  {
  }

  lemma {:induction false} SettlingKeeps(input: seq<Block>, s: State)
    requires Squashing(input, s)
    ensures Cycle(s, Settling(s)).Some?
    ensures var t := Cycle(s, Settling(s)).value; Inv(input, t) && Placed(t) && Seen(t)
  {
    CycleKeeps(input, s, Settling(s));
    hide Inv, Placed, Seen, Cycle, Blind;
    CyclePlaced(input, s, Settling(s));
    CycleSeen(input, s, Settling(s));
  }

  lemma {:induction false} SettlingCommits(input: seq<Block>, s: State) returns (c: State)
    requires Squashing(input, s) && s.pipe != SquashRob
    ensures CommitStage(s, |s.que|) == Some(c) && Inv(input, c) && Seen(c) && !Blind(c) && FrontReady(s, c)
    ensures c.win == s.win && c.eu == s.eu && c.mem == s.mem && c.lq <= s.lq && c.sn == s.sn && c.pipe == s.pipe
  {
    CommitStageKeeps(input, s, |s.que|);
    CommitSeen(s, |s.que|);
    CommitsRest(s, |s.que|);
    CommitsNotBlind(s, |s.que|);
    if s.pipe == Drain && Idle(s) { CommitsToOffender(input, s, |s.que|); }
    c := CommitStage(s, |s.que|).value;
    hide Inv, Placed, Seen, Blind, CommitStage;
  }

  /** The states between the stages of such a cycle. */
  lemma {:induction false} SettlingStages(input: seq<Block>, s: State) returns (c: State, e: State)
    requires Squashing(input, s) && s.pipe != SquashRob
    ensures c.win == s.win && c.eu == s.eu && c.mem == s.mem && c.sn == s.sn && c.pipe == s.pipe && FrontReady(s, c) && !Blind(c)
    ensures Advances(c, e) && Cycle(s, Settling(s)).Some? && Rests(e, Cycle(s, Settling(s)).value)
    ensures forall b :: Overlooked(e, b) ==> Overlooked(c, b)
  {
    c := SettlingCommits(input, s);
    assert s.pipe != Normal;
    hide Inv, Placed, Seen, Blind, CommitStage, MemoryStage, ExecutionStage, SquashStage, SchedulerStage, DecodeStage, FetchStage, Units,
         Executed, Overlooked, FrontReady, Squashing, Rests;
    SettlingMoves(input, s, c);
    e := AfterExecution(c, Settling(s));
    EpisodeGoesOn(c, e);
    hide Advances;
    LaterStagesRest(input, e);
  }

  lemma {:induction false} EpisodeGoesOn(c: State, e: State)
    requires Advances(c, e)
    ensures e.pipe != Normal
  {
  }

  /** Every such cycle lowers the squash number, or brings the squash further. */
  lemma {:induction false} SettlingCycle(input: seq<Block>, s: State)
    requires Squashing(input, s) && s.pipe != SquashRob
    ensures var r := Cycle(s, Settling(s));
            && r.Some? && Squashing(input, r.value) && r.value.sn <= s.sn
            && (r.value.sn == s.sn ==> Rank(r.value) < Rank(s))
            && (r.value.pipe == SquashRob ==> r.value.que == [])
  {
    SettlingKeeps(input, s);
    var c, e := SettlingStages(input, s);
    hide Inv, Placed, Seen, Cycle, Settling, Overlooked, Advances, FrontReady, Rests;
    RankDrops(s, c, e, Cycle(s, Settling(s)).value);
    RestNotBlind(c, e, Cycle(s, Settling(s)).value);
  }

  lemma {:induction false} RestOverlooked(e: State, t: State, b: Block)
    requires Rests(e, t) && Overlooked(t, b)
    ensures Overlooked(e, b)
  {
    hide InsOf;
  }

  lemma {:induction false} RestNotBlind(c: State, e: State, t: State)
    requires !Blind(c) && Rests(e, t) && forall b :: Overlooked(e, b) ==> Overlooked(c, b)
    ensures !Blind(t)
  {
    hide Overlooked, Rests;
    forall b ensures !Overlooked(t, b) {
      if Overlooked(t, b) { RestOverlooked(e, t, b); }
    }
  }

  // ----- The end of a squash -----

  /** Nothing of what was queued is dispatched any more, and the back end works again. */
  ghost predicate Restarted(t: State) {
    t.pipe == Normal && t.sn == 0 && t.rob == [] && t.disp == 0
  }

  lemma {:induction false} NothingDispatched(input: seq<Block>, s: State)
    requires Inv(input, s) && s.pipe == SquashRob
    ensures s.que == [] && s.rob == [] && s.disp == 0 && s.mem == {} && s.d2s == [] && s.f2d == []
  {
    EmptyInFlight(s);
    EmptyPorts(s);
  }

  lemma {:induction false} LastExecution(input: seq<Block>, m: State, events: seq<Event>, issued: set<Ins>)
    requires Inv(input, m) && m.pipe == SquashRob && MemoryFlushed(m)
    ensures var e := ExecutionStage(m, events, issued, true);
            e.pipe == Normal && e.sn == 0 && e.rob == [] && e.disp == 0 && e.que == []
  {
    NothingDispatched(input, m);
    NoneCompletes(input, m, events);
    hide Core, CompleteStage, Completions;
  }

  lemma {:induction false} LastBackEnd(input: seq<Block>, s: State)
    requires Inv(input, s) && s.pipe == SquashRob
    ensures var u := AfterScheduler(s, Settling(s)); u.pipe == Normal && u.rob == [] && u.disp == 0
  {
    var ch := Settling(s);
    var m := MemoryStage(s, ch.loads);
    MemoryStageKeeps(input, s, ch.loads);
    LastExecution(input, m, ch.events, ch.issued);
    hide Inv, Core, ExecutionStage, MemoryStage, Units;
  }

  /** Once both tables are empty one more cycle ends the squash. */
  lemma {:induction false} LastCycle(input: seq<Block>, s: State)
    requires Inv(input, s) && s.pipe == SquashRob
    ensures Cycle(s, Settling(s)).Some? && Inv(input, Cycle(s, Settling(s)).value) && Restarted(Cycle(s, Settling(s)).value)
  {
    NothingDispatched(input, s);
    NothingCommits(s, |s.que|);
    BackEndKeeps(input, s, Settling(s));
    LastBackEnd(input, s);
    CycleKeeps(input, s, Settling(s));
    var u := AfterScheduler(s, Settling(s));
    DecodedReady(input, u, 0);
    hide Inv, Core, AfterScheduler, FetchImpl, Scheduled, FetchInv, CommitStage;
    FetchImplKeeps(input, u, true, 0);
    NormalAgain(input, Cycle(s, Settling(s)).value);
  }

  lemma {:induction false} NothingCommits(s: State, n: nat)
    requires s.rob == []
    ensures CommitStage(s, n) == Some(s)
  {
  }

  lemma {:induction false} NormalAgain(input: seq<Block>, t: State)
    requires Inv(input, t) && t.pipe == Normal
    ensures t.sn == 0
  {
  }

  /** From every state of a squash in which no wrong-path block was overlooked there are cycles that end it. Before the
      last one both tables are empty: the offending block is deleted or back in the cache. */
  lemma {:induction false} SquashEnds(input: seq<Block>, s: State) returns (choices: seq<Choices>)
    requires Squashing(input, s)
    ensures (forall c :: c in choices ==> c.running) && choices != []
    ensures var u := After(s, Ticks(choices[..|choices| - 1])); u.Some? && u.value.pipe == SquashRob && u.value.que == [] && u.value.rob == []
    ensures After(s, Ticks(choices)).Some? && Restarted(After(s, Ticks(choices)).value)
  {
    hide Cycle, After, Settling, Rank, Restarted;
    choices := [];
    var t := s;
    assert After(s, Ticks([])) == Some(s) by { AfterNothing(s); }
    while t.pipe != SquashRob
      invariant After(s, Ticks(choices)) == Some(t) && Squashing(input, t) && forall c :: c in choices ==> c.running
      decreases t.sn, Rank(t)
    {
      hide Squashing;
      SettlingCycle(input, t);
      SettlingRuns(t);
      AnotherTick(s, choices, Settling(t));
      choices := choices + [Settling(t)];
      t := Cycle(t, Settling(t)).value;
    }
    assert Inv(input, t);
    hide Inv, Squashing;
    NothingDispatched(input, t);
    LastCycle(input, t);
    SettlingRuns(t);
    AnotherTick(s, choices, Settling(t));
    assert (choices + [Settling(t)])[..|choices|] == choices;
    choices := choices + [Settling(t)];
  }

  lemma {:induction false} SettlingRuns(s: State)
    ensures Settling(s).running
  {
  }
}
