/** The stages of one cycle of the back end as functions of the state and of what the environment decides:
    widths, finished loads and execution units, issued instructions, free wires. Each keeps the invariant. */
module ProtocolStages {
  import opened Collections
  import opened ProtocolFrontEnd
  import opened ProtocolSpec
  import opened ProtocolSteps

  // ----- commit.cpp -----

  /** Up to `n` blocks commit; nothing if the assertion on a committed block's fetch fails. */
  ghost function CommitRun(s: State, n: nat): Option<State>
    decreases n
  {
    if n == 0 || !FrontComplete(s) then Some(s)
    else if !CanCommit(s) then None
    else CommitRun(CommitBlock(s), n - 1)
  }

  ghost function CommitStage(s: State, n: nat): Option<State> {
    if s.pipe == WaitFlush || s.pipe == Flush then Some(s) else CommitRun(s, n)
  }

  /** A complete front block was fetched to its end, unless it is the only one queued. */
  lemma {:induction false} FrontFetched(s: State)
    requires TableInv(s) && FrontComplete(s) && |s.que| > 1
    ensures CanCommit(s)
  {
    assert s.rob[0] == s.que[0];
  }

  /** Commit keeps the invariant, and outside normal operation its assertion holds: the offending block
      stays behind whatever commits. */
  lemma {:induction false} CommitStageKeeps(input: seq<Block>, s: State, n: nat)
    requires Inv(input, s)
    ensures CommitStage(s, n).Some? ==> Inv(input, CommitStage(s, n).value) && CommitStage(s, n).value.pipe == s.pipe
    ensures CommitStage(s, n).Some? ==> CommitStage(s, n).value.sn == s.sn
    ensures s.pipe != Normal ==> CommitStage(s, n).Some?
    decreases n
  {
    if s.pipe != WaitFlush && s.pipe != Flush && n > 0 && FrontComplete(s) {
      if s.pipe == Drain { OffenderBehind(s); FrontFetched(s); }
      FrontQueued(s);
      hide Inv, InsOf;
      if CanCommit(s) {
        CommitKeepsInv(input, s);
        CommitStageKeeps(input, CommitBlock(s), n - 1);
      }
    }
  }

  lemma {:induction false} FrontQueued(s: State)
    requires PipeInv(s) && FrontComplete(s)
    ensures s.pipe != SquashRob
  {
  }

  lemma {:induction false} OffenderBehind(s: State)
    requires TableInv(s) && FrontComplete(s) && InEpisode(s)
    ensures |s.que| > 1
  {
    var b :| Offender(s, b);
    var k :| 0 <= k < |s.rob| && s.rob[k] == b;
  }

  lemma {:induction false} FrontAborts(input: seq<Block>, s: State)
    requires Inv(input, s) && s.pipe == Normal && FrontComplete(s) && !CanCommit(s)
    ensures s.que != [] && s.current == Some(s.que[|s.que| - 1]) && s.que[|s.que| - 1] == s.rob[0]
    ensures s.current.value.id in s.st && s.st[s.current.value.id].wait == 0 && !s.st[s.current.value.id].doneFetch
  {
    if |s.que| > 1 { FrontFetched(s); }
    assert s.rob[0] == s.que[0];
    hide StreamInv, PortInv, FlightInv, All, InsOf;
  }

  /** Commit's assertion fails only for the block that fetch has just read to its end: it is the youngest
      queued, already complete, and no later block was asked for. */
  lemma {:induction false} CommitAborts(input: seq<Block>, s: State, n: nat)
    requires Inv(input, s) && CommitStage(s, n) == None
    ensures s.pipe == Normal && s.que != [] && s.current == Some(s.que[|s.que| - 1])
    ensures s.current.value.id in s.st && s.st[s.current.value.id].wait == 0 && !s.st[s.current.value.id].doneFetch
    ensures forall x :: x in InsOf(s.current.value) ==> x in s.done
    decreases n
  {
    CommitStageKeeps(input, s, n);
    if CanCommit(s) {
      CommitKeepsInv(input, s);
      CommitAborts(input, CommitBlock(s), n - 1);
    } else {
      FrontAborts(input, s);
    }
    hide Inv, InsOf;
  }

  // ----- memory.cpp -----

  ghost function LoadsRun(s: State, loads: seq<Ins>): State {
    if loads == [] then s
    else
      var r := LoadsRun(s, loads[..|loads| - 1]);
      if loads[|loads| - 1] in r.mem then LoadDone(r, loads[|loads| - 1]) else r
  }

  ghost function MemoryStage(s: State, loads: seq<Ins>): State {
    if s.pipe == Flush then LsqSquash(LoadsRun(s, loads)) else LoadsRun(s, loads)
  }

  lemma {:induction false} LoadsRunKeeps(input: seq<Block>, s: State, loads: seq<Ins>)
    requires Inv(input, s)
    ensures Inv(input, LoadsRun(s, loads)) && LoadsRun(s, loads).pipe == s.pipe && LoadsRun(s, loads).sn == s.sn
  {
    if loads != [] {
      var n := |loads| - 1;
      LoadsRunKeeps(input, s, loads[..n]);
      if loads[n] in LoadsRun(s, loads[..n]).mem { LoadDoneKeepsInv(input, LoadsRun(s, loads[..n]), loads[n]); }
    }
  }

  lemma {:induction false} LoadsPipe(s: State, loads: seq<Ins>)
    ensures LoadsRun(s, loads).pipe == s.pipe
  {
    if loads != [] { LoadsPipe(s, loads[..|loads| - 1]); }
  }

  /** The load queue holds nothing younger than the offending block once the flush has passed it. */
  ghost predicate MemoryFlushed(s: State) {
    s.pipe == Flush ==> AllBelow(s.mem, s.sn) && AllBelow(s.lq, s.sn)
  }

  lemma {:induction false} MemoryStageKeeps(input: seq<Block>, s: State, loads: seq<Ins>)
    requires Inv(input, s)
    ensures Inv(input, MemoryStage(s, loads)) && MemoryFlushed(MemoryStage(s, loads))
    ensures MemoryStage(s, loads).pipe == s.pipe && MemoryStage(s, loads).sn == s.sn
  {
    LoadsRunKeeps(input, s, loads);
    if s.pipe == Flush { LsqSquashKeepsInv(input, LoadsRun(s, loads)); }
  }

  // ----- execution.cpp -----

  /** An execution unit finishes `x`; `v` is the load that a finished store finds violated. */
  datatype Event = Event(x: Ins, isLoad: bool, v: Option<Ins>)

  /** The state and the block blamed last in this cycle. */
  datatype Completing = Completing(s: State, bad: Option<Block>)

  ghost function CompleteOne(c: Completing, e: Event): Completing {
    if !MayComplete(c.s, e.x, e.v) then c
    else Completing(Detected(Completed(c.s, e.x, e.isLoad, e.v), e.x, e.isLoad, e.v), NextBlame(c.s, e.x, e.isLoad, e.v, c.bad))
  }

  ghost function CompleteAll(c: Completing, events: seq<Event>): Completing {
    if events == [] then c else CompleteOne(CompleteAll(c, events[..|events| - 1]), events[|events| - 1])
  }

  function StartComplete(s: State): State {
    s.(oldSn := s.sn, badIns := if s.pipe == Normal then 0 else s.badIns)
  }

  /** The squash number follows the block blamed last. */
  function Settle(c: Completing): State {
    if c.bad.Some? then c.s.(sn := SetSquashSN(c.s.sn, c.bad.value.head)) else c.s
  }

  ghost function CompleteStage(s: State, events: seq<Event>): State {
    Settle(CompleteAll(Completing(StartComplete(s), None), if s.pipe == Flush then [] else events))
  }

  function SquashCtrl(s: State, wire: bool): State {
    if s.sn != s.oldSn then s.(pipe := WaitFlush)
    else match s.pipe
      case Normal => s.(kind := NoMispred, sn := 0, oldSn := 0)
      case WaitFlush => if s.eu == {} then s.(pipe := Flush) else s
      case Flush => s.(pipe := Drain)
      case Drain => if wire && s.rob != [] && s.rob[0].head >= s.sn then s.(pipe := SquashRob) else s
      case SquashRob => if s.rob == [] then s.(kind := NoMispred, sn := 0, oldSn := 0, pipe := Normal) else s
  }

  ghost function ExecutionImpl(s: State, issued: set<Ins>): State {
    if s.sn == s.oldSn && s.pipe != WaitFlush && s.pipe != Flush then Issue(s, issued) else s
  }

  ghost function ExecutionStage(s: State, events: seq<Event>, issued: set<Ins>, wire: bool): State {
    SquashCtrl(ExecutionImpl(CompleteStage(s, events), issued), wire)
  }

  /** What completions leave alone. */
  ghost predicate CompletionFrame(s: State, t: State) {
    && t == s.(eu := t.eu, mem := t.mem, done := t.done, st := t.st, badIns := t.badIns, kind := t.kind)
    && t.eu <= s.eu && t.mem <= s.mem + s.eu
    && (forall k :: k in s.st ==> k in t.st && t.st[k].wait == s.st[k].wait && t.st[k].doneFetch == s.st[k].doneFetch)
  }

  ghost function Last(o: Option<Block>, first: Option<Block>): Option<Block> {
    if o.Some? then o else first
  }

  lemma {:induction false} CompleteOneKeeps(input: seq<Block>, c: Completing, e: Event, o: Option<Block>)
    requires Core(input, c.s) && BlameAt(c.s, Last(c.bad, o))
    ensures Core(input, CompleteOne(c, e).s) && BlameAt(CompleteOne(c, e).s, Last(CompleteOne(c, e).bad, o))
  {
    hide Core, BlameAt, Completed;
    if MayComplete(c.s, e.x, e.v) {
      CompletedKeepsCore(input, c.s, e.x, e.isLoad, e.v);
      DetectedBlames(input, c.s, e.x, e.isLoad, e.v, Last(c.bad, o));
      ControlCore(input, Completed(c.s, e.x, e.isLoad, e.v), CompleteOne(c, e).s);
    }
  }

  lemma {:induction false} OneFrame(c: Completing, e: Event)
    ensures CompletionFrame(c.s, CompleteOne(c, e).s)
  {
  }

  lemma {:induction false} CompleteAllKeeps(input: seq<Block>, s: State, events: seq<Event>, o: Option<Block>)
    requires Core(input, s) && BlameAt(s, o)
    ensures var c := CompleteAll(Completing(s, None), events);
            Core(input, c.s) && BlameAt(c.s, Last(c.bad, o))
  {
    hide Core, BlameAt;
    if events != [] {
      var n := |events| - 1;
      CompleteAllKeeps(input, s, events[..n], o);
      CompleteOneKeeps(input, CompleteAll(Completing(s, None), events[..n]), events[n], o);
    }
  }

  lemma {:induction false} NothingCompletes(c: Completing, events: seq<Event>)
    requires c.s.eu == {}
    ensures CompleteAll(c, events) == c
  {
    if events != [] { NothingCompletes(c, events[..|events| - 1]); }
  }

  /** What holds after completion: the squash number differs from the old one only if a block is blamed. */
  ghost predicate Completions(input: seq<Block>, s: State) {
    && Core(input, s) && (s.oldSn == 0 ==> s.pipe == Normal)
    && (s.sn != s.oldSn ==> s.sn > 0 && (s.oldSn == 0 || s.sn < s.oldSn))
    && (s.sn != s.oldSn ==> InEpisode(s))
    && (s.sn == s.oldSn ==> PipeInv(s) && MemoryFlushed(s))
  }

  lemma {:induction false} SettledKeeps(input: seq<Block>, s: State, c: Completing, o: Option<Block>)
    requires Core(input, c.s) && BlameAt(c.s, Last(c.bad, o)) && c.s.sn == s.sn
    requires match o { case None => s.sn == 0 case Some(b) => s.sn == b.head && s.sn > 0 }
    ensures Core(input, Settle(c))
    ensures s.sn > 0 || Settle(c).sn != s.sn ==> InEpisode(Settle(c))
    ensures Settle(c).sn != s.sn ==> Settle(c).sn > 0 && (s.sn == 0 || Settle(c).sn < s.sn)
  {
    ControlCore(input, c.s, Settle(c));
    hide Core;
    if c.bad.Some? {
      SettledSN(c.s, c.bad.value);
      assert Offender(Settle(c), c.bad.value);
    } else if o.Some? {
      assert Offender(Settle(c), o.value);
    }
  }

  /** The pipe state and the squash record are no part of the core. */
  lemma {:induction false} ControlCore(input: seq<Block>, s: State, t: State)
    requires Core(input, s) && t == s.(sn := t.sn, oldSn := t.oldSn, badIns := t.badIns, kind := t.kind, pipe := t.pipe)
    ensures Core(input, t)
  {
    hide Ordered, Without, All, AllSet, Start;
  }

  /** Who was blamed when the cycle began. */
  lemma {:induction false} FirstBlame(s: State) returns (o: Option<Block>)
    requires PipeInv(s) && s.pipe != SquashRob
    ensures BlameAt(StartComplete(s), o)
    ensures match o { case None => s.sn == 0 case Some(b) => s.sn == b.head && s.sn > 0 }
  {
    if s.pipe == Normal {
      o := None;
    } else {
      var b :| Offender(s, b);
      o := Some(b);
      assert Blamed(StartComplete(s), b);
    }
  }

  /** In these pipe states instructions may complete. */
  lemma {:induction false} CompletionsKeep(input: seq<Block>, s: State, events: seq<Event>)
    requires Inv(input, s) && s.pipe != Flush && s.pipe != SquashRob
    ensures Completions(input, CompleteStage(s, events)) && CompleteStage(s, events).pipe == s.pipe
    ensures CompleteStage(s, events).oldSn == s.sn
  {
    var u := StartComplete(s);
    var c := CompleteAll(Completing(u, None), events);
    var o := FirstBlame(s);
    ControlCore(input, s, u);
    CompleteAllKeeps(input, u, events, o);
    CompletionsFrame(Completing(u, None), events);
    SettledKeeps(input, u, c, o);
    if Settle(c).sn == s.sn { FrameKeepsPipe(s, c.s, Settle(c)); }
    if s.pipe != Normal { EpisodeNumber(s); }
    hide Core, BlameAt, InEpisode, FetchInv;
  }

  lemma {:induction false} EpisodeNumber(s: State)
    requires InEpisode(s)
    ensures s.sn > 0
  {
    var b :| Offender(s, b);
  }

  lemma {:induction false} FrameKeepsPipe(s: State, u: State, t: State)
    requires PipeInv(s) && s.pipe != Flush && s.pipe != SquashRob && CompletionFrame(StartComplete(s), u)
    requires t == u.(sn := s.sn) && (s.sn > 0 ==> InEpisode(t))
    ensures PipeInv(t)
  {
    if s.pipe == Normal {
      FrameKeepsFetch(s, u);
    } else {
      EpisodeNumber(s);
    }
  }

  lemma {:induction false} FrameKeepsFetch(s: State, t: State)
    requires FetchInv(s) && CompletionFrame(StartComplete(s), t)
    ensures FetchInv(t)
  {
    hide All;
  }

  lemma {:induction false} NoneCompletes(input: seq<Block>, s: State, events: seq<Event>)
    requires Inv(input, s) && MemoryFlushed(s) && (s.pipe == Flush || s.pipe == SquashRob)
    ensures CompleteStage(s, events) == StartComplete(s) && Completions(input, StartComplete(s))
  {
    var u := StartComplete(s);
    if s.pipe == SquashRob {
      EmptyInFlight(s);
      NothingCompletes(Completing(u, None), events);
    } else {
      EpisodeNumber(s);
      SameTables(s, u);
    }
    ControlCore(input, s, u);
    hide Core;
  }

  lemma {:induction false} EmptyInFlight(s: State)
    requires FlightInv(s) && s.que == []
    ensures s.win == {} && s.eu == {} && s.mem == {} && s.lq == {} && s.done == {}
  {
    assert AllSet(s.que, s.disp) == {};
    NoneOf(s.win, AllSet(s.que, s.disp));
    NoneOf(s.eu, AllSet(s.que, s.disp));
    NoneOf(s.mem, AllSet(s.que, s.disp));
    NoneOf(s.lq, AllSet(s.que, s.disp));
    NoneOf(s.done, AllSet(s.que, s.disp));
  }

  lemma {:induction false} NoneOf(xs: set<Ins>, ys: set<Ins>)
    requires xs <= ys && ys == {}
    ensures xs == {}
  {
  }

  lemma {:induction false} CompleteStageKeeps(input: seq<Block>, s: State, events: seq<Event>)
    requires Inv(input, s) && MemoryFlushed(s)
    ensures Completions(input, CompleteStage(s, events)) && CompleteStage(s, events).pipe == s.pipe
    ensures CompleteStage(s, events).oldSn == s.sn
  {
    if s.pipe == Flush || s.pipe == SquashRob { NoneCompletes(input, s, events); } else { CompletionsKeep(input, s, events); }
  }

  lemma {:induction false} ExecutionImplKeeps(input: seq<Block>, s: State, issued: set<Ins>)
    requires Completions(input, s)
    ensures Completions(input, ExecutionImpl(s, issued))
  {
    IssueKeepsCore(input, s, issued);
    hide Core, InEpisode;
  }

  /** What squashCtrl leaves to the later stages, by pipe state. */
  ghost predicate Executed(input: seq<Block>, s: State) {
    && Core(input, s)
    && match s.pipe
       case Normal => s.sn == 0 && FetchInv(s)
       case WaitFlush => InEpisode(s)
       case Flush => InEpisode(s) && s.eu == {}
       case Drain => PipeInv(s)
       case SquashRob => OnlyFront(s)
  }

  /** Nothing is in flight and the offending block is in front of both tables. */
  ghost predicate OnlyFront(s: State) {
    && s.que != [] && s.rob != [] && s.rob[0] == s.que[0] && Offender(s, s.rob[0])
    && s.win == {} && s.eu == {} && s.mem == {} && s.lq == {} && s.f2d == [] && s.d2s == []
  }

  lemma {:induction false} DrainedToFront(input: seq<Block>, s: State)
    requires Core(input, s) && s.pipe == Drain && PipeInv(s) && s.rob != [] && s.rob[0].head >= s.sn
    ensures OnlyFront(s)
  {
    OffenderAtFront(input, s);
    QueueOrdered(input, s);
    FrontIsOldest(s, s.win, s.disp);
    FrontIsOldest(s, s.eu, s.disp);
    FrontIsOldest(s, s.mem, s.disp);
    FrontIsOldest(s, s.lq, s.disp);
  }

  lemma {:induction false} SquashCtrlKeeps(input: seq<Block>, s: State, wire: bool)
    requires Completions(input, s)
    ensures Executed(input, SquashCtrl(s, wire))
  {
    var t := SquashCtrl(s, wire);
    ControlCore(input, s, t);
    hide Core;
    if s.sn != s.oldSn { SameTables(s, t); } else { NextPhase(input, s, wire); }
  }

  /** Without a new violation the pipe state moves on. */
  lemma {:induction false} NextPhase(input: seq<Block>, s: State, wire: bool)
    requires Core(input, s) && Core(input, SquashCtrl(s, wire)) && s.sn == s.oldSn && PipeInv(s) && MemoryFlushed(s)
    ensures Executed(input, SquashCtrl(s, wire))
  {
    hide Core, InEpisode, Blamed;
    match s.pipe
    case Normal => {}
    case WaitFlush => { SameTables(s, SquashCtrl(s, wire)); }
    case Flush => { SameTables(s, SquashCtrl(s, wire)); }
    case Drain => { FromDrain(input, s, wire); }
    case SquashRob => { RobEmpty(input, s); }
  }

  lemma {:induction false} FromDrain(input: seq<Block>, s: State, wire: bool)
    requires Core(input, s) && Core(input, SquashCtrl(s, wire)) && s.sn == s.oldSn && PipeInv(s) && s.pipe == Drain
    ensures Executed(input, SquashCtrl(s, wire))
  {
    var t := SquashCtrl(s, wire);
    if t.pipe == SquashRob {
      DrainedToFront(input, s);
      assert Offender(t, t.rob[0]);
    }
    hide Core, InEpisode, Offender;
  }

  lemma {:induction false} RobEmpty(input: seq<Block>, s: State)
    requires Core(input, s) && s.que == []
    ensures s.rob == []
  {
  }

  /** The execution stage: in an episode the squash number never rises, and going back to waiting for the
      execution units strictly lowers it. */
  lemma {:induction false} ExecutionStageKeeps(input: seq<Block>, s: State, events: seq<Event>, issued: set<Ins>, wire: bool)
    requires Inv(input, s) && MemoryFlushed(s)
    ensures Executed(input, ExecutionStage(s, events, issued, wire))
    ensures var t := ExecutionStage(s, events, issued, wire);
            && (s.sn > 0 ==> if t.pipe == Normal then s.pipe == SquashRob && t.sn == 0 else 0 < t.sn <= s.sn)
            && (s.sn > 0 && s.pipe != WaitFlush && t.pipe == WaitFlush ==> t.sn < s.sn)
            && (s.pipe == Normal && t.pipe != Normal ==> t.pipe == WaitFlush && t.sn > 0)
  {
    var u := CompleteStage(s, events);
    CompleteStageKeeps(input, s, events);
    ExecutionImplKeeps(input, u, issued);
    SquashCtrlKeeps(input, ExecutionImpl(u, issued), wire);
    hide Core, InEpisode, CompleteStage, Executed;
  }

  /** The squash of a wrong path deletes the offending block with the wrong-path blocks behind it, up to the first block
      of the correct path, and gives everything from there on back to the cache in order. */
  lemma {:induction false} WrongPathDeleted(input: seq<Block>, s: State)
    requires Executed(input, s) && s.pipe == SquashRob && s.kind == BpMispred
    ensures var t := SquashStage(s);
            exists n: nat {:trigger s.que[n..]} ::
              && 0 < n <= |s.que| && (forall i :: 0 <= i < n ==> s.que[i].wrongPath) && (n < |s.que| ==> !s.que[n].wrongPath)
              && t.que == [] && t.cache == s.que[n..] + s.cache && t.deleted == s.deleted + BlockIds(s.que[..n])
  {
    hide Core, ResetAll, BlockIds, Blamed;
    var n := WrongRun(s.que);
    FrontBlamed(s);
    assert n > 0;
    assert SquashStage(s).cache == s.que[n..] + s.cache;
  }

  lemma {:induction false} FrontBlamed(s: State)
    requires OnlyFront(s)
    ensures s.kind == BpMispred ==> s.que[0].wrongPath
    ensures s.kind == BpMispred || s.kind == MemMispred
  {
  }

  /** The squash for a violated load deletes nothing: all blocks go back to the cache in order. */
  lemma {:induction false} ViolatedPushedBack(input: seq<Block>, s: State)
    requires Executed(input, s) && s.pipe == SquashRob && s.kind == MemMispred
    ensures var t := SquashStage(s); t.que == [] && t.cache == s.que + s.cache && t.deleted == s.deleted
  {
    hide Core, ResetAll, Blamed;
  }

  /** What fetch finds is as the cycle began. */
  ghost predicate SameFetch(s: State, t: State) {
    && t.current == s.current && t.cache == s.cache && t.f2d == s.f2d
    && (forall k :: k in s.st ==> k in t.st && t.st[k].doneFetch == s.st[k].doneFetch && t.st[k].wait == s.st[k].wait)
  }

  lemma {:induction false} CompletionsFrame(c: Completing, events: seq<Event>)
    ensures CompletionFrame(c.s, CompleteAll(c, events).s)
  {
    if events != [] {
      var n := |events| - 1;
      CompletionsFrame(c, events[..n]);
      OneFrame(CompleteAll(c, events[..n]), events[n]);
      hide CompleteOne;
    }
  }

  lemma {:induction false} ExecutionSameFetch(s: State, events: seq<Event>, issued: set<Ins>, wire: bool)
    ensures SameFetch(s, ExecutionStage(s, events, issued, wire))
  {
    CompletionsFrame(Completing(StartComplete(s), None), if s.pipe == Flush then [] else events);
    hide CompleteAll;
  }

  // ----- The squash between execution and scheduling (sysCore.cpp) -----

  ghost function SquashStage(s: State): State {
    if s.pipe != SquashRob then s
    else
      var t := s.(current := None, inProgress := false);
      if t.rob == [] then t
      else match t.kind
        case BpMispred => BpSquash(t).(kind := NoMispred)
        case MemMispred => MemSquash(t).(kind := NoMispred)
        case NoMispred => t
  }

  lemma {:induction false} CurrentDropped(input: seq<Block>, s: State)
    requires Executed(input, s) && s.pipe == SquashRob
    ensures ReadyToSquash(input, s.(current := None, inProgress := false))
  {
    var t := s.(current := None, inProgress := false);
    assert Offender(t, t.rob[0]);
    NoFetchCore(input, s);
  }

  /** The squash finds a valid type, and empties bbROB and bbQUE. */
  lemma {:induction false} SquashStageKeeps(input: seq<Block>, s: State)
    requires Executed(input, s)
    ensures s.pipe != SquashRob ==> SquashStage(s) == s
    ensures s.pipe == SquashRob ==> s.kind != NoMispred && SquashStage(s).rob == [] && Inv(input, SquashStage(s))
    ensures SquashStage(s).pipe == s.pipe && SquashStage(s).sn == s.sn
  {
    if s.pipe == SquashRob {
      var t := s.(current := None, inProgress := false);
      CurrentDropped(input, s);
      SquashKeepsInv(input, t);
      var u := if t.kind == BpMispred then BpSquash(t) else MemSquash(t);
      ControlCore(input, u, u.(kind := NoMispred));
    }
  }

  lemma {:induction false} NoFetchCore(input: seq<Block>, s: State)
    requires Core(input, s)
    ensures Core(input, s.(current := None, inProgress := false))
  {
    hide Ordered, Without, All, AllSet, Start;
  }
}
