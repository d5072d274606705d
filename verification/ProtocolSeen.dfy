/** What completion has found is squashed: the squash number never passes it. */
module ProtocolSeen {
  import opened Collections
  import opened ProtocolCycle
  import opened ProtocolDetect
  import opened ProtocolFrontEnd
  import opened ProtocolPlaced
  import opened ProtocolRuns
  import opened ProtocolSpec
  import opened ProtocolStages
  import opened ProtocolSteps

  /** The squash under way takes whatever starts at `h` or later. */
  ghost predicate Covers(s: State, h: nat) {
    0 < s.sn <= h
  }

  /** It takes every block flagged for a violated load, and every wrong-path block of which a load has its address. */
  ghost predicate Seen(s: State) {
    && (forall x :: x in s.mem && x.bb.wrongPath ==> Covers(s, x.bb.head))
    && (forall b :: b in s.que && b.id in s.st && s.st[b.id].memViolation ==> Covers(s, b.head))
  }

  /** The same while a cycle completes instructions. */
  ghost predicate SeenSoFar(c: Completing, o: Option<Block>) {
    && (forall x :: x in c.s.mem && x.bb.wrongPath ==> Within(c, o, x.bb.head))
    && (forall b :: b in c.s.que && b.id in c.s.st && c.s.st[b.id].memViolation ==> Within(c, o, b.head))
  }

  lemma {:induction false} SeenOne(input: seq<Block>, c: Completing, e: Event, o: Option<Block>)
    requires Core(input, c.s) && BlameAt(c.s, Last(c.bad, o)) && SeenSoFar(c, o)
    ensures SeenSoFar(CompleteOne(c, e), o)
  {
    if MayComplete(c.s, e.x, e.v) {
      var d := CompleteOne(c, e);
      hide Core, BlameAt, Within, Blamed, NextBlame;
      forall x | x in d.s.mem && x.bb.wrongPath ensures Within(d, o, x.bb.head) {
        if x in c.s.mem { BlameOnlyOlder(input, c, e, o, x.bb.head); } else { FoundIsBlamed(input, c, e, o, x.bb); }
      }
      forall b | b in d.s.que && b.id in d.s.st && d.s.st[b.id].memViolation ensures Within(d, o, b.head) {
        if c.s.st[b.id].memViolation {
          BlameOnlyOlder(input, c, e, o, b.head);
        } else {
          FlaggedNow(input, c.s, e, b);
          FoundIsBlamed(input, c, e, o, b);
        }
      }
    }
  }

  /** A block is flagged by the completion of a store that finds one of its loads violated. */
  lemma {:induction false} FlaggedNow(input: seq<Block>, s: State, e: Event, b: Block)
    requires Core(input, s) && MayComplete(s, e.x, e.v) && b in s.que && b.id in s.st && !s.st[b.id].memViolation
    requires var t := Completed(s, e.x, e.isLoad, e.v); b.id in t.st && t.st[b.id].memViolation
    ensures Finds(s, e, b)
  {
    LqInRob(s, e.v.value);
    QueueOrdered(input, s);
    SameId(input, b, e.v.value.bb);
  }

  lemma {:induction false} SeenAll(input: seq<Block>, s: State, events: seq<Event>, o: Option<Block>)
    requires Core(input, s) && BlameAt(s, o) && SeenSoFar(Completing(s, None), o)
    ensures SeenSoFar(CompleteAll(Completing(s, None), events), o)
  {
    hide Core, BlameAt, SeenSoFar;
    if events != [] {
      var n := |events| - 1;
      CompleteAllKeeps(input, s, events[..n], o);
      SeenAll(input, s, events[..n], o);
      SeenOne(input, CompleteAll(Completing(s, None), events[..n]), events[n], o);
    }
  }

  lemma {:induction false} SeenFirst(s: State, o: Option<Block>)
    requires Seen(s) && (match o { case None => s.sn == 0 case Some(b) => s.sn == b.head && s.sn > 0 })
    ensures SeenSoFar(Completing(StartComplete(s), None), o)
  {
  }

  lemma {:induction false} SeenSettled(s: State, c: Completing, o: Option<Block>)
    requires BlameAt(c.s, Last(c.bad, o)) && SeenSoFar(c, o) && c.s.sn == s.sn
    requires match o { case None => s.sn == 0 case Some(b) => s.sn == b.head && s.sn > 0 }
    ensures Seen(Settle(c))
  {
    var t := Settle(c);
    hide BlameAt;
    forall x | x in t.mem && x.bb.wrongPath ensures Covers(t, x.bb.head) { SettledWithin(s, c, o, x.bb.head); }
    forall b | b in t.que && b.id in t.st && t.st[b.id].memViolation ensures Covers(t, b.head) { SettledWithin(s, c, o, b.head); }
  }

  lemma {:induction false} CompletionSeen(input: seq<Block>, s: State, events: seq<Event>)
    requires Inv(input, s) && MemoryFlushed(s) && Seen(s)
    ensures Seen(CompleteStage(s, events))
  {
    var u := StartComplete(s);
    if s.pipe == Flush || s.pipe == SquashRob {
      NoneCompletes(input, s, events);
    } else {
      var o := FirstBlame(s);
      ControlCore(input, s, u);
      CompleteAllKeeps(input, u, events, o);
      SeenFirst(s, o);
      SeenAll(input, u, events, o);
      CompletionsFrame(Completing(u, None), events);
      hide Core, Inv, BlameAt, SeenSoFar, CompleteAll, Settle, Seen, FetchInv;
      SeenSettled(s, CompleteAll(Completing(u, None), events), o);
    }
  }

  lemma {:induction false} ControlSeen(s: State, issued: set<Ins>, wire: bool)
    requires Seen(s) && (s.sn == s.oldSn && s.pipe == SquashRob ==> s.que == [] && s.mem == {}) && (s.sn == s.oldSn && s.pipe == Normal ==> s.sn == 0)
    ensures Seen(SquashCtrl(ExecutionImpl(s, issued), wire))
  {
  }

  lemma {:induction false} ExecutionSeen(input: seq<Block>, s: State, events: seq<Event>, issued: set<Ins>, wire: bool)
    requires Inv(input, s) && MemoryFlushed(s) && Seen(s)
    ensures Seen(ExecutionStage(s, events, issued, wire))
  {
    CompletionSeen(input, s, events);
    CompleteStageKeeps(input, s, events);
    ReadyForControl(input, CompleteStage(s, events));
    hide Inv, Core, Seen, CompleteStage, Completions, SquashCtrl, ExecutionImpl;
    ControlSeen(CompleteStage(s, events), issued, wire);
  }

  lemma {:induction false} ReadyForControl(input: seq<Block>, s: State)
    requires Completions(input, s)
    ensures s.sn == s.oldSn && s.pipe == SquashRob ==> s.que == [] && s.mem == {}
    ensures s.sn == s.oldSn && s.pipe == Normal ==> s.sn == 0
  {
    if s.sn == s.oldSn && s.pipe == SquashRob { EmptyInFlight(s); }
  }

  // ----- The other stages -----

  /** Nothing new loads or is flagged. */
  lemma {:induction false} StillSeen(s: State, t: State)
    requires Seen(s) && t.sn == s.sn && t.mem <= s.mem
    requires forall b :: b in t.que && b.id in t.st && t.st[b.id].memViolation ==> b in s.que && b.id in s.st && s.st[b.id].memViolation
    ensures Seen(t)
  {
  }

  lemma {:induction false} CommitSeen(s: State, n: nat)
    requires Seen(s)
    ensures CommitStage(s, n).Some? ==> Seen(CommitStage(s, n).value)
    decreases n
  {
    if n > 0 && CanCommit(s) && s.pipe != WaitFlush && s.pipe != Flush {
      StillSeen(s, CommitBlock(s));
      hide Seen;
      CommitSeen(CommitBlock(s), n - 1);
    }
    hide FrontComplete, Seen;
  }

  lemma {:induction false} MemorySeen(s: State, loads: seq<Ins>)
    requires Seen(s)
    ensures Seen(MemoryStage(s, loads))
  {
    LoadsFrame(s, loads);
    LoadsShrink(s, loads);
    hide LoadsRun;
    StillSeen(s, MemoryStage(s, loads));
  }

  lemma {:induction false} LoadsShrink(s: State, loads: seq<Ins>)
    ensures LoadsRun(s, loads).mem <= s.mem
  {
    if loads != [] { LoadsShrink(s, loads[..|loads| - 1]); }
  }

  lemma {:induction false} SquashSeen(input: seq<Block>, s: State)
    requires Executed(input, s) && Seen(s)
    ensures Seen(SquashStage(s))
  {
    SquashStageKeeps(input, s);
    if s.pipe == SquashRob {
      EmptyAfterSquash(input, SquashStage(s));
      hide SquashStage;
    }
  }

  lemma {:induction false} EmptyAfterSquash(input: seq<Block>, s: State)
    requires Inv(input, s) && s.pipe == SquashRob
    ensures s.que == [] && s.mem == {}
  {
    EmptyInFlight(s);
  }

  lemma {:induction false} DispatchSeen(s: State, loads: seq<bool>)
    requires Seen(s)
    ensures var r := DispatchRun(s, loads); r.mem == s.mem && r.que == s.que && r.st == s.st && r.sn == s.sn
  {
    if loads != [] { DispatchSeen(s, loads[..|loads| - 1]); }
  }

  lemma {:induction false} SchedulerSeen(s: State, loads: seq<bool>, push: bool)
    requires Seen(s)
    ensures Seen(SchedulerStage(s, loads, push))
  {
    DispatchSeen(s, loads);
    hide DispatchRun, NewToRob;
    StillSeen(s, SchedulerStage(s, loads, push));
  }

  /** What is fetched has no flag, and fetch flags nothing. */
  ghost predicate SameFlags(s: State, t: State) {
    && t.sn == s.sn && t.mem == s.mem && s.que <= t.que
    && (forall k :: k in t.st ==> k in s.st && t.st[k].memViolation == s.st[k].memViolation)
    && (forall b :: b in t.que && b !in s.que ==> b in s.cache)
  }

  ghost predicate LessPending(s: State, t: State) {
    forall b :: b in t.cache ==> b in s.cache
  }

  lemma {:induction false} FlagsChain(s: State, t: State, u: State)
    requires SameFlags(s, t) && SameFlags(t, u) && LessPending(s, t) && LessPending(t, u)
    ensures SameFlags(s, u) && LessPending(s, u)
  {
    forall b | b in u.que && b !in s.que ensures b in s.cache { assert b !in t.que ==> b in t.cache; }
  }

  lemma {:induction false} BlockFlags(s: State, running: bool)
    ensures var r := FetchBB(s, running); !r.Abort? ==> SameFlags(s, r.s) && LessPending(s, r.s)
  {
  }

  lemma {:induction false} OneFlags(s: State)
    requires CanFetch(s)
    ensures SameFlags(s, Update(FetchOne(s))) && LessPending(s, Update(FetchOne(s)))
  {
  }

  lemma {:induction false} LoopFlags(s: State, running: bool, n: nat)
    ensures var q := FetchLoop(s, running, n); !q.Abort? ==> SameFlags(s, q.s) && LessPending(s, q.s)
    decreases n
  {
    if n > 0 {
      BlockFlags(s, running);
      var r := if CanFetch(s) then Go(s) else FetchBB(s, running);
      if r.Go? && CanFetch(r.s) {
        var t := Update(FetchOne(r.s));
        OneFlags(r.s);
        LoopFlags(t, running, n - 1);
        hide FetchBB, SameFlags, LessPending, Update, FetchOne;
        if !CanFetch(s) { FlagsChain(s, r.s, t); }
        if !FetchLoop(t, running, n - 1).Abort? { FlagsChain(s, t, FetchLoop(t, running, n - 1).s); }
      }
    }
    hide FetchBB, SameFlags, LessPending, CanFetch;
  }

  lemma {:induction false} FetchFlags(s: State, running: bool, n: nat)
    ensures var r := FetchImpl(s, running, n); r.Some? ==> SameFlags(s, r.value)
  {
    var r := FetchBB(s, running);
    BlockFlags(s, running);
    hide FetchLoop, FetchBB;
    if r.Go? {
      LoopFlags(r.s, running, n);
      var q := FetchLoop(r.s, running, n);
      if !q.Abort? { LoopedFlags(s, r.s, q.s); }
    }
    hide SameFlags, LessPending;
  }

  lemma {:induction false} LoopedFlags(s: State, t: State, u: State)
    requires SameFlags(s, t) && SameFlags(t, u) && LessPending(s, t) && LessPending(t, u)
    ensures SameFlags(s, Update(u))
  {
    FlagsChain(s, t, u);
  }

  ghost predicate CacheUnflagged(s: State) {
    forall b :: b in s.cache ==> b.id in s.st && !s.st[b.id].memViolation
  }

  lemma {:induction false} FetchSeen(s: State, running: bool, n: nat)
    requires CacheUnflagged(s) && Seen(s) && FetchStage(s, running, n).Some?
    ensures Seen(FetchStage(s, running, n).value)
  {
    FetchFlags(s, running, n);
    hide FetchImpl, FlushPort;
    StillSeen(s, FetchStage(s, running, n).value);
  }

  lemma {:induction false} PendingUnflagged(input: seq<Block>, s: State)
    requires Core(input, s)
    ensures CacheUnflagged(s)
  {
  }

  lemma {:induction false} DecodeSeen(input: seq<Block>, s: State, n: nat)
    requires Core(input, s) && Seen(s)
    ensures Seen(DecodeStage(s, n)) && CacheUnflagged(DecodeStage(s, n))
  {
    PendingUnflagged(input, s);
    DecodeRunKeeps(input, s, n);
    hide Core, DecodeRun;
  }

  lemma {:induction false} BackEndSeen(input: seq<Block>, s: State, ch: Choices)
    requires Inv(input, s) && Seen(s)
    ensures Seen(AfterScheduler(s, ch))
  {
    var m := MemoryStage(s, ch.loads);
    MemoryStageKeeps(input, s, ch.loads);
    MemorySeen(s, ch.loads);
    StagesInOrder(input, s, ch);
    hide Inv, Seen, MemoryStage, ExecutionStage, SquashStage, SchedulerStage, Executed, MemoryFlushed;
    ExecutionSeen(input, m, ch.events, ch.issued, ch.wire);
    SquashSeen(input, AfterExecution(s, ch));
    SchedulerSeen(SquashStage(AfterExecution(s, ch)), ch.dispatched, ch.push);
  }

  lemma {:induction false} CycleSeen(input: seq<Block>, s: State, ch: Choices)
    requires Inv(input, s) && Seen(s) && Cycle(s, ch).Some?
    ensures Seen(Cycle(s, ch).value)
  {
    var c := CommitStage(s, ch.commits).value;
    CommitStageKeeps(input, s, ch.commits);
    CommitSeen(s, ch.commits);
    BackEndKeeps(input, c, ch);
    BackEndSeen(input, c, ch);
    var u := AfterScheduler(c, ch);
    hide Inv, Seen, Scheduled, CommitStage, AfterScheduler, FetchStage;
    FrontEndSeen(input, u, ch);
  }

  lemma {:induction false} FrontEndSeen(input: seq<Block>, u: State, ch: Choices)
    requires Scheduled(input, u) && Seen(u)
    ensures var r := FetchStage(DecodeStage(u, ch.decodes), ch.running, ch.fetches); r.Some? ==> Seen(r.value)
  {
    var d := DecodeStage(u, ch.decodes);
    ScheduledCore(input, u);
    DecodeSeen(input, u, ch.decodes);
    hide Core, Seen, DecodeStage, FetchStage, CacheUnflagged;
    if FetchStage(d, ch.running, ch.fetches).Some? { FetchSeen(d, ch.running, ch.fetches); }
  }

  lemma {:induction false} RunSeen(run: seq<Action>)
    requires Ordered(Fed(run)) && After(Init(), run).Some?
    ensures Seen(After(Init(), run).value)
  {
    if run != [] {
      var n := |run| - 1;
      FedOrdered(run, n);
      RunSafe(run[..n]);
      RunSeen(run[..n]);
      var s := After(Init(), run[..n]).value;
      hide Inv, Cycle, Ordered;
      match run[n]
      case Feed(b) => StillSeen(s, FeedBlock(s, b));
      case Tick(ch) => CycleSeen(Fed(run[..n]), s, ch);
    }
  }
}
