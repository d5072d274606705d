/** A violation that completion finds starts or lowers a squash in the same cycle (execution.cpp). */
module ProtocolDetect {
  import opened Collections
  import opened ProtocolSpec
  import opened ProtocolStages
  import opened ProtocolSteps

  /** The completion `e` shows that block `b` must be squashed: a store finds a load of `b` violated, or another
      completion is one of a wrong-path instruction of `b`. */
  ghost predicate Finds(s: State, e: Event, b: Block) {
    && MayComplete(s, e.x, e.v)
    && if !e.isLoad && e.v.Some? then b == e.v.value.bb else e.x.bb.wrongPath && b == e.x.bb
  }

  /** Some block is blamed, in this cycle or before, that starts at `h` or before. */
  ghost predicate Within(c: Completing, o: Option<Block>, h: nat) {
    Last(c.bad, o).Some? && Last(c.bad, o).value.head <= h
  }

  /** The blamed block only gets older. */
  lemma {:induction false} BlameOnlyOlder(input: seq<Block>, c: Completing, e: Event, o: Option<Block>, h: nat)
    requires Core(input, c.s) && BlameAt(c.s, Last(c.bad, o)) && Within(c, o, h)
    ensures Within(CompleteOne(c, e), o, h)
  {
    hide Core;
    if MayComplete(c.s, e.x, e.v) {
      InsMayBlame(input, c.s, e.x, Last(c.bad, o));
      if e.v.Some? { InsMayBlame(input, c.s, e.v.value, Last(c.bad, o)); }
      hide Completed;
    }
  }

  /** What a completion finds is blamed, unless what is blamed already is as old. */
  lemma {:induction false} FoundIsBlamed(input: seq<Block>, c: Completing, e: Event, o: Option<Block>, b: Block)
    requires Core(input, c.s) && BlameAt(c.s, Last(c.bad, o)) && Finds(c.s, e, b)
    ensures Within(CompleteOne(c, e), o, b.head)
  {
    hide Core;
    InsMayBlame(input, c.s, e.x, Last(c.bad, o));
    if e.v.Some? { InsMayBlame(input, c.s, e.v.value, Last(c.bad, o)); }
    hide Completed;
  }

  /** The completions from `c` on in the order of the list. */
  lemma {:induction false} OlderThroughout(input: seq<Block>, s: State, events: seq<Event>, o: Option<Block>, k: nat, h: nat)
    requires Core(input, s) && BlameAt(s, o) && k <= |events|
    requires Within(CompleteAll(Completing(s, None), events[..k]), o, h)
    ensures Within(CompleteAll(Completing(s, None), events), o, h)
    decreases |events| - k
  {
    if k == |events| {
      assert events[..k] == events;
    } else {
      assert events[..k + 1][..k] == events[..k];
      CompleteAllKeeps(input, s, events[..k], o);
      BlameOnlyOlder(input, CompleteAll(Completing(s, None), events[..k]), events[k], o, h);
      hide Core, BlameAt, Within, CompleteOne;
      OlderThroughout(input, s, events, o, k + 1, h);
    }
  }

  /** An instruction stays in its unit until an event names it, and what is complete stays complete. */
  lemma {:induction false} UnitWaits(s: State, events: seq<Event>, x: Ins)
    requires x in s.eu && forall j :: 0 <= j < |events| ==> events[j].x != x
    ensures var t := CompleteAll(Completing(s, None), events).s;
            x in t.eu && t.lq == s.lq && s.done <= t.done
  {
    if events != [] {
      var n := |events| - 1;
      UnitWaits(s, events[..n], x);
    }
  }

  /** Outside the flush, a violation that the first completion of an instruction finds sets the squash number to the
      head of its block or of an older one, in the same cycle; from normal operation the squash begins. */
  lemma {:induction false} ViolationStartsSquash(input: seq<Block>, s: State, events: seq<Event>, issued: set<Ins>, wire: bool, k: nat, b: Block)
    requires Inv(input, s) && MemoryFlushed(s) && s.pipe != Flush
    requires k < |events| && Finds(s, events[k], b) && forall j :: 0 <= j < k ==> events[j].x != events[k].x
    ensures var t := ExecutionStage(s, events, issued, wire);
            && 0 < t.sn <= b.head
            && (s.pipe == Normal || t.sn != s.sn ==> t.pipe == WaitFlush)
  {
    UnitsNeedQueue(s, events[k].x);
    var u := StartComplete(s);
    var o := FirstBlame(s);
    var c := CompleteAll(Completing(u, None), events);
    ControlCore(input, s, u);
    CompleteAllKeeps(input, u, events, o);
    FoundInTime(input, s, events, o, k, b);
    CompletionsFrame(Completing(u, None), events);
    hide Core, Inv, CompleteAll, FetchInv, Finds, PipeInv, BlameAt, InEpisode;
    SettledWithin(s, c, o, b.head);
    NumberKept(Settle(c), issued, wire);
    if s.pipe == Normal { NormalNumber(s); }
  }

  lemma {:induction false} SettledWithin(s: State, c: Completing, o: Option<Block>, h: nat)
    requires BlameAt(c.s, Last(c.bad, o)) && Within(c, o, h) && c.s.sn == s.sn
    requires match o { case None => s.sn == 0 case Some(b) => s.sn == b.head && s.sn > 0 }
    ensures 0 < Settle(c).sn <= h
  {
    hide Blamed;
  }

  /** A positive number stays as it is, and a new one sends the pipe to wait for the units. */
  lemma {:induction false} NumberKept(s: State, issued: set<Ins>, wire: bool)
    requires s.sn > 0 && (s.pipe == Normal ==> s.oldSn == 0) && s.pipe != SquashRob
    ensures var t := SquashCtrl(ExecutionImpl(s, issued), wire);
            t.sn == s.sn && (s.pipe == Normal || s.sn != s.oldSn ==> t.pipe == WaitFlush)
  {
  }

  lemma {:induction false} NormalNumber(s: State)
    requires s.pipe == Normal && PipeInv(s)
    ensures s.sn == 0
  {
  }

  lemma {:induction false} UnitsNeedQueue(s: State, x: Ins)
    requires FlightInv(s) && PipeInv(s) && x in s.eu
    ensures s.pipe != SquashRob
  {
    if s.pipe == SquashRob { EmptyInFlight(s); }
  }

  lemma {:induction false} FoundInTime(input: seq<Block>, s: State, events: seq<Event>, o: Option<Block>, k: nat, b: Block)
    requires Core(input, StartComplete(s)) && BlameAt(StartComplete(s), o)
    requires k < |events| && Finds(s, events[k], b) && forall j :: 0 <= j < k ==> events[j].x != events[k].x
    ensures Within(CompleteAll(Completing(StartComplete(s), None), events), o, b.head)
  {
    var u := StartComplete(s);
    var c := CompleteAll(Completing(u, None), events[..k]);
    UnitWaits(u, events[..k], events[k].x);
    CompleteAllKeeps(input, u, events[..k], o);
    assert Finds(c.s, events[k], b);
    FoundIsBlamed(input, c, events[k], o, b);
    assert events[..k + 1][..k] == events[..k];
    hide Core, BlameAt, Within, CompleteOne;
    OlderThroughout(input, u, events, o, k + 1, b.head);
  }
}
