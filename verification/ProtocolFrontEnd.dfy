/** Dispatch, decode and fetch steps of the block protocol (schedulers.cpp, decode.cpp, fetch.cpp). */
module ProtocolFrontEnd {
  import opened Collections
  import opened ProtocolSpec
  import opened ProtocolSteps

  // ----- Dispatch -----

  ghost predicate NewToRob(s: State)
    requires s.d2s != []
  {
    s.rob == [] || s.d2s[0].bb.id > s.rob[|s.rob| - 1].id
  }

  /** updateBBROB for the instruction at the front of the port. */
  ghost function PushRob(s: State): State
    requires s.d2s != []
  {
    if NewToRob(s) then s.(rob := s.rob + [s.d2s[0].bb]) else s
  }

  ghost function DispatchOne(s: State, isLoad: bool): State
    requires s.d2s != []
  {
    s.(win := s.win + {s.d2s[0]}, lq := if isLoad then s.lq + {s.d2s[0]} else s.lq, d2s := s.d2s[1..], disp := s.disp + 1)
  }

  /** bbROB holds exactly the blocks up to the one that the next instruction belongs to, or all before it. */
  lemma {:induction false} NextToDispatch(input: seq<Block>, s: State) returns (k: nat)
    requires Core(input, s) && s.d2s != []
    ensures s.disp < s.lim && s.d2s[0] == All(s.que)[s.disp]
    ensures k < |s.que| && s.d2s[0].bb == s.que[k] && (|s.rob| == k || |s.rob| == k + 1)
    ensures Start(s.que, k) <= s.disp < Start(s.que, k) + s.que[k].size
    ensures |s.rob| == k ==> Start(s.que, k) == s.disp
  {
    QueueOrdered(input, s);
    assert (s.d2s + s.f2d)[0] == s.d2s[0] && |s.d2s + s.f2d| > 0;
    k := BlockOfPos(s.que, s.disp);
    if k > 0 { BlockAt(s.que, k - 1); }
    if k + 1 < |s.que| { BlockAt(s.que, k); }
  }

  /** The assertion of detectNewBB and updateBBROB holds, and afterwards the block is the last in bbROB. */
  lemma {:induction false} PushRobKeepsCore(input: seq<Block>, s: State)
    requires Core(input, s) && s.d2s != []
    ensures s.rob != [] ==> s.d2s[0].bb.id >= s.rob[|s.rob| - 1].id
    ensures Core(input, PushRob(s)) && PushRob(s).rob != [] && PushRob(s).rob[|PushRob(s).rob| - 1] == s.d2s[0].bb
  {
    var k := NextToDispatch(input, s);
    QueueOrdered(input, s);
    hide Start, All, Ordered, Without;
    RobTail(s, k);
    if |s.rob| == k { Pushed(input, s, k); }
  }

  lemma {:induction false} Pushed(input: seq<Block>, s: State, k: nat)
    requires Core(input, s) && s.d2s != [] && k < |s.que| && |s.rob| == k && Start(s.que, k) == s.disp
    requires TableInv(s.(rob := s.rob + [s.d2s[0].bb]))
    ensures Core(input, s.(rob := s.rob + [s.d2s[0].bb]))
  {
    hide StreamInv, TableInv, PortInv, FlightInv, Start;
    SameStream(input, s, s.(rob := s.rob + [s.d2s[0].bb]));
    SameFlight(s, s.(rob := s.rob + [s.d2s[0].bb]));
    PushedPorts(s, k);
  }

  lemma {:induction false} SameStream(input: seq<Block>, s: State, t: State)
    requires StreamInv(input, s)
    requires t.committed == s.committed && t.que == s.que && t.cache == s.cache && t.deleted == s.deleted
    ensures StreamInv(input, t)
  {
    hide Ordered, Without;
  }

  lemma {:induction false} SameFlight(s: State, t: State)
    requires FlightInv(s)
    requires t.que == s.que && t.disp == s.disp && t.win == s.win && t.eu == s.eu && t.mem == s.mem && t.lq == s.lq && t.done == s.done
    ensures FlightInv(t)
  {
    hide All, AllSet;
  }

  lemma {:induction false} RobTail(s: State, k: nat)
    requires TableInv(s) && Ordered(s.que) && s.d2s != []
    requires k < |s.que| && s.d2s[0].bb == s.que[k] && (|s.rob| == k || |s.rob| == k + 1)
    ensures s.rob != [] ==> s.d2s[0].bb.id >= s.rob[|s.rob| - 1].id
    ensures NewToRob(s) <==> |s.rob| == k
    ensures |s.rob| == k + 1 ==> s.rob[k] == s.que[k]
    ensures TableInv(PushRob(s))
  {
    assert s.rob == s.que[..|s.rob|];
    assert s.que[..k + 1] == s.que[..k] + [s.que[k]];
    assert s.rob != [] ==> s.rob[|s.rob| - 1] == s.que[|s.rob| - 1];
  }

  lemma {:induction false} PushedPorts(s: State, k: nat)
    requires PortInv(s) && s.d2s != [] && k < |s.que| && |s.rob| == k && Start(s.que, k) == s.disp
    ensures PortInv(s.(rob := s.rob + [s.d2s[0].bb]))
  {
    hide Start;
  }

  /** Sequence numbers in flight are before the next position. */
  lemma {:induction false} NotYetInFlight(s: State, xs: set<Ins>)
    requires Ordered(s.que) && s.disp < |All(s.que)| && xs <= AllSet(s.que, s.disp)
    ensures All(s.que)[s.disp] !in xs
    ensures AllSet(s.que, s.disp + 1) == AllSet(s.que, s.disp) + {All(s.que)[s.disp]}
  {
    forall p | 0 <= p < s.disp ensures All(s.que)[p] != All(s.que)[s.disp] {
      IdsAscend(s.que, p, s.disp);
    }
  }

  lemma {:induction false} DispatchFlight(s: State, isLoad: bool)
    requires Ordered(s.que) && FlightInv(s) && s.disp < |All(s.que)| && s.d2s != [] && s.d2s[0] == All(s.que)[s.disp]
    ensures FlightInv(DispatchOne(s, isLoad))
  {
    NotYetInFlight(s, s.win + s.eu + s.mem + s.lq + s.done);
    hide AllSet, All, Ordered;
  }

  lemma {:induction false} DispatchPorts(s: State, isLoad: bool, k: nat)
    requires PortInv(s) && s.d2s != [] && s.disp < s.lim && k < |s.que| && |s.rob| == k + 1
    requires s.disp < Start(s.que, k) + s.que[k].size
    ensures PortInv(DispatchOne(s, isLoad))
  {
    var t := DispatchOne(s, isLoad);
    var rest := All(s.que)[s.disp..s.lim];
    assert t.d2s + t.f2d == (s.d2s + s.f2d)[1..] == rest[1..];
    assert rest[1..] == All(s.que)[t.disp..t.lim];
    BlockAt(s.que, k);
    forall j | k < j < |s.que| ensures Start(s.que, j) >= t.disp { StartMono(s.que, k + 1, j); }
    hide Start, All;
  }

  lemma {:induction false} DispatchKeepsCore(input: seq<Block>, s: State, isLoad: bool)
    requires Core(input, s) && s.d2s != [] && s.rob != [] && s.rob[|s.rob| - 1] == s.d2s[0].bb
    ensures Core(input, DispatchOne(s, isLoad))
  {
    var k := NextToDispatch(input, s);
    QueueOrdered(input, s);
    RobTail(s, k);
    SameStream(input, s, DispatchOne(s, isLoad));
    hide StreamInv;
    DispatchPorts(s, isLoad, k);
    DispatchFlight(s, isLoad);
    hide Ordered, All, Start, PortInv, FlightInv;
  }

  // ----- Decode -----

  ghost function DecodeOne(s: State): State
    requires s.f2d != []
  {
    s.(f2d := s.f2d[1..], d2s := s.d2s + [s.f2d[0]])
  }

  lemma {:induction false} DecodeKeepsCore(input: seq<Block>, s: State)
    requires Core(input, s) && s.f2d != []
    ensures Core(input, DecodeOne(s))
  {
    assert s.d2s + [s.f2d[0]] + s.f2d[1..] == s.d2s + s.f2d;
  }

  // ----- Fetch -----

  const BB_NEAR_EMPTY_SIZE := 50

  /** isGoToFrontend. */
  ghost predicate GoToFrontend(s: State, running: bool) {
    if running then |s.cache| <= BB_NEAR_EMPTY_SIZE else s.cache == [] && s.que == [] && s.rob == []
  }

  /** The assertion of setDoneFetch would fail. */
  ghost predicate DoneTwice(s: State) {
    s.current.Some? && s.current.value.id in s.st && s.st[s.current.value.id].doneFetch
  }

  ghost function SetDone(s: State): State {
    if s.current.Some? && s.current.value.id in s.st
    then s.(st := s.st[s.current.value.id := s.st[s.current.value.id].(doneFetch := true)])
    else s
  }

  /** Take the next block of the cache and queue it. */
  ghost function PopCache(s: State): State
    requires s.cache != []
  {
    s.(current := Some(s.cache[0]), que := s.que + [s.cache[0]], cache := s.cache[1..])
  }

  ghost function FetchOne(s: State): State
    requires s.current.Some? && s.current.value.id in s.st && 0 < s.st[s.current.value.id].wait <= s.current.value.size
  {
    var b := s.current.value;
    var w := s.st[b.id].wait;
    s.(f2d := s.f2d + [Ins(b.head + (b.size - w), b)], lim := s.lim + 1, st := s.st[b.id := s.st[b.id].(wait := w - 1)])
  }

  /** updateBBfetchState. */
  ghost function Update(s: State): State {
    if s.current.Some? && s.current.value.id in s.st then s.(inProgress := s.st[s.current.value.id].wait > 0) else s
  }

  /** The current block is the youngest queued and the ports end where it was left. */
  ghost predicate Fetching(s: State) {
    && s.que != [] && s.current == Some(s.que[|s.que| - 1]) && s.que[|s.que| - 1].id in s.st
    && s.st[s.que[|s.que| - 1].id].wait <= s.que[|s.que| - 1].size && !s.st[s.que[|s.que| - 1].id].doneFetch
    && s.lim + s.st[s.que[|s.que| - 1].id].wait == |All(s.que)|
  }

  /** What lets fetch take a new block. */
  ghost predicate FetchIdle(s: State) {
    && !s.inProgress && s.lim == |All(s.que)|
    && (forall k :: 0 <= k < |s.que| ==> s.que[k].id in s.st && s.st[s.que[k].id].wait == 0 && s.st[s.que[k].id].doneFetch)
  }

  lemma {:induction false} SetDoneKeeps(input: seq<Block>, s: State)
    requires Core(input, s) && FetchInv(s) && !s.inProgress && !DoneTwice(s)
    ensures Core(input, SetDone(s)) && FetchInv(SetDone(s)) && FetchIdle(SetDone(s))
  {
    QueueOrdered(input, s);
    if s.current == None {
      assert All(s.que) == [];
    } else {
      assert s.current.value in s.que;
    }
    hide StreamInv, PortInv, FlightInv, Ordered;
  }

  lemma {:induction false} PopStream(input: seq<Block>, s: State)
    requires StreamInv(input, s) && s.cache != []
    ensures StreamInv(input, PopCache(s))
  {
    assert s.cache == [s.cache[0]] + s.cache[1..];
    assert s.committed + (s.que + [s.cache[0]]) + s.cache[1..] == s.committed + s.que + s.cache;
    hide Without, Ordered;
  }

  lemma {:induction false} PopPorts(s: State)
    requires PortInv(s) && FlightInv(s) && s.cache != [] && s.rob <= s.que
    ensures PortInv(PopCache(s)) && FlightInv(PopCache(s))
    ensures |All(PopCache(s).que)| == |All(s.que)| + s.cache[0].size
  {
    var t := PopCache(s);
    AllConcat(s.que, [s.cache[0]]);
    AllOne(s.cache[0]);
    assert All(t.que) == All(s.que) + InsOf(s.cache[0]);
    assert (All(s.que) + InsOf(s.cache[0]))[s.disp..s.lim] == All(s.que)[s.disp..s.lim];
    forall k | 0 <= k < |s.que| ensures Start(t.que, k) == Start(s.que, k) { assert t.que[..k] == s.que[..k]; }
    assert t.que[..|s.que|] == s.que;
    SamePrefix(s.que, t.que, s.disp);
  }

  lemma {:induction false} SamePrefix(s: seq<Block>, t: seq<Block>, n: nat)
    requires n <= |All(s)| && All(s) <= All(t)
    ensures AllSet(s, n) == AllSet(t, n)
  {
    forall x | x in AllSet(s, n) ensures x in AllSet(t, n) {
      var p :| 0 <= p < n && All(s)[p] == x;
      assert All(t)[p] == x;
    }
    forall x | x in AllSet(t, n) ensures x in AllSet(s, n) {
      var p :| 0 <= p < n && All(t)[p] == x;
      assert All(s)[p] == x;
    }
  }

  lemma {:induction false} PopCacheKeeps(input: seq<Block>, s: State)
    requires Core(input, s) && FetchIdle(s) && s.cache != []
    ensures Core(input, PopCache(s)) && Fetching(PopCache(s)) && PopCache(s).st[s.cache[0].id] == Fresh(s.cache[0])
    ensures s.cache[0].size > 0
  {
    PopStream(input, s);
    PopPorts(s);
    QueueOrdered(input, s);
    assert s.cache[0] in s.cache;
    assert (s.que + s.cache)[|s.que|] == s.cache[0];
    hide StreamInv, PortInv, FlightInv, All;
  }

  /** The fetched instruction is the one at the end of the ports. */
  lemma {:induction false} FetchOnePorts(s: State)
    requires PortInv(s) && Fetching(s) && s.st[s.current.value.id].wait > 0
    ensures PortInv(FetchOne(s))
  {
    var t := FetchOne(s);
    var n := |s.que| - 1;
    var b := s.que[n];
    BlockAt(s.que, n);
    assert s.que[..n + 1] == s.que;
    var x := t.f2d[|s.f2d|];
    assert x == All(s.que)[s.lim];
    assert All(s.que)[s.disp..s.lim + 1] == All(s.que)[s.disp..s.lim] + [x];
    assert t.d2s + t.f2d == (s.d2s + s.f2d) + [x];
  }

  lemma {:induction false} FetchOneKeeps(input: seq<Block>, s: State)
    requires Core(input, s) && Fetching(s) && s.st[s.current.value.id].wait > 0
    ensures Core(input, FetchOne(s)) && Fetching(FetchOne(s))
  {
    QueueOrdered(input, s);
    FetchOnePorts(s);
    assert s.current.value in s.que;
    hide StreamInv, PortInv, Ordered, All;
  }

  lemma {:induction false} UpdateKeeps(input: seq<Block>, s: State)
    requires Core(input, s) && (Fetching(s) || FetchInv(s))
    ensures Core(input, Update(s)) && FetchInv(Update(s))
    ensures Fetching(s) ==> Fetching(Update(s))
  {
    hide Ordered, Without, All, Start, AllSet;
  }
}
