/** Each step of the block protocol keeps its invariant. */
module ProtocolSteps {
  import opened Collections
  import opened ProtocolSpec

  // ----- Facts that several steps need -----

  lemma {:induction false} QueueOrdered(input: seq<Block>, s: State)
    requires StreamInv(input, s)
    ensures Ordered(s.que) && Ordered(s.que + s.cache)
    ensures forall b :: b in s.que || b in s.cache ==> b in input
    ensures forall b, c :: b in s.que && c in s.cache ==> b.id != c.id
  {
    WithoutOrdered(input, s.deleted);
    var all := s.committed + s.que + s.cache;
    var n := |s.committed|;
    var pending := s.que + s.cache;
    assert all == s.committed + pending;
    forall i | 0 <= i < |pending| ensures pending[i].size > 0 && pending[i].head > 0 { assert all[n + i] == pending[i]; }
    forall i, j | 0 <= i < j < |pending| ensures pending[i].id < pending[j].id && pending[i].head + pending[i].size <= pending[j].head {
      assert all[n + i] == pending[i] && all[n + j] == pending[j];
    }
    forall i | 0 <= i < |s.que| ensures pending[i] == s.que[i] { }
    PrefixOrdered(s.que, s.cache);
    forall b | b in s.que || b in s.cache ensures b in input { assert b in all; }
  }

  lemma {:induction false} PrefixOrdered(s: seq<Block>, t: seq<Block>)
    requires Ordered(s + t)
    ensures Ordered(s) && forall b, c :: b in s && c in t ==> b.id != c.id
  {
    forall i, j | 0 <= i < j < |s| ensures s[i].id < s[j].id && s[i].head + s[i].size <= s[j].head {
      assert (s + t)[i] == s[i] && (s + t)[j] == s[j];
    }
    forall i | 0 <= i < |s| ensures s[i].size > 0 && s[i].head > 0 { assert (s + t)[i] == s[i]; }
    forall b, c | b in s && c in t ensures b.id != c.id {
      var i :| 0 <= i < |s| && s[i] == b;
      var j :| 0 <= j < |t| && t[j] == c;
      assert (s + t)[i] == b && (s + t)[|s| + j] == c;
    }
  }

  /** A dispatched instruction belongs to a block in bbROB. */
  lemma {:induction false} DispatchedInRob(s: State, x: Ins)
    requires TableInv(s) && PortInv(s) && x in AllSet(s.que, s.disp)
    ensures x.bb in s.rob && x.bb.head <= x.id < x.bb.head + x.bb.size
  {
    var p :| 0 <= p < s.disp && All(s.que)[p] == x;
    var k := BlockOfPos(s.que, p);
    assert k < |s.rob|;
    assert s.rob[k] == s.que[k];
  }

  // ----- Commit -----

  /** The checks of commitImpl on the front block. */
  ghost predicate FrontComplete(s: State) {
    && s.rob != [] && s.que != [] && s.rob[0].id in s.st
    && !s.rob[0].wrongPath && !s.st[s.rob[0].id].memViolation
    && s.st[s.rob[0].id].wait == 0
    && forall x :: x in InsOf(s.rob[0]) ==> x in s.done
  }

  /** The checks and the assertion that the block's fetch is done. */
  ghost predicate CanCommit(s: State) {
    FrontComplete(s) && s.st[s.rob[0].id].doneFetch
  }

  /** The tables agree on the front block. */
  lemma {:induction false} FrontOfBoth(input: seq<Block>, s: State)
    requires Core(input, s) && s.rob != []
    ensures s.que != [] && s.rob[0] == s.que[0] && s.rob[0].id in s.st
  {
    assert s.rob[0] == s.que[0];
  }

  function InsSet(b: Block): set<Ins> {
    set x | x in InsOf(b)
  }

  ghost function CommitBlock(s: State): State
    requires s.que != [] && s.rob != []
  {
    var b := s.que[0];
    s.(committed := s.committed + [b], que := s.que[1..], rob := s.rob[1..],
       done := s.done - InsSet(b), lq := s.lq - InsSet(b), disp := Minus(s.disp, b.size), lim := Minus(s.lim, b.size))
  }

  function Minus(n: nat, k: nat): nat {
    if k <= n then n - k else 0
  }

  /** All instructions of the front block are dispatched when all are complete. */
  lemma {:induction false} CommitDispatched(input: seq<Block>, s: State)
    requires Core(input, s) && CanCommit(s)
    ensures s.que[0] == s.rob[0] && 0 < s.que[0].size <= s.disp
    ensures All(s.que) == InsOf(s.que[0]) + All(s.que[1..])
  {
    QueueOrdered(input, s);
    assert s.rob[0] == s.que[0];
    var b := s.que[0];
    assert s.que == [b] + s.que[1..];
    AllConcat([b], s.que[1..]);
    AllOne(b);
    assert InsOf(b)[b.size - 1] in s.done;
    assert InsOf(b)[b.size - 1] in AllSet(s.que, s.disp);
    hide Core, CanCommit;
    LastDispatched(s, b.size - 1);
  }

  lemma {:induction false} LastDispatched(s: State, k: nat)
    requires Ordered(s.que) && s.disp <= |All(s.que)| && k < |All(s.que)| && All(s.que)[k] in AllSet(s.que, s.disp)
    ensures k < s.disp
  {
    var p :| 0 <= p < s.disp && All(s.que)[p] == All(s.que)[k];
    PosUnique(s.que, p, k);
  }

  lemma {:induction false} CommitFlight(s: State, rest: seq<Block>, b: Block, xs: set<Ins>)
    requires All(s.que) == InsOf(b) + All(rest) && b.size <= s.disp <= |All(s.que)| && xs <= AllSet(s.que, s.disp)
    requires xs !! InsSet(b)
    ensures xs <= AllSet(rest, s.disp - b.size)
  {
    assert forall k :: 0 <= k < b.size ==> InsOf(b)[k] in InsSet(b);
    forall x | x in xs ensures x in AllSet(rest, s.disp - b.size) {
      var p :| 0 <= p < s.disp && All(s.que)[p] == x;
      assert p >= b.size;
      assert All(rest)[p - b.size] == x;
    }
  }

  lemma {:induction false} CommitPorts(s: State, b: Block, rest: seq<Block>)
    requires PortInv(s) && s.que == [b] + rest && s.rob != [] && 0 < b.size <= s.disp
    ensures PortInv(CommitBlock(s))
  {
    var t := CommitBlock(s);
    AllConcat([b], rest);
    AllOne(b);
    assert t.que == rest && All(s.que) == InsOf(b) + All(rest);
    assert All(s.que)[s.disp..s.lim] == All(rest)[t.disp..t.lim];
    forall k | 0 <= k < |rest| ensures Start(s.que, k + 1) == b.size + Start(rest, k) {
      assert s.que[..k + 1] == [b] + rest[..k];
      AllConcat([b], rest[..k]);
    }
  }

  lemma {:induction false} CommitTables(s: State)
    requires TableInv(s) && CanCommit(s) && s.que[0].size <= s.disp <= s.lim
    ensures TableInv(CommitBlock(s))
  {
    var t := CommitBlock(s);
    forall k | 0 <= k < |t.que| - 1 ensures t.st[t.que[k].id].wait == 0 && t.st[t.que[k].id].doneFetch {
      assert t.que[k] == s.que[k + 1];
    }
  }

  lemma {:induction false} CommitStream(input: seq<Block>, s: State)
    requires StreamInv(input, s) && CanCommit(s) && s.que[0] == s.rob[0] && s.que[0].size <= s.disp <= s.lim
    ensures StreamInv(input, CommitBlock(s))
  {
    assert s.que == [s.que[0]] + s.que[1..];
    assert s.committed + [s.que[0]] + s.que[1..] + s.cache == s.committed + s.que + s.cache;
  }

  lemma {:induction false} CommitInFlight(s: State, b: Block, rest: seq<Block>)
    requires FlightInv(s) && s.que == [b] + rest && s.rob != [] && 0 < b.size <= s.disp <= s.lim
    requires All(s.que) == InsOf(b) + All(rest) && InsSet(b) <= s.done
    ensures FlightInv(CommitBlock(s))
  {
    assert s.que[1..] == rest;
    CommitFlight(s, rest, b, s.win + s.eu + s.mem);
    CommitFlight(s, rest, b, s.lq - InsSet(b));
    CommitFlight(s, rest, b, s.done - InsSet(b));
  }

  lemma {:induction false} CommitKeepsCore(input: seq<Block>, s: State)
    requires Core(input, s) && CanCommit(s)
    ensures s.que[0].size <= s.disp <= s.lim && Core(input, CommitBlock(s))
  {
    CommitDispatched(input, s);
    var b, rest := s.que[0], s.que[1..];
    assert s.que == [b] + rest && InsSet(b) <= s.done;
    CommitPorts(s, b, rest);
    CommitTables(s);
    CommitStream(input, s);
    CommitInFlight(s, b, rest);
    hide StreamInv, TableInv, PortInv, FlightInv;
  }

  lemma {:induction false} CommitKeepsInv(input: seq<Block>, s: State)
    requires Inv(input, s) && CanCommit(s) && (s.pipe == Normal || s.pipe == Drain || s.pipe == SquashRob)
    ensures s.que[0].size <= s.disp <= s.lim && Inv(input, CommitBlock(s))
  {
    CommitKeepsCore(input, s);
    CommitDispatched(input, s);
    var t := CommitBlock(s);
    if s.pipe == Drain {
      var b :| Offender(s, b);
      var k :| 0 <= k < |s.rob| && s.rob[k] == b;
      assert k > 0 && t.rob[k - 1] == b;
      assert Offender(t, b);
    } else if s.pipe == Normal {
      assert |s.que| > 1 ==> t.que[|t.que| - 1] == s.que[|s.que| - 1];
    }
  }

  // ----- Memory -----

  ghost function LoadDone(s: State, x: Ins): State {
    s.(mem := s.mem - {x}, done := s.done + {x})
  }

  function Below(xs: set<Ins>, n: nat): set<Ins> {
    set x | x in xs && x.id < n
  }

  ghost function LsqSquash(s: State): State {
    s.(mem := Below(s.mem, s.sn), lq := Below(s.lq, s.sn))
  }

  lemma {:induction false} LoadDoneKeepsInv(input: seq<Block>, s: State, x: Ins)
    requires Inv(input, s) && x in s.mem
    ensures Inv(input, LoadDone(s, x))
  {
    SameTables(s, LoadDone(s, x));
  }

  /** Steps that leave the tables, flags and squash record alone keep the block to blame. */
  lemma {:induction false} SameTables(s: State, t: State)
    requires t.rob == s.rob && t.st == s.st && t.badIns == s.badIns && t.kind == s.kind && t.sn == s.sn
    ensures InEpisode(s) ==> InEpisode(t)
  {
    if InEpisode(s) {
      var b :| Offender(s, b);
      assert Offender(t, b);
    }
  }

  lemma {:induction false} LsqSquashKeepsInv(input: seq<Block>, s: State)
    requires Inv(input, s) && s.pipe == Flush
    ensures Inv(input, LsqSquash(s)) && AllBelow(LsqSquash(s).mem, s.sn) && AllBelow(LsqSquash(s).lq, s.sn)
  {
    SameTables(s, LsqSquash(s));
  }

  // ----- Completion -----

  /** What completion of `x` changes besides the squash record. A store may reveal that the load `v` read
      too early. */
  ghost function Completed(s: State, x: Ins, isLoad: bool, v: Option<Ins>): State {
    if isLoad then s.(eu := s.eu - {x}, mem := s.mem + {x})
    else if v.Some? && v.value.bb.id in s.st then
      s.(eu := s.eu - {x}, done := s.done + {x},
         st := s.st[v.value.bb.id := s.st[v.value.bb.id].(memViolation := true)])
    else s.(eu := s.eu - {x}, done := s.done + {x})
  }

  /** The detection at the end of a completion: the older of the known and the new violation counts. */
  ghost function Detected(s: State, x: Ins, isLoad: bool, v: Option<Ins>): State {
    if !isLoad && v.Some? && (v.value.bb.head < s.badIns || s.badIns == 0) then s.(badIns := v.value.id, kind := MemMispred)
    else if x.bb.wrongPath && (x.bb.head < s.badIns || s.badIns == 0) then s.(badIns := x.id, kind := BpMispred)
    else s
  }

  /** A store `x` may find the load `v` violated: it is younger and complete, and not in front of the load queue,
      whose first entry the search leaves out (lsq.cpp). */
  predicate MayViolate(lq: set<Ins>, done: set<Ins>, x: Ins, v: Ins) {
    x !in lq && v in lq && v in done && v.id > x.id && exists u :: u in lq && u.id < v.id
  }

  /** Completion needs `x` executing. */
  ghost predicate MayComplete(s: State, x: Ins, v: Option<Ins>) {
    x in s.eu && (v.Some? ==> MayViolate(s.lq, s.done, x, v.value))
  }

  lemma {:induction false} CompletedKeepsCore(input: seq<Block>, s: State, x: Ins, isLoad: bool, v: Option<Ins>)
    requires Core(input, s) && MayComplete(s, x, v)
    ensures Core(input, Completed(s, x, isLoad, v))
  {
    if v.Some? { LqInRob(s, v.value); }
    CompletedTables(input, s, x, isLoad, v);
    hide Ordered, Without, All, AllSet, Start, TableInv;
  }

  /** A violated block was dispatched, so its flag is not one of a pending block. */
  lemma {:induction false} CompletedTables(input: seq<Block>, s: State, x: Ins, isLoad: bool, v: Option<Ins>)
    requires StreamInv(input, s) && TableInv(s) && (v.Some? ==> v.value.bb in s.que)
    ensures TableInv(Completed(s, x, isLoad, v))
  {
    QueueOrdered(input, s);
    hide StreamInv, Ordered;
  }

  lemma {:induction false} LqInRob(s: State, v: Ins)
    requires TableInv(s) && PortInv(s) && FlightInv(s) && v in s.lq
    ensures v.bb in s.rob && v.bb in s.que && v.bb.id in s.st && v.bb.head <= v.id < v.bb.head + v.bb.size
  {
    DispatchedInRob(s, v);
  }

  lemma {:induction false} EuInRob(s: State, x: Ins)
    requires TableInv(s) && PortInv(s) && FlightInv(s) && x in s.eu
    ensures x.bb in s.rob && x.bb in s.que && x.bb.id in s.st && x.bb.head <= x.id < x.bb.head + x.bb.size
  {
    DispatchedInRob(s, x);
  }

  /** The block blamed so far, if any, is not younger than the one the squash number names. */
  ghost predicate BlameAt(s: State, o: Option<Block>) {
    match o
    case None => s.badIns == 0 && s.sn == 0
    case Some(b) => Blamed(s, b) && b.head > 0 && (s.sn > 0 ==> b.head <= s.sn)
  }

  /** Which block is blamed after a completion. */
  ghost function NextBlame(s: State, x: Ins, isLoad: bool, v: Option<Ins>, o: Option<Block>): Option<Block> {
    if !isLoad && v.Some? && (v.value.bb.head < s.badIns || s.badIns == 0) then Some(v.value.bb)
    else if x.bb.wrongPath && (x.bb.head < s.badIns || s.badIns == 0) then Some(x.bb)
    else o
  }

  /** In program order, a block that starts before another one ends is not younger. */
  lemma {:induction false} NotYounger(s: seq<Block>, c: Block, b: Block)
    requires Ordered(s) && c in s && b in s && c.head < b.head + b.size
    ensures c.head <= b.head && c.head > 0
  {
    var i :| 0 <= i < |s| && s[i] == c;
    var j :| 0 <= j < |s| && s[j] == b;
  }

  /** `c` could be blamed: it is in bbROB, and if it starts before the bad instruction it is not younger
      than the block blamed so far. */
  ghost predicate MayBlame(s: State, c: Block, o: Option<Block>) {
    && c in s.rob && c.id in s.st && c.head > 0
    && (o.Some? && c.head < s.badIns ==> c.head <= o.value.head)
  }

  lemma {:induction false} InsMayBlame(input: seq<Block>, s: State, x: Ins, o: Option<Block>)
    requires Core(input, s) && x in s.eu + s.lq && BlameAt(s, o)
    ensures MayBlame(s, x.bb, o) && x.bb.head <= x.id < x.bb.head + x.bb.size
  {
    if x in s.eu { EuInRob(s, x); } else { LqInRob(s, x); }
    QueueOrdered(input, s);
    NotYounger(s.que, x.bb, x.bb);
    if o.Some? && x.bb.head < s.badIns {
      assert o.value in s.que;
      NotYounger(s.que, x.bb, o.value);
    }
  }

  lemma {:induction false} BlameStep(s: State, x: Ins, isLoad: bool, v: Option<Ins>, o: Option<Block>)
    requires BlameAt(s, o) && MayBlame(s, x.bb, o) && x.bb.head <= x.id < x.bb.head + x.bb.size
    requires v.Some? ==> MayBlame(s, v.value.bb, o) && v.value.bb.head <= v.value.id < v.value.bb.head + v.value.bb.size
    ensures BlameAt(Detected(Completed(s, x, isLoad, v), x, isLoad, v), NextBlame(s, x, isLoad, v, o))
  {
  }

  lemma {:induction false} DetectedBlames(input: seq<Block>, s: State, x: Ins, isLoad: bool, v: Option<Ins>, o: Option<Block>)
    requires Core(input, s) && MayComplete(s, x, v) && BlameAt(s, o)
    ensures BlameAt(Detected(Completed(s, x, isLoad, v), x, isLoad, v), NextBlame(s, x, isLoad, v, o))
  {
    hide Core, BlameAt, MayBlame;
    InsMayBlame(input, s, x, o);
    if v.Some? { InsMayBlame(input, s, v.value, o); }
    BlameStep(s, x, isLoad, v, o);
  }

  /** setSquashSN lowers the number or sets it for the first time. */
  function SetSquashSN(sn0: nat, sn: nat): nat {
    if sn0 == 0 || sn < sn0 then sn else sn0
  }

  /** After the completions of a cycle: `bad` is the block of the last violation found in it. */
  lemma {:induction false} SettledSN(s: State, b: Block)
    requires BlameAt(s, Some(b))
    ensures Offender(s.(sn := SetSquashSN(s.sn, b.head)), b)
  {
    assert Blamed(s.(sn := SetSquashSN(s.sn, b.head)), b);
  }

  // ----- Control -----

  ghost function Issue(s: State, moved: set<Ins>): State {
    s.(win := s.win - moved, eu := s.eu + (moved * s.win))
  }

  /** Moving instructions from the windows to the execution units. */
  lemma {:induction false} IssueKeepsCore(input: seq<Block>, s: State, moved: set<Ins>)
    requires Core(input, s)
    ensures Core(input, Issue(s, moved))
    ensures InEpisode(s) ==> InEpisode(Issue(s, moved))
  {
    SameTables(s, Issue(s, moved));
  }

  /** The offending block is at the front of both tables once everything older has committed. */
  lemma {:induction false} OffenderAtFront(input: seq<Block>, s: State)
    requires Core(input, s) && InEpisode(s)
    ensures s.rob != [] && s.que != [] && s.rob[0] == s.que[0]
    ensures s.rob[0].head >= s.sn ==> Offender(s, s.rob[0]) && s.rob[0].head == s.sn
  {
    var b :| Offender(s, b);
    QueueOrdered(input, s);
    var k :| 0 <= k < |s.rob| && s.rob[k] == b;
    assert s.rob[0] == s.que[0] && s.rob[k] == s.que[k];
  }

  /** Nothing of what is queued is older than the front block. */
  lemma {:induction false} FrontIsOldest(s: State, xs: set<Ins>, n: nat)
    requires Ordered(s.que) && s.que != [] && n <= |All(s.que)| && xs <= AllSet(s.que, n)
    ensures AllBelow(xs, s.que[0].head) ==> xs == {}
  {
    forall x | x in xs ensures x.id >= s.que[0].head {
      var p :| 0 <= p < n && All(s.que)[p] == x;
      var k := BlockOfPos(s.que, p);
    }
  }

  // ----- Squash -----

  /** How many leading blocks are on the wrong path. */
  ghost function WrongRun(s: seq<Block>): (n: nat)
    ensures n <= |s| && forall i :: 0 <= i < n ==> s[i].wrongPath
    ensures n < |s| ==> !s[n].wrongPath
  {
    if s == [] || !s[0].wrongPath then 0 else 1 + WrongRun(s[1..])
  }

  /** resetStates on some blocks. */
  ghost function ResetAll(st: map<nat, BlockState>, s: seq<Block>): (r: map<nat, BlockState>)
    ensures r.Keys == st.Keys + BlockIds(s)
  {
    if s == [] then st else ResetAll(st, s[1..])[s[0].id := Fresh(s[0])]
  }

  lemma {:induction false} ResetValue(st: map<nat, BlockState>, s: seq<Block>, k: nat)
    requires k in ResetAll(st, s)
    ensures k !in BlockIds(s) ==> k in st && ResetAll(st, s)[k] == st[k]
    ensures forall b :: b in s && b.id == k && (forall c :: c in s && c.id == k ==> c == b) ==> ResetAll(st, s)[k] == Fresh(b)
  {
    if s != [] {
      if k != s[0].id {
        ResetValue(st, s[1..], k);
        assert s == [s[0]] + s[1..];
      } else {
        assert s[0] in s;
      }
    }
  }

  /** bpMispredSquash with the offending block in front: the wrong-path blocks that lead the queue are
      deleted, the others are pushed back in order. */
  ghost function BpSquash(s: State): State {
    var n := WrongRun(s.que);
    s.(cache := s.que[n..] + s.cache, que := [], rob := [], deleted := s.deleted + BlockIds(s.que[..n]),
       st := ResetAll(s.st, s.que[n..]), done := {}, disp := 0, lim := 0)
  }

  /** memMispredSquash: everything is pushed back in order. */
  ghost function MemSquash(s: State): State {
    s.(cache := s.que + s.cache, que := [], rob := [], st := ResetAll(s.st, s.que), done := {}, disp := 0, lim := 0)
  }

  /** What holds when the offending block has reached the front. */
  ghost predicate ReadyToSquash(input: seq<Block>, s: State) {
    && Core(input, s) && s.que != [] && s.rob != [] && Offender(s, s.rob[0]) && s.rob[0] == s.que[0]
    && s.win == {} && s.eu == {} && s.mem == {} && s.lq == {} && s.f2d == [] && s.d2s == []
    && s.current == None && !s.inProgress && s.pipe == SquashRob
  }

  /** A block of the input is known by its id. */
  lemma {:induction false} SameId(input: seq<Block>, b: Block, c: Block)
    requires Ordered(input) && b in input && c in input && b.id == c.id
    ensures b == c
  {
    var i :| 0 <= i < |input| && input[i] == b;
    var j :| 0 <= j < |input| && input[j] == c;
  }

  lemma {:induction false} PushedBackFresh(input: seq<Block>, s: State, back: seq<Block>)
    requires StreamInv(input, s) && TableInv(s) && forall b :: b in back ==> b in s.que
    ensures forall b :: b in back + s.cache ==> b.id in ResetAll(s.st, back) && ResetAll(s.st, back)[b.id] == Fresh(b)
  {
    QueueOrdered(input, s);
    forall b | b in back + s.cache ensures b.id in ResetAll(s.st, back) && ResetAll(s.st, back)[b.id] == Fresh(b) {
      if b in back {
        var k :| 0 <= k < |back| && back[k] == b;
        assert b.id in BlockIds(back);
        forall c | c in back && c.id == b.id ensures c == b { SameId(input, b, c); }
      } else {
        assert b in s.cache;
        forall k | 0 <= k < |back| ensures back[k].id != b.id { assert back[k] in s.que; }
      }
      ResetValue(s.st, back, b.id);
    }
  }

  lemma {:induction false} DeletedAreWrong(input: seq<Block>, s: State, mid: seq<Block>)
    requires Ordered(input) && forall b :: b in mid ==> b in input && b.wrongPath
    ensures BlockIds(mid) <= BlockIds(input)
    ensures forall i :: 0 <= i < |input| && input[i].id in BlockIds(mid) ==> input[i].wrongPath
  {
    forall i | 0 <= i < |input| && input[i].id in BlockIds(mid) ensures input[i].wrongPath {
      var k :| 0 <= k < |mid| && mid[k].id == input[i].id;
      assert mid[k] in mid && input[i] in input;
      SameId(input, input[i], mid[k]);
    }
    forall d | d in BlockIds(mid) ensures d in BlockIds(input) {
      var k :| 0 <= k < |mid| && mid[k].id == d;
      assert mid[k] in mid;
      var i :| 0 <= i < |input| && input[i] == mid[k];
    }
  }

  lemma {:induction false} BpDeletes(input: seq<Block>, s: State, n: nat)
    requires StreamInv(input, s) && n <= |s.que|
    ensures s.committed + [] + (s.que[n..] + s.cache) == Without(input, s.deleted + BlockIds(s.que[..n]))
  {
    hide Ordered, Without, BlockIds;
    var mid, post := s.que[..n], s.que[n..] + s.cache;
    assert s.committed + mid + post == s.committed + s.que + s.cache;
    DeleteStretch(input, s.deleted, s.committed, mid, post);
    assert s.committed + [] + post == s.committed + post;
  }

  lemma {:induction false} BpSquashStream(input: seq<Block>, s: State)
    requires StreamInv(input, s)
    ensures StreamInv(input, BpSquash(s))
  {
    var n := WrongRun(s.que);
    var mid := s.que[..n];
    QueueOrdered(input, s);
    forall b | b in mid ensures b in input && b.wrongPath { assert b in s.que; }
    DeletedAreWrong(input, s, mid);
    BpDeletes(input, s, n);
    hide Ordered, Without, BlockIds;
    assert s.committed + [] + (s.que[n..] + s.cache) == s.committed + [] + s.que[n..] + s.cache;
  }

  // The loops of the squash take blocks from the back of bbQUE.

  /** Completed instructions belong to queued blocks. */
  ghost predicate DoneIn(s: State) {
    forall x :: x in s.done ==> x.bb in s.que && x in InsSet(x.bb)
  }

  lemma {:induction false} QueuedDone(s: State)
    requires FlightInv(s)
    ensures DoneIn(s)
  {
    forall x | x in s.done ensures x.bb in s.que && x in InsSet(x.bb) {
      assert x in AllSet(s.que, s.disp);
      MemberBlock(s.que, x);
      assert InsOf(x.bb)[x.id - x.bb.head] == x;
    }
  }

  /** The blocks of `s` from position `i` were pushed back. */
  ghost predicate PushedBack(s: State, t: State, i: nat) {
    && i <= |s.que| && DoneIn(t)
    && t == s.(que := s.que[..i], cache := s.que[i..] + s.cache, st := ResetAll(s.st, s.que[i..]), done := t.done)
  }

  lemma {:induction false} PushedBackNone(s: State)
    requires DoneIn(s)
    ensures PushedBack(s, s, |s.que|)
  {
    assert s.que[..|s.que|] == s.que && s.que[|s.que|..] == [] && [] + s.cache == s.cache;
  }

  /** resetStates on the last block, and its move to the front of the cache. */
  ghost function PushBackLast(s: State): State
    requires s.que != []
  {
    var n := |s.que| - 1;
    s.(que := s.que[..n], cache := [s.que[n]] + s.cache, st := s.st[s.que[n].id := Fresh(s.que[n])], done := s.done - InsSet(s.que[n]))
  }

  lemma {:induction false} PushedBackOne(s: State, t: State, i: nat)
    requires PushedBack(s, t, i + 1)
    ensures PushedBack(s, PushBackLast(t), i)
  {
    var u := PushBackLast(t);
    assert s.que[i..] == [s.que[i]] + s.que[i + 1..] && t.que[i] == s.que[i] && t.que[..i] == s.que[..i];
    assert u.cache == s.que[i..] + s.cache;
    LastDone(t);
    hide DoneIn, InsSet;
  }

  lemma {:induction false} LastDone(t: State)
    requires DoneIn(t) && t.que != []
    ensures DoneIn(PushBackLast(t))
  {
    var n := |t.que| - 1;
    forall x | x in t.done - InsSet(t.que[n]) ensures x.bb in t.que[..n] {
      assert x.bb != t.que[n];
    }
  }

  /** delBB of the last block. */
  ghost function DeleteLast(s: State): State
    requires s.que != []
  {
    var n := |s.que| - 1;
    s.(que := s.que[..n], deleted := s.deleted + {s.que[n].id}, done := s.done - InsSet(s.que[n]))
  }

  /** The blocks of `s` from position `i` were deleted. */
  ghost predicate DeletedBack(s: State, t: State, i: nat) {
    && i <= |s.que| && DoneIn(t)
    && t == s.(que := s.que[..i], deleted := s.deleted + BlockIds(s.que[i..]), done := t.done)
  }

  lemma {:induction false} DeletedBackNone(s: State)
    requires DoneIn(s)
    ensures DeletedBack(s, s, |s.que|)
  {
    assert s.que[..|s.que|] == s.que && s.que[|s.que|..] == [];
    assert BlockIds([]) == {};
  }

  lemma {:induction false} DeletedBackOne(s: State, t: State, i: nat)
    requires DeletedBack(s, t, i + 1)
    ensures DeletedBack(s, DeleteLast(t), i)
  {
    assert t.que[i] == s.que[i] && t.que[..i] == s.que[..i];
    IdsOfTail(s.que, i);
    LastDone(t);
    hide DoneIn, InsSet, BlockIds;
  }

  lemma {:induction false} IdsOfTail(s: seq<Block>, i: nat)
    requires i < |s|
    ensures BlockIds(s[i..]) == BlockIds(s[i + 1..]) + {s[i].id}
  {
    var t, u := s[i..], s[i + 1..];
    forall d | d in BlockIds(t) ensures d in BlockIds(u) + {s[i].id} {
      var k :| 0 <= k < |t| && t[k].id == d;
      assert k > 0 ==> u[k - 1] == t[k];
    }
    forall d | d in BlockIds(u) + {s[i].id} ensures d in BlockIds(t) {
      assert t[0] == s[i];
      if d in BlockIds(u) {
        var k :| 0 <= k < |u| && u[k].id == d;
        assert t[k + 1] == u[k];
      }
    }
  }

  lemma {:induction false} WrongRunEnds(s: seq<Block>, n: nat)
    requires n <= |s| && (forall i :: 0 <= i < n ==> s[i].wrongPath) && (n < |s| ==> !s[n].wrongPath)
    ensures WrongRun(s) == n
  {
  }

  /** What the squash relies on. */
  lemma {:induction false} BeforeSquash(input: seq<Block>, s: State)
    requires ReadyToSquash(input, s)
    ensures Ordered(s.que) && s.que[0].head == s.sn && DoneIn(s)
    ensures forall b :: b in s.que ==> b.head >= s.sn && b.id in s.st
    ensures forall b :: b in s.rob ==> b.head >= s.sn
    ensures s.kind == BpMispred ==> s.que[0].wrongPath
  {
    QueueOrdered(input, s);
    QueuedDone(s);
    forall b | b in s.que ensures b.head >= s.sn {
      var k :| 0 <= k < |s.que| && s.que[k] == b;
    }
    forall b | b in s.rob ensures b in s.que { }
  }

  /** Nothing is complete any more when the queue is empty. */
  lemma {:induction false} NoneDone(s: State)
    requires DoneIn(s) && s.que == []
    ensures s.done == {}
  {
    assert forall x :: x in s.done ==> x.bb in s.que;
  }

  /** The two loops of bpMispredSquash together. */
  lemma {:induction false} BpLoops(s: State, t: State, u: State)
    requires s.que != [] && PushedBack(s.(rob := []), t, WrongRun(s.que)) && DeletedBack(t, u, 0)
    ensures u.(disp := 0, lim := 0) == BpSquash(s)
  {
    NoneDone(u);
    assert t.que[0..] == t.que;
    hide DoneIn, ResetAll, BlockIds, WrongRun;
  }

  lemma {:induction false} MemLoop(s: State, t: State)
    requires PushedBack(s.(rob := []), t, 0)
    ensures t.(disp := 0, lim := 0) == MemSquash(s)
  {
    NoneDone(t);
    assert s.que[0..] == s.que;
    hide DoneIn, ResetAll;
  }

  lemma {:induction false} SquashKeepsInv(input: seq<Block>, s: State)
    requires ReadyToSquash(input, s)
    ensures Inv(input, BpSquash(s)) && Inv(input, MemSquash(s))
  {
    BpSquashKeeps(input, s);
    MemSquashKeeps(input, s);
  }

  lemma {:induction false} BpSquashKeeps(input: seq<Block>, s: State)
    requires ReadyToSquash(input, s)
    ensures Inv(input, BpSquash(s))
  {
    BpSquashStream(input, s);
    PushedBackFresh(input, s, s.que[WrongRun(s.que)..]);
    EmptyQueue(BpSquash(s));
    hide StreamInv, PortInv, FlightInv, ResetAll, WrongRun;
  }

  lemma {:induction false} MemSquashKeeps(input: seq<Block>, s: State)
    requires ReadyToSquash(input, s)
    ensures Inv(input, MemSquash(s))
  {
    hide Without, Ordered, ResetAll, All, AllSet, Start;
    assert s.committed + [] + (s.que + s.cache) == s.committed + s.que + s.cache;
    PushedBackFresh(input, s, s.que);
    EmptyQueue(MemSquash(s));
  }

  lemma {:induction false} EmptyQueue(s: State)
    requires s.que == [] && s.rob == [] && s.disp == 0 && s.lim == 0 && s.d2s == [] && s.f2d == []
    requires s.win == {} && s.eu == {} && s.mem == {} && s.lq == {} && s.done == {}
    ensures PortInv(s) && FlightInv(s)
  {
    assert s.d2s + s.f2d == [];
  }
}
