/** The block commit and squash protocol as a state machine (commit.cpp, fetch.cpp, execution.cpp,
    schedulers.cpp, decode.cpp, memory.cpp, g_variable.h). */
module ProtocolSpec {
  import opened Collections

  /** A dynamic block with contiguous instruction ids from `head`. All its instructions are on the wrong
      path, or none is. */
  datatype Block = Block(id: nat, head: nat, size: nat, wrongPath: bool)

  /** An instruction with its block. */
  datatype Ins = Ins(id: nat, bb: Block)

  /** Fields of a block that change: instructions still to fetch and two flags. */
  datatype BlockState = BlockState(wait: nat, memViolation: bool, doneFetch: bool)

  datatype PipeState = Normal | WaitFlush | Flush | Drain | SquashRob

  datatype SquashType = NoMispred | BpMispred | MemMispred

  // ----- Block sequences -----

  ghost predicate Ordered(s: seq<Block>) {
    && (forall i :: 0 <= i < |s| ==> s[i].size > 0 && s[i].head > 0)
    && (forall i, j :: 0 <= i < j < |s| ==> s[i].id < s[j].id && s[i].head + s[i].size <= s[j].head)
  }

  /** The blocks whose ids are not in `del`, in order. */
  ghost function Without(s: seq<Block>, del: set<nat>): seq<Block> {
    if s == [] then []
    else if s[|s| - 1].id in del then Without(s[..|s| - 1], del)
    else Without(s[..|s| - 1], del) + [s[|s| - 1]]
  }

  ghost function BlockIds(s: seq<Block>): set<nat> {
    set i | 0 <= i < |s| :: s[i].id
  }

  lemma {:induction false} WithoutConcat(s: seq<Block>, t: seq<Block>, del: set<nat>)
    ensures Without(s + t, del) == Without(s, del) + Without(t, del)
    decreases |t|
  {
    if t == [] {
      assert s + t == s && Without(s, del) + [] == Without(s, del);
    } else {
      var n := |t| - 1;
      assert (s + t)[..|s + t| - 1] == s + t[..n] && (s + t)[|s + t| - 1] == t[n];
      WithoutConcat(s, t[..n], del);
    }
  }

  lemma {:induction false} WithoutTwice(s: seq<Block>, d: set<nat>, e: set<nat>)
    ensures Without(s, d + e) == Without(Without(s, d), e)
  {
    if s != [] {
      var n := |s| - 1;
      WithoutTwice(s[..n], d, e);
      if s[n].id !in d {
        var r := Without(s[..n], d);
        assert (r + [s[n]])[..|r|] == r;
      }
    }
  }

  lemma {:induction false} WithoutNone(s: seq<Block>, del: set<nat>)
    requires forall i :: 0 <= i < |s| ==> s[i].id !in del
    ensures Without(s, del) == s
  {
    if s != [] {
      WithoutNone(s[..|s| - 1], del);
      assert s == s[..|s| - 1] + [s[|s| - 1]];
    }
  }

  lemma {:induction false} WithoutAll(s: seq<Block>, del: set<nat>)
    requires forall i :: 0 <= i < |s| ==> s[i].id in del
    ensures Without(s, del) == []
  {
    if s != [] { WithoutAll(s[..|s| - 1], del); }
  }

  lemma {:induction false} WithoutOrdered(s: seq<Block>, del: set<nat>)
    requires Ordered(s)
    ensures Ordered(Without(s, del)) && forall b :: b in Without(s, del) ==> b in s
  {
    if s != [] {
      var n := |s| - 1;
      WithoutOrdered(s[..n], del);
      var r := Without(s[..n], del);
      forall i | 0 <= i < |r| ensures r[i].id < s[n].id && r[i].head + r[i].size <= s[n].head {
        assert r[i] in s[..n];
      }
    }
  }

  /** Deleting a stretch of what is left takes exactly those blocks out. */
  lemma {:induction false} DeleteStretch(input: seq<Block>, del: set<nat>, pre: seq<Block>, mid: seq<Block>, post: seq<Block>)
    requires Ordered(input) && Without(input, del) == pre + mid + post
    ensures Without(input, del + BlockIds(mid)) == pre + post
  {
    WithoutOrdered(input, del);
    WithoutTwice(input, del, BlockIds(mid));
    StretchesApart(pre, mid, post);
    DropMiddle(pre, mid, post, BlockIds(mid));
  }

  lemma {:induction false} DropMiddle(pre: seq<Block>, mid: seq<Block>, post: seq<Block>, d: set<nat>)
    requires forall i :: 0 <= i < |pre| ==> pre[i].id !in d
    requires forall i :: 0 <= i < |mid| ==> mid[i].id in d
    requires forall i :: 0 <= i < |post| ==> post[i].id !in d
    ensures Without(pre + mid + post, d) == pre + post
  {
    WithoutConcat(pre + mid, post, d);
    WithoutConcat(pre, mid, d);
    WithoutNone(pre, d);
    WithoutNone(post, d);
    WithoutAll(mid, d);
  }

  lemma {:induction false} StretchesApart(pre: seq<Block>, mid: seq<Block>, post: seq<Block>)
    requires Ordered(pre + mid + post)
    ensures forall i :: 0 <= i < |pre| ==> pre[i].id !in BlockIds(mid)
    ensures forall i :: 0 <= i < |post| ==> post[i].id !in BlockIds(mid)
  {
    var all := pre + mid + post;
    forall i | 0 <= i < |pre| ensures pre[i].id !in BlockIds(mid) {
      forall j | 0 <= j < |mid| ensures mid[j].id != pre[i].id { assert all[i] == pre[i] && all[|pre| + j] == mid[j]; }
    }
    forall i | 0 <= i < |post| ensures post[i].id !in BlockIds(mid) {
      forall j | 0 <= j < |mid| ensures mid[j].id != post[i].id {
        assert all[|pre| + |mid| + i] == post[i] && all[|pre| + j] == mid[j];
      }
    }
  }

  // ----- Instructions of blocks -----

  function InsOf(b: Block): (r: seq<Ins>)
    ensures |r| == b.size && forall k :: 0 <= k < b.size ==> r[k] == Ins(b.head + k, b)
  {
    seq(b.size, k requires 0 <= k < b.size => Ins(b.head + k, b))
  }

  /** All instructions of some blocks in program order. */
  ghost function All(s: seq<Block>): seq<Ins> {
    if s == [] then [] else All(s[..|s| - 1]) + InsOf(s[|s| - 1])
  }

  ghost function Start(s: seq<Block>, k: nat): nat
    requires k <= |s|
  {
    |All(s[..k])|
  }

  lemma {:induction false} AllConcat(s: seq<Block>, t: seq<Block>)
    ensures All(s + t) == All(s) + All(t)
    decreases |t|
  {
    if t == [] {
      assert s + t == s;
    } else {
      var n := |t| - 1;
      assert (s + t)[..|s + t| - 1] == s + t[..n] && (s + t)[|s + t| - 1] == t[n];
      AllConcat(s, t[..n]);
    }
  }

  lemma {:induction false} AllOne(b: Block)
    ensures All([b]) == InsOf(b)
  {
    assert [b][..0] == [];
  }

  /** Block `k` starts at `Start(s, k)`. */
  lemma {:induction false} BlockAt(s: seq<Block>, k: nat)
    requires k < |s|
    ensures Start(s, k) + s[k].size == Start(s, k + 1) <= |All(s)|
    ensures forall p :: Start(s, k) <= p < Start(s, k + 1) ==> All(s)[p] == Ins(s[k].head + (p - Start(s, k)), s[k])
  {
    assert s == s[..k] + [s[k]] + s[k + 1..] && s[..k + 1] == s[..k] + [s[k]];
    AllConcat(s[..k] + [s[k]], s[k + 1..]);
    AllConcat(s[..k], [s[k]]);
    AllOne(s[k]);
  }

  lemma {:induction false} StartMono(s: seq<Block>, j: nat, k: nat)
    requires j <= k <= |s|
    ensures Start(s, j) <= Start(s, k)
  {
    assert s[..k] == s[..j] + s[j..k];
    AllConcat(s[..j], s[j..k]);
  }

  /** The block of the instruction at position `p`. */
  lemma {:induction false} BlockOfPos(s: seq<Block>, p: nat) returns (k: nat)
    requires p < |All(s)|
    ensures k < |s| && Start(s, k) <= p < Start(s, k) + s[k].size
    ensures All(s)[p] == Ins(s[k].head + (p - Start(s, k)), s[k])
  {
    var n := |s| - 1;
    if p < |All(s[..n])| {
      k := BlockOfPos(s[..n], p);
      assert s[..n][..k] == s[..k];
    } else {
      k := n;
    }
  }

  /** Program order is the order of the ids. */
  lemma {:induction false} IdsAscend(s: seq<Block>, p: nat, q: nat)
    requires Ordered(s) && p < q < |All(s)|
    ensures All(s)[p].id < All(s)[q].id
  {
    var j := BlockOfPos(s, p);
    var k := BlockOfPos(s, q);
    if k < j {
      StartMono(s, k + 1, j);
      BlockAt(s, k);
    }
  }

  lemma {:induction false} PosUnique(s: seq<Block>, p: nat, q: nat)
    requires Ordered(s) && p < |All(s)| && q < |All(s)| && All(s)[p] == All(s)[q]
    ensures p == q
  {
    if p < q { IdsAscend(s, p, q); }
    if q < p { IdsAscend(s, q, p); }
  }

  ghost function AllSet(s: seq<Block>, n: nat): set<Ins>
    requires n <= |All(s)|
  {
    set p | 0 <= p < n :: All(s)[p]
  }

  lemma {:induction false} MemberBlock(s: seq<Block>, x: Ins)
    requires x in All(s)
    ensures x.bb in s && x.bb.head <= x.id < x.bb.head + x.bb.size
  {
    var p :| 0 <= p < |All(s)| && All(s)[p] == x;
    var k := BlockOfPos(s, p);
  }

  // ----- The state -----

  /** The machine. `disp` and `lim` are positions in the instructions of `que`: what was dispatched, and
      where the two ports end. `done` are the completed instructions of blocks in `que`. */
  datatype State = State(cache: seq<Block>, que: seq<Block>, rob: seq<Block>, committed: seq<Block>, deleted: set<nat>,
                         st: map<nat, BlockState>, current: Option<Block>, inProgress: bool,
                         f2d: seq<Ins>, d2s: seq<Ins>, win: set<Ins>, eu: set<Ins>, mem: set<Ins>, lq: set<Ins>, done: set<Ins>,
                         pipe: PipeState, sn: nat, oldSn: nat, kind: SquashType, badIns: nat,
                         disp: nat, lim: nat)

  function Fresh(b: Block): BlockState {
    BlockState(b.size, false, false)
  }

  /** Committed, queued and pending blocks are the input without some wrong-path blocks. */
  ghost predicate StreamInv(input: seq<Block>, s: State) {
    && Ordered(input) && s.committed + s.que + s.cache == Without(input, s.deleted)
    && (forall i :: 0 <= i < |input| && input[i].id in s.deleted ==> input[i].wrongPath)
    && s.deleted <= BlockIds(input)
    && (forall i :: 0 <= i < |s.committed| ==> !s.committed[i].wrongPath)
  }

  /** bbROB is a prefix of bbQUE; pending blocks are reset; only the youngest queued block may still be fetched. */
  ghost predicate TableInv(s: State) {
    && s.rob <= s.que
    && (forall b :: b in s.que || b in s.cache ==> b.id in s.st)
    && (forall b :: b in s.cache ==> s.st[b.id] == Fresh(b))
    && (forall k :: 0 <= k < |s.que| - 1 ==> s.st[s.que[k].id].wait == 0 && s.st[s.que[k].id].doneFetch)
  }

  /** The ports hold what follows the dispatched instructions; bbROB holds the blocks dispatched from. */
  ghost predicate PortInv(s: State) {
    && s.disp <= s.lim <= |All(s.que)| && s.d2s + s.f2d == All(s.que)[s.disp..s.lim]
    && (forall k :: 0 <= k < |s.que| ==> if k < |s.rob| then Start(s.que, k) <= s.disp else Start(s.que, k) >= s.disp)
  }

  ghost predicate FlightInv(s: State) {
    && s.disp <= |All(s.que)|
    && s.win + s.eu + s.mem + s.lq + s.done <= AllSet(s.que, s.disp)
    && s.win !! s.eu && s.win !! s.mem && s.eu !! s.mem && (s.win + s.eu + s.mem) !! s.done
  }

  ghost predicate Core(input: seq<Block>, s: State) {
    StreamInv(input, s) && TableInv(s) && PortInv(s) && FlightInv(s)
  }

  /** Fetch in normal operation: the ports end where the current block was left. */
  ghost predicate FetchInv(s: State) {
    match s.current
    case None => s.que == [] && !s.inProgress
    case Some(b) =>
      && b.id in s.st && (b in s.que || b in s.committed)
      && if s.st[b.id].doneFetch then
           !s.inProgress && s.st[b.id].wait == 0 && s.lim == |All(s.que)| && (s.que != [] ==> b == s.que[|s.que| - 1])
         else
           && s.que != [] && b == s.que[|s.que| - 1] && s.st[b.id].wait <= b.size
           && (s.inProgress <==> s.st[b.id].wait > 0) && s.lim + s.st[b.id].wait == |All(s.que)|
  }

  /** The block that the recorded bad instruction belongs to, and why it is squashed. */
  ghost predicate Blamed(s: State, b: Block) {
    && b in s.rob && b.head <= s.badIns < b.head + b.size && b.id in s.st
    && (s.kind == BpMispred || s.kind == MemMispred)
    && (s.kind == BpMispred ==> b.wrongPath)
    && (s.kind == MemMispred ==> s.st[b.id].memViolation)
  }

  /** The block that the squash number names. */
  ghost predicate Offender(s: State, b: Block) {
    Blamed(s, b) && s.sn == b.head && s.sn > 0
  }

  ghost predicate InEpisode(s: State) {
    exists b :: Offender(s, b)
  }

  ghost predicate AllBelow(xs: set<Ins>, n: nat) {
    forall x :: x in xs ==> x.id < n
  }

  /** What holds between cycles, by pipe state. */
  ghost predicate PipeInv(s: State) {
    match s.pipe
    case Normal => s.sn == 0 && FetchInv(s)
    case WaitFlush => InEpisode(s)
    case Flush => InEpisode(s) && s.eu == {} && AllBelow(s.win, s.sn) && s.f2d == [] && s.d2s == []
    case Drain =>
      InEpisode(s) && s.f2d == [] && s.d2s == []
      && AllBelow(s.win, s.sn) && AllBelow(s.eu, s.sn) && AllBelow(s.mem, s.sn) && AllBelow(s.lq, s.sn)
    case SquashRob =>
      s.que == [] && s.current == None && !s.inProgress && s.sn > 0
  }

  ghost predicate Inv(input: seq<Block>, s: State) {
    Core(input, s) && PipeInv(s)
  }
}
