/** List scheduling of one block (listSchedule.cpp). */
module ListSchedule {
  import opened Collections
  import opened Dependence
  import opened QuickSort

  const NUM_EU := 4

  // ----- The longest path -----

  /** Unset fields are -1; a field that is set holds the longest path. */
  ghost predicate PathsSoFar(g: Dag, v: seq<int>) {
    |v| == |g.deps| && forall i :: 0 <= i < |v| && v[i] != -1 ==> IsLongest(g, i, v[i])
  }

  /** The longest chain from some of the dependents of `i`; -1 when none of them is in the block. */
  ghost predicate BestOf(g: Dag, list: seq<nat>, best: int) {
    && (best == -1 ==> forall d :: d in list ==> d >= |g.deps|)
    && (best != -1 ==> exists d :: d in list && d < |g.deps| && IsLongest(g, d, best))
    && (forall d, c :: d in list && Chain(g, c) && c[0] == d ==> Sum(g, c) <= best)
  }

  lemma {:induction false} BestSnoc(g: Dag, list: seq<nat>, best: int, d: nat, len: int)
    requires BestOf(g, list, best)
    requires d < |g.deps| ==> IsLongest(g, d, len)
    ensures d >= |g.deps| ==> BestOf(g, list + [d], best)
    ensures d < |g.deps| ==> BestOf(g, list + [d], if best < len then len else best)
  {
    if d < |g.deps| {
      var e :| Chain(g, e) && e[0] == d && Sum(g, e) == len;
      assert len >= 0;
      forall x, c | x in list + [d] && Chain(g, c) && c[0] == x ensures Sum(g, c) <= if best < len then len else best {
      }
      if best < len { assert d in list + [d]; }
    } else {
      forall x, c | x in list + [d] && Chain(g, c) && c[0] == x ensures Sum(g, c) <= best { }
    }
  }

  lemma {:induction false} BestIsLongest(g: Dag, i: nat, best: int)
    requires Valid(g) && i < |g.deps| && BestOf(g, g.deps[i], best)
    ensures IsLongest(g, i, (if best == -1 then 0 else best) + g.latency[i])
  {
    var len := (if best == -1 then 0 else best) + g.latency[i];
    if best == -1 {
      assert Chain(g, [i]) && Sum(g, [i]) == len by { assert [i][1..] == []; }
    } else {
      var d :| d in g.deps[i] && d < |g.deps| && IsLongest(g, d, best);
      var c :| Chain(g, c) && c[0] == d && Sum(g, c) == best;
      ChainCons(g, i, c);
      assert ([i] + c)[0] == i;
    }
    forall c | Chain(g, c) && c[0] == i ensures Sum(g, c) <= len {
      if |c| > 1 {
        ChainTail(g, c);
        assert Sum(g, c[1..]) <= best;
      } else {
        assert c[1..] == [];
      }
    }
  }

  /** Computes the maximum latency sum over in-block chains, reusing the fields that are set. */
  method FindLongestPath(g: Dag, lp: array<int>, i: nat, ghost rank: seq<nat>) returns (critPathLen: int)
    requires Valid(g) && Ranked(g, rank) && i < |g.deps| && PathsSoFar(g, lp[..])
    ensures IsLongest(g, i, critPathLen) && critPathLen > 0
    decreases rank[i]
  {
    critPathLen := -1;
    var list := g.deps[i];
    var k := 0;
    assert BestOf(g, list[..0], -1);
    while k < |list|
      invariant 0 <= k <= |list| && critPathLen >= -1
      invariant BestOf(g, list[..k], critPathLen)
    {
      var dep := list[k];
      assert list[..k + 1] == list[..k] + [dep];
      if dep < |g.deps| {
        var pathLength;
        if lp[dep] != -1 {
          pathLength := lp[dep];
          assert lp[..][dep] == lp[dep];
        } else {
          assert Edge(g, i, dep);
          pathLength := FindLongestPath(g, lp, dep, rank);
        }
        BestSnoc(g, list[..k], critPathLen, dep, pathLength);
        if critPathLen < pathLength { critPathLen := pathLength; }
      } else {
        BestSnoc(g, list[..k], critPathLen, dep, 0);
      }
      k := k + 1;
    }
    assert list[..k] == list;
    BestIsLongest(g, i, critPathLen);
    if critPathLen == -1 {
      critPathLen := g.latency[i];
    } else {
      critPathLen := critPathLen + g.latency[i];
    }
  }

  ghost predicate AllPaths(g: Dag, v: seq<int>) {
    |v| == |g.deps| && forall i :: 0 <= i < |v| ==> IsLongest(g, i, v[i])
  }

  /** The fields of all instructions, last instruction first. */
  method SetLongestPaths(g: Dag, lp: array<int>, ghost rank: seq<nat>)
    requires Valid(g) && Ranked(g, rank) && lp.Length == |g.deps| && forall k :: 0 <= k < lp.Length ==> lp[k] == -1
    modifies lp
    ensures AllPaths(g, lp[..])
  {
    var i := |g.deps|;
    while i > 0
      invariant 0 <= i <= |g.deps|
      invariant PathsSoFar(g, lp[..])
      invariant forall k :: 0 <= k < i ==> lp[k] == -1
      invariant forall k :: i <= k < |g.deps| ==> lp[k] != -1
    {
      i := i - 1;
      lp[i] := FindLongestPath(g, lp, i, rank);
    }
  }

  // ----- The sorted list -----

  ghost predicate IsPermutation(s: seq<nat>, n: nat) {
    |s| == n && (forall x :: x in s ==> x < n) && NoDup(s)
  }

  function Positions(n: nat): seq<nat> {
    if n == 0 then [] else Positions(n - 1) + [n - 1]
  }

  lemma {:induction false} PositionsCount(n: nat, x: nat)
    ensures |Positions(n)| == n && multiset(Positions(n))[x] == if x < n then 1 else 0
  {
    if n > 0 { PositionsCount(n - 1, x); }
  }

  lemma {:induction false} ShuffledPositions(s: seq<nat>, n: nat)
    requires multiset(s) == multiset(Positions(n))
    ensures IsPermutation(s, n) && forall x: nat :: x < n ==> x in s
  {
    PositionsCount(n, 0);
    assert |multiset(s)| == |s| && |multiset(Positions(n))| == n;
    forall x | x in s ensures x < n {
      PositionsCount(n, x);
      assert x in multiset(s);
    }
    forall x: nat | x < n ensures x in s {
      PositionsCount(n, x);
      assert x in multiset(s);
    }
    forall j, k | 0 <= j < k < |s| ensures s[j] != s[k] {
      PositionsCount(n, s[j]);
      if s[j] == s[k] { TwiceIn(s, j, k); }
    }
  }

  lemma {:induction false} TwiceIn(s: seq<nat>, j: nat, k: nat)
    requires j < k < |s| && s[j] == s[k]
    ensures multiset(s)[s[j]] >= 2
  {
    assert s == s[..k] + [s[k]] + s[k + 1..];
    assert s[..k][j] in multiset(s[..k]);
  }

  /** In-block ancestors stand before their dependents. */
  ghost predicate Topological(g: Dag, s: seq<nat>) {
    forall j, k :: 0 <= j < |s| && 0 <= k < |s| && Edge(g, s[j], s[k]) ==> j < k
  }

  /** Since latencies are positive, the list sorted by longest path is already a topological order. */
  lemma {:induction false} SortedIsTopological(g: Dag, v: seq<int>, s: seq<nat>)
    requires Valid(g) && AllPaths(g, v) && IsPermutation(s, |v|) && Descending(v, s, 0, |s| - 1)
    ensures Topological(g, s)
  {
    forall j, k | 0 <= j < |s| && 0 <= k < |s| && Edge(g, s[j], s[k]) ensures j < k {
      assert s[j] in s && s[k] in s;
      LongerThanDependent(g, s[j], s[k], v[s[j]], v[s[k]]);
    }
  }

  // ----- Rounds -----

  /** Every in-block ancestor is scheduled. */
  predicate Ready(g: Dag, done: set<nat>, i: nat)
    requires i < |g.ancs|
  {
    forall a :: a in g.ancs[i] && a < |g.deps| ==> a in done
  }

  method IsReady(g: Dag, done: set<nat>, i: nat) returns (scheduleIt: bool)
    requires i < |g.ancs|
    ensures scheduleIt <==> Ready(g, done, i)
  {
    scheduleIt := true;
    var j := 0;
    while j < |g.ancs[i]|
      invariant 0 <= j <= |g.ancs[i]|
      invariant scheduleIt <==> forall k :: 0 <= k < j && g.ancs[i][k] < |g.deps| ==> g.ancs[i][k] in done
    {
      if g.ancs[i][j] < |g.deps| && g.ancs[i][j] !in done { scheduleIt := false; }
      j := j + 1;
    }
  }

  predicate MayRun(g: Dag, done: set<nat>, x: nat) {
    x < |g.ancs| && x !in done && Ready(g, done, x)
  }

  /** The instructions of `s` that may run now, in the order of `s`. */
  ghost function ReadyIn(g: Dag, s: seq<nat>, done: set<nat>): seq<nat> {
    if s == [] then []
    else ReadyIn(g, s[..|s| - 1], done) + if MayRun(g, done, s[|s| - 1]) then [s[|s| - 1]] else []
  }

  /** The first NUM_EU of them. */
  ghost function FirstReady(g: Dag, s: seq<nat>, done: set<nat>): seq<nat> {
    var r := ReadyIn(g, s, done);
    if |r| <= NUM_EU then r else r[..NUM_EU]
  }

  lemma {:induction false} ReadyMembers(g: Dag, s: seq<nat>, done: set<nat>)
    ensures forall x :: x in ReadyIn(g, s, done) <==> x in s && MayRun(g, done, x)
    ensures NoDup(s) ==> NoDup(ReadyIn(g, s, done))
  {
    if s != [] {
      var n := |s| - 1;
      ReadyMembers(g, s[..n], done);
      assert s == s[..n] + [s[n]];
    }
  }

  lemma {:induction false} ReadyPrefix(g: Dag, s: seq<nat>, done: set<nat>, n: nat)
    requires n <= |s|
    ensures ReadyIn(g, s[..n], done) <= ReadyIn(g, s, done)
    decreases |s|
  {
    if n == |s| {
      assert s[..n] == s;
    } else {
      ReadyPrefix(g, s[..|s| - 1], done, n);
      assert s[..|s| - 1][..n] == s[..n];
    }
  }

  /** A round follows the list: whatever may run and stands before a picked instruction is picked before it. */
  lemma {:induction false} RoundInOrder(g: Dag, s: seq<nat>, done: set<nat>, i: nat, j: nat)
    requires NoDup(s) && i < j < |s| && s[j] in FirstReady(g, s, done) && MayRun(g, done, s[i])
    ensures exists a, b :: 0 <= a < b < |FirstReady(g, s, done)| && FirstReady(g, s, done)[a] == s[i] && FirstReady(g, s, done)[b] == s[j]
  {
    var all, r, before := ReadyIn(g, s, done), FirstReady(g, s, done), ReadyIn(g, s[..j], done);
    ReadyMembers(g, s, done);
    ReadyMembers(g, s[..j], done);
    assert s[i] in s[..j] && s[..j + 1][..j] == s[..j];
    assert ReadyIn(g, s[..j + 1], done) == before + [s[j]];
    ReadyPrefix(g, s, done, j + 1);
    var a :| 0 <= a < |before| && before[a] == s[i];
    var c :| 0 <= c < |r| && r[c] == s[j];
    assert all[|before|] == s[j] == all[c];
    assert r[a] == s[i] && r[|before|] == s[j];
  }

  /** What one round schedules, without the order. */
  ghost predicate RoundOf(g: Dag, s: seq<nat>, done: set<nat>, picked: seq<nat>) {
    && |picked| <= NUM_EU && NoDup(picked)
    && (forall x :: x in picked ==> x in s && MayRun(g, done, x))
  }

  /** A round that is not full leaves no ready instruction behind. */
  ghost predicate AllPicked(g: Dag, s: seq<nat>, done: set<nat>, picked: seq<nat>) {
    forall x :: x in s && MayRun(g, done, x) ==> x in picked
  }

  lemma {:induction false} FirstReadyIs(g: Dag, s: seq<nat>, done: set<nat>)
    requires NoDup(s)
    ensures RoundOf(g, s, done, FirstReady(g, s, done))
    ensures |FirstReady(g, s, done)| < NUM_EU ==> AllPicked(g, s, done, FirstReady(g, s, done))
  {
    ReadyMembers(g, s, done);
    var r := ReadyIn(g, s, done);
    forall x | x in FirstReady(g, s, done) ensures x in r { }
  }

  /** One pass over the sorted list. */
  method Round(g: Dag, list: List, done: set<nat>) returns (toBeSched: seq<nat>)
    requires Valid(g) && IsPermutation(list.elems, |g.deps|)
    ensures toBeSched == FirstReady(g, list.elems, done)
  {
    ghost var s := list.elems;
    toBeSched := [];
    var i := 0;
    while i < |list.elems| && |toBeSched| < NUM_EU
      invariant 0 <= i <= |s| && |toBeSched| <= NUM_EU
      invariant toBeSched == ReadyIn(g, s[..i], done)
    {
      var ins := list.elems[i];
      assert s[..i + 1][..i] == s[..i] && ins in s;
      if ins !in done {
        var scheduleIt := IsReady(g, done, ins);
        if scheduleIt { toBeSched := toBeSched + [ins]; }
      }
      i := i + 1;
    }
    ReadyPrefix(g, s, done, i);
    assert i == |s| ==> s[..i] == s;
  }

  // ----- The whole pass -----

  /** What is scheduled so far: each instruction once, after its in-block ancestors. */
  ghost predicate Scheduled(g: Dag, done: set<nat>, sched: seq<nat>) {
    && |done| == |sched| && (forall x :: x in done <==> x in sched) && (forall x :: x in sched ==> x < |g.deps|)
    && NoDup(sched)
    && (forall k, a :: 0 <= k < |sched| && Edge(g, a, sched[k]) ==> a in sched[..k])
  }

  ghost function Picked(picked: seq<nat>): set<nat> {
    set x | x in picked
  }

  lemma {:induction false} RoundScheduled(g: Dag, s: seq<nat>, done: set<nat>, sched: seq<nat>, picked: seq<nat>)
    requires Valid(g) && IsPermutation(s, |g.deps|) && Scheduled(g, done, sched) && RoundOf(g, s, done, picked)
    ensures Scheduled(g, done + Picked(picked), sched + picked)
  {
    var r := sched + picked;
    UnionCount(done, picked);
    assert NoDup(r) by {
      forall j, k | 0 <= j < k < |r| ensures r[j] != r[k] {
        if j < |sched| <= k { assert r[j] in sched && r[k] in picked; }
      }
    }
    forall k, a | 0 <= k < |r| && Edge(g, a, r[k]) ensures a in r[..k] {
      AncestorBefore(g, s, done, sched, picked, k, a);
    }
    hide Ready, Edge, NoDup;
  }

  lemma {:induction false} AncestorBefore(g: Dag, s: seq<nat>, done: set<nat>, sched: seq<nat>, picked: seq<nat>, k: nat, a: nat)
    requires Valid(g) && Scheduled(g, done, sched) && RoundOf(g, s, done, picked)
    requires k < |sched + picked| && Edge(g, a, (sched + picked)[k])
    ensures a in (sched + picked)[..k]
  {
    var r := sched + picked;
    if k < |sched| {
      assert r[..k] == sched[..k];
    } else {
      assert r[k] in picked && a in g.ancs[r[k]];
      assert a in sched && r[..k] == sched + picked[..k - |sched|];
    }
  }

  lemma {:induction false} UnionCount(done: set<nat>, picked: seq<nat>)
    requires NoDup(picked) && forall x :: x in picked ==> x !in done
    ensures |done + Picked(picked)| == |done| + |picked|
  {
    NoDupCount(picked);
    assert done !! Picked(picked);
  }

  lemma {:induction false} NoDupCount(s: seq<nat>)
    requires NoDup(s)
    ensures |Picked(s)| == |s|
  {
    if s != [] {
      var n := |s| - 1;
      NoDupCount(s[..n]);
      assert Picked(s) == Picked(s[..n]) + {s[n]};
    }
  }

  lemma {:induction false} ScheduledFits(g: Dag, done: set<nat>, sched: seq<nat>)
    requires Scheduled(g, done, sched)
    ensures |sched| <= |g.deps|
    ensures |sched| == |g.deps| ==> IsPermutation(sched, |g.deps|) && Topological(g, sched)
    ensures |sched| < |g.deps| ==> exists x: nat :: x < |g.deps| && x !in done
  {
    SubsetSmaller(done, Indices(|g.deps|));
    if |sched| < |g.deps| { var x := NewMember(done, Indices(|g.deps|)); }
    forall j, k | 0 <= j < |sched| && 0 <= k < |sched| && Edge(g, sched[j], sched[k]) ensures j < k {
      assert sched[j] in sched[..k];
    }
  }

  /** While something is left, the first instruction left in the sorted list is ready. */
  lemma {:induction false} SomeReady(g: Dag, s: seq<nat>, done: set<nat>, x: nat, n: nat) returns (y: nat)
    requires Valid(g) && IsPermutation(s, |g.deps|) && Topological(g, s)
    requires (forall z: nat :: z < |g.deps| ==> z in s) && n <= |s| && x in s[..n] && x !in done
    ensures y in s && y !in done && y < |g.ancs| && Ready(g, done, y)
    decreases n
  {
    var i :| 0 <= i < |s[..n]| && s[..n][i] == x;
    assert s[i] == x && x in s;
    if z :| z in s[..i] && z !in done {
      y := SomeReady(g, s, done, z, i);
    } else {
      y := x;
      forall a | a in g.ancs[y] && a < |g.deps| ensures a in done {
        assert a in s;
        var j :| 0 <= j < |s| && s[j] == a;
        assert Edge(g, s[j], s[i]);
        assert s[j] in s[..i];
      }
    }
  }

  lemma {:induction false} RoundNotEmpty(g: Dag, s: seq<nat>, done: set<nat>, sched: seq<nat>, picked: seq<nat>)
    requires Valid(g) && SortedList(g, s) && Scheduled(g, done, sched) && |sched| < |g.deps|
    requires |picked| < NUM_EU ==> AllPicked(g, s, done, picked)
    ensures picked != []
  {
    ScheduledFits(g, done, sched);
    var x: nat :| x < |g.deps| && x !in done;
    assert s[..|s|] == s;
    var y := SomeReady(g, s, done, x, |s|);
  }

  /** A round schedules something and keeps the account of full and other rounds. */
  lemma {:induction false} RoundProgress(g: Dag, s: seq<nat>, done: set<nat>, sched: seq<nat>, picked: seq<nat>, full: nat, partial: nat)
    requires Valid(g) && SortedList(g, s) && Progress(g, done, sched, full, partial) && |sched| < |g.deps|
    requires RoundOf(g, s, done, picked) && |picked| <= NUM_EU
    requires |picked| < NUM_EU ==> AllPicked(g, s, done, picked)
    ensures picked != [] && |done + Picked(picked)| == |sched + picked| <= |g.deps|
    ensures |picked| == NUM_EU ==> Progress(g, done + Picked(picked), sched + picked, full + 1, partial)
    ensures |picked| < NUM_EU ==> Progress(g, done + Picked(picked), sched + picked, full, partial + 1)
  {
    RoundNotEmpty(g, s, done, sched, picked);
    RoundScheduled(g, s, done, sched, picked);
    ScheduledFits(g, done + Picked(picked), sched + picked);
    forall len: nat | ChainsAtMost(g, len) ensures partial < len { PartialBelow(g, done, sched, partial, len); }
    if |picked| < NUM_EU { PartialRoundDeeper(g, s, done, picked, partial); }
    hide Scheduled, DepthAtMost, ChainsAtMost, RoundOf, AllPicked, Valid, SortedList;
  }

  /** After `partial` rounds that were not full, everything of that depth is scheduled. */
  ghost predicate ShallowDone(g: Dag, done: set<nat>, partial: nat) {
    forall i: nat :: i < |g.deps| && DepthAtMost(g, i, partial) ==> i in done
  }

  ghost predicate ChainsAtMost(g: Dag, len: nat) {
    forall c :: Chain(g, c) ==> |c| <= len
  }

  lemma {:induction false} PartialRoundDeeper(g: Dag, s: seq<nat>, done: set<nat>, picked: seq<nat>, partial: nat)
    requires Valid(g) && ShallowDone(g, done, partial) && AllPicked(g, s, done, picked)
    requires forall z: nat :: z < |g.deps| ==> z in s
    ensures ShallowDone(g, done + Picked(picked), partial + 1)
  {
    forall i: nat | i < |g.deps| && DepthAtMost(g, i, partial + 1) ensures i in done + Picked(picked) {
      forall a | a in g.ancs[i] && a < |g.deps| ensures a in done {
        AncestorIsShallower(g, a, i, partial);
      }
      assert Ready(g, done, i);
    }
  }

  /** A round takes place only while some instruction is deeper than the rounds that were not full. */
  lemma {:induction false} PartialBelow(g: Dag, done: set<nat>, sched: seq<nat>, partial: nat, len: nat)
    requires Scheduled(g, done, sched) && |sched| < |g.deps| && ShallowDone(g, done, partial) && ChainsAtMost(g, len)
    ensures partial < len
  {
    ScheduledFits(g, done, sched);
    var x: nat :| x < |g.deps| && x !in done;
    assert !DepthAtMost(g, x, partial);
  }

  lemma {:induction false} NothingShallow(g: Dag)
    ensures ShallowDone(g, {}, 0)
  {
    forall i: nat | i < |g.deps| && DepthAtMost(g, i, 0) ensures false { DepthPositive(g, i, 0); }
  }

  /** The longest path comes first. */
  ghost predicate ByLongestPath(g: Dag, s: seq<nat>) {
    IsPermutation(s, |g.deps|) && exists v :: AllPaths(g, v) && Descending(v, s, 0, |s| - 1)
  }

  /** What the first `k` rounds over the list `s` schedule. */
  ghost function ScheduleAfter(g: Dag, s: seq<nat>, k: nat): seq<nat> {
    if k == 0 then [] else ScheduleAfter(g, s, k - 1) + FirstReady(g, s, Picked(ScheduleAfter(g, s, k - 1)))
  }

  /** An order of the whole block that rounds over some list by longest path lead to. */
  ghost predicate IsSchedule(g: Dag, o: seq<nat>) {
    |o| == |g.deps| && exists s, k: nat :: ByLongestPath(g, s) && o == ScheduleAfter(g, s, k)
  }

  method SortByLongestPath(g: Dag, ghost rank: seq<nat>) returns (sortList: List)
    requires Valid(g) && Ranked(g, rank)
    ensures fresh(sortList) && SortedList(g, sortList.elems) && ByLongestPath(g, sortList.elems)
  {
    var lp := new int[|g.deps|](_ => -1);
    SetLongestPaths(g, lp, rank);
    ghost var v := lp[..];
    sortList := new List();
    var i := 0;
    while i < |g.deps|
      invariant 0 <= i <= |g.deps| && lp[..] == v
      invariant sortList.elems == Positions(i)
    {
      sortList.Append(i);
      i := i + 1;
    }
    PositionsBelow(|g.deps|);
    QuicksortLongestPath(sortList, lp, 0, |sortList.elems| - 1);
    ShuffledPositions(sortList.elems, |g.deps|);
    SortedIsTopological(g, v, sortList.elems);
  }

  lemma {:induction false} PositionsBelow(n: nat)
    ensures |Positions(n)| == n && forall k :: 0 <= k < n ==> Positions(n)[k] < n
  {
    if n > 0 { PositionsBelow(n - 1); }
  }

  /** listSchedule ends with a permutation of the block in which every in-block ancestor comes first, made of
      rounds over the list sorted by longest path. There are at most floor(n / NUM_EU) + L rounds, where no
      in-block chain has more than L instructions. */
  method ListSchedule(g: Dag) returns (listSchList: seq<nat>, ghost s: seq<nat>, ghost rounds: nat)
    requires Valid(g) && Acyclic(g)
    ensures IsPermutation(listSchList, |g.deps|) && Topological(g, listSchList)
    ensures ByLongestPath(g, s) && listSchList == ScheduleAfter(g, s, rounds)
    ensures forall len: nat :: ChainsAtMost(g, len) ==> rounds <= |g.deps| / NUM_EU + len
  {
    ghost var rank :| Ranked(g, rank);
    var sortList := SortByLongestPath(g, rank);
    s := sortList.elems;
    listSchList := [];
    var scheduledIns: set<nat> := {};
    ghost var full: nat, partial: nat := 0, 0;
    NothingShallow(g);
    hide Valid, SortedList, Progress, ByLongestPath;
    while |sortList.elems| != |scheduledIns|
      invariant sortList.elems == s && SortedList(g, s) && |s| == |g.deps| && |scheduledIns| == |listSchList| <= |g.deps|
      invariant Progress(g, scheduledIns, listSchList, full, partial)
      invariant listSchList == ScheduleAfter(g, s, full + partial)
      decreases |g.deps| - |listSchList|
    {
      scheduledIns, listSchList, full, partial := NextRound(g, sortList, scheduledIns, listSchList, full, partial);
    }
    rounds := full + partial;
    AllScheduled(g, scheduledIns, listSchList, full, partial);
  }

  ghost predicate SortedList(g: Dag, s: seq<nat>) {
    IsPermutation(s, |g.deps|) && Topological(g, s) && forall z: nat :: z < |g.deps| ==> z in s
  }

  /** After `full` full rounds and `partial` others. */
  ghost predicate Progress(g: Dag, done: set<nat>, sched: seq<nat>, full: nat, partial: nat) {
    && Scheduled(g, done, sched) && ShallowDone(g, done, partial)
    && NUM_EU * full <= |sched| <= |g.deps|
    && forall len: nat :: ChainsAtMost(g, len) ==> partial <= len
  }

  lemma {:induction false} DoneIsPicked(g: Dag, done: set<nat>, sched: seq<nat>)
    requires Scheduled(g, done, sched)
    ensures done == Picked(sched)
  {
  }

  method NextRound(g: Dag, list: List, done0: set<nat>, sched0: seq<nat>, ghost full0: nat, ghost partial0: nat)
    returns (done: set<nat>, sched: seq<nat>, ghost full: nat, ghost partial: nat)
    requires Valid(g) && SortedList(g, list.elems) && Progress(g, done0, sched0, full0, partial0) && |sched0| < |g.deps|
    ensures Progress(g, done, sched, full, partial) && |sched0| < |sched| <= |g.deps| && |done| == |sched|
    ensures full + partial == full0 + partial0 + 1 && sched == sched0 + FirstReady(g, list.elems, Picked(sched0))
  {
    DoneIsPicked(g, done0, sched0);
    hide Valid, Topological, Progress, RoundOf, AllPicked, FirstReady;
    var toBeSched := Round(g, list, done0);
    FirstReadyIs(g, list.elems, done0);
    RoundProgress(g, list.elems, done0, sched0, toBeSched, full0, partial0);
    full, partial := if |toBeSched| == NUM_EU then full0 + 1 else full0, if |toBeSched| == NUM_EU then partial0 else partial0 + 1;
    sched := sched0 + toBeSched;
    done := InsertAll(done0, toBeSched);
  }

  method InsertAll(done0: set<nat>, picked: seq<nat>) returns (done: set<nat>)
    ensures done == done0 + Picked(picked)
  {
    done := done0;
    var i := 0;
    while i < |picked|
      invariant 0 <= i <= |picked|
      invariant done == done0 + Picked(picked[..i])
    {
      assert picked[..i + 1] == picked[..i] + [picked[i]];
      done := done + {picked[i]};
      i := i + 1;
    }
    assert picked[..i] == picked;
  }

  lemma {:induction false} AllScheduled(g: Dag, done: set<nat>, sched: seq<nat>, full: nat, partial: nat)
    requires Progress(g, done, sched, full, partial) && |sched| == |g.deps|
    ensures IsPermutation(sched, |g.deps|) && Topological(g, sched)
    ensures forall len: nat :: ChainsAtMost(g, len) ==> full + partial <= |g.deps| / NUM_EU + len
  {
    ScheduledFits(g, done, sched);
  }
}
