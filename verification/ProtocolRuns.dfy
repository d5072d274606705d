/** All runs of the back end, interleaved with blocks that the frontend delivers. */
module ProtocolRuns {
  import opened Collections
  import opened ProtocolCycle
  import opened ProtocolFrontEnd
  import opened ProtocolSpec
  import opened ProtocolStages
  import opened ProtocolSteps

  datatype Action = Feed(b: Block) | Tick(ch: Choices)

  function Init(): State {
    State([], [], [], [], {}, map[], None, false, [], [], {}, {}, {}, {}, {}, Normal, 0, 0, NoMispred, 0, 0, 0)
  }

  /** The frontend appends a block to the cache. */
  function FeedBlock(s: State, b: Block): State {
    s.(cache := s.cache + [b], st := s.st[b.id := Fresh(b)])
  }

  /** The blocks delivered in a run. */
  function Fed(run: seq<Action>): seq<Block> {
    if run == [] then [] else Extend(Fed(run[..|run| - 1]), run[|run| - 1])
  }

  ghost function Step(s: State, a: Action): Option<State> {
    match a
    case Feed(b) => Some(FeedBlock(s, b))
    case Tick(ch) => Cycle(s, ch)
  }

  function Extend(input: seq<Block>, a: Action): seq<Block> {
    match a
    case Feed(b) => input + [b]
    case Tick(_) => input
  }

  /** The state after a run from `s`; nothing if an assertion of the source fails in it. */
  ghost function After(s: State, run: seq<Action>): Option<State> {
    if run == [] then Some(s)
    else
      var before := After(s, run[..|run| - 1]);
      if before.None? then None else Step(before.value, run[|run| - 1])
  }

  /** A run of cycles. */
  function Ticks(choices: seq<Choices>): seq<Action> {
    if choices == [] then [] else Ticks(choices[..|choices| - 1]) + [Tick(choices[|choices| - 1])]
  }

  lemma {:induction false} OneMoreTick(s: State, choices: seq<Choices>, n: nat)
    requires n < |choices| && After(s, Ticks(choices[..n])).Some?
    ensures After(s, Ticks(choices[..n + 1])) == Cycle(After(s, Ticks(choices[..n])).value, choices[n])
  {
    var run := Ticks(choices[..n]);
    assert choices[..n + 1][..n] == choices[..n];
    assert (run + [Tick(choices[n])])[..|run|] == run;
  }

  // ----- Delivering a block -----

  lemma {:induction false} FedPrefixOrdered(s: seq<Block>, b: Block)
    requires Ordered(s + [b])
    ensures Ordered(s) && b.id !in BlockIds(s) && b.size > 0 && b.head > 0
    ensures forall c :: c in s ==> c.id != b.id
  {
    PrefixOrdered(s, [b]);
    assert (s + [b])[|s|] == b;
    forall i | 0 <= i < |s| ensures s[i].id != b.id { assert s[i] in s && b in [b]; }
  }

  lemma {:induction false} FeedStream(input: seq<Block>, s: State, b: Block)
    requires StreamInv(input, s) && Ordered(input + [b])
    ensures StreamInv(input + [b], FeedBlock(s, b))
  {
    FedPrefixOrdered(input, b);
    var t := FeedBlock(s, b);
    assert (input + [b])[..|input|] == input;
    assert s.committed + s.que + (s.cache + [b]) == s.committed + s.que + s.cache + [b];
    forall d | d in s.deleted ensures d in BlockIds(input + [b]) {
      var i :| 0 <= i < |input| && input[i].id == d;
      assert (input + [b])[i].id == d;
    }
    hide Ordered;
  }

  lemma {:induction false} FeedKeeps(input: seq<Block>, s: State, b: Block)
    requires Inv(input, s) && Ordered(input + [b])
    ensures Inv(input + [b], FeedBlock(s, b))
  {
    FeedStream(input, s, b);
    FeedCore(input, s, b);
    FeedPipe(input, s, b);
    hide StreamInv, TableInv, PortInv, FlightInv, PipeInv;
  }

  lemma {:induction false} FeedCore(input: seq<Block>, s: State, b: Block)
    requires Core(input, s) && Ordered(input + [b])
    ensures TableInv(FeedBlock(s, b)) && PortInv(FeedBlock(s, b)) && FlightInv(FeedBlock(s, b))
  {
    FedPrefixOrdered(input, b);
    QueueOrdered(input, s);
    hide Ordered, Without, All, AllSet, Start;
  }

  lemma {:induction false} CommittedFed(input: seq<Block>, s: State)
    requires StreamInv(input, s)
    ensures forall c :: c in s.committed ==> c in input
  {
    WithoutOrdered(input, s.deleted);
    forall c | c in s.committed ensures c in input { assert c in s.committed + s.que + s.cache; }
  }

  lemma {:induction false} FeedPipe(input: seq<Block>, s: State, b: Block)
    requires Inv(input, s) && Ordered(input + [b])
    ensures PipeInv(FeedBlock(s, b))
  {
    FedPrefixOrdered(input, b);
    hide StreamInv, TableInv, PortInv, FlightInv, Ordered, All, InEpisode;
    if s.pipe == Normal {
      FeedFetch(input, s, b);
    } else if s.pipe != SquashRob {
      FeedEpisode(input, s, b);
    }
  }

  lemma {:induction false} FeedFetch(input: seq<Block>, s: State, b: Block)
    requires StreamInv(input, s) && FetchInv(s) && forall c :: c in input ==> c.id != b.id
    ensures FetchInv(FeedBlock(s, b))
  {
    QueueOrdered(input, s);
    CommittedFed(input, s);
    hide StreamInv, Ordered, All;
  }

  lemma {:induction false} FeedEpisode(input: seq<Block>, s: State, b: Block)
    requires StreamInv(input, s) && TableInv(s) && InEpisode(s) && forall c :: c in input ==> c.id != b.id
    ensures InEpisode(FeedBlock(s, b))
  {
    QueueOrdered(input, s);
    hide StreamInv, Ordered;
    var o :| Offender(s, o);
    assert o in s.que;
    assert Offender(FeedBlock(s, b), o);
  }

  // ----- Safety over all runs -----

  lemma {:induction false} InitHolds()
    ensures Inv([], Init())
  {
    EmptyQueue(Init());
  }

  lemma {:induction false} FedOrdered(run: seq<Action>, n: nat)
    requires Ordered(Fed(run)) && n <= |run|
    ensures Ordered(Fed(run[..n]))
    decreases |run|
  {
    if n == |run| {
      assert run[..n] == run;
    } else {
      var m := |run| - 1;
      if run[m].Feed? { FedPrefixOrdered(Fed(run[..m]), run[m].b); }
      FedOrdered(run[..m], n);
      assert run[..m][..n] == run[..n];
    }
  }

  /** One action keeps the invariant and moves an episode forward. */
  lemma {:induction false} StepKeeps(input: seq<Block>, s: State, a: Action)
    requires Inv(input, s) && Ordered(Extend(input, a)) && Step(s, a).Some?
    ensures Inv(Extend(input, a), Step(s, a).value) && EpisodeStep(s, Step(s, a).value)
  {
    if s.pipe != Normal { PipeNumber(input, s); }
    hide Inv, Ordered, Cycle;
    match a
    case Feed(b) => FeedKeeps(input, s, b);
    case Tick(ch) => CycleKeeps(input, s, ch);
  }

  /** Every reachable state meets the invariant, for whatever the environment decides. */
  lemma {:induction false} RunSafe(run: seq<Action>)
    requires Ordered(Fed(run)) && After(Init(), run).Some?
    ensures Inv(Fed(run), After(Init(), run).value)
  {
    if run == [] {
      InitHolds();
    } else {
      var n := |run| - 1;
      FedOrdered(run, n);
      RunSafe(run[..n]);
      hide Inv, Ordered, Step;
      StepKeeps(Fed(run[..n]), After(Init(), run[..n]).value, run[n]);
    }
  }

  // ----- What commits -----

  /** The blocks on the correct path. */
  ghost function Correct(s: seq<Block>): seq<Block> {
    if s == [] then []
    else if s[|s| - 1].wrongPath then Correct(s[..|s| - 1])
    else Correct(s[..|s| - 1]) + [s[|s| - 1]]
  }

  lemma {:induction false} CorrectConcat(s: seq<Block>, t: seq<Block>)
    ensures Correct(s + t) == Correct(s) + Correct(t)
    decreases |t|
  {
    if t == [] {
      assert s + t == s && Correct(s) + [] == Correct(s);
    } else {
      var n := |t| - 1;
      assert (s + t)[..|s + t| - 1] == s + t[..n] && (s + t)[|s + t| - 1] == t[n];
      CorrectConcat(s, t[..n]);
    }
  }

  lemma {:induction false} CorrectWithout(s: seq<Block>, del: set<nat>)
    requires forall i :: 0 <= i < |s| && s[i].id in del ==> s[i].wrongPath
    ensures Correct(Without(s, del)) == Correct(s)
  {
    if s != [] {
      var n := |s| - 1;
      CorrectWithout(s[..n], del);
      var r := Without(s[..n], del);
      assert (r + [s[n]])[..|r|] == r;
    }
  }

  lemma {:induction false} CorrectAll(s: seq<Block>)
    requires forall i :: 0 <= i < |s| ==> !s[i].wrongPath
    ensures Correct(s) == s
  {
    if s != [] {
      CorrectAll(s[..|s| - 1]);
      assert s == s[..|s| - 1] + [s[|s| - 1]];
    }
  }

  /** Over every run, what has committed, then the correct-path part of what is queued and pending, is exactly
      the correct path delivered so far: no correct-path block is lost, repeated or out of order, and none of
      the wrong path commits. */
  lemma {:induction false} CommitsTheCorrectPath(run: seq<Action>)
    requires Ordered(Fed(run)) && After(Init(), run).Some?
    ensures var s := After(Init(), run).value;
            && s.committed + Correct(s.que + s.cache) == Correct(Fed(run))
            && s.committed + s.que + s.cache == Without(Fed(run), s.deleted)
            && forall i :: 0 <= i < |Fed(run)| && Fed(run)[i].id in s.deleted ==> Fed(run)[i].wrongPath
  {
    RunSafe(run);
    StreamCorrect(Fed(run), After(Init(), run).value);
  }

  lemma {:induction false} StreamCorrect(input: seq<Block>, s: State)
    requires StreamInv(input, s)
    ensures s.committed + Correct(s.que + s.cache) == Correct(input)
  {
    CorrectWithout(input, s.deleted);
    hide Ordered, Without, Correct;
    CorrectAll(s.committed);
    CorrectConcat(s.committed, s.que + s.cache);
    assert s.committed + (s.que + s.cache) == s.committed + s.que + s.cache;
  }

  // ----- Episodes -----

  /** From `s` on the run stays inside one squash episode. */
  ghost predicate Inside(s: State, run: seq<Action>) {
    forall n :: 0 <= n <= |run| ==> After(s, run[..n]).Some? && After(s, run[..n]).value.pipe != Normal
  }

  /** How often the pipe goes back to waiting for the execution units. */
  ghost function Restarts(s: State, run: seq<Action>): nat
    requires Inside(s, run)
  {
    if run == [] then 0
    else
      var n := |run| - 1;
      assert run[..n + 1] == run;
      assert forall k :: 0 <= k <= n ==> run[..n][..k] == run[..k];
      var p := After(s, run[..n]).value.pipe;
      Restarts(s, run[..n]) + if p != WaitFlush && After(s, run).value.pipe == WaitFlush then 1 else 0
  }

  lemma {:induction false} InsidePrefix(s: State, run: seq<Action>)
    requires Inside(s, run) && run != []
    ensures Inside(s, run[..|run| - 1]) && After(s, run).Some? && After(s, run).value.pipe != Normal
    ensures After(s, run[..|run| - 1]).value.pipe != Normal
  {
    var n := |run| - 1;
    assert run[..n + 1] == run;
    assert forall k :: 0 <= k <= n ==> run[..n][..k] == run[..k];
  }

  /** Within an episode the squash number never rises, and every restart lowers it, so the first number
      bounds how many there can be. */
  lemma {:induction false} RestartsBounded(input: seq<Block>, s: State, run: seq<Action>)
    requires Inv(input, s) && Inside(s, run) && Ordered(input + Fed(run))
    ensures After(s, run).Some? && Inv(input + Fed(run), After(s, run).value)
    ensures Restarts(s, run) + After(s, run).value.sn <= s.sn
  {
    if run == [] {
      assert input + [] == input;
    } else {
      var n := |run| - 1;
      InsidePrefix(s, run);
      ExtendLast(input, run);
      RestartsBounded(input, s, run[..n]);
      assert run[..n + 1] == run;
      hide Inv, Ordered, Step, Fed, Inside;
      StepKeeps(input + Fed(run[..n]), After(s, run[..n]).value, run[n]);
    }
  }

  lemma {:induction false} ExtendLast(input: seq<Block>, run: seq<Action>)
    requires run != [] && Ordered(input + Fed(run))
    ensures var n := |run| - 1;
            && input + Fed(run) == Extend(input + Fed(run[..n]), run[n])
            && Ordered(input + Fed(run[..n]))
  {
    var n := |run| - 1;
    if run[n].Feed? {
      assert input + Fed(run) == (input + Fed(run[..n])) + [run[n].b];
      FedPrefixOrdered(input + Fed(run[..n]), run[n].b);
    }
  }

  // ----- The assertions -----

  ghost predicate AlwaysRunning(run: seq<Action>) {
    forall i :: 0 <= i < |run| && run[i].Tick? ==> run[i].ch.running
  }

  lemma {:induction false} RunOpen(run: seq<Action>)
    requires Ordered(Fed(run)) && AlwaysRunning(run) && After(Init(), run).Some?
    ensures Open(After(Init(), run).value)
  {
    if run != [] {
      var n := |run| - 1;
      FedOrdered(run, n);
      RunSafe(run[..n]);
      RunOpen(run[..n]);
      var s := After(Init(), run[..n]).value;
      hide Inv, Cycle;
      match run[n]
      case Feed(b) => FeedOpen(Fed(run[..n]), s, b);
      case Tick(ch) => RunningStaysOpen(Fed(run[..n]), s, ch);
    }
  }

  lemma {:induction false} FeedOpen(input: seq<Block>, s: State, b: Block)
    requires Inv(input, s) && Open(s) && Ordered(input + [b])
    ensures Open(FeedBlock(s, b))
  {
    if s.pipe == Normal {
      FedPrefixOrdered(input, b);
      QueueOrdered(input, s);
      CommittedFed(input, s);
    }
    hide Core, Ordered;
  }
}
