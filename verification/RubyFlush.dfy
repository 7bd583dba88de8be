/**
 What a Ruby `flush` waits for, decided at the moment its marker is pushed.

 From the push until the marker is popped the queue is never empty, so every drain in between ends only when its batch
 is full. What the marker's own drain takes ahead of it is therefore the remainder of a division by the batch size.
 */
module RubyFlush {
  import opened Wrappers
  import Timestamps
  import opened Batches
  import opened RubyWriter

  /** n % b, by repeated subtraction. */
  function Rem(n: nat, b: nat): (r: nat)
    requires b > 0
    ensures r < b
  {
    if n < b then n else Rem(n - b, b)
  }

  lemma {:induction false} RemDecomposes(n: nat, b: nat) returns (q: nat)
    requires b > 0
    ensures n == b * q + Rem(n, b)
  {
    if n < b {
      q := 0;
    } else {
      var p := RemDecomposes(n - b, b);
      q := p + 1;
      Distribute(b, p);
    }
  }

  lemma Distribute(b: int, p: int)
    ensures b * (p + 1) == b * p + b
  {
  }

  lemma RemIsMod(n: nat, b: nat)
    requires b > 0
    ensures Rem(n, b) == n % b
  {
    var q := RemDecomposes(n, b);
    Timestamps.DivModUnique(n, b, q, Rem(n, b));
  }

  /** The messages that will share a batch with something pushed now, or be in batches before it: those of a batch still
      being filled, and those in the queue. */
  function Ahead(s: State): nat {
    (if s.phase == Filling then |s.batch| else 0) + |Posts(s.queue)|
  }

  /** The same for the item at index j of the queue. */
  function AheadOf(s: State, j: nat): nat
    requires j <= |s.queue|
  {
    (if s.phase == Filling then |s.batch| else 0) + |Posts(s.queue[..j])|
  }

  /** The k-th pushed item is a marker still in the queue. */
  ghost predicate Waits(cfg: Config, s: State, k: nat, lag: nat) {
    && |s.taken| <= k < |s.taken| + |s.queue| && s.queue[k - |s.taken|].Marker?
    && Rem(AheadOf(s, k - |s.taken|), Limit(cfg)) == lag
  }

  /** It has been popped: its drain took `lag` messages ahead of it, or is over and has counted its latch down. */
  ghost predicate Popped(s: State, k: nat, lag: nat) {
    && k < |s.taken| && s.taken[k].Marker?
    && if Draining(s.phase) && s.drainFrom <= k <= |s.taken| then |Posts(s.taken[s.drainFrom..k])| == lag
       else |Latches(s.taken[..k])| < |s.counted|
  }

  function Limit(cfg: Config): nat
    ensures Limit(cfg) == BatchLimit(cfg) > 0
  {
    BatchLimit(cfg)
  }

  lemma HeadCounts(q: seq<Item>, j: nat)
    requires 0 < j <= |q|
    ensures |Posts(q[..j])| == |Posts(q[1..][..j - 1])| + if q[0].Post? then 1 else 0
  {
    assert q[..j] == [q[0]] + q[1..][..j - 1];
    Concat([q[0]], q[1..][..j - 1]);
    assert [q[0]][..0] == [];
  }

  /** The marker itself is popped: first in its drain, or after the messages already in the batch. */
  lemma MarkerIsFirst(cfg: Config, s: State, lag: nat)
    requires Waits(cfg, s, |s.taken|, lag) && s.phase == Popping
    ensures Popped(WorkStep(cfg, s).value, |s.taken|, lag)
  {
    var k, s' := |s.taken|, WorkStep(cfg, s).value;
    assert s.queue[..0] == [] && s'.taken[k..k] == [];
  }

  lemma BatchIsDrained(s: State)
    requires HistoryOk(s) && DrainOk(s) && Draining(s.phase)
    ensures Posts(s.taken[s.drainFrom..]) == s.batch
  {
    PrefixCounts(s.taken, s.drainFrom, |s.taken|);
    assert s.taken[..|s.taken|] == s.taken && s.taken[s.drainFrom..|s.taken|] == s.taken[s.drainFrom..];
    var a := Attempted(s.attempts);
    assert s.batch == (a + s.batch)[|a|..];
  }

  lemma MarkerIsNext(cfg: Config, s: State, lag: nat)
    requires HistoryOk(s) && DrainOk(s) && Waits(cfg, s, |s.taken|, lag)
    requires s.phase == Filling && |s.batch| < cfg.batchSize
    ensures Popped(WorkStep(cfg, s).value, |s.taken|, lag)
  {
    var k, s' := |s.taken|, WorkStep(cfg, s).value;
    assert s.queue[..0] == [];
    BatchIsDrained(s);
    assert s'.taken[s.drainFrom..k] == s.taken[s.drainFrom..];
  }

  /** Popping an item leaves the sum of what is in the batch and what is ahead in the queue as it was. */
  lemma PopMovesOne(s: State, j: nat)
    requires s.queue != [] && 0 < j <= |s.queue|
    ensures |Take(s).batch| + |Posts(Take(s).queue[..j - 1])| == |s.batch| + |Posts(s.queue[..j])|
  {
    HeadCounts(s.queue, j);
  }

  lemma PopShape(cfg: Config, s: State)
    requires WorkStep(cfg, s).Some? && s.queue != []
    requires s.phase == Popping || (s.phase == Filling && |s.batch| < cfg.batchSize)
    ensures var s' := WorkStep(cfg, s).value;
            s'.phase == Filling && s'.queue == s.queue[1..] && s'.batch == Take(s).batch && |s'.taken| == |s.taken| + 1
  {
  }

  /** Another item ahead of it is popped. */
  lemma OtherIsPopped(cfg: Config, s: State, k: nat, lag: nat)
    requires PhaseOk(cfg, s) && Waits(cfg, s, k, lag) && |s.taken| < k
    requires s.phase == Popping || (s.phase == Filling && |s.batch| < cfg.batchSize)
    ensures Waits(cfg, WorkStep(cfg, s).value, k, lag)
  {
    PopShape(cfg, s);
    PopMovesOne(s, k - |s.taken|);
  }

  /** A full batch leaves the remainder alone. */
  lemma FullBatch(cfg: Config, s: State, k: nat, lag: nat)
    requires Inv(cfg, s) && Waits(cfg, s, k, lag) && s.phase == Filling && |s.batch| >= cfg.batchSize
    ensures Waits(cfg, WorkStep(cfg, s).value, k, lag)
  {
    var n := AheadOf(s, k - |s.taken|);
    assert |s.batch| == 0 || Rem(n, Limit(cfg)) == Rem(n - |s.batch|, Limit(cfg));
  }

  lemma WaitsThroughPop(cfg: Config, s: State, k: nat, lag: nat)
    requires Inv(cfg, s) && Waits(cfg, s, k, lag)
    requires s.phase == Popping || (s.phase == Filling && |s.batch| < cfg.batchSize)
    ensures Waits(cfg, WorkStep(cfg, s).value, k, lag) || Popped(WorkStep(cfg, s).value, k, lag)
  {
    if |s.taken| == k && s.phase == Popping {
      MarkerIsFirst(cfg, s, lag);
    } else if |s.taken| == k {
      MarkerIsNext(cfg, s, lag);
    } else {
      OtherIsPopped(cfg, s, k, lag);
    }
  }

  lemma WaitsThroughRest(cfg: Config, s: State, k: nat, lag: nat)
    requires Waits(cfg, s, k, lag) && WorkStep(cfg, s).Some? && s.phase != Popping && s.phase != Filling
    ensures Waits(cfg, WorkStep(cfg, s).value, k, lag)
  {
    var t := WorkStep(cfg, s).value;
    assert t.queue == s.queue && t.taken == s.taken && t.phase != Filling;
  }

  lemma WaitsThroughWork(cfg: Config, s: State, k: nat, lag: nat)
    requires Inv(cfg, s) && Waits(cfg, s, k, lag) && WorkStep(cfg, s).Some?
    ensures Waits(cfg, WorkStep(cfg, s).value, k, lag) || Popped(WorkStep(cfg, s).value, k, lag)
  {
    if s.phase == Popping || (s.phase == Filling && |s.batch| < cfg.batchSize) {
      WaitsThroughPop(cfg, s, k, lag);
    } else if s.phase == Filling {
      FullBatch(cfg, s, k, lag);
    } else {
      WaitsThroughRest(cfg, s, k, lag);
    }
  }

  lemma WaitsThroughPush(cfg: Config, s: State, e: Event, k: nat, lag: nat)
    requires Waits(cfg, s, k, lag) && !e.Work? && Step(cfg, s, e).Some?
    ensures Waits(cfg, Step(cfg, s, e).value, k, lag)
  {
    var t, j := Step(cfg, s, e).value, k - |s.taken|;
    assert t.queue[..j] == s.queue[..j];
  }

  /** When a drain is over, every latch it popped has been counted down. */
  lemma DrainCountsDown(cfg: Config, s: State, k: nat)
    requires Inv(cfg, s) && s.markers == [] && k < |s.taken| && s.taken[k].Marker?
    ensures |Latches(s.taken[..k])| < |s.counted|
  {
    assert s.counted + [] == s.counted;
    PrefixCounts(s.taken, k + 1, |s.taken|);
    assert s.taken[..|s.taken|] == s.taken;
    assert s.taken[..k + 1] == s.taken[..k] + [s.taken[k]];
    Snoc(s.taken[..k], s.taken[k]);
  }

  /** A step pops at most one item, takes back no countdown, and moves `drainFrom` only to start a drain. */
  lemma StepShape(cfg: Config, s: State, e: Event)
    requires Step(cfg, s, e).Some?
    ensures var t := Step(cfg, s, e).value;
            && s.taken <= t.taken && |s.counted| <= |t.counted|
            && t.drainFrom == (if s.phase == Popping && t.phase == Filling then |s.taken| else s.drainFrom)
            && (Draining(t.phase) ==> Draining(s.phase) || (s.phase == Popping && t.phase == Filling))
  {
  }

  lemma DrainGoesOn(s: State, t: State, k: nat, lag: nat)
    requires Popped(s, k, lag) && s.taken <= t.taken && |s.counted| <= |t.counted|
    requires Draining(t.phase) || !Draining(s.phase)
    requires Draining(t.phase) ==> t.drainFrom == if Draining(s.phase) then s.drainFrom else |s.taken|
    ensures Popped(t, k, lag)
  {
    assert t.taken[..k] == s.taken[..k];
    if Draining(s.phase) && s.drainFrom <= k {
      assert t.taken[s.drainFrom..k] == s.taken[s.drainFrom..k];
    }
  }

  lemma DrainEnds(cfg: Config, s: State, e: Event, k: nat, lag: nat)
    requires Inv(cfg, s) && Popped(s, k, lag) && Step(cfg, s, e).Some?
    requires Draining(s.phase) && !Draining(Step(cfg, s, e).value.phase)
    ensures Popped(Step(cfg, s, e).value, k, lag)
  {
    DrainCountsDown(cfg, s, k);
  }

  lemma PoppedStays(cfg: Config, s: State, e: Event, k: nat, lag: nat)
    requires Inv(cfg, s) && Popped(s, k, lag) && Step(cfg, s, e).Some?
    ensures Popped(Step(cfg, s, e).value, k, lag)
  {
    var t := Step(cfg, s, e).value;
    if Draining(s.phase) && !Draining(t.phase) {
      DrainEnds(cfg, s, e, k, lag);
    } else {
      StepShape(cfg, s, e);
      DrainGoesOn(s, t, k, lag);
    }
  }

  lemma StepKeepsLag(cfg: Config, s: State, e: Event, k: nat, lag: nat)
    requires Inv(cfg, s) && Step(cfg, s, e).Some? && (Waits(cfg, s, k, lag) || Popped(s, k, lag))
    ensures Waits(cfg, Step(cfg, s, e).value, k, lag) || Popped(Step(cfg, s, e).value, k, lag)
  {
    if Popped(s, k, lag) {
      PoppedStays(cfg, s, e, k, lag);
    } else if e.Work? {
      WaitsThroughWork(cfg, s, k, lag);
    } else {
      WaitsThroughPush(cfg, s, e, k, lag);
    }
  }

  lemma PushedMarkerWaits(cfg: Config, s: State, latch: nat)
    requires Step(cfg, s, PushMarker(latch)).Some?
    ensures Waits(cfg, Step(cfg, s, PushMarker(latch)).value, |Pushed(s)|, Rem(Ahead(s), Limit(cfg)))
  {
    var t := Step(cfg, s, PushMarker(latch)).value;
    assert t.queue[..|s.queue|] == s.queue;
  }

  /** `flush` is called at event p of the run: what its caller can see then, and where its marker goes. */
  ghost predicate FlushedAt(cfg: Config, es: seq<Event>, p: nat) {
    p < |es| && es[p].PushMarker? && Run(cfg, es[..p]).Some?
  }

  function Lag(cfg: Config, s: State): nat {
    Ahead(s) % Limit(cfg)
  }

  /** Where the marker pushed in state s0 stands in state s. */
  ghost predicate Tracked(cfg: Config, s0: State, s: State) {
    var k, lag := |Pushed(s0)|, Rem(Ahead(s0), Limit(cfg));
    Waits(cfg, s, k, lag) || Popped(s, k, lag)
  }

  lemma PushIsTracked(cfg: Config, s: State, e: Event)
    requires e.PushMarker? && Step(cfg, s, e).Some?
    ensures Tracked(cfg, s, Step(cfg, s, e).value)
  {
    PushedMarkerWaits(cfg, s, e.latch);
  }

  lemma StepIsTracked(cfg: Config, s0: State, s: State, e: Event)
    requires Inv(cfg, s) && Tracked(cfg, s0, s) && Step(cfg, s, e).Some?
    ensures Tracked(cfg, s0, Step(cfg, s, e).value)
  {
    StepKeepsLag(cfg, s, e, |Pushed(s0)|, Rem(Ahead(s0), Limit(cfg)));
  }

  lemma {:induction false} RunKeepsLag(cfg: Config, es: seq<Event>, p: nat, s0: State)
    requires p < |es| && es[p].PushMarker? && Run(cfg, es[..p]) == Some(s0) && Run(cfg, es).Some?
    ensures Tracked(cfg, s0, Run(cfg, es).value)
    decreases |es|
  {
    var n := |es| - 1;
    if p == n {
      PushIsTracked(cfg, s0, es[p]);
    } else {
      assert es[..n][..p] == es[..p] && es[..n][p] == es[p];
      RunKeepsLag(cfg, es[..n], p, s0);
      RunKeepsInv(cfg, es[..n]);
      StepIsTracked(cfg, s0, Run(cfg, es[..n]).value, es[n]);
    }
  }

  /** The last event of the run counts the k-th pushed item's latch down: its `flush` returns now. */
  ghost predicate ReleasedNow(cfg: Config, es: seq<Event>, k: nat) {
    && es != [] && Run(cfg, es).Some?
    && CountedDown(Run(cfg, es).value, k) && !CountedDown(Run(cfg, es[..|es| - 1]).value, k)
  }

  lemma OnlyCountingReleases(cfg: Config, s: State, e: Event, k: nat)
    requires Step(cfg, s, e).Some? && k < |Pushed(s)|
    requires CountedDown(Step(cfg, s, e).value, k) && !CountedDown(s, k)
    ensures e == Work && s.phase == Counting && s.markers != []
  {
    var t := Step(cfg, s, e).value;
    PushedGrows(cfg, s, e);
    assert Pushed(t)[..k] == Pushed(s)[..k];
  }

  lemma PushedGrows(cfg: Config, s: State, e: Event)
    requires Step(cfg, s, e).Some?
    ensures Pushed(s) <= Pushed(Step(cfg, s, e).value)
  {
    var t := Step(cfg, s, e).value;
    if e.Work? {
      WorkPushesNothing(cfg, s);
    } else {
      assert t.taken == s.taken && s.queue <= t.queue;
    }
  }

  /** A push does not release the marker it pushes. */
  lemma NotReleasedByItsPush(cfg: Config, s: State, e: Event)
    requires HistoryOk(s) && e.PushMarker? && Step(cfg, s, e).Some?
    requires HistoryOk(Step(cfg, s, e).value)
    ensures !CountedDown(Step(cfg, s, e).value, |Pushed(s)|)
  {
    var t := Step(cfg, s, e).value;
    if CountedDown(t, |Pushed(s)|) {
      CountedIsPopped(t, |Pushed(s)|);
      assert false;
    }
  }

  /** The latch is counted down by the drain that popped its marker, which took `lag` messages ahead of it. */
  lemma ReleasedByItsDrain(cfg: Config, s: State, t: State, e: Event, k: nat, lag: nat)
    requires Inv(cfg, s) && Step(cfg, s, e) == Some(t) && Inv(cfg, t)
    requires k < |Pushed(s)| && (Waits(cfg, s, k, lag) || Popped(s, k, lag))
    requires CountedDown(t, k) && !CountedDown(s, k)
    ensures t.phase == Counting && t.taken == s.taken && t.attempts == s.attempts
    ensures k < |t.taken| && t.drainFrom <= k && |Posts(t.taken[t.drainFrom..k])| == lag
  {
    OnlyCountingReleases(cfg, s, e, k);
    CountedIsPopped(t, k);
    assert t.taken == s.taken;
    assert Pushed(s)[k] == s.taken[k] && Pushed(s)[..k] == s.taken[..k];
  }

  lemma DrainMisses(cfg: Config, s: State, k: nat)
    requires Inv(cfg, s) && Draining(s.phase) && s.drainFrom <= k <= |s.taken|
    ensures var before := Posts(s.taken[..k]);
            Attempted(s.attempts) <= before && |Attempted(s.attempts)| + |Posts(s.taken[s.drainFrom..k])| == |before|
  {
    PrefixCounts(s.taken, s.drainFrom, k);
  }

  /** Of the messages among the first k pushed items exactly the last `lag` have not been attempted. */
  ghost predicate Misses(s: State, k: nat, lag: nat) {
    && k <= |Pushed(s)|
    && Attempted(s.attempts) <= Posts(Pushed(s)[..k])
    && |Attempted(s.attempts)| + lag == |Posts(Pushed(s)[..k])|
  }

  /** What is missing at the countdown, in the state t it leads to. */
  lemma CountdownMisses(cfg: Config, s0: State, s: State, t: State, e: Event)
    requires Inv(cfg, s) && Step(cfg, s, e) == Some(t) && Inv(cfg, t) && Tracked(cfg, s0, s)
    requires CountedDown(t, |Pushed(s0)|) && !CountedDown(s, |Pushed(s0)|)
    ensures Misses(t, |Pushed(s0)|, Lag(cfg, s0))
  {
    var k, lag := |Pushed(s0)|, Rem(Ahead(s0), Limit(cfg));
    ReleasedByItsDrain(cfg, s, t, e, k, lag);
    DrainMisses(cfg, t, k);
    assert Pushed(t)[..k] == t.taken[..k];
    RemIsMod(Ahead(s0), Limit(cfg));
  }

  /** The run calls `flush` at event p, and that flush's latch is counted down by the last event. */
  ghost predicate FlushReturns(cfg: Config, es: seq<Event>, p: nat) {
    FlushedAt(cfg, es, p) && ReleasedNow(cfg, es, |Pushed(Run(cfg, es[..p]).value)|)
  }

  /** The push is not the last event, and the marker has been tracked up to there. */
  lemma TrackedToTheLast(cfg: Config, es: seq<Event>, p: nat)
    requires FlushReturns(cfg, es, p)
    ensures Tracked(cfg, Run(cfg, es[..p]).value, Run(cfg, es[..|es| - 1]).value)
  {
    var n := |es| - 1;
    if p == n {
      RunKeepsInv(cfg, es);
      RunKeepsInv(cfg, es[..n]);
      NotReleasedByItsPush(cfg, Run(cfg, es[..n]).value, es[n]);
      assert false;
    } else {
      assert es[..n][..p] == es[..p] && es[..n][p] == es[p];
      RunKeepsLag(cfg, es[..n], p, Run(cfg, es[..p]).value);
    }
  }

  lemma ReleaseMisses(cfg: Config, es: seq<Event>, s0: State)
    requires ReleasedNow(cfg, es, |Pushed(s0)|) && Tracked(cfg, s0, Run(cfg, es[..|es| - 1]).value)
    ensures Misses(Run(cfg, es).value, |Pushed(s0)|, Lag(cfg, s0))
  {
    RunKeepsInv(cfg, es);
    RunKeepsInv(cfg, es[..|es| - 1]);
    CountdownMisses(cfg, s0, Run(cfg, es[..|es| - 1]).value, Run(cfg, es).value, es[|es| - 1]);
  }

  /**
   How much a Ruby `flush` misses, known at the push. Let `flush` push its marker at event p, in state s0. When its
   latch is counted down, exactly the last `Lag(s0)` messages pushed before it have not been attempted, where `Lag` is
   the number of messages in the batch being filled and the queue, modulo max(1, batch_size).
   */
  lemma FlushMissesLag(cfg: Config, es: seq<Event>, p: nat)
    requires FlushReturns(cfg, es, p)
    ensures var s0 := Run(cfg, es[..p]).value; Misses(Run(cfg, es).value, |Pushed(s0)|, Lag(cfg, s0))
  {
    TrackedToTheLast(cfg, es, p);
    ReleaseMisses(cfg, es, Run(cfg, es[..p]).value);
  }

  /** So `flush` has the meaning its name promises exactly when the batch being filled and the queue together held a
      whole number of batches at the call. */
  lemma FlushIsABarrierIff(cfg: Config, es: seq<Event>, p: nat)
    requires FlushReturns(cfg, es, p)
    ensures var s0, s := Run(cfg, es[..p]).value, Run(cfg, es).value;
            Posts(Pushed(s)[..|Pushed(s0)|]) <= Attempted(s.attempts) <==> Ahead(s0) % BatchLimit(cfg) == 0
  {
    FlushMissesLag(cfg, es, p);
  }
}
