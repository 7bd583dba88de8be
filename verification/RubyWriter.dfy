/**
 The Ruby writer: a bounded queue of messages and flush markers, and one worker thread. The machine's steps are the
 worker's queue operations, checks, countdowns and writes; callers interleave between any two of them.
 */
module RubyWriter {
  import opened Wrappers
  import opened Ledgers
  import opened Batches

  datatype Item = Post(msg: Message) | Marker(latch: nat)

  datatype Phase = LoopHead | DrainHead | Popping | Filling | Counting | Writing | Exited

  /** `taken`, `attempts`, `counted` and `calls` are history: every item popped, every insert_all, every latch counted
      down, and the number of `enqueue` calls. `drainFrom` is how much had been popped when the current drain began. */
  datatype State = State(queue: seq<Item>, shutdown: bool, dropped: nat, phase: Phase, batch: seq<Message>,
                         markers: seq<nat>, taken: seq<Item>, drainFrom: nat, attempts: seq<Attempt>,
                         counted: seq<nat>, calls: nat)

  /** The configuration's batch size may be zero or negative. */
  datatype Config = Config(batchSize: int, capacity: nat)

  datatype Event =
    | Enqueue(msg: Message)                // non-blocking push
    | PushMarker(latch: nat)               // blocking push, so only when there is room
    | Stop                                 // @shutdown.make_true
    | Work                                 // the worker's next step
    | Timeout                              // pop(timeout: 0.1) returns nil
    | Write(ids: Option<seq<int>>)         // insert_all returns or raises

  const INITIAL := State([], false, 0, LoopHead, [], [], [], 0, [], [], 0)

  /** Every item pushed, in order. */
  function Pushed(s: State): seq<Item> {
    s.taken + s.queue
  }

  function Take(s: State): State
    requires s.queue != []
  {
    var t := s.(queue := s.queue[1..], taken := s.taken + [s.queue[0]]);
    match s.queue[0]
    case Post(m) => t.(batch := s.batch + [m])
    case Marker(latch) => t.(markers := s.markers + [latch])
  }

  function WorkStep(cfg: Config, s: State): Option<State> {
    match s.phase
    case LoopHead => Some(s.(phase := if s.shutdown && s.queue == [] then Exited else DrainHead))
    case DrainHead =>
      // the `until` condition; leaving it without an item returns an empty batch
      Some(if s.shutdown && s.queue == [] then s.(phase := LoopHead) else s.(phase := Popping))
    case Popping => if s.queue == [] then None else Some(Take(s).(phase := Filling, drainFrom := |s.taken|))
    case Filling =>
      if |s.batch| >= cfg.batchSize || s.queue == [] then Some(s.(phase := Counting)) else Some(Take(s))
    case Counting =>
      if s.markers != [] then Some(s.(markers := s.markers[1..], counted := s.counted + [s.markers[0]]))
      else Some(s.(phase := if s.batch == [] then LoopHead else Writing))
    case Writing => None
    case Exited => None
  }

  function Step(cfg: Config, s: State, e: Event): Option<State> {
    match e
    case Enqueue(msg) =>
      Some(if |s.queue| < cfg.capacity then s.(queue := s.queue + [Post(msg)], calls := s.calls + 1)
           else s.(dropped := s.dropped + 1, calls := s.calls + 1))
    case PushMarker(latch) =>
      if |s.queue| < cfg.capacity then Some(s.(queue := s.queue + [Marker(latch)])) else None
    case Stop => Some(s.(shutdown := true))
    case Work => WorkStep(cfg, s)
    case Timeout => if s.phase == Popping && s.queue == [] then Some(s.(phase := DrainHead)) else None
    case Write(ids) =>
      if s.phase == Writing && (ids.Some? ==> |ids.value| == |s.batch|)
      then Some(s.(attempts := s.attempts + [Attempt(s.batch, ids, false)], batch := [], phase := LoopHead))
      else None
  }

  function Run(cfg: Config, es: seq<Event>): Option<State> {
    if es == [] then Some(INITIAL)
    else match Run(cfg, es[..|es| - 1])
      case None => None
      case Some(s) => Step(cfg, s, es[|es| - 1])
  }

  // ---- Invariant ----

  function Posts(xs: seq<Item>): (ms: seq<Message>)
    ensures |ms| <= |xs|
  {
    if xs == [] then []
    else Posts(xs[..|xs| - 1]) + if xs[|xs| - 1].Post? then [xs[|xs| - 1].msg] else []
  }

  function Latches(xs: seq<Item>): (ls: seq<nat>)
    ensures |ls| <= |xs|
  {
    if xs == [] then []
    else Latches(xs[..|xs| - 1]) + if xs[|xs| - 1].Marker? then [xs[|xs| - 1].latch] else []
  }

  function BatchLimit(cfg: Config): int {
    if cfg.batchSize < 1 then 1 else cfg.batchSize
  }

  predicate Draining(p: Phase) {
    p == Filling || p == Counting || p == Writing
  }

  ghost predicate HistoryOk(s: State) {
    && Posts(s.taken) == Attempted(s.attempts) + s.batch
    && Latches(s.taken) == s.counted + s.markers
  }

  ghost predicate PhaseOk(cfg: Config, s: State) {
    && (!Draining(s.phase) ==> s.batch == [] && s.markers == [])
    && (s.phase == Writing ==> s.batch != [] && s.markers == [])
    && |s.batch| <= BatchLimit(cfg)
    && (s.phase == Exited ==> s.shutdown)
  }

  /** What had been popped when the current drain began had all been attempted. */
  ghost predicate DrainOk(s: State) {
    s.drainFrom <= |s.taken| && (Draining(s.phase) ==> Posts(s.taken[..s.drainFrom]) == Attempted(s.attempts))
  }

  ghost predicate SizesOk(cfg: Config, attempts: seq<Attempt>) {
    forall a :: a in attempts ==> a.WellFormed() && |a.msgs| <= BatchLimit(cfg)
  }

  /** The queue is bounded, and every `enqueue` call was accepted or counted as dropped. */
  ghost predicate CallsOk(cfg: Config, s: State) {
    |s.queue| <= cfg.capacity && |Posts(Pushed(s))| + s.dropped == s.calls
  }

  ghost predicate Inv(cfg: Config, s: State) {
    HistoryOk(s) && PhaseOk(cfg, s) && DrainOk(s) && SizesOk(cfg, s.attempts) && CallsOk(cfg, s)
  }

  lemma Snoc(xs: seq<Item>, x: Item)
    ensures Posts(xs + [x]) == Posts(xs) + if x.Post? then [x.msg] else []
    ensures Latches(xs + [x]) == Latches(xs) + if x.Marker? then [x.latch] else []
  {
    assert (xs + [x])[..|xs|] == xs;
  }

  lemma SplitLast(xs: seq<Item>, ys: seq<Item>)
    requires ys != []
    ensures xs + ys == (xs + ys[..|ys| - 1]) + [ys[|ys| - 1]]
  {
  }

  lemma {:induction false} ConcatPosts(xs: seq<Item>, ys: seq<Item>)
    ensures Posts(xs + ys) == Posts(xs) + Posts(ys)
    decreases |ys|
  {
    if ys == [] {
      assert xs + ys == xs;
    } else {
      var front, last := ys[..|ys| - 1], ys[|ys| - 1];
      ConcatPosts(xs, front);
      SplitLast(xs, ys);
      Snoc(xs + front, last);
      Associates(Posts(xs), Posts(front), Posts([last]));
      One(last);
    }
  }

  lemma {:induction false} ConcatLatches(xs: seq<Item>, ys: seq<Item>)
    ensures Latches(xs + ys) == Latches(xs) + Latches(ys)
    decreases |ys|
  {
    if ys == [] {
      assert xs + ys == xs;
    } else {
      var front, last := ys[..|ys| - 1], ys[|ys| - 1];
      ConcatLatches(xs, front);
      SplitLast(xs, ys);
      Snoc(xs + front, last);
      Associates(Latches(xs), Latches(front), Latches([last]));
      One(last);
    }
  }

  lemma One(x: Item)
    ensures Posts([x]) == if x.Post? then [x.msg] else []
    ensures Latches([x]) == if x.Marker? then [x.latch] else []
  {
    assert [x][..0] == [];
  }

  lemma Concat(xs: seq<Item>, ys: seq<Item>)
    ensures Posts(xs + ys) == Posts(xs) + Posts(ys)
    ensures Latches(xs + ys) == Latches(xs) + Latches(ys)
  {
    ConcatPosts(xs, ys);
    ConcatLatches(xs, ys);
  }

  lemma PrefixCounts(xs: seq<Item>, j: nat, k: nat)
    requires j <= k <= |xs|
    ensures Posts(xs[..k]) == Posts(xs[..j]) + Posts(xs[j..k])
    ensures Latches(xs[..k]) == Latches(xs[..j]) + Latches(xs[j..k])
  {
    assert xs[..k] == xs[..j] + xs[j..k];
    Concat(xs[..j], xs[j..k]);
  }

  lemma TakeKeepsHistory(s: State)
    requires HistoryOk(s) && s.queue != []
    ensures HistoryOk(Take(s))
  {
    var x := s.queue[0];
    Snoc(s.taken, x);
    match x
    case Post(m) => Associates(Attempted(s.attempts), s.batch, [m]);
    case Marker(l) => Associates(s.counted, s.markers, [l]);
  }

  lemma TakePushesNothing(s: State)
    requires s.queue != []
    ensures Pushed(Take(s)) == Pushed(s)
  {
    assert s.queue == [s.queue[0]] + s.queue[1..];
  }

  /** The worker's next step pops an item, counts a latch down, or only moves on. */
  lemma WorkShape(cfg: Config, s: State)
    requires WorkStep(cfg, s).Some?
    ensures var s' := WorkStep(cfg, s).value;
            if s.phase == Popping || (s.phase == Filling && s'.phase == Filling)
            then s.queue != [] && s' == Take(s).(phase := s'.phase, drainFrom := s'.drainFrom)
            else if s.phase == Counting && s.markers != []
            then s' == s.(markers := s.markers[1..], counted := s.counted + [s.markers[0]])
            else s' == s.(phase := s'.phase)
  {
  }

  lemma ControlIsNotHistory(s: State, p: Phase, d: nat)
    requires HistoryOk(s)
    ensures HistoryOk(s.(phase := p, drainFrom := d))
  {
  }

  lemma CountKeepsHistory(s: State)
    requires HistoryOk(s) && s.markers != []
    ensures HistoryOk(s.(markers := s.markers[1..], counted := s.counted + [s.markers[0]]))
  {
    Shift(s.counted, s.markers);
  }

  lemma WorkKeepsHistory(cfg: Config, s: State)
    requires HistoryOk(s) && WorkStep(cfg, s).Some?
    ensures HistoryOk(WorkStep(cfg, s).value)
  {
    var s' := WorkStep(cfg, s).value;
    WorkShape(cfg, s);
    if s.phase == Popping || (s.phase == Filling && s'.phase == Filling) {
      TakeKeepsHistory(s);
      ControlIsNotHistory(Take(s), s'.phase, s'.drainFrom);
    } else if s.phase == Counting && s.markers != [] {
      CountKeepsHistory(s);
    } else {
      ControlIsNotHistory(s, s'.phase, s.drainFrom);
    }
  }

  lemma WorkPushesNothing(cfg: Config, s: State)
    requires WorkStep(cfg, s).Some?
    ensures Pushed(WorkStep(cfg, s).value) == Pushed(s)
  {
    WorkShape(cfg, s);
    if s.queue != [] {
      TakePushesNothing(s);
    }
  }

  lemma WorkKeepsCalls(cfg: Config, s: State)
    requires CallsOk(cfg, s) && WorkStep(cfg, s).Some?
    ensures CallsOk(cfg, WorkStep(cfg, s).value) && WorkStep(cfg, s).value.attempts == s.attempts
  {
    WorkPushesNothing(cfg, s);
    WorkShape(cfg, s);
  }

  lemma WorkKeepsPhase(cfg: Config, s: State)
    requires PhaseOk(cfg, s) && WorkStep(cfg, s).Some?
    ensures PhaseOk(cfg, WorkStep(cfg, s).value)
  {
  }

  lemma PopKeepsDrain(cfg: Config, s: State)
    requires HistoryOk(s) && PhaseOk(cfg, s) && s.phase == Popping && s.queue != []
    ensures DrainOk(WorkStep(cfg, s).value)
  {
    var s' := WorkStep(cfg, s).value;
    assert s'.taken[..|s.taken|] == s.taken;
    assert Attempted(s.attempts) + [] == Attempted(s.attempts);
  }

  lemma DrainGrows(s: State, t: State)
    requires DrainOk(s) && s.taken <= t.taken && t.drainFrom == s.drainFrom && t.attempts == s.attempts
    requires Draining(t.phase) ==> Draining(s.phase)
    ensures DrainOk(t)
  {
    assert t.taken[..s.drainFrom] == s.taken[..s.drainFrom];
  }

  lemma WorkKeepsDrain(cfg: Config, s: State)
    requires HistoryOk(s) && PhaseOk(cfg, s) && DrainOk(s) && WorkStep(cfg, s).Some?
    ensures DrainOk(WorkStep(cfg, s).value)
  {
    if s.phase == Popping {
      PopKeepsDrain(cfg, s);
    } else {
      WorkShape(cfg, s);
      DrainGrows(s, WorkStep(cfg, s).value);
    }
  }

  lemma WriteKeepsHistory(cfg: Config, s: State, ids: Option<seq<int>>)
    requires HistoryOk(s) && Step(cfg, s, Write(ids)).Some?
    ensures HistoryOk(Step(cfg, s, Write(ids)).value)
  {
    var s' := Step(cfg, s, Write(ids)).value;
    assert s'.attempts[..|s.attempts|] == s.attempts;
    assert Attempted(s'.attempts) + [] == Attempted(s.attempts) + s.batch;
  }

  lemma WriteKeepsRest(cfg: Config, s: State, ids: Option<seq<int>>)
    requires PhaseOk(cfg, s) && SizesOk(cfg, s.attempts) && DrainOk(s) && CallsOk(cfg, s)
    requires Step(cfg, s, Write(ids)).Some?
    ensures var s' := Step(cfg, s, Write(ids)).value;
            PhaseOk(cfg, s') && SizesOk(cfg, s'.attempts) && DrainOk(s') && CallsOk(cfg, s')
  {
    assert Pushed(Step(cfg, s, Write(ids)).value) == Pushed(s);
  }

  lemma PushedSnoc(s: State, x: Item)
    ensures var t := s.(queue := s.queue + [x]);
            Posts(Pushed(t)) == Posts(Pushed(s)) + if x.Post? then [x.msg] else []
  {
    Associates(s.taken, s.queue, [x]);
    Snoc(Pushed(s), x);
  }

  lemma PushKeepsCalls(cfg: Config, s: State, e: Event)
    requires CallsOk(cfg, s) && (e.Enqueue? || e.PushMarker?) && Step(cfg, s, e).Some?
    ensures CallsOk(cfg, Step(cfg, s, e).value)
  {
    var t := Step(cfg, s, e).value;
    PushedSnoc(s, if e.Enqueue? then Post(e.msg) else Marker(e.latch));
    if t.queue == s.queue {
      assert Pushed(t) == Pushed(s);
    } else {
      assert Pushed(t) == Pushed(s.(queue := t.queue));
    }
  }

  /** The worker's own part is untouched: a caller's step, or the end of a wait. */
  lemma OutsideKeepsRest(cfg: Config, s: State, e: Event)
    requires HistoryOk(s) && PhaseOk(cfg, s) && DrainOk(s) && SizesOk(cfg, s.attempts)
    requires !e.Work? && !e.Write? && Step(cfg, s, e).Some?
    ensures var s' := Step(cfg, s, e).value;
            HistoryOk(s') && PhaseOk(cfg, s') && DrainOk(s') && SizesOk(cfg, s'.attempts)
  {
    var s' := Step(cfg, s, e).value;
    assert s' == s.(queue := s'.queue, shutdown := s'.shutdown, dropped := s'.dropped, calls := s'.calls,
                    phase := s'.phase);
  }

  lemma StepKeepsInv(cfg: Config, s: State, e: Event)
    requires Inv(cfg, s) && Step(cfg, s, e).Some?
    ensures Inv(cfg, Step(cfg, s, e).value)
  {
    match e {
      case Work =>
        WorkKeepsHistory(cfg, s);
        WorkKeepsPhase(cfg, s);
        WorkKeepsDrain(cfg, s);
        WorkKeepsCalls(cfg, s);
      case Write(ids) =>
        WriteKeepsHistory(cfg, s, ids);
        WriteKeepsRest(cfg, s, ids);
      case _ =>
        OutsideKeepsRest(cfg, s, e);
        OutsideKeepsCalls(cfg, s, e);
    }
  }

  lemma OutsideKeepsCalls(cfg: Config, s: State, e: Event)
    requires CallsOk(cfg, s) && !e.Work? && !e.Write? && Step(cfg, s, e).Some?
    ensures CallsOk(cfg, Step(cfg, s, e).value)
  {
    if e.Enqueue? || e.PushMarker? {
      PushKeepsCalls(cfg, s, e);
    } else {
      assert Pushed(Step(cfg, s, e).value) == Pushed(s);
    }
  }

  lemma {:induction false} RunKeepsInv(cfg: Config, es: seq<Event>)
    requires Run(cfg, es).Some?
    ensures Inv(cfg, Run(cfg, es).value)
  {
    if es == [] {
    } else {
      RunKeepsInv(cfg, es[..|es| - 1]);
      StepKeepsInv(cfg, Run(cfg, es[..|es| - 1]).value, es[|es| - 1]);
    }
  }

  lemma BatchInHand(cfg: Config, es: seq<Event>)
    requires Run(cfg, es).Some? && Run(cfg, es).value.phase == Writing
    ensures Run(cfg, es).value.batch != []
  {
    RunKeepsInv(cfg, es);
  }

  lemma NoBatchBetweenDrains(cfg: Config, es: seq<Event>)
    requires Run(cfg, es).Some? && !Draining(Run(cfg, es).value.phase)
    ensures Run(cfg, es).value.batch == [] && Run(cfg, es).value.markers == []
  {
    RunKeepsInv(cfg, es);
  }

  lemma AtRest(cfg: Config, es: seq<Event>)
    requires Run(cfg, es).Some? && !Draining(Run(cfg, es).value.phase)
    ensures var s := Run(cfg, es).value; Attempted(s.attempts) == Posts(s.taken) && s.counted == Latches(s.taken)
  {
    var s := Run(cfg, es).value;
    RunKeepsInv(cfg, es);
    assert Attempted(s.attempts) + [] == Attempted(s.attempts);
    assert s.counted + [] == s.counted;
  }

  // ---- Guarantees ----

  /** The queue never holds more than its capacity, markers included; every `enqueue` call was accepted or counted as
      dropped; and the accepted messages are the attempted batches, the batch in hand and the queue, in push order. */
  lemma Accounting(cfg: Config, es: seq<Event>)
    requires Run(cfg, es).Some?
    ensures var s := Run(cfg, es).value;
            && |s.queue| <= cfg.capacity
            && |Posts(Pushed(s))| + s.dropped == s.calls
            && Posts(Pushed(s)) == Attempted(s.attempts) + s.batch + Posts(s.queue)
            && Latches(Pushed(s)) == s.counted + s.markers + Latches(s.queue)
  {
    var s := Run(cfg, es).value;
    RunKeepsInv(cfg, es);
    Concat(s.taken, s.queue);
  }

  /** The k-th pushed item is a marker, and enough latches were counted down that its own was among them. */
  ghost predicate CountedDown(s: State, k: int) {
    0 <= k < |Pushed(s)| && Pushed(s)[k].Marker? && |Latches(Pushed(s)[..k])| < |s.counted|
  }

  /**
   Ruby `flush` waits for "dequeued", not for "written". Once a marker has been counted down, every message pushed
   before it has left the queue, and all of them but those in the batch just drained, at most max(1, batch_size),
   have been attempted. No batch is in hand when the next drain begins.
   */
  lemma FlushLagsOneBatch(cfg: Config, es: seq<Event>, k: int)
    requires Run(cfg, es).Some? && CountedDown(Run(cfg, es).value, k)
    ensures var s := Run(cfg, es).value;
            && k < |s.taken|
            && Posts(Pushed(s)[..k]) <= Attempted(s.attempts) + s.batch
            && |s.batch| <= BatchLimit(cfg)
            && (s.phase in {LoopHead, DrainHead, Popping, Exited} ==> Posts(Pushed(s)[..k]) <= Attempted(s.attempts))
  {
    var s := Run(cfg, es).value;
    RunKeepsInv(cfg, es);
    CountedIsPopped(s, k);
    assert Pushed(s)[..k] == s.taken[..k];
    PrefixCounts(s.taken, k, |s.taken|);
    assert s.taken[..|s.taken|] == s.taken;
    assert Attempted(s.attempts) + [] == Attempted(s.attempts);
  }

  /** Only latches of popped markers are counted down. */
  lemma CountedIsPopped(s: State, k: int)
    requires HistoryOk(s) && CountedDown(s, k)
    ensures k < |s.taken|
  {
    assert Pushed(s)[..|s.taken|] == s.taken;
    if k >= |s.taken| {
      PrefixCounts(Pushed(s), |s.taken|, k);
      assert false;
    }
  }

  /** When `run_loop` has returned: everything pushed up to its final shutdown-and-empty check (event n of the run) has
      been popped, every such message passed to insert_all exactly once in push order, and every such latch counted
      down; what is still queued was pushed after that check. */
  lemma ExitLosesNothingChecked(cfg: Config, es: seq<Event>, n: nat)
    requires n < |es| && Run(cfg, es).Some?
    requires Run(cfg, es[..n]).Some? && Run(cfg, es[..n]).value.phase == LoopHead
    requires Run(cfg, es[..n + 1]).Some? && Run(cfg, es[..n + 1]).value.phase == Exited
    ensures var s, t := Run(cfg, es[..n]).value, Run(cfg, es).value;
            && t.phase == Exited && Pushed(s) == t.taken
            && Attempted(t.attempts) == Posts(Pushed(s))
            && t.counted == Latches(Pushed(s))
  {
    var s, u := Run(cfg, es[..n]).value, Run(cfg, es[..n + 1]).value;
    assert es[..n + 1][..n] == es[..n];
    assert u.taken == s.taken && s.queue == [];
    StaysExited(cfg, es, n + 1);
    AtRest(cfg, es);
  }

  lemma {:induction false} StaysExited(cfg: Config, es: seq<Event>, n: nat)
    requires n <= |es| && Run(cfg, es).Some? && Run(cfg, es[..n]).Some? && Run(cfg, es[..n]).value.phase == Exited
    ensures Run(cfg, es).value.phase == Exited && Run(cfg, es).value.taken == Run(cfg, es[..n]).value.taken
    decreases |es|
  {
    if n < |es| {
      assert es[..|es| - 1][..n] == es[..n];
      StaysExited(cfg, es[..|es| - 1], n);
    } else {
      assert es[..n] == es;
    }
  }

  /** Every insert_all has between 1 and max(1, batch_size) rows. */
  lemma BatchSizes(cfg: Config, es: seq<Event>, a: Attempt)
    requires Run(cfg, es).Some? && a in Run(cfg, es).value.attempts
    ensures 1 <= |a.msgs| <= if cfg.batchSize < 1 then 1 else cfg.batchSize
  {
    RunKeepsInv(cfg, es);
  }

  ghost predicate Settled(s: State) {
    s.batch == [] && Posts(s.queue) == []
  }

  lemma SettledInv(cfg: Config, s: State)
    requires Inv(cfg, s) && Settled(s)
    ensures Attempted(s.attempts) == Posts(Pushed(s))
  {
    Concat(s.taken, s.queue);
    var a := Attempted(s.attempts);
    assert a + [] + [] == a;
  }

  lemma SettledMeansAttempted(cfg: Config, es: seq<Event>)
    requires Run(cfg, es).Some? && Settled(Run(cfg, es).value)
    ensures Attempted(Run(cfg, es).value.attempts) == Posts(Pushed(Run(cfg, es).value))
  {
    RunKeepsInv(cfg, es);
    SettledInv(cfg, Run(cfg, es).value);
  }

  /** A run in which `flush` is released while the message pushed before it is not in the table. */
  lemma FlushReleasedBeforeWrite(m: Message) returns (es: seq<Event>)
    ensures var cfg := Config(200, 10_000);
            && Run(cfg, es).Some? && CountedDown(Run(cfg, es).value, 1)
            && Pushed(Run(cfg, es).value) == [Post(m), Marker(0)]
            && Run(cfg, es).value.attempts == []
  {
    var cfg := Config(200, 10_000);
    es := BothDrained(cfg, m);
    es := Extend(cfg, es, Work);           // the queue is empty
    es := Extend(cfg, es, Work);           // count the latch down
    var t := Run(cfg, es).value;
    assert Pushed(t) == [Post(m), Marker(0)] && Pushed(t)[..1] == [Post(m)];
    assert [Post(m)][..0] == [];
  }

  lemma BothDrained(cfg: Config, m: Message) returns (es: seq<Event>)
    requires cfg.capacity >= 2 && cfg.batchSize >= 2
    ensures Run(cfg, es) == Some(INITIAL.(phase := Filling, batch := [m], markers := [0],
                                          taken := [Post(m), Marker(0)], calls := 1))
  {
    var post: Item, marker: Item := Post(m), Marker(0);
    es := MessageDrained(cfg, m);
    es := Extend(cfg, es, Work);           // pop the marker
    var latches: seq<nat> := [0];
    assert [post] + [marker] == [post, marker] && [] + latches == latches && [marker][1..] == [];
  }

  lemma MessageDrained(cfg: Config, m: Message) returns (es: seq<Event>)
    requires cfg.capacity >= 2
    ensures Run(cfg, es) == Some(INITIAL.(queue := [Marker(0)], phase := Filling, batch := [m],
                                          taken := [Post(m)], calls := 1))
  {
    var post: Item, marker: Item := Post(m), Marker(0);
    es := MessageThenMarker(cfg, m);
    es := Extend(cfg, es, Work);           // not shutting down
    es := Extend(cfg, es, Work);           // not shutting down
    es := Extend(cfg, es, Work);           // pop the message
    assert [post, marker][1..] == [marker] && [] + [post] == [post] && [] + [m] == [m];
  }

  lemma MessageThenMarker(cfg: Config, m: Message) returns (es: seq<Event>)
    requires cfg.capacity >= 2
    ensures Run(cfg, es) == Some(INITIAL.(queue := [Post(m), Marker(0)], calls := 1))
  {
    var post: Item, marker: Item := Post(m), Marker(0);
    es := Extend(cfg, [], Enqueue(m));
    assert [] + [post] == [post];
    assert Run(cfg, es) == Some(INITIAL.(queue := [post], calls := 1));
    es := Extend(cfg, es, PushMarker(0));
    assert [post] + [marker] == [post, marker];
  }

  lemma Extend(cfg: Config, es: seq<Event>, e: Event) returns (es': seq<Event>)
    requires Run(cfg, es).Some? && Step(cfg, Run(cfg, es).value, e).Some?
    ensures es' == es + [e] && Run(cfg, es') == Step(cfg, Run(cfg, es).value, e)
  {
    es' := es + [e];
    assert es'[..|es|] == es;
  }
}
