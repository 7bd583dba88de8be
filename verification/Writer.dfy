/**
 The Rust writer task as a machine: a bounded FIFO channel, and a worker whose receive, try_recv, insert and signal
 steps interleave with the senders in every possible way.
 */
module Writer {
  import opened Wrappers
  import opened Ledgers
  import opened Batches

  datatype Command = Post(msg: Message) | Flush(waiter: nat) | Shutdown

  /** Where the worker is. `last` is true on the way out after a Shutdown command. */
  datatype Phase = Receiving | Filling | Draining | Writing(last: bool) | Signalling(last: bool) | Halted

  /** `queue` is the channel and `open` says whether a sender is left. `taken`, `attempts` and `signalled` are history:
      every command received, every insert, and every waiter signalled, in order. */
  datatype State = State(queue: seq<Command>, open: bool, phase: Phase, batch: seq<Message>, waiters: seq<nat>,
                         taken: seq<Command>, attempts: seq<Attempt>, signalled: seq<nat>)

  /** Every command the channel has accepted, in order. */
  function Sent(s: State): seq<Command> {
    s.taken + s.queue
  }

  datatype Config = Config(batchSize: nat, capacity: nat)

  datatype Event =
    | Send(c: Command)                     // a sender gets a command into the channel
    | Close                                // the last sender is dropped
    | Work                                 // the worker's next receive, branch or signal
    | Write(ids: Option<seq<int>>)         // the worker's insert_batch returns

  const INITIAL := State([], true, Receiving, [], [], [], [], [])

  function Accept(s: State, c: Command): State {
    match c
    case Post(m) => s.(batch := s.batch + [m])
    case Flush(w) => s.(waiters := s.waiters + [w])
    case Shutdown => s
  }

  function AfterFill(s: State, last: bool): State {
    s.(phase := if s.batch == [] then Signalling(last) else Writing(last))
  }

  /** Take the head of the channel and classify it. */
  function Take(s: State): State
    requires s.queue != []
  {
    Accept(s.(queue := s.queue[1..], taken := s.taken + [s.queue[0]]), s.queue[0])
  }

  function WorkStep(cfg: Config, s: State): Option<State> {
    match s.phase
    case Receiving =>
      if s.queue == [] then (if s.open then None else Some(s.(phase := Halted)))
      else Some(Take(s).(phase := if s.queue[0].Shutdown? then Draining else Filling))
    case Filling =>
      if |s.batch| >= cfg.batchSize || s.queue == [] then Some(AfterFill(s, false))
      else if s.queue[0].Post? then Some(Take(s))
      else if s.queue[0].Flush? then Some(AfterFill(Take(s), false))
      else Some(Take(s).(phase := Draining))
    case Draining => if s.queue == [] then Some(AfterFill(s, true)) else Some(Take(s))
    case Writing(_) => None
    case Signalling(last) =>
      if s.waiters == [] then Some(s.(phase := if last then Halted else Receiving))
      else Some(s.(waiters := s.waiters[1..], signalled := s.signalled + [s.waiters[0]]))
    case Halted => None
  }

  function Step(cfg: Config, s: State, e: Event): Option<State> {
    match e
    case Send(c) =>
      if s.open && |s.queue| < cfg.capacity && s.phase != Halted
      then Some(s.(queue := s.queue + [c])) else None
    case Close => if s.open then Some(s.(open := false)) else None
    case Work => WorkStep(cfg, s)
    case Write(ids) =>
      if s.phase.Writing? && (ids.Some? ==> |ids.value| == |s.batch|)
      then Some(s.(attempts := s.attempts + [Attempt(s.batch, ids, s.phase.last)], batch := [],
                   phase := Signalling(s.phase.last)))
      else None
  }

  /** The state a schedule leads to, or None if some event of it was not possible. */
  function Run(cfg: Config, es: seq<Event>): Option<State> {
    if es == [] then Some(INITIAL)
    else match Run(cfg, es[..|es| - 1])
      case None => None
      case Some(s) => Step(cfg, s, es[|es| - 1])
  }

  // ---- Invariant ----

  function Posts(cs: seq<Command>): (ms: seq<Message>)
    ensures |ms| <= |cs|
  {
    if cs == [] then []
    else Posts(cs[..|cs| - 1]) + if cs[|cs| - 1].Post? then [cs[|cs| - 1].msg] else []
  }

  function Waiters(cs: seq<Command>): (ws: seq<nat>)
    ensures |ws| <= |cs|
  {
    if cs == [] then []
    else Waiters(cs[..|cs| - 1]) + if cs[|cs| - 1].Flush? then [cs[|cs| - 1].waiter] else []
  }

  function BatchLimit(cfg: Config): nat {
    if cfg.batchSize == 0 then 1 else cfg.batchSize
  }

  predicate Leaving(p: Phase) {
    p == Draining || p == Writing(true) || p == Signalling(true) || p == Halted
  }

  ghost predicate PhaseOk(cfg: Config, s: State) {
    && (s.phase == Receiving ==> s.batch == [] && s.waiters == [])
    && (s.phase.Writing? ==> s.batch != [])
    && (s.phase.Signalling? || s.phase == Halted ==> s.batch == [])
    && (s.phase == Halted ==> s.waiters == [])
    && (s.phase == Filling || s.phase == Writing(false) ==> |s.batch| <= BatchLimit(cfg))
    && (Shutdown in s.taken ==> Leaving(s.phase))
    && (Leaving(s.phase) ==> Shutdown in s.taken || (s.phase == Halted && !s.open && s.queue == []))
  }

  ghost predicate SizesOk(cfg: Config, attempts: seq<Attempt>) {
    forall a :: a in attempts ==> a.WellFormed() && (!a.final ==> |a.msgs| <= BatchLimit(cfg))
  }

  /** The k-th command is a Flush, and enough waiters were signalled that its own was among them. */
  ghost predicate Acknowledged(sent: seq<Command>, signals: nat, k: int) {
    0 <= k < |sent| && sent[k].Flush? && |Waiters(sent[..k])| < signals
  }

  ghost predicate BarrierOk(taken: seq<Command>, signals: nat, done: nat) {
    forall k :: Acknowledged(taken, signals, k) ==> |Posts(taken[..k])| <= done
  }

  /** What was received is what was attempted and signalled, then what is in hand. */
  ghost predicate HistoryOk(s: State) {
    && Posts(s.taken) == Attempted(s.attempts) + s.batch
    && Waiters(s.taken) == s.signalled + s.waiters
    && BarrierOk(s.taken, |s.signalled|, |Attempted(s.attempts)|)
  }

  ghost predicate Inv(cfg: Config, s: State) {
    HistoryOk(s) && PhaseOk(cfg, s) && SizesOk(cfg, s.attempts) && |s.queue| <= cfg.capacity
  }

  lemma Snoc(cs: seq<Command>, c: Command)
    ensures Posts(cs + [c]) == Posts(cs) + if c.Post? then [c.msg] else []
    ensures Waiters(cs + [c]) == Waiters(cs) + if c.Flush? then [c.waiter] else []
  {
    assert (cs + [c])[..|cs|] == cs;
  }

  lemma SplitLast(cs: seq<Command>, ds: seq<Command>)
    requires ds != []
    ensures cs + ds == (cs + ds[..|ds| - 1]) + [ds[|ds| - 1]]
  {
  }

  lemma {:induction false} ConcatPosts(cs: seq<Command>, ds: seq<Command>)
    ensures Posts(cs + ds) == Posts(cs) + Posts(ds)
    decreases |ds|
  {
    if ds == [] {
      assert cs + ds == cs;
    } else {
      var front, last := ds[..|ds| - 1], ds[|ds| - 1];
      ConcatPosts(cs, front);
      SplitLast(cs, ds);
      Snoc(cs + front, last);
      Associates(Posts(cs), Posts(front), Posts([last]));
      One(last);
    }
  }

  lemma {:induction false} ConcatWaiters(cs: seq<Command>, ds: seq<Command>)
    ensures Waiters(cs + ds) == Waiters(cs) + Waiters(ds)
    decreases |ds|
  {
    if ds == [] {
      assert cs + ds == cs;
    } else {
      var front, last := ds[..|ds| - 1], ds[|ds| - 1];
      ConcatWaiters(cs, front);
      SplitLast(cs, ds);
      Snoc(cs + front, last);
      Associates(Waiters(cs), Waiters(front), Waiters([last]));
      One(last);
    }
  }

  lemma One(c: Command)
    ensures Posts([c]) == if c.Post? then [c.msg] else []
    ensures Waiters([c]) == if c.Flush? then [c.waiter] else []
  {
    assert [c][..0] == [];
  }

  lemma Concat(cs: seq<Command>, ds: seq<Command>)
    ensures Posts(cs + ds) == Posts(cs) + Posts(ds)
    ensures Waiters(cs + ds) == Waiters(cs) + Waiters(ds)
  {
    ConcatPosts(cs, ds);
    ConcatWaiters(cs, ds);
  }

  lemma PrefixCounts(cs: seq<Command>, j: nat, k: nat)
    requires j <= k <= |cs|
    ensures Posts(cs[..j]) <= Posts(cs[..k]) && Waiters(cs[..j]) <= Waiters(cs[..k])
  {
    assert cs[..k] == cs[..j] + cs[j..k];
    Concat(cs[..j], cs[j..k]);
  }

  /** Receiving a command: nothing new is acknowledged by it. */
  lemma TakeKeepsBarrier(taken: seq<Command>, c: Command, signals: nat, done: nat)
    requires signals <= |Waiters(taken)| && BarrierOk(taken, signals, done)
    ensures BarrierOk(taken + [c], signals, done)
  {
    forall k | Acknowledged(taken + [c], signals, k) ensures |Posts((taken + [c])[..k])| <= done {
      assert (taken + [c])[..k] == taken[..k];
      assert taken[..|taken|] == taken;
      assert Acknowledged(taken, signals, k);
    }
  }

  lemma TakeKeepsHistory(s: State)
    requires s.queue != [] && HistoryOk(s)
    ensures HistoryOk(Take(s))
  {
    var c := s.queue[0];
    Snoc(s.taken, c);
    TakeKeepsBarrier(s.taken, c, |s.signalled|, |Attempted(s.attempts)|);
    match c
    case Post(m) => Associates(Attempted(s.attempts), s.batch, [m]);
    case Flush(w) => Associates(s.signalled, s.waiters, [w]);
    case Shutdown =>
  }

  /** A waiter is signalled only when the batch is empty, so everything received has been attempted. */
  lemma SignalKeepsHistory(s: State, s': State)
    requires HistoryOk(s) && s.batch == [] && s.waiters != []
    requires s' == s.(waiters := s.waiters[1..], signalled := s.signalled + [s.waiters[0]])
    ensures HistoryOk(s')
  {
    assert s.signalled + s.waiters == s'.signalled + s'.waiters;
    assert Posts(s.taken) == Attempted(s.attempts);
    assert s.taken[..|s.taken|] == s.taken;
    forall k | Acknowledged(s.taken, |s'.signalled|, k) ensures |Posts(s.taken[..k])| <= |Attempted(s.attempts)| {
      PrefixCounts(s.taken, k, |s.taken|);
    }
  }

  lemma WorkShape(cfg: Config, s: State)
    requires WorkStep(cfg, s).Some? && !(s.phase.Signalling? && s.waiters != [])
    ensures var s' := WorkStep(cfg, s).value;
            s' == s.(phase := s'.phase) || (s.queue != [] && s' == Take(s).(phase := s'.phase))
  {
  }

  lemma PhaseIsNotHistory(s: State, p: Phase)
    requires HistoryOk(s)
    ensures HistoryOk(s.(phase := p))
  {
  }

  lemma WorkKeepsHistory(cfg: Config, s: State)
    requires HistoryOk(s) && (s.phase.Signalling? ==> s.batch == []) && WorkStep(cfg, s).Some?
    ensures HistoryOk(WorkStep(cfg, s).value)
  {
    var s' := WorkStep(cfg, s).value;
    if s.phase.Signalling? && s.waiters != [] {
      SignalKeepsHistory(s, s');
    } else {
      WorkShape(cfg, s);
      PhaseIsNotHistory(s, s'.phase);
      if s.queue != [] {
        TakeKeepsHistory(s);
        PhaseIsNotHistory(Take(s), s'.phase);
      }
    }
  }

  lemma WorkKeepsPhase(cfg: Config, s: State)
    requires PhaseOk(cfg, s) && WorkStep(cfg, s).Some?
    ensures PhaseOk(cfg, WorkStep(cfg, s).value)
  {
    var s' := WorkStep(cfg, s).value;
    if s.queue != [] {
      assert Shutdown in s.taken + [s.queue[0]] <==> Shutdown in s.taken || s.queue[0] == Shutdown;
    }
  }

  lemma WriteKeepsHistory(cfg: Config, s: State, ids: Option<seq<int>>)
    requires HistoryOk(s) && Step(cfg, s, Write(ids)).Some?
    ensures HistoryOk(Step(cfg, s, Write(ids)).value)
  {
    var s' := Step(cfg, s, Write(ids)).value;
    assert s'.attempts[..|s.attempts|] == s.attempts;
    assert Attempted(s'.attempts) + [] == Attempted(s.attempts) + s.batch;
  }

  lemma WriteKeepsRest(cfg: Config, s: State, ids: Option<seq<int>>)
    requires PhaseOk(cfg, s) && SizesOk(cfg, s.attempts) && Step(cfg, s, Write(ids)).Some?
    ensures PhaseOk(cfg, Step(cfg, s, Write(ids)).value) && SizesOk(cfg, Step(cfg, s, Write(ids)).value.attempts)
  {
  }

  /** A sender's step leaves the worker's part alone. */
  lemma SenderKeepsInv(cfg: Config, s: State, e: Event)
    requires Inv(cfg, s) && (e.Send? || e.Close?) && Step(cfg, s, e).Some?
    ensures Inv(cfg, Step(cfg, s, e).value)
  {
    var t := Step(cfg, s, e).value;
    assert t == s.(queue := t.queue, open := t.open);
  }

  lemma WorkKeepsRest(cfg: Config, s: State)
    requires SizesOk(cfg, s.attempts) && |s.queue| <= cfg.capacity && WorkStep(cfg, s).Some?
    ensures SizesOk(cfg, WorkStep(cfg, s).value.attempts) && |WorkStep(cfg, s).value.queue| <= cfg.capacity
  {
    OnlyWritesAttempt(cfg, s, Work);
  }

  lemma StepKeepsInv(cfg: Config, s: State, e: Event)
    requires Inv(cfg, s) && Step(cfg, s, e).Some?
    ensures Inv(cfg, Step(cfg, s, e).value)
  {
    match e {
      case Work =>
        WorkKeepsHistory(cfg, s);
        WorkKeepsPhase(cfg, s);
        WorkKeepsRest(cfg, s);
      case Write(ids) =>
        WriteKeepsHistory(cfg, s, ids);
        WriteKeepsRest(cfg, s, ids);
      case _ =>
        SenderKeepsInv(cfg, s, e);
    }
  }

  lemma OnlyWritesAttempt(cfg: Config, s: State, e: Event)
    requires Step(cfg, s, e).Some? && !e.Write?
    ensures Step(cfg, s, e).value.attempts == s.attempts
  {
  }

  lemma {:induction false} RunKeepsInv(cfg: Config, es: seq<Event>)
    requires Run(cfg, es).Some?
    ensures Inv(cfg, Run(cfg, es).value)
  {
    if es == [] {
    } else {
      RunKeepsInv(cfg, es[..|es| - 1]);
      StepKeepsInv(cfg, Run(cfg, es[..|es| - 1]).value, es[|es| - 1]);
    }
  }

  lemma BatchInHand(cfg: Config, es: seq<Event>)
    requires Run(cfg, es).Some? && Run(cfg, es).value.phase.Writing?
    ensures Run(cfg, es).value.batch != []
  {
    RunKeepsInv(cfg, es);
  }

  lemma InvConserves(cfg: Config, s: State)
    requires Inv(cfg, s)
    ensures Posts(Sent(s)) == Attempted(s.attempts) + s.batch + Posts(s.queue)
    ensures Waiters(Sent(s)) == s.signalled + s.waiters + Waiters(s.queue)
  {
    Concat(s.taken, s.queue);
  }

  /** Conservation, at every step of every schedule: the accepted messages are the attempted batches, then the current
      batch, then what is still in the channel, in FIFO order; likewise for the flush waiters. */
  lemma Conservation(cfg: Config, es: seq<Event>)
    requires Run(cfg, es).Some?
    ensures var s := Run(cfg, es).value;
            && Posts(Sent(s)) == Attempted(s.attempts) + s.batch + Posts(s.queue)
            && Waiters(Sent(s)) == s.signalled + s.waiters + Waiters(s.queue)
  {
    RunKeepsInv(cfg, es);
    InvConserves(cfg, Run(cfg, es).value);
  }

  /** At a loop head, and after the exit, the batch and waiter lists are empty. */
  lemma LoopHead(cfg: Config, es: seq<Event>)
    requires Run(cfg, es).Some? && Run(cfg, es).value.phase in {Receiving, Halted}
    ensures var s := Run(cfg, es).value;
            && s.batch == [] && s.waiters == []
            && Posts(Sent(s)) == Attempted(s.attempts) + Posts(s.queue)
            && Waiters(Sent(s)) == s.signalled + Waiters(s.queue)
  {
    var s := Run(cfg, es).value;
    RunKeepsInv(cfg, es);
    Concat(s.taken, s.queue);
    assert Attempted(s.attempts) + [] == Attempted(s.attempts);
    assert s.signalled + [] == s.signalled;
  }

  // ---- Flush ----

  /** `flush` returned Ok for the k-th accepted command: every message accepted before it has been attempted, in
      order, so it is in the table or in a batch whose insert failed. */
  lemma FlushIsABarrier(cfg: Config, es: seq<Event>, k: nat)
    requires Run(cfg, es).Some? && Acknowledged(Sent(Run(cfg, es).value), |Run(cfg, es).value.signalled|, k)
    ensures var s := Run(cfg, es).value;
            && Posts(Sent(s)[..k]) <= Attempted(s.attempts)
            && forall m :: m in Posts(Sent(s)[..k]) ==>
                 m in Written(s.attempts) || exists a :: a in s.attempts && a.ids.None? && m in a.msgs
  {
    var s := Run(cfg, es).value;
    RunKeepsInv(cfg, es);
    assert Sent(s)[..|s.taken|] == s.taken;
    if k >= |s.taken| {
      PrefixCounts(Sent(s), |s.taken|, k);
      assert false;
    }
    assert Sent(s)[..k] == s.taken[..k];
    assert Acknowledged(s.taken, |s.signalled|, k);
    PrefixCounts(s.taken, k, |s.taken|);
    assert s.taken[..|s.taken|] == s.taken;
    PrefixOfFirstPart(Posts(s.taken[..k]), Attempted(s.attempts), s.batch);
    forall m | m in Posts(Sent(s)[..k])
      ensures m in Written(s.attempts) || exists a :: a in s.attempts && a.ids.None? && m in a.msgs
    {
      AttemptedOrFailed(s.attempts, m);
    }
  }

  lemma PrefixOfFirstPart<T>(p: seq<T>, a: seq<T>, b: seq<T>)
    requires p <= a + b && |p| <= |a|
    ensures p <= a && forall x :: x in p ==> x in a
  {
    assert p == (a + b)[..|p|] == a[..|p|];
  }

  // ---- Shutdown ----

  /** `shutdown(self)` consumes the only sender, so nothing follows a Shutdown into the channel. */
  ghost predicate NothingAfterShutdown(sent: seq<Command>) {
    forall i :: 0 <= i < |sent| && sent[i] == Shutdown ==> i == |sent| - 1
  }

  /** Lossless shutdown: nothing is left behind when nothing follows the Shutdown. */
  lemma ShutdownIsLossless(cfg: Config, es: seq<Event>)
    requires Run(cfg, es).Some? && Run(cfg, es).value.phase == Halted
    requires NothingAfterShutdown(Sent(Run(cfg, es).value))
    ensures var s := Run(cfg, es).value;
            s.queue == [] && Attempted(s.attempts) == Posts(Sent(s)) && s.signalled == Waiters(Sent(s))
  {
    var s := Run(cfg, es).value;
    RunKeepsInv(cfg, es);
    if Shutdown in s.taken {
      var i :| 0 <= i < |s.taken| && s.taken[i] == Shutdown;
      assert Sent(s)[i] == Shutdown;
    }
    LoopHead(cfg, es);
  }

  ghost predicate AllSmall(cfg: Config, s: State) {
    |s.batch| <= BatchLimit(cfg) && forall a :: a in s.attempts ==> |a.msgs| <= BatchLimit(cfg)
  }

  /** Once a Shutdown has been received nothing is left in the channel. */
  lemma ShutdownIsLast(cfg: Config, s: State)
    requires PhaseOk(cfg, s) && NothingAfterShutdown(Sent(s)) && Leaving(s.phase)
    ensures s.queue == []
  {
    if Shutdown in s.taken {
      var i :| 0 <= i < |s.taken| && s.taken[i] == Shutdown;
      assert Sent(s)[i] == Shutdown;
    }
  }

  lemma StepKeepsSmall(cfg: Config, s: State, e: Event)
    requires PhaseOk(cfg, s) && AllSmall(cfg, s) && NothingAfterShutdown(Sent(s)) && Step(cfg, s, e).Some?
    ensures AllSmall(cfg, Step(cfg, s, e).value)
  {
    if s.phase == Draining {
      ShutdownIsLast(cfg, s);
    }
  }

  /** Under that premise the insert made while shutting down is no exception: every insert ever made has at most
      max(1, batch_size) rows. */
  lemma {:induction false} ShutdownBatchIsSmall(cfg: Config, es: seq<Event>)
    requires Run(cfg, es).Some? && NothingAfterShutdown(Sent(Run(cfg, es).value))
    ensures AllSmall(cfg, Run(cfg, es).value)
  {
    if es == [] {
    } else {
      var n := |es| - 1;
      var s := Run(cfg, es[..n]).value;
      SentChangesBySend(cfg, s, es[n]);
      EarlierShutdownsAreLast(Sent(s), Sent(Run(cfg, es).value));
      ShutdownBatchIsSmall(cfg, es[..n]);
      RunKeepsInv(cfg, es[..n]);
      StepKeepsSmall(cfg, s, es[n]);
    }
  }

  ghost predicate Stopping(s: State) {
    Shutdown in Sent(s) || !s.open
  }

  /** The commands ahead in the channel, each worth more than everything the worker does about it. */
  function Rank(s: State): nat {
    6 * |s.queue| + |s.waiters| + (if s.open then 1 else 0) +
    match s.phase
    case Receiving => 1
    case Filling => 4
    case Draining => 4
    case Writing(_) => 3
    case Signalling(_) => 2
    case Halted => 0
  }

  lemma StepLowersRank(cfg: Config, s: State, e: Event)
    requires Step(cfg, s, e).Some? && !e.Send?
    ensures Rank(Step(cfg, s, e).value) < Rank(s)
  {
  }

  lemma WorkSendsNothing(cfg: Config, s: State)
    requires WorkStep(cfg, s).Some?
    ensures Sent(WorkStep(cfg, s).value) == Sent(s)
  {
    if s.phase.Signalling? && s.waiters != [] {
    } else {
      WorkShape(cfg, s);
      if s.queue != [] {
        assert s.queue == [s.queue[0]] + s.queue[1..];
        Associates(s.taken, [s.queue[0]], s.queue[1..]);
      }
    }
  }

  lemma SentChangesBySend(cfg: Config, s: State, e: Event)
    requires Step(cfg, s, e).Some?
    ensures Sent(Step(cfg, s, e).value) == Sent(s) + if e.Send? then [e.c] else []
  {
    match e {
      case Work => WorkSendsNothing(cfg, s);
      case Send(c) => Associates(s.taken, s.queue, [c]);
      case _ =>
    }
  }

  lemma StepStaysStopping(cfg: Config, s: State, e: Event)
    requires Stopping(s) && Step(cfg, s, e).Some? && NothingAfterShutdown(Sent(Step(cfg, s, e).value))
    ensures !e.Send? && Stopping(Step(cfg, s, e).value) && NothingAfterShutdown(Sent(s))
  {
    SentChangesBySend(cfg, s, e);
    EarlierShutdownsAreLast(Sent(s), Sent(Step(cfg, s, e).value));
    if Shutdown in Sent(s) {
      var i :| 0 <= i < |Sent(s)| && Sent(s)[i] == Shutdown;
      assert Sent(Step(cfg, s, e).value)[i] == Shutdown;
    }
  }

  /** The worker is never stuck on the way out. */
  lemma WorkerCanMove(cfg: Config, s: State)
    requires Inv(cfg, s) && Stopping(s) && s.phase != Halted
    ensures Step(cfg, s, Work).Some? || Step(cfg, s, Write(None)).Some?
  {
    assert s.queue == [] ==> Sent(s) == s.taken;
  }

  /** Continue a run by a further schedule. */
  function Continue(cfg: Config, s: State, es: seq<Event>): Option<State>
    decreases |es|
  {
    if es == [] then Some(s)
    else match Step(cfg, s, es[0])
      case None => None
      case Some(t) => Continue(cfg, t, es[1..])
  }

  lemma {:induction false} SentOnlyGrows(cfg: Config, s: State, es: seq<Event>)
    requires Continue(cfg, s, es).Some?
    ensures Sent(s) <= Sent(Continue(cfg, s, es).value)
    decreases |es|
  {
    if es == [] {
    } else {
      SentOnlyGrows(cfg, Step(cfg, s, es[0]).value, es[1..]);
      SentChangesBySend(cfg, s, es[0]);
    }
  }

  /** Termination: once a Shutdown has been accepted or every sender is gone, every continuation of the run has at
      most Rank further events, and as long as the worker has not halted it can move. */
  lemma {:induction false} ShutdownTerminates(cfg: Config, s: State, es: seq<Event>)
    requires Inv(cfg, s) && Stopping(s) && Continue(cfg, s, es).Some?
    requires NothingAfterShutdown(Sent(Continue(cfg, s, es).value))
    ensures var t := Continue(cfg, s, es).value;
            && |es| <= Rank(s) - Rank(t)
            && (t.phase != Halted ==> Step(cfg, t, Work).Some? || Step(cfg, t, Write(None)).Some?)
    decreases |es|
  {
    if es == [] {
      if s.phase != Halted {
        WorkerCanMove(cfg, s);
      }
    } else {
      var u := Step(cfg, s, es[0]).value;
      SentOnlyGrows(cfg, u, es[1..]);
      EarlierShutdownsAreLast(Sent(u), Sent(Continue(cfg, s, es).value));
      StepStaysStopping(cfg, s, es[0]);
      StepKeepsInv(cfg, s, es[0]);
      StepLowersRank(cfg, s, es[0]);
      ShutdownTerminates(cfg, u, es[1..]);
    }
  }

  lemma EarlierShutdownsAreLast(a: seq<Command>, b: seq<Command>)
    requires a <= b && NothingAfterShutdown(b)
    ensures NothingAfterShutdown(a)
  {
    forall i | 0 <= i < |a| && a[i] == Shutdown ensures i == |a| - 1 {
      assert b[i] == Shutdown;
    }
  }

  // ---- Batching ----

  /** Every insert has at least one row, and at most max(1, batch_size) unless it is the one made while shutting
      down. */
  lemma BatchSizes(cfg: Config, es: seq<Event>, a: Attempt)
    requires Run(cfg, es).Some? && a in Run(cfg, es).value.attempts
    ensures 1 <= |a.msgs| && (!a.final ==> |a.msgs| <= if cfg.batchSize == 0 then 1 else cfg.batchSize)
  {
    RunKeepsInv(cfg, es);
  }

  /** Nothing accepted is waiting to be written. */
  ghost predicate Settled(s: State) {
    s.batch == [] && Posts(s.queue) == []
  }

  lemma SettledInv(cfg: Config, s: State)
    requires Inv(cfg, s) && Settled(s)
    ensures Attempted(s.attempts) == Posts(Sent(s))
  {
    InvConserves(cfg, s);
    assert Attempted(s.attempts) + [] + [] == Attempted(s.attempts);
  }

  /** Then the attempted messages are the accepted ones. */
  lemma SettledMeansAttempted(cfg: Config, es: seq<Event>)
    requires Run(cfg, es).Some? && Settled(Run(cfg, es).value)
    ensures Attempted(Run(cfg, es).value.attempts) == Posts(Sent(Run(cfg, es).value))
  {
    RunKeepsInv(cfg, es);
    SettledInv(cfg, Run(cfg, es).value);
  }
}
