/** The way out of the Ruby writer's worker once `shutdown` has been called. */
module RubyExit {
  import opened Wrappers
  import opened RubyWriter

  /** What is queued, each item worth more than everything the worker does about it, and where the worker is. */
  function Rank(s: State): nat {
    8 * |s.queue| + |s.markers| +
    match s.phase
    case LoopHead => if s.queue == [] then 1 else 3
    case DrainHead => 2
    case Popping => if s.queue == [] then 3 else 1
    case Filling => 6
    case Counting => 5
    case Writing => 4
    case Exited => 0
  }

  predicate Pushes(e: Event) {
    e.Enqueue? || e.PushMarker?
  }

  predicate Works(e: Event) {
    e.Work? || e.Timeout? || e.Write?
  }

  lemma WorkLowersRank(cfg: Config, s: State)
    requires s.shutdown && WorkStep(cfg, s).Some?
    ensures WorkStep(cfg, s).value.shutdown && Rank(WorkStep(cfg, s).value) < Rank(s)
  {
  }

  /** With the flag up, every step of the worker lowers the rank, a push raises it by at most 10, and nothing else
      changes it. */
  lemma StepAndRank(cfg: Config, s: State, e: Event)
    requires s.shutdown && Step(cfg, s, e).Some?
    ensures var t := Step(cfg, s, e).value;
            && t.shutdown
            && Rank(t) + (if Works(e) then 1 else 0) <= Rank(s) + if Pushes(e) then 10 else 0
  {
    if e.Work? {
      WorkLowersRank(cfg, s);
    }
  }

  /** Whatever the worker waits for, it can go on: with an empty queue its pop times out. */
  lemma WorkerCanMove(cfg: Config, s: State)
    requires s.phase != Exited
    ensures Step(cfg, s, Work).Some? || Step(cfg, s, Timeout).Some? || Step(cfg, s, Write(None)).Some?
  {
  }

  function Continue(cfg: Config, s: State, es: seq<Event>): Option<State>
    decreases |es|
  {
    if es == [] then Some(s)
    else match Step(cfg, s, es[0])
      case None => None
      case Some(t) => Continue(cfg, t, es[1..])
  }

  function CountPushes(es: seq<Event>): nat {
    if es == [] then 0 else (if Pushes(es[0]) then 1 else 0) + CountPushes(es[1..])
  }

  function CountWork(es: seq<Event>): nat {
    if es == [] then 0 else (if Works(es[0]) then 1 else 0) + CountWork(es[1..])
  }

  /** Termination: after `shutdown`, with finitely many further pushes, the worker makes at most Rank + 10 * pushes more
      steps, and as long as it has not exited it can make one. So it exits. */
  lemma {:induction false} ShutdownTerminates(cfg: Config, s: State, es: seq<Event>)
    requires s.shutdown && Continue(cfg, s, es).Some?
    ensures var t := Continue(cfg, s, es).value;
            && CountWork(es) + Rank(t) <= Rank(s) + 10 * CountPushes(es)
            && (t.phase != Exited ==>
                  Step(cfg, t, Work).Some? || Step(cfg, t, Timeout).Some? || Step(cfg, t, Write(None)).Some?)
    decreases |es|
  {
    if es == [] {
      if s.phase != Exited {
        WorkerCanMove(cfg, s);
      }
    } else {
      StepAndRank(cfg, s, es[0]);
      ShutdownTerminates(cfg, Step(cfg, s, es[0]).value, es[1..]);
    }
  }
}
