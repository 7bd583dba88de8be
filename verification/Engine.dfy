/**
 The Rust `PubSub` object as code: a map from sessions to subscriber tasks, changed under a write lock while the rest
 of the engine goes on. Every run of it is a run of the system in `Pipeline`.
 */
module Engine {
  import opened Wrappers
  import opened Timestamps
  import opened Ledgers
  import opened Pipeline
  import S = Subscription

  datatype Error = AlreadySubscribed(session: string) | DatabaseError

  /** What the tasks and other callers do while the map is locked. */
  predicate Elsewhere(e: Event) {
    e.Writing? || e.Reading? || e.Mark?
  }

  class PubSub {
    const cfg: Config
    /** `subscribers`: the index of the session's task in `y.subs`. */
    var subscribers: map<string, nat>
    var y: System
    ghost var events: seq<Event>

    ghost predicate Linked()
      reads this
    {
      Run(cfg, events) == Some(y) && y.registry == subscribers
    }

    ghost predicate Valid()
      reads this
    {
      Linked() && y.stopping == None
    }

    constructor (cfg: Config)
      ensures Valid() && this.cfg == cfg && events == [] && y == INITIAL
    {
      this.cfg, subscribers, y := cfg, map[], INITIAL;
      events := [];
    }

    method Take(e: Event)
      requires Linked() && Step(cfg, y, e).Some?
      modifies `y, `events
      ensures Some(y) == old(Step(cfg, y, e)) && events == old(events) + [e] && Run(cfg, events) == Some(y)
    {
      y := Step(cfg, y, e).value;
      events := events + [e];
      assert events[..|events| - 1] == old(events);
    }

    /** Other tasks do what they can of the script. */
    method Others(script: seq<Event>)
      requires Linked()
      modifies `y, `events
      ensures Linked() && old(events) <= events && SameRegistry(old(y)) && y.removed == old(y.removed)
      ensures Evolves(old(y.l), y.l)
    {
      var i := 0;
      while i < |script|
        invariant Linked() && old(events) <= events && SameRegistry(old(y)) && y.removed == old(y.removed)
        invariant Evolves(old(y.l), y.l)
      {
        if Elsewhere(script[i]) && Step(cfg, y, script[i]).Some? {
          ElsewhereKeepsRegistry(cfg, y, script[i]);
          ElsewhereEvolves(cfg, events, script[i]);
          EvolvesTransitive(old(y.l), y.l, Step(cfg, y, script[i]).value.l);
          Take(script[i]);
        }
        i := i + 1;
      }
    }

    ghost predicate SameRegistry(before: System)
      reads `y
    {
      && y.registry == before.registry && y.stopping == before.stopping && y.detached == before.detached
      && |y.subs| == |before.subs| && forall i :: 0 <= i < |y.subs| ==> y.subs[i].session == before.subs[i].session
    }

    /** `subscribe`: refused when the session has a subscriber, or when reading MAX(id) fails (not `up`). */
    method Subscribe(session: string, up: bool, script: seq<Event>) returns (r: Result<(), Error>)
      requires Valid()
      modifies this
      ensures Valid() && old(events) <= events
      ensures r == if session in old(subscribers) then Err(AlreadySubscribed(session))
                   else if up then Ok(()) else Err(DatabaseError)
      ensures r.Err? ==> subscribers == old(subscribers)
      ensures r.Ok? ==> subscribers == old(subscribers)[session := |old(y.subs)|] && |y.subs| == |old(y.subs)| + 1
                        && y.subs[subscribers[session]] == S.New(cfg.mode, session, y.l)
    {
      Others(script);
      if session in subscribers {
        return Err(AlreadySubscribed(session));
      }
      if !up {
        return Err(DatabaseError);
      }
      subscribers := subscribers[session := |y.subs|];
      y, events := Step(cfg, y, Event.Subscribe(session)).value, events + [Event.Subscribe(session)];
      assert events[..|events| - 1] + [Event.Subscribe(session)] == events;
      return Ok(());
    }

    /** `Subscriber::stop`: raise the flag, then wait for the task or for the timeout. `joined` tells which. */
    method Stop(session: string, script: seq<Event>) returns (joined: bool)
      requires Linked() && y.stopping == None && session in subscribers
      modifies this
      ensures Valid() && old(events) <= events && subscribers == old(subscribers) - {session}
      ensures |y.subs| == |old(y.subs)|
      ensures var i := old(subscribers)[session];
              && i < |y.subs| && (joined <==> y.subs[i].phase == S.Done)
              && y.detached == old(y.detached) + if joined then {} else {i}
    {
      RegistryIsSound(cfg, events, session);
      var i := subscribers[session];
      subscribers := subscribers - {session};
      y, events := Step(cfg, y, StopBegin(session)).value, events + [StopBegin(session)];
      assert events[..|events| - 1] + [StopBegin(session)] == events;
      Others(script);
      joined := y.subs[i].phase == S.Done;
      Take(if joined then StopJoined else StopTimedOut);
    }

    /** `unsubscribe`: leaves the map before the task is stopped; no error for an unknown session. */
    method Unsubscribe(session: string, script: seq<Event>)
      requires Valid()
      modifies this
      ensures Valid() && old(events) <= events && subscribers == old(subscribers) - {session}
      ensures session !in old(subscribers) ==> events == old(events)
      ensures session in old(subscribers) ==>
                var i := old(subscribers)[session]; i < |y.subs| && (y.subs[i].phase == S.Done || i in y.detached)
    {
      if session in subscribers {
        var _ := Stop(session, script);
      }
    }

    /** `cleanup`: the two deletes, one after the other, with other statements possible in between; `mid` is the table
        the second one finds. A failed delete ends the call; an earlier one stays done. */
    method Cleanup(first: Utc, second: Utc, up1: bool, up2: bool, script: seq<Event>)
      returns (r: Result<(int, int), Error>, ghost mid: Ledger)
      requires Valid()
      modifies this
      ensures Valid() && old(events) <= events && subscribers == old(subscribers)
      ensures r.Ok? <==> up1 && up2
      ensures !up1 ==> y == old(y)
      ensures up1 ==> Evolves(CleanupDelivered(old(y.l), first, cfg.deliveredRetention), mid)
      ensures up1 && !up2 ==> y.l == mid
      ensures up1 && up2 ==>
                && y.l == CleanupUndelivered(mid, second, cfg.undeliveredRetention)
                && r.value.0 == Count(old(y.l).cells, c => OldDelivered(c, first, cfg.deliveredRetention))
                && r.value.1 == Count(mid.cells, c => OldUndelivered(c, second, cfg.undeliveredRetention))
                && y.removed == old(y.removed) + r.value.0 + r.value.1
    {
      mid := y.l;
      if !up1 {
        return Err(DatabaseError), mid;
      }
      var delivered := DeleteDelivered(first);
      Others(script);
      mid := y.l;
      if !up2 {
        return Err(DatabaseError), mid;
      }
      var undelivered := DeleteUndelivered(second);
      r := Ok((delivered, undelivered));
    }

    /** `cleanup_delivered`: the count is the number of rows affected. */
    method DeleteDelivered(now: Utc) returns (count: int)
      requires Valid()
      modifies `y, `events
      ensures Valid() && old(events) <= events
      ensures y == TableStep(old(y), CleanupDelivered(old(y.l), now, cfg.deliveredRetention))
      ensures count == Removed(old(y.l), y.l)
      ensures count == Count(old(y.l).cells, c => OldDelivered(c, now, cfg.deliveredRetention))
      ensures forall i :: 0 <= i < |y.l.cells| && y.l.cells[i].status.Live? && y.l.cells[i].status.deliveredAt.Some? ==>
                Nanos(y.l.cells[i].status.deliveredAt.value) >= Nanos(now) - cfg.deliveredRetention
    {
      CleanupDeliveredIsExact(y.l, now, cfg.deliveredRetention);
      RemovedAreOld(y.l, now, cfg.deliveredRetention);
      var before := y.removed;
      Take(CleanDelivered(now));
      count := y.removed - before;
    }

    /** `cleanup_undelivered`. */
    method DeleteUndelivered(now: Utc) returns (count: int)
      requires Valid()
      modifies `y, `events
      ensures Valid() && old(events) <= events
      ensures y == TableStep(old(y), CleanupUndelivered(old(y.l), now, cfg.undeliveredRetention))
      ensures count == Removed(old(y.l), y.l)
      ensures count == Count(old(y.l).cells, c => OldUndelivered(c, now, cfg.undeliveredRetention))
      ensures forall i :: 0 <= i < |y.l.cells| && y.l.cells[i].status == Live(None) ==>
                Nanos(y.l.cells[i].msg.createdAt) >= Nanos(now) - cfg.undeliveredRetention
    {
      CleanupUndeliveredIsExact(y.l, now, cfg.undeliveredRetention);
      RemovedAreOld(y.l, now, cfg.undeliveredRetention);
      var before := y.removed;
      Take(CleanUndelivered(now));
      count := y.removed - before;
    }

    /** The first half of `shutdown`: every subscriber is stopped and the map is empty. */
    method StopAll(script: seq<Event>)
      requires Valid()
      modifies this
      ensures Valid() && old(events) <= events && subscribers == map[]
      ensures forall i :: 0 <= i < |y.subs| ==> y.subs[i].phase == S.Done || i in y.detached
    {
      while subscribers != map[]
        invariant Valid() && old(events) <= events
        decreases |subscribers|
      {
        var session :| session in subscribers;
        var _ := Stop(session, script);
      }
      NobodyLeft(cfg, events);
    }
  }

  lemma RegistryIsSound(cfg: Config, es: seq<Event>, session: string)
    requires Run(cfg, es).Some? && session in Run(cfg, es).value.registry
    ensures Run(cfg, es).value.registry[session] < |Run(cfg, es).value.subs|
  {
    RunKeepsInv(cfg, es);
  }

  /** With an empty map and no stop under way, every task has ended or was left behind by a timeout. */
  lemma NobodyLeft(cfg: Config, es: seq<Event>)
    requires Run(cfg, es).Some? && Run(cfg, es).value.registry == map[] && Run(cfg, es).value.stopping == None
    ensures var y := Run(cfg, es).value;
            forall i :: 0 <= i < |y.subs| ==> y.subs[i].phase == S.Done || i in y.detached
  {
    var y := Run(cfg, es).value;
    RunKeepsInv(cfg, es);
    forall i | 0 <= i < |y.subs| ensures y.subs[i].phase == S.Done || i in y.detached {
      assert Accounted(y, i);
    }
  }

  lemma ElsewhereKeepsRegistry(cfg: Config, y: System, e: Event)
    requires Elsewhere(e) && Step(cfg, y, e).Some?
    ensures var t := Step(cfg, y, e).value;
            && t.registry == y.registry && t.stopping == y.stopping && t.detached == y.detached
            && t.removed == y.removed
            && |t.subs| == |y.subs| && forall i :: 0 <= i < |y.subs| ==> t.subs[i].session == y.subs[i].session
  {
    if e.Reading? {
      S.StepKeepsIdentity(y.subs[e.i], y.l, e.s);
    }
  }

  lemma ElsewhereEvolves(cfg: Config, es: seq<Event>, e: Event)
    requires Run(cfg, es).Some? && Elsewhere(e) && Step(cfg, Run(cfg, es).value, e).Some?
    ensures Evolves(Run(cfg, es).value.l, Step(cfg, Run(cfg, es).value, e).value.l)
  {
    var y := Run(cfg, es).value;
    RunKeepsInv(cfg, es);
    match e
    case Writing(w) =>
      if w.Write? {
        WriteKeepsTable(cfg, y, w.ids);
      }
    case Mark(ids, now) => MarkEvolves(y.l, ids, now);
    case _ =>
  }
}
