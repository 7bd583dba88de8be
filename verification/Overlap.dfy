/**
 Two subscribers of one session, one after the other: when can both deliver the same row?

 `SuccessorsDeliverLaterIds` excludes it when the earlier task was joined. A `stop` that timed out leaves that task
 running; here is what then decides, at the moment the later subscriber is created.
 */
module Overlap {
  import opened Wrappers
  import opened Timestamps
  import opened Ledgers
  import opened Pipeline
  import opened Guarantees
  import W = Writer
  import S = Subscription

  /** Row by row: a row that is due in both is delivered by both exactly when each one's own fetch over it found it
      unmarked and undeleted. */
  lemma BothDeliverIff(cfg: Config, es: seq<Event>, i: nat, j: nat, c: nat)
    requires Run(cfg, es).Some? && c < |Run(cfg, es).value.l.cells|
    requires i < |Run(cfg, es).value.subs| && j < |Run(cfg, es).value.subs|
    requires var y := Run(cfg, es).value;
             Due(y.subs[i], y.l.cells[c].msg, y.l.cells[c].id) && Due(y.subs[j], y.l.cells[c].msg, y.l.cells[c].id)
    ensures var y := Run(cfg, es).value;
            var s, t, e := y.subs[i], y.subs[j], y.l.cells[c].AsEntry();
            e in s.log && e in t.log <==> S.PendingWhenPassed(s, c, e.id) && S.PendingWhenPassed(t, c, e.id)
  {
    var y := Run(cfg, es).value;
    RunKeepsInv(cfg, es);
    assert S.Inv(y.subs[i], y.l) && S.Inv(y.subs[j], y.l);
    S.LogMembership(y.subs[i], y.l, c);
    S.LogMembership(y.subs[j], y.l, c);
  }

  /** A row can be delivered by both only if the earlier task fetched it from a table that had grown since the later
      subscriber was created. */
  lemma OverlapNeedsALateFetch(cfg: Config, es: seq<Event>, i: nat, j: nat, e: Entry) returns (k: nat)
    requires Run(cfg, es).Some? && i < j < |Run(cfg, es).value.subs|
    requires var y := Run(cfg, es).value; e in y.subs[i].log && e in y.subs[j].log
    ensures var y := Run(cfg, es).value;
            && S.Covers(y.subs[i], k, e.id)
            && y.subs[j].origin.nextId < y.subs[i].fetches[k].snapshot.nextId
  {
    var y := Run(cfg, es).value;
    RunKeepsInv(cfg, es);
    assert S.Inv(y.subs[i], y.l) && S.Inv(y.subs[j], y.l);
    S.LogAscends(y.subs[i], y.l);
    var _ := S.DeliveredIsInserted(y.subs[j], y.l, e);
    var m := S.DeliveredIsInserted(y.subs[i], y.l, e);
    k := S.LogIsExact(y.subs[i], y.l, m);
    var f := y.subs[i].fetches[k];
    S.SnapshotIsValid(y.subs[i], y.l, k);
    assert f.snapshot.cells[m].AsEntry() == e;
  }

  // ---- A stopped task that is past its last fetch ----

  /** A task told to stop may still fetch: it is about to, or it is waiting for a notification. */
  predicate CanStillFetch(s: S.Sub) {
    s.phase.Fetching? || (s.mode.Listening? && s.phase == S.Waiting)
  }

  predicate Quiet(s: S.Sub) {
    s.phase == S.Done || (s.stop && !CanStillFetch(s))
  }

  lemma QuietStaysQuiet(s: S.Sub, l: Ledger, e: S.Event)
    requires Quiet(s) && S.Step(s, l, e).Some?
    ensures var t := S.Step(s, l, e).value; Quiet(t) && t.fetches == s.fetches
  {
  }

  /** What a step of the system does to one subscriber. */
  lemma StepOnSub(cfg: Config, y: System, e: Event, i: nat)
    requires Step(cfg, y, e).Some? && i < |y.subs|
    ensures var y' := Step(cfg, y, e).value;
            && i < |y'.subs| && y'.subs[i].origin == y.subs[i].origin
            && (Quiet(y.subs[i]) ==> Quiet(y'.subs[i]) && y'.subs[i].fetches == y.subs[i].fetches)
  {
    if e.Reading? && e.i == i {
      S.StepKeepsIdentity(y.subs[i], y.l, e.s);
      if Quiet(y.subs[i]) {
        QuietStaysQuiet(y.subs[i], y.l, e.s);
      }
    }
  }

  lemma {:induction false} QuietForGood(cfg: Config, es: seq<Event>, n: nat, i: nat)
    requires n <= |es| && Run(cfg, es).Some? && Run(cfg, es[..n]).Some? && i < |Run(cfg, es[..n]).value.subs|
    ensures var y, y' := Run(cfg, es[..n]).value, Run(cfg, es).value;
            && i < |y'.subs| && y'.subs[i].origin == y.subs[i].origin
            && (Quiet(y.subs[i]) ==> Quiet(y'.subs[i]) && y'.subs[i].fetches == y.subs[i].fetches)
    decreases |es|
  {
    if n == |es| {
      assert es[..n] == es;
    } else {
      var m := |es| - 1;
      assert es[..m][..n] == es[..n];
      QuietForGood(cfg, es[..m], n, i);
      StepOnSub(cfg, Run(cfg, es[..m]).value, es[m], i);
    }
  }

  /** Whoever is being stopped, or was left behind by a timeout, has its flag up. */
  ghost predicate FlagsUp(y: System) {
    && (y.stopping.Some? ==> y.stopping.value < |y.subs| && y.subs[y.stopping.value].stop)
    && forall i :: i in y.detached ==> i < |y.subs| && y.subs[i].stop
  }

  lemma StepKeepsFlagsUp(cfg: Config, y: System, e: Event)
    requires FlagsUp(y) && Step(cfg, y, e).Some?
    ensures FlagsUp(Step(cfg, y, e).value)
  {
    if e.Reading? {
      S.StepKeepsIdentity(y.subs[e.i], y.l, e.s);
    }
  }

  lemma {:induction false} RunKeepsFlagsUp(cfg: Config, es: seq<Event>)
    requires Run(cfg, es).Some?
    ensures FlagsUp(Run(cfg, es).value)
  {
    if es == [] {
    } else {
      RunKeepsFlagsUp(cfg, es[..|es| - 1]);
      StepKeepsFlagsUp(cfg, Run(cfg, es[..|es| - 1]).value, es[|es| - 1]);
    }
  }

  /** The last event of the run created subscriber j for the session of the older subscriber i. */
  ghost predicate JustSucceeded(cfg: Config, es: seq<Event>, i: nat, j: nat) {
    && es != [] && Run(cfg, es).Some? && i < j < |Run(cfg, es).value.subs|
    && es[|es| - 1] == Subscribe(Run(cfg, es).value.subs[i].session) && j == |Run(cfg, es).value.subs| - 1
  }

  lemma PredecessorWasStopped(cfg: Config, es: seq<Event>, i: nat, j: nat)
    requires JustSucceeded(cfg, es, i, j)
    ensures var y := Run(cfg, es).value;
            && (y.subs[i].phase == S.Done || y.subs[i].stop)
            && y.subs[j] == S.New(cfg.mode, y.subs[i].session, y.l) && y.stopping == None
  {
    var y := Run(cfg, es[..|es| - 1]).value;
    RunKeepsInv(cfg, es[..|es| - 1]);
    RunKeepsFlagsUp(cfg, es[..|es| - 1]);
    assert Accounted(y, i);
  }

  ghost predicate BothDeliver(cfg: Config, es: seq<Event>, i: nat, j: nat, e: Entry) {
    && Run(cfg, es).Some? && i < |Run(cfg, es).value.subs| && j < |Run(cfg, es).value.subs|
    && e in Run(cfg, es).value.subs[i].log && e in Run(cfg, es).value.subs[j].log
  }

  /** A predecessor past its last fetch when its successor is created never delivers a row that the successor delivers,
      whether or not its `stop` timed out: a `stop` that times out inside a slow callback is harmless. */
  lemma NoOverlapPastTheLastFetch(cfg: Config, es: seq<Event>, n: nat, i: nat, j: nat, e: Entry)
    requires n <= |es| && JustSucceeded(cfg, es[..n], i, j) && !CanStillFetch(Run(cfg, es[..n]).value.subs[i])
    ensures !BothDeliver(cfg, es, i, j, e)
  {
    if BothDeliver(cfg, es, i, j, e) {
      PredecessorWasStopped(cfg, es[..n], i, j);
      QuietForGood(cfg, es, n, i);
      QuietForGood(cfg, es, n, j);
      FetchesReadThePast(cfg, es[..n], i);
      var k := OverlapNeedsALateFetch(cfg, es, i, j, e);
      assert false;
    }
  }

  lemma FetchesReadThePast(cfg: Config, es: seq<Event>, i: nat)
    requires Run(cfg, es).Some? && i < |Run(cfg, es).value.subs|
    ensures var y := Run(cfg, es).value;
            forall k :: 0 <= k < |y.subs[i].fetches| ==> y.subs[i].fetches[k].snapshot.nextId <= y.l.nextId
  {
    var y := Run(cfg, es).value;
    RunKeepsInv(cfg, es);
    assert S.Inv(y.subs[i], y.l);
    forall k | 0 <= k < |y.subs[i].fetches| ensures y.subs[i].fetches[k].snapshot.nextId <= y.l.nextId {
      assert Evolves(y.subs[i].fetches[k].snapshot, y.l);
    }
  }

  // ---- A stopped task that can still fetch ----

  lemma Extend(cfg: Config, es: seq<Event>, e: Event) returns (es': seq<Event>)
    requires Run(cfg, es).Some? && Step(cfg, Run(cfg, es).value, e).Some?
    ensures es' == es + [e] && Run(cfg, es') == Step(cfg, Run(cfg, es).value, e)
  {
    es' := es + [e];
    assert es'[..|es|] == es;
  }

  /** The writer has a sender, a channel with room for something, and no Shutdown on its way. */
  predicate Accepting(cfg: Config, w: W.State) {
    w.open && cfg.writer.capacity > 0 && W.Shutdown !in W.Sent(w)
  }

  lemma QuietWork(cfg: Config, w: W.State) returns (e: W.Event)
    requires W.Inv(cfg.writer, w) && Accepting(cfg, w) && !(w.phase == W.Receiving && w.queue == [])
    ensures e == W.Work || e == W.Write(None)
    ensures W.Step(cfg.writer, w, e).Some?
    ensures var w' := W.Step(cfg.writer, w, e).value;
            W.Inv(cfg.writer, w') && Accepting(cfg, w') && W.Rank(w') < W.Rank(w)
  {
    e := if w.phase.Writing? then W.Write(None) else W.Work;
    assert w.taken <= W.Sent(w);
    assert W.Shutdown !in w.taken;
    W.StepKeepsInv(cfg.writer, w, e);
    W.StepLowersRank(cfg.writer, w, e);
    W.SentChangesBySend(cfg.writer, w, e);
  }

  /** Let the writer work off what it has; here with failing inserts, so that the table stays as it is. */
  lemma {:induction false} WriterComesToRest(cfg: Config, es: seq<Event>, y: System)
    returns (es': seq<Event>, w: W.State)
    requires Run(cfg, es) == Some(y) && W.Inv(cfg.writer, y.w) && Accepting(cfg, y.w)
    ensures es <= es' && Run(cfg, es') == Some(y.(w := w))
    ensures W.Inv(cfg.writer, w) && Accepting(cfg, w) && w.phase == W.Receiving && w.queue == []
    decreases W.Rank(y.w)
  {
    if y.w.phase == W.Receiving && y.w.queue == [] {
      es', w := es, y.w;
    } else {
      var e := QuietWork(cfg, y.w);
      es' := Extend(cfg, es, Writing(e));
      es', w := WriterComesToRest(cfg, es', y.(w := W.Step(cfg.writer, y.w, e).value));
    }
  }

  lemma OneMessageMoves(cfg: Config, w: W.State, m: Message) returns (w1: W.State, w2: W.State, w3: W.State)
    requires W.Inv(cfg.writer, w) && Accepting(cfg, w) && w.phase == W.Receiving && w.queue == []
    ensures W.Step(cfg.writer, w, W.Send(W.Post(m))) == Some(w1)
    ensures W.Step(cfg.writer, w1, W.Work) == Some(w2) && W.Step(cfg.writer, w2, W.Work) == Some(w3)
    ensures w3.phase == W.Writing(false) && w3.batch == [m]
  {
    var c: W.Command := W.Post(m);
    w1 := w.(queue := [c]);
    assert [] + [c] == [c] && [c][1..] == [];
    w2 := W.Take(w1).(phase := W.Filling);
    assert w2.batch == [m];
    w3 := w2.(phase := W.Writing(false));
  }

  function NewRow(l: Ledger, m: Message): Ledger {
    Ledger(l.cells + [Cell(l.nextId, m, Live(None))], l.nextId + 1)
  }

  lemma OneRowInserted(l: Ledger, m: Message)
    ensures FreshIds(l.nextId, [l.nextId], 1) && Insert(l, [m], [l.nextId]) == NewRow(l, m)
  {
    assert NewCells([m], [l.nextId]) == [Cell(l.nextId, m, Live(None))];
  }

  lemma OneRowIsWritten(cfg: Config, es: seq<Event>, y: System, m: Message) returns (es': seq<Event>, w: W.State)
    requires Run(cfg, es) == Some(y) && W.Inv(cfg.writer, y.w) && Accepting(cfg, y.w)
    requires y.w.phase == W.Receiving && y.w.queue == []
    ensures es <= es' && Run(cfg, es') == Some(y.(w := w, l := NewRow(y.l, m)))
  {
    var w1, w2, w3 := OneMessageMoves(cfg, y.w, m);
    es' := Extend(cfg, es, Writing(W.Send(W.Post(m))));
    es' := Extend(cfg, es', Writing(W.Work));
    es' := Extend(cfg, es', Writing(W.Work));
    es', w := BatchOfOne(cfg, es', y.(w := w3), m);
  }

  lemma BatchOfOne(cfg: Config, es: seq<Event>, y: System, m: Message) returns (es': seq<Event>, w: W.State)
    requires Run(cfg, es) == Some(y) && y.w.phase == W.Writing(false) && y.w.batch == [m]
    ensures es <= es' && Run(cfg, es') == Some(y.(w := w, l := NewRow(y.l, m)))
  {
    OneRowInserted(y.l, m);
    es' := Extend(cfg, es, Writing(W.Write(Some([y.l.nextId]))));
    w := Run(cfg, es').value.w;
  }

  ghost predicate NothingPending(cells: seq<Cell>, session: string) {
    forall i :: 0 <= i < |cells| ==> !cells[i].Pending(session)
  }

  /** Somebody marks every row there is. */
  lemma AllAreMarked(cfg: Config, es: seq<Event>, y: System, session: string) returns (es': seq<Event>, l: Ledger)
    requires Run(cfg, es) == Some(y)
    ensures es <= es' && Run(cfg, es') == Some(y.(l := l)) && NothingPending(l.cells, session) && l.nextId == y.l.nextId
  {
    var ids := set c | c in y.l.cells :: c.id;
    var now: Utc := Fields(1970, 1, 1, 0, 0, 0, 0);
    es' := Extend(cfg, es, Mark(ids, now));
    l := MarkDelivered(y.l, ids, now);
    forall i | 0 <= i < |l.cells| ensures !l.cells[i].Pending(session) {
      assert y.l.cells[i].id in ids;
    }
  }

  lemma {:induction false} OnlyTheNewRow(cells: seq<Cell>, c: Cell, session: string, after: int)
    requires NothingPending(cells, session) && c.Pending(session) && after < c.id
    ensures Eligible(cells + [c], session, after) == [c.AsEntry()]
  {
    if cells == [] {
      assert cells + [c] == [c] && [c][1..] == [];
      assert Between([], session, after, None) == [];
    } else {
      assert (cells + [c])[0] == cells[0] && (cells + [c])[1..] == cells[1..] + [c];
      OnlyTheNewRow(cells[1..], c, session, after);
    }
  }

  /** `y'` differs from `y` in subscriber i only. */
  ghost predicate OnlySub(y: System, y': System, i: nat) {
    i < |y.subs| == |y'.subs| && y' == y.(subs := y.subs[i := y'.subs[i]])
  }

  /** What a subscriber does until its next fetch; `id` is what a notification would name. */
  function TowardsFetch(s: S.Sub, id: int): S.Event {
    if s.mode.Listening? then S.Notified(Some(id)) else S.LoadFlag
  }

  ghost predicate NearFetch(s: S.Sub) {
    CanStillFetch(s) || (s.phase == S.Checking && !s.stop && s.mode.Polling?)
  }

  lemma OneStepToFetch(s: S.Sub, l: Ledger, id: int)
    requires NearFetch(s) && !s.phase.Fetching? && s.last < id
    ensures S.Step(s, l, TowardsFetch(s, id)) == Some(s.(phase := S.Fetching(S.PAGE)))
  {
  }

  /** A new subscriber, and a stopped one that can still fetch, get to their next fetch. */
  lemma GetsToFetch(cfg: Config, es: seq<Event>, y: System, i: nat, id: int) returns (es': seq<Event>, y': System)
    requires Run(cfg, es) == Some(y) && i < |y.subs| && S.Inv(y.subs[i], y.l) && y.subs[i].last < id
    requires NearFetch(y.subs[i])
    ensures es <= es' && Run(cfg, es') == Some(y') && OnlySub(y, y', i)
    ensures y'.subs[i] == y.subs[i].(phase := y'.subs[i].phase)
    ensures y'.subs[i].phase.Fetching? && y'.subs[i].phase.limit > 0
  {
    if y.subs[i].phase.Fetching? {
      es', y' := es, y;
    } else {
      OneStepToFetch(y.subs[i], y.l, id);
      es' := Extend(cfg, es, Reading(i, TowardsFetch(y.subs[i], id)));
      y' := y.(subs := y.subs[i := y.subs[i].(phase := S.Fetching(S.PAGE))]);
    }
  }

  lemma RowIsDelivered(cfg: Config, es: seq<Event>, y: System, i: nat, e: Entry) returns (es': seq<Event>, y': System)
    requires Run(cfg, es) == Some(y) && i < |y.subs| && y.subs[i].phase.Fetching? && y.subs[i].phase.limit > 0
    requires Eligible(y.l.cells, y.subs[i].session, y.subs[i].last) == [e]
    ensures es <= es' && Run(cfg, es') == Some(y') && OnlySub(y, y', i) && e in y'.subs[i].log
  {
    es' := Extend(cfg, es, Reading(i, S.Fetched));
    assert Run(cfg, es').value.subs[i].page == [e];
    es' := Extend(cfg, es', Reading(i, S.Deliver));
    y' := Run(cfg, es').value;
  }

  lemma NewRowReaches(cfg: Config, es: seq<Event>, y: System, i: nat, l: Ledger, m: Message)
    returns (es': seq<Event>, y': System)
    requires Run(cfg, es) == Some(y) && y.l == NewRow(l, m) && NothingPending(l.cells, m.sessionId)
    requires i < |y.subs| && y.subs[i].session == m.sessionId && S.Inv(y.subs[i], y.l) && y.subs[i].last < l.nextId
    requires NearFetch(y.subs[i])
    ensures es <= es' && Run(cfg, es') == Some(y') && OnlySub(y, y', i) && Entry(l.nextId, m) in y'.subs[i].log
  {
    var z;
    es', z := GetsToFetch(cfg, es, y, i, l.nextId);
    OnlyTheNewRow(l.cells, Cell(l.nextId, m, Live(None)), m.sessionId, z.subs[i].last);
    es', y' := RowIsDelivered(cfg, es', z, i, Entry(l.nextId, m));
  }

  /** The system right after the creation of j, with everything marked and the message written. */
  lemma RowAppears(cfg: Config, es: seq<Event>, y: System, m: Message) returns (es': seq<Event>, y': System, l: Ledger)
    requires Run(cfg, es) == Some(y) && Accepting(cfg, y.w)
    ensures es <= es' && Run(cfg, es') == Some(y') && y'.subs == y.subs
    ensures y'.l == NewRow(l, m) && NothingPending(l.cells, m.sessionId) && l.nextId == y.l.nextId
  {
    var w;
    es', l := AllAreMarked(cfg, es, y, m.sessionId);
    RunKeepsInv(cfg, es');
    es', w := WriterComesToRest(cfg, es', y.(l := l));
    es', w := OneRowIsWritten(cfg, es', y.(l := l, w := w), m);
    y' := Run(cfg, es').value;
  }

  /** From there an overlap is possible: whatever happened so far, if the predecessor can still fetch when its successor
      is created, the run can go on so that both deliver the next message of the session. */
  lemma LateFetchCanOverlap(cfg: Config, es: seq<Event>, i: nat, j: nat, m: Message) returns (es': seq<Event>, e: Entry)
    requires JustSucceeded(cfg, es, i, j) && Accepting(cfg, Run(cfg, es).value.w)
    requires CanStillFetch(Run(cfg, es).value.subs[i]) && m.sessionId == Run(cfg, es).value.subs[i].session
    ensures es <= es' && BothDeliver(cfg, es', i, j, e) && e.msg == m
  {
    var y := Run(cfg, es).value;
    PredecessorWasStopped(cfg, es, i, j);
    RunKeepsInv(cfg, es);
    CursorsAreHandedOut(y);
    var z, l;
    es', z, l := RowAppears(cfg, es, y, m);
    RunKeepsInv(cfg, es');
    assert S.Inv(z.subs[i], z.l) && S.Inv(z.subs[j], z.l);
    es', z := NewRowReaches(cfg, es', z, i, l, m);
    es', z := NewRowReaches(cfg, es', z, j, l, m);
    e := Entry(l.nextId, m);
  }

  ghost predicate MayOverlap(cfg: Config, es: seq<Event>, i: nat, j: nat) {
    exists es', e :: es <= es' && BothDeliver(cfg, es', i, j, e)
  }

  /** The exact condition, at the moment the successor is created: some continuation lets both subscribers deliver the
      same row if and only if the predecessor can still fetch. */
  lemma OverlapIff(cfg: Config, es: seq<Event>, i: nat, j: nat)
    requires JustSucceeded(cfg, es, i, j) && Accepting(cfg, Run(cfg, es).value.w)
    ensures MayOverlap(cfg, es, i, j) <==> CanStillFetch(Run(cfg, es).value.subs[i])
  {
    var y := Run(cfg, es).value;
    if CanStillFetch(y.subs[i]) {
      var m := Message(y.subs[i].session, "", "", Fields(1970, 1, 1, 0, 0, 0, 0));
      var es', e := LateFetchCanOverlap(cfg, es, i, j, m);
    } else if MayOverlap(cfg, es, i, j) {
      var es', e :| es <= es' && BothDeliver(cfg, es', i, j, e);
      assert es'[..|es|] == es;
      NoOverlapPastTheLastFetch(cfg, es', |es|, i, j, e);
    }
  }

  const TINY := Config(W.Config(1, 1), S.Polling, 0, 0)

  /** A `stop` that times out just before a fetch, and a new subscription. */
  lemma StopTimesOut(session: string) returns (es: seq<Event>)
    ensures JustSucceeded(TINY, es, 0, 1) && Accepting(TINY, Run(TINY, es).value.w)
    ensures var y := Run(TINY, es).value; y.detached == {0} && y.subs[0].session == session && CanStillFetch(y.subs[0])
  {
    es := Extend(TINY, [], Subscribe(session));
    es := Extend(TINY, es, Reading(0, S.LoadFlag));
    es := Extend(TINY, es, StopBegin(session));
    es := Extend(TINY, es, StopTimedOut);
    assert session !in Run(TINY, es).value.registry;
    es := Extend(TINY, es, Subscribe(session));
    assert Run(TINY, es).value.detached == {0};
  }

  /** Such a predecessor exists, so a row is delivered twice in some run: a subscriber whose `stop` timed out just
      before its fetch, and its successor, both deliver the next message. */
  lemma TimedOutStopCanDeliverTwice(m: Message) returns (es: seq<Event>, e: Entry)
    ensures BothDeliver(TINY, es, 0, 1, e) && e.msg == m
  {
    es := StopTimesOut(m.sessionId);
    es, e := LateFetchCanOverlap(TINY, es, 0, 1, m);
  }
}
