/** What the whole engine promises, over every run of the system in `Pipeline`. */
module Guarantees {
  import opened Wrappers
  import opened Timestamps
  import opened Ledgers
  import opened Batches
  import opened Pipeline
  import W = Writer
  import S = Subscription

  /**
   End to end. In every interleaving, for every subscriber ever created: the accepted messages are the attempted
   batches, the batch in hand and the channel, in order; the table's rows, in id order, are the attempted messages
   without the failed batches; and the subscriber's callback log is strictly increasing in id, holds rows of its own
   session only, and holds the row of a written message with start < id <= last_id if and only if the row was neither
   marked nor deleted in the table read by the fetch that passed over it.
   */
  lemma EndToEnd(cfg: Config, es: seq<Event>, i: nat)
    requires Run(cfg, es).Some? && i < |Run(cfg, es).value.subs|
    ensures var y := Run(cfg, es).value;
            var s := y.subs[i];
            var rows, ids := Written(y.w.attempts), WrittenIds(y.w.attempts);
            && W.Posts(W.Sent(y.w)) == Attempted(y.w.attempts) + y.w.batch + W.Posts(y.w.queue)
            && Holds(y.l.cells, y.w.attempts)
            && |rows| == |ids| && (forall j, k :: 0 <= j < k < |ids| ==> ids[j] < ids[k])
            && EntriesAscending(s.log)
            && (forall e :: e in s.log ==> exists j :: 0 <= j < |rows| && Delivers(s, rows[j], ids[j], e))
            && (forall j :: 0 <= j < |rows| && Due(s, rows[j], ids[j]) ==>
                  (Entry(ids[j], rows[j]) in s.log <==> S.PendingWhenPassed(s, j, ids[j])))
  {
    var y := Run(cfg, es).value;
    var s := y.subs[i];
    var rows, ids := Written(y.w.attempts), WrittenIds(y.w.attempts);
    RunKeepsInv(cfg, es);
    assert S.Inv(s, y.l);
    W.InvConserves(cfg.writer, y.w);
    IdsAscend(y.l, y.w.attempts);
    S.LogAscends(s, y.l);
    forall e | e in s.log ensures exists j :: 0 <= j < |rows| && Delivers(s, rows[j], ids[j], e) {
      var j := S.DeliveredIsInserted(s, y.l, e);
      assert Delivers(s, rows[j], ids[j], e);
    }
    forall j | 0 <= j < |rows| && Due(s, rows[j], ids[j])
      ensures Entry(ids[j], rows[j]) in s.log <==> S.PendingWhenPassed(s, j, ids[j])
    {
      assert y.l.cells[j].AsEntry() == Entry(ids[j], rows[j]);
      S.LogMembership(s, y.l, j);
    }
  }

  ghost predicate Due(s: S.Sub, m: Message, id: int) {
    m.sessionId == s.session && S.Start(s) < id <= s.last
  }

  ghost predicate Delivers(s: S.Sub, m: Message, id: int, e: Entry) {
    Due(s, m, id) && e == Entry(id, m)
  }

  lemma IdsAscend(l: Ledger, attempts: seq<Attempt>)
    requires Valid(l) && Holds(l.cells, attempts)
    ensures forall j, k :: 0 <= j < k < |WrittenIds(attempts)| ==> WrittenIds(attempts)[j] < WrittenIds(attempts)[k]
  {
    var ids := WrittenIds(attempts);
    forall j, k | 0 <= j < k < |ids| ensures ids[j] < ids[k] {
      assert l.cells[j].AsEntry().id == ids[j] && l.cells[k].AsEntry().id == ids[k];
    }
  }

  /** Why the fetch that passed over a row did not return it. */
  datatype Reason = Marked | AgedMark | Aged

  ghost predicate Explains(cfg: Config, c: Cell, r: Reason) {
    match r
    case Marked => c.status.Live? && c.status.deliveredAt.Some?
    case AgedMark =>
      && c.status.Deleted? && c.status.deliveredAt.Some?
      && Nanos(c.status.deliveredAt.value) < Nanos(c.status.at) - cfg.deliveredRetention
    case Aged =>
      && c.status.Deleted? && c.status.deliveredAt.None?
      && Nanos(c.msg.createdAt) < Nanos(c.status.at) - cfg.undeliveredRetention
  }

  /** Cleanup never hides fresh work: a row of the session that the cursor passed without a callback had been marked
      delivered, or had been deleted after being marked, or was older than `undelivered_retention` when deleted. */
  lemma MissedRowsWereMarkedOrStale(cfg: Config, es: seq<Event>, i: nat, j: nat) returns (k: nat, r: Reason)
    requires Run(cfg, es).Some? && i < |Run(cfg, es).value.subs| && j < |Run(cfg, es).value.l.cells|
    requires var y := Run(cfg, es).value;
             && Due(y.subs[i], y.l.cells[j].msg, y.l.cells[j].id)
             && y.l.cells[j].AsEntry() !in y.subs[i].log
    ensures var y := Run(cfg, es).value;
            && S.Covers(y.subs[i], k, y.l.cells[j].id)
            && j < |y.subs[i].fetches[k].snapshot.cells|
            && Explains(cfg, y.subs[i].fetches[k].snapshot.cells[j], r)
  {
    var y := Run(cfg, es).value;
    var s := y.subs[i];
    RunKeepsInv(cfg, es);
    assert S.Inv(s, y.l);
    k := S.LogIsExact(s, y.l, j);
    assert Evolves(s.fetches[k].snapshot, y.l);
    var c := s.fetches[k].snapshot.cells[j];
    assert Moves(c.status, y.l.cells[j].status) && c.AsEntry() == y.l.cells[j].AsEntry();
    assert Justified(cfg, y.l.cells[j]);
    r := match c.status
      case Live(_) => Marked
      case Deleted(Some(_), _) => AgedMark
      case Deleted(None, _) => Aged;
  }

  /** The counts the cleanups returned and the surviving rows balance the rows inserted. */
  lemma CleanupBalances(cfg: Config, es: seq<Event>)
    requires Run(cfg, es).Some?
    ensures var y := Run(cfg, es).value; LiveCount(y.l.cells) + y.removed == |Written(y.w.attempts)|
  {
    RunKeepsInv(cfg, es);
  }

  /** At most one task per session runs, apart from those whose `stop` timed out. */
  lemma OneTaskPerSession(cfg: Config, es: seq<Event>, i: nat, j: nat)
    requires Run(cfg, es).Some? && i < |Run(cfg, es).value.subs| && j < |Run(cfg, es).value.subs|
    requires var y := Run(cfg, es).value;
             && y.subs[i].session == y.subs[j].session
             && y.subs[i].phase != S.Done && y.subs[j].phase != S.Done && i !in y.detached && j !in y.detached
    ensures i == j
  {
    RunKeepsInv(cfg, es);
    var y := Run(cfg, es).value;
    assert Accounted(y, i) && Accounted(y, j);
  }

  /** Resubscription: when the `stop` of the earlier subscriber of a session did not time out, everything it delivered
      has a smaller id than everything the later one delivers, even if deletions lowered MAX(id) in between. */
  lemma SuccessorsDeliverLaterIds(cfg: Config, es: seq<Event>, i: nat, j: nat, d: Entry, e: Entry)
    requires Run(cfg, es).Some? && i < j < |Run(cfg, es).value.subs|
    requires var y := Run(cfg, es).value;
             && y.subs[i].session == y.subs[j].session && i !in y.detached
             && d in y.subs[i].log && e in y.subs[j].log
    ensures d.id < e.id
  {
    var y := Run(cfg, es).value;
    RunKeepsInv(cfg, es);
    assert Separated(y, i, j);
    assert S.Inv(y.subs[i], y.l) && S.Inv(y.subs[j], y.l);
    S.LogAscends(y.subs[i], y.l);
    var _ := S.DeliveredIsInserted(y.subs[j], y.l, e);
  }

  // ---- The writer's guarantees, in the table ----

  /** The writer's part of a schedule. */
  function WriterEvents(es: seq<Event>): seq<W.Event> {
    if es == [] then []
    else WriterEvents(es[..|es| - 1]) + if es[|es| - 1].Writing? then [es[|es| - 1].w] else []
  }

  lemma WriterMovesOn(cfg: Config, y: System, e: Event, ws: seq<W.Event>)
    requires W.Run(cfg.writer, ws) == Some(y.w) && Step(cfg, y, e).Some?
    ensures W.Run(cfg.writer, ws + if e.Writing? then [e.w] else []) == Some(Step(cfg, y, e).value.w)
  {
    if e.Writing? {
      WriterTouchesNoSubs(cfg, y, e.w);
      assert (ws + [e.w])[..|ws|] == ws;
    } else {
      assert ws + [] == ws;
    }
  }

  /** Every run of the engine contains a run of the writer alone, so what holds of the one holds of the other. */
  lemma {:induction false} WriterRunsAlone(cfg: Config, es: seq<Event>)
    requires Run(cfg, es).Some?
    ensures W.Run(cfg.writer, WriterEvents(es)) == Some(Run(cfg, es).value.w)
  {
    if es == [] {
    } else {
      WriterRunsAlone(cfg, es[..|es| - 1]);
      WriterMovesOn(cfg, Run(cfg, es[..|es| - 1]).value, es[|es| - 1], WriterEvents(es[..|es| - 1]));
    }
  }

  /** `flush` has returned Ok for the k-th command the engine accepted. */
  ghost predicate Flushed(y: System, k: nat) {
    W.Acknowledged(W.Sent(y.w), |y.w.signalled|, k)
  }

  /** The c-th row is the message's. */
  ghost predicate RowOf(y: System, c: nat, m: Message) {
    c < |y.l.cells| && y.l.cells[c].msg == m
  }

  ghost predicate InAFailedBatch(attempts: seq<Attempt>, m: Message) {
    exists a :: a in attempts && a.ids.None? && m in a.msgs
  }

  /** Flush is a barrier in the table: when `flush` has returned, the messages accepted before it are a prefix of those
      whose insert was attempted, and each has a row in the table unless its batch failed. */
  lemma FlushFillsTheTable(cfg: Config, es: seq<Event>, k: nat)
    requires Run(cfg, es).Some? && Flushed(Run(cfg, es).value, k)
    ensures var y := Run(cfg, es).value;
            && W.Posts(W.Sent(y.w)[..k]) <= Attempted(y.w.attempts) && Holds(y.l.cells, y.w.attempts)
            && forall m :: m in W.Posts(W.Sent(y.w)[..k]) ==>
                 InAFailedBatch(y.w.attempts, m) || exists c :: RowOf(y, c, m)
  {
    var y := Run(cfg, es).value;
    RunKeepsInv(cfg, es);
    WriterRunsAlone(cfg, es);
    W.FlushIsABarrier(cfg.writer, WriterEvents(es), k);
    forall m | m in W.Posts(W.Sent(y.w)[..k]) && !InAFailedBatch(y.w.attempts, m) ensures exists c :: RowOf(y, c, m) {
      var c :| 0 <= c < |Written(y.w.attempts)| && Written(y.w.attempts)[c] == m;
      assert y.l.cells[c].AsEntry().msg == m;
      assert RowOf(y, c, m);
    }
  }

  lemma WriterGrows(cfg: Config, y: System, e: Event)
    requires Step(cfg, y, e).Some?
    ensures var t := Step(cfg, y, e).value; W.Sent(y.w) <= W.Sent(t.w) && |y.w.signalled| <= |t.w.signalled|
  {
    if e.Writing? {
      WriterTouchesNoSubs(cfg, y, e.w);
      W.SentChangesBySend(cfg.writer, y.w, e.w);
    }
  }

  lemma FlushedNext(y: System, t: System, k: nat)
    requires Flushed(y, k) && W.Sent(y.w) <= W.Sent(t.w) && |y.w.signalled| <= |t.w.signalled|
    ensures Flushed(t, k) && W.Sent(t.w)[..k] == W.Sent(y.w)[..k]
  {
    var a, b := W.Sent(y.w), W.Sent(t.w);
    assert b[..|a|] == a;
    assert b[..k] == a[..k] && b[k] == a[k];
  }

  /** An acknowledgement is not taken back. */
  lemma {:induction false} FlushedStays(cfg: Config, es: seq<Event>, n: nat, k: nat)
    requires n <= |es| && Run(cfg, es).Some? && Run(cfg, es[..n]).Some? && Flushed(Run(cfg, es[..n]).value, k)
    ensures Flushed(Run(cfg, es).value, k)
    ensures W.Sent(Run(cfg, es).value.w)[..k] == W.Sent(Run(cfg, es[..n]).value.w)[..k]
    decreases |es|
  {
    if n == |es| {
      assert es[..n] == es;
    } else {
      var m := |es| - 1;
      assert es[..m][..n] == es[..n];
      FlushedStays(cfg, es[..m], n, k);
      WriterGrows(cfg, Run(cfg, es[..m]).value, es[m]);
      FlushedNext(Run(cfg, es[..m]).value, Run(cfg, es).value, k);
    }
  }

  /** A fetch made any time after `flush` returned sees what was accepted before the flush: each such message whose
      batch did not fail has a row, and if that row is still pending and past the cursor, the page contains it or is
      filled by rows that come before it. */
  lemma FetchAfterFlushSees(cfg: Config, es: seq<Event>, n: nat, k: nat, m: Message, after: int, limit: nat)
    returns (c: nat)
    requires n <= |es| && Run(cfg, es).Some? && Run(cfg, es[..n]).Some? && Flushed(Run(cfg, es[..n]).value, k)
    requires m in W.Posts(W.Sent(Run(cfg, es[..n]).value.w)[..k]) && !InAFailedBatch(Run(cfg, es).value.w.attempts, m)
    ensures var y := Run(cfg, es).value;
            var page := FetchAfter(y.l, m.sessionId, after, limit);
            && RowOf(y, c, m)
            && (y.l.cells[c].status == Live(None) && after < y.l.cells[c].id ==>
                  || y.l.cells[c].AsEntry() in page
                  || (|page| == limit && forall e :: e in page ==> e.id < y.l.cells[c].id))
  {
    var y := Run(cfg, es).value;
    RunKeepsInv(cfg, es);
    FlushedStays(cfg, es, n, k);
    FlushFillsTheTable(cfg, es, k);
    c :| RowOf(y, c, m);
    RowIsSeen(y.l, c, after, limit);
  }

  lemma LastIsGreatest(page: seq<Entry>, e: Entry)
    requires EntriesAscending(page) && e in page
    ensures e.id <= page[|page| - 1].id
  {
    var i :| 0 <= i < |page| && page[i] == e;
  }

  lemma RowIsSeen(l: Ledger, c: nat, after: int, limit: nat)
    requires Valid(l) && c < |l.cells|
    ensures var page := FetchAfter(l, l.cells[c].msg.sessionId, after, limit);
            l.cells[c].status == Live(None) && after < l.cells[c].id ==>
              || l.cells[c].AsEntry() in page
              || (|page| == limit && forall e :: e in page ==> e.id < l.cells[c].id)
  {
    var session := l.cells[c].msg.sessionId;
    var page := FetchAfter(l, session, after, limit);
    FetchIsExact(l, session, after, limit);
    assert l.cells[c].AsEntry() in page <==> InPage(l, session, after, limit, page, c);
    forall e | e in page ensures e.id <= page[|page| - 1].id {
      LastIsGreatest(page, e);
    }
  }

  /** Lossless shutdown in the table: when the worker has halted, every accepted message was attempted once, in order,
      and the table holds exactly those, but for whole failed batches. */
  lemma ShutdownFillsTheTable(cfg: Config, es: seq<Event>)
    requires Run(cfg, es).Some? && Run(cfg, es).value.w.phase == W.Halted
    requires W.NothingAfterShutdown(W.Sent(Run(cfg, es).value.w))
    ensures var y := Run(cfg, es).value;
            && Attempted(y.w.attempts) == W.Posts(W.Sent(y.w)) && y.w.signalled == W.Waiters(W.Sent(y.w))
            && Holds(y.l.cells, y.w.attempts)
            && (AllSucceeded(y.w.attempts) ==>
                  && |y.l.cells| == |W.Posts(W.Sent(y.w))|
                  && forall c :: 0 <= c < |y.l.cells| ==> y.l.cells[c].msg == W.Posts(W.Sent(y.w))[c])
  {
    var y := Run(cfg, es).value;
    RunKeepsInv(cfg, es);
    WriterRunsAlone(cfg, es);
    W.ShutdownIsLossless(cfg.writer, WriterEvents(es));
    if AllSucceeded(y.w.attempts) {
      SuccessMeansWritten(y.w.attempts);
      forall c | 0 <= c < |y.l.cells| ensures y.l.cells[c].msg == W.Posts(W.Sent(y.w))[c] {
        assert y.l.cells[c].AsEntry().msg == Written(y.w.attempts)[c];
      }
    }
  }
}
