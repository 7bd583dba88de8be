/** The Ruby writer together with the table it fills; other processes mark rows and clean up. */
module RubyPipeline {
  import opened Wrappers
  import opened Timestamps
  import opened Ledgers
  import opened Batches
  import R = RubyWriter

  datatype System = System(w: R.State, l: Ledger)

  datatype Event =
    | Writing(w: R.Event)
    | Mark(ids: set<int>, now: Utc)        // Message.mark_delivered
    | Cleanup(now: Utc, deliveredRetention: nat, undeliveredRetention: nat)  // Message.cleanup, one transaction

  const INITIAL := System(R.INITIAL, EMPTY)

  function Step(cfg: R.Config, y: System, e: Event): Option<System> {
    match e
    case Writing(w) => WriterStep(cfg, y, w)
    case Mark(ids, now) => Some(y.(l := MarkDelivered(y.l, ids, now)))
    case Cleanup(now, d, u) => Some(y.(l := CleanupUndelivered(CleanupDelivered(y.l, now, d), now, u)))
  }

  /** insert_all inserts the batch, or raises and inserts nothing. */
  function WriterStep(cfg: R.Config, y: System, e: R.Event): Option<System> {
    match R.Step(cfg, y.w, e)
    case None => None
    case Some(w) =>
      if e.Write? && e.ids.Some? then
        if FreshIds(y.l.nextId, e.ids.value, |y.w.batch|)
        then Some(System(w, Insert(y.l, y.w.batch, e.ids.value))) else None
      else Some(y.(w := w))
  }

  function Run(cfg: R.Config, es: seq<Event>): Option<System> {
    if es == [] then Some(INITIAL)
    else match Run(cfg, es[..|es| - 1])
      case None => None
      case Some(y) => Step(cfg, y, es[|es| - 1])
  }

  /** The table is a table, and holds what the writer wrote. */
  ghost predicate TableOk(y: System) {
    Valid(y.l) && Holds(y.l.cells, y.w.attempts)
  }

  lemma OnlyWritesAttempt(cfg: R.Config, s: R.State, e: R.Event)
    requires R.Step(cfg, s, e).Some? && !e.Write?
    ensures R.Step(cfg, s, e).value.attempts == s.attempts
  {
  }

  lemma WriteKeepsTable(cfg: R.Config, y: System, e: R.Event)
    requires R.Inv(cfg, y.w) && TableOk(y) && WriterStep(cfg, y, e).Some?
    ensures TableOk(WriterStep(cfg, y, e).value)
  {
    var y' := WriterStep(cfg, y, e).value;
    if e.Write? {
      var a := Attempt(y.w.batch, e.ids, false);
      assert y'.w.attempts == y.w.attempts + [a];
      InsertHolds(y.l, y.w.attempts, a);
      if e.ids.Some? {
        InsertEvolves(y.l, y.w.batch, e.ids.value);
      }
    } else {
      OnlyWritesAttempt(cfg, y.w, e);
    }
  }

  /** Marks and deletes leave the history of rows alone. */
  lemma ChangeKeepsTable(y: System, l: Ledger)
    requires TableOk(y) && Evolves(y.l, l) && Valid(l) && |l.cells| == |y.l.cells|
    ensures TableOk(y.(l := l))
  {
    forall i | 0 <= i < |l.cells| ensures l.cells[i].AsEntry() == y.l.cells[i].AsEntry() {
    }
  }

  lemma StepKeepsTable(cfg: R.Config, y: System, e: Event)
    requires R.Inv(cfg, y.w) && TableOk(y) && Step(cfg, y, e).Some?
    ensures R.Inv(cfg, Step(cfg, y, e).value.w) && TableOk(Step(cfg, y, e).value)
  {
    match e
    case Writing(w) =>
      R.StepKeepsInv(cfg, y.w, w);
      WriteKeepsTable(cfg, y, w);
    case Mark(ids, now) =>
      MarkEvolves(y.l, ids, now);
      ChangeKeepsTable(y, MarkDelivered(y.l, ids, now));
    case Cleanup(now, d, u) =>
      var l := CleanupDelivered(y.l, now, d);
      CleanupEvolves(y.l, now, d);
      ChangeKeepsTable(y, l);
      CleanupEvolves(l, now, u);
      ChangeKeepsTable(y.(l := l), CleanupUndelivered(l, now, u));
  }

  /** In every run of the Ruby writer among callers, marks and cleanups, the rows ever inserted are, in id order, the
      messages passed to the calls of insert_all that succeeded. */
  lemma {:induction false} RunFillsTheTable(cfg: R.Config, es: seq<Event>)
    requires Run(cfg, es).Some?
    ensures var y := Run(cfg, es).value; R.Inv(cfg, y.w) && Valid(y.l) && Holds(y.l.cells, y.w.attempts)
  {
    if es == [] {
    } else {
      RunFillsTheTable(cfg, es[..|es| - 1]);
      StepKeepsTable(cfg, Run(cfg, es[..|es| - 1]).value, es[|es| - 1]);
    }
  }

  // ---- What became of each row ----

  /** The event is why the row is as it is: a mark of its id at that time, or a cleanup whose retention for rows of its
      kind the row had outlived. */
  ghost predicate Explains(e: Event, c: Cell) {
    match c.status
    case Live(None) => true
    case Live(Some(d)) => e.Mark? && e.now == d && c.id in e.ids
    case Deleted(Some(d), at) => e.Cleanup? && e.now == at && Nanos(d) < Nanos(at) - e.deliveredRetention
    case Deleted(None, at) =>
      e.Cleanup? && e.now == at && Nanos(c.msg.createdAt) < Nanos(at) - e.undeliveredRetention
  }

  ghost predicate Accounted(es: seq<Event>, c: Cell) {
    c.status != Live(None) ==> exists k :: 0 <= k < |es| && Explains(es[k], c)
  }

  lemma AccountedLonger(es: seq<Event>, e: Event, c: Cell)
    requires Accounted(es, c)
    ensures Accounted(es + [e], c)
  {
    if c.status != Live(None) {
      var k :| 0 <= k < |es| && Explains(es[k], c);
      assert (es + [e])[k] == es[k];
    }
  }

  lemma AccountedNow(es: seq<Event>, e: Event, c: Cell)
    requires Explains(e, c)
    ensures Accounted(es + [e], c)
  {
    assert (es + [e])[|es|] == e;
  }

  /** What an event does to a row: nothing, or what the event explains; and only an insert adds rows. */
  lemma StepOnRow(cfg: R.Config, y: System, e: Event, i: nat)
    requires Step(cfg, y, e).Some? && i < |Step(cfg, y, e).value.l.cells|
    ensures var y' := Step(cfg, y, e).value;
            || (i < |y.l.cells| && y'.l.cells[i] == y.l.cells[i])
            || Explains(e, y'.l.cells[i])
            || y'.l.cells[i].status == Live(None)
  {
    match e {
      case Writing(w) =>
        if w.Write? && w.ids.Some? {
          InsertIsExact(y.l, y.w.batch, w.ids.value);
        }
      case Mark(ids, now) => MarkIsExact(y.l, ids, now);
      case Cleanup(now, d, u) =>
        CleanupDeliveredIsExact(y.l, now, d);
        CleanupUndeliveredIsExact(CleanupDelivered(y.l, now, d), now, u);
    }
  }

  /** In every run a row is unmarked and there, or was marked by a mark of its id, or was deleted by a cleanup: after a
      mark older than that cleanup's retention for delivered rows, or unmarked and older than its retention for
      undelivered ones. */
  lemma {:induction false} EveryRowIsAccountedFor(cfg: R.Config, es: seq<Event>, i: nat)
    requires Run(cfg, es).Some? && i < |Run(cfg, es).value.l.cells|
    ensures Accounted(es, Run(cfg, es).value.l.cells[i])
  {
    if es == [] {
    } else {
      var n := |es| - 1;
      var y, c := Run(cfg, es[..n]).value, Run(cfg, es).value.l.cells[i];
      assert es == es[..n] + [es[n]];
      StepOnRow(cfg, y, es[n], i);
      if i < |y.l.cells| && c == y.l.cells[i] {
        EveryRowIsAccountedFor(cfg, es[..n], i);
        AccountedLonger(es[..n], es[n], c);
      } else if Explains(es[n], c) {
        AccountedNow(es[..n], es[n], c);
      }
    }
  }

  /** After a cleanup nothing is left that it should have deleted. */
  lemma CleanupLeavesNothingOld(cfg: R.Config, y: System, now: Utc, d: nat, u: nat, i: nat)
    requires Step(cfg, y, Cleanup(now, d, u)).Some? && i < |Step(cfg, y, Cleanup(now, d, u)).value.l.cells|
    ensures match Step(cfg, y, Cleanup(now, d, u)).value.l.cells[i].status
            case Live(Some(m)) => Nanos(m) >= Nanos(now) - d
            case Live(None) =>
              Nanos(Step(cfg, y, Cleanup(now, d, u)).value.l.cells[i].msg.createdAt) >= Nanos(now) - u
            case Deleted(_, _) => true
  {
    CleanupDeliveredIsExact(y.l, now, d);
    CleanupUndeliveredIsExact(CleanupDelivered(y.l, now, d), now, u);
  }
}
