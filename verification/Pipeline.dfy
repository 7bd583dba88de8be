/**
 The Rust engine as one concurrent system: senders, the writer task, the table, and any number of subscriber tasks,
 with subscribe/unsubscribe, external marks and the two cleanup statements interleaved in every possible way.
 */
module Pipeline {
  import opened Wrappers
  import opened Timestamps
  import opened Ledgers
  import opened Batches
  import W = Writer
  import S = Subscription

  datatype Config = Config(writer: W.Config, mode: S.Mode, deliveredRetention: nat, undeliveredRetention: nat)

  /** `subs` lists every subscriber ever created and `registry` is the engine's map from sessions to them.
      `stopping` is the subscriber whose `stop` is being waited for (under the map's write lock). `detached` and
      `removed` are history: subscribers whose `stop` timed out, and the rows the cleanups reported. */
  datatype System = System(w: W.State, l: Ledger, subs: seq<S.Sub>, registry: map<string, nat>,
                           stopping: Option<nat>, detached: set<nat>, removed: int)

  datatype Event =
    | Writing(w: W.Event)
    | Reading(i: nat, s: S.Event)
    | Subscribe(session: string)
    | StopBegin(session: string)           // unsubscribe: leave the map, raise the flag
    | StopJoined                           // the task completed
    | StopTimedOut                         // the task is left running
    | Mark(ids: set<int>, now: Utc)
    | CleanDelivered(now: Utc)
    | CleanUndelivered(now: Utc)

  const INITIAL := System(W.INITIAL, EMPTY, [], map[], None, {}, 0)

  function WriterStep(cfg: Config, y: System, e: W.Event): Option<System> {
    match W.Step(cfg.writer, y.w, e)
    case None => None
    case Some(w) =>
      if e.Write? && e.ids.Some? then
        if FreshIds(y.l.nextId, e.ids.value, |y.w.batch|)
        then Some(y.(w := w, l := Insert(y.l, y.w.batch, e.ids.value))) else None
      else Some(y.(w := w))
  }

  function SubStep(y: System, i: nat, e: S.Event): Option<System> {
    if i >= |y.subs| then None
    else match S.Step(y.subs[i], y.l, e)
      case None => None
      case Some(s) => Some(y.(subs := y.subs[i := s]))
  }

  function TableStep(y: System, l: Ledger): System {
    y.(l := l, removed := y.removed + Removed(y.l, l))
  }

  function Step(cfg: Config, y: System, e: Event): Option<System> {
    match e
    case Writing(w) => WriterStep(cfg, y, w)
    case Reading(i, s) => SubStep(y, i, s)
    case Subscribe(session) =>
      if y.stopping.Some? || session in y.registry then None
      else Some(y.(subs := y.subs + [S.New(cfg.mode, session, y.l)], registry := y.registry[session := |y.subs|]))
    case StopBegin(session) =>
      if y.stopping.Some? || session !in y.registry || y.registry[session] >= |y.subs| then None
      else
        var i := y.registry[session];
        Some(y.(subs := y.subs[i := y.subs[i].(stop := true)], registry := y.registry - {session}, stopping := Some(i)))
    case StopJoined =>
      if y.stopping.Some? && y.stopping.value < |y.subs| && y.subs[y.stopping.value].phase == S.Done
      then Some(y.(stopping := None)) else None
    case StopTimedOut =>
      if y.stopping.Some? then Some(y.(stopping := None, detached := y.detached + {y.stopping.value})) else None
    case Mark(ids, now) => Some(y.(l := MarkDelivered(y.l, ids, now)))
    case CleanDelivered(now) => Some(TableStep(y, CleanupDelivered(y.l, now, cfg.deliveredRetention)))
    case CleanUndelivered(now) => Some(TableStep(y, CleanupUndelivered(y.l, now, cfg.undeliveredRetention)))
  }

  function Run(cfg: Config, es: seq<Event>): Option<System> {
    if es == [] then Some(INITIAL)
    else match Run(cfg, es[..|es| - 1])
      case None => None
      case Some(y) => Step(cfg, y, es[|es| - 1])
  }

  // ---- Invariant ----

  /** A row is only ever deleted for its age: a marked one by its mark, an unmarked one by its creation. */
  ghost predicate Justified(cfg: Config, c: Cell) {
    match c.status
    case Live(_) => true
    case Deleted(Some(d), at) => Nanos(d) < Nanos(at) - cfg.deliveredRetention
    case Deleted(None, at) => Nanos(c.msg.createdAt) < Nanos(at) - cfg.undeliveredRetention
  }

  ghost predicate TableOk(cfg: Config, y: System) {
    && Valid(y.l)
    && Holds(y.l.cells, y.w.attempts)
    && (forall c :: c in y.l.cells ==> Justified(cfg, c))
    && LiveCount(y.l.cells) + y.removed == |y.l.cells|
  }

  ghost predicate SubsOk(y: System) {
    forall i :: 0 <= i < |y.subs| ==> S.Inv(y.subs[i], y.l)
  }

  /** A task that still runs is registered, is the one being stopped, or was left behind by a timeout. */
  ghost predicate Accounted(y: System, i: nat)
    requires i < |y.subs|
  {
    || y.subs[i].phase == S.Done || y.stopping == Some(i) || i in y.detached
    || (y.subs[i].session in y.registry && y.registry[y.subs[i].session] == i)
  }

  ghost predicate RegistryOk(y: System) {
    && (forall s :: s in y.registry ==> y.registry[s] < |y.subs| && y.subs[y.registry[s]].session == s)
    && (y.stopping.Some? ==> y.stopping.value < |y.subs| && y.subs[y.stopping.value].session !in y.registry)
    && (forall i :: 0 <= i < |y.subs| ==> Accounted(y, i))
  }

  /** Unless its `stop` timed out, a subscriber's cursor stays below every id handed out after its successor began. */
  ghost predicate Separated(y: System, i: nat, j: nat) {
    i < j < |y.subs| && y.subs[i].session == y.subs[j].session && i !in y.detached ==>
      y.subs[i].phase == S.Done && y.subs[i].last < y.subs[j].origin.nextId
  }

  ghost predicate SuccessorsOk(y: System) {
    forall i, j :: 0 <= i < j < |y.subs| ==> Separated(y, i, j)
  }

  ghost predicate Inv(cfg: Config, y: System) {
    W.Inv(cfg.writer, y.w) && TableOk(cfg, y) && SubsOk(y) && RegistryOk(y) && SuccessorsOk(y)
  }

  lemma TableMovesOn(y: System, l: Ledger)
    requires SubsOk(y) && Evolves(y.l, l) && Valid(l)
    ensures forall i :: 0 <= i < |y.subs| ==> S.Inv(y.subs[i], l)
  {
    forall i | 0 <= i < |y.subs| ensures S.Inv(y.subs[i], l) {
      S.TableChangeKeepsInv(y.subs[i], y.l, l);
    }
  }

  lemma WriteKeepsTable(cfg: Config, y: System, ids: Option<seq<int>>)
    requires W.Inv(cfg.writer, y.w) && TableOk(cfg, y) && WriterStep(cfg, y, W.Write(ids)).Some?
    ensures TableOk(cfg, WriterStep(cfg, y, W.Write(ids)).value)
    ensures Evolves(y.l, WriterStep(cfg, y, W.Write(ids)).value.l)
  {
    var y' := WriterStep(cfg, y, W.Write(ids)).value;
    var a := Attempt(y.w.batch, ids, y.w.phase.last);
    assert y'.w.attempts == y.w.attempts + [a];
    InsertHolds(y.l, y.w.attempts, a);
    if ids.Some? {
      InsertEvolves(y.l, y.w.batch, ids.value);
      NewRowsAreLive(y.l.cells, NewCells(y.w.batch, ids.value));
    }
  }

  lemma Assemble(cfg: Config, y: System)
    requires W.Inv(cfg.writer, y.w) && TableOk(cfg, y) && SubsOk(y) && RegistryOk(y) && SuccessorsOk(y)
    ensures Inv(cfg, y)
  {
  }

  lemma QuietWriterKeepsTable(cfg: Config, y: System, e: W.Event)
    requires TableOk(cfg, y) && !e.Write? && WriterStep(cfg, y, e).Some?
    ensures TableOk(cfg, WriterStep(cfg, y, e).value) && WriterStep(cfg, y, e).value.l == y.l
  {
    W.OnlyWritesAttempt(cfg.writer, y.w, e);
  }

  lemma WriterTouchesNoSubs(cfg: Config, y: System, e: W.Event)
    requires WriterStep(cfg, y, e).Some?
    ensures var y' := WriterStep(cfg, y, e).value;
            && y'.subs == y.subs && y'.registry == y.registry && y'.stopping == y.stopping && y'.detached == y.detached
            && W.Step(cfg.writer, y.w, e) == Some(y'.w)
  {
  }

  lemma WriterStepKeepsTable(cfg: Config, y: System, e: W.Event)
    requires W.Inv(cfg.writer, y.w) && TableOk(cfg, y) && SubsOk(y) && WriterStep(cfg, y, e).Some?
    ensures TableOk(cfg, WriterStep(cfg, y, e).value) && SubsOk(WriterStep(cfg, y, e).value)
  {
    var y' := WriterStep(cfg, y, e).value;
    WriterTouchesNoSubs(cfg, y, e);
    if e.Write? {
      WriteKeepsTable(cfg, y, e.ids);
      TableMovesOn(y, y'.l);
    } else {
      QuietWriterKeepsTable(cfg, y, e);
    }
  }

  lemma WriterStepKeepsInv(cfg: Config, y: System, e: W.Event)
    requires Inv(cfg, y) && WriterStep(cfg, y, e).Some?
    ensures Inv(cfg, WriterStep(cfg, y, e).value)
  {
    var y' := WriterStep(cfg, y, e).value;
    WriterTouchesNoSubs(cfg, y, e);
    W.StepKeepsInv(cfg.writer, y.w, e);
    WriterStepKeepsTable(cfg, y, e);
    RegistryAlone(y, y');
    Assemble(cfg, y');
  }

  /** One subscriber makes progress. */
  lemma ReplaceSub(y: System, i: nat, s: S.Sub)
    requires RegistryOk(y) && SuccessorsOk(y) && i < |y.subs| && y.subs[i].phase != S.Done
    requires s.session == y.subs[i].session && s.origin == y.subs[i].origin
    ensures RegistryOk(y.(subs := y.subs[i := s])) && SuccessorsOk(y.(subs := y.subs[i := s]))
  {
    var y' := y.(subs := y.subs[i := s]);
    forall j | 0 <= j < |y'.subs| ensures Accounted(y', j) {
      assert Accounted(y, j);
    }
    forall j, k | 0 <= j < k < |y'.subs| ensures Separated(y', j, k) {
      assert Separated(y, j, k);
    }
  }

  lemma SubStepKeepsInv(cfg: Config, y: System, i: nat, e: S.Event)
    requires Inv(cfg, y) && SubStep(y, i, e).Some?
    ensures Inv(cfg, SubStep(y, i, e).value)
  {
    var s := S.Step(y.subs[i], y.l, e).value;
    S.StepKeepsInv(y.subs[i], y.l, e);
    S.StepKeepsIdentity(y.subs[i], y.l, e);
    ReplaceSub(y, i, s);
    SubsStayOk(y, i, s);
  }

  lemma SubsStayOk(y: System, i: nat, s: S.Sub)
    requires SubsOk(y) && i < |y.subs| && S.Inv(s, y.l)
    ensures SubsOk(y.(subs := y.subs[i := s]))
  {
  }

  lemma MarkKeepsInv(cfg: Config, y: System, ids: set<int>, now: Utc)
    requires Inv(cfg, y)
    ensures Inv(cfg, y.(l := MarkDelivered(y.l, ids, now)))
  {
    var l := MarkDelivered(y.l, ids, now);
    MarkEvolves(y.l, ids, now);
    TableMovesOn(y, l);
    SameLiveness(y.l.cells, l.cells);
    RegistryAlone(y, y.(l := l));
  }

  lemma CleanupKeepsInv(cfg: Config, y: System, l: Ledger, now: Utc)
    requires Inv(cfg, y)
    requires || l == CleanupDelivered(y.l, now, cfg.deliveredRetention)
             || l == CleanupUndelivered(y.l, now, cfg.undeliveredRetention)
    ensures Inv(cfg, TableStep(y, l))
  {
    CleanupEvolves(y.l, now, cfg.deliveredRetention);
    CleanupEvolves(y.l, now, cfg.undeliveredRetention);
    TableMovesOn(y, l);
    RegistryAlone(y, TableStep(y, l));
  }

  lemma RegistryAlone(y: System, y': System)
    requires RegistryOk(y) && SuccessorsOk(y)
    requires y'.subs == y.subs && y'.registry == y.registry && y'.stopping == y.stopping && y'.detached == y.detached
    ensures RegistryOk(y') && SuccessorsOk(y')
  {
    forall i | 0 <= i < |y'.subs| ensures Accounted(y', i) {
      assert Accounted(y, i);
    }
    forall i, j | 0 <= i < j < |y'.subs| ensures Separated(y', i, j) {
      assert Separated(y, i, j);
    }
  }

  lemma SubscribeKeepsRegistry(cfg: Config, y: System, session: string)
    requires RegistryOk(y) && SuccessorsOk(y) && Step(cfg, y, Subscribe(session)).Some?
    requires forall i :: 0 <= i < |y.subs| ==> y.subs[i].last < y.l.nextId
    ensures RegistryOk(Step(cfg, y, Subscribe(session)).value) && SuccessorsOk(Step(cfg, y, Subscribe(session)).value)
  {
    var y' := Step(cfg, y, Subscribe(session)).value;
    var n := |y.subs|;
    forall i | 0 <= i < |y'.subs| ensures Accounted(y', i) {
      assert i < n ==> Accounted(y, i);
    }
    forall i, j | 0 <= i < j < |y'.subs| ensures Separated(y', i, j) {
      assert Accounted(y, i);
      assert j < n ==> Separated(y, i, j);
    }
  }

  lemma CursorsAreHandedOut(y: System)
    requires SubsOk(y)
    ensures forall i :: 0 <= i < |y.subs| ==> y.subs[i].last < y.l.nextId
  {
    forall i | 0 <= i < |y.subs| ensures y.subs[i].last < y.l.nextId {
      assert S.Inv(y.subs[i], y.l);
    }
  }

  lemma NewSubIsOk(y: System, mode: S.Mode, session: string)
    requires SubsOk(y) && Valid(y.l)
    ensures SubsOk(y.(subs := y.subs + [S.New(mode, session, y.l)]))
  {
    S.NewHasInv(mode, session, y.l);
  }

  lemma SubscribeKeepsInv(cfg: Config, y: System, session: string)
    requires Inv(cfg, y) && Step(cfg, y, Subscribe(session)).Some?
    ensures Inv(cfg, Step(cfg, y, Subscribe(session)).value)
  {
    var y' := Step(cfg, y, Subscribe(session)).value;
    CursorsAreHandedOut(y);
    SubscribeKeepsRegistry(cfg, y, session);
    NewSubIsOk(y, cfg.mode, session);
    Assemble(cfg, y');
  }

  lemma StopKeepsRegistry(cfg: Config, y: System, e: Event)
    requires RegistryOk(y) && SuccessorsOk(y)
    requires (e.StopBegin? || e.StopJoined? || e.StopTimedOut?) && Step(cfg, y, e).Some?
    ensures RegistryOk(Step(cfg, y, e).value) && SuccessorsOk(Step(cfg, y, e).value)
  {
    var y' := Step(cfg, y, e).value;
    forall i | 0 <= i < |y'.subs| ensures Accounted(y', i) {
      assert Accounted(y, i);
    }
    forall i, j | 0 <= i < j < |y'.subs| ensures Separated(y', i, j) {
      assert Separated(y, i, j);
    }
  }

  lemma StopKeepsInv(cfg: Config, y: System, e: Event)
    requires Inv(cfg, y) && (e.StopBegin? || e.StopJoined? || e.StopTimedOut?) && Step(cfg, y, e).Some?
    ensures Inv(cfg, Step(cfg, y, e).value)
  {
    StopKeepsRegistry(cfg, y, e);
    if e.StopBegin? {
      var i := y.registry[e.session];
      S.RaiseKeepsInv(y.subs[i], y.l);
      SubsStayOk(y, i, y.subs[i].(stop := true));
    }
  }

  lemma StepKeepsInv(cfg: Config, y: System, e: Event)
    requires Inv(cfg, y) && Step(cfg, y, e).Some?
    ensures Inv(cfg, Step(cfg, y, e).value)
  {
    match e
    case Writing(w) => WriterStepKeepsInv(cfg, y, w);
    case Reading(i, s) => SubStepKeepsInv(cfg, y, i, s);
    case Subscribe(session) => SubscribeKeepsInv(cfg, y, session);
    case Mark(ids, now) => MarkKeepsInv(cfg, y, ids, now);
    case CleanDelivered(now) => CleanupKeepsInv(cfg, y, CleanupDelivered(y.l, now, cfg.deliveredRetention), now);
    case CleanUndelivered(now) => CleanupKeepsInv(cfg, y, CleanupUndelivered(y.l, now, cfg.undeliveredRetention), now);
    case _ => StopKeepsInv(cfg, y, e);
  }

  lemma {:induction false} RunKeepsInv(cfg: Config, es: seq<Event>)
    requires Run(cfg, es).Some?
    ensures Inv(cfg, Run(cfg, es).value)
  {
    if es == [] {
    } else {
      RunKeepsInv(cfg, es[..|es| - 1]);
      StepKeepsInv(cfg, Run(cfg, es[..|es| - 1]).value, es[|es| - 1]);
    }
  }
}
