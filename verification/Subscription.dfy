/**
 One Rust subscriber task, as a machine whose steps interleave with arbitrary changes of the table.

 `Polling` is the SQLite loop, `Listening` the LISTEN/NOTIFY loop. A fetch is one snapshot; the callbacks for its
 rows then run one by one. Notifications are arbitrary input: lost, duplicated, reordered or made up.
 */
module Subscription {
  import opened Wrappers
  import opened Ledgers

  datatype Mode = Polling | Listening

  datatype Phase = Checking | Fetching(limit: nat) | Delivering | Connecting | Waiting | Done

  /** A successful fetch: the cursor it was made with and the table it read. */
  datatype Fetch = Fetch(after: int, snapshot: Ledger)

  /** `last` is `last_id`, `stop` the shutdown flag and `page` the fetched rows not yet handed over. `origin`,
      `fetches` and `log` are history: the table at creation, the fetches so far and the callbacks so far. */
  datatype Sub = Sub(mode: Mode, session: string, origin: Ledger, last: int, stop: bool, phase: Phase,
                     connected: bool, page: seq<Entry>, fetches: seq<Fetch>, log: seq<Entry>)

  const PAGE := 100
  const CATCH_UP := 1000

  function Start(s: Sub): int {
    MaxId(s.origin.cells)
  }

  /** `Subscriber::new`: the cursor starts at MAX(id). */
  function New(mode: Mode, session: string, l: Ledger): Sub {
    var phase := if mode.Polling? then Checking else Fetching(CATCH_UP);
    Sub(mode, session, l, MaxId(l.cells), false, phase, false, [], [], [])
  }

  datatype Event =
    | LoadFlag                             // the loop condition
    | Fetched | FetchFailed
    | Deliver                              // callback(msg); last_id.store(msg_id)
    | EndPage
    | Listened(ok: bool)                   // pg.listen
    | Notified(payload: Option<int>)       // None: the payload does not parse
    | ListenerLost
    | Wake                                 // the sleep ends
    | SawStop                              // the polling loop's wait notices the flag

  function AfterPage(s: Sub): Phase {
    if s.mode.Polling? then Waiting else if s.connected then Checking else Connecting
  }

  function Step(s: Sub, l: Ledger, e: Event): Option<Sub> {
    match (s.phase, e)
    case (Checking, LoadFlag) =>
      Some(s.(phase := if s.stop then Done else if s.mode.Polling? then Fetching(PAGE) else Waiting))
    case (Fetching(limit), Fetched) =>
      Some(s.(phase := Delivering, page := FetchAfter(l, s.session, s.last, limit),
              fetches := s.fetches + [Fetch(s.last, l)]))
    case (Fetching(_), FetchFailed) => Some(s.(phase := AfterPage(s)))
    case (Delivering, Deliver) => if s.page == [] then None else Some(Delivered(s))
    case (Delivering, EndPage) => if s.page != [] then None else Some(s.(phase := AfterPage(s)))
    case (Connecting, Listened(ok)) =>
      Some(if ok then s.(phase := Checking, connected := true) else s.(phase := Done))
    case (Waiting, Notified(payload)) =>
      if s.mode.Polling? then None
      else Some(s.(phase := if payload.Some? && payload.value > s.last then Fetching(PAGE) else Checking))
    case (Waiting, ListenerLost) => if s.mode.Polling? then None else Some(s.(phase := Done))
    case (Waiting, Wake) => Some(s.(phase := if s.mode.Listening? && s.stop then Done else Checking))
    case (Waiting, SawStop) => if s.mode.Polling? && s.stop then Some(s.(phase := Done)) else None
    case _ => None
  }

  function Delivered(s: Sub): Sub
    requires s.page != []
  {
    s.(log := s.log + [s.page[0]], last := s.page[0].id, page := s.page[1..])
  }

  // ---- What the log has to be ----

  /** Where the cursor stood when the k-th fetch was over. */
  function Bound(s: Sub, k: nat): int {
    if k + 1 < |s.fetches| then s.fetches[k + 1].after else s.last
  }

  /** For each fetch, the rows pending in the table it read between its cursor and the next fetch's cursor. */
  function Replay(session: string, fs: seq<Fetch>, hi: int): seq<Entry> {
    if fs == [] then []
    else
      var f := fs[|fs| - 1];
      Replay(session, fs[..|fs| - 1], f.after) + Between(f.snapshot.cells, session, f.after, Some(hi))
  }

  /** Consecutive fetches continue from where the previous one stopped, starting at the initial cursor. */
  ghost predicate Chained(fs: seq<Fetch>, start: int, hi: int) {
    if fs == [] then hi == start
    else
      var f := fs[|fs| - 1];
      && Valid(f.snapshot) && f.after <= hi < f.snapshot.nextId
      && Chained(fs[..|fs| - 1], start, f.after)
  }

  ghost predicate ReadsBetween(fs: seq<Fetch>, origin: Ledger, l: Ledger) {
    forall k :: 0 <= k < |fs| ==> Evolves(origin, fs[k].snapshot) && Evolves(fs[k].snapshot, l)
  }

  ghost predicate Inv(s: Sub, l: Ledger) {
    && Valid(s.origin) && Valid(l) && Evolves(s.origin, l)
    && ReadsBetween(s.fetches, s.origin, l)
    && Chained(s.fetches, Start(s), s.last)
    && 0 <= Start(s) <= s.last < l.nextId
    && s.log == Replay(s.session, s.fetches, s.last)
    && (s.page != [] ==> s.phase == Delivering && s.fetches != [])
    && (s.fetches != [] ==> s.page <= Eligible(s.fetches[|s.fetches| - 1].snapshot.cells, s.session, s.last))
    && (s.phase.Fetching? ==> s.phase.limit >= PAGE)
  }

  lemma NewHasInv(mode: Mode, session: string, l: Ledger)
    requires Valid(l)
    ensures Inv(New(mode, session, l), l)
  {
    MaxIdIsHandedOut(l);
  }

  /** Whatever else happens to the table does not disturb a subscriber. */
  lemma TableChangeKeepsInv(s: Sub, l: Ledger, l': Ledger)
    requires Inv(s, l) && Evolves(l, l') && Valid(l')
    ensures Inv(s, l')
  {
    EvolvesTransitive(s.origin, l, l');
    forall k | 0 <= k < |s.fetches|
      ensures Evolves(s.origin, s.fetches[k].snapshot) && Evolves(s.fetches[k].snapshot, l')
    {
      EvolvesTransitive(s.fetches[k].snapshot, l, l');
    }
  }

  /** A fetch at the cursor has handed nothing over yet. */
  lemma ReplayWithFetch(session: string, fs: seq<Fetch>, f: Fetch)
    ensures Replay(session, fs + [f], f.after) == Replay(session, fs, f.after)
  {
    assert (fs + [f])[..|fs|] == fs;
    EmptyRange(f.snapshot.cells, session, f.after);
  }

  lemma ChainWithFetch(fs: seq<Fetch>, f: Fetch, start: int)
    requires Chained(fs, start, f.after) && Valid(f.snapshot) && f.after < f.snapshot.nextId
    ensures Chained(fs + [f], start, f.after)
  {
    assert (fs + [f])[..|fs|] == fs;
  }

  lemma ReadsWithFetch(fs: seq<Fetch>, f: Fetch, origin: Ledger)
    requires ReadsBetween(fs, origin, f.snapshot) && Evolves(origin, f.snapshot)
    ensures ReadsBetween(fs + [f], origin, f.snapshot)
  {
    EvolvesReflexive(f.snapshot);
    forall k | 0 <= k < |fs + [f]|
      ensures Evolves(origin, (fs + [f])[k].snapshot) && Evolves((fs + [f])[k].snapshot, f.snapshot)
    {
      assert (fs + [f])[k] == if k < |fs| then fs[k] else f;
    }
  }

  lemma PageIsPrefix(l: Ledger, session: string, after: int, limit: nat)
    ensures FetchAfter(l, session, after, limit) <= Eligible(l.cells, session, after)
  {
  }

  lemma PageKeepsInv(s: Sub, l: Ledger, page: seq<Entry>)
    requires Inv(s, l) && page <= Eligible(l.cells, s.session, s.last)
    ensures Inv(s.(phase := Delivering, page := page, fetches := s.fetches + [Fetch(s.last, l)]), l)
  {
    var f := Fetch(s.last, l);
    ReplayWithFetch(s.session, s.fetches, f);
    ChainWithFetch(s.fetches, f, Start(s));
    ReadsWithFetch(s.fetches, f, s.origin);
    assert (s.fetches + [f])[|s.fetches|] == f;
  }

  lemma FetchKeepsInv(s: Sub, l: Ledger)
    requires Inv(s, l) && s.phase.Fetching?
    ensures Inv(Step(s, l, Fetched).value, l)
  {
    PageIsPrefix(l, s.session, s.last, s.phase.limit);
    PageKeepsInv(s, l, FetchAfter(l, s.session, s.last, s.phase.limit));
  }

  /** Handing over the first of the rows left extends the replay by that row. */
  lemma ReplayAdvances(session: string, fs: seq<Fetch>, hi: int, page: seq<Entry>)
    requires fs != [] && page != [] && Valid(fs[|fs| - 1].snapshot) && fs[|fs| - 1].after <= hi
    requires page <= Eligible(fs[|fs| - 1].snapshot.cells, session, hi)
    ensures hi < page[0].id < fs[|fs| - 1].snapshot.nextId
    ensures Replay(session, fs, page[0].id) == Replay(session, fs, hi) + [page[0]]
    ensures page[1..] <= Eligible(fs[|fs| - 1].snapshot.cells, session, page[0].id)
  {
    var f := fs[|fs| - 1];
    var rows := Eligible(f.snapshot.cells, session, hi);
    assert page[0] == rows[0];
    assert page[1..] <= rows[1..];
    Advance(f.snapshot.cells, session, f.after, hi);
    BetweenMembers(f.snapshot.cells, session, hi, None, page[0]);
    assert Replay(session, fs, page[0].id) == Replay(session, fs[..|fs| - 1], f.after)
                                              + (Between(f.snapshot.cells, session, f.after, Some(hi)) + [page[0]]);
  }

  lemma DeliverKeepsInv(s: Sub, l: Ledger)
    requires Inv(s, l) && s.page != []
    ensures Inv(Delivered(s), l) && s.last < Delivered(s).last
  {
    assert ReadsBetween(s.fetches, s.origin, l);
    ReplayAdvances(s.session, s.fetches, s.last, s.page);
    assert s.fetches[|s.fetches| - 1].snapshot.nextId <= l.nextId;
  }

  lemma ControlKeepsInv(s: Sub, s': Sub, l: Ledger)
    requires Inv(s, l) && s.page == [] && s' == s.(phase := s'.phase, connected := s'.connected, stop := s'.stop)
    requires s'.phase.Fetching? ==> s'.phase.limit >= PAGE
    ensures Inv(s', l)
  {
  }

  lemma ControlOnly(s: Sub, l: Ledger, e: Event)
    requires Step(s, l, e).Some? && e != Fetched && e != Deliver && (s.page != [] ==> s.phase == Delivering)
    ensures var s' := Step(s, l, e).value;
            && s.page == [] && s' == s.(phase := s'.phase, connected := s'.connected, stop := s'.stop)
            && (s'.phase.Fetching? ==> s'.phase.limit >= PAGE)
  {
  }

  lemma StepKeepsInv(s: Sub, l: Ledger, e: Event)
    requires Inv(s, l) && Step(s, l, e).Some?
    ensures Inv(Step(s, l, e).value, l) && s.last <= Step(s, l, e).value.last
  {
    if e == Fetched {
      assert s.phase.Fetching?;
      FetchKeepsInv(s, l);
    } else if e == Deliver {
      assert s.page != [];
      DeliverKeepsInv(s, l);
    } else {
      ControlOnly(s, l, e);
      ControlKeepsInv(s, Step(s, l, e).value, l);
    }
  }

  lemma StepKeepsIdentity(s: Sub, l: Ledger, e: Event)
    requires Step(s, l, e).Some?
    ensures var s' := Step(s, l, e).value;
            && s'.mode == s.mode && s'.session == s.session && s'.origin == s.origin && s'.stop == s.stop
            && s.phase != Done
  {
  }

  /** Raising the shutdown flag. */
  lemma RaiseKeepsInv(s: Sub, l: Ledger)
    requires Inv(s, l)
    ensures Inv(s.(stop := true), l)
  {
  }

  // ---- Runs of one subscriber among other tasks ----

  /** A subscriber's own step, a change of the table by somebody else, or somebody raising its flag. */
  datatype Move = Own(e: Event) | Changed(l: Ledger) | Raised

  datatype Scene = Scene(s: Sub, l: Ledger)

  function Play(x: Scene, m: Move): Option<Scene> {
    match m
    case Own(e) => (match Step(x.s, x.l, e) case None => None case Some(s) => Some(Scene(s, x.l)))
    case Changed(l) => if Evolves(x.l, l) && Valid(l) then Some(Scene(x.s, l)) else None
    case Raised => Some(Scene(x.s.(stop := true), x.l))
  }

  function Run(mode: Mode, session: string, l: Ledger, ms: seq<Move>): Option<Scene> {
    if ms == [] then Some(Scene(New(mode, session, l), l))
    else match Run(mode, session, l, ms[..|ms| - 1])
      case None => None
      case Some(x) => Play(x, ms[|ms| - 1])
  }

  /** Every run from any table, with any notifications, failures and interference, keeps the invariant; in particular
      the log is the replay of the fetches, whatever the notifications were. */
  lemma {:induction false} RunKeepsInv(mode: Mode, session: string, l: Ledger, ms: seq<Move>)
    requires Valid(l) && Run(mode, session, l, ms).Some?
    ensures var x := Run(mode, session, l, ms).value; Inv(x.s, x.l)
  {
    if ms == [] {
      NewHasInv(mode, session, l);
    } else {
      RunKeepsInv(mode, session, l, ms[..|ms| - 1]);
      var x := Run(mode, session, l, ms[..|ms| - 1]).value;
      match ms[|ms| - 1]
      case Own(e) => StepKeepsInv(x.s, x.l, e);
      case Changed(l') => TableChangeKeepsInv(x.s, x.l, l');
      case Raised => RaiseKeepsInv(x.s, x.l);
    }
  }

  // ---- Consequences ----

  lemma {:induction false} ReplayAscends(session: string, fs: seq<Fetch>, start: int, hi: int)
    requires Chained(fs, start, hi)
    ensures EntriesAscending(Replay(session, fs, hi)) && start <= hi
    ensures forall e :: e in Replay(session, fs, hi) ==> start < e.id <= hi && e.msg.sessionId == session
  {
    if fs == [] {
    } else {
      var f := fs[|fs| - 1];
      ReplayAscends(session, fs[..|fs| - 1], start, f.after);
      BetweenAscends(f.snapshot.cells, session, f.after, Some(hi));
      var a, b := Replay(session, fs[..|fs| - 1], f.after), Between(f.snapshot.cells, session, f.after, Some(hi));
      var c := a + b;
      forall i, j | 0 <= i < j < |c| ensures c[i].id < c[j].id {
        assert i < |a| ==> a[i] in a;
        assert j >= |a| ==> b[j - |a|] in b;
      }
    }
  }

  /** The callbacks ran in strictly increasing id order, only for the session, only past the initial cursor, and
      `last_id` is the last one delivered (or the initial cursor). */
  lemma LogAscends(s: Sub, l: Ledger)
    requires Inv(s, l)
    ensures EntriesAscending(s.log)
    ensures forall e :: e in s.log ==> Start(s) < e.id <= s.last && e.msg.sessionId == s.session
  {
    ReplayAscends(s.session, s.fetches, Start(s), s.last);
  }

  ghost predicate Covers(s: Sub, k: nat, id: int) {
    k < |s.fetches| && s.fetches[k].after < id <= Bound(s, k)
  }

  /** The fetch that passed over an id is the only one whose rows can contain it. */
  lemma {:induction false} ReplayMember(s: Sub, fs: seq<Fetch>, hi: int, e: Entry) returns (k: nat)
    requires fs <= s.fetches && Chained(fs, Start(s), hi) && Start(s) < e.id <= hi
    requires hi == if |fs| < |s.fetches| then s.fetches[|fs|].after else s.last
    ensures k < |fs| && Covers(s, k, e.id)
    ensures e in Replay(s.session, fs, hi) <==>
            e in Between(fs[k].snapshot.cells, s.session, s.fetches[k].after, Some(Bound(s, k)))
    decreases |fs|
  {
    var n := |fs| - 1;
    var f := fs[n];
    ReplayAscends(s.session, fs[..n], Start(s), f.after);
    BetweenAscends(f.snapshot.cells, s.session, f.after, Some(hi));
    if f.after < e.id {
      k := n;
    } else {
      k := ReplayMember(s, fs[..n], f.after, e);
    }
  }

  lemma CoverIsUnique(s: Sub, l: Ledger, j: nat, k: nat, id: int)
    requires Inv(s, l) && Covers(s, j, id) && Covers(s, k, id)
    ensures j == k
  {
    assert s.fetches[..|s.fetches|] == s.fetches;
    if j < k {
      ChainOrdered(s, |s.fetches|, s.last, j, k);
    } else if k < j {
      ChainOrdered(s, |s.fetches|, s.last, k, j);
    }
  }

  lemma {:induction false} ChainOrdered(s: Sub, n: nat, hi: int, j: nat, k: nat)
    requires n <= |s.fetches| && j < k < n && Chained(s.fetches[..n], Start(s), hi)
    ensures Bound(s, j) <= s.fetches[k].after
    decreases n
  {
    assert s.fetches[..n][..n - 1] == s.fetches[..n - 1];
    if j + 1 == k {
    } else {
      if k < n - 1 {
        ChainOrdered(s, n - 1, s.fetches[n - 1].after, j, k);
      } else {
        ChainOrdered(s, n - 1, s.fetches[n - 1].after, j, k - 1);
        assert Chained(s.fetches[..n - 1], Start(s), s.fetches[n - 1].after);
      }
    }
  }

  /**
   Gap-free and exact. Take any row of the table (surviving or not) that belongs to the session and has
   start < id <= last_id. Exactly one fetch passed over it, that fetch read a table that already had the row, and
   the row was handed to the callback if and only if it was neither marked nor deleted in that table.
   */
  lemma LogIsExact(s: Sub, l: Ledger, i: nat) returns (k: nat)
    requires Inv(s, l) && i < |l.cells| && l.cells[i].msg.sessionId == s.session && Start(s) < l.cells[i].id <= s.last
    ensures Covers(s, k, l.cells[i].id) && forall j :: Covers(s, j, l.cells[i].id) ==> j == k
    ensures i < |s.fetches[k].snapshot.cells|
    ensures s.fetches[k].snapshot.cells[i].AsEntry() == l.cells[i].AsEntry()
    ensures l.cells[i].AsEntry() in s.log <==> s.fetches[k].snapshot.cells[i].status == Live(None)
  {
    var e := l.cells[i].AsEntry();
    k := ReplayMember(s, s.fetches, s.last, e);
    forall j | Covers(s, j, e.id) ensures j == k {
      CoverIsUnique(s, l, j, k, e.id);
    }
    assert s.fetches[..|s.fetches|] == s.fetches;
    BoundHandedOut(s, |s.fetches|, s.last, k);
    assert ReadsBetween(s.fetches, s.origin, l);
    RowWasThere(s.fetches[k].snapshot, l, i);
    RowIsBetween(s.fetches[k].snapshot, s.session, s.fetches[k].after, Bound(s, k), i);
  }

  /** A row whose id was handed out by the time of the snapshot is in it. */
  lemma RowWasThere(snapshot: Ledger, l: Ledger, i: nat)
    requires Evolves(snapshot, l) && i < |l.cells| && l.cells[i].id < snapshot.nextId
    ensures i < |snapshot.cells| && snapshot.cells[i].AsEntry() == l.cells[i].AsEntry()
  {
  }

  lemma RowIsBetween(snapshot: Ledger, session: string, lo: int, hi: int, i: nat)
    requires Valid(snapshot) && i < |snapshot.cells| && snapshot.cells[i].msg.sessionId == session
    requires lo < snapshot.cells[i].id <= hi
    ensures snapshot.cells[i].AsEntry() in Between(snapshot.cells, session, lo, Some(hi))
            <==> snapshot.cells[i].status == Live(None)
  {
    var c := snapshot.cells[i];
    BetweenMembers(snapshot.cells, session, lo, Some(hi), c.AsEntry());
    assert c.status == Live(None) ==> Selected(c, session, lo, Some(hi), c.AsEntry());
  }

  lemma {:induction false} BoundHandedOut(s: Sub, n: nat, hi: int, k: nat)
    requires k < n <= |s.fetches| && Chained(s.fetches[..n], Start(s), hi)
    requires hi == if n < |s.fetches| then s.fetches[n].after else s.last
    ensures Valid(s.fetches[k].snapshot) && Bound(s, k) < s.fetches[k].snapshot.nextId
    decreases n
  {
    if k == n - 1 {
    } else {
      assert s.fetches[..n][..n - 1] == s.fetches[..n - 1];
      BoundHandedOut(s, n - 1, s.fetches[n - 1].after, k);
    }
  }

  lemma SnapshotIsValid(s: Sub, l: Ledger, k: nat)
    requires Inv(s, l) && k < |s.fetches|
    ensures Valid(s.fetches[k].snapshot)
  {
    assert s.fetches[..|s.fetches|] == s.fetches;
    BoundHandedOut(s, |s.fetches|, s.last, k);
  }

  /** Some fetch passed over the row's id and read a table in which the i-th row was there and unmarked. */
  ghost predicate PendingWhenPassed(s: Sub, i: nat, id: int) {
    exists k: nat :: Covers(s, k, id) && i < |s.fetches[k].snapshot.cells|
                     && s.fetches[k].snapshot.cells[i].status == Live(None)
  }

  lemma LogMembership(s: Sub, l: Ledger, i: nat)
    requires Inv(s, l) && i < |l.cells| && l.cells[i].msg.sessionId == s.session && Start(s) < l.cells[i].id <= s.last
    ensures l.cells[i].AsEntry() in s.log <==> PendingWhenPassed(s, i, l.cells[i].id)
  {
    var k := LogIsExact(s, l, i);
  }

  lemma DeliveredWasFetched(s: Sub, l: Ledger, e: Entry) returns (i: nat, k: nat)
    requires Inv(s, l) && e in s.log
    ensures k < |s.fetches| && i < |s.fetches[k].snapshot.cells|
    ensures s.fetches[k].snapshot.cells[i].status == Live(None) && s.fetches[k].snapshot.cells[i].AsEntry() == e
  {
    LogAscends(s, l);
    k := ReplayMember(s, s.fetches, s.last, e);
    var f := s.fetches[k];
    BetweenMembers(f.snapshot.cells, s.session, f.after, Some(Bound(s, k)), e);
    i :| 0 <= i < |f.snapshot.cells| && Selected(f.snapshot.cells[i], s.session, f.after, Some(Bound(s, k)), e);
  }

  /** Every callback was for a row that was inserted for this session after the subscriber was created, even when
      deletions had lowered MAX(id), the initial cursor. */
  lemma DeliveredIsInserted(s: Sub, l: Ledger, e: Entry) returns (i: nat)
    requires Inv(s, l) && e in s.log
    ensures i < |l.cells| && l.cells[i].AsEntry() == e && |s.origin.cells| <= i && s.origin.nextId <= e.id < l.nextId
  {
    LogAscends(s, l);
    var k;
    i, k := DeliveredWasFetched(s, l, e);
    var f := s.fetches[k];
    assert Evolves(s.origin, f.snapshot) && Evolves(f.snapshot, l);
    assert l.cells[i].AsEntry() == e;
    if i < |s.origin.cells| {
      assert s.origin.cells[i].AsEntry() == e && Moves(s.origin.cells[i].status, f.snapshot.cells[i].status);
      MaxIdBounds(s.origin.cells, i);
      assert false;
    }
  }
}
