/**
 The two subscriber loops as code. Between any two of a loop's actions other tasks may change the table in any way
 `Evolves` allows and may raise the shutdown flag. Every action is a step of the machine in `Subscription`, so its
 guarantees (`LogAscends`, `LogIsExact`, `DeliveredIsInserted`) hold of what the loops deliver.
 */
module SubscriberLoops {
  import opened Wrappers
  import opened Ledgers
  import opened Subscription

  datatype Notice = Payload(id: Option<int>) | Lost | Silence

  /** How the fetch of a move, if it is one, turned out. */
  function OutcomeOf(m: Move): seq<bool> {
    if m == Own(Fetched) then [true] else if m == Own(FetchFailed) then [false] else []
  }

  function Outcomes(ms: seq<Move>): seq<bool> {
    if ms == [] then [] else Outcomes(ms[..|ms| - 1]) + OutcomeOf(ms[|ms| - 1])
  }

  /** What the listener handed over in a move of the listening loop, if anything; a timeout is silence. */
  function NoticeOf(m: Move): seq<Notice> {
    match m
    case Own(Notified(id)) => [Payload(id)]
    case Own(ListenerLost) => [Lost]
    case Own(Wake) => [Silence]
    case _ => []
  }

  function Notices(ms: seq<Move>): seq<Notice> {
    if ms == [] then [] else Notices(ms[..|ms| - 1]) + NoticeOf(ms[|ms| - 1])
  }

  function First<T>(f: nat -> T, n: nat): seq<T> {
    seq(n, i requires 0 <= i < n => f(i))
  }

  lemma NextOf(messages: seq<Entry>, i: nat)
    requires i < |messages|
    ensures messages[i..][1..] == messages[i + 1..] && messages[..i] + [messages[i]] == messages[..i + 1]
  {
  }

  lemma FirstNext<T>(f: nat -> T, n: nat)
    ensures First(f, n + 1) == First(f, n) + [f(n)]
  {
  }

  class SubscriberTask {
    const mode: Mode
    const session: string
    const dbUp: nat -> bool                // whether the n-th fetch succeeds
    // shared with other tasks
    var table: Ledger
    var shutdown: bool
    var patience: nat                      // how many more times the flag may be read before somebody raises it
    const notice: nat -> Notice            // what the listener receives, in order
    // the task's own
    var heard: nat                         // how many notices were received
    var asked: nat                         // how many fetches were made
    var lastId: int
    var delivered: seq<Entry>              // the callbacks made
    // the run so far and the state it leads to
    ghost const before: Ledger
    ghost var moves: seq<Move>
    ghost var sub: Sub

    /** The fields are those of the state that the recorded run leads to, every fetch in it went as the database
        answered, and the listening loop heard what there was to hear. */
    ghost predicate Valid()
      reads this
    {
      Linked() && Answered()
    }

    ghost predicate Answered()
      reads this
    {
      Outcomes(moves) == First(dbUp, asked) && (mode == Listening ==> Notices(moves) == First(notice, heard))
    }

    ghost predicate Linked()
      reads this
    {
      && Run(mode, session, before, moves) == Some(Scene(sub, table))
      && sub == Sub(mode, session, sub.origin, lastId, shutdown, sub.phase, sub.connected, sub.page, sub.fetches,
                    delivered)
    }

    /** `Subscriber::new`, up to spawning the loop. */
    constructor (mode: Mode, session: string, dbUp: nat -> bool, notice: nat -> Notice, table: Ledger, patience: nat)
      ensures Valid() && this.mode == mode && this.session == session && this.dbUp == dbUp && this.notice == notice
      ensures before == table == this.table && moves == [] && asked == heard == 0
      ensures sub == New(mode, session, table) && lastId == MaxId(table.cells) && delivered == []
    {
      this.dbUp, this.notice, asked, heard := dbUp, notice, 0, 0;
      this.mode, this.session, this.table, this.patience := mode, session, table, patience;
      shutdown, lastId, delivered := false, MaxId(table.cells), [];
      before, moves, sub := table, [], New(mode, session, table);
    }

    ghost method Record(m: Move)
      requires Run(mode, session, before, moves).Some? && Play(Run(mode, session, before, moves).value, m).Some?
      modifies `moves, `sub
      ensures Run(mode, session, before, moves) == old(Play(Run(mode, session, before, moves).value, m))
      ensures Run(mode, session, before, moves).Some? && sub == Run(mode, session, before, moves).value.s
      ensures moves == old(moves) + [m]
      ensures Outcomes(moves) == if OutcomeOf(m) == [] then old(Outcomes(moves))
                                 else old(Outcomes(moves)) + OutcomeOf(m)
      ensures Notices(moves) == if NoticeOf(m) == [] then old(Notices(moves)) else old(Notices(moves)) + NoticeOf(m)
    {
      moves := moves + [m];
      assert moves[..|moves| - 1] == old(moves);
      sub := Run(mode, session, before, moves).value.s;
    }

    /** A move that is neither a fetch's return nor, in the listening loop, the receipt of a notice. */
    ghost method Note(m: Move)
      requires Answered() && OutcomeOf(m) == [] && (mode == Listening ==> NoticeOf(m) == [])
      requires Run(mode, session, before, moves).Some? && Play(Run(mode, session, before, moves).value, m).Some?
      modifies `moves, `sub
      ensures Answered() && old(moves) <= moves
      ensures Run(mode, session, before, moves) == old(Play(Run(mode, session, before, moves).value, m))
      ensures Run(mode, session, before, moves).Some? && sub == Run(mode, session, before, moves).value.s
    {
      Record(m);
    }

    /** A notice is received, or the wait for one times out. */
    method Receive(ghost e: Event)
      requires Valid() && mode == Listening && NoticeOf(Own(e)) == [notice(heard)] && Step(sub, table, e).Some?
      modifies `heard, `moves, `sub
      ensures Valid() && heard == old(heard) + 1 && Some(sub) == old(Step(sub, table, e)) && old(moves) <= moves
    {
      Record(Own(e));
      FirstNext(notice, heard);
      heard := heard + 1;
    }

    /** A fetch comes back as the database answers. */
    ghost method ComeBack(e: Event)
      requires Valid() && OutcomeOf(Own(e)) == [dbUp(asked)] && Step(sub, table, e).Some?
      modifies `moves, `sub
      ensures Linked() && Some(sub) == old(Step(sub, table, e)) && old(moves) <= moves
      ensures Outcomes(moves) == First(dbUp, asked + 1)
      ensures mode == Listening ==> Notices(moves) == First(notice, heard)
    {
      Record(Own(e));
      FirstNext(dbUp, asked);
    }

    /** Another task changes the table: inserts, marks or deletes. */
    method ChangeTable(t: Ledger)
      requires Valid() && Evolves(table, t) && Ledgers.Valid(t)
      modifies `table, `moves, `sub
      ensures Valid() && old(moves) <= moves && table == t && sub == old(sub)
    {
      Note(Changed(t));
      table := t;
    }

    /** Another task asks this one to stop. */
    method RaiseShutdown()
      requires Valid()
      modifies `shutdown, `moves, `sub
      ensures Valid() && old(moves) <= moves && shutdown && sub == old(sub).(stop := true)
    {
      Note(Raised);
      shutdown := true;
    }

    /** Other tasks run: they may change the table, and may request the shutdown. */
    method Others()
      requires Valid()
      modifies `table, `shutdown, `moves, `sub
      ensures Valid() && old(moves) <= moves && Evolves(old(table), table)
      ensures sub == old(sub).(stop := shutdown) && (old(shutdown) ==> shutdown)
    {
      var t: Ledger := *;
      if Evolves(table, t) && Ledgers.Valid(t) {
        ChangeTable(t);
      }
      var raise: bool := *;
      if raise {
        RaiseShutdown();
      }
    }

    method LoadShutdown() returns (stop: bool)
      requires Valid()
      modifies `table, `shutdown, `patience, `moves, `sub
      ensures Valid() && Evolves(old(table), table) && sub == old(sub).(stop := shutdown) && stop == shutdown
      ensures patience <= old(patience) && (stop || patience < old(patience))
    {
      Others();
      if !shutdown && patience == 0 {
        RaiseShutdown();
      }
      if !shutdown {
        patience := patience - 1;
      }
      stop := shutdown;
    }

    /** `db.fetch_after`: fails, or returns a snapshot of the current table. */
    method Fetch(limit: nat) returns (r: Option<seq<Entry>>)
      requires Valid() && sub.phase == Fetching(limit)
      modifies `table, `shutdown, `asked, `moves, `sub
      ensures Valid() && Evolves(old(table), table) && asked == old(asked) + 1
      ensures r == if dbUp(old(asked)) then Some(FetchAfter(table, session, lastId, limit)) else None
      ensures r.Some? ==>
                sub == old(sub).(stop := shutdown, phase := Delivering, page := r.value,
                                 fetches := old(sub.fetches) + [Subscription.Fetch(lastId, table)])
      ensures r.None? ==> sub == old(sub).(stop := shutdown, phase := AfterPage(old(sub)))
    {
      Others();
      if dbUp(asked) {
        r := Some(FetchAfter(table, session, lastId, limit));
        ComeBack(Fetched);
      } else {
        r := None;
        ComeBack(FetchFailed);
      }
      asked := asked + 1;
    }

    /** The callbacks for a page, each followed by the store to `last_id`. */
    method DeliverAll(messages: seq<Entry>)
      requires Valid() && sub.phase == Delivering && sub.page == messages
      modifies `table, `shutdown, `lastId, `delivered, `moves, `sub
      ensures Valid() && sub.phase == Delivering && sub.page == [] && SameTask(old(sub))
      ensures delivered == old(delivered) + messages && sub.fetches == old(sub.fetches)
    {
      var i := 0;
      while i < |messages|
        invariant 0 <= i <= |messages|
        invariant Valid() && sub.phase == Delivering && sub.page == messages[i..] && SameTask(old(sub))
        invariant delivered == old(delivered) + messages[..i] && sub.fetches == old(sub.fetches)
      {
        DeliverNext(messages[i]);
        NextOf(messages, i);
        i := i + 1;
      }
    }

    method DeliverNext(msg: Entry)
      requires Valid() && sub.phase == Delivering && sub.page != [] && sub.page[0] == msg
      modifies `table, `shutdown, `lastId, `delivered, `moves, `sub
      ensures Valid() && sub.phase == Delivering && sub.page == old(sub.page)[1..] && SameTask(old(sub))
      ensures delivered == old(delivered) + [msg] && sub.fetches == old(sub.fetches)
    {
      Others();
      Callback(msg);
    }

    method Callback(msg: Entry)
      requires Valid() && sub.phase == Delivering && sub.page != [] && sub.page[0] == msg
      modifies `lastId, `delivered, `moves, `sub
      ensures Valid() && sub.phase == Delivering && sub.page == old(sub.page)[1..] && SameTask(old(sub))
      ensures delivered == old(delivered) + [msg] && lastId == msg.id && sub.fetches == old(sub.fetches)
    {
      delivered := delivered + [msg];
      lastId := msg.id;
      Note(Own(Deliver));
    }

    ghost predicate SameTask(before: Sub)
      reads `sub
    {
      && sub.origin == before.origin && sub.connected == before.connected
      && before.log <= sub.log && before.fetches <= sub.fetches
    }

    /** What one fetch amounts to, given the callbacks, cursor and fetch count before it: a failed one changes nothing,
        a successful one delivers its whole page, read past that cursor from the table it saw. */
    ghost predicate FetchedOnce(calls: seq<Entry>, cursor: int, count: nat, limit: nat)
      reads this
    {
      && asked == count + 1
      && if dbUp(count) then
           && sub.fetches != [] && sub.fetches[|sub.fetches| - 1].after == cursor
           && delivered == calls + FetchAfter(sub.fetches[|sub.fetches| - 1].snapshot, session, cursor, limit)
         else delivered == calls && lastId == cursor
    }

    /** One fetch and the callbacks for its rows, as in both loops. */
    method FetchAndDeliver(limit: nat)
      requires Valid() && sub.phase == Fetching(limit)
      modifies `table, `shutdown, `asked, `lastId, `delivered, `moves, `sub
      ensures Valid() && sub.phase == AfterPage(sub) && SameTask(old(sub))
      ensures FetchedOnce(old(delivered), old(lastId), old(asked), limit)
      ensures |sub.fetches| == |old(sub.fetches)| + if dbUp(old(asked)) then 1 else 0
    {
      var r := Fetch(limit);
      if r.Some? {
        HandOver(r.value);
      }
    }

    /** The callbacks of a fetched page, to the end of the page. */
    method HandOver(messages: seq<Entry>)
      requires Valid() && sub.phase == Delivering && sub.page == messages
      modifies `table, `shutdown, `lastId, `delivered, `moves, `sub
      ensures Valid() && sub.phase == AfterPage(sub) && SameTask(old(sub))
      ensures delivered == old(delivered) + messages && sub.fetches == old(sub.fetches)
    {
      DeliverAll(messages);
      Note(Own(EndPage));
    }

    /** A turn of the polling loop: fetch, deliver, wait, read the flag. */
    method PollTurn() returns (stop: bool)
      requires Valid() && mode == Polling && sub.phase == Fetching(PAGE)
      modifies `table, `shutdown, `patience, `asked, `lastId, `delivered, `moves, `sub
      ensures Valid() && sub.phase == (if stop then Done else Fetching(PAGE)) && SameTask(old(sub))
      ensures FetchedOnce(old(delivered), old(lastId), old(asked), 100)
      ensures stop || patience < old(patience)
    {
      FetchAndDeliver(100);
      stop := Sleep();
      if !stop {
        stop := ReadFlag();
      }
    }

    /** The interruptible sleep: the time is up, or the flag is noticed first. */
    method Sleep() returns (sawStop: bool)
      requires Valid() && mode == Polling && sub.phase == Waiting
      modifies `table, `shutdown, `patience, `moves, `sub
      ensures Valid() && patience <= old(patience) && (sawStop ==> shutdown)
      ensures sub == old(sub).(stop := shutdown, phase := if sawStop then Done else Checking)
    {
      sawStop := false;
      var timeUp: bool := *;
      if !timeUp {
        sawStop := LoadShutdown();
      }
      EndSleep(if sawStop then SawStop else Wake);
    }

    ghost method EndSleep(e: Event)
      requires Valid() && mode == Polling && sub.phase == Waiting && (e == Wake || (e == SawStop && sub.stop))
      modifies `moves, `sub
      ensures Valid() && sub == old(sub).(phase := if e == SawStop then Done else Checking)
    {
      Note(Own(e));
    }

    /** The loop condition. */
    method ReadFlag() returns (stop: bool)
      requires Valid() && sub.phase == Checking
      modifies `table, `shutdown, `patience, `moves, `sub
      ensures Valid() && stop == shutdown && patience <= old(patience) && (stop || patience < old(patience))
      ensures sub == old(sub).(stop := shutdown,
                               phase := if stop then Done else if mode.Polling? then Fetching(PAGE) else Waiting)
    {
      stop := LoadShutdown();
      Note(Own(LoadFlag));
    }

    /** `polling_subscriber_loop`. */
    method PollingLoop()
      requires Valid() && Ledgers.Valid(before) && mode == Polling && sub.phase == Checking
      modifies `table, `shutdown, `patience, `asked, `lastId, `delivered, `moves, `sub
      ensures Valid() && sub.phase == Done && SameTask(old(sub))
      ensures delivered == Replay(session, sub.fetches, lastId) && EntriesAscending(delivered)
    {
      var stop := ReadFlag();
      while !stop
        invariant Valid() && sub.phase == (if stop then Done else Fetching(PAGE)) && SameTask(old(sub))
        decreases !stop, patience
      {
        stop := PollTurn();
      }
      Subscription.RunKeepsInv(mode, session, before, moves);
      LogAscends(sub, table);
    }

    /** `postgres_subscriber_loop`: catch up, LISTEN, then fetch on notifications. */
    method PostgresLoop(connects: bool)
      requires Valid() && Ledgers.Valid(before) && mode == Listening
      requires sub.phase == Fetching(CATCH_UP) && !sub.connected
      modifies `table, `shutdown, `patience, `asked, `heard, `lastId, `delivered, `moves, `sub
      ensures Valid() && sub.phase == Done && sub.origin == old(sub.origin) && old(delivered) <= delivered
      ensures delivered == Replay(session, sub.fetches, lastId) && EntriesAscending(delivered)
      // the catch-up is made first, from the cursor, with its own limit, and its whole page delivered
      ensures asked > old(asked) && sub.connected == connects
      ensures dbUp(old(asked)) ==>
                var n := |old(sub.fetches)|;
                && n < |sub.fetches| && sub.fetches[n].after == old(lastId)
                && old(delivered) + FetchAfter(sub.fetches[n].snapshot, session, old(lastId), 1000) <= delivered
      // and nothing more without a connection
      ensures !connects ==> asked == old(asked) + 1
      ensures !connects && !dbUp(old(asked)) ==> delivered == old(delivered)
      ensures !connects && dbUp(old(asked)) ==>
                delivered == old(delivered)
                             + FetchAfter(sub.fetches[|old(sub.fetches)|].snapshot, session, old(lastId), 1000)
    {
      FetchAndDeliver(1000);
      ListenIf(connects);
      Subscription.RunKeepsInv(mode, session, before, moves);
      LogAscends(sub, table);
    }

    /** What comes after the catch-up: LISTEN, and if that works the loop. */
    method ListenIf(connects: bool)
      requires Valid() && mode == Listening && sub.phase == Connecting && !sub.connected
      modifies `table, `shutdown, `patience, `asked, `heard, `lastId, `delivered, `moves, `sub
      ensures Valid() && sub.phase == Done && sub.origin == old(sub.origin) && sub.connected == connects
      ensures old(delivered) <= delivered && old(sub.fetches) <= sub.fetches && old(asked) <= asked
      ensures !connects ==> asked == old(asked) && delivered == old(delivered) && sub.fetches == old(sub.fetches)
    {
      Others();
      Note(Own(Listened(connects)));
      if connects {
        Listen();
      }
    }

    method Listen()
      requires Valid() && mode == Listening && sub.phase == Checking && sub.connected
      modifies `table, `shutdown, `patience, `asked, `heard, `lastId, `delivered, `moves, `sub
      ensures Valid() && sub.phase == Done && SameTask(old(sub)) && old(asked) <= asked
    {
      var stop := ReadFlag();
      while !stop
        invariant Valid() && sub.phase == (if stop then Done else Waiting) && SameTask(old(sub)) && old(asked) <= asked
        decreases !stop, patience
      {
        stop := ListenTurn();
      }
    }

    /** A turn of the listening loop: one notification, listener error or timeout, then the flag. */
    method ListenTurn() returns (stop: bool)
      requires Valid() && mode == Listening && sub.phase == Waiting && sub.connected
      modifies `table, `shutdown, `patience, `asked, `heard, `lastId, `delivered, `moves, `sub
      ensures Valid() && sub.phase == (if stop then Done else Waiting) && SameTask(old(sub))
      ensures heard == old(heard) + 1
      ensures if old(Qualifies(notice(heard))) then FetchedOnce(old(delivered), old(lastId), old(asked), 100)
              else asked == old(asked) && delivered == old(delivered) && lastId == old(lastId)
      ensures stop || patience < old(patience)
    {
      stop := React();
      if !stop {
        stop := ReadFlag();
      }
    }

    predicate Qualifies(notice: Notice)
      reads this
    {
      notice.Payload? && notice.id.Some? && notice.id.value > lastId
    }

    /** A payload naming an id past the cursor makes one fetch from the cursor; no other notice makes any. */
    method React() returns (left: bool)
      requires Valid() && mode == Listening && sub.phase == Waiting && sub.connected
      modifies `table, `shutdown, `patience, `asked, `heard, `lastId, `delivered, `moves, `sub
      ensures Valid() && sub.phase == (if left then Done else Checking) && SameTask(old(sub))
      ensures heard == old(heard) + 1
      ensures if old(Qualifies(notice(heard))) then FetchedOnce(old(delivered), old(lastId), old(asked), 100)
              else asked == old(asked) && delivered == old(delivered) && lastId == old(lastId)
      ensures notice(old(heard)).Payload? ==> !left
      ensures notice(old(heard)).Lost? ==> left
      ensures patience <= old(patience)
    {
      Others();
      match notice(heard) {
        case Payload(id) =>
          Hear(id);
          left := false;
        case Lost =>
          Receive(ListenerLost);
          left := true;
        case Silence =>
          left := LoadShutdown();
          Receive(Wake);
      }
    }

    /** A notification's payload is only compared with the cursor. */
    method Hear(id: Option<int>)
      requires Valid() && mode == Listening && sub.phase == Waiting && sub.connected && notice(heard) == Payload(id)
      modifies `table, `shutdown, `asked, `heard, `lastId, `delivered, `moves, `sub
      ensures Valid() && sub.phase == Checking && SameTask(old(sub)) && heard == old(heard) + 1
      ensures if old(Qualifies(Payload(id))) then FetchedOnce(old(delivered), old(lastId), old(asked), 100)
              else asked == old(asked) && delivered == old(delivered) && lastId == old(lastId)
    {
      Receive(Notified(id));
      if id.Some? && id.value > lastId {
        FetchAndDeliver(100);
      }
    }
  }
}
