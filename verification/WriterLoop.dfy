/**
 The Rust writer as code: `enqueue` and the worker loop over its channel, its two vectors and the database.

 Whatever the senders do is a script, of which any number of entries may take effect at every point where the worker
 touches the channel, the database or a waiter. Every statement of the loop is a step of the machine in `Writer`, so
 every run of the code is a run of the machine.
 */
module WriterLoop {
  import opened Wrappers
  import opened Ledgers
  import opened Batches
  import opened Writer

  datatype Error = ShutdownError

  /** What `recv().await` comes back with; `Pending` when the script ends and the worker keeps waiting. */
  datatype Received = Got(cmd: Command) | Closed | Pending

  class MessageWriter {
    const cfg: Config
    // the channel
    var queue: seq<Command>
    var open: bool
    var receiverGone: bool
    // the worker's locals
    var batch: seq<Message>
    var flushWaiters: seq<nat>
    // what the senders are going to do
    var script: seq<Event>
    // the database: whether the n-th insert succeeds, and with which gaps between the ids; the table; and the rows each
    // insert was called with
    const answers: nat -> Option<nat -> nat>
    var table: Ledger
    var inserts: seq<seq<Message>>
    // the run so far and the state it leads to
    ghost var events: seq<Event>
    ghost var st: State

    /** The fields are those of the state that the recorded run leads to, the channel's contents aside. */
    ghost predicate Linked()
      reads this
    {
      && Run(cfg, events) == Some(st)
      && st == State(st.queue, open, st.phase, batch, flushWaiters, st.taken, st.attempts, st.signalled)
      && (receiverGone <==> st.phase == Halted)
    }

    ghost predicate Valid()
      reads this
    {
      Linked() && st.queue == queue
    }

    /** The same while the worker has `cmd` in hand. */
    ghost predicate Holding(cmd: Command)
      reads this
    {
      Linked() && st.queue == [cmd] + queue
    }

    /** The database saw exactly the recorded attempts. */
    ghost predicate Stored()
      reads this
    {
      Recorded(table, inserts, answers, st.attempts)
    }

    constructor (cfg: Config, script: seq<Event>, answers: nat -> Option<nat -> nat>)
      ensures Valid() && Stored() && this.cfg == cfg && this.script == script && this.answers == answers
      ensures events == [] && st == INITIAL && table == EMPTY && inserts == []
    {
      this.cfg, this.script, this.answers, table, inserts := cfg, script, answers, EMPTY, [];
      queue, open, receiverGone, batch, flushWaiters := [], true, false, [], [];
      events, st := [], INITIAL;
    }

    ghost method Record(e: Event)
      requires Run(cfg, events) == Some(st) && Step(cfg, st, e).Some?
      modifies `events, `st
      ensures Some(st) == old(Step(cfg, st, e)) && events == old(events) + [e] && Run(cfg, events) == Some(st)
    {
      st := Step(cfg, st, e).value;
      events := events + [e];
      assert events[..|events| - 1] == old(events);
    }

    /** `enqueue`: a message is dropped when the channel is full, refused when the worker is gone, and accepted
        otherwise. */
    method Enqueue(msg: Message) returns (r: Result<bool, Error>)
      requires Valid() && open
      modifies `queue, `events, `st
      ensures Valid()
      ensures r == if receiverGone then Err(ShutdownError) else Ok(|old(queue)| < cfg.capacity)
      ensures queue == old(queue) + if r == Ok(true) then [Post(msg)] else []
      ensures Sent(st) == old(Sent(st)) + if r == Ok(true) then [Post(msg)] else []
      ensures st == old(st).(queue := queue) && old(queue) <= queue && old(events) <= events
    {
      if receiverGone {
        return Err(ShutdownError);
      }
      if |queue| >= cfg.capacity {
        return Ok(false);
      }
      queue := queue + [Post(msg)];
      Record(Send(Post(msg)));
      return Ok(true);
    }

    /** One sender gets to run: it succeeds if the channel lets it. */
    method Sender(e: Event)
      requires Valid()
      modifies `queue, `open, `events, `st
      ensures Valid() && st == old(st).(queue := queue, open := open)
      ensures old(events) <= events
      ensures queue == old(queue) + if e.Send? && old(open) && |old(queue)| < cfg.capacity && !receiverGone
                                    then [e.c] else []
      ensures open == (old(open) && !e.Close?)
    {
      match e
      case Send(Post(msg)) =>
        if open {
          var _ := Enqueue(msg);
        }
      case Send(c) =>
        if open && |queue| < cfg.capacity && !receiverGone {
          queue := queue + [c];
          Record(Send(c));
        }
      case Close =>
        if open {
          open := false;
          Record(Close);
        }
      case _ =>
    }

    /** Some senders get to run: any number of script entries, at least one if `must`. */
    method Senders(must: bool)
      requires Valid()
      modifies `queue, `open, `script, `events, `st
      ensures Valid() && st == old(st).(queue := queue, open := open)
      ensures old(queue) <= queue && old(events) <= events
      ensures |queue| + |script| <= old(|queue| + |script|)
      ensures must && old(script) != [] ==> |script| < |old(script)|
    {
      var n: int := *;
      if must && n < 1 {
        n := 1;
      }
      while n > 0 && script != []
        invariant Valid() && st == old(st).(queue := queue, open := open)
        invariant old(queue) <= queue && old(events) <= events
        invariant |queue| + |script| <= old(|queue| + |script|)
        invariant |script| <= |old(script)| && (|script| == |old(script)| ==> (must ==> n > 0))
        decreases |script|
      {
        var e := script[0];
        script, n := script[1..], n - 1;
        Sender(e);
      }
    }

    method Recv() returns (r: Received)
      requires Valid()
      modifies `queue, `open, `script, `events, `st
      ensures if r.Got? then Holding(r.cmd) else Valid()
      ensures st == old(st).(queue := st.queue, open := open) && old(events) <= events
      ensures r.Closed? ==> queue == [] && !open
      ensures r.Pending? ==> queue == [] && open && script == []
      ensures |queue| + |script| <= old(|queue| + |script|) - if r.Got? then 1 else 0
    {
      Senders(false);
      while queue == [] && open && script != []
        invariant Valid() && st == old(st).(queue := queue, open := open) && old(events) <= events
        invariant |queue| + |script| <= old(|queue| + |script|)
        decreases |script|
      {
        Senders(true);
      }
      if queue != [] {
        r := Got(queue[0]);
        queue := queue[1..];
      } else {
        r := if open then Pending else Closed;
      }
    }

    method TryRecv() returns (r: Option<Command>)
      requires Valid()
      modifies `queue, `open, `script, `events, `st
      ensures if r.Some? then Holding(r.value) else Valid()
      ensures st == old(st).(queue := st.queue, open := open) && old(events) <= events
      ensures r.None? ==> queue == []
      ensures |queue| + |script| <= old(|queue| + |script|) - if r.Some? then 1 else 0
    {
      Senders(false);
      if queue == [] {
        return None;
      }
      r := Some(queue[0]);
      queue := queue[1..];
    }

    /** `db.insert_batch`: all of the rows are inserted with fresh ids, or none. */
    method InsertBatch(rows: seq<Message>) returns (r: Option<seq<int>>)
      requires Ledgers.Valid(table)
      modifies `table, `inserts
      ensures Ledgers.Valid(table) && inserts == old(inserts) + [rows] && (r.Some? <==> answers(|old(inserts)|).Some?)
      ensures r.Some? ==> FreshIds(old(table).nextId, r.value, |rows|) && table == Insert(old(table), rows, r.value)
      ensures r.None? ==> table == old(table)
    {
      var skip := answers(|inserts|);
      inserts := inserts + [rows];
      if skip.None? {
        return None;
      }
      var ids := HandOut(table.nextId, skip.value, |rows|);
      HandOutIsFresh(table.nextId, skip.value, |rows|);
      InsertEvolves(table, rows, ids);
      table := Insert(table, rows, ids);
      return Some(ids);
    }

    /** The database is called once, with exactly the batch; the recorded attempt carries its answer. */
    method WriteBatch() returns (r: Option<seq<int>>)
      requires Valid() && Stored() && st.phase.Writing?
      modifies this
      ensures Valid() && Stored() && old(events) <= events && batch == [] && st.phase == Signalling(old(st.phase.last))
      ensures inserts == old(inserts) + [old(batch)] && (r.Some? <==> answers(|old(inserts)|).Some?)
      ensures st.attempts == old(st.attempts) + [Attempt(old(batch), r, old(st.phase.last))]
      ensures r.Some? ==>
                FreshIds(old(table).nextId, r.value, |old(batch)|) && table == Insert(old(table), old(batch), r.value)
      ensures st.signalled == old(st.signalled)
      ensures r.None? ==> table == old(table)
      ensures |queue| + |script| <= old(|queue| + |script|) && flushWaiters == old(flushWaiters)
    {
      BatchInHand(cfg, events);
      Senders(false);
      r := CallDatabase();
    }

    method CallDatabase() returns (r: Option<seq<int>>)
      requires Valid() && Stored() && st.phase.Writing? && batch != []
      modifies `table, `inserts, `batch, `events, `st
      ensures Valid() && Stored() && old(events) <= events && batch == [] && st.phase == Signalling(old(st.phase.last))
      ensures inserts == old(inserts) + [old(batch)] && (r.Some? <==> answers(|old(inserts)|).Some?)
      ensures st.attempts == old(st.attempts) + [Attempt(old(batch), r, old(st.phase.last))]
      ensures r.Some? ==>
                FreshIds(old(table).nextId, r.value, |old(batch)|) && table == Insert(old(table), old(batch), r.value)
      ensures st.signalled == old(st.signalled)
      ensures r.None? ==> table == old(table)
    {
      r := InsertBatch(batch);
      CallIsRecorded(old(table), old(inserts), answers, st.attempts, Attempt(batch, r, st.phase.last));
      Record(Write(r));
      batch := [];
    }

    method SignalFlushWaiters()
      requires Valid() && st.phase.Signalling?
      modifies `queue, `open, `script, `batch, `flushWaiters, `events, `st
      ensures Valid() && st.phase == old(st.phase) && old(events) <= events && flushWaiters == [] && batch == old(batch)
      ensures st.signalled == old(st.signalled) + old(flushWaiters) && st.attempts == old(st.attempts)
      ensures |queue| + |script| <= old(|queue| + |script|)
    {
      ghost var last := st.phase.last;
      while flushWaiters != []
        invariant Valid() && st.phase == Signalling(last) && old(events) <= events && batch == old(batch)
        invariant st.signalled + flushWaiters == old(st.signalled + flushWaiters) && st.attempts == old(st.attempts)
        invariant |queue| + |script| <= old(|queue| + |script|)
        decreases |flushWaiters|
      {
        Senders(false);
        Shift(st.signalled, flushWaiters);
        flushWaiters := flushWaiters[1..];
        Record(Work);
      }
    }

    /** A command met while draining: a further Shutdown is ignored. */
    method Stow(cmd: Command)
      requires Holding(cmd) && st.phase == Draining
      modifies `batch, `flushWaiters, `events, `st
      ensures Valid() && st.phase == Draining && old(events) <= events && st.attempts == old(st.attempts)
      ensures batch == old(batch) + if cmd.Post? then [cmd.msg] else []
      ensures flushWaiters == old(flushWaiters) + if cmd.Flush? then [cmd.waiter] else []
    {
      match cmd {
        case Post(msg) => batch := batch + [msg];
        case Flush(waiter) => flushWaiters := flushWaiters + [waiter];
        case Shutdown =>
      }
      Record(Work);
    }

    method DrainRemaining()
      requires Valid() && st.phase == Draining
      modifies `queue, `open, `script, `batch, `flushWaiters, `events, `st
      ensures st.attempts == old(st.attempts)
      ensures Valid() && old(events) <= events && queue == []
      ensures st.phase == if batch == [] then Signalling(true) else Writing(true)
    {
      var cmd := TryRecv();
      while cmd.Some?
        invariant (if cmd.Some? then Holding(cmd.value) else Valid()) && st.phase == Draining && old(events) <= events
        invariant (cmd.None? ==> queue == []) && st.attempts == old(st.attempts)
        decreases |queue| + |script| + if cmd.Some? then 1 else 0
      {
        Stow(cmd.value);
        cmd := TryRecv();
      }
      Record(Work);
    }

    /** Write the batch unless it is empty, then signal the flush waiters. */
    method WriteAndSignal(ghost last: bool)
      requires Valid() && Stored() && st.phase == if batch == [] then Signalling(last) else Writing(last)
      modifies this
      ensures Valid() && Stored() && old(events) <= events && st.phase == Signalling(last)
      ensures batch == [] && flushWaiters == [] && |queue| + |script| <= old(|queue| + |script|)
      ensures inserts == old(inserts) + if old(batch) == [] then [] else [old(batch)]
      ensures st.signalled == old(st.signalled) + old(flushWaiters)
    {
      if batch != [] {
        var _ := WriteBatch();
      }
      SignalFlushWaiters();
    }

    /** The way out after a Shutdown, from either of the two places that can receive one. */
    method Finish()
      requires Valid() && st.phase == Draining && Stored()
      modifies this
      ensures Valid() && old(events) <= events && receiverGone && batch == [] && flushWaiters == [] && Stored()
    {
      DrainRemaining();
      WriteAndSignal(true);
      Record(Work);
      receiverGone := true;
    }

    /** One command of the fill loop: a message goes on filling, a flush or a shutdown ends it. */
    method Keep(cmd: Command)
      requires Holding(cmd) && st.phase == Filling && |batch| < cfg.batchSize
      modifies `batch, `flushWaiters, `events, `st
      ensures Valid() && old(events) <= events && st.attempts == old(st.attempts)
      ensures batch == old(batch) + if cmd.Post? then [cmd.msg] else []
      ensures flushWaiters == old(flushWaiters) + if cmd.Flush? then [cmd.waiter] else []
      ensures st.phase == (match cmd
                           case Post(_) => Filling
                           case Flush(_) => if batch == [] then Signalling(false) else Writing(false)
                           case Shutdown => Draining)
    {
      match cmd {
        case Post(msg) => batch := batch + [msg];
        case Flush(waiter) => flushWaiters := flushWaiters + [waiter];
        case Shutdown =>
      }
      Record(Work);
    }

    /** The non-blocking fill. Returns true when a Shutdown was received. */
    method Fill() returns (shutdown: bool)
      requires Valid() && st.phase == Filling
      modifies `queue, `open, `script, `batch, `flushWaiters, `events, `st
      ensures st.attempts == old(st.attempts)
      ensures Valid() && old(events) <= events && |queue| + |script| <= old(|queue| + |script|)
      ensures st.phase == if shutdown then Draining else if batch == [] then Signalling(false) else Writing(false)
      ensures old(batch) <= batch && old(flushWaiters) <= flushWaiters && |flushWaiters| <= |old(flushWaiters)| + 1
      // it ends before a full batch only on a flush, a shutdown or an empty channel
      ensures !shutdown && flushWaiters == old(flushWaiters) ==> |batch| >= cfg.batchSize || queue == []
    {
      while |batch| < cfg.batchSize
        invariant Valid() && st.phase == Filling && old(events) <= events && st.attempts == old(st.attempts)
        invariant old(batch) <= batch && flushWaiters == old(flushWaiters)
        invariant |queue| + |script| <= old(|queue| + |script|)
        decreases |queue| + |script|
      {
        var cmd := TryRecv();
        if cmd.None? {
          break;
        }
        Keep(cmd.value);
        if !cmd.value.Post? {
          return cmd.value.Shutdown?;
        }
      }
      Record(Work);
      return false;
    }

    /** The turn of the loop after its first command. */
    method Proceed() returns (exited: bool)
      requires Valid() && st.phase == Filling && Stored()
      modifies this
      ensures Valid() && old(events) <= events && Stored()
      ensures if exited then receiverGone else st.phase == Receiving && |queue| + |script| <= old(|queue| + |script|)
    {
      var shutdown := Fill();
      if shutdown {
        Finish();
        return true;
      }
      WriteAndSignal(false);
      Record(Work);
      return false;
    }

    /** One turn of the loop, from its first command on. Returns true when the turn leaves the loop. */
    method Turn(cmd: Command) returns (exited: bool)
      requires Holding(cmd) && st.phase == Receiving && Stored()
      modifies this
      ensures Valid() && old(events) <= events && Stored()
      ensures if exited then receiverGone else st.phase == Receiving && |queue| + |script| <= old(|queue| + |script|)
    {
      match cmd {
        case Post(msg) =>
          batch := batch + [msg];
          Record(Work);
        case Flush(waiter) =>
          flushWaiters := flushWaiters + [waiter];
          Record(Work);
        case Shutdown =>
          Record(Work);
          Finish();
          return true;
      }
      exited := Proceed();
    }

    /** `writer_loop`. It returns true when it has left the loop, and false when the script is over and it is waiting
        for another command. Either way its run is a run of the machine, both lists are empty, and nothing it
        received is missing from the insert attempts or from the signals. */
    method WriterLoop() returns (exited: bool)
      requires Valid() && st.phase == Receiving && Stored()
      modifies this
      ensures Valid() && old(events) <= events && Stored()
      ensures exited <==> receiverGone
      ensures !exited ==> st.phase == Receiving && queue == [] && script == [] && open
      ensures batch == [] && flushWaiters == []
      ensures Posts(Sent(st)) == Attempted(st.attempts) + Posts(queue)
      ensures Waiters(Sent(st)) == st.signalled + Waiters(queue)
      ensures Holds(table.cells, st.attempts)
      ensures |inserts| == |st.attempts| && forall i :: 0 <= i < |inserts| ==>
                inserts[i] == st.attempts[i].msgs && (st.attempts[i].ids.Some? <==> answers(i).Some?)
    {
      exited := false;
      while !exited
        invariant Valid() && old(events) <= events && Stored()
        invariant if exited then receiverGone else st.phase == Receiving
        decreases !exited, |queue| + |script|
      {
        var r := Recv();
        match r {
          case Pending => break;
          case Closed =>
            Record(Work);
            receiverGone, exited := true, true;
          case Got(cmd) =>
            exited := Turn(cmd);
        }
      }
      LoopHead(cfg, events);
    }
  }
}
