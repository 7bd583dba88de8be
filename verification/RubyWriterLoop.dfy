/**
 The Ruby writer as code. What the callers do is a script, of which any number of entries may take effect at every
 point where the worker touches the queue, the shutdown flag or the database. Every run of the code is a run of the
 machine in `RubyWriter`.
 */
module RubyWriterLoop {
  import opened Wrappers
  import opened Ledgers
  import opened Batches
  import opened RubyWriter

  class MessageWriter {
    const cfg: Config
    var queue: seq<Item>
    var shutdown: bool
    var droppedCount: nat
    var script: seq<Event>
    // the database: whether the n-th insert_all succeeds, and with which gaps between the ids; the table; and the
    // records each insert_all was called with
    const answers: nat -> Option<nat -> nat>
    var table: Ledger
    var inserts: seq<seq<Message>>
    // the worker's locals
    var batch: seq<Message>
    var flushMarkers: seq<nat>
    // the run so far and the state it leads to
    ghost var events: seq<Event>
    ghost var st: State

    ghost predicate Valid()
      reads this
    {
      && Run(cfg, events) == Some(st)
      && st == State(queue, shutdown, droppedCount, st.phase, batch, flushMarkers, st.taken, st.drainFrom, st.attempts,
                     st.counted, st.calls)
    }

    /** The database saw exactly the recorded attempts. */
    ghost predicate Stored()
      reads this
    {
      Recorded(table, inserts, answers, st.attempts)
    }

    constructor (cfg: Config, script: seq<Event>, answers: nat -> Option<nat -> nat>)
      ensures Valid() && Stored() && this.cfg == cfg && this.script == script && this.answers == answers
      ensures events == [] && st == INITIAL && table == EMPTY && inserts == []
    {
      this.cfg, this.script, this.answers, table, inserts := cfg, script, answers, EMPTY, [];
      queue, shutdown, droppedCount, batch, flushMarkers := [], false, 0, [], [];
      events, st := [], INITIAL;
    }

    ghost method Record(e: Event)
      requires Run(cfg, events) == Some(st) && Step(cfg, st, e).Some?
      modifies `events, `st
      ensures Some(st) == old(Step(cfg, st, e)) && events == old(events) + [e] && Run(cfg, events) == Some(st)
    {
      st := Step(cfg, st, e).value;
      events := events + [e];
      assert events[..|events| - 1] == old(events);
    }

    /** `enqueue`: a full queue drops the message and counts it. */
    method Enqueue(msg: Message) returns (accepted: bool)
      requires Valid()
      modifies `queue, `droppedCount, `events, `st
      ensures Valid() && old(events) <= events && accepted == (|old(queue)| < cfg.capacity)
      ensures queue == old(queue) + if accepted then [Post(msg)] else []
      ensures droppedCount == old(droppedCount) + if accepted then 0 else 1
      ensures st == old(st).(queue := queue, dropped := droppedCount, calls := old(st.calls) + 1)
    {
      if |queue| < cfg.capacity {
        queue := queue + [Post(msg)];
        accepted := true;
      } else {
        droppedCount := droppedCount + 1;
        accepted := false;
      }
      Record(RubyWriter.Event.Enqueue(msg));
    }

    /** What a caller's action may change. */
    ghost predicate OnlyCallersActed(before: State)
      reads `st
    {
      && st == before.(queue := st.queue, shutdown := st.shutdown, dropped := st.dropped, calls := st.calls)
      && before.queue <= st.queue && (before.shutdown ==> st.shutdown)
    }

    method Caller(e: Event)
      requires Valid()
      modifies `queue, `shutdown, `droppedCount, `events, `st
      ensures Valid() && old(events) <= events && OnlyCallersActed(old(st))
      ensures shutdown == (old(shutdown) || e.Stop?)
      ensures queue == old(queue) + if |old(queue)| >= cfg.capacity then []
                                    else if e.Enqueue? then [Post(e.msg)]
                                    else if e.PushMarker? then [Marker(e.latch)] else []
      ensures droppedCount == old(droppedCount) + if e.Enqueue? && |old(queue)| >= cfg.capacity then 1 else 0
    {
      match e
      case Enqueue(msg) =>
        var _ := Enqueue(msg);
      case PushMarker(latch) =>
        if |queue| < cfg.capacity {
          queue := queue + [Marker(latch)];
          Record(e);
        }
      case Stop =>
        shutdown := true;
        Record(e);
      case _ =>
    }

    /** Some callers get to run: any number of script entries, at least one if `must`. */
    method Callers(must: bool)
      requires Valid()
      modifies `queue, `shutdown, `droppedCount, `script, `events, `st
      ensures Valid() && old(events) <= events && OnlyCallersActed(old(st))
      ensures |queue| + |script| <= old(|queue| + |script|) && |script| <= |old(script)|
      ensures must && old(script) != [] ==> |script| < |old(script)|
      ensures |script| == |old(script)| ==> st == old(st)
    {
      var n: int := *;
      if must && n < 1 {
        n := 1;
      }
      while n > 0 && script != []
        invariant Valid() && old(events) <= events && OnlyCallersActed(old(st))
        invariant |queue| + |script| <= old(|queue| + |script|) && |script| <= |old(script)|
        invariant |script| == |old(script)| ==> (must ==> n > 0) && st == old(st)
        decreases |script|
      {
        var e := script[0];
        script, n := script[1..], n - 1;
        Caller(e);
      }
    }

    /** Wait for the first item of a batch. Returns false on shutdown with an empty queue (the machine is back at the
        loop head), and also when the script ends while the worker would wait on (`idle`). */
    method PopFirst() returns (found: bool, idle: bool)
      requires Valid() && st.phase == DrainHead
      modifies `queue, `shutdown, `droppedCount, `script, `events, `st
      ensures Valid() && old(events) <= events
      ensures batch == old(batch) && flushMarkers == old(flushMarkers) && st.attempts == old(st.attempts)
      ensures found ==> !idle && st.phase == Popping && queue != []
      ensures !found ==> queue == [] && if idle then st.phase == DrainHead && !shutdown && script == []
                                        else st.phase == LoopHead && shutdown
      ensures |queue| + |script| <= old(|queue| + |script|) && |script| <= |old(script)|
      ensures !found && !idle && |script| == |old(script)| ==> old(shutdown) && old(queue) == []
    {
      Callers(false);
      while true
        invariant Valid() && st.phase == DrainHead && old(events) <= events && st.attempts == old(st.attempts)
        invariant |queue| + |script| <= old(|queue| + |script|) && |script| <= |old(script)|
        invariant |script| == |old(script)| ==> shutdown == old(shutdown) && queue == old(queue)
        decreases |script|
      {
        if shutdown && queue == [] {
          Record(Work);
          return false, false;
        }
        if queue == [] && script == [] {
          return false, true;
        }
        found := Pop();
        if found {
          return true, false;
        }
      }
    }

    /** One `pop(timeout: 0.1)`: an item turns up, or the time is up and the `until` condition comes next. */
    method Pop() returns (found: bool)
      requires Valid() && st.phase == DrainHead && !(shutdown && queue == []) && !(queue == [] && script == [])
      modifies `queue, `shutdown, `droppedCount, `script, `events, `st
      ensures Valid() && old(events) <= events && batch == old(batch) && flushMarkers == old(flushMarkers)
      ensures st.attempts == old(st.attempts)
      ensures if found then st.phase == Popping && queue != [] else st.phase == DrainHead && |script| < |old(script)|
      ensures |queue| + |script| <= old(|queue| + |script|) && |script| <= |old(script)|
    {
      Record(Work);
      if queue == [] {
        Callers(true);
      }
      found := queue != [];
      if !found {
        Record(Timeout);
      }
    }

    /** Put the item at the head of the queue where it belongs. */
    method Sort(item: Item)
      requires Valid() && queue != [] && queue[0] == item
      requires st.phase == Popping || (st.phase == Filling && |batch| < cfg.batchSize)
      modifies `queue, `batch, `flushMarkers, `events, `st
      ensures Valid() && old(events) <= events && st.phase == Filling && queue == old(queue)[1..]
      ensures batch == old(batch) + if item.Post? then [item.msg] else []
      ensures flushMarkers == old(flushMarkers) + if item.Marker? then [item.latch] else []
      ensures st.attempts == old(st.attempts)
    {
      queue := queue[1..];
      match item {
        case Marker(latch) => flushMarkers := flushMarkers + [latch];
        case Post(msg) => batch := batch + [msg];
      }
      Record(Work);
    }

    /** Count down the latches collected in this drain, in order. */
    method CountDown()
      requires Valid() && st.phase == Counting
      modifies `queue, `shutdown, `droppedCount, `script, `batch, `flushMarkers, `events, `st
      ensures Valid() && old(events) <= events && flushMarkers == [] && batch == old(batch)
      ensures st.phase == if batch == [] then LoopHead else Writing
      ensures st.counted == old(st.counted) + old(flushMarkers) && st.attempts == old(st.attempts)
      ensures |queue| + |script| <= old(|queue| + |script|)
    {
      while flushMarkers != []
        invariant Valid() && st.phase == Counting && old(events) <= events && batch == old(batch)
        invariant st.counted + flushMarkers == old(st.counted + flushMarkers) && st.attempts == old(st.attempts)
        invariant |queue| + |script| <= old(|queue| + |script|)
        decreases |flushMarkers|
      {
        Callers(false);
        Shift(st.counted, flushMarkers);
        flushMarkers := flushMarkers[1..];
        Record(Work);
      }
      Record(Work);
    }

    method Fill()
      requires Valid() && st.phase == Filling
      modifies `queue, `shutdown, `droppedCount, `script, `batch, `flushMarkers, `events, `st
      ensures st.attempts == old(st.attempts)
      ensures Valid() && old(events) <= events && st.phase == Counting
      ensures |queue| + |script| <= old(|queue| + |script|)
      // it ends before a full batch only on an empty queue
      ensures old(batch) <= batch && (|batch| >= cfg.batchSize || queue == [])
    {
      while |batch| < cfg.batchSize
        invariant Valid() && st.phase == Filling && old(events) <= events && st.attempts == old(st.attempts)
        invariant old(batch) <= batch
        invariant |queue| + |script| <= old(|queue| + |script|)
        decreases |queue| + |script|
      {
        Callers(false);
        if queue == [] {
          break;
        }
        Sort(queue[0]);
      }
      Record(Work);
    }

    /** `drain_batch`: the batch it returns is the field. */
    method DrainBatch() returns (found: bool, idle: bool)
      requires Valid() && st.phase == DrainHead
      modifies `queue, `shutdown, `droppedCount, `script, `batch, `flushMarkers, `events, `st
      ensures st.attempts == old(st.attempts)
      ensures Valid() && old(events) <= events
      ensures if idle then !found && st.phase == DrainHead && queue == [] && script == [] && !shutdown
              else st.phase == if batch == [] then LoopHead else Writing
      ensures |queue| + |script| <= old(|queue| + |script|) - (if found then 1 else 0)
      ensures !found && !idle ==> |script| < |old(script)| || (old(shutdown) && old(queue) == [])
    {
      NoBatchBetweenDrains(cfg, events);
      found, idle := PopFirst();
      if !found {
        return;
      }
      Sort(queue[0]);
      Fill();
      CountDown();
    }

    /** `Message.insert_all`: all of the rows are inserted with fresh ids, or it raises and inserts none. */
    method InsertAll(rows: seq<Message>) returns (r: Option<seq<int>>)
      requires Ledgers.Valid(table)
      modifies `table, `inserts
      ensures Ledgers.Valid(table) && inserts == old(inserts) + [rows] && (r.Some? <==> answers(|old(inserts)|).Some?)
      ensures r.Some? ==> FreshIds(old(table).nextId, r.value, |rows|) && table == Insert(old(table), rows, r.value)
      ensures r.None? ==> table == old(table)
    {
      var skip := answers(|inserts|);
      inserts := inserts + [rows];
      if skip.None? {
        return None;
      }
      var ids := HandOut(table.nextId, skip.value, |rows|);
      HandOutIsFresh(table.nextId, skip.value, |rows|);
      InsertEvolves(table, rows, ids);
      table := Insert(table, rows, ids);
      return Some(ids);
    }

    /** `write_batch`: insert_all is called once, with exactly the batch; a failure is logged and forgotten. */
    method WriteBatch() returns (r: Option<seq<int>>)
      requires Valid() && Stored() && st.phase == Writing
      modifies this
      ensures Valid() && Stored() && old(events) <= events && st.phase == LoopHead && batch == []
      ensures inserts == old(inserts) + [old(batch)] && (r.Some? <==> answers(|old(inserts)|).Some?)
      ensures st.attempts == old(st.attempts) + [Attempt(old(batch), r, false)]
      ensures r.Some? ==>
                FreshIds(old(table).nextId, r.value, |old(batch)|) && table == Insert(old(table), old(batch), r.value)
      ensures r.None? ==> table == old(table)
      ensures |queue| + |script| <= old(|queue| + |script|) && |script| <= |old(script)|
    {
      BatchInHand(cfg, events);
      Callers(false);
      r := CallDatabase();
    }

    method CallDatabase() returns (r: Option<seq<int>>)
      requires Valid() && Stored() && st.phase == Writing && batch != []
      modifies `table, `inserts, `batch, `events, `st
      ensures Valid() && Stored() && old(events) <= events && st.phase == LoopHead && batch == []
      ensures inserts == old(inserts) + [old(batch)] && (r.Some? <==> answers(|old(inserts)|).Some?)
      ensures st.attempts == old(st.attempts) + [Attempt(old(batch), r, false)]
      ensures r.Some? ==>
                FreshIds(old(table).nextId, r.value, |old(batch)|) && table == Insert(old(table), old(batch), r.value)
      ensures r.None? ==> table == old(table)
    {
      r := InsertAll(batch);
      CallIsRecorded(old(table), old(inserts), answers, st.attempts, Attempt(batch, r, false));
      Record(Write(r));
      batch := [];
    }

    /** One turn of the loop. `idle`: the script is over and the worker would wait on. */
    method Turn() returns (exited: bool, idle: bool)
      requires Valid() && Stored() && st.phase == LoopHead
      modifies this
      ensures Valid() && Stored() && old(events) <= events && !(exited && idle)
      ensures if exited then st.phase == Exited && shutdown && queue == []
              else if idle then st.phase == DrainHead && queue == [] && script == [] && !shutdown
              else st.phase == LoopHead
      ensures !exited && !idle ==>
                || |queue| + |script| < old(|queue| + |script|)
                || (|queue| + |script| == old(|queue| + |script|) && |script| < |old(script)|)
    {
      Callers(false);
      Record(Work);
      if shutdown && queue == [] {
        return true, false;
      }
      var found;
      found, idle := DrainBatch();
      if !idle && batch != [] {
        var _ := WriteBatch();
      }
      return false, idle;
    }

    /** `run_loop`. It returns true when the worker is done, and false when the script is over and it would wait on.
        Either way its run is a run of the machine; on return everything popped was passed to insert_all once, in
        order, and every latch popped was counted down. */
    method RunLoop() returns (exited: bool)
      requires Valid() && Stored() && st.phase == LoopHead
      modifies this
      ensures Valid() && Stored() && old(events) <= events
      ensures if exited then st.phase == Exited && shutdown else queue == [] && script == [] && !shutdown
      ensures Attempted(st.attempts) == Posts(st.taken) && st.counted == Latches(st.taken)
      ensures |Posts(Pushed(st))| + droppedCount == st.calls && |queue| <= cfg.capacity
      ensures Holds(table.cells, st.attempts)
      ensures |inserts| == |st.attempts| && forall i :: 0 <= i < |inserts| ==>
                inserts[i] == st.attempts[i].msgs && (st.attempts[i].ids.Some? <==> answers(i).Some?)
    {
      exited := false;
      while true
        invariant Valid() && Stored() && st.phase == LoopHead && old(events) <= events
        decreases |queue| + |script|, |script|
      {
        var idle;
        exited, idle := Turn();
        if exited || idle {
          break;
        }
      }
      AtRest(cfg, events);
      Accounting(cfg, events);
    }
  }
}
