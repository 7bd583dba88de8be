/** The Ruby subscriber as code. Its polls are runs of the machine in `RubySubscriber`. */
module RubySubscriberLoop {
  import opened Wrappers
  import opened Timestamps
  import opened Ledgers
  import opened RubySubscriber

  /** One invocation of one callback. */
  datatype Call = Call(callback: nat, msg: Entry)

  /** Every callback, in order, on one message. */
  function RoundOf(n: nat, msg: Entry): seq<Call> {
    seq(n, j requires 0 <= j < n => Call(j, msg))
  }

  function CallsFor(n: nat, msgs: seq<Entry>): seq<Call> {
    if msgs == [] then [] else CallsFor(n, msgs[..|msgs| - 1]) + RoundOf(n, msgs[|msgs| - 1])
  }

  /** Where each call of the rounds stands: the j-th callback's on the k-th message at k * n + j. */
  ghost predicate EachOnce(n: nat, msgs: seq<Entry>, calls: seq<Call>) {
    && |calls| == |msgs| * n
    && forall k, j :: 0 <= k < |msgs| && 0 <= j < n ==> At(n, calls, k, j, msgs[k])
  }

  ghost predicate At(n: nat, calls: seq<Call>, k: nat, j: nat, msg: Entry) {
    k * n + j < |calls| && calls[k * n + j] == Call(j, msg)
  }

  lemma RoundsFit(k: nat, m: nat, n: nat, j: nat)
    requires k < m && j < n
    ensures k * n + j < m * n
  {
    assert (k + 1) * n <= m * n by {
      Monotone(k + 1, m, n);
    }
  }

  lemma Monotone(a: nat, b: nat, n: nat)
    requires a <= b
    ensures a * n <= b * n
  {
  }

  lemma {:induction false} CallsForEachOnce(n: nat, msgs: seq<Entry>)
    ensures EachOnce(n, msgs, CallsFor(n, msgs))
    decreases |msgs|
  {
    if msgs == [] {
    } else {
      var m := |msgs| - 1;
      var front := CallsFor(n, msgs[..m]);
      CallsForEachOnce(n, msgs[..m]);
      assert |msgs| * n == m * n + n;
      forall k, j | 0 <= k < |msgs| && 0 <= j < n ensures At(n, CallsFor(n, msgs), k, j, msgs[k]) {
        RoundsFit(k, |msgs|, n, j);
        if k < m {
          assert At(n, front, k, j, msgs[..m][k]);
        } else {
          assert k * n == |front|;
        }
      }
    }
  }

  lemma CallsForNext(count: nat, msgs: seq<Entry>, n: nat, before: seq<Call>)
    requires n < |msgs|
    ensures (before + CallsFor(count, msgs[..n])) + RoundOf(count, msgs[n]) == before + CallsFor(count, msgs[..n + 1])
  {
    assert msgs[..n + 1][..n] == msgs[..n];
  }

  /** The cursor once the first n messages of the page have succeeded. */
  function Cursor(page: seq<Entry>, n: nat, start: int): int
    requires n <= |page|
  {
    if n == 0 then start else page[n - 1].id
  }

  /** Which callback raises on which message id, during one poll. */
  type Behaviour = (nat, int) -> bool

  predicate Raises(n: nat, raises: Behaviour, id: int) {
    exists j: nat :: j < n && raises(j, id)
  }

  function Bad(n: nat, raises: Behaviour, page: seq<Entry>): set<int> {
    set e | e in page && Raises(n, raises, e.id) :: e.id
  }

  ghost predicate QuietUpTo(count: nat, raises: Behaviour, page: seq<Entry>, n: nat) {
    n <= |page| && forall k :: 0 <= k < n ==> !Raises(count, raises, page[k].id)
  }

  lemma QuietNext(count: nat, raises: Behaviour, page: seq<Entry>, n: nat)
    requires QuietUpTo(count, raises, page, n) && n < |page| && !Raises(count, raises, page[n].id)
    ensures QuietUpTo(count, raises, page, n + 1)
  {
  }

  /** No callback raises on the first n messages, and one does on the next, if there is one. */
  ghost predicate StopsAt(count: nat, raises: Behaviour, page: seq<Entry>, n: nat) {
    && QuietUpTo(count, raises, page, n)
    && (n < |page| ==> Raises(count, raises, page[n].id))
  }

  lemma {:induction false} StopsAtFirstBad(count: nat, raises: Behaviour, page: seq<Entry>, bad: set<int>, n: nat)
    requires StopsAt(count, raises, page, n)
    requires forall e :: e in page ==> (e.id in bad <==> Raises(count, raises, e.id))
    ensures FirstBad(page, bad) == n
  {
    if n > 0 {
      assert page[0] in page;
      StopsAtFirstBad(count, raises, page[1..], bad, n - 1);
    } else if page != [] {
      assert page[0] in page;
    }
  }

  /** What StopsAt says callback by callback, and what calls it stands for. */
  lemma PageIsPolled(count: nat, raises: Behaviour, page: seq<Entry>, n: nat, before: seq<Call>)
    requires StopsAt(count, raises, page, n)
    ensures n == FirstBad(page, Bad(count, raises, page)) <= |page|
    ensures forall k, j: nat :: 0 <= k < n && j < count ==> !raises(j, page[k].id)
    ensures n < |page| ==> exists j: nat :: j < count && raises(j, page[n].id)
    ensures var tried := page[..Min(n + 1, |page|)];
            EachOnce(count, tried, (before + CallsFor(count, tried))[|before|..])
  {
    var tried := page[..Min(n + 1, |page|)];
    StopsAtFirstBad(count, raises, page, Bad(count, raises, page), n);
    CallsForEachOnce(count, tried);
    assert (before + CallsFor(count, tried))[|before|..] == CallsFor(count, tried);
  }

  lemma NothingIsPolled(count: nat, before: seq<Call>)
    ensures before + CallsFor(count, []) == before && EachOnce(count, [], before[|before|..])
  {
    assert before[|before|..] == [];
  }

  /** No row of a page so marked is pending. */
  lemma MarkedInSettles(a: Ledger, b: Ledger, page: seq<Entry>, now: Utc, e: Entry)
    requires MarkedIn(a, b, page, now) && e in page
    ensures Settled(b, e)
  {
  }

  /** From a to b exactly the surviving rows of the page were given the time of the mark. */
  ghost predicate MarkedIn(a: Ledger, b: Ledger, page: seq<Entry>, now: Utc) {
    && |a.cells| == |b.cells|
    && forall i :: 0 <= i < |a.cells| ==>
         if a.cells[i].status.Live? && (exists e :: e in page && e.id == a.cells[i].id)
         then b.cells[i] == a.cells[i].(status := Live(Some(now)))
         else b.cells[i] == a.cells[i]
  }

  class Subscriber {
    const session: string
    const callbacks: nat                   // how many blocks are in the shared array
    const maxRetries: Option<nat>          // None: retry forever
    var table: Ledger                      // shared with other processes
    var running: bool
    var lastMessageId: int
    var retryCount: nat
    var calls: seq<Call>                   // the callback invocations made
    // the run so far and the state it leads to
    ghost const before: Ledger
    ghost var events: seq<Event>
    ghost var sub: Sub

    ghost predicate Valid()
      reads this
    {
      && Run(Scene(New(session, maxRetries), before), events) == Some(Scene(sub, table))
      && sub == Sub(session, lastMessageId, running, retryCount, maxRetries, sub.phase, sub.polls)
    }

    constructor (session: string, callbacks: nat, maxRetries: Option<nat>, table: Ledger)
      ensures Valid() && this.session == session && this.callbacks == callbacks && this.maxRetries == maxRetries
      ensures before == this.table == table && sub == New(session, maxRetries) && events == [] && calls == []
      ensures !running && lastMessageId == 0 && retryCount == 0
    {
      this.session, this.callbacks, this.maxRetries, this.table := session, callbacks, maxRetries, table;
      running, lastMessageId, retryCount, calls := false, 0, 0, [];
      before, events, sub := table, [], New(session, maxRetries);
    }

    ghost function Now(): Option<Scene>
      reads this
    {
      Run(Scene(New(session, maxRetries), before), events)
    }

    ghost method Record(e: Event)
      requires Now().Some? && Step(Now().value, e).Some?
      modifies `events, `sub
      ensures Now() == old(Step(Now().value, e)) && sub == Now().value.s && events == old(events) + [e]
    {
      events := events + [e];
      assert events[..|events| - 1] == old(events);
      sub := Now().value.s;
    }

    method StartPolling()
      requires Valid()
      modifies `running, `retryCount, `events, `sub
      ensures Valid() && running && retryCount == if old(running) then old(retryCount) else 0
    {
      if !running {
        running := true;
        retryCount := 0;
      }
      Record(Start);
    }

    /** Another process changes the table. */
    method ChangeTable(t: Ledger)
      requires Valid() && Evolves(table, t) && Ledgers.Valid(t)
      modifies `table, `events, `sub
      ensures Valid() && table == t && sub == old(sub)
    {
      Record(Changed(t));
      table := t;
    }

    /** Other processes change the table, and somebody may call `stop`. */
    method Others()
      requires Valid()
      modifies `table, `running, `events, `sub
      ensures Valid() && Evolves(old(table), table)
      ensures sub == old(sub).(running := running) && (!old(running) ==> !running)
    {
      var t: Ledger := *;
      if Evolves(table, t) && Ledgers.Valid(t) {
        ChangeTable(t);
      }
      var stop: bool := *;
      if stop {
        StopPolling();
      }
    }

    /** `stop`, as far as the flag goes. */
    method StopPolling()
      requires Valid()
      modifies `running, `events, `sub
      ensures Valid() && !running && sub == old(sub).(running := false)
    {
      running := false;
      Record(Stop);
    }

    predicate RetriesUsedUp()
      reads this
    {
      maxRetries.Some? && retryCount >= maxRetries.value
    }

    /** The rescue clause of `poll_once`. */
    method Rescue(e: Event)
      requires Valid() && ((e == FetchFailed && sub.phase == Fetching) || (e == MarkFailed && sub.phase == Marking))
      modifies `running, `retryCount, `events, `sub
      ensures Valid() && sub == Failed(old(sub))
      ensures retryCount == old(retryCount) + 1
      ensures running == (old(running) && !(maxRetries.Some? && retryCount >= maxRetries.value))
    {
      retryCount := retryCount + 1;
      if RetriesUsedUp() {
        running := false;
      }
      Record(e);
    }

    /** All callbacks on one message; a raising one does not keep the others from running. */
    method CallAll(message: Entry, raises: Behaviour) returns (allSuccessful: bool)
      modifies `calls
      ensures calls == old(calls) + RoundOf(callbacks, message)
      ensures allSuccessful <==> !Raises(callbacks, raises, message.id)
      // each callback once, in order, and success means that none raised
      ensures |calls| == |old(calls)| + callbacks && old(calls) <= calls
      ensures forall j :: 0 <= j < callbacks ==> calls[|old(calls)| + j] == Call(j, message)
      ensures allSuccessful <==> forall j: nat :: j < callbacks ==> !raises(j, message.id)
    {
      allSuccessful := true;
      var j := 0;
      while j < callbacks
        invariant 0 <= j <= callbacks
        invariant calls == old(calls) + RoundOf(j, message)
        invariant allSuccessful <==> forall k: nat :: k < j ==> !raises(k, message.id)
      {
        calls := calls + [Call(j, message)];
        if raises(j, message.id) {
          allSuccessful := false;
        }
        j := j + 1;
      }
    }

    /** `process_messages` is under way, the current poll being p. */
    ghost predicate Handling(earlier: seq<Poll>, p: Poll)
      reads this
    {
      Valid() && sub.phase == Processing && sub.polls == earlier + [p]
    }

    /** The body of `process_messages`' loop for the next message of the page. */
    method ProcessNext(messages: seq<Entry>, n: nat, raises: Behaviour, ghost earlier: seq<Poll>)
      returns (allSuccessful: bool)
      requires n < |messages| && Handling(earlier, Poll(messages, n, false, false))
      modifies `table, `running, `lastMessageId, `calls, `events, `sub
      ensures allSuccessful <==> !Raises(callbacks, raises, messages[n].id)
      ensures calls == old(calls) + RoundOf(callbacks, messages[n])
      ensures lastMessageId == if allSuccessful then messages[n].id else old(lastMessageId)
      ensures running ==> old(running)
      ensures Handling(earlier, if allSuccessful then Poll(messages, n + 1, false, false)
                                else Poll(messages, n, true, false))
    {
      Others();
      allSuccessful := CallAll(messages[n], raises);
      Record(Round(allSuccessful));
      if allSuccessful {
        lastMessageId := messages[n].id;
      }
    }

    /** `process_messages`: stops at the first message on which a callback raises. */
    method ProcessMessages(messages: seq<Entry>, raises: Behaviour, ghost earlier: seq<Poll>) returns (n: nat)
      requires Handling(earlier, Poll(messages, 0, false, false))
      modifies `table, `running, `lastMessageId, `calls, `events, `sub
      ensures StopsAt(callbacks, raises, messages, n) && (running ==> old(running))
      ensures Handling(earlier, Poll(messages, n, n < |messages|, false))
      ensures lastMessageId == Cursor(messages, n, old(lastMessageId))
      ensures calls == old(calls) + CallsFor(callbacks, messages[..Min(n + 1, |messages|)])
    {
      n := 0;
      while n < |messages|
        invariant 0 <= n <= |messages| && Handling(earlier, Poll(messages, n, false, false))
        invariant QuietUpTo(callbacks, raises, messages, n) && (running ==> old(running))
        invariant lastMessageId == Cursor(messages, n, old(lastMessageId))
        invariant calls == old(calls) + CallsFor(callbacks, messages[..n])
      {
        CallsForNext(callbacks, messages, n, old(calls));
        var allSuccessful := ProcessNext(messages, n, raises, earlier);
        if !allSuccessful {
          break;
        }
        QuietNext(callbacks, raises, messages, n);
        n := n + 1;
      }
    }

    /** A fetched page: process, then mark. */
    method HandlePage(page: seq<Entry>, raises: Behaviour, markUp: bool, ghost earlier: seq<Poll>)
      returns (n: nat, ghost unmarked: Ledger, ghost now: Utc)
      requires Handling(earlier, Poll(page, 0, false, false)) && page != []
      modifies `table, `running, `lastMessageId, `retryCount, `calls, `events, `sub
      ensures Valid() && sub.phase == Idle && StopsAt(callbacks, raises, page, n)
      ensures lastMessageId == Cursor(page, n, old(lastMessageId))
      ensures calls == old(calls) + CallsFor(callbacks, page[..Min(n + 1, |page|)])
      ensures sub.polls == earlier + [Poll(page, n, n < |page|, markUp)]
      ensures MarkOutcome(page, markUp, old(retryCount), unmarked, now) && (running ==> old(running))
    {
      n := ProcessMessages(page, raises, earlier);
      Record(EndPage);
      unmarked, now := MarkPage(page, markUp);
      assert sub.polls == earlier + [Poll(page, n, n < |page|, markUp)];
    }

    /**
     `poll_once`, with `fetchUp` and `markUp` saying whether the database answers the fetch and the mark; `seen` is
     the table the fetch read. The callbacks run on the page up to and including the first message on which one
     raises, and the cursor stops before that message; then the whole page is marked, or the failure counted.
     */
    method PollOnce(raises: Behaviour, fetchUp: bool, markUp: bool)
      returns (page: seq<Entry>, n: nat, ghost seen: Ledger, ghost unmarked: Ledger, ghost now: Utc)
      requires Valid() && sub.phase == Idle
      modifies `table, `running, `lastMessageId, `retryCount, `calls, `events, `sub
      ensures Valid() && sub.phase == Idle && (running ==> old(running))
      ensures Evolves(old(table), seen)
      ensures page == if old(running) && fetchUp then FetchAfter(seen, session, old(lastMessageId), 100) else []
      // processed: the messages before the first on which a callback raises
      ensures n == FirstBad(page, Bad(callbacks, raises, page)) <= |page|
      ensures forall k, j: nat :: 0 <= k < n && j < callbacks ==> !raises(j, page[k].id)
      ensures n < |page| ==> exists j: nat :: j < callbacks && raises(j, page[n].id)
      ensures lastMessageId == if n == 0 then old(lastMessageId) else page[n - 1].id
      // tried: those and the raising one, each handed to every callback once, in order
      ensures calls == old(calls) + CallsFor(callbacks, page[..Min(n + 1, |page|)])
      ensures EachOnce(callbacks, page[..Min(n + 1, |page|)], calls[|old(calls)|..]) && old(calls) <= calls
      ensures sub.polls == old(sub.polls) + if page == [] then [] else [Poll(page, n, n < |page|, markUp)]
      // marked: the whole page, and nothing else, in the table found by the mark
      ensures page != [] && markUp ==> retryCount == 0 && MarkedIn(unmarked, table, page, now)
      ensures page != [] && !markUp ==> retryCount == old(retryCount) + 1
      ensures page == [] ==> retryCount == old(retryCount) + if old(running) && !fetchUp then 1 else 0
      ensures retryCount > old(retryCount) && maxRetries.Some? && retryCount >= maxRetries.value ==> !running
    {
      page, n, seen, unmarked, now := [], 0, table, table, Fields(1970, 1, 1, 0, 0, 0, 0);
      NothingIsPolled(callbacks, calls);
      if !running {
        return;
      }
      Record(Begin);
      ghost var earlier := sub.polls;
      var fetched;
      fetched, seen := FetchPage(fetchUp);
      if fetched.Some? {
        page := fetched.value;
        if page != [] {
          n, unmarked, now := HandlePage(page, raises, markUp, earlier);
          PageIsPolled(callbacks, raises, page, n, old(calls));
        }
      }
    }

    /** `fetch_new_messages`; a failure goes to the rescue clause. */
    method FetchPage(up: bool) returns (r: Option<seq<Entry>>, ghost seen: Ledger)
      requires Valid() && sub.phase == Fetching
      modifies `table, `running, `retryCount, `events, `sub
      ensures Valid() && Evolves(old(table), seen) && (running ==> old(running))
      ensures r == if up then Some(FetchAfter(seen, session, lastMessageId, 100)) else None
      ensures retryCount == old(retryCount) + if up then 0 else 1
      ensures !up && maxRetries.Some? && retryCount >= maxRetries.value ==> !running
      ensures r.None? || r.value == [] ==> sub.phase == Idle && sub.polls == old(sub.polls)
      ensures r.Some? && r.value != [] ==> Handling(old(sub.polls), Poll(r.value, 0, false, false))
    {
      Others();
      seen := table;
      if !up {
        Rescue(FetchFailed);
        return None, seen;
      }
      r := Some(FetchAfter(table, session, lastMessageId, 100));
      Record(Fetched);
    }

    /** After a mark: exactly the rows of the page are marked; after a failed one: one more retry used. */
    ghost predicate MarkOutcome(page: seq<Entry>, up: bool, retries: nat, unmarked: Ledger, now: Utc)
      reads this
    {
      if up then retryCount == 0 && MarkedIn(unmarked, table, page, now)
      else retryCount == retries + 1 && (maxRetries.Some? && retryCount >= maxRetries.value ==> !running)
    }

    /** `mark_delivered(messages)` and what follows it in `poll_once`; `unmarked` is the table the mark found. */
    method MarkPage(messages: seq<Entry>, up: bool) returns (ghost unmarked: Ledger, ghost now: Utc)
      requires Valid() && sub.phase == Marking && sub.polls != [] && Current(sub).page == messages
      modifies `table, `running, `retryCount, `events, `sub
      ensures Valid() && sub.phase == Idle && (running ==> old(running)) && Evolves(old(table), unmarked)
      ensures sub.polls == if up then old(sub.polls)[|old(sub.polls)| - 1 := Current(old(sub)).(marked := true)]
                           else old(sub.polls)
      ensures MarkOutcome(messages, up, old(retryCount), unmarked, now)
    {
      Others();
      unmarked, now := table, Fields(1970, 1, 1, 0, 0, 0, 0);
      if up {
        now := Mark(messages);
      } else {
        Rescue(MarkFailed);
      }
    }

    /** Row by row: a surviving row whose id is in the page gets the time of the mark, any other stays as it is. */
    method Mark(messages: seq<Entry>) returns (ghost now: Utc)
      requires Valid() && sub.phase == Marking && sub.polls != [] && Current(sub).page == messages
      modifies `table, `retryCount, `events, `sub
      ensures Valid() && sub.phase == Idle && retryCount == 0
      ensures |table.cells| == |old(table.cells)| && table.nextId == old(table.nextId)
      ensures forall i :: 0 <= i < |table.cells| ==>
                if old(table.cells)[i].status.Live? && (exists e :: e in messages && e.id == old(table.cells)[i].id)
                then table.cells[i] == old(table.cells)[i].(status := Live(Some(now)))
                else table.cells[i] == old(table.cells)[i]
      ensures sub.polls == old(sub.polls)[|old(sub.polls)| - 1 := Current(old(sub)).(marked := true)]
    {
      var time: Utc := *;
      now := time;
      MarkIsExact(table, Ids(messages), time);
      table := MarkDelivered(table, Ids(messages), time);
      retryCount := 0;
      Record(Marked(time));
    }
  }
}
