/**
 The Ruby subscriber: polls that fetch a page, run every callback on every message until one raises, and then mark
 the whole page. Fetches and marks may fail, callbacks may raise, and other processes change the table in between.
 */
module RubySubscriber {
  import opened Wrappers
  import opened Timestamps
  import opened Ledgers

  const PAGE := 100

  datatype Phase = Idle | Fetching | Processing | Marking {
    /** A page has been fetched and is not yet done with. */
    predicate HasPage() {
      this == Processing || this == Marking
    }
  }

  /** A poll that fetched something: the first `done` messages of the page had all their callbacks succeed and, if
      `raised`, the next one had a callback raise. `marked` says that the mark of the whole page went through. */
  datatype Poll = Poll(page: seq<Entry>, done: nat, raised: bool, marked: bool) {
    predicate Sound() {
      page != [] && done + (if raised then 1 else 0) <= |page|
    }

    /** The messages that callbacks were called with. */
    function Tried(): seq<Entry>
      requires Sound()
    {
      page[..done + if raised then 1 else 0]
    }

    predicate Over() {
      raised || done == |page|
    }
  }

  /** `last` is `@last_message_id`; `polls` is history, its last element the current poll while one is under way. */
  datatype Sub = Sub(session: string, last: int, running: bool, retries: nat, maxRetries: Option<nat>, phase: Phase,
                     polls: seq<Poll>)

  datatype Scene = Scene(s: Sub, l: Ledger)

  datatype Event =
    | Start | Stop
    | Restart                              // a new Subscriber object for the session takes over
    | Begin                                // poll_once finds @running true
    | Fetched | FetchFailed
    | Round(ok: bool)                      // all callbacks for one message
    | EndPage
    | Marked(now: Utc) | MarkFailed
    | Changed(l: Ledger)                   // somebody else changes the table

  function New(session: string, maxRetries: Option<nat>): Sub {
    Sub(session, 0, false, 0, maxRetries, Idle, [])
  }

  function Current(s: Sub): Poll
    requires s.polls != []
  {
    s.polls[|s.polls| - 1]
  }

  function WithCurrent(s: Sub, p: Poll): Sub
    requires s.polls != []
  {
    s.(polls := s.polls[|s.polls| - 1 := p])
  }

  /** An empty page ends the poll; any other is processed. */
  function WithPage(s: Sub, page: seq<Entry>): Sub {
    if page == [] then s.(phase := Idle)
    else s.(phase := Processing, polls := s.polls + [Poll(page, 0, false, false)])
  }

  /** The rescue clause: count the failure, and stop when the retries are used up. */
  function Failed(s: Sub): Sub {
    s.(retries := s.retries + 1, phase := Idle,
       running := s.running && !(s.maxRetries.Some? && s.retries + 1 >= s.maxRetries.value))
  }

  function Ids(page: seq<Entry>): set<int> {
    set e | e in page :: e.id
  }

  function Step(x: Scene, e: Event): Option<Scene> {
    var (s, l) := (x.s, x.l);
    match (s.phase, e)
    case (_, Changed(l')) => if Evolves(l, l') && Valid(l') then Some(Scene(s, l')) else None
    case (_, Start) => Some(Scene(if s.running then s else s.(running := true, retries := 0), l))
    case (_, Stop) => Some(Scene(s.(running := false), l))
    case (Idle, Restart) => Some(Scene(s.(last := 0, running := false, retries := 0), l))
    case (Idle, Begin) => if s.running then Some(Scene(s.(phase := Fetching), l)) else None
    case (Fetching, Fetched) => Some(Scene(WithPage(s, FetchAfter(l, s.session, s.last, PAGE)), l))
    case (Fetching, FetchFailed) => Some(Scene(Failed(s), l))
    case (Processing, Round(ok)) =>
      if s.polls == [] || Current(s).Over() || Current(s).done >= |Current(s).page| then None
      else if ok then
        Some(Scene(WithCurrent(s, Current(s).(done := Current(s).done + 1))
                     .(last := Current(s).page[Current(s).done].id), l))
      else Some(Scene(WithCurrent(s, Current(s).(raised := true)), l))
    case (Processing, EndPage) =>
      if s.polls == [] || !Current(s).Over() then None else Some(Scene(s.(phase := Marking), l))
    case (Marking, Marked(now)) =>
      if s.polls == [] then None
      else Some(Scene(WithCurrent(s, Current(s).(marked := true)).(phase := Idle, retries := 0),
                      MarkDelivered(l, Ids(Current(s).page), now)))
    case (Marking, MarkFailed) => Some(Scene(Failed(s), l))
    case _ => None
  }

  function Run(first: Scene, es: seq<Event>): Option<Scene> {
    if es == [] then Some(first)
    else match Run(first, es[..|es| - 1])
      case None => None
      case Some(x) => Step(x, es[|es| - 1])
  }

  /** The messages all of whose callbacks succeeded, in the order processed. */
  function Succeeded(polls: seq<Poll>): seq<Entry> {
    if polls == [] then []
    else
      var p := polls[|polls| - 1];
      Succeeded(polls[..|polls| - 1]) + p.page[..Min(p.done, |p.page|)]
  }

  // ---- One subscriber, any faults ----

  /** Whatever happened to it, the row is no longer pending. */
  ghost predicate Settled(l: Ledger, e: Entry) {
    forall i :: 0 <= i < |l.cells| && l.cells[i].id == e.id ==> l.cells[i].status != Live(None)
  }

  /** A later page starts above every success, meets a message tried before only if that try raised and its page was
      not marked, and has nothing in common with a marked page. */
  ghost predicate Follows(p: Poll, q: Poll)
    requires p.Sound()
  {
    && (forall i, e :: 0 <= i < p.done && e in q.page ==> p.page[i].id < e.id)
    && (forall i :: 0 <= i < |p.Tried()| && p.page[i] in q.page ==> i == p.done && !p.marked)
    && (p.marked ==> forall e, f :: e in p.page && f in q.page ==> e.id != f.id)
  }

  ghost predicate PollOk(s: Sub, l: Ledger, p: Poll) {
    && p.Sound() && EntriesAscending(p.page)
    && (forall e :: e in p.page ==> 0 < e.id < l.nextId)
    && (forall i :: 0 <= i < p.done ==> p.page[i].id <= s.last)
    && (p.marked ==> p.Over() && forall e :: e in p.page ==> Settled(l, e))
  }

  ghost predicate Inv(x: Scene) {
    && Valid(x.l) && 0 <= x.s.last < x.l.nextId
    && (forall k :: 0 <= k < |x.s.polls| ==> PollOk(x.s, x.l, x.s.polls[k]))
    && (forall j, k :: 0 <= j < k < |x.s.polls| ==> Follows(x.s.polls[j], x.s.polls[k]))
    && (x.s.phase.HasPage() ==> x.s.polls != [] && !Current(x.s).marked)
    && (x.s.phase == Processing ==>
          forall i :: Current(x.s).done <= i < |Current(x.s).page| ==> x.s.last < Current(x.s).page[i].id)
    && (x.s.phase == Marking ==> Current(x.s).Over())
  }

  lemma SettledStays(l: Ledger, l': Ledger, e: Entry)
    requires Valid(l) && Valid(l') && Evolves(l, l') && Settled(l, e) && e.id < l.nextId
    ensures Settled(l', e)
  {
    forall i | 0 <= i < |l'.cells| && l'.cells[i].id == e.id ensures l'.cells[i].status != Live(None) {
      if i < |l.cells| {
        assert l'.cells[i].AsEntry() == l.cells[i].AsEntry() && Moves(l.cells[i].status, l'.cells[i].status);
      }
    }
  }

  lemma TableChangeKeepsInv(x: Scene, l: Ledger)
    requires Inv(x) && Evolves(x.l, l) && Valid(l)
    ensures Inv(Scene(x.s, l))
  {
    forall k | 0 <= k < |x.s.polls| ensures PollOk(x.s, l, x.s.polls[k]) {
      var p := x.s.polls[k];
      assert PollOk(x.s, x.l, p);
      if p.marked {
        forall e | e in p.page ensures Settled(l, e) {
          SettledStays(x.l, l, e);
        }
      }
    }
  }

  /** What a fetch can return: pending rows past the cursor. */
  lemma PageIsPending(l: Ledger, session: string, after: int, e: Entry) returns (i: nat)
    requires Valid(l) && e in FetchAfter(l, session, after, PAGE)
    ensures i < |l.cells| && l.cells[i].Pending(session) && l.cells[i].AsEntry() == e && after < e.id
  {
    assert e in Eligible(l.cells, session, after);
    BetweenMembers(l.cells, session, after, None, e);
    i :| 0 <= i < |l.cells| && Selected(l.cells[i], session, after, None, e);
  }

  lemma NewPageFollows(x: Scene, p: Poll, q: Poll)
    requires Inv(x) && p in x.s.polls && q.page == FetchAfter(x.l, x.s.session, x.s.last, PAGE)
    requires x.s.phase == Fetching
    ensures p.Sound() && Follows(p, q)
  {
    var k :| 0 <= k < |x.s.polls| && x.s.polls[k] == p;
    assert PollOk(x.s, x.l, p);
    forall e | e in q.page ensures x.s.last < e.id && !Settled(x.l, e) {
      var i := PageIsPending(x.l, x.s.session, x.s.last, e);
    }
    if p.marked {
      forall e, f | e in p.page && f in q.page ensures e.id != f.id {
        assert Settled(x.l, e) && !Settled(x.l, f);
      }
    }
  }

  lemma FetchKeepsInv(x: Scene)
    requires Inv(x) && x.s.phase == Fetching && Step(x, Fetched).Some?
    ensures Inv(Step(x, Fetched).value)
  {
    var x' := Step(x, Fetched).value;
    if x'.s.polls != x.s.polls {
      var q := Current(x'.s);
      FetchIsExact(x.l, x.s.session, x.s.last, PAGE);
      forall e | e in q.page ensures x.s.last < e.id < x.l.nextId {
        var i := PageIsPending(x.l, x.s.session, x.s.last, e);
      }
      forall j, k | 0 <= j < k < |x'.s.polls| ensures Follows(x'.s.polls[j], x'.s.polls[k]) {
        if k == |x.s.polls| {
          NewPageFollows(x, x.s.polls[j], q);
        }
      }
      forall k | 0 <= k < |x'.s.polls| ensures PollOk(x'.s, x.l, x'.s.polls[k]) {
        assert k < |x.s.polls| ==> PollOk(x.s, x.l, x.s.polls[k]);
      }
    }
  }

  /** The current poll makes progress; earlier ones are as they were. */
  lemma ProgressKeepsOrder(polls: seq<Poll>, p: Poll)
    requires polls != [] && forall k :: 0 <= k < |polls| ==> polls[k].Sound()
    requires p.page == polls[|polls| - 1].page && p.Sound()
    requires forall j, k :: 0 <= j < k < |polls| ==> Follows(polls[j], polls[k])
    ensures var polls' := polls[|polls| - 1 := p];
            && (forall k :: 0 <= k < |polls'| ==> polls'[k].Sound())
            && forall j, k :: 0 <= j < k < |polls'| ==> Follows(polls'[j], polls'[k])
  {
    var polls' := polls[|polls| - 1 := p];
    forall j, k | 0 <= j < k < |polls'| ensures Follows(polls'[j], polls'[k]) {
      assert Follows(polls[j], polls[k]);
    }
  }

  lemma PollsSound(x: Scene)
    requires Inv(x)
    ensures forall k :: 0 <= k < |x.s.polls| ==> x.s.polls[k].Sound()
  {
    forall k | 0 <= k < |x.s.polls| ensures x.s.polls[k].Sound() {
      assert PollOk(x.s, x.l, x.s.polls[k]);
    }
  }

  /** A successful round makes its message the new cursor; either way the poll stays well-formed. */
  lemma RoundKeepsPolls(x: Scene, ok: bool)
    requires Inv(x) && Step(x, Round(ok)).Some?
    ensures var s' := Step(x, Round(ok)).value.s; forall k :: 0 <= k < |s'.polls| ==> PollOk(s', x.l, s'.polls[k])
  {
    var s' := Step(x, Round(ok)).value.s;
    var n := |x.s.polls| - 1;
    var p := x.s.polls[n];
    assert PollOk(x.s, x.l, p);
    assert s'.last >= x.s.last && s'.polls == x.s.polls[n := Current(s')];
    forall k | 0 <= k < |s'.polls| ensures PollOk(s', x.l, s'.polls[k]) {
      assert PollOk(x.s, x.l, x.s.polls[k]);
    }
  }

  lemma RoundKeepsInv(x: Scene, ok: bool)
    requires Inv(x) && Step(x, Round(ok)).Some?
    ensures Inv(Step(x, Round(ok)).value)
  {
    var s' := Step(x, Round(ok)).value.s;
    var p := Current(x.s);
    assert PollOk(x.s, x.l, p);
    assert p.page[p.done] in p.page;
    RoundKeepsPolls(x, ok);
    PollsSound(x);
    ProgressKeepsOrder(x.s.polls, Current(s'));
  }

  lemma MarkSettles(l: Ledger, page: seq<Entry>, now: Utc, e: Entry)
    requires e in page
    ensures Settled(MarkDelivered(l, Ids(page), now), e)
  {
    assert e.id in Ids(page);
  }

  /** The mark of the page settles it. */
  lemma MarkSettlesPage(l: Ledger, page: seq<Entry>, now: Utc)
    requires Valid(l)
    ensures var l' := MarkDelivered(l, Ids(page), now);
            Valid(l') && Evolves(l, l') && forall e :: e in page ==> Settled(l', e)
  {
    MarkEvolves(l, Ids(page), now);
    forall e | e in page ensures Settled(MarkDelivered(l, Ids(page), now), e) {
      MarkSettles(l, page, now, e);
    }
  }

  lemma MarkKeepsPolls(x: Scene, p: Poll)
    requires Inv(x) && x.s.polls != [] && p == Current(x.s).(marked := true) && p.Over()
    requires forall e :: e in p.page ==> Settled(x.l, e)
    ensures var polls := x.s.polls[|x.s.polls| - 1 := p];
            && (forall k :: 0 <= k < |polls| ==> PollOk(x.s, x.l, polls[k]))
            && forall j, k :: 0 <= j < k < |polls| ==> Follows(polls[j], polls[k])
  {
    var polls := x.s.polls[|x.s.polls| - 1 := p];
    PollsSound(x);
    ProgressKeepsOrder(x.s.polls, p);
    forall k | 0 <= k < |polls| ensures PollOk(x.s, x.l, polls[k]) {
      assert PollOk(x.s, x.l, x.s.polls[k]);
    }
  }

  lemma SameCursor(s: Sub, s': Sub, l: Ledger, polls: seq<Poll>)
    requires s'.last == s.last && forall k :: 0 <= k < |polls| ==> PollOk(s, l, polls[k])
    ensures forall k :: 0 <= k < |polls| ==> PollOk(s', l, polls[k])
  {
    forall k | 0 <= k < |polls| ensures PollOk(s', l, polls[k]) {
      assert PollOk(s, l, polls[k]);
    }
  }

  lemma MarkKeepsInv(x: Scene, now: Utc)
    requires Inv(x) && Step(x, Marked(now)).Some?
    ensures Inv(Step(x, Marked(now)).value)
  {
    var x' := Step(x, Marked(now)).value;
    MarkSettlesPage(x.l, Current(x.s).page, now);
    TableChangeKeepsInv(x, x'.l);
    MarkKeepsPolls(Scene(x.s, x'.l), Current(x'.s));
    SameCursor(x.s, x'.s, x'.l, x'.s.polls);
  }

  lemma FlagsKeepInv(x: Scene, s: Sub)
    requires Inv(x) && s == x.s.(running := s.running, retries := s.retries, phase := s.phase)
    requires s.phase == x.s.phase || !s.phase.HasPage()
             || (s.phase == Marking && x.s.phase == Processing && Current(x.s).Over())
    ensures Inv(Scene(s, x.l))
  {
    forall k | 0 <= k < |s.polls| ensures PollOk(s, x.l, s.polls[k]) {
      assert PollOk(x.s, x.l, x.s.polls[k]);
    }
  }

  lemma StepKeepsInv(x: Scene, e: Event)
    requires Inv(x) && Step(x, e).Some? && e != Restart
    ensures Inv(Step(x, e).value)
  {
    match e
    case Changed(l) => TableChangeKeepsInv(x, l);
    case Fetched => FetchKeepsInv(x);
    case Round(ok) => RoundKeepsInv(x, ok);
    case Marked(now) => MarkKeepsInv(x, now);
    case Restart => assert false;
    case _ => FlagsKeepInv(x, Step(x, e).value.s);
  }

  lemma {:induction false} RunKeepsInv(session: string, maxRetries: Option<nat>, l: Ledger, es: seq<Event>)
    requires Valid(l) && Restart !in es && Run(Scene(New(session, maxRetries), l), es).Some?
    ensures Inv(Run(Scene(New(session, maxRetries), l), es).value)
  {
    if es == [] {
    } else {
      RunKeepsInv(session, maxRetries, l, es[..|es| - 1]);
      StepKeepsInv(Run(Scene(New(session, maxRetries), l), es[..|es| - 1]).value, es[|es| - 1]);
    }
  }

  /** The message succeeded as the i-th of the k-th poll's page. */
  ghost predicate SucceededIn(polls: seq<Poll>, k: nat, i: nat, e: Entry) {
    k < |polls| && i < polls[k].done && i < |polls[k].page| && polls[k].page[i] == e
  }

  lemma {:induction false} SucceededWhere(polls: seq<Poll>, e: Entry) returns (k: nat, i: nat)
    requires e in Succeeded(polls)
    ensures SucceededIn(polls, k, i, e)
  {
    var n := |polls| - 1;
    if e in Succeeded(polls[..n]) {
      k, i := SucceededWhere(polls[..n], e);
    } else {
      k := n;
      i :| 0 <= i < polls[n].done && i < |polls[n].page| && polls[n].page[i] == e;
    }
  }

  lemma SuccessesBefore(x: Scene, n: nat, d: Entry, e: Entry)
    requires Inv(x) && n < |x.s.polls| && d in Succeeded(x.s.polls[..n]) && e in x.s.polls[n].page
    ensures d.id < e.id
  {
    var k, i := SucceededWhere(x.s.polls[..n], d);
    assert PollOk(x.s, x.l, x.s.polls[k]);
    assert Follows(x.s.polls[k], x.s.polls[n]);
  }

  lemma LastSuccesses(polls: seq<Poll>, n: nat)
    requires 0 < n <= |polls| && polls[n - 1].done <= |polls[n - 1].page|
    ensures Succeeded(polls[..n]) == Succeeded(polls[..n - 1]) + polls[n - 1].page[..polls[n - 1].done]
  {
    assert polls[..n][..n - 1] == polls[..n - 1];
  }

  lemma {:induction false} SucceededAscends(x: Scene, n: nat)
    requires Inv(x) && n <= |x.s.polls|
    ensures EntriesAscending(Succeeded(x.s.polls[..n]))
    decreases n
  {
    if n == 0 {
    } else {
      SucceededAscends(x, n - 1);
      var p := x.s.polls[n - 1];
      assert PollOk(x.s, x.l, p);
      LastSuccesses(x.s.polls, n);
      var a, b := Succeeded(x.s.polls[..n - 1]), p.page[..p.done];
      forall d, e | d in a && e in b ensures d.id < e.id {
        SuccessesBefore(x, n - 1, d, e);
      }
      AscendingConcat(a, b);
    }
  }

  lemma AscendingConcat(a: seq<Entry>, b: seq<Entry>)
    requires EntriesAscending(a) && EntriesAscending(b) && forall d, e :: d in a && e in b ==> d.id < e.id
    ensures EntriesAscending(a + b)
  {
    var c := a + b;
    forall i, j | 0 <= i < j < |c| ensures c[i].id < c[j].id {
      assert i < |a| ==> c[i] in a;
      assert j >= |a| ==> c[j] in b;
    }
  }

  /** Under any mix of raising callbacks, failed fetches and failed marks, the messages whose callbacks all succeeded
      form a strictly increasing log, so each of them succeeded in exactly one round. */
  lemma SuccessesIncrease(session: string, maxRetries: Option<nat>, l: Ledger, es: seq<Event>)
    requires Valid(l) && Restart !in es && Run(Scene(New(session, maxRetries), l), es).Some?
    ensures EntriesAscending(Succeeded(Run(Scene(New(session, maxRetries), l), es).value.s.polls))
  {
    var x := Run(Scene(New(session, maxRetries), l), es).value;
    RunKeepsInv(session, maxRetries, l, es);
    SucceededAscends(x, |x.s.polls|);
    assert x.s.polls[..|x.s.polls|] == x.s.polls;
  }

  /** A message is handed to the callbacks in a second poll only if a callback raised on it in the first and the mark of
      that poll's page then failed. */
  lemma RetriesNeedRaiseAndFailedMark(
    session: string, maxRetries: Option<nat>, l: Ledger, es: seq<Event>, j: nat, k: nat, e: Entry)
    requires Valid(l) && Restart !in es && Run(Scene(New(session, maxRetries), l), es).Some?
    requires var polls := Run(Scene(New(session, maxRetries), l), es).value.s.polls;
             j < k < |polls| && polls[j].Sound() && polls[k].Sound() && e in polls[j].Tried() && e in polls[k].Tried()
    ensures var p := Run(Scene(New(session, maxRetries), l), es).value.s.polls[j];
            p.raised && e == p.page[p.done] && !p.marked
  {
    var polls := Run(Scene(New(session, maxRetries), l), es).value.s.polls;
    RunKeepsInv(session, maxRetries, l, es);
    assert Follows(polls[j], polls[k]);
    var i :| 0 <= i < |polls[j].Tried()| && polls[j].Tried()[i] == e;
    var m :| 0 <= m < |polls[k].Tried()| && polls[k].Tried()[m] == e;
    assert polls[j].page[i] == e && polls[k].page[m] == e;
  }

  // ---- How far a page is processed ----

  /** How far `process_messages` gets when exactly the callbacks for the ids in `bad` raise. */
  function FirstBad(page: seq<Entry>, bad: set<int>): (n: nat)
    ensures n <= |page|
  {
    if page == [] || page[0].id in bad then 0 else 1 + FirstBad(page[1..], bad)
  }

  lemma {:induction false} FirstBadIsFirst(page: seq<Entry>, bad: set<int>)
    ensures forall i :: 0 <= i < FirstBad(page, bad) ==> page[i].id !in bad
    ensures FirstBad(page, bad) < |page| ==> page[FirstBad(page, bad)].id in bad
  {
    if page == [] || page[0].id in bad {
    } else {
      FirstBadIsFirst(page[1..], bad);
      forall i | 0 <= i < FirstBad(page, bad) ensures page[i].id !in bad {
        assert i > 0 ==> page[i] == page[1..][i - 1];
      }
    }
  }
}
