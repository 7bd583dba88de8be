/**
 The Ruby subscriber marks the page it fetched, not the messages it processed: what is marked without having been
 processed, and what becomes of it.
 */
module RubyMarks {
  import opened Wrappers
  import opened Timestamps
  import opened Ledgers
  import opened RubySubscriber

  /** The ids passed to successful marks. */
  function MarkedIds(polls: seq<Poll>): set<int> {
    if polls == [] then {}
    else MarkedIds(polls[..|polls| - 1]) + if polls[|polls| - 1].marked then Ids(polls[|polls| - 1].page) else {}
  }

  lemma {:induction false} MarkedWhere(polls: seq<Poll>, id: int) returns (k: nat)
    requires id in MarkedIds(polls)
    ensures k < |polls| && polls[k].marked && id in Ids(polls[k].page)
  {
    var n := |polls| - 1;
    if id in MarkedIds(polls[..n]) {
      k := MarkedWhere(polls[..n], id);
    } else {
      k := n;
    }
  }

  lemma {:induction false} MarkedPageIsMarked(polls: seq<Poll>, k: nat, e: Entry)
    requires k < |polls| && polls[k].marked && e in polls[k].page
    ensures e.id in MarkedIds(polls)
    decreases |polls|
  {
    var n := |polls| - 1;
    if k == n {
      assert e.id in Ids(polls[n].page);
    } else {
      MarkedPageIsMarked(polls[..n], k, e);
    }
  }

  lemma {:induction false} DoneIsSucceeded(polls: seq<Poll>, k: nat, i: nat)
    requires k < |polls| && i < polls[k].done && i < |polls[k].page|
    ensures polls[k].page[i] in Succeeded(polls)
    decreases |polls|
  {
    var n := |polls| - 1;
    if k == n {
      var p := polls[n];
      assert p.page[i] == p.page[..Min(p.done, |p.page|)][i];
    } else {
      DoneIsSucceeded(polls[..n], k, i);
    }
  }

  /** A message of a marked page at which, or before which, a callback raised has not succeeded in any poll. */
  lemma NotAmongSuccesses(x: Scene, k: nat, i: nat)
    requires Inv(x) && k < |x.s.polls| && x.s.polls[k].marked && x.s.polls[k].done <= i < |x.s.polls[k].page|
    ensures x.s.polls[k].page[i].id !in Ids(Succeeded(x.s.polls))
  {
    var polls, e := x.s.polls, x.s.polls[k].page[i];
    assert PollOk(x.s, x.l, polls[k]);
    forall f | f in Succeeded(polls) ensures f.id != e.id {
      var j, m := SucceededWhere(polls, f);
      assert PollOk(x.s, x.l, polls[j]);
      assert f in polls[j].page && e in polls[k].page;
      if j < k {
        assert Follows(polls[j], polls[k]);
      } else if k < j {
        assert Follows(polls[k], polls[j]);
      }
    }
  }

  lemma UnraisedMarkSucceeded(x: Scene, k: nat, e: Entry)
    requires Inv(x) && k < |x.s.polls| && x.s.polls[k].marked && !x.s.polls[k].raised && e in x.s.polls[k].page
    ensures e.id in Ids(Succeeded(x.s.polls))
  {
    assert PollOk(x.s, x.l, x.s.polls[k]);
    var i :| 0 <= i < |x.s.polls[k].page| && x.s.polls[k].page[i] == e;
    DoneIsSucceeded(x.s.polls, k, i);
  }

  ghost predicate RaisedAndMarked(p: Poll) {
    p.raised && p.marked
  }

  /** Over every run of one subscriber, whatever fails: everything marked was processed if and only if no page on which
      a callback raised was marked. */
  lemma MarkedIsProcessedIff(session: string, maxRetries: Option<nat>, l: Ledger, es: seq<Event>)
    requires Valid(l) && Restart !in es && Run(Scene(New(session, maxRetries), l), es).Some?
    ensures var polls := Run(Scene(New(session, maxRetries), l), es).value.s.polls;
            MarkedIds(polls) <= Ids(Succeeded(polls)) <==> forall p :: p in polls ==> !RaisedAndMarked(p)
  {
    var x := Run(Scene(New(session, maxRetries), l), es).value;
    var polls := x.s.polls;
    RunKeepsInv(session, maxRetries, l, es);
    forall k | 0 <= k < |polls| && RaisedAndMarked(polls[k]) ensures !(MarkedIds(polls) <= Ids(Succeeded(polls))) {
      assert PollOk(x.s, x.l, polls[k]);
      NotAmongSuccesses(x, k, polls[k].done);
      MarkedPageIsMarked(polls, k, polls[k].page[polls[k].done]);
    }
    if forall p :: p in polls ==> !RaisedAndMarked(p) {
      forall id | id in MarkedIds(polls) ensures id in Ids(Succeeded(polls)) {
        var k := MarkedWhere(polls, id);
        var e :| e in polls[k].page && e.id == id;
        assert !RaisedAndMarked(polls[k]);
        UnraisedMarkSucceeded(x, k, e);
      }
    }
  }

  // ---- Across restarts ----

  /** What holds of every poll, whichever subscriber of the session made it. */
  ghost predicate PageOk(l: Ledger, p: Poll) {
    && p.Sound() && EntriesAscending(p.page)
    && (forall e :: e in p.page ==> e.id < l.nextId)
    && (p.marked ==> forall e :: e in p.page ==> Settled(l, e))
  }

  /** Nothing of a marked page is fetched again. */
  ghost predicate Apart(p: Poll, q: Poll) {
    p.marked ==> forall e, f :: e in p.page && f in q.page ==> e.id != f.id
  }

  ghost predicate PagesOk(polls: seq<Poll>, l: Ledger) {
    && (forall k :: 0 <= k < |polls| ==> PageOk(l, polls[k]))
    && (forall j, k :: 0 <= j < k < |polls| ==> Apart(polls[j], polls[k]))
  }

  /** The cursor does not matter here: a restarted subscriber begins at 0 again. */
  ghost predicate MarksOk(x: Scene) {
    && Valid(x.l) && PagesOk(x.s.polls, x.l)
    && (x.s.phase.HasPage() ==> x.s.polls != [] && !Current(x.s).marked)
  }

  lemma ChangeKeepsPages(polls: seq<Poll>, l: Ledger, l': Ledger)
    requires PagesOk(polls, l) && Valid(l) && Valid(l') && Evolves(l, l')
    ensures PagesOk(polls, l')
  {
    forall k | 0 <= k < |polls| ensures PageOk(l', polls[k]) {
      assert PageOk(l, polls[k]);
      if polls[k].marked {
        forall e | e in polls[k].page ensures Settled(l', e) {
          SettledStays(l, l', e);
        }
      }
    }
  }

  lemma NewPageIsOk(l: Ledger, session: string, after: int)
    requires Valid(l)
    ensures var page := FetchAfter(l, session, after, PAGE);
            EntriesAscending(page) && forall e :: e in page ==> e.id < l.nextId && !Settled(l, e)
  {
    var page := FetchAfter(l, session, after, PAGE);
    FetchIsExact(l, session, after, PAGE);
    forall e | e in page ensures e.id < l.nextId && !Settled(l, e) {
      var i := PageIsPending(l, session, after, e);
    }
  }

  lemma FetchKeepsPages(polls: seq<Poll>, l: Ledger, q: Poll)
    requires PagesOk(polls, l) && PageOk(l, q) && !q.marked && forall e :: e in q.page ==> !Settled(l, e)
    ensures PagesOk(polls + [q], l)
  {
    var all := polls + [q];
    forall j, k | 0 <= j < k < |all| ensures Apart(all[j], all[k]) {
      assert PageOk(l, polls[j]);
      if k < |polls| {
        assert Apart(polls[j], polls[k]);
      } else if polls[j].marked {
        forall e, f | e in polls[j].page && f in q.page ensures e.id != f.id {
          assert Settled(l, e) && !Settled(l, f);
        }
      }
    }
  }

  /** The current poll makes progress, or is marked. */
  lemma ProgressKeepsPages(polls: seq<Poll>, l: Ledger, p: Poll)
    requires polls != [] && PagesOk(polls, l) && p.page == polls[|polls| - 1].page && PageOk(l, p)
    ensures PagesOk(polls[|polls| - 1 := p], l)
  {
    var all := polls[|polls| - 1 := p];
    forall j, k | 0 <= j < k < |all| ensures Apart(all[j], all[k]) {
      assert Apart(polls[j], polls[k]);
    }
  }

  lemma FetchKeepsMarks(x: Scene)
    requires MarksOk(x) && x.s.phase == Fetching
    ensures MarksOk(Step(x, Fetched).value)
  {
    var page := FetchAfter(x.l, x.s.session, x.s.last, PAGE);
    NewPageIsOk(x.l, x.s.session, x.s.last);
    if page != [] {
      FetchKeepsPages(x.s.polls, x.l, Poll(page, 0, false, false));
    }
  }

  lemma RoundKeepsMarks(x: Scene, ok: bool)
    requires MarksOk(x) && Step(x, Round(ok)).Some?
    ensures MarksOk(Step(x, Round(ok)).value)
  {
    assert PageOk(x.l, Current(x.s));
    ProgressKeepsPages(x.s.polls, x.l, Current(Step(x, Round(ok)).value.s));
  }

  lemma MarkKeepsMarks(x: Scene, now: Utc)
    requires MarksOk(x) && Step(x, Marked(now)).Some?
    ensures MarksOk(Step(x, Marked(now)).value)
  {
    var l := Step(x, Marked(now)).value.l;
    var p := Current(x.s);
    MarkEvolves(x.l, Ids(p.page), now);
    ChangeKeepsPages(x.s.polls, x.l, l);
    assert PageOk(l, p);
    forall e | e in p.page ensures Settled(l, e) {
      MarkSettles(x.l, p.page, now, e);
    }
    ProgressKeepsPages(x.s.polls, l, p.(marked := true));
  }

  lemma StepKeepsMarks(x: Scene, e: Event)
    requires MarksOk(x) && Step(x, e).Some?
    ensures MarksOk(Step(x, e).value)
  {
    match e {
      case Changed(l) => ChangeKeepsPages(x.s.polls, x.l, l);
      case Fetched => FetchKeepsMarks(x);
      case Round(ok) => RoundKeepsMarks(x, ok);
      case Marked(now) => MarkKeepsMarks(x, now);
      case _ =>
        var s' := Step(x, e).value.s;
        assert Step(x, e).value.l == x.l && s'.polls == x.s.polls;
    }
  }

  lemma {:induction false} RunKeepsMarks(first: Scene, es: seq<Event>)
    requires MarksOk(first) && Run(first, es).Some?
    ensures MarksOk(Run(first, es).value)
  {
    if es == [] {
    } else {
      RunKeepsMarks(first, es[..|es| - 1]);
      StepKeepsMarks(Run(first, es[..|es| - 1]).value, es[|es| - 1]);
    }
  }

  lemma MarkedPollStays(x: Scene, e: Event, k: nat)
    requires MarksOk(x) && Step(x, e).Some? && k < |x.s.polls| && x.s.polls[k].marked
    ensures var polls := Step(x, e).value.s.polls; k < |polls| && polls[k] == x.s.polls[k]
  {
  }

  /** The k-th poll of the run es has been marked within its first n events. */
  ghost predicate MarkedBy(first: Scene, es: seq<Event>, n: nat, k: nat) {
    && n <= |es| && Run(first, es[..n]).Some? && Run(first, es).Some?
    && k < |Run(first, es[..n]).value.s.polls| && Run(first, es[..n]).value.s.polls[k].marked
  }

  lemma {:induction false} MarkedPollsStay(first: Scene, es: seq<Event>, n: nat, k: nat)
    requires MarksOk(first) && MarkedBy(first, es, n, k)
    ensures var polls := Run(first, es).value.s.polls;
            k < |polls| && polls[k] == Run(first, es[..n]).value.s.polls[k]
    decreases |es|
  {
    if n == |es| {
      assert es[..n] == es;
    } else {
      var m := |es| - 1;
      assert es[..m][..n] == es[..n];
      MarkedPollsStay(first, es[..m], n, k);
      RunKeepsMarks(first, es[..m]);
      MarkedPollStays(Run(first, es[..m]).value, es[m], k);
    }
  }

  /** A mark is final. However the run goes on after the mark of a page went through, with whatever faults and with any
      number of new subscribers that start at id 0 again: no message of that page is pending in the table, and none is
      in a page fetched later. */
  lemma MarkedIsSettledForGood(session: string, maxRetries: Option<nat>, l: Ledger, es: seq<Event>, n: nat, k: nat)
    requires Valid(l) && MarkedBy(Scene(New(session, maxRetries), l), es, n, k)
    ensures var x, p := Run(Scene(New(session, maxRetries), l), es).value,
                        Run(Scene(New(session, maxRetries), l), es[..n]).value.s.polls[k];
            && k < |x.s.polls| && x.s.polls[k] == p
            && forall e :: e in p.page ==>
                 Settled(x.l, e) && forall m :: k < m < |x.s.polls| ==> e.id !in Ids(x.s.polls[m].page)
  {
    var first := Scene(New(session, maxRetries), l);
    var x := Run(first, es).value;
    RunKeepsMarks(first, es);
    MarkedPollsStay(first, es, n, k);
    var p := x.s.polls[k];
    assert PageOk(x.l, p);
    forall e, m | e in p.page && k < m < |x.s.polls| ensures e.id !in Ids(x.s.polls[m].page) {
      assert Apart(p, x.s.polls[m]);
    }
  }

  /** None of the polls from the k-th on processed the message. */
  lemma NotProcessedFrom(polls: seq<Poll>, k: nat, i: nat)
    requires k < |polls| && EntriesAscending(polls[k].page) && polls[k].done <= i < |polls[k].page|
    requires forall m :: k < m < |polls| ==> polls[k].page[i].id !in Ids(polls[m].page)
    ensures polls[k].page[i].id !in Ids(Succeeded(polls[k..]))
  {
    var e := polls[k].page[i];
    forall f | f in Succeeded(polls[k..]) ensures f.id != e.id {
      var j, m := SucceededWhere(polls[k..], f);
      assert polls[k..][j] == polls[k + j] && f in polls[k + j].page;
      if j > 0 {
        assert f.id in Ids(polls[k + j].page);
      }
    }
  }

  /**
   What a page on which a callback raised held from that message on is lost once the page is marked. However the run
   goes on, restarts included, no such message is pending again, and neither that poll nor any later one processes it;
   and one subscriber alone has not processed it before either.
   */
  lemma RaisedAndMarkedIsLost(
    session: string, maxRetries: Option<nat>, l: Ledger, es: seq<Event>, n: nat, k: nat, i: nat)
    requires Valid(l) && MarkedBy(Scene(New(session, maxRetries), l), es, n, k)
    requires var p := Run(Scene(New(session, maxRetries), l), es[..n]).value.s.polls[k];
             RaisedAndMarked(p) && p.done <= i < |p.page|
    ensures var x, e := Run(Scene(New(session, maxRetries), l), es).value,
                        Run(Scene(New(session, maxRetries), l), es[..n]).value.s.polls[k].page[i];
            && k < |x.s.polls| && Settled(x.l, e)
            && e.id !in Ids(Succeeded(x.s.polls[k..]))
            && (Restart !in es ==> e.id !in Ids(Succeeded(x.s.polls)))
  {
    var first := Scene(New(session, maxRetries), l);
    var x := Run(first, es).value;
    MarkedIsSettledForGood(session, maxRetries, l, es, n, k);
    RunKeepsMarks(first, es);
    assert PageOk(x.l, x.s.polls[k]);
    assert x.s.polls[k].page[i] in x.s.polls[k].page;
    NotProcessedFrom(x.s.polls, k, i);
    if Restart !in es {
      RunKeepsInv(session, maxRetries, l, es);
      NotAmongSuccesses(x, k, i);
    }
  }

  // ---- A run that loses two messages ----

  lemma Extend(first: Scene, es: seq<Event>, e: Event) returns (es': seq<Event>)
    requires Run(first, es).Some? && Step(Run(first, es).value, e).Some?
    ensures es' == es + [e] && Run(first, es') == Step(Run(first, es).value, e)
  {
    es' := es + [e];
    assert es'[..|es|] == es;
  }

  function TwoRows(a: Message, b: Message, status: Status): Ledger {
    Ledger([Cell(1, a, status), Cell(2, b, status)], 3)
  }

  lemma BothAreFetched(a: Message, b: Message)
    requires a.sessionId == b.sessionId
    ensures FetchAfter(TwoRows(a, b, Live(None)), a.sessionId, 0, PAGE) == [Entry(1, a), Entry(2, b)]
  {
    var c, d := Cell(1, a, Live(None)), Cell(2, b, Live(None));
    assert [c, d][1..] == [d] && [d][1..] == [];
    assert Between([d], a.sessionId, 0, None) == [d.AsEntry()] + Between([], a.sessionId, 0, None);
    assert Between([c, d], a.sessionId, 0, None) == [c.AsEntry()] + Between([d], a.sessionId, 0, None);
  }

  lemma BothAreMarked(a: Message, b: Message, page: seq<Entry>, now: Utc)
    requires page == [Entry(1, a), Entry(2, b)]
    ensures MarkDelivered(TwoRows(a, b, Live(None)), Ids(page), now) == TwoRows(a, b, Live(Some(now)))
  {
    assert page[0] in page && page[1] in page;
    assert 1 in Ids(page) && 2 in Ids(page);
  }

  /** That happens: a table with two pending rows, a callback that raises on the first, and a mark that goes through
      leave both rows marked and neither processed. */
  lemma RaiseOnFirstLosesPage(a: Message, b: Message, now: Utc) returns (es: seq<Event>)
    requires a.sessionId == b.sessionId
    ensures var r := Run(Scene(New(a.sessionId, None), TwoRows(a, b, Live(None))), es);
            && Restart !in es && r.Some? && r.value.s.phase == Idle
            && r.value.l == TwoRows(a, b, Live(Some(now)))
            && Succeeded(r.value.s.polls) == []
  {
    var l := TwoRows(a, b, Live(None));
    var first := Scene(New(a.sessionId, None), l);
    BothAreFetched(a, b);
    var page := [Entry(1, a), Entry(2, b)];
    es := Extend(first, [], Start);
    es := Extend(first, es, Begin);
    es := Extend(first, es, Fetched);
    es := Extend(first, es, Round(false));
    assert Current(Run(first, es).value.s) == Poll(page, 0, true, false);
    es := Extend(first, es, EndPage);
    BothAreMarked(a, b, page, now);
    es := Extend(first, es, Marked(now));
    var polls := Run(first, es).value.s.polls;
    assert polls == [Poll(page, 0, true, true)];
    assert polls[..0] == [] && page[..0] == [];
  }
}
