/** Successive Ruby subscribers of one session, each starting from id 0, while marks succeed. */
module RubyRestarts {
  import opened Wrappers
  import opened Timestamps
  import opened Ledgers
  import opened RubySubscriber
  import opened RubyMarks

  /** The polls that are over. */
  function Finished(s: Sub): seq<Poll> {
    if !s.phase.HasPage() || s.polls == [] then s.polls else s.polls[..|s.polls| - 1]
  }

  /** The greatest id handled by the polls. */
  function High(polls: seq<Poll>): int {
    if polls == [] || polls[|polls| - 1].page == [] then 0
    else var p := polls[|polls| - 1].page; p[|p| - 1].id
  }

  ghost predicate CleanPoll(p: Poll) {
    p.Sound() && EntriesAscending(p.page) && forall e :: e in p.page ==> 0 < e.id
  }

  ghost predicate Before(p: Poll, q: Poll) {
    forall e, f :: e in p.page && f in q.page ==> e.id < f.id
  }

  ghost predicate CleanPolls(polls: seq<Poll>) {
    && (forall k :: 0 <= k < |polls| ==> CleanPoll(polls[k]))
    && (forall j, k :: 0 <= j < k < |polls| ==> Before(polls[j], polls[k]))
  }

  ghost predicate NothingPendingUpTo(l: Ledger, session: string, id: int, page: seq<Entry>) {
    forall i :: 0 <= i < |l.cells| && l.cells[i].Pending(session) && l.cells[i].id <= id ==>
      l.cells[i].AsEntry() in page
  }

  ghost predicate NonePendingUpTo(l: Ledger, session: string, id: int) {
    forall i :: 0 <= i < |l.cells| && l.cells[i].Pending(session) ==> id < l.cells[i].id
  }

  /** All that was fetched is done with, so a new subscriber that starts again from id 0 finds only newer rows. */
  ghost predicate CleanInv(x: Scene) {
    var (s, l) := (x.s, x.l);
    && Valid(l)
    && CleanPolls(s.polls)
    && (forall k :: 0 <= k < |Finished(s)| ==> s.polls[k].marked && s.polls[k].Over())
    && 0 <= s.last <= High(s.polls) < l.nextId
    && NonePendingUpTo(l, s.session, High(Finished(s)))
    && (s.phase.HasPage() ==> s.polls != [] && NothingPendingUpTo(l, s.session, High(s.polls), Current(s).page))
    && (s.phase == Marking ==> Current(s).Over())
  }

  lemma PendingStays(l: Ledger, l': Ledger, session: string, id: int, page: seq<Entry>)
    requires Valid(l) && Valid(l') && Evolves(l, l') && NothingPendingUpTo(l, session, id, page) && id < l.nextId
    ensures NothingPendingUpTo(l', session, id, page)
  {
    forall i | 0 <= i < |l'.cells| && l'.cells[i].Pending(session) && l'.cells[i].id <= id
      ensures l'.cells[i].AsEntry() in page
    {
      assert i < |l.cells|;
      assert l'.cells[i].AsEntry() == l.cells[i].AsEntry() && Moves(l.cells[i].status, l'.cells[i].status);
    }
  }

  lemma NonePendingStays(l: Ledger, l': Ledger, session: string, id: int)
    requires Valid(l) && Valid(l') && Evolves(l, l') && NonePendingUpTo(l, session, id) && id < l.nextId
    ensures NonePendingUpTo(l', session, id)
  {
    forall i | 0 <= i < |l'.cells| && l'.cells[i].Pending(session) ensures id < l'.cells[i].id {
      if i < |l.cells| {
        assert l'.cells[i].AsEntry() == l.cells[i].AsEntry() && Moves(l.cells[i].status, l'.cells[i].status);
      }
    }
  }

  lemma HighBounds(polls: seq<Poll>, j: nat, e: Entry)
    requires CleanPolls(polls) && j < |polls| && e in polls[j].page
    ensures 0 < e.id <= High(polls)
  {
    var n := |polls| - 1;
    assert CleanPoll(polls[j]) && CleanPoll(polls[n]);
    var p := polls[n].page;
    assert p[|p| - 1] in p;
    assert j < n ==> Before(polls[j], polls[n]);
  }

  lemma FinishedBelow(s: Sub)
    requires CleanPolls(s.polls)
    ensures High(Finished(s)) <= High(s.polls)
  {
    var n := |Finished(s)| - 1;
    if s.polls != [] {
      var p := s.polls[|s.polls| - 1].page;
      assert CleanPoll(s.polls[|s.polls| - 1]) && p[|p| - 1] in p;
    }
    if n >= 0 {
      var p := s.polls[n].page;
      assert CleanPoll(s.polls[n]) && p[|p| - 1] in p;
      HighBounds(s.polls, n, p[|p| - 1]);
    }
  }

  lemma CleanChange(x: Scene, l: Ledger)
    requires CleanInv(x) && Evolves(x.l, l) && Valid(l)
    ensures CleanInv(Scene(x.s, l))
  {
    FinishedBelow(x.s);
    NonePendingStays(x.l, l, x.s.session, High(Finished(x.s)));
    if x.s.phase.HasPage() {
      PendingStays(x.l, l, x.s.session, High(x.s.polls), Current(x.s).page);
    }
  }

  lemma PageIsNew(l: Ledger, session: string, after: int, high: int, e: Entry)
    requires Valid(l) && NonePendingUpTo(l, session, high) && e in FetchAfter(l, session, after, PAGE)
    ensures high < e.id < l.nextId && after < e.id
  {
    var i := PageIsPending(l, session, after, e);
  }

  lemma PageIsAllUpToItsEnd(l: Ledger, session: string, after: int, high: int)
    requires Valid(l) && after <= high && NonePendingUpTo(l, session, high)
    requires FetchAfter(l, session, after, PAGE) != []
    ensures var page := FetchAfter(l, session, after, PAGE);
            NothingPendingUpTo(l, session, page[|page| - 1].id, page)
  {
    var page := FetchAfter(l, session, after, PAGE);
    FetchIsExact(l, session, after, PAGE);
    forall i | 0 <= i < |l.cells| && l.cells[i].Pending(session) && l.cells[i].id <= page[|page| - 1].id
      ensures l.cells[i].AsEntry() in page
    {
      assert InPage(l, session, after, PAGE, page, i);
    }
  }

  lemma NewPollIsClean(polls: seq<Poll>, q: Poll)
    requires CleanPolls(polls) && CleanPoll(q) && forall e :: e in q.page ==> High(polls) < e.id
    ensures CleanPolls(polls + [q])
  {
    var all := polls + [q];
    forall j, k | 0 <= j < k < |all| ensures Before(all[j], all[k]) {
      if k < |polls| {
        assert Before(polls[j], polls[k]);
      } else {
        forall e | e in polls[j].page ensures e.id <= High(polls) {
          HighBounds(polls, j, e);
        }
      }
    }
  }

  /** What a clean fetch of a page amounts to. */
  lemma FetchedPageIsClean(l: Ledger, session: string, after: int, polls: seq<Poll>, q: Poll)
    requires Valid(l) && CleanPolls(polls) && after <= High(polls) && NonePendingUpTo(l, session, High(polls))
    requires q.page == FetchAfter(l, session, after, PAGE) && q.page != [] && q.Sound()
    requires 0 <= High(polls)
    ensures CleanPolls(polls + [q]) && High(polls) < High(polls + [q]) < l.nextId
    ensures NothingPendingUpTo(l, session, High(polls + [q]), q.page)
  {
    FetchIsExact(l, session, after, PAGE);
    forall e | e in q.page ensures High(polls) < e.id < l.nextId {
      PageIsNew(l, session, after, High(polls), e);
    }
    assert q.page[|q.page| - 1] in q.page;
    NewPollIsClean(polls, q);
    PageIsAllUpToItsEnd(l, session, after, High(polls));
  }

  lemma CleanPageState(s: Sub, l: Ledger, page: seq<Entry>)
    requires CleanInv(Scene(s, l)) && s.phase == Fetching && page != []
    requires var polls := s.polls + [Poll(page, 0, false, false)];
             && CleanPolls(polls) && High(s.polls) < High(polls) < l.nextId
             && NothingPendingUpTo(l, s.session, High(polls), page)
    ensures CleanInv(Scene(WithPage(s, page), l))
  {
    var s' := WithPage(s, page);
    assert Finished(s') == s.polls && Finished(s) == s.polls && Current(s').page == page;
  }

  lemma CleanFetch(s: Sub, l: Ledger)
    requires CleanInv(Scene(s, l)) && s.phase == Fetching
    ensures CleanInv(Scene(WithPage(s, FetchAfter(l, s.session, s.last, PAGE)), l))
  {
    var page := FetchAfter(l, s.session, s.last, PAGE);
    if page == [] {
      CleanFlags(Scene(s, l), s.(phase := Idle));
    } else {
      assert Finished(s) == s.polls;
      FetchedPageIsClean(l, s.session, s.last, s.polls, Poll(page, 0, false, false));
      CleanPageState(s, l, page);
    }
  }

  /** Progress within the current poll leaves the pages alone. */
  lemma SamePages(polls: seq<Poll>, polls': seq<Poll>)
    requires CleanPolls(polls) && |polls'| == |polls|
    requires forall k :: 0 <= k < |polls| ==> polls'[k].page == polls[k].page && polls'[k].Sound()
    ensures CleanPolls(polls') && High(polls') == High(polls)
  {
    forall k | 0 <= k < |polls| ensures CleanPoll(polls'[k]) {
      assert CleanPoll(polls[k]);
    }
    forall j, k | 0 <= j < k < |polls| ensures Before(polls'[j], polls'[k]) {
      assert Before(polls[j], polls[k]);
    }
  }

  lemma CleanRound(x: Scene, ok: bool)
    requires CleanInv(x) && Step(x, Round(ok)).Some?
    ensures CleanInv(Step(x, Round(ok)).value)
  {
    var s, s' := x.s, Step(x, Round(ok)).value.s;
    var n := |s.polls| - 1;
    var p := s.polls[n];
    forall k | 0 <= k <= n ensures CleanPoll(s.polls[k]) {
    }
    HighBounds(s.polls, n, p.page[p.done]);
    SamePages(s.polls, s'.polls);
    assert Finished(s') == Finished(s);
  }

  /** Once the page is marked nothing up to its end is pending. */
  lemma MarkedIsNotPending(l': Ledger, session: string, high: int, page: seq<Entry>)
    requires NothingPendingUpTo(l', session, high, page) && forall e :: e in page ==> Settled(l', e)
    ensures NonePendingUpTo(l', session, high)
  {
    forall i | 0 <= i < |l'.cells| && l'.cells[i].Pending(session) ensures high < l'.cells[i].id {
      assert !Settled(l', l'.cells[i].AsEntry());
    }
  }

  lemma MarkKeepsPolls(polls: seq<Poll>, p: Poll)
    requires CleanPolls(polls) && polls != [] && p == polls[|polls| - 1].(marked := true)
    ensures CleanPolls(polls[|polls| - 1 := p]) && High(polls[|polls| - 1 := p]) == High(polls)
  {
    forall k | 0 <= k < |polls| ensures CleanPoll(polls[k]) {
    }
    SamePages(polls, polls[|polls| - 1 := p]);
  }

  function AfterMark(s: Sub): Sub
    requires s.polls != []
  {
    WithCurrent(s, Current(s).(marked := true)).(phase := Idle, retries := 0)
  }

  /** Between polls the invariant says that everything fetched is done with. */
  lemma CleanBetweenPolls(s: Sub, l: Ledger)
    requires !s.phase.HasPage() && Valid(l) && CleanPolls(s.polls)
    requires forall k :: 0 <= k < |s.polls| ==> s.polls[k].marked && s.polls[k].Over()
    requires 0 <= s.last <= High(s.polls) < l.nextId && NonePendingUpTo(l, s.session, High(s.polls))
    ensures CleanInv(Scene(s, l))
  {
  }

  lemma AllAreDone(s: Sub, l: Ledger)
    requires CleanInv(Scene(s, l)) && s.phase == Marking
    ensures var polls := AfterMark(s).polls; forall k :: 0 <= k < |polls| ==> polls[k].marked && polls[k].Over()
  {
    assert Finished(s) == s.polls[..|s.polls| - 1];
  }

  lemma CleanAfterMark(s: Sub, l: Ledger, l': Ledger)
    requires CleanInv(Scene(s, l)) && s.phase == Marking && Valid(l') && l.nextId <= l'.nextId
    requires NonePendingUpTo(l', s.session, High(s.polls))
    ensures CleanInv(Scene(AfterMark(s), l'))
  {
    MarkKeepsPolls(s.polls, Current(s).(marked := true));
    AllAreDone(s, l);
    CleanBetweenPolls(AfterMark(s), l');
  }

  lemma PageIsSettled(s: Sub, l: Ledger, now: Utc)
    requires CleanInv(Scene(s, l)) && s.phase == Marking
    ensures var l' := MarkDelivered(l, Ids(Current(s).page), now);
            Valid(l') && l'.nextId == l.nextId && NonePendingUpTo(l', s.session, High(s.polls))
  {
    var page := Current(s).page;
    var l' := MarkDelivered(l, Ids(page), now);
    MarkEvolves(l, Ids(page), now);
    PendingStays(l, l', s.session, High(s.polls), page);
    forall e | e in page ensures Settled(l', e) {
      MarkSettles(l, page, now, e);
    }
    MarkedIsNotPending(l', s.session, High(s.polls), page);
  }

  lemma CleanMark(x: Scene, now: Utc)
    requires CleanInv(x) && Step(x, Marked(now)).Some?
    ensures CleanInv(Step(x, Marked(now)).value)
  {
    PageIsSettled(x.s, x.l, now);
    CleanAfterMark(x.s, x.l, Step(x, Marked(now)).value.l);
  }

  lemma CleanFlags(x: Scene, s: Sub)
    requires CleanInv(x) && s == x.s.(running := s.running, retries := s.retries, phase := s.phase, last := s.last)
    requires s.last == x.s.last || s.last == 0
    requires s.phase == x.s.phase || (!s.phase.HasPage() && !x.s.phase.HasPage())
             || (s.phase == Marking && x.s.phase == Processing && Current(x.s).Over())
    ensures CleanInv(Scene(s, x.l))
  {
    assert Finished(s) == Finished(x.s);
  }

  lemma CleanStep(x: Scene, e: Event)
    requires CleanInv(x) && Step(x, e).Some? && e != MarkFailed
    ensures CleanInv(Step(x, e).value)
  {
    match e {
      case Changed(l) => CleanChange(x, l);
      case Fetched => CleanFetch(x.s, x.l);
      case Round(ok) => CleanRound(x, ok);
      case Marked(now) => CleanMark(x, now);
      case MarkFailed => assert false;
      case _ => CleanControl(x, e);
    }
  }

  lemma CleanControl(x: Scene, e: Event)
    requires CleanInv(x) && Step(x, e).Some?
    requires e.Start? || e.Stop? || e.Restart? || e.Begin? || e.FetchFailed? || e.EndPage?
    ensures CleanInv(Step(x, e).value)
  {
    CleanFlags(x, Step(x, e).value.s);
  }

  lemma {:induction false} CleanRun(session: string, maxRetries: Option<nat>, l: Ledger, es: seq<Event>)
    requires Valid(l) && MarkFailed !in es && Run(Scene(New(session, maxRetries), l), es).Some?
    ensures CleanInv(Run(Scene(New(session, maxRetries), l), es).value)
  {
    if es == [] {
    } else {
      CleanRun(session, maxRetries, l, es[..|es| - 1]);
      CleanStep(Run(Scene(New(session, maxRetries), l), es[..|es| - 1]).value, es[|es| - 1]);
    }
  }

  lemma IdsConcat(a: seq<Entry>, b: seq<Entry>)
    ensures Ids(a + b) == Ids(a) + Ids(b)
  {
    forall i | i in Ids(a) + Ids(b) ensures i in Ids(a + b) {
      var e :| (e in a || e in b) && e.id == i;
      assert e in a + b;
    }
  }

  lemma CleanSuccessesBefore(polls: seq<Poll>, d: Entry, e: Entry)
    requires CleanPolls(polls) && polls != []
    requires d in Succeeded(polls[..|polls| - 1]) && e in polls[|polls| - 1].page
    ensures d.id < e.id
  {
    var n := |polls| - 1;
    var k, i := SucceededWhere(polls[..n], d);
    assert polls[..n][k] == polls[k] && polls[k].page[i] == d;
    assert Before(polls[k], polls[n]);
  }

  lemma {:induction false} CleanLogAscends(polls: seq<Poll>)
    requires CleanPolls(polls)
    ensures EntriesAscending(Succeeded(polls))
  {
    if polls == [] {
    } else {
      var n := |polls| - 1;
      assert CleanPoll(polls[n]);
      CleanLogAscends(polls[..n]);
      var a, b := Succeeded(polls[..n]), polls[n].page[..polls[n].done];
      forall d, e | d in a && e in b ensures d.id < e.id {
        CleanSuccessesBefore(polls, d, e);
      }
      AscendingConcat(a, b);
    }
  }

  lemma {:induction false} MarkedIsSucceeded(polls: seq<Poll>)
    requires forall k :: 0 <= k < |polls| ==> polls[k].marked && polls[k].done == |polls[k].page|
    ensures MarkedIds(polls) == Ids(Succeeded(polls))
  {
    if polls == [] {
    } else {
      var n := |polls| - 1;
      MarkedIsSucceeded(polls[..n]);
      assert polls[n].page[..polls[n].done] == polls[n].page;
      IdsConcat(Succeeded(polls[..n]), polls[n].page);
    }
  }

  /** Nobody processed the message on which a callback raised. */
  lemma RaisedIsNotSucceeded(polls: seq<Poll>, k: nat)
    requires CleanPolls(polls) && k < |polls| && polls[k].raised
    ensures polls[k].Sound() && polls[k].page[polls[k].done].id !in Ids(Succeeded(polls))
  {
    assert CleanPoll(polls[k]);
    forall f | f in Succeeded(polls) ensures f.id != polls[k].page[polls[k].done].id {
      SuccessIsAnother(polls, k, f);
    }
  }

  lemma SuccessIsAnother(polls: seq<Poll>, k: nat, f: Entry)
    requires CleanPolls(polls) && k < |polls| && CleanPoll(polls[k]) && polls[k].raised && f in Succeeded(polls)
    ensures f.id != polls[k].page[polls[k].done].id
  {
    var e := polls[k].page[polls[k].done];
    var j, i := SucceededWhere(polls, f);
    if j < k {
      assert Before(polls[j], polls[k]) && f in polls[j].page && e in polls[k].page;
    } else if k < j {
      assert Before(polls[k], polls[j]) && f in polls[j].page && e in polls[k].page;
    }
  }

  lemma MarkedIffNoneRaised(polls: seq<Poll>)
    requires CleanPolls(polls) && forall k :: 0 <= k < |polls| ==> polls[k].marked && polls[k].Over()
    ensures MarkedIds(polls) == Ids(Succeeded(polls)) <==> forall p :: p in polls ==> !p.raised
  {
    if p :| p in polls && p.raised {
      var k :| 0 <= k < |polls| && polls[k] == p;
      RaisedIsNotSucceeded(polls, k);
      MarkedPageIsMarked(polls, k, p.page[p.done]);
    } else {
      forall k | 0 <= k < |polls| ensures polls[k].done == |polls[k].page| {
        assert polls[k] in polls;
      }
      MarkedIsSucceeded(polls);
    }
  }

  /**
   Exactly once across restarts. If marks succeed, then over any sequence of subscribers of a session, each starting
   from id 0, and whichever callbacks raise: the processed messages are strictly increasing in id, so each is processed
   at most once, and between polls no row at or below the last one fetched is still pending. What is marked delivered
   is then exactly what was processed if and only if no callback raised.
   */
  lemma RestartsProcessOnce(session: string, maxRetries: Option<nat>, l: Ledger, es: seq<Event>)
    requires Valid(l) && MarkFailed !in es && Run(Scene(New(session, maxRetries), l), es).Some?
    ensures var x := Run(Scene(New(session, maxRetries), l), es).value;
            && EntriesAscending(Succeeded(x.s.polls))
            && (x.s.phase == Idle ==>
                  && NonePendingUpTo(x.l, x.s.session, High(x.s.polls))
                  && (MarkedIds(x.s.polls) == Ids(Succeeded(x.s.polls)) <==> forall p :: p in x.s.polls ==> !p.raised))
  {
    var x := Run(Scene(New(session, maxRetries), l), es).value;
    CleanRun(session, maxRetries, l, es);
    CleanLogAscends(x.s.polls);
    if x.s.phase == Idle {
      MarkedIffNoneRaised(x.s.polls);
    }
  }
}
