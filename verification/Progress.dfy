/**
 How fast a subscriber gets past a row, whatever else happens to the table.

 Take any id handed out by some moment, and count the session's pending rows between the cursor and that id. Inserts
 only come after it, marks and deletes only make the count smaller, and each successful fetch takes off a page.
 */
module Progress {
  import opened Wrappers
  import opened Ledgers
  import opened Subscription

  /** The pending rows past the cursor, up to the id. */
  function Backlog(s: Sub, l: Ledger, id: int): seq<Entry> {
    Between(l.cells, s.session, s.last, Some(id))
  }

  function Members(es: seq<Entry>): set<Entry> {
    set e | e in es
  }

  /** Those among them that the page in hand does not cover. */
  function Left(s: Sub, l: Ledger, id: int): set<Entry> {
    Members(Backlog(s, l, id)) - Members(s.page)
  }

  lemma {:induction false} AscendingSize(es: seq<Entry>)
    requires EntriesAscending(es)
    ensures |Members(es)| == |es|
  {
    if es == [] {
      assert Members(es) == {};
    } else {
      var n := |es| - 1;
      AscendingSize(es[..n]);
      assert Members(es) == Members(es[..n]) + {es[n]};
      assert es[n] !in es[..n];
    }
  }

  lemma SubsetSize(a: set<Entry>, b: set<Entry>)
    requires a <= b
    ensures |a| <= |b|
  {
    assert b == a + (b - a);
  }

  lemma DifferenceSize(a: set<Entry>, b: set<Entry>)
    requires b <= a
    ensures |a - b| == |a| - |b|
  {
    assert a == (a - b) + b;
  }

  /** A change of the table adds nothing up to an id already handed out. */
  lemma ChangeAddsNothing(s: Sub, l: Ledger, l': Ledger, id: int, e: Entry)
    requires Valid(l) && Valid(l') && Evolves(l, l') && id < l.nextId && e in Backlog(s, l', id)
    ensures e in Backlog(s, l, id)
  {
    BetweenMembers(l'.cells, s.session, s.last, Some(id), e);
    BetweenMembers(l.cells, s.session, s.last, Some(id), e);
    var i :| 0 <= i < |l'.cells| && Selected(l'.cells[i], s.session, s.last, Some(id), e);
    assert i < |l.cells|;
    assert l'.cells[i].AsEntry() == l.cells[i].AsEntry() && Moves(l.cells[i].status, l'.cells[i].status);
    assert Selected(l.cells[i], s.session, s.last, Some(id), e);
  }

  lemma ChangeKeepsLeft(s: Sub, l: Ledger, l': Ledger, id: int)
    requires Valid(l) && Valid(l') && Evolves(l, l') && id < l.nextId
    ensures |Left(s, l', id)| <= |Left(s, l, id)|
  {
    forall e | e in Left(s, l', id) ensures e in Left(s, l, id) {
      ChangeAddsNothing(s, l, l', id, e);
    }
    SubsetSize(Left(s, l', id), Left(s, l, id));
  }

  /** Raising the cursor drops rows from the backlog and adds none. */
  lemma DeliverKeepsLeft(s: Sub, l: Ledger, id: int)
    requires s.page != [] && s.last < s.page[0].id
    ensures |Left(Delivered(s), l, id)| <= |Left(s, l, id)|
  {
    var t := Delivered(s);
    forall e | e in Left(t, l, id) ensures e in Left(s, l, id) {
      BetweenMembers(l.cells, s.session, t.last, Some(id), e);
      BetweenMembers(l.cells, s.session, s.last, Some(id), e);
      var i :| 0 <= i < |l.cells| && Selected(l.cells[i], s.session, t.last, Some(id), e);
      assert Selected(l.cells[i], s.session, s.last, Some(id), e);
      assert e != s.page[0] && s.page == [s.page[0]] + t.page;
    }
    SubsetSize(Left(t, l, id), Left(s, l, id));
  }

  lemma BacklogCell(s: Sub, l: Ledger, id: int, e: Entry) returns (i: nat)
    requires e in Backlog(s, l, id)
    ensures i < |l.cells| && l.cells[i].Pending(s.session) && s.last < l.cells[i].id <= id && l.cells[i].AsEntry() == e
  {
    BetweenMembers(l.cells, s.session, s.last, Some(id), e);
    i :| 0 <= i < |l.cells| && Selected(l.cells[i], s.session, s.last, Some(id), e);
  }

  /** If a page misses any of the backlog it is full, and all of it is backlog. */
  lemma MissedMeansFull(s: Sub, l: Ledger, id: int, limit: nat, e: Entry)
    requires Valid(l) && e in Backlog(s, l, id) && e !in FetchAfter(l, s.session, s.last, limit)
    ensures |FetchAfter(l, s.session, s.last, limit)| == limit
    ensures Members(FetchAfter(l, s.session, s.last, limit)) <= Members(Backlog(s, l, id))
  {
    var page := FetchAfter(l, s.session, s.last, limit);
    var i := BacklogCell(s, l, id, e);
    FetchIsExact(l, s.session, s.last, limit);
    assert !InPage(l, s.session, s.last, limit, page, i);
    forall f | f in page ensures f in Backlog(s, l, id) {
      PageRowIsBacklog(s, l, id, page, f);
    }
  }

  lemma PageRowIsBacklog(s: Sub, l: Ledger, id: int, page: seq<Entry>, f: Entry)
    requires page <= Eligible(l.cells, s.session, s.last) && EntriesAscending(page)
    requires f in page && page[|page| - 1].id <= id
    ensures f in Backlog(s, l, id)
  {
    var k :| 0 <= k < |page| && page[k] == f;
    assert f.id <= page[|page| - 1].id;
    BetweenMembers(l.cells, s.session, s.last, None, f);
    BetweenMembers(l.cells, s.session, s.last, Some(id), f);
    var i :| 0 <= i < |l.cells| && Selected(l.cells[i], s.session, s.last, None, f);
    assert Selected(l.cells[i], s.session, s.last, Some(id), f);
  }

  /** A successful fetch covers the whole backlog, or a whole page of it. */
  lemma FetchTakesAPage(s: Sub, l: Ledger, id: int, limit: nat)
    requires Valid(l) && s.page == []
    ensures var t := s.(page := FetchAfter(l, s.session, s.last, limit));
            |Left(t, l, id)| == 0 || |Left(t, l, id)| + limit <= |Left(s, l, id)|
  {
    var page := FetchAfter(l, s.session, s.last, limit);
    var all := Members(Backlog(s, l, id));
    assert Members(s.page) == {};
    if e :| e in all && e !in page {
      MissedMeansFull(s, l, id, limit, e);
      FetchIsExact(l, s.session, s.last, limit);
      AscendingSize(page);
      DifferenceSize(all, Members(page));
    } else {
      assert all - Members(page) == {};
    }
  }

  /** What is still to be covered after `fetches` successful fetches. */
  function Rest(backlog: nat, fetches: int): int {
    if backlog <= PAGE * fetches then 0 else backlog - PAGE * fetches
  }

  lemma OwnStepTakes(s: Sub, l: Ledger, e: Event, id: int)
    requires Inv(s, l) && Step(s, l, e).Some? && e != Fetched
    ensures var t := Step(s, l, e).value; |Left(t, l, id)| <= |Left(s, l, id)| && |t.fetches| == |s.fetches|
  {
    if e == Deliver {
      DeliverKeepsInv(s, l);
      DeliverKeepsLeft(s, l, id);
    } else {
      ControlOnly(s, l, e);
    }
  }

  lemma FetchTakes(s: Sub, l: Ledger, id: int)
    requires Inv(s, l) && s.phase.Fetching?
    ensures var t := Step(s, l, Fetched).value;
            && |t.fetches| == |s.fetches| + 1
            && (|Left(t, l, id)| == 0 || |Left(t, l, id)| + PAGE <= |Left(s, l, id)|)
  {
    assert s.page == [];
    FetchTakesAPage(s, l, id, s.phase.limit);
    var t, page := Step(s, l, Fetched).value, FetchAfter(l, s.session, s.last, s.phase.limit);
    assert Left(t, l, id) == Left(s.(page := page), l, id);
  }

  /** From x to y the successful fetches took off what they had to. */
  ghost predicate Taken(x: Scene, y: Scene, id: int) {
    && id < y.l.nextId && |x.s.fetches| <= |y.s.fetches|
    && |Left(y.s, y.l, id)| <= Rest(|Backlog(x.s, x.l, id)|, |y.s.fetches| - |x.s.fetches|)
  }

  lemma NothingTakenYet(x: Scene, id: int)
    requires Valid(x.l) && x.s.page == [] && id < x.l.nextId
    ensures Taken(x, x, id)
  {
    BetweenAscends(x.l.cells, x.s.session, x.s.last, Some(id));
    AscendingSize(Backlog(x.s, x.l, id));
    assert Members(x.s.page) == {};
  }

  lemma FetchStepTakes(x: Scene, y: Scene, id: int)
    requires Taken(x, y, id) && Inv(y.s, y.l) && Play(y, Own(Fetched)).Some?
    ensures Taken(x, Play(y, Own(Fetched)).value, id)
  {
    FetchTakes(y.s, y.l, id);
  }

  lemma OtherMoveTakes(x: Scene, y: Scene, m: Move, id: int)
    requires Taken(x, y, id) && Inv(y.s, y.l) && Play(y, m).Some? && m != Own(Fetched)
    ensures Taken(x, Play(y, m).value, id)
  {
    match m {
      case Own(e) => OwnStepTakes(y.s, y.l, e, id);
      case Changed(l) => ChangeKeepsLeft(y.s, y.l, l, id);
      case Raised => assert Left(y.s.(stop := true), y.l, id) == Left(y.s, y.l, id);
    }
  }

  lemma {:induction false} RunTakes(mode: Mode, session: string, l: Ledger, ms: seq<Move>, n: nat, x: Scene, id: int)
    requires Valid(l) && n <= |ms| && Run(mode, session, l, ms[..n]) == Some(x) && Run(mode, session, l, ms).Some?
    requires x.s.page == [] && id < x.l.nextId
    ensures Taken(x, Run(mode, session, l, ms).value, id)
    decreases |ms|
  {
    if n == |ms| {
      assert ms[..n] == ms;
      RunKeepsInv(mode, session, l, ms);
      NothingTakenYet(x, id);
    } else {
      var k := |ms| - 1;
      assert ms[..k][..n] == ms[..n];
      RunTakes(mode, session, l, ms[..k], n, x, id);
      RunKeepsInv(mode, session, l, ms[..k]);
      var y := Run(mode, session, l, ms[..k]).value;
      if ms[k] == Own(Fetched) {
        FetchStepTakes(x, y, id);
      } else {
        OtherMoveTakes(x, y, ms[k], id);
      }
    }
  }

  /** With no backlog up to a row's id, the cursor is past the row or the row is not pending. */
  lemma NoBacklog(s: Sub, l: Ledger, i: nat)
    requires i < |l.cells| && l.cells[i].msg.sessionId == s.session && s.page == [] && Left(s, l, l.cells[i].id) == {}
    ensures l.cells[i].id <= s.last || l.cells[i].status != Live(None)
  {
    var e, id := l.cells[i].AsEntry(), l.cells[i].id;
    assert e !in Left(s, l, id) && e !in Members(s.page);
    BetweenMembers(l.cells, s.session, s.last, Some(id), e);
    assert s.last < id && l.cells[i].status == Live(None) ==> Selected(l.cells[i], s.session, s.last, Some(id), e);
  }

  /**
   A bound on the polls it takes to get past a row, under any inserts, marks, deletes and failed fetches. Take a row
   with a backlog of b pending rows between the cursor and it, itself included. After b / 100 successful fetches,
   rounded up, and their callbacks, the cursor is past the row, or the row has been marked or deleted.
   */
  lemma RowIsPassed(mode: Mode, session: string, l: Ledger, ms: seq<Move>, n: nat, i: nat)
    requires Valid(l) && n <= |ms| && Run(mode, session, l, ms[..n]).Some? && Run(mode, session, l, ms).Some?
    requires var x, y := Run(mode, session, l, ms[..n]).value, Run(mode, session, l, ms).value;
             && x.s.page == [] && y.s.page == []
             && i < |x.l.cells| && x.l.cells[i].msg.sessionId == x.s.session
             && PAGE * (|y.s.fetches| - |x.s.fetches|) >= |Backlog(x.s, x.l, x.l.cells[i].id)|
    ensures var x, y := Run(mode, session, l, ms[..n]).value, Run(mode, session, l, ms).value;
            && i < |y.l.cells| && y.l.cells[i].AsEntry() == x.l.cells[i].AsEntry()
            && (x.l.cells[i].id <= y.s.last || y.l.cells[i].status != Live(None))
  {
    var x, y := Run(mode, session, l, ms[..n]).value, Run(mode, session, l, ms).value;
    RunKeepsInv(mode, session, l, ms[..n]);
    RunTakes(mode, session, l, ms, n, x, x.l.cells[i].id);
    RunEvolves(mode, session, l, ms, n);
    NoBacklog(y.s, y.l, i);
  }

  lemma MoveEvolves(x: Scene, m: Move)
    requires Play(x, m).Some?
    ensures Evolves(x.l, Play(x, m).value.l) && Play(x, m).value.s.session == x.s.session
  {
    EvolvesReflexive(x.l);
    if m.Own? {
      StepKeepsIdentity(x.s, x.l, m.e);
    }
  }

  lemma {:induction false} RunEvolves(mode: Mode, session: string, l: Ledger, ms: seq<Move>, n: nat)
    requires n <= |ms| && Run(mode, session, l, ms[..n]).Some? && Run(mode, session, l, ms).Some?
    ensures var x, y := Run(mode, session, l, ms[..n]).value, Run(mode, session, l, ms).value;
            Evolves(x.l, y.l) && y.s.session == x.s.session
    decreases |ms|
  {
    var x := Run(mode, session, l, ms[..n]).value;
    if n == |ms| {
      assert ms[..n] == ms;
      EvolvesReflexive(x.l);
    } else {
      var k := |ms| - 1;
      assert ms[..k][..n] == ms[..n];
      RunEvolves(mode, session, l, ms[..k], n);
      var y := Run(mode, session, l, ms[..k]).value;
      MoveEvolves(y, ms[k]);
      EvolvesTransitive(x.l, y.l, Play(y, ms[k]).value.l);
    }
  }
}
