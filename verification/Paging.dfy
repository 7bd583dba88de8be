/** Whole polls of a quiet table: pages of 100 add up to the unpaged query. */
module Paging {
  import opened Wrappers
  import opened Ledgers
  import opened Subscription

  /** The callbacks for the whole page, then the end of the page. */
  function Drain(s: Sub): Sub
    decreases |s.page|
  {
    if s.page == [] then s.(phase := AfterPage(s)) else Drain(Delivered(s))
  }

  /** A successful fetch and all of its callbacks. */
  function Poll(s: Sub, l: Ledger): Sub
    requires s.phase.Fetching?
  {
    Drain(Step(s, l, Fetched).value)
  }

  /** `k` successful turns of the polling loop. */
  function Polls(s: Sub, l: Ledger, k: nat): Sub {
    if k == 0 then s else Poll(Polls(s, l, k - 1).(phase := Fetching(PAGE)), l)
  }

  /** The cursor after the first `m` of the rows have been delivered. */
  function Cursor(rows: seq<Entry>, m: nat, after: int): int
    requires m <= |rows|
  {
    if m == 0 then after else rows[m - 1].id
  }

  lemma {:induction false} DrainDeliversPage(s: Sub)
    ensures var d := Drain(s);
            && d == s.(log := s.log + s.page, page := [], phase := d.phase, last := Cursor(s.page, |s.page|, s.last))
            && d.phase == AfterPage(s)
    decreases |s.page|
  {
    if s.page == [] {
      assert s.log + [] == s.log;
    } else {
      var t := Delivered(s);
      DrainDeliversPage(t);
      assert t.log + t.page == s.log + s.page;
    }
  }

  lemma {:induction false} EligiblePast(cells: seq<Cell>, session: string, after: int, m: nat)
    requires Ascending(cells) && m <= |Eligible(cells, session, after)|
    ensures var rows := Eligible(cells, session, after);
            Eligible(cells, session, Cursor(rows, m, after)) == rows[m..]
    decreases m
  {
    if m == 0 {
    } else {
      var rows := Eligible(cells, session, after);
      EligiblePast(cells, session, after, m - 1);
      var c := Cursor(rows, m - 1, after);
      assert Eligible(cells, session, c)[0] == rows[m - 1];
      Advance(cells, session, c, c);
    }
  }

  /** `t` is `s` after delivering the first `m` of `rows`. */
  ghost predicate Paged(s: Sub, t: Sub, rows: seq<Entry>, m: nat)
    requires m <= |rows|
  {
    t.log == s.log + rows[..m] && t.last == Cursor(rows, m, s.last) && t.page == [] && t.session == s.session
  }

  lemma OnePoll(s: Sub, l: Ledger, limit: nat)
    requires s.page == []
    ensures var rows := Eligible(l.cells, s.session, s.last);
            Paged(s, Poll(s.(phase := Fetching(limit)), l), rows, Min(limit, |rows|))
  {
    DrainDeliversPage(Step(s.(phase := Fetching(limit)), l, Fetched).value);
  }

  lemma PagesAdd(s: Sub, t: Sub, u: Sub, rows: seq<Entry>, m: nat, n: nat)
    requires m + n <= |rows| && Paged(s, t, rows, m) && Paged(t, u, rows[m..], n)
    ensures Paged(s, u, rows, m + n)
  {
    assert rows[m..][..n] == rows[m..m + n];
    assert rows[..m] + rows[m..m + n] == rows[..m + n];
    assert (s.log + rows[..m]) + rows[m..m + n] == s.log + rows[..m + n];
  }

  lemma NextPage(s: Sub, t: Sub, l: Ledger, m: nat)
    requires Valid(l) && m <= |Eligible(l.cells, s.session, s.last)|
    requires Paged(s, t, Eligible(l.cells, s.session, s.last), m)
    ensures var rows := Eligible(l.cells, s.session, s.last);
            Paged(s, Poll(t.(phase := Fetching(PAGE)), l), rows, Min(m + PAGE, |rows|))
  {
    EligiblePast(l.cells, s.session, s.last, m);
    OnePoll(t, l, PAGE);
    var rows := Eligible(l.cells, s.session, s.last);
    PagesAdd(s, t, Poll(t.(phase := Fetching(PAGE)), l), rows, m, Min(PAGE, |rows| - m));
  }

  /** After `k` successful polls of an unchanging table exactly the first min(n, 100k) of the n eligible rows have
      been delivered, and the cursor is at the last of them; so ceil(n / 100) polls equal one unlimited fetch. */
  lemma {:induction false} PagingRefinesUnpagedQuery(s: Sub, l: Ledger, k: nat)
    requires Valid(l) && s.page == []
    ensures var rows := Eligible(l.cells, s.session, s.last);
            && Paged(s, Polls(s, l, k), rows, Min(PAGE * k, |rows|))
            && (PAGE * k >= |rows| ==> Polls(s, l, k).log == s.log + rows)
    decreases k
  {
    var rows := Eligible(l.cells, s.session, s.last);
    if k > 0 {
      PagingRefinesUnpagedQuery(s, l, k - 1);
      NextPage(s, Polls(s, l, k - 1), l, Min(PAGE * (k - 1), |rows|));
    } else {
      assert s.log + rows[..0] == s.log;
    }
    assert rows[..|rows|] == rows;
  }

  /** A notification that names an id past the cursor triggers a fetch from the cursor, whatever id it names: exactly
      min(100, backlog) rows are delivered. Any other notification changes nothing but sends the loop round. */
  lemma NotificationFetchesFromCursor(s: Sub, l: Ledger, payload: Option<int>)
    requires s.mode.Listening? && s.phase == Waiting && s.page == []
    ensures var t := Step(s, l, Notified(payload)).value;
            var rows := Eligible(l.cells, s.session, s.last);
            if payload.Some? && payload.value > s.last then
              && t.phase.Fetching?
              && Poll(t, l).log == s.log + rows[..Min(100, |rows|)]
              && Poll(t, l).last == Cursor(rows, Min(100, |rows|), s.last)
            else
              t == s.(phase := Checking)
  {
    if payload.Some? && payload.value > s.last {
      OnePoll(s, l, PAGE);
    }
  }
}
