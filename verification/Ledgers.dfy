/**
 The `solid_mcp_messages` table and the statements both backends run on it.

 A ledger keeps one cell for every row ever inserted, in id order, and records what became of it: the table proper
 is the sequence of live cells. Ids are handed out increasingly and never reused after a delete (AUTOINCREMENT, or a
 sequence, with a single committing writer).
 */
module Ledgers {
  import opened Wrappers
  import opened Timestamps

  datatype Message = Message(sessionId: string, eventType: string, data: string, createdAt: Utc)

  /** A row a query returns, and what a callback receives: the id and the columns that never change. */
  datatype Entry = Entry(id: int, msg: Message)

  /** `Deleted` remembers the row's last `delivered_at` and the time of the cleanup that removed it. */
  datatype Status = Live(deliveredAt: Option<Utc>) | Deleted(deliveredAt: Option<Utc>, at: Utc)

  datatype Cell = Cell(id: int, msg: Message, status: Status) {
    /** `WHERE session_id = $1 AND delivered_at IS NULL` on a row that is still there. */
    predicate Pending(session: string) {
      status == Live(None) && msg.sessionId == session
    }

    function AsEntry(): Entry {
      Entry(id, msg)
    }
  }

  datatype Ledger = Ledger(cells: seq<Cell>, nextId: int)

  const EMPTY := Ledger([], 1)

  predicate Ascending(cells: seq<Cell>) {
    forall i, j :: 0 <= i < j < |cells| ==> cells[i].id < cells[j].id
  }

  predicate Valid(l: Ledger) {
    Ascending(l.cells) && l.nextId >= 1 && forall i :: 0 <= i < |l.cells| ==> 0 < l.cells[i].id < l.nextId
  }

  // ---- Statements ----

  /** Ids a committed insert of `n` rows may receive: increasing, and above every id handed out before.
      Gaps are allowed (a failed insert may burn ids). */
  predicate FreshIds(nextId: int, ids: seq<int>, n: nat) {
    && |ids| == n
    && (forall i :: 0 <= i < |ids| ==> nextId <= ids[i])
    && (forall i, j :: 0 <= i < j < |ids| ==> ids[i] < ids[j])
  }

  /** The ids of n new rows, given how many are skipped before each. */
  function HandOut(next: int, skip: nat -> nat, n: nat): (ids: seq<int>)
    ensures |ids| == n
  {
    if n == 0 then []
    else
      var ids := HandOut(next, skip, n - 1);
      ids + [(if n == 1 then next else ids[n - 2] + 1) + skip(n - 1)]
  }

  lemma {:induction false} HandOutIsFresh(next: int, skip: nat -> nat, n: nat)
    ensures FreshIds(next, HandOut(next, skip, n), n)
  {
    if n == 0 {
    } else {
      HandOutIsFresh(next, skip, n - 1);
    }
  }

  function NewCells(msgs: seq<Message>, ids: seq<int>): (cells: seq<Cell>)
    requires |ids| == |msgs|
    ensures |cells| == |msgs|
  {
    seq(|msgs|, i requires 0 <= i < |msgs| => Cell(ids[i], msgs[i], Live(None)))
  }

  /** INSERT of a whole batch: all rows or none. */
  function Insert(l: Ledger, msgs: seq<Message>, ids: seq<int>): Ledger
    requires FreshIds(l.nextId, ids, |msgs|)
  {
    if msgs == [] then l else Ledger(l.cells + NewCells(msgs, ids), ids[|ids| - 1] + 1)
  }

  predicate Inside(id: int, lo: int, hi: Option<int>) {
    lo < id && (hi.Some? ==> id <= hi.value)
  }

  /** The session's pending rows with lo < id (and id <= hi), in id order. */
  function Between(cells: seq<Cell>, session: string, lo: int, hi: Option<int>): seq<Entry> {
    if cells == [] then []
    else (if cells[0].Pending(session) && Inside(cells[0].id, lo, hi) then [cells[0].AsEntry()] else [])
         + Between(cells[1..], session, lo, hi)
  }

  function Eligible(cells: seq<Cell>, session: string, after: int): seq<Entry> {
    Between(cells, session, after, None)
  }

  function Min(a: nat, b: nat): (m: nat)
    ensures m <= a && m <= b && (m == a || m == b)
  {
    if a <= b then a else b
  }

  /** SELECT ... WHERE session_id = $1 AND delivered_at IS NULL AND id > $2 ORDER BY id LIMIT $3. */
  function FetchAfter(l: Ledger, session: string, after: int, limit: nat): seq<Entry> {
    var rows := Eligible(l.cells, session, after);
    rows[..Min(limit, |rows|)]
  }

  function Updated(cells: seq<Cell>, change: Cell -> Cell): (r: seq<Cell>)
    ensures |r| == |cells|
    ensures forall i :: 0 <= i < |cells| ==> r[i] == change(cells[i])
  {
    seq(|cells|, i requires 0 <= i < |cells| => change(cells[i]))
  }

  function MarkCell(c: Cell, ids: set<int>, now: Utc): Cell {
    if c.id in ids && c.status.Live? then c.(status := Live(Some(now))) else c
  }

  /** UPDATE ... SET delivered_at = $1 WHERE id IN (...): also rewrites rows that were already marked. */
  function MarkDelivered(l: Ledger, ids: set<int>, now: Utc): Ledger {
    l.(cells := Updated(l.cells, c => MarkCell(c, ids, now)))
  }

  predicate OldDelivered(c: Cell, now: Utc, retention: nat) {
    && c.status.Live? && c.status.deliveredAt.Some?
    && Nanos(c.status.deliveredAt.value) < Nanos(now) - retention
  }

  predicate OldUndelivered(c: Cell, now: Utc, retention: nat) {
    c.status == Live(None) && Nanos(c.msg.createdAt) < Nanos(now) - retention
  }

  function Erase(c: Cell, now: Utc): Cell
    requires c.status.Live?
  {
    c.(status := Deleted(c.status.deliveredAt, now))
  }

  /** DELETE ... WHERE delivered_at IS NOT NULL AND delivered_at < now - retention. */
  function CleanupDelivered(l: Ledger, now: Utc, retention: nat): Ledger {
    l.(cells := Updated(l.cells, c => if OldDelivered(c, now, retention) then Erase(c, now) else c))
  }

  /** DELETE ... WHERE delivered_at IS NULL AND created_at < now - retention. */
  function CleanupUndelivered(l: Ledger, now: Utc, retention: nat): Ledger {
    l.(cells := Updated(l.cells, c => if OldUndelivered(c, now, retention) then Erase(c, now) else c))
  }

  /** SELECT MAX(id), with NULL read as 0. */
  function MaxId(cells: seq<Cell>): int {
    if cells == [] then 0
    else if cells[|cells| - 1].status.Live? then cells[|cells| - 1].id else MaxId(cells[..|cells| - 1])
  }

  function LiveCount(cells: seq<Cell>): nat {
    if cells == [] then 0 else LiveCount(cells[..|cells| - 1]) + if cells[|cells| - 1].status.Live? then 1 else 0
  }

  /** The rows a DELETE reports as affected. */
  function Removed(before: Ledger, after: Ledger): int {
    LiveCount(before.cells) - LiveCount(after.cells)
  }

  lemma {:induction false} NewRowsAreLive(cells: seq<Cell>, added: seq<Cell>)
    requires forall c :: c in added ==> c.status.Live?
    ensures LiveCount(cells + added) == LiveCount(cells) + |added|
    decreases |added|
  {
    if added == [] {
      assert cells + added == cells;
    } else {
      var n := |added| - 1;
      assert (cells + added)[..|cells + added| - 1] == cells + added[..n];
      NewRowsAreLive(cells, added[..n]);
    }
  }

  lemma {:induction false} SameLiveness(a: seq<Cell>, b: seq<Cell>)
    requires |a| == |b| && forall i :: 0 <= i < |a| ==> (a[i].status.Live? <==> b[i].status.Live?)
    ensures LiveCount(a) == LiveCount(b)
  {
    if a == [] {
    } else {
      SameLiveness(a[..|a| - 1], b[..|b| - 1]);
    }
  }

  /** How many rows satisfy a condition. */
  function Count(cells: seq<Cell>, p: Cell -> bool): nat {
    if cells == [] then 0 else Count(cells[..|cells| - 1], p) + if p(cells[|cells| - 1]) then 1 else 0
  }

  lemma {:induction false} ErasedAreCounted(a: seq<Cell>, b: seq<Cell>, p: Cell -> bool, now: Utc)
    requires |a| == |b| && forall c :: p(c) ==> c.status.Live?
    requires forall i :: 0 <= i < |a| ==> b[i] == if p(a[i]) then Erase(a[i], now) else a[i]
    ensures LiveCount(a) - LiveCount(b) == Count(a, p)
  {
    if a == [] {
    } else {
      ErasedAreCounted(a[..|a| - 1], b[..|a| - 1], p, now);
    }
  }

  /** The rows a cleanup reports are exactly the rows that met its condition. */
  lemma RemovedAreOld(l: Ledger, now: Utc, retention: nat)
    ensures Removed(l, CleanupDelivered(l, now, retention)) == Count(l.cells, c => OldDelivered(c, now, retention))
    ensures Removed(l, CleanupUndelivered(l, now, retention)) == Count(l.cells, c => OldUndelivered(c, now, retention))
  {
    var d, u := (c: Cell) => OldDelivered(c, now, retention), (c: Cell) => OldUndelivered(c, now, retention);
    ErasedAreCounted(l.cells, CleanupDelivered(l, now, retention).cells, d, now);
    ErasedAreCounted(l.cells, CleanupUndelivered(l, now, retention).cells, u, now);
  }

  // ---- How a table may change under a reader ----

  predicate Moves(a: Status, b: Status) {
    && (a.Deleted? ==> b == a)
    && (a.Live? && a.deliveredAt.Some? ==> b != Live(None))
  }

  /** Rows keep their id and content, marks are not withdrawn, deleted rows stay deleted, and new rows get ids above
      every id handed out so far. */
  predicate Evolves(a: Ledger, b: Ledger) {
    && |a.cells| <= |b.cells| && a.nextId <= b.nextId
    && (forall i :: 0 <= i < |a.cells| ==>
          b.cells[i].AsEntry() == a.cells[i].AsEntry() && Moves(a.cells[i].status, b.cells[i].status))
    && (forall i :: |a.cells| <= i < |b.cells| ==> a.nextId <= b.cells[i].id)
  }

  // ---- Row by row ----

  /** An insert keeps every row, adds one unmarked row for each message in order, and leaves no id to be used again. */
  lemma InsertIsExact(l: Ledger, msgs: seq<Message>, ids: seq<int>)
    requires FreshIds(l.nextId, ids, |msgs|)
    ensures var l' := Insert(l, msgs, ids);
            && |l'.cells| == |l.cells| + |msgs|
            && (forall i :: 0 <= i < |l.cells| ==> l'.cells[i] == l.cells[i])
            && (forall i :: 0 <= i < |msgs| ==> l'.cells[|l.cells| + i] == Cell(ids[i], msgs[i], Live(None)))
            && l.nextId <= l'.nextId && forall i :: 0 <= i < |msgs| ==> ids[i] < l'.nextId
  {
  }

  /** A mark gives exactly the surviving rows with a listed id the new time, and leaves every other row as it is. */
  lemma MarkIsExact(l: Ledger, ids: set<int>, now: Utc)
    ensures var l' := MarkDelivered(l, ids, now);
            && |l'.cells| == |l.cells| && l'.nextId == l.nextId
            && forall i :: 0 <= i < |l.cells| ==>
                 if l.cells[i].id in ids && l.cells[i].status.Live?
                 then l'.cells[i] == Cell(l.cells[i].id, l.cells[i].msg, Live(Some(now)))
                 else l'.cells[i] == l.cells[i]
  {
  }

  /** The first delete removes exactly the surviving rows whose mark is older than the retention, and no other. */
  lemma CleanupDeliveredIsExact(l: Ledger, now: Utc, retention: nat)
    ensures var l' := CleanupDelivered(l, now, retention);
            && |l'.cells| == |l.cells| && l'.nextId == l.nextId
            && forall i :: 0 <= i < |l.cells| ==>
                 match l.cells[i].status
                 case Live(Some(d)) =>
                   if Nanos(d) < Nanos(now) - retention
                   then l'.cells[i] == Cell(l.cells[i].id, l.cells[i].msg, Deleted(Some(d), now))
                   else l'.cells[i] == l.cells[i]
                 case _ => l'.cells[i] == l.cells[i]
  {
  }

  /** The second removes exactly the surviving unmarked rows created longer ago than the retention, and no other. */
  lemma CleanupUndeliveredIsExact(l: Ledger, now: Utc, retention: nat)
    ensures var l' := CleanupUndelivered(l, now, retention);
            && |l'.cells| == |l.cells| && l'.nextId == l.nextId
            && forall i :: 0 <= i < |l.cells| ==>
                 if l.cells[i].status == Live(None) && Nanos(l.cells[i].msg.createdAt) < Nanos(now) - retention
                 then l'.cells[i] == Cell(l.cells[i].id, l.cells[i].msg, Deleted(None, now))
                 else l'.cells[i] == l.cells[i]
  {
  }

  lemma EvolvesReflexive(a: Ledger)
    ensures Evolves(a, a)
  {
  }

  lemma EvolvesTransitive(a: Ledger, b: Ledger, c: Ledger)
    requires Evolves(a, b) && Evolves(b, c)
    ensures Evolves(a, c)
  {
    forall i | 0 <= i < |a.cells|
      ensures c.cells[i].AsEntry() == a.cells[i].AsEntry() && Moves(a.cells[i].status, c.cells[i].status)
    {
      assert b.cells[i].AsEntry() == a.cells[i].AsEntry();
    }
    forall i | |a.cells| <= i < |c.cells| ensures a.nextId <= c.cells[i].id {
      if i < |b.cells| {
        assert c.cells[i].AsEntry() == b.cells[i].AsEntry();
      }
    }
  }

  lemma InsertEvolves(l: Ledger, msgs: seq<Message>, ids: seq<int>)
    requires Valid(l) && FreshIds(l.nextId, ids, |msgs|)
    ensures Valid(Insert(l, msgs, ids)) && Evolves(l, Insert(l, msgs, ids))
  {
  }

  lemma MarkEvolves(l: Ledger, ids: set<int>, now: Utc)
    requires Valid(l)
    ensures Valid(MarkDelivered(l, ids, now)) && Evolves(l, MarkDelivered(l, ids, now))
  {
  }

  lemma CleanupEvolves(l: Ledger, now: Utc, retention: nat)
    requires Valid(l)
    ensures Valid(CleanupDelivered(l, now, retention)) && Evolves(l, CleanupDelivered(l, now, retention))
    ensures Valid(CleanupUndelivered(l, now, retention)) && Evolves(l, CleanupUndelivered(l, now, retention))
  {
  }

  /** Every live row is at most MAX(id). */
  lemma {:induction false} MaxIdBounds(cells: seq<Cell>, i: nat)
    requires Ascending(cells) && i < |cells| && cells[i].status.Live?
    ensures cells[i].id <= MaxId(cells)
  {
    var n := |cells| - 1;
    if cells[n].status.Live? {
    } else {
      MaxIdBounds(cells[..n], i);
    }
  }

  /** MAX(id) is the id of a row that is there, or 0 when none is. */
  lemma {:induction false} MaxIdIsARow(cells: seq<Cell>)
    ensures if forall i :: 0 <= i < |cells| ==> cells[i].status.Deleted? then MaxId(cells) == 0
            else exists i :: 0 <= i < |cells| && cells[i].status.Live? && cells[i].id == MaxId(cells)
  {
    if cells == [] {
    } else {
      var n := |cells| - 1;
      MaxIdIsARow(cells[..n]);
      if cells[n].status.Live? {
        assert cells[n].id == MaxId(cells);
      } else if i :| 0 <= i < n && cells[..n][i].status.Live? && cells[..n][i].id == MaxId(cells[..n]) {
        assert cells[i].status.Live? && cells[i].id == MaxId(cells);
      }
    }
  }

  lemma MaxIdIsHandedOut(l: Ledger)
    requires Valid(l)
    ensures 0 <= MaxId(l.cells) < l.nextId
  {
    MaxIdIsARow(l.cells);
  }

  // ---- What a fetch returns ----

  ghost predicate EntriesAscending(es: seq<Entry>) {
    forall i, j :: 0 <= i < j < |es| ==> es[i].id < es[j].id
  }

  ghost predicate Selected(c: Cell, session: string, lo: int, hi: Option<int>, e: Entry) {
    c.Pending(session) && Inside(c.id, lo, hi) && c.AsEntry() == e
  }

  /** Exactly the pending rows of the session in the range. */
  lemma {:induction false} BetweenMembers(cells: seq<Cell>, session: string, lo: int, hi: Option<int>, e: Entry)
    ensures e in Between(cells, session, lo, hi) <==>
            exists i :: 0 <= i < |cells| && Selected(cells[i], session, lo, hi, e)
  {
    if cells == [] {
    } else {
      BetweenMembers(cells[1..], session, lo, hi, e);
      if e in Between(cells[1..], session, lo, hi) {
        var i :| 0 <= i < |cells[1..]| && Selected(cells[1..][i], session, lo, hi, e);
        assert Selected(cells[i + 1], session, lo, hi, e);
      }
      if i :| 0 < i < |cells| && Selected(cells[i], session, lo, hi, e) {
        assert Selected(cells[1..][i - 1], session, lo, hi, e);
      }
    }
  }

  lemma {:induction false} BetweenAscends(cells: seq<Cell>, session: string, lo: int, hi: Option<int>)
    requires Ascending(cells)
    ensures EntriesAscending(Between(cells, session, lo, hi))
    ensures forall e :: e in Between(cells, session, lo, hi) ==> Inside(e.id, lo, hi) && e.msg.sessionId == session
  {
    if cells == [] {
    } else {
      BetweenAscends(cells[1..], session, lo, hi);
      forall e | e in Between(cells[1..], session, lo, hi) ensures cells[0].id < e.id {
        BetweenMembers(cells[1..], session, lo, hi, e);
      }
    }
  }

  /** Below the first id a cursor excludes nothing and an upper bound admits nothing. */
  lemma {:induction false} BelowAll(cells: seq<Cell>, session: string, a: int, b: int)
    requires forall i :: 0 <= i < |cells| ==> a < cells[i].id && b < cells[i].id
    ensures Eligible(cells, session, a) == Eligible(cells, session, b)
    ensures Between(cells, session, a, Some(b)) == []
  {
    if cells == [] {
    } else {
      BelowAll(cells[1..], session, a, b);
    }
  }

  lemma {:induction false} EmptyRange(cells: seq<Cell>, session: string, a: int)
    ensures Between(cells, session, a, Some(a)) == []
  {
    if cells == [] {
    } else {
      EmptyRange(cells[1..], session, a);
    }
  }

  /** Moving a cursor from `a` to the first row past it takes exactly that row off the pending rows and adds exactly
      that row to the range behind the cursor. */
  lemma {:induction false} Advance(cells: seq<Cell>, session: string, lo: int, a: int)
    requires Ascending(cells) && lo <= a && Eligible(cells, session, a) != []
    ensures var e := Eligible(cells, session, a)[0];
            && a < e.id
            && Eligible(cells, session, e.id) == Eligible(cells, session, a)[1..]
            && Between(cells, session, lo, Some(e.id)) == Between(cells, session, lo, Some(a)) + [e]
  {
    var c, t := cells[0], cells[1..];
    var e := Eligible(cells, session, a)[0];
    if c.Pending(session) && a < c.id {
      BelowAll(t, session, a, c.id);
      BelowAll(t, session, lo, c.id);
      BelowAll(t, session, lo, a);
    } else {
      Advance(t, session, lo, a);
      BetweenMembers(t, session, a, None, e);
    }
  }

  ghost predicate InPage(l: Ledger, session: string, after: int, limit: nat, page: seq<Entry>, i: nat)
    requires i < |l.cells|
  {
    && l.cells[i].Pending(session) && after < l.cells[i].id
    && (|page| < limit || (page != [] && l.cells[i].id <= page[|page| - 1].id))
  }

  /** The i-th row is among the eligible ones exactly when it is pending and past the cursor. */
  lemma EligibleMember(l: Ledger, session: string, after: int, i: nat)
    requires Valid(l) && i < |l.cells|
    ensures l.cells[i].AsEntry() in Eligible(l.cells, session, after) <==>
            l.cells[i].Pending(session) && after < l.cells[i].id
  {
    var e := l.cells[i].AsEntry();
    BetweenMembers(l.cells, session, after, None, e);
    assert l.cells[i].Pending(session) && after < l.cells[i].id ==> Selected(l.cells[i], session, after, None, e);
    if j :| 0 <= j < |l.cells| && Selected(l.cells[j], session, after, None, e) {
      assert j == i;
    }
  }

  /** A prefix of an ascending list holds the members up to its last id. */
  lemma PrefixMember(rows: seq<Entry>, n: nat, e: Entry)
    requires EntriesAscending(rows) && n <= |rows| && e in rows
    ensures e in rows[..n] <==> n == |rows| || (n > 0 && e.id <= rows[n - 1].id)
  {
    var k :| 0 <= k < |rows| && rows[k] == e;
    if k < n {
      assert rows[..n][k] == e;
    } else {
      forall m | 0 <= m < n ensures rows[..n][m] != e {
        assert rows[m].id < rows[k].id;
      }
    }
  }

  lemma PageMember(l: Ledger, session: string, after: int, limit: nat, i: nat)
    requires Valid(l) && i < |l.cells|
    ensures var page := FetchAfter(l, session, after, limit);
            l.cells[i].AsEntry() in page <==> InPage(l, session, after, limit, page, i)
  {
    var rows := Eligible(l.cells, session, after);
    var e := l.cells[i].AsEntry();
    BetweenAscends(l.cells, session, after, None);
    EligibleMember(l, session, after, i);
    if e in rows {
      PrefixMember(rows, Min(limit, |rows|), e);
    }
  }

  /** ORDER BY id: the result is strictly increasing; WHERE and LIMIT: it holds exactly the `limit` smallest of the
      pending rows past the cursor. */
  lemma FetchIsExact(l: Ledger, session: string, after: int, limit: nat)
    requires Valid(l)
    ensures var page := FetchAfter(l, session, after, limit);
            && EntriesAscending(page)
            && |page| == Min(limit, |Eligible(l.cells, session, after)|)
            && forall i :: 0 <= i < |l.cells| ==>
                 (l.cells[i].AsEntry() in page <==> InPage(l, session, after, limit, page, i))
  {
    BetweenAscends(l.cells, session, after, None);
    forall i | 0 <= i < |l.cells|
      ensures l.cells[i].AsEntry() in FetchAfter(l, session, after, limit) <==>
                InPage(l, session, after, limit, FetchAfter(l, session, after, limit), i)
    {
      PageMember(l, session, after, limit, i);
    }
  }
}
