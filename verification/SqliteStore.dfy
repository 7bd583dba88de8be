/**
 The SQLite backend over the rows SQLite really stores, with every timestamp as text.

 `InsertBatch` runs the text its builder made through the reading in `Statements`; the cleanups compare text. The
 ledger is the specification: each statement does to the stored rows exactly what the ledger's statement does.
 */
module SqliteStore {
  import opened Wrappers
  import opened Timestamps
  import opened Rfc3339
  import opened Ledgers
  import Batches
  import opened Sql
  import opened Statements

  datatype StoredRow = StoredRow(id: int, sessionId: string, eventType: string, data: string,
                                 createdAt: string, deliveredAt: Option<string>)

  function ShowMark(d: Option<Utc>): Option<string> {
    match d case None => None case Some(u) => Some(ToRfc3339(u))
  }

  function Show(c: Cell): StoredRow
    requires c.status.Live?
  {
    StoredRow(c.id, c.msg.sessionId, c.msg.eventType, c.msg.data,
              ToRfc3339(c.msg.createdAt), ShowMark(c.status.deliveredAt))
  }

  /** The rows that are there. */
  function Shown(cells: seq<Cell>): seq<StoredRow> {
    if cells == [] then [] else ShownOne(cells[0]) + Shown(cells[1..])
  }

  function ShownOne(c: Cell): seq<StoredRow> {
    if c.status.Live? then [Show(c)] else []
  }

  // ---- Statements on the stored rows ----

  function Select(rows: seq<StoredRow>, session: string, after: int): seq<StoredRow> {
    if rows == [] then []
    else (if rows[0].sessionId == session && rows[0].deliveredAt.None? && after < rows[0].id then [rows[0]] else [])
         + Select(rows[1..], session, after)
  }

  /** `parse_from_rfc3339(...).unwrap_or_default()` */
  function Parsed(text: string): Utc {
    match ParseRfc3339(text)
    case Some(u) => u
    case None => Fields(1970, 1, 1, 0, 0, 0, 0)
  }

  /** The row mapping of `fetch_after`. */
  function ToEntry(r: StoredRow): Entry {
    Entry(r.id, Message(r.sessionId, r.eventType, r.data, Parsed(r.createdAt)))
  }

  function Mapped<A, B>(f: A -> B, xs: seq<A>): (ys: seq<B>)
    ensures |ys| == |xs|
  {
    seq(|xs|, i requires 0 <= i < |xs| => f(xs[i]))
  }

  function ToEntries(rows: seq<StoredRow>): (es: seq<Entry>)
    ensures |es| == |rows|
  {
    Mapped(ToEntry, rows)
  }

  function FetchAfterRows(rows: seq<StoredRow>, session: string, after: int, limit: nat): seq<Entry> {
    var found := Select(rows, session, after);
    ToEntries(found[..Min(limit, |found|)])
  }

  lemma OneReadsBack(c: Cell)
    requires c.status.Live?
    ensures ToEntry(Show(c)) == c.AsEntry()
  {
    ParseInvertsPrint(c.msg.createdAt);
  }

  lemma MappedCons<A, B>(f: A -> B, x: A, xs: seq<A>)
    ensures Mapped(f, [x] + xs) == [f(x)] + Mapped(f, xs)
  {
  }

  lemma ToEntriesCons(row: StoredRow, rows: seq<StoredRow>)
    ensures ToEntries([row] + rows) == [ToEntry(row)] + ToEntries(rows)
  {
    MappedCons(ToEntry, row, rows);
  }

  lemma SelectOne(c: Cell, rest: seq<StoredRow>, session: string, after: int)
    ensures ToEntries(Select(ShownOne(c) + rest, session, after))
            == (if c.Pending(session) && after < c.id then [c.AsEntry()] else [])
               + ToEntries(Select(rest, session, after))
  {
    var found := Select(rest, session, after);
    assert [] + found == found && [] + ToEntries(found) == ToEntries(found);
    if c.status.Live? {
      OneReadsBack(c);
      assert (ShownOne(c) + rest)[1..] == rest;
      ToEntriesCons(Show(c), found);
    } else {
      assert ShownOne(c) + rest == rest;
    }
  }

  lemma {:induction false} SelectIsEligible(cells: seq<Cell>, session: string, after: int)
    ensures ToEntries(Select(Shown(cells), session, after)) == Eligible(cells, session, after)
  {
    if cells == [] {
    } else {
      SelectIsEligible(cells[1..], session, after);
      SelectOne(cells[0], Shown(cells[1..]), session, after);
    }
  }

  /** Reading the stored rows back gives the ledger's page: same rows, same order, same instants. */
  lemma FetchReadsBack(l: Ledger, session: string, after: int, limit: nat)
    ensures FetchAfterRows(Shown(l.cells), session, after, limit) == FetchAfter(l, session, after, limit)
  {
    SelectIsEligible(l.cells, session, after);
    var found := Select(Shown(l.cells), session, after);
    var n := Min(limit, |found|);
    assert ToEntries(found[..n]) == ToEntries(found)[..n];
  }

  predicate TextOldDelivered(r: StoredRow, cutoff: string) {
    r.deliveredAt.Some? && TextLess(r.deliveredAt.value, cutoff)
  }

  predicate TextOldUndelivered(r: StoredRow, cutoff: string) {
    r.deliveredAt.None? && TextLess(r.createdAt, cutoff)
  }

  predicate TextOld(r: StoredRow, cutoff: string, marked: bool) {
    if marked then TextOldDelivered(r, cutoff) else TextOldUndelivered(r, cutoff)
  }

  /** DELETE with the condition on marked rows, or the one on unmarked rows. */
  function Keep(rows: seq<StoredRow>, cutoff: string, marked: bool): (kept: seq<StoredRow>)
    ensures |kept| <= |rows|
  {
    if rows == [] then []
    else (if TextOld(rows[0], cutoff, marked) then [] else [rows[0]])
         + Keep(rows[1..], cutoff, marked)
  }

  function Swept(l: Ledger, now: Utc, retention: nat, marked: bool): Ledger {
    if marked then CleanupDelivered(l, now, retention) else CleanupUndelivered(l, now, retention)
  }

  lemma OneRowSwept(c: Cell, now: Utc, retention: nat)
    requires c.status.Live?
    ensures OldDelivered(c, now, retention) <==> TextOldDelivered(Show(c), CutoffText(now, retention))
    ensures OldUndelivered(c, now, retention) <==> TextOldUndelivered(Show(c), CutoffText(now, retention))
  {
    match c.status.deliveredAt
    case Some(d) => OlderIff(d, now, retention);
    case None => OlderIff(c.msg.createdAt, now, retention);
  }

  lemma KeepOne(c: Cell, rest: seq<StoredRow>, l: Ledger, now: Utc, retention: nat, marked: bool)
    requires l.cells != [] && l.cells[0] == c
    ensures var cutoff := CutoffText(now, retention);
            Keep(ShownOne(c) + rest, cutoff, marked)
            == ShownOne(Swept(l, now, retention, marked).cells[0]) + Keep(rest, cutoff, marked)
  {
    if c.status.Live? {
      OneRowSwept(c, now, retention);
      assert (ShownOne(c) + rest)[1..] == rest;
    } else {
      assert ShownOne(c) + rest == rest;
    }
  }

  /** The text comparison deletes exactly the rows older than the retention. */
  lemma {:induction false} TextCleanupIsTimeCleanup(l: Ledger, now: Utc, retention: nat, marked: bool)
    ensures Keep(Shown(l.cells), CutoffText(now, retention), marked) == Shown(Swept(l, now, retention, marked).cells)
    decreases |l.cells|
  {
    if l.cells == [] {
    } else {
      var tail := l.(cells := l.cells[1..]);
      TextCleanupIsTimeCleanup(tail, now, retention, marked);
      KeepOne(l.cells[0], Shown(tail.cells), l, now, retention, marked);
      assert Swept(l, now, retention, marked).cells[1..] == Swept(tail, now, retention, marked).cells;
    }
  }

  lemma SweepOnRows(l: Ledger, now: Utc, retention: nat, marked: bool)
    requires Ledgers.Valid(l)
    ensures var kept, swept := Keep(Shown(l.cells), CutoffText(now, retention), marked),
                               Swept(l, now, retention, marked);
            && kept == Shown(swept.cells) && Ledgers.Valid(swept) && swept.nextId == l.nextId
            && Removed(l, swept) == |Shown(l.cells)| - |kept|
  {
    TextCleanupIsTimeCleanup(l, now, retention, marked);
    CleanupEvolves(l, now, retention);
    LiveCountIsSize(l.cells);
    LiveCountIsSize(Swept(l, now, retention, marked).cells);
  }

  lemma {:induction false} ShownConcat(a: seq<Cell>, b: seq<Cell>)
    ensures Shown(a + b) == Shown(a) + Shown(b)
  {
    if a == [] {
      assert a + b == b;
    } else {
      assert (a + b)[0] == a[0] && (a + b)[1..] == a[1..] + b;
      ShownConcat(a[1..], b);
      Batches.Associates(ShownOne(a[0]), Shown(a[1..]), Shown(b));
    }
  }

  lemma ShownSnoc(cells: seq<Cell>)
    requires cells != []
    ensures Shown(cells) == Shown(cells[..|cells| - 1]) + ShownOne(cells[|cells| - 1])
  {
    var n := |cells| - 1;
    assert cells == cells[..n] + [cells[n]];
    ShownConcat(cells[..n], [cells[n]]);
    assert [cells[n]][1..] == [];
    assert ShownOne(cells[n]) + [] == ShownOne(cells[n]);
  }

  lemma {:induction false} LiveCountIsSize(cells: seq<Cell>)
    ensures LiveCount(cells) == |Shown(cells)|
  {
    if cells == [] {
    } else {
      LiveCountIsSize(cells[..|cells| - 1]);
      ShownSnoc(cells);
    }
  }

  function SetMark(r: StoredRow, ids: set<int>, text: string): StoredRow {
    if r.id in ids then r.(deliveredAt := Some(text)) else r
  }

  function SetMarks(rows: seq<StoredRow>, ids: set<int>, text: string): seq<StoredRow> {
    if rows == [] then [] else [SetMark(rows[0], ids, text)] + SetMarks(rows[1..], ids, text)
  }

  lemma {:induction false} MarkOnRows(l: Ledger, ids: set<int>, now: Utc)
    ensures SetMarks(Shown(l.cells), ids, ToRfc3339(now)) == Shown(MarkDelivered(l, ids, now).cells)
    decreases |l.cells|
  {
    if l.cells == [] {
    } else {
      var c, tail := l.cells[0], l.(cells := l.cells[1..]);
      MarkOnRows(tail, ids, now);
      assert MarkDelivered(l, ids, now).cells[1..] == MarkDelivered(tail, ids, now).cells;
      if c.status.Live? {
        assert Shown(l.cells)[0] == Show(c) && Shown(l.cells)[1..] == Shown(tail.cells);
        assert SetMark(Show(c), ids, ToRfc3339(now)) == Show(MarkCell(c, ids, now));
      } else {
        assert Shown(l.cells) == Shown(tail.cells);
      }
    }
  }

  function MaxRowId(rows: seq<StoredRow>): int {
    if rows == [] then 0 else rows[|rows| - 1].id
  }

  lemma {:induction false} MaxIdOnRows(cells: seq<Cell>)
    ensures MaxRowId(Shown(cells)) == MaxId(cells)
  {
    if cells == [] {
    } else {
      MaxIdOnRows(cells[..|cells| - 1]);
      ShownSnoc(cells);
    }
  }

  /** The row an INSERT stores: each field is the value in the column of that name. */
  function NewRow(sc: Schema, id: int, columns: seq<string>, row: seq<Param>): Option<StoredRow> {
    match (InColumn(columns, row, sc.session), InColumn(columns, row, sc.event),
           InColumn(columns, row, sc.data), InColumn(columns, row, sc.created))
    case (Some(Text(session)), Some(Text(event)), Some(Text(data)), Some(Text(created))) =>
      Some(StoredRow(id, session, event, data, created, None))
    case _ => None
  }

  function IdsOf(params: seq<Param>): set<int> {
    set p | p in params && p.Id? :: p.n
  }

  lemma BoundIds(params: seq<Param>, ids: seq<int>)
    requires |params| == |ids| + 1 && forall i :: 0 <= i < |ids| ==> params[i + 1] == Id(ids[i])
    ensures IdsOf(params[1..]) == set i | i in ids
  {
    forall i | i in ids ensures i in IdsOf(params[1..]) {
      var k :| 0 <= k < |ids| && ids[k] == i;
      assert params[1..][k] == Id(i);
    }
    forall p | p in params[1..] ensures p.Id? && p.n in ids {
      var k :| 0 <= k < |ids| && params[1..][k] == p;
      assert p == Id(ids[k]);
    }
  }

  function Consecutive(from: int, n: nat): seq<int> {
    seq(n, i => from + i)
  }

  lemma ColumnsByName(sc: Schema, a: Param, b: Param, c: Param, d: Param)
    requires sc.Ok()
    ensures var columns, row := sc.Inserted(), [a, b, c, d];
            && InColumn(columns, row, sc.session) == Some(a) && InColumn(columns, row, sc.event) == Some(b)
            && InColumn(columns, row, sc.data) == Some(c) && InColumn(columns, row, sc.created) == Some(d)
  {
    var columns, row := sc.Inserted(), [a, b, c, d];
    var c1, r1 := [sc.event, sc.data, sc.created], [b, c, d];
    var c2, r2 := [sc.data, sc.created], [c, d];
    var c3, r3 := [sc.created], [d];
    assert columns[1..] == c1 && row[1..] == r1 && c1[1..] == c2 && r1[1..] == r2 && c2[1..] == c3 && r2[1..] == r3;
    assert InColumn(c3, r3, sc.created) == Some(d);
    assert InColumn(c2, r2, sc.created) == Some(d) && InColumn(c2, r2, sc.data) == Some(c);
    assert InColumn(c1, r1, sc.created) == Some(d) && InColumn(c1, r1, sc.data) == Some(c);
  }

  lemma OneNewRow(sc: Schema, id: int, m: Message)
    requires sc.Ok()
    ensures NewRow(sc, id, sc.Inserted(), SqliteRow(m)) == Some(Show(Cell(id, m, Live(None))))
  {
    ColumnsByName(sc, Text(m.sessionId), Text(m.eventType), Text(m.data), Text(ToRfc3339(m.createdAt)));
  }

  lemma NewCellsSnoc(l: Ledger, msgs: seq<Message>, i: nat)
    requires i < |msgs|
    ensures var c := Cell(l.nextId + i, msgs[i], Live(None));
            Shown(l.cells + NewCells(msgs[..i + 1], Consecutive(l.nextId, i + 1)))
            == Shown(l.cells + NewCells(msgs[..i], Consecutive(l.nextId, i))) + [Show(c)]
  {
    var c := Cell(l.nextId + i, msgs[i], Live(None));
    var before := l.cells + NewCells(msgs[..i], Consecutive(l.nextId, i));
    assert l.cells + NewCells(msgs[..i + 1], Consecutive(l.nextId, i + 1)) == before + [c];
    ShownConcat(before, [c]);
    assert [c][1..] == [];
  }

  lemma NoRowsYet(l: Ledger, msgs: seq<Message>)
    ensures l.cells + NewCells(msgs[..0], Consecutive(l.nextId, 0)) == l.cells
  {
  }

  lemma RowIsAdded(sc: Schema, l: Ledger, msgs: seq<Message>, i: nat)
    requires sc.Ok() && i < |msgs|
    ensures var row := NewRow(sc, l.nextId + i, sc.Inserted(), SqliteRow(msgs[i]));
            && row.Some?
            && Shown(l.cells + NewCells(msgs[..i], Consecutive(l.nextId, i))) + [row.value]
               == Shown(l.cells + NewCells(msgs[..i + 1], Consecutive(l.nextId, i + 1)))
  {
    OneNewRow(sc, l.nextId + i, msgs[i]);
    NewCellsSnoc(l, msgs, i);
  }

  // ---- Row by row ----

  lemma {:induction false} ShownMember(cells: seq<Cell>, r: StoredRow)
    ensures r in Shown(cells) <==> exists i :: 0 <= i < |cells| && cells[i].status.Live? && Show(cells[i]) == r
  {
    if cells == [] {
    } else {
      ShownMember(cells[1..], r);
      if r in Shown(cells[1..]) {
        var i :| 0 <= i < |cells[1..]| && cells[1..][i].status.Live? && Show(cells[1..][i]) == r;
        assert cells[i + 1] == cells[1..][i];
      }
      if i :| 0 < i < |cells| && cells[i].status.Live? && Show(cells[i]) == r {
        assert cells[1..][i - 1] == cells[i];
      }
    }
  }

  lemma {:induction false} KeepMember(rows: seq<StoredRow>, cutoff: string, marked: bool, r: StoredRow)
    ensures r in Keep(rows, cutoff, marked) <==> r in rows && !TextOld(r, cutoff, marked)
  {
    if rows == [] {
    } else {
      KeepMember(rows[1..], cutoff, marked, r);
    }
  }

  lemma {:induction false} SetMarksAt(rows: seq<StoredRow>, ids: set<int>, text: string, i: nat)
    requires i < |rows|
    ensures |SetMarks(rows, ids, text)| == |rows|
    ensures SetMarks(rows, ids, text)[i] == if rows[i].id in ids then rows[i].(deliveredAt := Some(text)) else rows[i]
  {
    if i == 0 {
      if |rows| > 1 {
        SetMarksAt(rows[1..], ids, text, 0);
      }
    } else {
      SetMarksAt(rows[1..], ids, text, i - 1);
    }
  }

  lemma SetMarksExactly(rows: seq<StoredRow>, ids: set<int>, text: string)
    ensures |SetMarks(rows, ids, text)| == |rows|
    ensures forall i :: 0 <= i < |rows| ==>
              SetMarks(rows, ids, text)[i] == if rows[i].id in ids then rows[i].(deliveredAt := Some(text)) else rows[i]
  {
    if rows != [] {
      forall i | 0 <= i < |rows|
        ensures |SetMarks(rows, ids, text)| == |rows|
        ensures SetMarks(rows, ids, text)[i]
                == if rows[i].id in ids then rows[i].(deliveredAt := Some(text)) else rows[i]
      {
        SetMarksAt(rows, ids, text, i);
      }
    }
  }

  /** Old by the instants the stored text stands for. */
  predicate Old(r: StoredRow, now: Utc, retention: nat, marked: bool) {
    if marked then r.deliveredAt.Some? && Nanos(Parsed(r.deliveredAt.value)) < Nanos(now) - retention
    else r.deliveredAt.None? && Nanos(Parsed(r.createdAt)) < Nanos(now) - retention
  }

  lemma TextOldIsOld(c: Cell, now: Utc, retention: nat, marked: bool)
    requires c.status.Live?
    ensures TextOld(Show(c), CutoffText(now, retention), marked) <==> Old(Show(c), now, retention, marked)
  {
    ParseInvertsPrint(c.msg.createdAt);
    match c.status.deliveredAt
    case Some(d) =>
      ParseInvertsPrint(d);
      OlderIff(d, now, retention);
    case None => OlderIff(c.msg.createdAt, now, retention);
  }

  lemma KeptRows(cells: seq<Cell>, now: Utc, retention: nat, marked: bool, r: StoredRow)
    ensures r in Keep(Shown(cells), CutoffText(now, retention), marked)
            <==> r in Shown(cells) && !Old(r, now, retention, marked)
  {
    KeepMember(Shown(cells), CutoffText(now, retention), marked, r);
    if r in Shown(cells) {
      ShownMember(cells, r);
      var i :| 0 <= i < |cells| && cells[i].status.Live? && Show(cells[i]) == r;
      TextOldIsOld(cells[i], now, retention, marked);
    }
  }

  /** The row a message is stored as, column by column. */
  predicate Stores(r: StoredRow, id: int, m: Message) {
    && r.id == id && r.sessionId == m.sessionId && r.eventType == m.eventType && r.data == m.data
    && r.createdAt == ToRfc3339(m.createdAt) && r.deliveredAt == None
  }

  lemma {:induction false} ShownLive(cells: seq<Cell>, i: nat)
    requires i < |cells| && forall k :: 0 <= k < |cells| ==> cells[k].status.Live?
    ensures |Shown(cells)| == |cells| && Shown(cells)[i] == Show(cells[i])
  {
    if |cells| == 1 {
      assert cells[1..] == [];
    } else {
      ShownLive(cells[1..], if i == 0 then 0 else i - 1);
    }
  }

  lemma NewRowStores(id: int, m: Message)
    ensures Stores(Show(Cell(id, m, Live(None))), id, m)
  {
  }

  lemma ShownNew(msgs: seq<Message>, from: int, i: nat)
    requires i < |msgs|
    ensures var rows := Shown(NewCells(msgs, Consecutive(from, |msgs|)));
            |rows| == |msgs| && Stores(rows[i], from + i, msgs[i])
  {
    var cells := NewCells(msgs, Consecutive(from, |msgs|));
    ShownLive(cells, i);
    assert cells[i] == Cell(from + i, msgs[i], Live(None));
    NewRowStores(from + i, msgs[i]);
  }

  /** `grown` is `rows` followed by one row for each message, under consecutive ids. */
  ghost predicate Appended(rows: seq<StoredRow>, grown: seq<StoredRow>, from: int, msgs: seq<Message>) {
    && |grown| == |rows| + |msgs| && rows <= grown
    && forall i :: 0 <= i < |msgs| ==> Stores(grown[|rows| + i], from + i, msgs[i])
  }

  lemma InsertedRowsAppear(cells: seq<Cell>, from: int, msgs: seq<Message>)
    requires msgs != []
    ensures Appended(Shown(cells), Shown(cells + NewCells(msgs, Consecutive(from, |msgs|))), from, msgs)
  {
    var added := NewCells(msgs, Consecutive(from, |msgs|));
    var rows, more := Shown(cells), Shown(added);
    ShownConcat(cells, added);
    ShownNew(msgs, from, 0);
    forall i | 0 <= i < |msgs| ensures Stores((rows + more)[|rows| + i], from + i, msgs[i]) {
      ShownNew(msgs, from, i);
      assert (rows + more)[|rows| + i] == more[i];
    }
  }

  class Store {
    const kw: Keywords
    const sc: Schema
    var rows: seq<StoredRow>
    var nextId: int                        // AUTOINCREMENT
    ghost var ledger: Ledger

    ghost predicate Valid()
      reads this
    {
      kw.Ok() && sc.Ok() && Ledgers.Valid(ledger) && rows == Shown(ledger.cells) && nextId == ledger.nextId
    }

    constructor ()
      ensures Valid() && ledger == EMPTY && kw == SQL && sc == MESSAGES
    {
      KeywordsAreOk();
      SchemaIsOk();
      kw, sc, rows, nextId, ledger := SQL, MESSAGES, [], 1, EMPTY;
    }

    /** The rows go in: the table and the ledger stay in step. */
    method Grow(grown: seq<StoredRow>, n: nat, ghost msgs: seq<Message>)
      requires Valid() && n == |msgs| > 0
      requires grown == Shown(ledger.cells + NewCells(msgs, Consecutive(ledger.nextId, |msgs|)))
      modifies this
      ensures Valid() && ledger == Insert(old(ledger), msgs, Consecutive(old(ledger.nextId), |msgs|))
      ensures rows == grown && nextId == old(nextId) + n
    {
      InsertEvolves(ledger, msgs, Consecutive(ledger.nextId, |msgs|));
      ledger := Insert(ledger, msgs, Consecutive(ledger.nextId, |msgs|));
      rows, nextId := grown, nextId + n;
    }

    /** SQLite runs an INSERT text: all rows, or none when it is not `up` to it. */
    method ExecuteInsert(query: string, params: seq<Param>, up: bool, ghost msgs: seq<Message>)
      requires Valid() && msgs != []
      requires Inserts(kw, query, params) == Some(Insertion(sc.table, sc.Inserted(), Rows(msgs, SqliteRow)))
      modifies this
      ensures Valid()
      ensures ledger == if up then Insert(old(ledger), msgs, Consecutive(old(ledger.nextId), |msgs|)) else old(ledger)
      ensures !up ==> rows == old(rows) && nextId == old(nextId)
      ensures up ==> Appended(old(rows), rows, old(nextId), msgs) && nextId == old(nextId) + |msgs|
    {
      var said := Inserts(kw, query, params);
      if up && said.Some? && said.value.table == sc.table {
        var grown := AddRows(said.value.columns, said.value.rows, msgs);
        InsertedRowsAppear(ledger.cells, ledger.nextId, msgs);
        Grow(grown, |said.value.rows|, msgs);
      }
    }

    method AddRows(columns: seq<string>, values: seq<seq<Param>>, ghost msgs: seq<Message>)
      returns (grown: seq<StoredRow>)
      requires Valid() && columns == sc.Inserted() && values == Rows(msgs, SqliteRow)
      ensures grown == Shown(ledger.cells + NewCells(msgs, Consecutive(ledger.nextId, |msgs|)))
    {
      grown := rows;
      var i := 0;
      NoRowsYet(ledger, msgs);
      while i < |values|
        invariant 0 <= i <= |msgs|
        invariant grown == Shown(ledger.cells + NewCells(msgs[..i], Consecutive(ledger.nextId, i)))
      {
        grown := AddRow(grown, i, columns, values[i], msgs);
        i := i + 1;
      }
      assert msgs[..|msgs|] == msgs;
    }

    method AddRow(before: seq<StoredRow>, i: nat, columns: seq<string>, values: seq<Param>, ghost msgs: seq<Message>)
      returns (grown: seq<StoredRow>)
      requires Valid() && columns == sc.Inserted() && i < |msgs| && values == SqliteRow(msgs[i])
      requires before == Shown(ledger.cells + NewCells(msgs[..i], Consecutive(nextId, i)))
      ensures grown == Shown(ledger.cells + NewCells(msgs[..i + 1], Consecutive(nextId, i + 1)))
    {
      RowIsAdded(sc, ledger, msgs, i);
      grown := before + [NewRow(sc, nextId + i, columns, values).value];
    }

    /** `insert_batch`: builds the text, binds, executes. */
    method InsertBatch(messages: seq<Message>, up: bool) returns (ok: bool)
      requires Valid()
      modifies this
      ensures Valid() && (ok <==> messages == [] || up)
      ensures ledger == if ok then Insert(old(ledger), messages, Consecutive(old(ledger.nextId), |messages|))
                        else old(ledger)
      // the rows: the batch's, in order, under the next ids, after the old ones; or none
      ensures if ok then Appended(old(rows), rows, old(nextId), messages) && nextId == old(nextId) + |messages|
              else rows == old(rows) && nextId == old(nextId)
    {
      if messages == [] {
        return true;
      }
      var query, params := SqliteInsert(InsertHead(kw, sc), messages);
      InsertDenotesRows(kw, sc, messages, SqliteRow);
      ExecuteInsert(query, params, up, messages);
      ok := up;
    }

    /** `mark_delivered`. */
    method MarkDelivered(ids: seq<int>, now: Utc, up: bool) returns (ok: bool)
      requires Valid()
      modifies this
      ensures Valid() && (ok <==> ids == [] || up)
      ensures ledger == if ok && ids != [] then Ledgers.MarkDelivered(old(ledger), (set i | i in ids), now)
                        else old(ledger)
      // the rows: exactly those with a listed id get the new timestamp, every other stays as it is
      ensures |rows| == |old(rows)| && nextId == old(nextId)
      ensures forall i :: 0 <= i < |rows| ==>
                rows[i] == if ok && old(rows)[i].id in ids then old(rows)[i].(deliveredAt := Some(ToRfc3339(now)))
                           else old(rows)[i]
    {
      if ids == [] {
        return true;
      }
      var query, params := SqliteMark(UpdateHead(kw, sc), ids, now);
      UpdateDenotesIds(kw, sc, params);
      ExecuteMark(query, params, up, ids, now);
      ok := up;
    }

    /** SQLite runs an UPDATE text. */
    method ExecuteMark(query: string, params: seq<Param>, up: bool, ghost ids: seq<int>, ghost now: Utc)
      requires Valid() && |params| == |ids| + 1 && params[0] == Text(ToRfc3339(now))
      requires forall i :: 0 <= i < |ids| ==> params[i + 1] == Id(ids[i])
      requires Sets(kw, query, params) == Some(Setting(sc.table, sc.delivered, params[0], sc.id, params[1..]))
      modifies this
      ensures Valid()
      ensures ledger == if up then Ledgers.MarkDelivered(old(ledger), (set i | i in ids), now) else old(ledger)
      ensures |rows| == |old(rows)| && nextId == old(nextId)
      ensures forall i :: 0 <= i < |rows| ==>
                rows[i] == if up && old(rows)[i].id in ids then old(rows)[i].(deliveredAt := Some(ToRfc3339(now)))
                           else old(rows)[i]
    {
      var said := Sets(kw, query, params);
      if up && said.Some? && MarksMessages(said.value) {
        ghost var marked := set i | i in ids;
        BoundIds(params, ids);
        SetMarksExactly(rows, marked, ToRfc3339(now));
        Remark(SetMarks(rows, IdsOf(said.value.keys), said.value.value.s), marked, now);
      }
    }

    method Remark(changed: seq<StoredRow>, ghost marked: set<int>, ghost now: Utc)
      requires Valid() && changed == SetMarks(rows, marked, ToRfc3339(now))
      modifies this
      ensures Valid() && ledger == Ledgers.MarkDelivered(old(ledger), marked, now)
      ensures rows == changed && nextId == old(nextId)
    {
      MarkOnRows(ledger, marked, now);
      MarkEvolves(ledger, marked, now);
      ledger := Ledgers.MarkDelivered(ledger, marked, now);
      rows := changed;
    }

    /** The UPDATE sets `delivered_at` to a text in rows of this table chosen by id. */
    predicate MarksMessages(set_: Setting) {
      set_.table == sc.table && set_.column == sc.delivered && set_.key == sc.id && set_.value.Text?
    }

    /** The two cleanups. Returns the number of rows deleted. */
    method Cleanup(marked: bool, now: Utc, retention: nat) returns (count: nat)
      requires Valid()
      modifies this
      ensures Valid() && ledger == Swept(old(ledger), now, retention, marked)
      ensures count == Removed(old(ledger), ledger)
      // the rows: exactly those not older than the retention stay
      ensures forall r :: r in rows <==> r in old(rows) && !Old(r, now, retention, marked)
      ensures |rows| == |old(rows)| - count && nextId == old(nextId)
    {
      SweepOnRows(ledger, now, retention, marked);
      forall r ensures r in Keep(rows, CutoffText(now, retention), marked)
                       <==> r in rows && !Old(r, now, retention, marked)
      {
        KeptRows(ledger.cells, now, retention, marked, r);
      }
      ledger := Swept(ledger, now, retention, marked);
      var kept := Keep(rows, CutoffText(now, retention), marked);
      count := |rows| - |kept|;
      rows := kept;
    }

    /** `max_id`. */
    method MaxId() returns (id: int)
      requires Valid()
      ensures id == Ledgers.MaxId(ledger.cells)
      ensures if rows == [] then id == 0
              else (exists r :: r in rows && r.id == id) && forall r :: r in rows ==> r.id <= id
    {
      MaxIdOnRows(ledger.cells);
      forall r | r in rows ensures r.id <= MaxRowId(rows) {
        ShownMember(ledger.cells, r);
        var i :| 0 <= i < |ledger.cells| && ledger.cells[i].status.Live? && Show(ledger.cells[i]) == r;
        MaxIdBounds(ledger.cells, i);
      }
      id := MaxRowId(rows);
      assert rows != [] ==> rows[|rows| - 1] in rows;
    }

    /** `fetch_after`. */
    method FetchAfter(session: string, after: int, limit: nat) returns (page: seq<Entry>)
      requires Valid()
      ensures page == Ledgers.FetchAfter(ledger, session, after, limit)
    {
      FetchReadsBack(ledger, session, after, limit);
      page := FetchAfterRows(rows, session, after, limit);
    }
  }
}
