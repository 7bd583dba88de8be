/**
 The placeholder groups of the statement texts both backends build, and what they denote.

 `Read...` is an independent reading: it parses the groups. The builders are the source's loops, started from any text;
 the theorems say that reading what a loop added and resolving its placeholders against the bound parameters gives back
 exactly the batch. `Statements` reads the rest of the text.
 */
module Sql {
  import opened Wrappers
  import opened Timestamps
  import opened Ledgers

  /** A bound parameter: SQLite binds every column as text, Postgres binds the timestamp as such. */
  datatype Param = Text(s: string) | Stamp(u: Utc) | Id(n: int)

  // ---- Decimal numbers ----

  function Decimal(n: nat): (s: string)
    ensures s != [] && forall c :: c in s ==> IsDigit(c)
  {
    if n < 10 then [Digit(n)] else Decimal(n / 10) + [Digit(n % 10)]
  }

  /** Read digits from the front, after a prefix worth `acc`. */
  function ReadDigits(s: string, acc: nat): (r: (nat, string))
    ensures |r.1| <= |s| && (s != [] && IsDigit(s[0]) ==> |r.1| < |s|)
  {
    if s == [] || !IsDigit(s[0]) then (acc, s)
    else ReadDigits(s[1..], 10 * acc + (s[0] - '0') as nat)
  }

  lemma {:induction false} ReadDigitsConcat(a: string, rest: string, acc: nat)
    requires forall c :: c in a ==> IsDigit(c)
    ensures ReadDigits(a + rest, acc) == ReadDigits(rest, ReadDigits(a, acc).0)
  {
    if a == [] {
      assert a + rest == rest;
    } else {
      assert (a + rest)[1..] == a[1..] + rest;
      assert IsDigit(a[0]);
      ReadDigitsConcat(a[1..], rest, 10 * acc + (a[0] - '0') as nat);
    }
  }

  lemma {:induction false} DecimalReads(n: nat)
    ensures ReadDigits(Decimal(n), 0).0 == n
  {
    if n < 10 {
      assert Decimal(n)[1..] == [];
    } else {
      DecimalReads(n / 10);
      ReadDigitsConcat(Decimal(n / 10), [Digit(n % 10)], 0);
      assert [Digit(n % 10)][1..] == [];
    }
  }

  // ---- Reading ----

  /** `$k`, then the rest. */
  function ReadPlaceholder(s: string): (r: Option<(nat, string)>)
    ensures r.Some? ==> |r.value.1| < |s|
  {
    if |s| >= 2 && s[0] == '$' && IsDigit(s[1]) then Some(ReadDigits(s[1..], 0)) else None
  }

  /** `$a, $b, ...)` after an opening parenthesis: the numbers, and what follows the closing one. */
  function ReadGroup(s: string): (r: Option<(seq<nat>, string)>)
    ensures r.Some? ==> |r.value.1| < |s|
    decreases |s|
  {
    match ReadPlaceholder(s)
    case None => None
    case Some((k, rest)) =>
      if rest == [] then None
      else if rest[0] == ')' then Some(([k], rest[1..]))
      else if |rest| >= 2 && rest[0] == ',' && rest[1] == ' ' then
        (match ReadGroup(rest[2..])
         case None => None
         case Some((ks, rest')) => Some(([k] + ks, rest')))
      else None
  }

  /** `(...), (...), ...` to the end of the text. */
  function ReadGroups(s: string): Option<seq<seq<nat>>>
    decreases |s|
  {
    if s == [] || s[0] != '(' then None
    else match ReadGroup(s[1..])
      case None => None
      case Some((ks, rest)) =>
        if rest == [] then Some([ks])
        else if |rest| >= 2 && rest[0] == ',' && rest[1] == ' ' then
          (match ReadGroups(rest[2..]) case None => None case Some(gs) => Some([ks] + gs))
        else None
  }

  /** `$k` is the k-th bound parameter, counting from 1. */
  function Resolve(ks: seq<nat>, params: seq<Param>): Option<seq<Param>> {
    if ks == [] then Some([])
    else if ks[0] < 1 || ks[0] > |params| then None
    else match Resolve(ks[1..], params)
      case None => None
      case Some(ps) => Some([params[ks[0] - 1]] + ps)
  }

  function ResolveAll(groups: seq<seq<nat>>, params: seq<Param>): Option<seq<seq<Param>>> {
    if groups == [] then Some([])
    else match (Resolve(groups[0], params), ResolveAll(groups[1..], params))
      case (Some(row), Some(rows)) => Some([row] + rows)
      case _ => None
  }

  /** The rows that groups denote under bound parameters. */
  function DenotedRows(text: string, params: seq<Param>): Option<seq<seq<Param>>> {
    match ReadGroups(text)
    case None => None
    case Some(groups) => ResolveAll(groups, params)
  }

  // ---- The texts ----

  function Placeholder(k: nat): string {
    "$" + Decimal(k)
  }

  /** `$from, $from+1, ..., $to)`. */
  function GroupText(from: nat, to: nat): string
    requires from <= to
    decreases (to as int) - (from as int)
  {
    if from == to then Placeholder(from) + ")" else Placeholder(from) + (", " + GroupText(from + 1, to))
  }

  /** format!("(${}, ${}, ${}, ${})", a, b, c, d) */
  function FormatTuple(a: nat, b: nat, c: nat, d: nat): string {
    "(" + (Placeholder(a) + (", " + (Placeholder(b) + (", " + (Placeholder(c) + (", " + (Placeholder(d) + ")")))))))
  }

  function Tuple(i: nat): string {
    "(" + GroupText(4 * i + 1, 4 * i + 4)
  }

  /** Pieces separated by ", ". */
  function Join(ts: seq<string>): string
    requires ts != []
  {
    if |ts| == 1 then ts[0] else ts[0] + (", " + Join(ts[1..]))
  }

  function TupleTexts(n: nat): seq<string> {
    seq(n, i requires 0 <= i < n => Tuple(i))
  }

  /** The tuples of an insert of n rows. */
  function Tuples(n: nat): string {
    if n == 0 then "" else Join(TupleTexts(n))
  }

  lemma {:induction false} JoinSnoc(ts: seq<string>, t: string)
    requires ts != []
    ensures Join(ts + [t]) == Join(ts) + (", " + t)
  {
    if |ts| == 1 {
      assert (ts + [t])[1..] == [t];
    } else {
      JoinSnoc(ts[1..], t);
      assert (ts + [t])[1..] == ts[1..] + [t];
      assert ts[0] + (", " + (Join(ts[1..]) + (", " + t))) == (ts[0] + (", " + Join(ts[1..]))) + (", " + t);
    }
  }

  lemma PlaceholderReads(k: nat, rest: string)
    requires rest == [] || !IsDigit(rest[0])
    ensures ReadPlaceholder(Placeholder(k) + rest) == Some((k, rest))
  {
    var s := Placeholder(k) + rest;
    assert s[1..] == Decimal(k) + rest;
    assert s[1] == Decimal(k)[0] && Decimal(k)[0] in Decimal(k);
    ReadDigitsConcat(Decimal(k), rest, 0);
    DecimalReads(k);
  }

  function Numbers(from: nat, to: nat): seq<nat>
    requires from <= to + 1
  {
    seq(to + 1 - from, i requires 0 <= i < to + 1 - from => from + i)
  }

  lemma GroupContinues(k: nat, more: string)
    requires ReadGroup(more).Some?
    ensures ReadGroup(Placeholder(k) + (", " + more)) == Some(([k] + ReadGroup(more).value.0, ReadGroup(more).value.1))
  {
    PlaceholderReads(k, ", " + more);
    assert (", " + more)[2..] == more;
  }

  lemma OneReads(k: nat, rest: string)
    ensures ReadGroup(GroupText(k, k) + rest) == Some((Numbers(k, k), rest))
  {
    assert GroupText(k, k) + rest == Placeholder(k) + (")" + rest);
    PlaceholderReads(k, ")" + rest);
    assert (")" + rest)[1..] == rest;
    assert Numbers(k, k) == [k];
  }

  lemma NestedAssociates(a: string, b: string, c: string, d: string)
    ensures (a + (b + c)) + d == a + (b + (c + d))
  {
  }

  lemma NumbersFrom(from: nat, to: nat)
    requires from <= to
    ensures Numbers(from, to) == [from] + Numbers(from + 1, to)
  {
  }

  lemma {:induction false} GroupReads(from: nat, to: nat, rest: string)
    requires from <= to
    ensures ReadGroup(GroupText(from, to) + rest) == Some((Numbers(from, to), rest))
    decreases (to as int) - (from as int)
  {
    if from == to {
      OneReads(from, rest);
    } else {
      GroupReads(from + 1, to, rest);
      NestedAssociates(Placeholder(from), ", ", GroupText(from + 1, to), rest);
      NumbersFrom(from, to);
      GroupContinues(from, GroupText(from + 1, to) + rest);
    }
  }

  ghost predicate ReadsAs(t: string, ks: seq<nat>) {
    t != [] && t[0] == '(' && forall tail :: ReadGroup(t[1..] + tail) == Some((ks, tail))
  }

  lemma LastReads(t: string, g: seq<nat>)
    requires ReadsAs(t, g)
    ensures ReadGroups(t) == Some([g])
  {
    assert t[1..] + "" == t[1..];
  }

  lemma {:induction false} JoinReads(ts: seq<string>, gs: seq<seq<nat>>)
    requires |ts| == |gs| > 0 && forall i :: 0 <= i < |ts| ==> ReadsAs(ts[i], gs[i])
    ensures ReadGroups(Join(ts)) == Some(gs)
  {
    if |ts| == 1 {
      LastReads(ts[0], gs[0]);
      assert gs == [gs[0]];
    } else {
      JoinReads(ts[1..], gs[1..]);
      OneMoreReads(ts[0], gs[0], Join(ts[1..]));
      assert gs == [gs[0]] + gs[1..];
    }
  }

  lemma TailReads(t: string, g: seq<nat>, tail: string)
    requires ReadsAs(t, g)
    ensures t + tail != [] && (t + tail)[0] == '(' && ReadGroup((t + tail)[1..]) == Some((g, tail))
  {
    assert (t + tail)[1..] == t[1..] + tail;
  }

  lemma OneMoreReads(t: string, g: seq<nat>, more: string)
    requires ReadsAs(t, g) && ReadGroups(more).Some?
    ensures ReadGroups(t + (", " + more)) == Some([g] + ReadGroups(more).value)
  {
    TailReads(t, g, ", " + more);
    assert (", " + more)[2..] == more;
  }

  lemma TupleReads(i: nat)
    ensures ReadsAs(Tuple(i), Numbers(4 * i + 1, 4 * i + 4))
  {
    var group := GroupText(4 * i + 1, 4 * i + 4);
    assert Tuple(i)[1..] == group;
    forall tail ensures ReadGroup(group + tail) == Some((Numbers(4 * i + 1, 4 * i + 4), tail)) {
      GroupReads(4 * i + 1, 4 * i + 4, tail);
    }
  }

  /** The groups of tuples i, ..., n - 1. */
  function TupleNumbers(i: nat, n: nat): seq<seq<nat>>
    requires i <= n
  {
    seq(n - i, k requires 0 <= k < n - i => Numbers(4 * (i + k) + 1, 4 * (i + k) + 4))
  }

  lemma TuplesRead(n: nat)
    requires n > 0
    ensures ReadGroups(Tuples(n)) == Some(TupleNumbers(0, n))
  {
    forall i | 0 <= i < n ensures ReadsAs(TupleTexts(n)[i], TupleNumbers(0, n)[i]) {
      TupleReads(i);
    }
    JoinReads(TupleTexts(n), TupleNumbers(0, n));
  }

  // ---- The builders ----

  lemma NextTuple(head: string, i: nat)
    ensures (if i == 0 then head + Tuples(i) else head + Tuples(i) + ", ")
            + FormatTuple(4 * i + 1, 4 * i + 2, 4 * i + 3, 4 * i + 4) == head + Tuples(i + 1)
  {
    FormatIsTuple(i);
    assert TupleTexts(i + 1) == TupleTexts(i) + [Tuple(i)];
    if i == 0 {
      assert head + "" == head;
      assert TupleTexts(1) == [Tuple(0)];
    } else {
      JoinSnoc(TupleTexts(i), Tuple(i));
      StringAssociates(head, Join(TupleTexts(i)), ", ", Tuple(i));
    }
  }

  lemma StringAssociates(a: string, b: string, c: string, d: string)
    ensures ((a + b) + c) + d == a + (b + (c + d))
  {
  }

  lemma FormatIsTuple(i: nat)
    ensures FormatTuple(4 * i + 1, 4 * i + 2, 4 * i + 3, 4 * i + 4) == Tuple(i)
  {
    var a, b, c, d := 4 * i + 1, 4 * i + 2, 4 * i + 3, 4 * i + 4;
    assert GroupText(c, d) == Placeholder(c) + (", " + (Placeholder(d) + ")"));
    assert GroupText(a, d) == Placeholder(a) + (", " + (Placeholder(b) + (", " + GroupText(c, d))));
  }

  /** The four pushes for one message. */
  method PushColumns(params: seq<Param>, msg: Message) returns (r: seq<Param>)
    ensures r == params + SqliteRow(msg)
  {
    var row := [Text(msg.sessionId)];
    row := row + [Text(msg.eventType)];
    row := row + [Text(msg.data)];
    row := row + [Text(ToRfc3339(msg.createdAt))];
    r := params + row;
  }

  /** Push one tuple, after a separator unless it is the first. */
  method PushTuple(head: string, text: string, i: nat) returns (query: string)
    requires text == head + Tuples(i)
    ensures query == head + Tuples(i + 1)
  {
    NextTuple(head, i);
    query := text;
    if i > 0 {
      query := query + ", ";
    }
    var base := i * 4 + 1;
    query := query + FormatTuple(base, base + 1, base + 2, base + 3);
  }

  lemma ColumnsSnoc(ms: seq<Message>, row: Message -> seq<Param>, i: nat)
    requires i < |ms|
    ensures Columns(ms[..i + 1], row) == Columns(ms[..i], row) + row(ms[i])
  {
    assert ms[..i + 1][..i] == ms[..i];
  }

  /** `insert_batch` of the SQLite backend, from the `head` of the query up to executing it. */
  method SqliteInsert(head: string, messages: seq<Message>) returns (query: string, params: seq<Param>)
    requires messages != []
    ensures query == head + Tuples(|messages|)
    ensures params == Columns(messages, SqliteRow)
  {
    query := head;
    params := [];
    var i := 0;
    while i < |messages|
      invariant 0 <= i <= |messages|
      invariant query == head + Tuples(i)
      invariant params == Columns(messages[..i], SqliteRow)
    {
      query := PushTuple(head, query, i);
      params := PushColumns(params, messages[i]);
      ColumnsSnoc(messages, SqliteRow, i);
      i := i + 1;
    }
    assert messages[..|messages|] == messages;
  }

  /** The four bindings for one message. */
  method BindColumns(params: seq<Param>, msg: Message) returns (r: seq<Param>)
    ensures r == params + PostgresRow(msg)
  {
    r := params + [Text(msg.sessionId), Text(msg.eventType), Text(msg.data), Stamp(msg.createdAt)];
  }

  /** `insert_batch_values` of the Postgres backend: one loop for the text, one for the bindings. */
  method PostgresInsert(head: string, messages: seq<Message>) returns (query: string, params: seq<Param>)
    requires messages != []
    ensures query == head + Tuples(|messages|)
    ensures params == Columns(messages, PostgresRow)
  {
    query := head;
    var i := 0;
    while i < |messages|
      invariant 0 <= i <= |messages|
      invariant query == head + Tuples(i)
    {
      query := PushTuple(head, query, i);
      i := i + 1;
    }
    params := [];
    i := 0;
    while i < |messages|
      invariant 0 <= i <= |messages|
      invariant params == Columns(messages[..i], PostgresRow)
    {
      params := BindColumns(params, messages[i]);
      ColumnsSnoc(messages, PostgresRow, i);
      i := i + 1;
    }
    assert messages[..|messages|] == messages;
  }

  function SqliteRow(m: Message): (r: seq<Param>)
    ensures |r| == 4
  {
    [Text(m.sessionId), Text(m.eventType), Text(m.data), Text(ToRfc3339(m.createdAt))]
  }

  function PostgresRow(m: Message): (r: seq<Param>)
    ensures |r| == 4
  {
    [Text(m.sessionId), Text(m.eventType), Text(m.data), Stamp(m.createdAt)]
  }

  /** The columns of all messages, one row after the other. */
  function Columns(ms: seq<Message>, row: Message -> seq<Param>): seq<Param> {
    if ms == [] then [] else Columns(ms[..|ms| - 1], row) + row(ms[|ms| - 1])
  }

  // ---- What the texts denote ----

  lemma {:induction false} RangeResolves(params: seq<Param>, k: nat, m: nat)
    requires 1 <= k <= m + 1 && m <= |params|
    ensures Resolve(Numbers(k, m), params) == Some(params[k - 1..m])
    decreases m + 1 - k
  {
    if k <= m {
      assert Numbers(k, m)[1..] == Numbers(k + 1, m);
      RangeResolves(params, k + 1, m);
      assert [params[k - 1]] + params[k..m] == params[k - 1..m];
    } else {
      assert Numbers(k, m) == [] && params[k - 1..m] == [];
    }
  }

  /** Rows i, ..., n - 1: consecutive blocks of four parameters. */
  function Blocks(params: seq<Param>, i: nat, n: nat): seq<seq<Param>>
    requires i <= n && 4 * n <= |params|
  {
    seq(n - i, k requires 0 <= k < n - i => params[4 * (i + k)..4 * (i + k) + 4])
  }

  lemma {:induction false} GroupsResolve(params: seq<Param>, i: nat, n: nat)
    requires i <= n && 4 * n <= |params|
    ensures ResolveAll(TupleNumbers(i, n), params) == Some(Blocks(params, i, n))
    decreases (n as int) - (i as int)
  {
    if i < n {
      RangeResolves(params, 4 * i + 1, 4 * i + 4);
      GroupsResolve(params, i + 1, n);
      assert TupleNumbers(i, n)[1..] == TupleNumbers(i + 1, n);
      assert Blocks(params, i, n) == [params[4 * i..4 * i + 4]] + Blocks(params, i + 1, n);
    } else {
      assert TupleNumbers(i, n) == [] && Blocks(params, i, n) == [];
    }
  }

  lemma {:induction false} ColumnBlocks(ms: seq<Message>, row: Message -> seq<Param>, i: nat)
    requires i < |ms| && forall m :: |row(m)| == 4
    ensures |Columns(ms, row)| == 4 * |ms| && Columns(ms, row)[4 * i..4 * i + 4] == row(ms[i])
    decreases |ms|
  {
    var n := |ms| - 1;
    var front := ms[..n];
    if n == 0 {
    } else {
      ColumnBlocks(front, row, if i < n then i else 0);
    }
    assert |Columns(front, row)| == 4 * n;
    if i < n {
      assert Columns(ms, row)[4 * i..4 * i + 4] == Columns(front, row)[4 * i..4 * i + 4];
    }
  }

  function Rows(ms: seq<Message>, row: Message -> seq<Param>): seq<seq<Param>> {
    seq(|ms|, i requires 0 <= i < |ms| => row(ms[i]))
  }

  /** The text of n tuples with the batch's columns as parameters denotes exactly the batch's rows, in order. */
  lemma InsertDenotesBatch(ms: seq<Message>, row: Message -> seq<Param>)
    requires ms != [] && forall m :: |row(m)| == 4
    ensures DenotedRows(Tuples(|ms|), Columns(ms, row)) == Some(Rows(ms, row))
  {
    TuplesRead(|ms|);
    BlocksAreRows(ms, row);
  }

  lemma BlocksAreRows(ms: seq<Message>, row: Message -> seq<Param>)
    requires ms != [] && forall m :: |row(m)| == 4
    ensures ResolveAll(TupleNumbers(0, |ms|), Columns(ms, row)) == Some(Rows(ms, row))
  {
    ColumnBlocks(ms, row, 0);
    GroupsResolve(Columns(ms, row), 0, |ms|);
    ColumnsSplit(ms, row);
  }

  lemma ColumnsSplit(ms: seq<Message>, row: Message -> seq<Param>)
    requires (forall m :: |row(m)| == 4) && |Columns(ms, row)| == 4 * |ms|
    ensures Blocks(Columns(ms, row), 0, |ms|) == Rows(ms, row)
  {
    var params := Columns(ms, row);
    forall i | 0 <= i < |ms| ensures Blocks(params, 0, |ms|)[i] == Rows(ms, row)[i] {
      ColumnBlocks(ms, row, i);
      assert Blocks(params, 0, |ms|)[i] == params[4 * i..4 * i + 4];
    }
  }

  function Flatten(groups: seq<seq<nat>>): seq<nat> {
    if groups == [] then [] else Flatten(groups[..|groups| - 1]) + groups[|groups| - 1]
  }

  lemma {:induction false} BlocksFlatten(n: nat)
    ensures Flatten(TupleNumbers(0, n)) == Numbers(1, 4 * n)
  {
    if n == 0 {
    } else {
      assert TupleNumbers(0, n)[..n - 1] == TupleNumbers(0, n - 1);
      BlocksFlatten(n - 1);
      assert Numbers(1, 4 * (n - 1)) + Numbers(4 * (n - 1) + 1, 4 * n) == Numbers(1, 4 * n);
    }
  }

  /** The placeholders of an insert of n rows are 1, 2, ..., 4n, each once and in order. */
  lemma PlaceholdersOnce(n: nat)
    requires n > 0
    ensures var r := ReadGroups(Tuples(n)); r.Some? && Flatten(r.value) == Numbers(1, 4 * n)
  {
    TuplesRead(n);
    BlocksFlatten(n);
  }

  /** The column value a parameter stands for: text that `to_rfc3339` printed is its instant. */
  function Stored(p: Param): Param {
    match p
    case Stamp(u) => Text(ToRfc3339(u))
    case _ => p
  }

  lemma RowsAgree(m: Message, c: nat)
    requires c < 4
    ensures Stored(PostgresRow(m)[c]) == SqliteRow(m)[c]
  {
  }

  /** Both backends insert the same rows with the same text, up to the representation of the timestamp. */
  lemma BackendsAgree(ms: seq<Message>)
    requires ms != []
    ensures DenotedRows(Tuples(|ms|), Columns(ms, SqliteRow)) == Some(Rows(ms, SqliteRow))
    ensures DenotedRows(Tuples(|ms|), Columns(ms, PostgresRow)) == Some(Rows(ms, PostgresRow))
    ensures forall i, c :: 0 <= i < |ms| && 0 <= c < 4 ==> Stored(PostgresRow(ms[i])[c]) == SqliteRow(ms[i])[c]
  {
    InsertDenotesBatch(ms, SqliteRow);
    InsertDenotesBatch(ms, PostgresRow);
    forall i, c | 0 <= i < |ms| && 0 <= c < 4 ensures Stored(PostgresRow(ms[i])[c]) == SqliteRow(ms[i])[c] {
      RowsAgree(ms[i], c);
    }
  }

  /** `insert_batch` of the Postgres backend: an empty batch sends no statement, and whichever way a batch takes by its
      size, the text after the head denotes exactly its rows. */
  method PostgresInsertBatch(head: string, messages: seq<Message>) returns (r: Option<(string, seq<Param>)>)
    ensures r.None? <==> messages == []
    ensures r.Some? ==> exists text :: r.value.0 == head + text
                                       && DenotedRows(text, r.value.1) == Some(Rows(messages, PostgresRow))
  {
    if messages == [] {
      return None;
    }
    var query, params;
    if |messages| >= 100 {
      query, params := PostgresInsertCopy(head, messages);
    } else {
      query, params := PostgresInsert(head, messages);
    }
    InsertDenotesBatch(messages, PostgresRow);
    return Some((query, params));
  }

  /** `insert_batch_copy` falls back to the VALUES insert. */
  method PostgresInsertCopy(head: string, messages: seq<Message>) returns (query: string, params: seq<Param>)
    requires messages != []
    ensures query == head + Tuples(|messages|) && params == Columns(messages, PostgresRow)
  {
    query, params := PostgresInsert(head, messages);
  }

  // ---- mark_delivered ----

  /** `mark_delivered` of the SQLite backend: `$1` is the timestamp and the ids start at `$2`. */
  method SqliteMark(head: string, ids: seq<int>, now: Utc) returns (query: string, params: seq<Param>)
    requires ids != []
    ensures |params| == |ids| + 1 && query == head + ("(" + GroupText(2, |params|))
    ensures params[0] == Text(ToRfc3339(now)) && forall i :: 0 <= i < |ids| ==> params[i + 1] == Id(ids[i])
  {
    var placeholders := PlaceholderTexts(2, |ids|);
    query := head + ("(" + (Join(placeholders) + ")"));
    JoinIsGroup(2, |ids|);
    params := [Text(ToRfc3339(now))];
    var i := 0;
    while i < |ids|
      invariant 0 <= i <= |ids| && |params| == i + 1
      invariant params[0] == Text(ToRfc3339(now)) && forall j :: 0 <= j < i ==> params[j + 1] == Id(ids[j])
    {
      params := params + [Id(ids[i])];
      i := i + 1;
    }
  }

  function PlaceholderTexts(from: nat, n: nat): seq<string> {
    seq(n, i requires 0 <= i < n => Placeholder(from + i))
  }

  lemma {:induction false} JoinIsGroup(from: nat, n: nat)
    requires n > 0
    ensures Join(PlaceholderTexts(from, n)) + ")" == GroupText(from, from + n - 1)
    decreases n
  {
    if n == 1 {
    } else {
      JoinIsGroup(from + 1, n - 1);
      var ts := PlaceholderTexts(from, n);
      assert ts[1..] == PlaceholderTexts(from + 1, n - 1);
      StringAssociates("", ts[0], ", " + Join(ts[1..]), ")");
      assert (ts[0] + (", " + Join(ts[1..]))) + ")" == ts[0] + (", " + (Join(ts[1..]) + ")"));
    }
  }

  lemma GroupAloneReads(from: nat, to: nat)
    requires from <= to
    ensures ReadGroups("(" + GroupText(from, to)) == Some([Numbers(from, to)])
  {
    var text := "(" + GroupText(from, to);
    assert text[1..] == GroupText(from, to) + "";
    GroupReads(from, to, "");
  }
}
