/**
 Whole statements: keywords, table and column names, and the placeholders outside the groups.

 A reader goes through the entire text, so `$1` in the UPDATE is a placeholder that was read, and which bound value a
 column gets is decided by the column list that was read. Readers and builders are over any keywords and names of the
 right shape; `SQL` and `MESSAGES` are the source's.
 */
module Statements {
  import opened Wrappers
  import opened Timestamps
  import opened Ledgers
  import opened Sql

  // ---- Names ----

  predicate NameChar(c: char) {
    'a' <= c <= 'z' || c == '_'
  }

  predicate IsName(s: string) {
    s != [] && forall i :: 0 <= i < |s| ==> NameChar(s[i])
  }

  /** Cannot be taken for more of a name. */
  predicate EndsName(s: string) {
    s != [] && !NameChar(s[0])
  }

  function ReadName(s: string): (r: (string, string))
    ensures |r.0| + |r.1| == |s|
  {
    if s == [] || !NameChar(s[0]) then ([], s)
    else var (n, rest) := ReadName(s[1..]); ([s[0]] + n, rest)
  }

  function Skip(token: string, s: string): (r: Option<string>)
    ensures r.Some? ==> |r.value| + |token| == |s|
  {
    if token <= s then Some(s[|token|..]) else None
  }

  predicate Separated(s: string) {
    |s| >= 2 && s[0] == ',' && s[1] == ' '
  }

  /** `a, b, ...` and what follows. */
  function ReadNames(s: string): (seq<string>, string)
    decreases |s|
  {
    var (n, rest) := ReadName(s);
    if Separated(rest) then var (ns, rest') := ReadNames(rest[2..]); ([n] + ns, rest') else ([n], rest)
  }

  lemma SkipReads(token: string, rest: string)
    ensures Skip(token, token + rest) == Some(rest)
  {
    assert (token + rest)[|token|..] == rest;
  }

  lemma {:induction false} NameReads(n: string, rest: string)
    requires (forall i :: 0 <= i < |n| ==> NameChar(n[i])) && (rest == [] || !NameChar(rest[0]))
    ensures ReadName(n + rest) == (n, rest)
  {
    if n == [] {
      assert n + rest == rest;
    } else {
      assert (n + rest)[1..] == n[1..] + rest;
      NameReads(n[1..], rest);
      assert n == [n[0]] + n[1..];
    }
  }

  predicate AreNames(ns: seq<string>) {
    ns != [] && forall i :: 0 <= i < |ns| ==> IsName(ns[i])
  }

  lemma {:induction false} NamesRead(ns: seq<string>, rest: string)
    requires AreNames(ns) && EndsName(rest) && !Separated(rest)
    ensures ReadNames(Join(ns) + rest) == (ns, rest)
  {
    if |ns| == 1 {
      NameReads(ns[0], rest);
      assert ns == [ns[0]];
    } else {
      var more := Join(ns[1..]) + rest;
      NamesRead(ns[1..], rest);
      NestedAssociates(ns[0], ", ", Join(ns[1..]), rest);
      NameReads(ns[0], ", " + more);
      assert (", " + more)[2..] == more;
      assert ns == [ns[0]] + ns[1..];
    }
  }

  // ---- Statements ----

  datatype Keywords = Keywords(insert: string, open: string, values: string,
                               update: string, set_: string, equals: string, where_: string, in_: string) {
    predicate Ok() {
      && EndsName(open) && EndsName(values) && |values| >= 2 && !Separated(values)
      && EndsName(set_) && EndsName(equals) && EndsName(in_) && where_ != [] && !IsDigit(where_[0])
    }
  }

  const SQL := Keywords("INSERT INTO ", " (", ") VALUES ", "UPDATE ", " SET ", " = ", " WHERE ", " IN ")

  datatype Schema = Schema(table: string, session: string, event: string, data: string, created: string,
                           delivered: string, id: string) {
    function Inserted(): seq<string> {
      [session, event, data, created]
    }

    predicate Ok() {
      && IsName(table) && AreNames(Inserted()) && IsName(delivered) && IsName(id)
      && session != event && session != data && session != created
      && event != data && event != created && data != created
    }
  }

  const MESSAGES :=
    Schema("solid_mcp_messages", "session_id", "event_type", "data", "created_at", "delivered_at", "id")

  lemma KeywordsAreOk()
    ensures SQL.Ok()
  {
  }

  lemma NamesAreOk()
    ensures IsName(MESSAGES.table) && IsName(MESSAGES.session) && IsName(MESSAGES.event)
  {
  }

  lemma MoreNamesAreOk()
    ensures IsName(MESSAGES.data) && IsName(MESSAGES.created) && IsName(MESSAGES.delivered) && IsName(MESSAGES.id)
  {
  }

  lemma SchemaIsOk()
    ensures MESSAGES.Ok()
  {
    var m := MESSAGES;
    NamesAreOk();
    MoreNamesAreOk();
    assert m.session[0] == 's' && m.event[0] == 'e' && m.data[0] == 'd' && m.created[0] == 'c';
  }

  /** `INSERT INTO table (a, b, ...) VALUES `: for `SQL` and `MESSAGES` the text insert_batch starts from. */
  function InsertHead(kw: Keywords, sc: Schema): string {
    kw.insert + (sc.table + (kw.open + (Join(sc.Inserted()) + kw.values)))
  }

  /** `UPDATE table SET column = $1 WHERE id IN `: the text of mark_delivered up to its list. */
  function UpdateHead(kw: Keywords, sc: Schema): string {
    kw.update + (sc.table + (kw.set_ + (sc.delivered + (kw.equals
      + (Placeholder(1) + (kw.where_ + (sc.id + kw.in_)))))))
  }

  lemma ColumnList()
    ensures Join(MESSAGES.Inserted())
            == "session_id" + (", " + ("event_type" + (", " + ("data" + (", " + "created_at")))))
  {
    var c1, c2, c3 := ["event_type", "data", "created_at"], ["data", "created_at"], ["created_at"];
    assert MESSAGES.Inserted()[1..] == c1 && c1[1..] == c2 && c2[1..] == c3;
    assert Join(c3) == "created_at" && Join(c2) == "data" + (", " + "created_at");
    assert Join(c1) == "event_type" + (", " + Join(c2));
  }

  /** The texts the source starts from. */
  lemma HeadTexts()
    ensures InsertHead(SQL, MESSAGES)
            == "INSERT INTO " + ("solid_mcp_messages" + (" (" + (Join(MESSAGES.Inserted()) + ") VALUES ")))
    ensures UpdateHead(SQL, MESSAGES)
            == "UPDATE " + ("solid_mcp_messages" + (" SET " + ("delivered_at" + (" = "
               + (Placeholder(1) + (" WHERE " + ("id" + " IN ")))))))
    ensures Placeholder(1) == "$" + "1"
  {
    ColumnList();
  }

  /** What an INSERT says: which table, which columns, and for each row which placeholder stands in which column. */
  datatype InsertText = InsertText(table: string, columns: seq<string>, groups: seq<seq<nat>>)

  function ReadInsert(kw: Keywords, s: string): Option<InsertText> {
    match Skip(kw.insert, s)
    case None => None
    case Some(s1) =>
      var (table, s2) := ReadName(s1);
      match Skip(kw.open, s2)
      case None => None
      case Some(s3) =>
        var (columns, s4) := ReadNames(s3);
        ReadValues(kw, table, columns, s4)
  }

  function ReadValues(kw: Keywords, table: string, columns: seq<string>, s: string): Option<InsertText> {
    match Skip(kw.values, s)
    case None => None
    case Some(rest) =>
      match ReadGroups(rest)
      case None => None
      case Some(groups) => Some(InsertText(table, columns, groups))
  }

  /** What an UPDATE says: which column of which table gets which placeholder, for the rows whose key is among which
      placeholders. */
  datatype UpdateText = UpdateText(table: string, column: string, value: nat, key: string, keys: seq<nat>)

  function ReadUpdate(kw: Keywords, s: string): Option<UpdateText> {
    match Skip(kw.update, s)
    case None => None
    case Some(s1) =>
      var (table, s2) := ReadName(s1);
      match Skip(kw.set_, s2)
      case None => None
      case Some(s3) =>
        var (column, s4) := ReadName(s3);
        match Skip(kw.equals, s4)
        case None => None
        case Some(s5) => ReadValue(kw, table, column, s5)
  }

  function ReadValue(kw: Keywords, table: string, column: string, s: string): Option<UpdateText> {
    match ReadPlaceholder(s)
    case None => None
    case Some((k, s1)) =>
      match Skip(kw.where_, s1)
      case None => None
      case Some(s2) =>
        var (key, s3) := ReadName(s2);
        ReadKeys(kw, table, column, k, key, s3)
  }

  function ReadKeys(kw: Keywords, table: string, column: string, k: nat, key: string, s: string): Option<UpdateText> {
    match Skip(kw.in_, s)
    case None => None
    case Some(rest) =>
      match ReadGroups(rest)
      case None => None
      case Some(groups) => if |groups| == 1 then Some(UpdateText(table, column, k, key, groups[0])) else None
  }

  // ---- Reading what was built ----

  lemma Associates5(a: string, b: string, c: string, d: string, e: string, f: string)
    ensures (a + (b + (c + (d + e)))) + f == a + (b + (c + (d + (e + f))))
  {
  }

  lemma ValuesRead(kw: Keywords, table: string, columns: seq<string>, text: string)
    requires ReadGroups(text).Some?
    ensures ReadValues(kw, table, columns, kw.values + text) == Some(InsertText(table, columns, ReadGroups(text).value))
  {
    SkipReads(kw.values, text);
  }

  lemma TokenEndsName(token: string, rest: string)
    requires EndsName(token)
    ensures EndsName(token + rest)
  {
    assert (token + rest)[0] == token[0];
  }

  lemma StaysUnseparated(token: string, rest: string)
    requires EndsName(token) && !Separated(token) && |token| >= 2
    ensures !Separated(token + rest)
  {
    assert (token + rest)[0] == token[0] && (token + rest)[1] == token[1];
  }

  lemma InsertReads(kw: Keywords, sc: Schema, text: string)
    requires kw.Ok() && sc.Ok() && ReadGroups(text).Some?
    ensures ReadInsert(kw, InsertHead(kw, sc) + text)
            == Some(InsertText(sc.table, sc.Inserted(), ReadGroups(text).value))
  {
    var s4 := kw.values + text;
    var s3 := Join(sc.Inserted()) + s4;
    var s2 := kw.open + s3;
    Associates5(kw.insert, sc.table, kw.open, Join(sc.Inserted()), kw.values, text);
    SkipReads(kw.insert, sc.table + s2);
    TokenEndsName(kw.open, s3);
    NameReads(sc.table, s2);
    SkipReads(kw.open, s3);
    TokenEndsName(kw.values, text);
    StaysUnseparated(kw.values, text);
    NamesRead(sc.Inserted(), s4);
    ValuesRead(kw, sc.table, sc.Inserted(), text);
  }

  lemma KeysRead(kw: Keywords, table: string, column: string, k: nat, key: string, text: string, ks: seq<nat>)
    requires ReadGroups(text) == Some([ks])
    ensures ReadKeys(kw, table, column, k, key, kw.in_ + text) == Some(UpdateText(table, column, k, key, ks))
  {
    SkipReads(kw.in_, text);
  }

  lemma ValueReads(kw: Keywords, table: string, column: string, k: nat, key: string, text: string, ks: seq<nat>)
    requires kw.Ok() && IsName(key) && ReadGroups(text) == Some([ks])
    ensures ReadValue(kw, table, column, Placeholder(k) + (kw.where_ + (key + (kw.in_ + text))))
            == Some(UpdateText(table, column, k, key, ks))
  {
    var s3 := kw.in_ + text;
    var s2 := key + s3;
    var s1 := kw.where_ + s2;
    assert s1[0] == kw.where_[0];
    PlaceholderReads(k, s1);
    SkipReads(kw.where_, s2);
    TokenEndsName(kw.in_, text);
    NameReads(key, s3);
    KeysRead(kw, table, column, k, key, text, ks);
  }

  lemma UpdateAssociates(kw: Keywords, sc: Schema, text: string)
    ensures UpdateHead(kw, sc) + text
            == kw.update + (sc.table + (kw.set_ + (sc.delivered + (kw.equals
               + (Placeholder(1) + (kw.where_ + (sc.id + (kw.in_ + text))))))))
  {
    var p := Placeholder(1);
    Associates5(p, kw.where_, sc.id, kw.in_, [], text);
    assert kw.in_ + [] == kw.in_ && [] + text == text;
    Associates5(kw.update, sc.table, kw.set_, sc.delivered, kw.equals + (p + (kw.where_ + (sc.id + kw.in_))), text);
    var tail := p + (kw.where_ + (sc.id + kw.in_));
    assert (kw.equals + tail) + text == kw.equals + (tail + text);
  }

  lemma UpdateReads(kw: Keywords, sc: Schema, text: string, ks: seq<nat>)
    requires kw.Ok() && sc.Ok() && ReadGroups(text) == Some([ks])
    ensures ReadUpdate(kw, UpdateHead(kw, sc) + text) == Some(UpdateText(sc.table, sc.delivered, 1, sc.id, ks))
  {
    var s5 := Placeholder(1) + (kw.where_ + (sc.id + (kw.in_ + text)));
    var s4 := kw.equals + s5;
    var s3 := sc.delivered + s4;
    var s2 := kw.set_ + s3;
    UpdateAssociates(kw, sc, text);
    SkipReads(kw.update, sc.table + s2);
    TokenEndsName(kw.set_, s3);
    NameReads(sc.table, s2);
    SkipReads(kw.set_, s3);
    TokenEndsName(kw.equals, s5);
    NameReads(sc.delivered, s4);
    SkipReads(kw.equals, s5);
    ValueReads(kw, sc.table, sc.delivered, 1, sc.id, text, ks);
  }

  // ---- What the statements denote ----

  /** The rows an INSERT stores: for each its columns by name. */
  datatype Insertion = Insertion(table: string, columns: seq<string>, rows: seq<seq<Param>>)

  function Inserts(kw: Keywords, query: string, params: seq<Param>): Option<Insertion> {
    match ReadInsert(kw, query)
    case None => None
    case Some(t) =>
      match ResolveAll(t.groups, params)
      case None => None
      case Some(rows) => Some(Insertion(t.table, t.columns, rows))
  }

  /** The value a row has in the named column. */
  function InColumn(columns: seq<string>, row: seq<Param>, name: string): Option<Param> {
    if columns == [] || row == [] then None
    else if columns[0] == name then Some(row[0]) else InColumn(columns[1..], row[1..], name)
  }

  datatype Setting = Setting(table: string, column: string, value: Param, key: string, keys: seq<Param>)

  function Sets(kw: Keywords, query: string, params: seq<Param>): Option<Setting> {
    match ReadUpdate(kw, query)
    case None => None
    case Some(t) =>
      match (Resolve([t.value], params), Resolve(t.keys, params))
      case (Some(v), Some(keys)) => if |v| == 1 then Some(Setting(t.table, t.column, v[0], t.key, keys)) else None
      case _ => None
  }

  /** The built INSERT stores exactly the batch's rows, in order, in the named columns of the named table. */
  lemma InsertDenotesRows(kw: Keywords, sc: Schema, ms: seq<Message>, row: Message -> seq<Param>)
    requires kw.Ok() && sc.Ok() && ms != [] && forall m :: |row(m)| == 4
    ensures Inserts(kw, InsertHead(kw, sc) + Tuples(|ms|), Columns(ms, row))
            == Some(Insertion(sc.table, sc.Inserted(), Rows(ms, row)))
  {
    TuplesRead(|ms|);
    InsertReads(kw, sc, Tuples(|ms|));
    BlocksAreRows(ms, row);
    TextInserts(kw, InsertHead(kw, sc) + Tuples(|ms|), InsertText(sc.table, sc.Inserted(), TupleNumbers(0, |ms|)),
                Columns(ms, row), Rows(ms, row));
  }

  lemma TextInserts(kw: Keywords, query: string, t: InsertText, params: seq<Param>, rows: seq<seq<Param>>)
    requires ReadInsert(kw, query) == Some(t) && ResolveAll(t.groups, params) == Some(rows)
    ensures Inserts(kw, query, params) == Some(Insertion(t.table, t.columns, rows))
  {
  }

  /** The built UPDATE sets the named column to the first bound value, the timestamp, in exactly the rows whose key is
      among the values bound after it. */
  lemma UpdateDenotesIds(kw: Keywords, sc: Schema, params: seq<Param>)
    requires kw.Ok() && sc.Ok() && |params| >= 2
    ensures Sets(kw, UpdateHead(kw, sc) + ("(" + GroupText(2, |params|)), params)
            == Some(Setting(sc.table, sc.delivered, params[0], sc.id, params[1..]))
  {
    var ks := KeysResolve(params);
    UpdateReads(kw, sc, "(" + GroupText(2, |params|), ks);
    TextSets(kw, UpdateHead(kw, sc) + ("(" + GroupText(2, |params|)),
             UpdateText(sc.table, sc.delivered, 1, sc.id, ks), params, params[1..]);
  }

  lemma KeysResolve(params: seq<Param>) returns (ks: seq<nat>)
    requires |params| >= 2
    ensures ReadGroups("(" + GroupText(2, |params|)) == Some([ks]) && Resolve(ks, params) == Some(params[1..])
  {
    ks := Numbers(2, |params|);
    GroupAloneReads(2, |params|);
    RangeResolves(params, 2, |params|);
    assert params[1..|params|] == params[1..];
  }

  lemma TextSets(kw: Keywords, query: string, t: UpdateText, params: seq<Param>, keys: seq<Param>)
    requires ReadUpdate(kw, query) == Some(t) && t.value == 1 && params != [] && Resolve(t.keys, params) == Some(keys)
    ensures Sets(kw, query, params) == Some(Setting(t.table, t.column, params[0], t.key, keys))
  {
    OneResolves(params);
  }

  lemma OneResolves(params: seq<Param>)
    requires params != []
    ensures Resolve([1], params) == Some([params[0]])
  {
    var ks: seq<nat> := [1];
    assert ks[1..] == [];
    assert Resolve(ks[1..], params) == Some([]);
    assert [params[0]] + [] == [params[0]];
  }
}
