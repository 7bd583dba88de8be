/** Batch writes, in the order a writer attempted them: what both writers and the table have in common. */
module Batches {
  import opened Wrappers
  import opened Ledgers

  /** One `insert_batch` / `insert_all`: `ids` are the ids of the new rows, or None when the insert failed.
      `final` marks the insert made while shutting down. */
  datatype Attempt = Attempt(msgs: seq<Message>, ids: Option<seq<int>>, final: bool) {
    ghost predicate WellFormed() {
      msgs != [] && (ids.Some? ==> |ids.value| == |msgs|)
    }
  }

  /** Every message whose write was attempted, in order. */
  function Attempted(attempts: seq<Attempt>): seq<Message> {
    if attempts == [] then [] else Attempted(attempts[..|attempts| - 1]) + attempts[|attempts| - 1].msgs
  }

  /** The same with the failed batches removed, whole. */
  function Written(attempts: seq<Attempt>): seq<Message> {
    if attempts == [] then []
    else Written(attempts[..|attempts| - 1])
         + if attempts[|attempts| - 1].ids.Some? then attempts[|attempts| - 1].msgs else []
  }

  /** The ids of the written rows, in order. */
  function WrittenIds(attempts: seq<Attempt>): seq<int> {
    if attempts == [] then []
    else WrittenIds(attempts[..|attempts| - 1])
         + if attempts[|attempts| - 1].ids.Some? then attempts[|attempts| - 1].ids.value else []
  }

  ghost predicate AllSucceeded(attempts: seq<Attempt>) {
    forall a :: a in attempts ==> a.ids.Some?
  }

  /** The table holds, in id order, exactly the written messages (dead rows included). */
  ghost predicate Holds(cells: seq<Cell>, attempts: seq<Attempt>) {
    && |cells| == |Written(attempts)| == |WrittenIds(attempts)|
    && forall i :: 0 <= i < |cells| ==> cells[i].AsEntry() == Entry(WrittenIds(attempts)[i], Written(attempts)[i])
  }

  lemma {:induction false} SuccessMeansWritten(attempts: seq<Attempt>)
    requires AllSucceeded(attempts)
    ensures Written(attempts) == Attempted(attempts)
  {
    if attempts == [] {
    } else {
      assert attempts[|attempts| - 1] in attempts;
      SuccessMeansWritten(attempts[..|attempts| - 1]);
    }
  }

  /** A message is either in the table or in a batch whose insert failed. */
  lemma {:induction false} AttemptedOrFailed(attempts: seq<Attempt>, m: Message)
    requires m in Attempted(attempts)
    ensures m in Written(attempts) || exists a :: a in attempts && a.ids.None? && m in a.msgs
  {
    var n := |attempts| - 1;
    if m in attempts[n].msgs {
      assert attempts[n] in attempts;
    } else {
      AttemptedOrFailed(attempts[..n], m);
    }
  }

  /** Moving the head of one list to the end of another. */
  lemma Shift<T>(a: seq<T>, b: seq<T>)
    requires b != []
    ensures (a + [b[0]]) + b[1..] == a + b
  {
  }

  lemma Associates<T>(a: seq<T>, b: seq<T>, c: seq<T>)
    ensures a + (b + c) == (a + b) + c
  {
  }

  lemma GrownHolds(cells: seq<Cell>, attempts: seq<Attempt>, a: Attempt)
    requires Holds(cells, attempts) && a.WellFormed() && a.ids.Some?
    ensures Holds(cells + NewCells(a.msgs, a.ids.value), attempts + [a])
  {
    assert (attempts + [a])[..|attempts|] == attempts;
    var grown := cells + NewCells(a.msgs, a.ids.value);
    var n := |cells|;
    forall i | 0 <= i < |grown|
      ensures grown[i].AsEntry() == Entry(WrittenIds(attempts + [a])[i], Written(attempts + [a])[i])
    {
      if i < n {
        assert grown[i] == cells[i];
      } else {
        assert grown[i] == Cell(a.ids.value[i - n], a.msgs[i - n], Live(None));
      }
    }
  }

  lemma InsertHolds(l: Ledger, attempts: seq<Attempt>, a: Attempt)
    requires Holds(l.cells, attempts) && a.WellFormed()
    requires a.ids.Some? ==> FreshIds(l.nextId, a.ids.value, |a.msgs|)
    ensures Holds(if a.ids.Some? then Insert(l, a.msgs, a.ids.value).cells else l.cells, attempts + [a])
  {
    if a.ids.Some? {
      GrownHolds(l.cells, attempts, a);
    } else {
      assert (attempts + [a])[..|attempts|] == attempts;
      assert Written(attempts + [a]) == Written(attempts) && WrittenIds(attempts + [a]) == WrittenIds(attempts);
    }
  }

  // ---- What the database saw ----

  /** The n-th insert was called with exactly the rows of the n-th attempt and failed exactly when the database did. */
  ghost predicate CallsMatch(inserts: seq<seq<Message>>, answers: nat -> Option<nat -> nat>, attempts: seq<Attempt>) {
    && |inserts| == |attempts|
    && forall i :: 0 <= i < |inserts| ==>
         inserts[i] == attempts[i].msgs && (attempts[i].ids.Some? <==> answers(i).Some?)
  }

  /** And the table holds what the successful ones wrote, in order. */
  ghost predicate Recorded(table: Ledger, inserts: seq<seq<Message>>, answers: nat -> Option<nat -> nat>,
                           attempts: seq<Attempt>)
  {
    Valid(table) && Holds(table.cells, attempts) && CallsMatch(inserts, answers, attempts)
  }

  lemma OneMoreCall(inserts: seq<seq<Message>>, answers: nat -> Option<nat -> nat>, attempts: seq<Attempt>, a: Attempt)
    requires CallsMatch(inserts, answers, attempts) && (a.ids.Some? <==> answers(|inserts|).Some?)
    ensures CallsMatch(inserts + [a.msgs], answers, attempts + [a])
  {
  }

  /** One more call. */
  lemma CallIsRecorded(table: Ledger, inserts: seq<seq<Message>>, answers: nat -> Option<nat -> nat>,
                       attempts: seq<Attempt>, a: Attempt)
    requires Recorded(table, inserts, answers, attempts) && a.WellFormed()
    requires a.ids.Some? <==> answers(|inserts|).Some?
    requires a.ids.Some? ==> FreshIds(table.nextId, a.ids.value, |a.msgs|)
    ensures Recorded(if a.ids.Some? then Insert(table, a.msgs, a.ids.value) else table,
                     inserts + [a.msgs], answers, attempts + [a])
  {
    OneMoreCall(inserts, answers, attempts, a);
    InsertHolds(table, attempts, a);
    if a.ids.Some? {
      InsertEvolves(table, a.msgs, a.ids.value);
    }
  }
}
