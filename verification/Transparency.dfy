/** Batching is invisible in the table: only the order of the accepted messages shows. */
module Transparency {
  import opened Ledgers
  import opened Batches
  import W = Writer
  import R = RubyWriter
  import P = Pipeline
  import Q = RubyPipeline

  /** The same messages in the same id order. */
  ghost predicate SameContents(a: seq<Cell>, b: seq<Cell>) {
    |a| == |b| && forall i :: 0 <= i < |a| ==> a[i].msg == b[i].msg
  }

  /** Ids without gaps: no failed insert burned any. */
  ghost predicate Dense(cells: seq<Cell>) {
    forall i :: 0 <= i < |cells| ==> cells[i].id == i + 1
  }

  lemma SameAttemptsSameTable(a: seq<Cell>, as1: seq<Attempt>, b: seq<Cell>, as2: seq<Attempt>)
    requires Holds(a, as1) && Holds(b, as2) && AllSucceeded(as1) && AllSucceeded(as2)
    requires Attempted(as1) == Attempted(as2)
    ensures SameContents(a, b)
    ensures Dense(a) && Dense(b) ==> forall i :: 0 <= i < |a| ==> a[i].AsEntry() == b[i].AsEntry()
  {
    SuccessMeansWritten(as1);
    SuccessMeansWritten(as2);
    forall i | 0 <= i < |a| ensures a[i].msg == b[i].msg {
      assert a[i].AsEntry().msg == Written(as1)[i] && b[i].AsEntry().msg == Written(as2)[i];
    }
  }

  /** Two runs of the Rust engine, with any two batch sizes and any interleavings, that accepted the same messages in
      the same order, had no failed insert and have nothing left to write: their tables have the same contents. */
  lemma RustBatchingIsTransparent(c1: P.Config, es1: seq<P.Event>, c2: P.Config, es2: seq<P.Event>)
    requires P.Run(c1, es1).Some? && P.Run(c2, es2).Some?
    requires var y1, y2 := P.Run(c1, es1).value, P.Run(c2, es2).value;
             && W.Settled(y1.w) && W.Settled(y2.w)
             && AllSucceeded(y1.w.attempts) && AllSucceeded(y2.w.attempts)
             && W.Posts(W.Sent(y1.w)) == W.Posts(W.Sent(y2.w))
    ensures SameContents(P.Run(c1, es1).value.l.cells, P.Run(c2, es2).value.l.cells)
  {
    var y1, y2 := P.Run(c1, es1).value, P.Run(c2, es2).value;
    P.RunKeepsInv(c1, es1);
    P.RunKeepsInv(c2, es2);
    W.SettledInv(c1.writer, y1.w);
    W.SettledInv(c2.writer, y2.w);
    SameAttemptsSameTable(y1.l.cells, y1.w.attempts, y2.l.cells, y2.w.attempts);
  }

  /** The same for two runs of the Ruby writer, and across the two writers. */
  lemma RubyBatchingIsTransparent(c: R.Config, es: seq<Q.Event>, d: R.Config, fs: seq<Q.Event>)
    requires Q.Run(c, es).Some? && Q.Run(d, fs).Some?
    requires var y, z := Q.Run(c, es).value, Q.Run(d, fs).value;
             && R.Settled(y.w) && R.Settled(z.w) && AllSucceeded(y.w.attempts) && AllSucceeded(z.w.attempts)
             && R.Posts(R.Pushed(y.w)) == R.Posts(R.Pushed(z.w))
    ensures SameContents(Q.Run(c, es).value.l.cells, Q.Run(d, fs).value.l.cells)
  {
    var y, z := Q.Run(c, es).value, Q.Run(d, fs).value;
    Q.RunFillsTheTable(c, es);
    Q.RunFillsTheTable(d, fs);
    R.SettledInv(c, y.w);
    R.SettledInv(d, z.w);
    SameAttemptsSameTable(y.l.cells, y.w.attempts, z.l.cells, z.w.attempts);
  }

  /** A run of the Rust engine and a run of the Ruby writer with its table that accepted the same messages in the same
      order, had no failed insert and have nothing left to write: the tables have the same contents, and the same ids
      when neither skipped any. */
  lemma RustAndRubyFillTheSameTable(c: P.Config, es: seq<P.Event>, d: R.Config, fs: seq<Q.Event>)
    requires P.Run(c, es).Some? && Q.Run(d, fs).Some?
    requires var y, z := P.Run(c, es).value, Q.Run(d, fs).value;
             && W.Settled(y.w) && R.Settled(z.w) && AllSucceeded(y.w.attempts) && AllSucceeded(z.w.attempts)
             && W.Posts(W.Sent(y.w)) == R.Posts(R.Pushed(z.w))
    ensures var a, b := P.Run(c, es).value.l.cells, Q.Run(d, fs).value.l.cells;
            && SameContents(a, b)
            && (Dense(a) && Dense(b) ==> forall i :: 0 <= i < |a| ==> a[i].AsEntry() == b[i].AsEntry())
  {
    var y, z := P.Run(c, es).value, Q.Run(d, fs).value;
    P.RunKeepsInv(c, es);
    Q.RunFillsTheTable(d, fs);
    W.SettledInv(c.writer, y.w);
    R.SettledInv(d, z.w);
    SameAttemptsSameTable(y.l.cells, y.w.attempts, z.l.cells, z.w.attempts);
  }
}
