/**
 Parallel apply against serial replay: for a log as a source numbers it, the rows come out the
 same on every run, whatever the data, if and only if the coordinator can not have two
 conflicting transactions in flight together.
 */
module SerialReplay {
  import opened Basics
  import opened Transactions
  import opened AssignedQueue
  import opened SchedulerState
  import opened ReplicaRuns
  import opened CoordinatorRuns

  // The coordinator keeps conflicting transactions apart.
  ghost predicate KeptApart(log: seq<Item>, size: nat) {
    forall i: nat, j: nat :: i < j < |log| && Conflict(log[i].trx, log[j].trx) ==> !Overlapping(log, size, i, j)
  }

  // Everything has been scheduled and has finished.
  predicate Complete(log: seq<Item>, a: Applier) {
    |a.v.History()| == |log| && forall k :: 0 <= k < |log| ==> a.v.History()[k].done
  }

  lemma RanIsolated(log: seq<Item>, db: Db, size: nat, acts: seq<Act>, a: Applier)
    requires 0 < size && a in Runs(log, db, size, acts) && KeptApart(log, size)
    ensures |a.v.History()| <= |log| && Isolated(log, a.v.History())
  {
    var _ := RanIsReached(log, db, size, acts, a);
    forall i: nat, j: nat | i < j < |a.v.History()| && Conflict(log[i].trx, log[j].trx)
      ensures a.v.History()[i].done
    {
      OverlapNeeds(log, db, size, acts, a, i, j);
    }
  }

  lemma {:induction false} RanInOrder(log: seq<Item>, db: Db, size: nat, acts: seq<Act>, a: Applier)
    requires 0 < size && a in Runs(log, db, size, acts) && KeptApart(log, size)
    ensures ProgressInv(log, Seen(a)) && a.db == InOrder(log, a.progress, |log|, db)
    decreases |acts|
  {
    var _ := RanIsReached(log, db, size, acts, a);
    if acts == [] {
      NothingApplied(log, a.progress, |log|, db);
    } else {
      var n := |acts| - 1;
      var a0 :| Ran(log, db, size, acts[..n], a0) && CanAct(log, a0, acts[n]) && a == Acted(log, a0, acts[n]);
      var _ := RanIsReached(log, db, size, acts[..n], a0);
      RanInOrder(log, db, size, acts[..n], a0);
      RanIsolated(log, db, size, acts[..n], a0);
      ActIsEvent(log, a0, acts[n]);
      if EventOf(a0, acts[n]).Some? {
        NextKeepsOrder(log, db, Seen(a0), EventOf(a0, acts[n]).value);
      }
    }
  }

  lemma CompleteIsSerialReplay(log: seq<Item>, db: Db, size: nat, acts: seq<Act>, a: Applier)
    requires 0 < size && a in Runs(log, db, size, acts) && KeptApart(log, size) && Complete(log, a)
    ensures a.db == Serial(log, db)
  {
    RanInOrder(log, db, size, acts, a);
    FinishedIsSerial(log, db, Seen(a));
  }

  /******* Telling the order of two transactions *******/

  // All changes of the row set it to this value.
  ghost predicate Sets(ops: seq<RowOp>, r: Row, v: Image) {
    forall k :: 0 <= k < |ops| && ops[k].row == r ==> forall x :: ops[k].change(x) == Some(v)
  }

  // No change of the row has an effect.
  ghost predicate Keeps(ops: seq<RowOp>, r: Row) {
    forall k :: 0 <= k < |ops| && ops[k].row == r ==> forall x :: ops[k].change(x) == x
  }

  lemma {:induction false} SetsRow(db: Db, ops: seq<RowOp>, r: Row, v: Image)
    requires Sets(ops, r, v) && Touches(ops, r)
    ensures Lookup(ApplyOps(db, ops), r) == Some(v)
  {
    var n := |ops| - 1;
    if ops[n].row != r {
      var k :| 0 <= k < |ops| && ops[k].row == r;
      assert ops[..n][k].row == r;
      SetsRow(db, ops[..n], r, v);
    }
  }

  lemma {:induction false} KeepsRow(db: Db, ops: seq<RowOp>, r: Row)
    requires Keeps(ops, r)
    ensures Lookup(ApplyOps(db, ops), r) == Lookup(db, r)
  {
    if ops != [] {
      KeepsRow(db, ops[..|ops| - 1], r);
    }
  }

  // The same transactions with other data: transaction i sets the row to 1, j sets it to 2, and
  // nobody else changes anything.
  function Change(hit: bool, k: nat, i: nat, j: nat): Option<Image> -> Option<Image> {
    if hit && k == i then _ => Some(1)
    else if hit && k == j then _ => Some(2)
    else x => x
  }

  function Marked(log: seq<Item>, i: nat, j: nat, r: Row): (log': seq<Item>)
    ensures |log'| == |log|
    ensures forall k :: 0 <= k < |log| ==>
      log'[k] == log[k].(trx := log[k].trx.(ops := MarkedOps(log[k].trx.ops, k, i, j, r)))
  {
    seq(|log|, k requires 0 <= k < |log| =>
      log[k].(trx := log[k].trx.(ops := MarkedOps(log[k].trx.ops, k, i, j, r))))
  }

  function MarkedOps(ops: seq<RowOp>, k: nat, i: nat, j: nat, r: Row): (ops': seq<RowOp>)
    ensures |ops'| == |ops|
    ensures forall n :: 0 <= n < |ops| ==> ops'[n] == RowOp(ops[n].row, Change(ops[n].row == r, k, i, j))
  {
    seq(|ops|, n requires 0 <= n < |ops| => RowOp(ops[n].row, Change(ops[n].row == r, k, i, j)))
  }

  // The same transactions, numbers and rows; the data may differ.
  ghost predicate SameRows(log: seq<Item>, log': seq<Item>) {
    && |log'| == |log|
    && forall k :: 0 <= k < |log| ==>
      && log'[k] == log[k].(trx := log[k].trx.(ops := log'[k].trx.ops))
      && |log'[k].trx.ops| == |log[k].trx.ops|
      && forall n :: 0 <= n < |log[k].trx.ops| ==> log'[k].trx.ops[n].row == log[k].trx.ops[n].row
  }

  lemma SameOverlaps(log: seq<Item>, log': seq<Item>, size: nat, i: nat, j: nat)
    requires SameRows(log, log') && i < j < |log|
    ensures Overlapping(log, size, i, j) <==> Overlapping(log', size, i, j)
    ensures Conflict(log[i].trx, log[j].trx) <==> Conflict(log'[i].trx, log'[j].trx)
    ensures WellNumbered(log) <==> WellNumbered(log')
  {
    SameHeldBack(log, log', i, j);
    SameHeldBack(log', log, i, j);
    SameTouches(log[i].trx.ops, log'[i].trx.ops);
    SameTouches(log[j].trx.ops, log'[j].trx.ops);
  }

  lemma SameHeldBack(log: seq<Item>, log': seq<Item>, i: nat, j: nat)
    requires SameRows(log, log') && i < j < |log|
    ensures HeldBack(log, i, j) ==> HeldBack(log', i, j)
  {
    if k: nat :| i < k <= j && WaitsFor(log, i, k) {
      assert WaitsFor(log', i, k);
    }
  }

  lemma SameTouches(ops: seq<RowOp>, ops': seq<RowOp>)
    requires |ops| == |ops'| && forall n :: 0 <= n < |ops| ==> ops[n].row == ops'[n].row
    ensures forall r :: Touches(ops, r) <==> Touches(ops', r)
  {
    forall r
      ensures Touches(ops, r) <==> Touches(ops', r)
    {
      if n :| 0 <= n < |ops| && ops[n].row == r {
        assert ops'[n].row == r;
      }
      if n :| 0 <= n < |ops| && ops'[n].row == r {
        assert ops[n].row == r;
      }
    }
  }

  lemma MarkedOpsAct(ops: seq<RowOp>, k: nat, i: nat, j: nat, r: Row)
    requires i != j
    ensures k == i ==> Sets(MarkedOps(ops, k, i, j, r), r, 1)
    ensures k == j ==> Sets(MarkedOps(ops, k, i, j, r), r, 2)
    ensures k != i && k != j ==> Keeps(MarkedOps(ops, k, i, j, r), r)
    ensures Touches(ops, r) <==> Touches(MarkedOps(ops, k, i, j, r), r)
  {
    SameTouches(ops, MarkedOps(ops, k, i, j, r));
  }

  // Transactions i and j write the row, and those behind them leave it alone.
  ghost predicate Tells(log: seq<Item>, i: nat, j: nat, r: Row) {
    && i < j < |log|
    && Sets(log[i].trx.ops, r, 1) && Touches(log[i].trx.ops, r)
    && Sets(log[j].trx.ops, r, 2) && Touches(log[j].trx.ops, r)
    && forall k :: j < k < |log| ==> Keeps(log[k].trx.ops, r)
  }

  lemma MarkedTells(log: seq<Item>, i: nat, j: nat, r: Row)
    requires i < j < |log| && Touches(log[i].trx.ops, r) && Touches(log[j].trx.ops, r)
    ensures SameRows(log, Marked(log, i, j, r)) && Tells(Marked(log, i, j, r), i, j, r)
  {
    forall k | 0 <= k < |log|
      ensures k > j ==> Keeps(Marked(log, i, j, r)[k].trx.ops, r)
    {
      MarkedOpsAct(log[k].trx.ops, k, i, j, r);
    }
    MarkedOpsAct(log[i].trx.ops, i, i, j, r);
    MarkedOpsAct(log[j].trx.ops, j, i, j, r);
  }

  // Serial replay leaves what j wrote.
  lemma {:induction false} SerialLeavesLater(log: seq<Item>, i: nat, j: nat, r: Row, db: Db, n: nat)
    requires Tells(log, i, j, r) && j < n <= |log|
    ensures Lookup(Serial(log[..n], db), r) == Some(2)
  {
    var init := log[..n - 1];
    assert log[..n][..n - 1] == init && log[..n][n - 1] == log[n - 1];
    if n - 1 == j {
      SetsRow(Serial(init, db), log[j].trx.ops, r, 2);
    } else {
      SerialLeavesLater(log, i, j, r, db, n - 1);
      KeepsRow(Serial(init, db), log[n - 1].trx.ops, r);
    }
  }

  // Both transactions have been scheduled and neither has changed anything yet; i heads the
  // queue, j ends it, and those in between have finished.
  ghost predicate BothWait(log: seq<Item>, a: Applier, i: nat, j: nat) {
    && i < j < |log| == |a.progress| && |a.v.removed| == i && |a.v.items| == j - i + 1 && !a.forced
    && (forall k :: 0 <= k < |a.v.items| ==> (a.v.items[k].done <==> k != 0 && k != j - i))
    && a.v.last == a.v.items[j - i].sequenceNumber == log[j].sequenceNumber
    && a.progress[i] == 0 && a.progress[j] == 0
  }

  lemma RunUntilBothWait(log: seq<Item>, db: Db, size: nat, i: nat, j: nat) returns (acts: seq<Act>, a: Applier)
    requires 0 < size && WellNumbered(log) && i < j < |log| && Overlapping(log, size, i, j)
    ensures a in Runs(log, db, size, acts) && BothWait(log, a, i, j)
  {
    acts, a := RunBesideFirst(log, db, size, i, j);
    assert !WaitsFor(log, i, j);
    acts, a := JoinBeside(log, db, size, acts, a, i, j);
  }

  // The later one runs to its end, then the earlier one, and all leave the queue.
  lemma FinishInReverse(log: seq<Item>, db: Db, size: nat, acts: seq<Act>, a: Applier, i: nat, j: nat)
    returns (more: seq<Act>, a': Applier)
    requires 0 < size && a in Runs(log, db, size, acts) && BothWait(log, a, i, j)
    ensures a' in Runs(log, db, size, more) && AtRest(log, a', j + 1) && AllDone(a'.v.removed)
    ensures exists db0 :: a'.db == ApplyOps(db0, log[i].trx.ops)
  {
    Room(log, db, size, acts, a);
    var b;
    more, b := FinishGroup(log, db, size, acts, a, j - i);
    Room(log, db, size, more, b);
    more, a' := FinishGroup(log, db, size, more, b, 0);
    assert Left(log, b, i) == log[i].trx.ops;
    Room(log, db, size, more, a');
    RunEndIs(a'.v.items, 0, j - i + 1);
    var c := a';
    more := CoordinatorRuns.Then(log, db, size, more, a', Coordinate(Collect));
    a' := Acted(log, a', Coordinate(Collect));
    var events := RanIsReached(log, db, size, more, a');
    assert a'.db == ApplyOps(b.db, log[i].trx.ops);
  }

  // The rest of the log is applied one by one, and leaves the row alone.
  lemma {:induction false} RunToEnd(log: seq<Item>, db: Db, size: nat, acts: seq<Act>, a: Applier, n: nat, r: Row)
    returns (more: seq<Act>, a': Applier)
    requires 0 < size && a in Runs(log, db, size, acts) && WellNumbered(log) && AtRest(log, a, n)
    requires forall k :: n <= k < |log| ==> Keeps(log[k].trx.ops, r)
    ensures a' in Runs(log, db, size, more) && AtRest(log, a', |log|)
    ensures Lookup(a'.db, r) == Lookup(a.db, r)
    decreases |log| - n
  {
    if n == |log| {
      more, a' := acts, a;
    } else {
      var b, c;
      more, b := ScheduleNext(log, db, size, acts, a, n);
      more, c := FinishAlone(log, db, size, more, b, n);
      assert Left(log, b, n) == log[n].trx.ops;
      KeepsRow(b.db, log[n].trx.ops, r);
      more, a' := RunToEnd(log, db, size, more, c, n + 1, r);
    }
  }

  lemma AtRestIsComplete(log: seq<Item>, db: Db, size: nat, acts: seq<Act>, a: Applier)
    requires 0 < size && a in Runs(log, db, size, acts) && AtRest(log, a, |log|)
    ensures Complete(log, a)
  {
    var _ := RanIsReached(log, db, size, acts, a);
    assert a.v.History() == a.v.removed;
  }

  // Data that shows in which order the two ran.
  lemma RunInReverse(log: seq<Item>, db: Db, size: nat, i: nat, j: nat, r: Row) returns (acts: seq<Act>, a: Applier)
    requires 0 < size && WellNumbered(log) && Tells(log, i, j, r) && Overlapping(log, size, i, j)
    ensures a in Runs(log, db, size, acts) && Complete(log, a) && a.db != Serial(log, db)
  {
    acts, a := RunUntilBothWait(log, db, size, i, j);
    acts, a := FinishInReverse(log, db, size, acts, a, i, j);
    var db0 :| a.db == ApplyOps(db0, log[i].trx.ops);
    SetsRow(db0, log[i].trx.ops, r, 1);
    acts, a := RunToEnd(log, db, size, acts, a, j + 1, r);
    AtRestIsComplete(log, db, size, acts, a);
    SerialLeavesLater(log, i, j, r, db, |log|);
    assert log[..|log|] == log;
  }

  // Two conflicting transactions that can overlap.
  lemma RunsDiffer(log: seq<Item>, db: Db, size: nat, i: nat, j: nat)
    returns (log': seq<Item>, acts: seq<Act>, a: Applier)
    requires 0 < size && WellNumbered(log) && i < j < |log| && Overlapping(log, size, i, j)
    requires Conflict(log[i].trx, log[j].trx)
    ensures SameRows(log, log') && a in Runs(log', db, size, acts) && Complete(log', a)
    ensures a.db != Serial(log', db)
  {
    var r :| Touches(log[i].trx.ops, r) && Touches(log[j].trx.ops, r);
    log' := Marked(log, i, j, r);
    MarkedTells(log, i, j, r);
    SameOverlaps(log, log', size, i, j);
    acts, a := RunInReverse(log', db, size, i, j, r);
  }

  // Whatever the data, every run that finishes leaves the rows of serial replay.
  ghost predicate AlwaysSerial(log: seq<Item>, size: nat) {
    forall log', db, acts, a ::
      SameRows(log, log') && a in Runs(log', db, size, acts) && Complete(log', a) ==> a.db == Serial(log', db)
  }

  /**
   Parallel apply is serial replay if and only if conflicting transactions can not overlap.
   */
  lemma SerialExactly(log: seq<Item>, size: nat)
    requires 0 < size && WellNumbered(log)
    ensures AlwaysSerial(log, size) <==> KeptApart(log, size)
  {
    if KeptApart(log, size) {
      forall log', db, acts, a | SameRows(log, log') && a in Runs(log', db, size, acts) && Complete(log', a)
        ensures a.db == Serial(log', db)
      {
        SameKeptApart(log, log', size);
        CompleteIsSerialReplay(log', db, size, acts, a);
      }
    } else {
      var i: nat, j: nat :| i < j < |log| && Conflict(log[i].trx, log[j].trx) && Overlapping(log, size, i, j);
      var log', acts, a := RunsDiffer(log, map[], size, i, j);
    }
  }

  lemma SameKeptApart(log: seq<Item>, log': seq<Item>, size: nat)
    requires SameRows(log, log') && KeptApart(log, size)
    ensures KeptApart(log', size)
  {
    forall i: nat, j: nat | i < j < |log'| && Conflict(log'[i].trx, log'[j].trx)
      ensures !Overlapping(log', size, i, j)
    {
      SameOverlaps(log, log', size, i, j);
    }
  }
}
