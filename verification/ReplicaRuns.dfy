/**
 A replica that applies a log in parallel under the scheduling rule, whatever the interleaving:
 which transactions can be in flight together, and what that does to the rows.
 */
module ReplicaRuns {
  import opened Basics
  import opened Transactions
  import opened AssignedQueue
  import opened SchedulerState

  // A transaction in the replica's log. The rotation to a new file forces a new batch, so the
  // first transaction of a file follows everything before it.
  datatype Item = Item(trx: Trx, sequenceNumber: int, lastCommitted: int, opensFile: bool)

  // The coordinator's history of groups, and how far each transaction has been applied.
  datatype Replica = Replica(db: Db, groups: seq<Group>, progress: seq<nat>)

  datatype Event = Start | Apply(i: nat) | Finish(i: nat)

  function Fresh(log: seq<Item>, db: Db): Replica {
    Replica(db, [], seq(|log|, _ => 0))
  }

  function GroupOf(item: Item): Group {
    Group(item.sequenceNumber, item.lastCommitted, false)
  }

  ghost predicate Enabled(log: seq<Item>, s: Replica, e: Event) {
    && |s.progress| == |log| && |s.groups| <= |log|
    && match e
      case Start =>
        var j := |s.groups|;
        && j < |log|
        && MayStart(s.groups, GroupOf(log[j]))
        && (log[j].opensFile ==> AllDone(s.groups))
      case Apply(i) => i < |s.groups| && !s.groups[i].done && s.progress[i] < |log[i].trx.ops|
      case Finish(i) => i < |s.groups| && !s.groups[i].done && s.progress[i] == |log[i].trx.ops|
  }

  function Next(log: seq<Item>, s: Replica, e: Event): Replica
    requires Enabled(log, s, e)
  {
    match e
    case Start => s.(groups := s.groups + [GroupOf(log[|s.groups|])])
    case Apply(i) =>
      s.(db := ApplyOp(s.db, log[i].trx.ops[s.progress[i]]), progress := s.progress[i := s.progress[i] + 1])
    case Finish(i) => s.(groups := SchedulerState.Finish(s.groups, i))
  }

  // The states a run of the replica goes through.
  ghost predicate Reached(log: seq<Item>, db: Db, events: seq<Event>, s: Replica)
    decreases |events|
  {
    if events == [] then s == Fresh(log, db)
    else
      var n := |events| - 1;
      exists s0 :: Reached(log, db, events[..n], s0) && Enabled(log, s0, events[n]) && s == Next(log, s0, events[n])
  }

  lemma Then(log: seq<Item>, db: Db, events: seq<Event>, s: Replica, e: Event) returns (more: seq<Event>)
    requires Reached(log, db, events, s) && Enabled(log, s, e)
    ensures Reached(log, db, more, Next(log, s, e))
  {
    more := events + [e];
    assert more[..|events|] == events;
  }

  /******* What waits for what *******/

  // Transaction k may not start before transaction i has finished: it comes first in a file,
  // has no parent, or a parent that is not below i.
  predicate WaitsFor(log: seq<Item>, i: nat, k: nat)
    requires i < |log| && k < |log|
  {
    log[k].opensFile || log[k].lastCommitted == SEQ_UNINIT || log[k].lastCommitted >= log[i].sequenceNumber
  }

  // Transactions start in log order, so j is held back also by others in between.
  ghost predicate HeldBack(log: seq<Item>, i: nat, j: nat)
    requires j < |log|
  {
    exists k: nat :: i < k <= j && WaitsFor(log, i, k)
  }

  ghost predicate ProgressInv(log: seq<Item>, s: Replica) {
    && |s.progress| == |log| && |s.groups| <= |log|
    && (forall k :: 0 <= k < |log| ==> s.progress[k] <= |log[k].trx.ops|)
    && (forall k :: |s.groups| <= k < |log| ==> s.progress[k] == 0)
    && (forall k :: 0 <= k < |s.groups| ==>
      && s.groups[k].sequenceNumber == log[k].sequenceNumber
      && (s.groups[k].done ==> s.progress[k] == |log[k].trx.ops|))
  }

  ghost predicate WaitsInv(log: seq<Item>, groups: seq<Group>)
    requires |groups| <= |log|
  {
    forall i, k :: 0 <= i < k < |groups| && WaitsFor(log, i, k) ==> groups[i].done
  }

  lemma StartKeepsWaits(log: seq<Item>, s: Replica)
    requires ProgressInv(log, s) && WaitsInv(log, s.groups) && Enabled(log, s, Start)
    ensures WaitsInv(log, Next(log, s, Start).groups)
  {
    var groups', j := Next(log, s, Start).groups, |s.groups|;
    forall i | 0 <= i < j && WaitsFor(log, i, j)
      ensures groups'[i].done
    {
      var g := GroupOf(log[j]);
      assert s.groups[i].sequenceNumber == log[i].sequenceNumber;
    }
  }

  lemma NextKeepsWaits(log: seq<Item>, s: Replica, e: Event)
    requires ProgressInv(log, s) && WaitsInv(log, s.groups) && Enabled(log, s, e)
    ensures ProgressInv(log, Next(log, s, e)) && WaitsInv(log, Next(log, s, e).groups)
  {
    match e {
      case Start => StartKeepsWaits(log, s);
      case Apply(_) =>
      case Finish(_) =>
    }
  }

  lemma {:induction false} ReachedWaits(log: seq<Item>, db: Db, events: seq<Event>, s: Replica)
    requires Reached(log, db, events, s)
    ensures ProgressInv(log, s) && WaitsInv(log, s.groups)
    decreases |events|
  {
    if events != [] {
      var n := |events| - 1;
      var s0 :| Reached(log, db, events[..n], s0) && Enabled(log, s0, events[n]) && s == Next(log, s0, events[n]);
      ReachedWaits(log, db, events[..n], s0);
      NextKeepsWaits(log, s0, events[n]);
    }
  }

  // Both have started and neither has finished.
  predicate Overlap(groups: seq<Group>, i: nat, j: nat) {
    i < j < |groups| && !groups[i].done && !groups[j].done
  }

  /******* Runs that overlap *******/

  // A transaction that has started runs to its end.
  lemma {:induction false} ApplyRest(log: seq<Item>, db: Db, events: seq<Event>, s: Replica, i: nat)
    returns (more: seq<Event>, s': Replica)
    requires Reached(log, db, events, s) && ProgressInv(log, s) && i < |s.groups| && !s.groups[i].done
    ensures Reached(log, db, more, s')
    ensures s'.groups == SchedulerState.Finish(s.groups, i)
    decreases |log[i].trx.ops| - s.progress[i]
  {
    if s.progress[i] == |log[i].trx.ops| {
      more := Then(log, db, events, s, Finish(i));
      s' := Next(log, s, Finish(i));
    } else {
      more := Then(log, db, events, s, Apply(i));
      more, s' := ApplyRest(log, db, more, Next(log, s, Apply(i)), i);
    }
  }

  lemma RunNext(log: seq<Item>, db: Db, events: seq<Event>, s: Replica) returns (more: seq<Event>, s': Replica)
    requires Reached(log, db, events, s) && Enabled(log, s, Start)
    ensures Reached(log, db, more, s')
    ensures s'.groups == s.groups + [GroupOf(log[|s.groups|]).(done := true)]
  {
    more := Then(log, db, events, s, Start);
    s' := Next(log, s, Start);
    ReachedWaits(log, db, more, s');
    more, s' := ApplyRest(log, db, more, s', |s.groups|);
  }

  // One after the other.
  lemma {:induction false} RunSerially(log: seq<Item>, db: Db, n: nat) returns (events: seq<Event>, s: Replica)
    requires n <= |log|
    ensures Reached(log, db, events, s) && |s.groups| == n && AllDone(s.groups)
  {
    if n == 0 {
      events, s := [], Fresh(log, db);
    } else {
      events, s := RunSerially(log, db, n - 1);
      ReachedWaits(log, db, events, s);
      events, s := RunNext(log, db, events, s);
    }
  }

  // All in front of n have finished, except for i.
  lemma {:induction false} RunBeside(log: seq<Item>, db: Db, i: nat, n: nat) returns (events: seq<Event>, s: Replica)
    requires i < n <= |log| && forall k: nat :: i < k < n ==> !WaitsFor(log, i, k)
    ensures Reached(log, db, events, s) && |s.groups| == n
    ensures forall k :: 0 <= k < n ==> (s.groups[k].done <==> k != i)
  {
    if n == i + 1 {
      events, s := RunSerially(log, db, i);
      ReachedWaits(log, db, events, s);
      events := Then(log, db, events, s, Start);
      s := Next(log, s, Start);
    } else {
      events, s := RunBeside(log, db, i, n - 1);
      ReachedWaits(log, db, events, s);
      assert !WaitsFor(log, i, n - 1);
      events, s := RunNext(log, db, events, s);
    }
  }

  lemma RunOverlapping(log: seq<Item>, db: Db, i: nat, j: nat) returns (events: seq<Event>, s: Replica)
    requires i < j < |log| && !HeldBack(log, i, j)
    ensures Reached(log, db, events, s) && Overlap(s.groups, i, j)
  {
    events, s := RunBeside(log, db, i, j);
    ReachedWaits(log, db, events, s);
    assert !WaitsFor(log, i, j);
    events := Then(log, db, events, s, Start);
    s := Next(log, s, Start);
  }

  ghost predicate MayOverlap(log: seq<Item>, db: Db, i: nat, j: nat) {
    exists events, s :: Reached(log, db, events, s) && Overlap(s.groups, i, j)
  }

  /**
   The scheduling rule lets two transactions be in flight together if and only if nothing from
   the first to the second waits for the first.
   */
  lemma OverlapExactly(log: seq<Item>, db: Db, i: nat, j: nat)
    requires i < j < |log|
    ensures MayOverlap(log, db, i, j) <==> !HeldBack(log, i, j)
  {
    if HeldBack(log, i, j) {
      forall events, s | Reached(log, db, events, s)
        ensures !Overlap(s.groups, i, j)
      {
        ReachedWaits(log, db, events, s);
        if j < |s.groups| {
          HeldBackWaits(log, s.groups, i, j);
        }
      }
    } else {
      var events, s := RunOverlapping(log, db, i, j);
    }
  }

  /******* Serial replay *******/

  // The rows after the first n transactions, each applied up to its progress, in log order.
  function InOrder(log: seq<Item>, progress: seq<nat>, n: nat, db: Db): Db
    requires n <= |log| == |progress|
    requires forall k :: 0 <= k < n ==> progress[k] <= |log[k].trx.ops|
  {
    if n == 0 then db
    else ApplyOps(InOrder(log, progress, n - 1, db), log[n - 1].trx.ops[..progress[n - 1]])
  }

  // Applying the transactions one by one in log order.
  function Serial(log: seq<Item>, db: Db): Db {
    if log == [] then db
    else ApplyOps(Serial(log[..|log| - 1], db), log[|log| - 1].trx.ops)
  }

  lemma SameRows(a: Db, b: Db)
    requires forall r :: Lookup(a, r) == Lookup(b, r)
    ensures a == b
  {
    forall r
      ensures r in a <==> r in b
      ensures r in a ==> a[r] == b[r]
    {
      assert Lookup(a, r) == Lookup(b, r);
    }
  }

  // An operation commutes with operations on other rows.
  lemma {:induction false} Commutes(db: Db, ops: seq<RowOp>, op: RowOp)
    requires !Touches(ops, op.row)
    ensures ApplyOps(ApplyOp(db, op), ops) == ApplyOp(ApplyOps(db, ops), op)
  {
    if ops != [] {
      var n := |ops| - 1;
      var last := ops[n];
      assert !Touches(ops[..n], op.row);
      Commutes(db, ops[..n], op);
      var before := ApplyOps(db, ops[..n]);
      var a, b := ApplyOp(ApplyOp(before, op), last), ApplyOp(ApplyOp(before, last), op);
      forall r
        ensures Lookup(a, r) == Lookup(b, r)
      {
      }
      SameRows(a, b);
    }
  }

  // One more operation of transaction i, although later transactions have already run in part.
  lemma {:induction false} OneMoreOperation(log: seq<Item>, progress: seq<nat>, n: nat, db: Db, i: nat)
    requires i < n <= |log| == |progress|
    requires forall k :: 0 <= k < |log| ==> progress[k] <= |log[k].trx.ops|
    requires progress[i] < |log[i].trx.ops|
    requires forall k :: i < k < n && progress[k] > 0 ==> !Touches(log[k].trx.ops, log[i].trx.ops[progress[i]].row)
    ensures InOrder(log, progress[i := progress[i] + 1], n, db) ==
      ApplyOp(InOrder(log, progress, n, db), log[i].trx.ops[progress[i]])
  {
    var ops, p := log[i].trx.ops, progress[i];
    var progress' := progress[i := p + 1];
    if n == i + 1 {
      SameInOrder(log, progress, progress', i, db);
      assert ops[..p + 1][..p] == ops[..p];
    } else {
      OneMoreOperation(log, progress, n - 1, db, i);
      var done := log[n - 1].trx.ops[..progress[n - 1]];
      assert !Touches(done, ops[p].row);
      Commutes(InOrder(log, progress, n - 1, db), done, ops[p]);
    }
  }

  lemma {:induction false} SameInOrder(log: seq<Item>, a: seq<nat>, b: seq<nat>, n: nat, db: Db)
    requires n <= |log| == |a| == |b| && a[..n] == b[..n]
    requires forall k :: 0 <= k < |log| ==> a[k] <= |log[k].trx.ops| && b[k] <= |log[k].trx.ops|
    ensures InOrder(log, a, n, db) == InOrder(log, b, n, db)
  {
    if n > 0 {
      assert a[..n - 1] == a[..n][..n - 1] && b[..n - 1] == b[..n][..n - 1];
      assert a[n - 1] == a[..n][n - 1] && b[n - 1] == b[..n][n - 1];
      SameInOrder(log, a, b, n - 1, db);
    }
  }

  lemma {:induction false} CompleteIsSerial(log: seq<Item>, progress: seq<nat>, n: nat, db: Db)
    requires n <= |log| == |progress|
    requires forall k :: 0 <= k < n ==> progress[k] == |log[k].trx.ops|
    ensures InOrder(log, progress, n, db) == Serial(log[..n], db)
  {
    if n > 0 {
      CompleteIsSerial(log, progress, n - 1, db);
      assert log[..n][..n - 1] == log[..n - 1];
      var ops := log[n - 1].trx.ops;
      assert ops[..|ops|] == ops;
    }
  }

  lemma {:induction false} NothingApplied(log: seq<Item>, progress: seq<nat>, n: nat, db: Db)
    requires n <= |log| == |progress|
    requires forall k :: 0 <= k < n ==> progress[k] == 0
    ensures InOrder(log, progress, n, db) == db
  {
    if n > 0 {
      NothingApplied(log, progress, n - 1, db);
    }
  }

  /******* Isolation *******/

  // Nobody has started on a row that an unfinished transaction in front changes.
  ghost predicate Isolated(log: seq<Item>, groups: seq<Group>)
    requires |groups| <= |log|
  {
    forall i: nat, j: nat :: i < j < |groups| && Conflict(log[i].trx, log[j].trx) ==> groups[i].done
  }

  lemma ApplyIsIsolated(log: seq<Item>, s: Replica, i: nat, k: nat)
    requires ProgressInv(log, s) && Isolated(log, s.groups)
    requires Enabled(log, s, Apply(i)) && i < k < |log| && s.progress[k] > 0
    ensures !Touches(log[k].trx.ops, log[i].trx.ops[s.progress[i]].row)
  {
    var earlier, later, row := log[i].trx, log[k].trx, log[i].trx.ops[s.progress[i]].row;
    assert Touches(earlier.ops, row);
    assert Touches(later.ops, row) ==> Conflict(earlier, later);
  }

  // While transactions are isolated, the rows are those of applying in log order what has been
  // applied of each.
  lemma NextKeepsOrder(log: seq<Item>, db: Db, s: Replica, e: Event)
    requires ProgressInv(log, s) && Isolated(log, s.groups)
    requires Enabled(log, s, e) && s.db == InOrder(log, s.progress, |log|, db)
    ensures |Next(log, s, e).progress| == |log|
    ensures forall k :: 0 <= k < |log| ==> Next(log, s, e).progress[k] <= |log[k].trx.ops|
    ensures Next(log, s, e).db == InOrder(log, Next(log, s, e).progress, |log|, db)
  {
    if e.Apply? {
      forall k | e.i < k < |log| && s.progress[k] > 0
        ensures !Touches(log[k].trx.ops, log[e.i].trx.ops[s.progress[e.i]].row)
      {
        ApplyIsIsolated(log, s, e.i, k);
      }
      OneMoreOperation(log, s.progress, |log|, db, e.i);
    }
  }

  // A replica that has finished has the rows of serial replay.
  lemma FinishedIsSerial(log: seq<Item>, db: Db, s: Replica)
    requires ProgressInv(log, s) && s.db == InOrder(log, s.progress, |log|, db)
    requires |s.groups| == |log| && AllDone(s.groups)
    ensures s.db == Serial(log, db)
  {
    CompleteIsSerial(log, s.progress, |log|, db);
    assert log[..|log|] == log;
  }

  // Whoever is held back by a transaction starts after it has finished.
  lemma HeldBackWaits(log: seq<Item>, groups: seq<Group>, i: nat, j: nat)
    requires |groups| <= |log| && WaitsInv(log, groups)
    requires i < j < |groups| && HeldBack(log, i, j)
    ensures groups[i].done
  {
    var k: nat :| i < k <= j && WaitsFor(log, i, k);
  }

  ghost predicate ConflictsHeldBack(log: seq<Item>) {
    forall i: nat, j: nat :: i < j < |log| && Conflict(log[i].trx, log[j].trx) ==> HeldBack(log, i, j)
  }

  lemma {:induction false} ReachedInOrder(log: seq<Item>, db: Db, events: seq<Event>, s: Replica)
    requires ConflictsHeldBack(log) && Reached(log, db, events, s)
    ensures ProgressInv(log, s) && s.db == InOrder(log, s.progress, |log|, db)
    decreases |events|
  {
    ReachedWaits(log, db, events, s);
    if events == [] {
      NothingApplied(log, s.progress, |log|, db);
    } else {
      var n := |events| - 1;
      var s0 :| Reached(log, db, events[..n], s0) && Enabled(log, s0, events[n]) && s == Next(log, s0, events[n]);
      ReachedInOrder(log, db, events[..n], s0);
      ReachedWaits(log, db, events[..n], s0);
      AllIsolated(log, s0.groups);
      NextKeepsOrder(log, db, s0, events[n]);
    }
  }

  lemma AllIsolated(log: seq<Item>, groups: seq<Group>)
    requires ConflictsHeldBack(log) && |groups| <= |log| && WaitsInv(log, groups)
    ensures Isolated(log, groups)
  {
    forall i: nat, j: nat | i < j < |groups| && Conflict(log[i].trx, log[j].trx)
      ensures groups[i].done
    {
      HeldBackWaits(log, groups, i, j);
    }
  }

  /**
   Whatever the interleaving, if conflicting transactions are held back by each other the rows
   are in the end those of serial replay.
   */
  lemma ParallelIsSerial(log: seq<Item>, db: Db, events: seq<Event>, s: Replica)
    requires ConflictsHeldBack(log) && Reached(log, db, events, s)
    requires |s.groups| == |log| && AllDone(s.groups)
    ensures s.db == Serial(log, db)
  {
    ReachedInOrder(log, db, events, s);
    FinishedIsSerial(log, db, s);
  }
}
