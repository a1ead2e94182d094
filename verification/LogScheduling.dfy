/**
 The coordinator on a whole log: the scheduler's class, given one transaction after the other,
 makes moves that follow the log, so that what is proved of all runs holds of its state.
 */
module LogScheduling {
  import opened Basics
  import opened Transactions
  import opened AssignedQueue
  import opened SchedulerState
  import opened SchedulerCalls
  import opened MtsScheduler
  import opened ReplicaRuns
  import opened CoordinatorRuns

  lemma {:induction false} FollowsWhileWaiting(log: seq<Item>, before: seq<Move>, after: seq<Move>)
    requires after in Waited(before) && FollowsLog(log, before)
    ensures FollowsLog(log, after) && CoordinatorRuns.Scheduled(after) == CoordinatorRuns.Scheduled(before)
    decreases |after|
  {
    if |after| > |before| {
      var n := |after| - 1;
      assert after[..n] in Waited(before);
      FollowsWhileWaiting(log, before, after[..n]);
      assert after[n].Quiet();
    } else {
      assert after == before;
    }
  }

  lemma FollowsNext(log: seq<Item>, before: seq<Move>, after: seq<Move>, m: Move, j: nat)
    requires FollowsLog(log, before) && j == |CoordinatorRuns.Scheduled(before)| < |log| && Schedules(before, after, m)
    requires m == Restart(GroupOf(log[j])) || (m == Join(GroupOf(log[j])) && !log[j].opensFile)
    ensures FollowsLog(log, after) && |CoordinatorRuns.Scheduled(after)| == j + 1
  {
    FollowsWhileWaiting(log, before, after[..|after| - 1]);
  }

  // The moves so far have scheduled the first k transactions of the log.
  ghost predicate Has(log: seq<Item>, trace: seq<Move>, k: nat) {
    FollowsLog(log, trace) && |CoordinatorRuns.Scheduled(trace)| == k
  }

  // Between two transactions.
  ghost predicate HasScheduled(c: LogicalClockSubmode, log: seq<Item>, k: nat)
    reads c, c.gaq, c.gaq.slots
  {
    && c.Ready() && c.pending == []
    && k <= |log| && Has(log, c.trace, k) && c.Control() in Heard(c.around, AT_START)
    && (k > 0 ==> !c.forceNewGroup && !c.firstEvent && c.v.last == log[k - 1].sequenceNumber)
  }

  predicate IsDone(c: LogicalClockSubmode, k: nat)
    requires c.Ready() && c.pending == [] && k < c.gaq.len
    reads c, c.gaq, c.gaq.slots
    ensures k < |c.v.items| && IsDone(c, k) == c.v.items[k].done
  {
    assert c.gaq.items == c.v.items;
    c.gaq.slots[SlotOf(c.gaq.entry, c.gaq.size, k)].done
  }

  // A worker finishes the group, if it has not yet.
  method FinishGroup(c: LogicalClockSubmode, k: nat, ghost before: seq<Move>)
    requires c.Ready() && c.pending == [] && k < c.gaq.len && c.trace in Waited(before)
    modifies c.gaq`items, c.gaq.slots, c`lastLwmTimestamp, c`lastLwmIndex, c`v, c`trace
    ensures c.Ready() && c.trace in Waited(before) && c.v.last == old(c.v.last)
    ensures |c.v.items| == old(c.gaq.len) && c.v.items[k].done
  {
    if !IsDone(c, k) {
      WaitedOnce(before, c.trace, Done(k));
      c.WorkerDone(k);
    }
  }

  method Checkpoint(c: LogicalClockSubmode, ghost before: seq<Move>)
    requires c.Ready() && c.pending == [] && c.trace in Waited(before)
    modifies c.gaq`entry, c.gaq`len, c.gaq`lwm, c.gaq`items, c`v, c`trace, c`jobsDone
    ensures c.Ready() && c.trace in Waited(before) && c.v.last == old(c.v.last)
    ensures old(c.v).items != [] && old(c.v).items[0].done ==> c.gaq.len < old(c.gaq.len)
  {
    WaitedOnce(before, c.trace, Collect);
    HeadIsCollected(c.v);
    c.Checkpoint();
  }

  // Between two transactions workers finish in any order, and checkpoints are made at any time.
  // A full queue is waited for: its oldest group finishes, and a checkpoint removes it.
  method Elapse(c: LogicalClockSubmode)
    requires c.Ready() && c.pending == []
    modifies c.gaq`entry, c.gaq`len, c.gaq`lwm, c.gaq`items, c.gaq.slots
    modifies c`lastLwmTimestamp, c`lastLwmIndex, c`v, c`trace, c`jobsDone
    ensures c.Ready() && c.trace in Waited(old(c.trace)) && c.v.last == old(c.v.last)
    ensures c.gaq.len < c.gaq.size
  {
    NoWait(c.trace);
    var rounds :| 0 <= rounds;
    while rounds > 0
      invariant c.Ready() && c.pending == []
      invariant c.trace in Waited(old(c.trace)) && c.v.last == old(c.v.last)
    {
      var k :| 0 <= k;
      var checkpoint: bool := *;
      Round(c, k, checkpoint, old(c.trace));
      rounds := rounds - 1;
    }
    if c.gaq.len == c.gaq.size {
      Round(c, 0, true, old(c.trace));
    }
  }

  // A group finishes, and perhaps a checkpoint is made.
  method Round(c: LogicalClockSubmode, k: nat, checkpoint: bool, ghost before: seq<Move>)
    requires c.Ready() && c.pending == [] && c.trace in Waited(before)
    modifies c.gaq`entry, c.gaq`len, c.gaq`lwm, c.gaq`items, c.gaq.slots
    modifies c`lastLwmTimestamp, c`lastLwmIndex, c`v, c`trace, c`jobsDone
    ensures c.Ready() && c.trace in Waited(before) && c.v.last == old(c.v.last)
    ensures checkpoint && k == 0 < old(c.gaq.len) ==> c.gaq.len < old(c.gaq.len)
  {
    if k < c.gaq.len {
      FinishGroup(c, k, before);
    }
    if checkpoint {
      Checkpoint(c, before);
    }
  }

  lemma HeadIsCollected(v: View)
    requires ViewInv(v)
    ensures v.items != [] && v.items[0].done ==> |Collected(v).items| < |v.items|
  {
  }

  // The next transaction of the log, after the change of file in front of it, if there is one. Only
  // something that happens around the coordinator can prevent it.
  method ScheduleTransaction(c: LogicalClockSubmode, log: seq<Item>, k: nat) returns (r: Outcome)
    requires HasScheduled(c, log, k) && WellNumbered(log) && k < |log|
    modifies c, c.gaq, c.gaq.slots
    ensures r == Scheduled ==> HasScheduled(c, log, k + 1)
    ensures r != Scheduled ==> r != CantParallel && Disturbed(c.around, c.Control(), c.counts)
    ensures c.v in Consistent(c.gaq.size, c.trace) && Has(log, c.trace, if r == Scheduled then k + 1 else k)
  {
    Approach(c, log, k);
    if c.killed {
      ToldToStop(c.around, c.Control(), c.counts);
      r := Interrupted;
    } else {
      r := ScheduleGroup(c, log, k);
    }
  }

  method Approach(c: LogicalClockSubmode, log: seq<Item>, k: nat)
    requires HasScheduled(c, log, k) && WellNumbered(log) && k < |log|
    modifies c.gaq`entry, c.gaq`len, c.gaq`lwm, c.gaq`items, c.gaq.slots
    modifies c`lastLwmTimestamp, c`lastLwmIndex, c`v, c`trace, c`jobsDone, c`forceNewGroup, c`firstEvent
    ensures c.Ready() && c.pending == [] && c.gaq.len < c.gaq.size && Has(log, c.trace, k)
    ensures log[k].opensFile ==> c.forceNewGroup && c.firstEvent
    ensures !log[k].opensFile ==> k > 0 && c.v.last == log[k - 1].sequenceNumber
  {
    ghost var before := c.trace;
    Elapse(c);
    FollowsWhileWaiting(log, before, c.trace);
    if log[k].opensFile {
      c.StartNewGroup();
    }
  }

  method ScheduleGroup(c: LogicalClockSubmode, log: seq<Item>, k: nat) returns (r: Outcome)
    requires c.Ready() && c.pending == [] && !c.killed && c.gaq.len < c.gaq.size
    requires WellNumbered(log) && k < |log| && Has(log, c.trace, k) && c.Control() in Heard(c.around, AT_START)
    requires log[k].opensFile ==> c.forceNewGroup && c.firstEvent
    requires !log[k].opensFile ==> k > 0 && c.v.last == log[k - 1].sequenceNumber
    modifies c, c.gaq, c.gaq.slots
    ensures r == Scheduled ==> HasScheduled(c, log, k + 1)
    ensures r != Scheduled ==> r != CantParallel && Disturbed(c.around, c.Control(), c.counts)
    ensures c.v in Consistent(c.gaq.size, c.trace) && Has(log, c.trace, if r == Scheduled then k + 1 else k)
  {
    ghost var k0, g, first, forced := c.Now(), GroupOf(log[k]), c.firstEvent, c.forceNewGroup;
    c.EnQueueGroup();
    r := c.ScheduleNextEvent(true, log[k].sequenceNumber, log[k].lastCommitted);
    CallEnds(c.gaq.size, c.around, k0, first, forced, g, r, c.Now());
    if r == Scheduled {
      FollowsNext(log, k0.trace, c.trace, if StartsNewGroup(forced, k0.v.last, g) then Restart(g) else Join(g), k);
    } else {
      FollowsWhileWaiting(log, k0.trace, c.trace);
    }
  }

  /**
   Schedules a log from its start, all of it unless something happens around the coordinator. No
   timestamps that a source writes are refused, and the state is that of a run of coordinator and
   workers on the log.
   */
  method ScheduleLog(log: seq<Item>, size: nat, around: Surroundings, ghost db: Db)
    returns (c: LogicalClockSubmode, k: nat, r: Outcome)
    requires 0 < size && WellNumbered(log)
    ensures k <= |log| && (r == Scheduled ==> k == |log|)
    ensures r != Scheduled ==> r != CantParallel && Disturbed(around, c.Control(), c.counts)
    ensures Follows(size, c.trace, c.v) && Has(log, c.trace, k)
    ensures exists acts, a :: a in Runs(log, db, size, acts) && a.v == c.v && |a.v.History()| == k
  {
    c := new LogicalClockSubmode(size, around);
    k, r := 0, Scheduled;
    while k < |log| && r == Scheduled
      invariant k <= |log| && fresh(c) && fresh(c.gaq) && fresh(c.gaq.slots)
      invariant c.gaq.size == size && c.around == around
      invariant r == Scheduled ==> HasScheduled(c, log, k)
      invariant r != Scheduled ==> r != CantParallel && Disturbed(around, c.Control(), c.counts)
      invariant c.v in Consistent(size, c.trace) && Has(log, c.trace, k)
      decreases |log| - k, r == Scheduled
    {
      r := ScheduleTransaction(c, log, k);
      if r == Scheduled {
        k := k + 1;
      }
    }
    ghost var acts, a := TraceRuns(log, db, size, c.trace, c.v);
  }
}
