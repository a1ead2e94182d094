/**
 The replica's coordinator in logical-clock mode. Workers finish their groups at any moment
 at which the coordinator holds no lock; wherever the coordinator waits, an arbitrary worker
 may finish, fail, or the coordinator may be killed.
 */
module MtsScheduler {
  import opened Basics
  import opened AssignedQueue
  import opened SchedulerState
  import opened SchedulerCalls

  class LogicalClockSubmode {
    const gaq: Queue
    const around: Surroundings
    // The slot of the last queued group.
    var assignedGroupIndex: nat
    var firstEvent: bool
    var forceNewGroup: bool
    var isNewGroup: bool
    var delegatedJobs: nat
    var jobsDone: nat
    var lastLwmTimestamp: int
    var lastLwmIndex: nat
    var lastCommitted: int
    var sequenceNumber: int
    var minWaitedTimestamp: int
    // Set by a failing worker; set by whoever stops the applier.
    var isError: bool
    var killed: bool
    // How often it has waited, and what it has counted at barriers.
    var waits: nat
    var counts: Counts

    // The scheduler's state as a value, the moves that led to it, and the group whose scheduling
    // is under way, if any.
    ghost var v: View
    ghost var trace: seq<Move>
    ghost var pending: seq<Group>

    ghost function Control(): Hearing
      reads this
    {
      Hearing(killed, isError, waits)
    }

    ghost function Now(): Knowledge
      reads this
    {
      Knowledge(v, trace, Control(), counts)
    }

    ghost predicate Valid()
      reads this, gaq, gaq.slots
    {
      && gaq.Valid()
      && gaq.items == v.items + pending
      && |pending| <= 1 && (pending != [] ==> !pending[0].done)
      && v == View(v.items, v.removed, v.last, gaq.lwm, lastLwmTimestamp, lastLwmIndex, gaq.entry, gaq.size,
                   delegatedJobs, jobsDone)
      && v in Consistent(gaq.size, trace)
    }

    // Between two scheduling calls. The first event of a run always forces a new group.
    ghost predicate Ready()
      reads this, gaq, gaq.slots
    {
      && Valid()
      && sequenceNumber == v.last
      && minWaitedTimestamp == SEQ_UNINIT
      && (firstEvent ==> forceNewGroup || sequenceNumber == SEQ_UNINIT)
    }

    constructor (size: nat, around: Surroundings)
      requires 0 < size
      ensures Ready() && fresh(gaq) && fresh(gaq.slots) && gaq.size == size && this.around == around
      ensures v.History() == [] && trace == [] && pending == [] && !isError && !killed
      ensures Control() == Hearing(false, false, 0) && counts == Counts(0, 0)
    {
      EmptyInv(size);
      this.around := around;
      waits, counts := 0, Counts(0, 0);
      gaq := new Queue(size);
      firstEvent, forceNewGroup, isNewGroup := true, false, true;
      delegatedJobs, jobsDone := 0, 0;
      lastLwmTimestamp, lastLwmIndex := SEQ_UNINIT, INDEX_UNDEF;
      isError, killed := false, false;
      minWaitedTimestamp, lastCommitted, sequenceNumber := SEQ_UNINIT, SEQ_UNINIT, SEQ_UNINIT;
      assignedGroupIndex := 0;
      v, trace := EmptyView(size), [];
      pending := [];
    }

    method StartNewGroup()
      requires Ready()
      modifies this`forceNewGroup, this`firstEvent
      ensures Ready() && forceNewGroup && firstEvent
    {
      forceNewGroup := true;
      firstEvent := true;
    }

    /******* The low-water mark *******/

    /**
     The cached low-water mark, brought up to date. It resumes the search where the last one
     stopped unless that index is stale, and yet agrees with a scan of the whole queue.
     */
    method GetLwmTimestamp() returns (lwm: int)
      requires Valid()
      modifies this`lastLwmTimestamp, this`lastLwmIndex, this`v, this`trace
      ensures Valid()
      ensures v == Refreshed(old(v)) && trace == old(trace) + [Refresh]
      ensures lwm == v.Scan() == lastLwmTimestamp
      ensures ClockLeq(old(v).mark, lwm)
    {
      var index, found, isStale := SearchMark();
      RefreshedInv(v, index);
      lastLwmIndex := index;
      if lastLwmIndex != gaq.size {
        lastLwmTimestamp := found;
      } else if isStale {
        lastLwmTimestamp := gaq.lwm;
      }
      lwm := lastLwmTimestamp;
      MoveOn(gaq.size, trace, v, Refresh);
      v, trace := Refreshed(v), trace + [Refresh];
    }

    method SearchMark() returns (index: nat, found: int, isStale: bool)
      requires Valid()
      ensures
        var r := RunEnd(v.items, 0);
        if r > 0 then index != gaq.size && index == SlotOf(v.entry, v.size, r - 1) && found == v.Scan()
        else index == gaq.size && (isStale || v.mark == v.stable)
    {
      var start;
      ghost var k;
      start, isStale, k := SearchStart();
      ScanOfQueue(v.items, pending, k);
      index, found := FindLwm(start, k);
    }

    // Where to search: from the oldest group, unless the remembered index is still that of the
    // group it was remembered for.
    method SearchStart() returns (start: nat, isStale: bool, ghost k: nat)
      requires Valid()
      ensures gaq.len == 0 ==> k == 0
      ensures 0 < gaq.len ==> k < gaq.len && start == SlotOf(gaq.entry, gaq.size, k)
      ensures k <= |v.items| && forall j :: 0 <= j < k ==> v.items[j].done
      ensures k > 0 ==> k < RunEnd(v.items, 0)
      ensures !isStale && RunEnd(v.items, 0) == 0 ==> v.mark == v.stable
    {
      start, isStale, k := gaq.entry, false, 0;
      MarkFromScan(v.items, v.stable, v.mark);
      if gaq.lwm != SEQ_UNINIT {
        isStale := ClockLeq(lastLwmTimestamp, gaq.lwm);
        if !isStale {
          start := lastLwmIndex;
          k := lastLwmTimestamp - v.items[0].sequenceNumber;
        }
      }
    }

    // The queue's own search, which finds nothing in an empty queue.
    method FindLwm(start: nat, ghost k: nat) returns (index: nat, found: int)
      requires gaq.Valid() && (gaq.len == 0 ==> k == 0)
      requires 0 < gaq.len ==> k < gaq.len && start == SlotOf(gaq.entry, gaq.size, k)
      ensures
        var r := RunEnd(gaq.items, k);
        if r == k then index == gaq.size
        else index == SlotOf(gaq.entry, gaq.size, r - 1) && found == gaq.items[r - 1].sequenceNumber
    {
      index, found := gaq.size, SEQ_UNINIT;
      if 0 < gaq.len {
        index, found := gaq.FindLwm(start, k);
      }
    }

    /******* The environment *******/

    // A worker finishes its group; it refreshes the mark if the coordinator waits for one.
    method WorkerDone(k: nat)
      requires Valid() && k < |v.items| && !v.items[k].done
      modifies gaq`items, gaq.slots, this`lastLwmTimestamp, this`lastLwmIndex, this`v, this`trace
      ensures Valid()
      ensures v == (if minWaitedTimestamp == SEQ_UNINIT then Finished(old(v), k) else Refreshed(Finished(old(v), k)))
      ensures trace == old(trace) + [Done(k)] + if minWaitedTimestamp == SEQ_UNINIT then [] else [Refresh]
      ensures ClockLeq(old(v).mark, v.mark)
    {
      gaq.MarkDone(k);
      MoveOn(gaq.size, trace, v, Done(k));
      v, trace := Finished(v, k), trace + [Done(k)];
      assert gaq.items == v.items + pending;
      if minWaitedTimestamp != SEQ_UNINIT {
        var _ := GetLwmTimestamp();
      }
    }

    method SomeUnfinished() returns (k: nat)
      requires Valid() && pending != []
      requires exists k :: 0 <= k < |v.items| && !v.items[k].done
      ensures k < |v.items| && !v.items[k].done
    {
      ghost var i :| 0 <= i < |v.items| && !v.items[i].done;
      assert v.items[i] == gaq.items[i] == gaq.slots[SlotOf(gaq.entry, gaq.size, i)];
      k :| k < gaq.len - 1 && !gaq.slots[SlotOf(gaq.entry, gaq.size, k)].done;
    }

    method SomeWorkerFinishes()
      requires Valid() && pending != []
      requires exists k :: 0 <= k < |v.items| && !v.items[k].done
      modifies gaq`items, gaq.slots, this`lastLwmTimestamp, this`lastLwmIndex, this`v, this`trace
      ensures Valid() && Advanced(old(v), v) && trace in Waited(old(trace))
      ensures Unfinished(v.items) < old(Unfinished(v.items))
      ensures minWaitedTimestamp != SEQ_UNINIT ==> v.mark == v.Scan() && TwoMoves(old(trace), trace)
    {
      var k := SomeUnfinished();
      FinishedAdvances(v, k, trace);
      WorkerDone(k);
    }

    // The coordinator sleeps until some worker reports; meanwhile a worker may have failed, or
    // the applier may have been told to stop.
    method CondWait()
      requires Valid() && pending != []
      requires exists k :: 0 <= k < |v.items| && !v.items[k].done
      modifies gaq`items, gaq.slots, this`lastLwmTimestamp, this`lastLwmIndex, this`v, this`trace
      modifies this`killed, this`isError, this`waits
      ensures Valid() && Advanced(old(v), v) && trace in Waited(old(trace))
      ensures Unfinished(v.items) < old(Unfinished(v.items))
      ensures minWaitedTimestamp != SEQ_UNINIT ==> v.mark == v.Scan() && TwoMoves(old(trace), trace)
      ensures Control() in Heard(around, old(Control())) && waits == old(waits) + 1
    {
      Listen();
      SomeWorkerFinishes();
    }

    method Listen()
      requires Valid()
      modifies this`killed, this`isError, this`waits
      ensures Valid() && Control() in Heard(around, old(Control())) && waits == old(waits) + 1
    {
      HeardOnce(around, Control());
      killed, isError := killed || around.stops(waits), isError || around.fails(waits);
      waits := waits + 1;
    }

    // The checkpoint removes the finished prefix of the queue and counts it as done.
    method Checkpoint()
      requires Valid()
      modifies gaq`entry, gaq`len, gaq`lwm, gaq`items, this`jobsDone, this`v, this`trace
      ensures Valid() && v == Collected(old(v)) && trace == old(trace) + [Collect]
    {
      MoveOn(gaq.size, trace, v, Collect);
      ghost var v' := Collected(v);
      CollectFromQueue(v');
      v, trace := v', trace + [Collect];
    }

    // The queue and the counter, as the checkpoint leaves them.
    method CollectFromQueue(ghost v': View)
      requires Valid() && v' == Collected(v)
      modifies gaq`entry, gaq`len, gaq`lwm, gaq`items, this`jobsDone
      ensures gaq.Valid()
      ensures gaq.items == v'.items + pending && gaq.entry == v'.entry
      ensures gaq.lwm == v'.stable && jobsDone == v'.jobsDone
    {
      ScanOfQueue(v.items, pending, 0);
      DropFromQueue(v.items, pending, RunEnd(v.items, 0));
      var count := gaq.MoveQueueHead();
      jobsDone := jobsDone + count;
    }

    /******* Scheduling *******/

    // A group enters the queue before its timestamps are known.
    method EnQueueGroup()
      requires Ready() && pending == [] && gaq.len < gaq.size
      modifies gaq`len, gaq`items, gaq.slots, this`pending, this`assignedGroupIndex
      ensures Ready() && pending == [Group(SEQ_UNINIT, SEQ_UNINIT, false)]
      ensures assignedGroupIndex == SlotOf(gaq.entry, gaq.size, gaq.len - 1)
    {
      pending := [Group(SEQ_UNINIT, SEQ_UNINIT, false)];
      assignedGroupIndex := gaq.EnQueue(Group(SEQ_UNINIT, SEQ_UNINIT, false));
    }

    // Waits until everything up to the commit parent has finished, and no longer.
    method WaitForLastCommittedTrx(lastCommittedArg: int) returns (err: bool)
      requires Valid() && pending != [] && minWaitedTimestamp == SEQ_UNINIT
      requires 0 < lastCommittedArg <= v.last && v.items != []
      modifies gaq`items, gaq.slots, this`lastLwmTimestamp, this`lastLwmIndex, this`v, this`trace
      modifies this`minWaitedTimestamp, this`killed, this`isError, this`waits
      ensures Valid() && minWaitedTimestamp == SEQ_UNINIT && Advanced(old(v), v) && trace in Waited(old(trace))
      ensures !err ==> ClockLeq(lastCommittedArg, v.mark)
      ensures !err ==> trace in ShortestWaits(gaq.size, old(trace), lastCommittedArg)
      ensures err == (killed || isError)
      ensures Control() in Heard(around, old(Control()))
    {
      minWaitedTimestamp := lastCommittedArg;
      WaitForMark();
      minWaitedTimestamp := SEQ_UNINIT;
      err := killed || isError;
    }

    // The coordinator sleeps until the mark reaches the timestamp it waits for, or it is stopped.
    method WaitForMark()
      requires Valid() && pending != [] && 0 < minWaitedTimestamp <= v.last && v.items != []
      modifies gaq`items, gaq.slots, this`lastLwmTimestamp, this`lastLwmIndex, this`v, this`trace
      modifies this`killed, this`isError, this`waits
      ensures Valid() && Advanced(old(v), v) && trace in Waited(old(trace))
      ensures !killed && !isError ==> ClockLeq(minWaitedTimestamp, v.mark)
      ensures !killed && !isError ==> trace in ShortestWaits(gaq.size, old(trace), minWaitedTimestamp)
      ensures Control() in Heard(around, old(Control()))
    {
      NoWait(trace);
      HeardNothing(around, Control());
      WaitedOnce(trace, trace, Refresh);
      var block := !killed && !isError;
      if block {
        var lwm := GetLwmTimestamp();
        block := !ClockLeq(minWaitedTimestamp, lwm);
      }
      while block
        invariant Valid() && Advanced(old(v), v) && trace in Waited(old(trace))
        invariant block ==> v.mark == v.Scan()
        invariant block == (!killed && !isError && !ClockLeq(minWaitedTimestamp, v.mark))
        invariant !killed && !isError ==> trace in ShortestWaits(gaq.size, old(trace), minWaitedTimestamp)
        invariant Control() in Heard(around, old(Control()))
        decreases Unfinished(v.items)
      {
        SleepOnce(old(v), old(trace), old(Control()));
        block := !killed && !isError && !ClockLeq(minWaitedTimestamp, lastLwmTimestamp);
      }
    }

    // One sleep of a wait that began in the given state.
    method SleepOnce(ghost v0: View, ghost trace0: seq<Move>, ghost control0: Hearing)
      requires Valid() && pending != [] && 0 < minWaitedTimestamp <= v.last && v.items != []
      requires v.mark == v.Scan() && !ClockLeq(minWaitedTimestamp, v.mark)
      requires Advanced(v0, v) && trace in Waited(trace0) && Control() in Heard(around, control0)
      modifies gaq`items, gaq.slots, this`lastLwmTimestamp, this`lastLwmIndex, this`v, this`trace
      modifies this`killed, this`isError, this`waits
      ensures Valid() && v.mark == v.Scan() && Unfinished(v.items) < old(Unfinished(v.items))
      ensures Advanced(v0, v) && trace in Waited(trace0) && Control() in Heard(around, control0)
      ensures trace in ShortestWaits(gaq.size, trace0, minWaitedTimestamp)
    {
      assert gaq.len >= 2;
      SomebodyToWaitFor(v.items, v.stable, minWaitedTimestamp);
      CondWait();
      AdvancedTransitive(v0, old(v), v);
      WaitedLonger(trace0, old(trace), trace);
      HeardMore(around, control0, old(Control()), Control());
      SleptOnce(gaq.size, trace0, old(trace), old(v), minWaitedTimestamp, trace);
    }

    /**
     The full barrier: checkpoints until every group delegated before the current one has
     finished and left the queue, then forgets the stable mark. It fails only if the coordinator
     is stopped, or a worker or a checkpoint fails, or a worker has stopped.
     */
    method WaitForWorkersToFinish() returns (err: bool)
      requires Valid() && pending != []
      modifies gaq`entry, gaq`len, gaq`lwm, gaq`items, gaq.slots
      modifies this`lastLwmTimestamp, this`lastLwmIndex, this`v, this`trace, this`jobsDone, this`killed, this`isError
      modifies this`waits, this`counts
      ensures gaq.Valid() && pending == old(pending) && (err, Now()) in Barriers(gaq.size, around, old(Now()))
      ensures !err ==>
        && gaq.items == pending && gaq.lwm == SEQ_UNINIT && v.entry == gaq.entry && v.size == gaq.size
        && v.markSlot == lastLwmIndex
    {
      var checked := DrainQueue();
      ghost var k := Now();
      DrainedBarrier(gaq.size, around, old(Now()), checked, k);
      err := true;
      if checked {
        var stopped := EndBarrier();
        err := stopped || killed || isError;
        assert Now() == PastBarrier(k);
        if !stopped {
          gaq.lwm := SEQ_UNINIT;
        }
      }
    }

    // Has some worker stopped running?
    method EndBarrier() returns (stopped: bool)
      requires Valid()
      modifies this`counts
      ensures Valid() && counts == old(counts).(barriers := old(counts).barriers + 1)
      ensures stopped == around.workerStopped(old(counts).barriers)
    {
      stopped := around.workerStopped(counts.barriers);
      counts := counts.(barriers := counts.barriers + 1);
    }

    // Rounds of the barrier, as long as there are groups in front of the current one and the
    // coordinator is not stopped, or until a checkpoint fails.
    method DrainQueue() returns (checked: bool)
      requires Valid() && pending != []
      modifies gaq`entry, gaq`len, gaq`lwm, gaq`items, gaq.slots
      modifies this`lastLwmTimestamp, this`lastLwmIndex, this`v, this`trace, this`jobsDone, this`killed, this`isError
      modifies this`waits, this`counts
      ensures Valid() && pending == old(pending) && (checked, Now()) in Drains(around, old(Now()))
      ensures checked && !killed && !isError ==> v.items == []
    {
      DrainsNothing(around, Now());
      checked := true;
      while delegatedJobs > jobsDone && !killed && !isError && checked
        invariant Valid() && pending == old(pending)
        invariant (checked, Now()) in Drains(around, old(Now()))
        decreases Unfinished(v.items) + |v.items|
      {
        checked := BarrierRound(old(Now()));
      }
    }

    // One round of a barrier that began in the given state.
    method BarrierRound(ghost k0: Knowledge) returns (checked: bool)
      requires Valid() && pending != [] && v.items != [] && (true, Now()) in Drains(around, k0)
      modifies gaq`entry, gaq`len, gaq`lwm, gaq`items, gaq.slots
      modifies this`lastLwmTimestamp, this`lastLwmIndex, this`v, this`trace, this`jobsDone, this`killed, this`isError
      modifies this`waits, this`counts
      ensures Valid() && (checked, Now()) in Drains(around, k0)
      ensures Unfinished(v.items) + |v.items| < old(Unfinished(v.items) + |v.items|)
    {
      ghost var k1;
      checked, k1 := PollRound(k0);
      Checkpoint();
      assert Now() == CheckedPoint(k1);
    }

    method PollRound(ghost k0: Knowledge) returns (checked: bool, ghost k: Knowledge)
      requires Valid() && pending != [] && v.items != [] && (true, Now()) in Drains(around, k0)
      modifies gaq`items, gaq.slots, this`lastLwmTimestamp, this`lastLwmIndex, this`v, this`trace
      modifies this`killed, this`isError, this`waits, this`counts
      ensures Valid() && k == Now() && (checked, CheckedPoint(k)) in Drains(around, k0)
      ensures Unfinished(Collected(v).items) + |Collected(v).items| < old(Unfinished(v.items) + |v.items|)
    {
      checked := NextRound();
      PollWorkers();
      k := Now();
      DrainsOn(around, k0, old(Now()), k, checked);
    }

    method NextRound() returns (checked: bool)
      requires Valid()
      modifies this`counts
      ensures Valid() && counts == old(counts).(rounds := old(counts).rounds + 1)
      ensures checked == !around.checkpointFails(old(counts).rounds)
    {
      checked := !around.checkpointFails(counts.rounds);
      counts := counts.(rounds := counts.rounds + 1);
    }

    lemma HeadOfQueue()
      requires Valid() && v.items != []
      ensures gaq.slots[gaq.entry] == v.items[0]
    {
      assert gaq.items[0] == gaq.slots[SlotOf(gaq.entry, gaq.size, 0)];
    }

    // While the coordinator polls, any worker may finish; one has to if the oldest group is
    // still being applied.
    method PollWorkers()
      requires Valid() && pending != [] && v.items != []
      modifies gaq`items, gaq.slots, this`lastLwmTimestamp, this`lastLwmIndex, this`v, this`trace
      modifies this`killed, this`isError, this`waits
      ensures Valid() && Now() in Polls(around, old(Now()))
    {
      HeadOfQueue();
      NoWait(trace);
      HeardNothing(around, Control());
      var finishes: bool := *;
      if !gaq.slots[gaq.entry].done {
        CondWait();
      } else if finishes && AnyUnfinished() {
        CondWait();
      }
    }

    // Whether some group before the current one is unfinished.
    predicate AnyUnfinished()
      requires Valid() && pending != []
      reads this, gaq, gaq.slots
      ensures AnyUnfinished() ==> exists k :: 0 <= k < |v.items| && !v.items[k].done
    {
      assert forall k :: 0 <= k < |v.items| ==> v.items[k] == gaq.items[k];
      exists k :: 0 <= k < gaq.len - 1 && !gaq.slots[SlotOf(gaq.entry, gaq.size, k)].done
    }

    /**
     Schedules the group whose first event has arrived. A group without a GTID event has no
     timestamps. Returns Scheduled at once, doing nothing, when the applier is being stopped.
     Otherwise good timestamps are scheduled, unless the surroundings prevent it.
     */
    method ScheduleNextEvent(isGtid: bool, evSequenceNumber: int, evLastCommitted: int) returns (r: Outcome)
      requires Ready() && pending == [Group(SEQ_UNINIT, SEQ_UNINIT, false)]
      requires assignedGroupIndex == SlotOf(gaq.entry, gaq.size, gaq.len - 1)
      requires 0 <= evSequenceNumber && 0 <= evLastCommitted
      modifies this, gaq, gaq.slots
      ensures (r, Now()) in Calls(gaq.size, around, old(Now()), old(firstEvent), old(forceNewGroup),
                                  ScheduledGroup(isGtid, evSequenceNumber, evLastCommitted))
      ensures old(killed) ==> pending == old(pending)
      ensures !old(killed) && r != CantParallel ==>
        var g := ScheduledGroup(isGtid, evSequenceNumber, evLastCommitted);
        isNewGroup == StartsNewGroup(old(forceNewGroup), old(v).last, g)
      ensures !old(killed) && r == Scheduled ==>
        Ready() && pending == [] && !forceNewGroup && !firstEvent && gaq.len + jobsDone == delegatedJobs
    {
      r := Scheduled;
      if !killed {
        var bad := Classify(isGtid, evSequenceNumber, evLastCommitted);
        assert Now() == old(Now());
        if bad {
          r := CantParallel;
        } else {
          r := ScheduleClassified();
        }
      }
    }

    // The timestamps have been taken and found good.
    method ScheduleClassified() returns (r: Outcome)
      requires Valid() && pending == [Group(sequenceNumber, lastCommitted, false)]
      requires minWaitedTimestamp == SEQ_UNINIT && !firstEvent && 0 <= sequenceNumber
      requires assignedGroupIndex == SlotOf(gaq.entry, gaq.size, gaq.len - 1)
      requires !isNewGroup ==> !forceNewGroup && 0 < lastCommitted < sequenceNumber == v.last + 1 && 0 < v.last
      modifies gaq`entry, gaq`len, gaq`lwm, gaq`items, gaq.slots
      modifies this`lastLwmTimestamp, this`lastLwmIndex, this`minWaitedTimestamp, this`v, this`trace
      modifies this`jobsDone, this`delegatedJobs, this`forceNewGroup, this`pending
      modifies this`killed, this`isError, this`waits, this`counts
      ensures (r, Now()) in Results(gaq.size, around, old(Now()), old(pending)[0], isNewGroup)
      ensures r == Scheduled ==> Ready() && pending == [] && !forceNewGroup && !firstEvent
    {
      if !isNewGroup {
        r := JoinBatch();
      } else {
        r := StartBatch();
      }
    }

    // Takes the timestamps from the event, checks them, and decides whether a new batch starts.
    method Classify(isGtid: bool, evSequenceNumber: int, evLastCommitted: int) returns (bad: bool)
      requires Ready() && pending == [Group(SEQ_UNINIT, SEQ_UNINIT, false)]
      requires assignedGroupIndex == SlotOf(gaq.entry, gaq.size, gaq.len - 1)
      modifies this`sequenceNumber, this`lastCommitted, this`firstEvent, this`isNewGroup, this`pending
      modifies gaq`items, gaq.slots
      ensures Valid() && gaq.len == old(gaq.len)
      ensures pending == [ScheduledGroup(isGtid, evSequenceNumber, evLastCommitted)]
      ensures pending == [Group(sequenceNumber, lastCommitted, false)]
      ensures bad == (!old(firstEvent) && BadTimestamps(v.last, pending[0]))
      ensures !bad ==> !firstEvent && isNewGroup == StartsNewGroup(forceNewGroup, v.last, pending[0])
    {
      var lastSequenceNumber := sequenceNumber;
      var gapSuccessor := false;
      bad := false;
      if isGtid {
        sequenceNumber := evSequenceNumber;
        lastCommitted := evLastCommitted;
        gaq.Replace(gaq.len - 1, assignedGroupIndex, Group(sequenceNumber, lastCommitted, false));
      } else {
        sequenceNumber, lastCommitted := SEQ_UNINIT, SEQ_UNINIT;
      }
      pending := [ScheduledGroup(isGtid, evSequenceNumber, evLastCommitted)];
      assert gaq.items == v.items + pending;
      if firstEvent {
        firstEvent := false;
      } else {
        if ClockLeq(sequenceNumber, lastCommitted) && lastCommitted != SEQ_UNINIT {
          return true;
        }
        if ClockLeq(sequenceNumber, lastSequenceNumber) && sequenceNumber != SEQ_UNINIT {
          return true;
        }
        if sequenceNumber > lastSequenceNumber + 1 {
          gapSuccessor := true;
        }
      }
      isNewGroup := firstEvent || forceNewGroup || sequenceNumber == SEQ_UNINIT || lastCommitted == SEQ_UNINIT
        || gapSuccessor || lastSequenceNumber == SEQ_UNINIT;
    }

    // The current group follows the last one in sequence and waits for its parent only: not at all
    // if the mark has reached it or nothing is in front, otherwise until it has.
    method JoinBatch() returns (r: Outcome)
      requires Valid() && pending == [Group(sequenceNumber, lastCommitted, false)]
      requires minWaitedTimestamp == SEQ_UNINIT && !firstEvent && !forceNewGroup
      requires assignedGroupIndex == SlotOf(gaq.entry, gaq.size, gaq.len - 1)
      requires 0 < lastCommitted < sequenceNumber == v.last + 1 && 0 < v.last
      modifies this`delegatedJobs, this`pending, this`v, this`trace, gaq`items, gaq.slots
      modifies this`lastLwmTimestamp, this`lastLwmIndex, this`minWaitedTimestamp
      modifies this`killed, this`isError, this`waits
      ensures (r, Now()) in JoinResults(gaq.size, around, old(Now()), old(pending)[0])
      ensures r == Scheduled ==> Ready() && pending == [] && !forceNewGroup && !firstEvent
    {
      var err := AwaitParent();
      assert !forceNewGroup && !firstEvent;
      JoinEnds(gaq.size, around, old(Now()), pending[0], err, Now());
      r := Interrupted;
      if !err {
        CompleteJoin();
        r := Scheduled;
      }
    }

    method AwaitParent() returns (err: bool)
      requires Valid() && pending == [Group(sequenceNumber, lastCommitted, false)]
      requires minWaitedTimestamp == SEQ_UNINIT
      requires assignedGroupIndex == SlotOf(gaq.entry, gaq.size, gaq.len - 1)
      requires 0 < lastCommitted < sequenceNumber == v.last + 1 && 0 < v.last
      modifies gaq`items, gaq.slots, this`v, this`trace
      modifies this`lastLwmTimestamp, this`lastLwmIndex, this`minWaitedTimestamp
      modifies this`killed, this`isError, this`waits
      ensures Valid() && minWaitedTimestamp == SEQ_UNINIT && v.last == old(v.last)
      ensures (err, Now()) in Awaits(gaq.size, around, old(Now()), lastCommitted)
      ensures !err ==> !HasToWait(v, lastCommitted)
    {
      NoWait(trace);
      HeardNothing(around, Control());
      err := false;
      var lwmEstimate := lastLwmTimestamp;
      if !ClockLeq(lastCommitted, lwmEstimate) && assignedGroupIndex != gaq.entry {
        err := WaitForLastCommittedTrx(lastCommitted);
        assert !err ==> !ClockLeq(sequenceNumber, lastLwmTimestamp);
      }
    }

    // The parent has finished: the group is counted in.
    method CompleteJoin()
      requires Valid() && pending == [Group(sequenceNumber, lastCommitted, false)]
      requires 0 < lastCommitted < sequenceNumber == v.last + 1 && 0 < v.last
      requires minWaitedTimestamp == SEQ_UNINIT && !firstEvent
      requires !HasToWait(v, lastCommitted) && !forceNewGroup
      modifies this`delegatedJobs, this`pending, this`v, this`trace
      ensures Ready() && pending == [] && !forceNewGroup && !firstEvent
      ensures v == Joined(old(v), old(pending)[0]) && trace == old(trace) + [Join(old(pending)[0])]
    {
      ghost var g := pending[0];
      MoveOn(gaq.size, trace, v, Join(g));
      delegatedJobs := delegatedJobs + 1;
      v, trace := Joined(v, g), trace + [Join(g)];
      pending := [];
    }

    // The current group starts a new batch once everything before it has finished.
    method StartBatch() returns (r: Outcome)
      requires Valid() && pending == [Group(sequenceNumber, lastCommitted, false)]
      requires minWaitedTimestamp == SEQ_UNINIT && !firstEvent && 0 <= sequenceNumber
      modifies gaq`entry, gaq`len, gaq`lwm, gaq`items, gaq.slots
      modifies this`lastLwmTimestamp, this`lastLwmIndex, this`v, this`trace, this`jobsDone, this`killed, this`isError
      modifies this`waits, this`counts, this`delegatedJobs, this`forceNewGroup, this`pending
      ensures (r, Now()) in BatchResults(gaq.size, around, old(Now()), old(pending)[0])
      ensures r == Scheduled ==> Ready() && pending == [] && !forceNewGroup && !firstEvent
    {
      // On entering the barrier the queue holds one group more than counted.
      assert gaq.len + jobsDone == 1 + delegatedJobs;
      ghost var k0, g := Now(), pending[0];
      var err := WaitForWorkersToFinish();
      if err {
        BatchStops(gaq.size, around, k0, g, Now());
        r := InconsistentData;
      } else {
        ghost var k1 := Now();
        ResetBatch();
        BatchStarts(gaq.size, around, k0, g, k1, Now());
        r := Scheduled;
      }
    }

    // Only the current group is left: the counters and marks start anew with it.
    method ResetBatch()
      requires gaq.Valid() && gaq.items == pending == [Group(sequenceNumber, lastCommitted, false)]
      requires v.items == [] && v.entry == gaq.entry && v.size == gaq.size
      requires v.markSlot == lastLwmIndex && v in Consistent(gaq.size, trace)
      requires minWaitedTimestamp == SEQ_UNINIT && !firstEvent && 0 <= sequenceNumber
      modifies gaq`lwm, this`lastLwmTimestamp, this`delegatedJobs, this`jobsDone, this`forceNewGroup
      modifies this`v, this`trace, this`pending
      ensures Ready() && pending == [] && !forceNewGroup
      ensures v == Restarted(old(v), old(pending)[0]) && trace == old(trace) + [Restart(old(pending)[0])]
    {
      gaq.lwm, lastLwmTimestamp := SEQ_UNINIT, SEQ_UNINIT;
      delegatedJobs, jobsDone := 1, 0;
      forceNewGroup := false;
      ghost var g := pending[0];
      MoveOn(gaq.size, trace, v, Restart(g));
      v, trace := Restarted(v, g), trace + [Restart(g)];
      pending := [];
    }
  }
}
