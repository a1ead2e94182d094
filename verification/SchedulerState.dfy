/**
 The scheduler's state as a value: the rule by which a group may start, the moves of coordinator and
 workers, and what every move keeps.
 */
module SchedulerState {
  import opened Basics
  import opened AssignedQueue

  const INDEX_UNDEF: nat := 0xFFFF_FFFF_FFFF_FFFF

  // The scheduling rule: a group may start when every earlier group up to its commit parent has
  // finished; without a commit parent it must follow all earlier ones.
  ghost predicate MayStart(earlier: seq<Group>, g: Group) {
    forall k :: 0 <= k < |earlier| ==>
      g.lastCommitted == SEQ_UNINIT || earlier[k].sequenceNumber <= g.lastCommitted ==> earlier[k].done
  }

  ghost predicate AllDone(items: seq<Group>) {
    forall k :: 0 <= k < |items| ==> items[k].done
  }

  // The same groups, some more of them finished.
  ghost predicate OnlyFinished(before: seq<Group>, after: seq<Group>) {
    && |after| == |before|
    && forall k :: 0 <= k < |before| ==> after[k] == before[k] || after[k] == before[k].(done := true)
  }

  function Unfinished(items: seq<Group>): nat {
    if items == [] then 0 else Unfinished(items[1..]) + if items[0].done then 0 else 1
  }

  function Finish(items: seq<Group>, k: nat): seq<Group>
    requires k < |items|
  {
    items[k := items[k].(done := true)]
  }

  lemma {:induction false} FinishingOne(items: seq<Group>, k: nat)
    requires k < |items| && !items[k].done
    ensures Unfinished(Finish(items, k)) == Unfinished(items) - 1
  {
    if k == 0 {
      assert Finish(items, k)[1..] == items[1..];
    } else {
      assert Finish(items, k)[1..] == Finish(items[1..], k - 1);
      FinishingOne(items[1..], k - 1);
    }
  }

  lemma {:induction false} UnfinishedTail(items: seq<Group>, r: nat)
    requires r <= |items|
    ensures Unfinished(items[r..]) <= Unfinished(items)
  {
    if r > 0 {
      UnfinishedTail(items[1..], r - 1);
      assert items[1..][r - 1..] == items[r..];
    }
  }

  // Waiting groups never wait for themselves: if the fresh mark is below the parent of the next
  // group in sequence, some group before it is unfinished.
  lemma SomebodyToWaitFor(items: seq<Group>, stable: int, lastCommitted: int)
    requires items != [] && Consecutive(items)
    requires 0 < lastCommitted <= items[|items| - 1].sequenceNumber
    requires !ClockLeq(lastCommitted, FullScan(items, stable))
    ensures exists k :: 0 <= k < |items| && !items[k].done
  {
    var r := RunEnd(items, 0);
    assert r < |items|;
  }

  /******* The scheduler's state as a value *******/

  // `items` are the queued groups whose scheduling is complete, `removed` all groups that have
  // left the queue, `last` the number of the last group scheduled.
  datatype View = View(
    items: seq<Group>,
    removed: seq<Group>,
    last: int,
    stable: int,
    mark: int,
    markSlot: nat,
    entry: nat,
    size: nat,
    delegatedJobs: nat,
    jobsDone: nat)
  {
    // All groups scheduled so far, in order.
    function History(): seq<Group> {
      removed + items
    }

    function Scan(): int {
      FullScan(items, stable)
    }
  }

  // The queued groups are numbered in sequence, up to the last number scheduled.
  ghost predicate NumbersInv(items: seq<Group>, stable: int, last: int) {
    && 0 <= last
    && Consecutive(items)
    && (items == [] ==> stable == SEQ_UNINIT || stable == last)
    && (items != [] ==> items[|items| - 1].sequenceNumber == last)
  }

  ghost predicate ViewInv(v: View) {
    && AllDone(v.removed)
    && NumbersInv(v.items, v.stable, v.last)
    && MarkInv(v.items, v.stable, v.mark)
    && v.entry < v.size && |v.items| <= v.size
    // The remembered index holds the group whose number was remembered.
    && (v.mark > v.stable ==> v.markSlot == SlotOf(v.entry, v.size, v.mark - v.items[0].sequenceNumber))
    // Job conservation.
    && |v.items| + v.jobsDone == v.delegatedJobs
  }

  function Finished(v: View, k: nat): View
    requires k < |v.items|
  {
    v.(items := Finish(v.items, k))
  }

  // The mark, brought up to date by a scan; a scan that finds nothing reports the queue's size.
  function Refreshed(v: View): View
    requires v.entry < v.size && |v.items| <= v.size
  {
    var r := RunEnd(v.items, 0);
    v.(mark := v.Scan(), markSlot := if r > 0 then SlotOf(v.entry, v.size, r - 1) else v.size)
  }

  function Collected(v: View): View
    requires v.entry < v.size && |v.items| <= v.size
  {
    var r := RunEnd(v.items, 0);
    v.(items := v.items[r..], removed := v.removed + v.items[..r], jobsDone := v.jobsDone + r,
       stable := if r == 0 then v.stable else v.items[r - 1].sequenceNumber,
       entry := SlotOf(v.entry, v.size, r))
  }

  // The next group in sequence joins the batch.
  function Joined(v: View, g: Group): View {
    v.(items := v.items + [g], last := g.sequenceNumber, delegatedJobs := v.delegatedJobs + 1)
  }

  // A new batch, after everything else has left the queue.
  function Restarted(v: View, g: Group): View {
    v.(items := [g], last := g.sequenceNumber, stable := SEQ_UNINIT, mark := SEQ_UNINIT,
       delegatedJobs := 1, jobsDone := 0)
  }

  /******* Runs of the scheduler *******/

  // All that ever happens to the scheduler's state.
  datatype Move = Done(k: nat) | Refresh | Collect | Join(g: Group) | Restart(g: Group)
  {
    // Schedules nothing.
    predicate Quiet() {
      !Join? && !Restart?
    }
  }

  // A group joins the batch as its next number, once the mark has reached its parent or nothing
  // is left in front of it.
  predicate MayJoin(v: View, g: Group) {
    && !g.done && |v.items| < v.size
    && 0 < v.last && g.sequenceNumber == v.last + 1 && 0 < g.lastCommitted < g.sequenceNumber
    && (v.items == [] || ClockLeq(g.lastCommitted, v.mark))
  }

  // A group starts a batch once everything else has left the queue.
  predicate MayRestart(v: View, g: Group) {
    !g.done && 0 <= g.sequenceNumber && v.items == []
  }

  predicate CanMove(v: View, m: Move) {
    && v.entry < v.size && |v.items| <= v.size
    && match m
      case Done(k) => k < |v.items| && !v.items[k].done
      case Refresh => true
      case Collect => true
      case Join(g) => MayJoin(v, g)
      case Restart(g) => MayRestart(v, g)
  }

  function Moved(v: View, m: Move): View
    requires CanMove(v, m)
  {
    match m
    case Done(k) => Finished(v, k)
    case Refresh => Refreshed(v)
    case Collect => Collected(v)
    case Join(g) => Joined(v, g)
    case Restart(g) => Restarted(v, g)
  }

  function EmptyView(size: nat): View {
    View([], [], SEQ_UNINIT, SEQ_UNINIT, SEQ_UNINIT, INDEX_UNDEF, 0, size, 0, 0)
  }

  // The moves lead from the empty scheduler to this state.
  ghost predicate Follows(size: nat, trace: seq<Move>, v: View)
    decreases |trace|
  {
    if trace == [] then v == EmptyView(size)
    else
      var n := |trace| - 1;
      exists v0 :: Follows(size, trace[..n], v0) && CanMove(v0, trace[n]) && v == Moved(v0, trace[n])
  }

  // The states so reached. Written as a set so that a method's proof can pass one on whole.
  ghost function Consistent(size: nat, trace: seq<Move>): iset<View> {
    iset v: View | Follows(size, trace, v) && ViewInv(v)
  }

  lemma MovedInv(v: View, m: Move)
    requires ViewInv(v) && CanMove(v, m)
    ensures ViewInv(Moved(v, m))
  {
    match m {
      case Done(k) => FinishedInv(v, k);
      case Refresh => RefreshedInv(v, Refreshed(v).markSlot);
      case Collect => CollectedInv(v);
      case Join(g) => JoinedInv(v, g);
      case Restart(g) => RestartedInv(v, g);
    }
  }

  lemma MoveOn(size: nat, trace: seq<Move>, v: View, m: Move)
    requires v in Consistent(size, trace) && CanMove(v, m)
    ensures Moved(v, m) in Consistent(size, trace + [m])
  {
    assert (trace + [m])[..|trace|] == trace;
    MovedInv(v, m);
  }

  lemma EmptyInv(size: nat)
    requires 0 < size
    ensures EmptyView(size) in Consistent(size, [])
  {
  }

  // How the moves may go on while the coordinator waits: nothing is scheduled. A set, for the
  // same reason.
  ghost function Waited(before: seq<Move>): iset<seq<Move>> {
    iset after: seq<Move> | before <= after && forall k :: |before| <= k < |after| ==> after[k].Quiet()
  }

  // After a wait, the one move that schedules something.
  predicate EndsWith(trace: seq<Move>, m: Move) {
    trace != [] && trace[|trace| - 1] == m
  }

  ghost predicate Schedules(before: seq<Move>, after: seq<Move>, m: Move) {
    EndsWith(after, m) && after[..|after| - 1] in Waited(before)
  }

  lemma NoWait(before: seq<Move>)
    ensures before in Waited(before)
  {
  }

  lemma WaitedOnce(before: seq<Move>, after: seq<Move>, m: Move)
    requires after in Waited(before) && m.Quiet()
    ensures after + [m] in Waited(before)
  {
  }

  lemma WaitedLonger(before: seq<Move>, mid: seq<Move>, after: seq<Move>)
    requires mid in Waited(before) && after in Waited(mid)
    ensures after in Waited(before)
  {
  }

  lemma SchedulesNext(before: seq<Move>, mid: seq<Move>, m: Move)
    requires mid in Waited(before)
    ensures Schedules(before, mid + [m], m)
  {
    assert (mid + [m])[..|mid|] == mid;
  }

  lemma {:induction false} FollowsInv(size: nat, trace: seq<Move>, v: View)
    requires 0 < size && Follows(size, trace, v)
    ensures ViewInv(v) && v.size == size
    decreases |trace|
  {
    if trace != [] {
      var n := |trace| - 1;
      var v0 :| Follows(size, trace[..n], v0) && CanMove(v0, trace[n]) && v == Moved(v0, trace[n]);
      FollowsInv(size, trace[..n], v0);
      MovedInv(v0, trace[n]);
    }
  }

  // What can happen while the coordinator sleeps: groups finish and the mark moves.
  ghost predicate Advanced(v: View, v': View) {
    && OnlyFinished(v.items, v'.items)
    && v' == v.(items := v'.items, mark := v'.mark, markSlot := v'.markSlot)
  }

  lemma AdvancedTransitive(v: View, v1: View, v2: View)
    requires Advanced(v, v1) && Advanced(v1, v2)
    ensures Advanced(v, v2)
  {
  }

  lemma FinishedInv(v: View, k: nat)
    requires ViewInv(v) && k < |v.items|
    ensures ViewInv(Finished(v, k))
    ensures v.Scan() <= Finished(v, k).Scan()
  {
    ScanAfterCompletion(v.items, v.stable, k);
  }

  lemma CollectedInv(v: View)
    requires ViewInv(v)
    ensures ViewInv(Collected(v))
    ensures Collected(v).History() == v.History()
    ensures Collected(v).Scan() == v.Scan()
  {
    var r := RunEnd(v.items, 0);
    ScanAfterRemoval(v.items, v.stable);
    MarkFromScan(v.items, v.stable, v.mark);
    assert v.removed + v.items[..r] + v.items[r..] == v.removed + v.items;
    var v' := Collected(v);
    if 0 < r < |v.items| {
      assert v'.items[0].sequenceNumber == v.items[0].sequenceNumber + r;
      assert v'.stable == v.items[0].sequenceNumber + (r - 1);
    }
  }

  // A refreshed mark, remembered together with the slot of its group.
  lemma RefreshedInv(v: View, slot: nat)
    requires ViewInv(v)
    requires RunEnd(v.items, 0) > 0 ==> slot == SlotOf(v.entry, v.size, RunEnd(v.items, 0) - 1)
    ensures ViewInv(v.(mark := v.Scan(), markSlot := slot))
    ensures ClockLeq(v.mark, v.Scan())
    ensures RunEnd(v.items, 0) == 0 ==> v.mark <= v.stable
  {
    MarkFromScan(v.items, v.stable, v.mark);
  }

  lemma JoinedInv(v: View, g: Group)
    requires ViewInv(v) && |v.items| < v.size
    requires 0 < v.last && g.sequenceNumber == v.last + 1
    ensures ViewInv(Joined(v, g))
  {
  }

  lemma RestartedInv(v: View, g: Group)
    requires v.items == [] && AllDone(v.removed) && v.entry < v.size
    requires 0 <= g.sequenceNumber
    ensures ViewInv(Restarted(v, g))
  {
  }

  // Everything numbered up to the cached mark has finished.
  lemma MarkAllowsStart(v: View, g: Group)
    requires ViewInv(v) && 0 < v.last
    requires 0 < g.lastCommitted
    requires v.items == [] || ClockLeq(g.lastCommitted, v.mark)
    ensures MayStart(v.History(), g)
  {
    forall k | 0 <= k < |v.History()| && v.History()[k].sequenceNumber <= g.lastCommitted
      ensures v.History()[k].done
    {
      if k >= |v.removed| {
        var i := k - |v.removed|;
        assert v.History()[k] == v.items[i];
        MarkIsSafe(v.items, v.stable, v.mark, i);
      }
    }
  }

  // The group was started after v0: the history gained it as the last entry, other entries may
  // only have finished meanwhile, and the rule allowed it to start.
  ghost predicate Started(v0: View, v: View, g: Group) {
    exists before :: v.History() == before + [g] && OnlyFinished(v0.History(), before) && MayStart(before, g)
  }

  // The same, after everything else had finished.
  ghost predicate StartedAlone(v0: View, v: View, g: Group) {
    && v.items == [g]
    && OnlyFinished(v0.History(), v.removed) && AllDone(v.removed)
  }

  lemma AloneIsStarted(v0: View, v: View, g: Group)
    requires StartedAlone(v0, v, g)
    ensures Started(v0, v, g)
  {
    assert v.History() == v.removed + [g];
  }

  lemma JoinedIsStarted(v0: View, v: View, g: Group)
    requires Advanced(v0, v) && ViewInv(v) && MayStart(v.History(), g)
    ensures Started(v0, Joined(v, g), g)
  {
    assert Joined(v, g).History() == v.History() + [g];
  }

  /******* Timestamps and steps *******/

  // What a group's descriptor says once it is scheduled.
  function ScheduledGroup(isGtid: bool, sequenceNumber: int, lastCommitted: int): Group {
    if isGtid then Group(sequenceNumber, lastCommitted, false) else Group(SEQ_UNINIT, SEQ_UNINIT, false)
  }

  // Timestamps no server writes: a parent not below the group, or a number not above the last.
  predicate BadTimestamps(last: int, g: Group) {
    || (ClockLeq(g.sequenceNumber, g.lastCommitted) && g.lastCommitted != SEQ_UNINIT)
    || (ClockLeq(g.sequenceNumber, last) && g.sequenceNumber != SEQ_UNINIT)
  }

  // In other words: a parent that is given lies below the group, and a number that is given lies
  // above the last one.
  lemma BadTimestampsAre(last: int, g: Group)
    requires 0 <= last && 0 <= g.sequenceNumber && 0 <= g.lastCommitted
    ensures !BadTimestamps(last, g) <==>
      && (g.lastCommitted == SEQ_UNINIT || g.lastCommitted < g.sequenceNumber)
      && (g.sequenceNumber == SEQ_UNINIT || last < g.sequenceNumber)
  {
  }

  // When the coordinator asks for a full barrier.
  predicate StartsNewGroup(forced: bool, last: int, g: Group) {
    || forced
    || g.sequenceNumber == SEQ_UNINIT
    || g.lastCommitted == SEQ_UNINIT
    || last == SEQ_UNINIT
    || g.sequenceNumber != last + 1
  }

  lemma FinishedAdvances(v: View, k: nat, trace: seq<Move>)
    requires ViewInv(v) && k < |v.items| && !v.items[k].done
    ensures Advanced(v, Finished(v, k)) && Advanced(v, Refreshed(Finished(v, k)))
    ensures Unfinished(Finished(v, k).items) < Unfinished(v.items)
    ensures trace + [Done(k)] in Waited(trace) && trace + [Done(k)] + [Refresh] in Waited(trace)
    ensures TwoMoves(trace, trace + [Done(k)] + [Refresh])
  {
    assert (trace + [Done(k)] + [Refresh])[..|trace|] == trace;
    FinishingOne(v.items, k);
    WaitedOnce(trace, trace, Done(k));
    WaitedOnce(trace, trace + [Done(k)], Refresh);
  }

  predicate TwoMoves(before: seq<Move>, after: seq<Move>) {
    |after| == |before| + 2 && after[..|after| - 2] == before
  }

  lemma OnlyFinishedTransitive(a: seq<Group>, b: seq<Group>, c: seq<Group>)
    requires OnlyFinished(a, b) && OnlyFinished(b, c)
    ensures OnlyFinished(a, c)
  {
  }

  // Every round of the barrier finishes a group or removes one, and loses none.
  lemma BarrierProgress(was: View, mid: View)
    requires ViewInv(mid) && Advanced(was, mid) && was.items != []
    requires Unfinished(mid.items) <= Unfinished(was.items)
    requires Unfinished(mid.items) < Unfinished(was.items) || mid.items[0].done
    ensures
      var v := Collected(mid);
      && Unfinished(v.items) + |v.items| < Unfinished(was.items) + |was.items|
      && OnlyFinished(was.History(), v.History())
  {
    CollectedInv(mid);
    UnfinishedTail(mid.items, RunEnd(mid.items, 0));
  }

  lemma DropFromQueue(items: seq<Group>, pending: seq<Group>, r: nat)
    requires r <= |items|
    ensures (items + pending)[r..] == items[r..] + pending
  {
  }

  // The group being scheduled is not finished, so the scan of the queue stops before it.
  lemma ScanOfQueue(items: seq<Group>, pending: seq<Group>, k: nat)
    requires pending != [] ==> !pending[0].done
    requires k <= |items| && forall j :: 0 <= j < k ==> items[j].done
    ensures RunEnd(items + pending, k) == RunEnd(items, 0)
  {
    RunEndAtLeast(items, 0, k);
    RunEndIs(items + pending, k, RunEnd(items, 0));
  }
}
