/**
 What a scheduling call comes to, given what happens around the coordinator while it waits.
 */
module SchedulerCalls {
  import opened Basics
  import opened AssignedQueue
  import opened SchedulerState

  datatype Outcome = Scheduled | CantParallel | InconsistentData | Interrupted

  /******* The surroundings *******/

  // What happens around the coordinator: whether it is told to stop and whether a worker fails
  // during its n-th wait, whether the n-th checkpoint of its barriers fails, and whether some
  // worker has stopped running by the end of its n-th barrier.
  datatype Surroundings = Surroundings(
    stops: nat -> bool, fails: nat -> bool, checkpointFails: nat -> bool, workerStopped: nat -> bool)

  // Something of the kind happens from the one count to the other.
  predicate Happens(what: nat -> bool, from: nat, to: nat) {
    from < to && (what(to - 1) || Happens(what, from, to - 1))
  }

  lemma {:induction false} HappensLater(what: nat -> bool, from: nat, mid: nat, to: nat)
    requires from <= mid <= to
    ensures Happens(what, from, to) <==> Happens(what, from, mid) || Happens(what, mid, to)
  {
    if mid < to {
      HappensLater(what, from, mid, to - 1);
    }
  }

  lemma {:induction false} HappensSomewhere(what: nat -> bool, from: nat, to: nat)
    ensures Happens(what, from, to) <==> exists n: nat :: from <= n < to && what(n)
  {
    if from < to {
      HappensSomewhere(what, from, to - 1);
    }
  }

  // What the coordinator has heard in its waits.
  datatype Hearing = Hearing(killed: bool, isError: bool, waits: nat)

  // What it may have heard later on. A set, for the same reason.
  ghost function Heard(around: Surroundings, c: Hearing): iset<Hearing> {
    iset c': Hearing |
      && c.waits <= c'.waits
      && c'.killed == (c.killed || Happens(around.stops, c.waits, c'.waits))
      && c'.isError == (c.isError || Happens(around.fails, c.waits, c'.waits))
  }

  lemma HeardNothing(around: Surroundings, c: Hearing)
    ensures c in Heard(around, c)
  {
  }

  lemma HeardOnce(around: Surroundings, c: Hearing)
    ensures Hearing(c.killed || around.stops(c.waits), c.isError || around.fails(c.waits), c.waits + 1)
      in Heard(around, c)
  {
    assert !Happens(around.stops, c.waits, c.waits) && !Happens(around.fails, c.waits, c.waits);
  }

  lemma HeardMore(around: Surroundings, c: Hearing, c1: Hearing, c2: Hearing)
    requires c1 in Heard(around, c) && c2 in Heard(around, c1)
    ensures c2 in Heard(around, c)
  {
    HappensLater(around.stops, c.waits, c1.waits, c2.waits);
    HappensLater(around.fails, c.waits, c1.waits, c2.waits);
  }

  // How often the coordinator has made a checkpoint at a barrier and come to the end of one.
  datatype Counts = Counts(rounds: nat, barriers: nat)

  // The coordinator is stopped, or a worker has failed, or meanwhile a checkpoint failed or a
  // worker was found to have stopped.
  predicate BarrierFails(around: Surroundings, c: Hearing, from: Counts, to: Counts) {
    || c.killed || c.isError || Happens(around.checkpointFails, from.rounds, to.rounds)
    || Happens(around.workerStopped, from.barriers, to.barriers)
  }

  lemma BarrierEnds(around: Surroundings, c: Hearing, from: Counts, to: Counts)
    requires from.barriers == to.barriers
    ensures
      var failed := c.killed || c.isError || Happens(around.checkpointFails, from.rounds, to.rounds);
      && (BarrierFails(around, c, from, to) <==> failed)
      && (BarrierFails(around, c, from, to.(barriers := to.barriers + 1)) <==>
        failed || around.workerStopped(to.barriers))
  {
    assert !Happens(around.workerStopped, from.barriers, to.barriers);
  }

  predicate NotFewer(from: Counts, to: Counts) {
    from.rounds <= to.rounds && from.barriers <= to.barriers
  }

  // A group in sequence has to wait for its parent if something is in front of it that the mark
  // does not cover.
  predicate HasToWait(v: View, parent: int) {
    v.items != [] && !ClockLeq(parent, v.mark)
  }

  // The mark had not reached the parent after these moves.
  ghost predicate StillBelow(size: nat, trace: seq<Move>, parent: int) {
    exists v :: v in Consistent(size, trace) && !ClockLeq(parent, v.mark)
  }

  // The moves of a wait for the parent that went on only while the mark was below it: the mark was
  // brought up to date, and before the last group finished it had not been reached.
  ghost function ShortestWaits(size: nat, before: seq<Move>, parent: int): iset<seq<Move>> {
    iset after: seq<Move> |
      || after == before + [Refresh]
      || (|after| >= |before| + 2 && StillBelow(size, after[..|after| - 2], parent))
  }

  // The moves before a group in sequence joins: none, if it does not have to wait.
  ghost function JoinWaits(size: nat, v: View, before: seq<Move>, parent: int): iset<seq<Move>> {
    if HasToWait(v, parent) then Waited(before) * ShortestWaits(size, before, parent) else iset{before}
  }

  lemma SleptOnce(size: nat, before: seq<Move>, mid: seq<Move>, v: View, parent: int, after: seq<Move>)
    requires mid in Waited(before) && v in Consistent(size, mid) && !ClockLeq(parent, v.mark) && TwoMoves(mid, after)
    ensures after in ShortestWaits(size, before, parent)
  {
  }

  /******* What a scheduling call does *******/

  function BatchOutcome(barrierFails: bool): Outcome {
    if barrierFails then InconsistentData else Scheduled
  }

  function JoinOutcome(waits: bool, c: Hearing): Outcome {
    if waits && (c.killed || c.isError) then Interrupted else Scheduled
  }

  // All that the coordinator knows.
  datatype Knowledge = Knowledge(v: View, trace: seq<Move>, heard: Hearing, counts: Counts)

  ghost predicate Follow(size: nat, around: Surroundings, k0: Knowledge, k: Knowledge) {
    k.v in Consistent(size, k.trace) && k.heard in Heard(around, k0.heard) && NotFewer(k0.counts, k.counts)
  }

  // The rounds of a barrier so far: whether all checkpoints went well, and what is known then.
  ghost function Drains(around: Surroundings, k0: Knowledge): iset<(bool, Knowledge)> {
    iset checked: bool, k: Knowledge |
      && OnlyFinished(k0.v.History(), k.v.History()) && k.trace in Waited(k0.trace)
      && k.heard in Heard(around, k0.heard)
      && k0.counts.rounds <= k.counts.rounds && k.counts.barriers == k0.counts.barriers
      && checked == !Happens(around.checkpointFails, k0.counts.rounds, k.counts.rounds)
      && (k0.v.items == [] ==> k.v.items == [] && k.heard == k0.heard && k.counts == k0.counts) :: (checked, k)
  }

  // Whether the barrier fails, and if not, that everything before it has finished and left.
  ghost function Barriers(size: nat, around: Surroundings, k0: Knowledge): iset<(bool, Knowledge)> {
    iset err: bool, k: Knowledge |
      && Follow(size, around, k0, k) && k.trace in Waited(k0.trace)
      && err == BarrierFails(around, k.heard, k0.counts, k.counts)
      && (!err ==> OnlyFinished(k0.v.History(), k.v.removed) && AllDone(k.v.removed) && k.v.items == [])
      && (k0.v.items == [] ==> k.heard == k0.heard && k.counts.rounds == k0.counts.rounds) :: (err, k)
  }

  // A poll of the workers: some may finish, and one does if the oldest group was unfinished.
  ghost function Polls(around: Surroundings, k: Knowledge): iset<Knowledge> {
    iset k': Knowledge |
      && Advanced(k.v, k'.v) && k'.trace in Waited(k.trace) && k'.heard in Heard(around, k.heard)
      && k'.counts == k.counts && Unfinished(k'.v.items) <= Unfinished(k.v.items)
      && (k.v.items != [] && !k'.v.items[0].done ==> Unfinished(k'.v.items) < Unfinished(k.v.items))
  }

  // What is known after a checkpoint.
  function CheckedPoint(k: Knowledge): Knowledge
    requires k.v.entry < k.v.size && |k.v.items| <= k.v.size
  {
    k.(v := Collected(k.v), trace := k.trace + [Collect])
  }

  lemma DrainsNothing(around: Surroundings, k: Knowledge)
    ensures (true, k) in Drains(around, k)
  {
    HeardNothing(around, k.heard);
    NoWait(k.trace);
  }

  // A round: a checkpoint after the workers have been polled.
  lemma DrainsOn(around: Surroundings, k0: Knowledge, k1: Knowledge, k2: Knowledge, checked: bool)
    requires (true, k1) in Drains(around, k0) && k1.v.items != [] && ViewInv(k2.v)
    requires k2 in Polls(around, k1.(counts := k1.counts.(rounds := k1.counts.rounds + 1)))
    requires checked == !around.checkpointFails(k1.counts.rounds)
    ensures (checked, CheckedPoint(k2)) in Drains(around, k0)
    ensures
      Unfinished(Collected(k2.v).items) + |Collected(k2.v).items| < Unfinished(k1.v.items) + |k1.v.items|
  {
    BarrierProgress(k1.v, k2.v);
    OnlyFinishedTransitive(k0.v.History(), k1.v.History(), Collected(k2.v).History());
    WaitedLonger(k0.trace, k1.trace, k2.trace);
    WaitedOnce(k0.trace, k2.trace, Collect);
    HeardMore(around, k0.heard, k1.heard, k2.heard);
  }

  function PastBarrier(k: Knowledge): Knowledge {
    k.(counts := k.counts.(barriers := k.counts.barriers + 1))
  }

  // What the end of the barrier adds.
  lemma DrainedBarrier(size: nat, around: Surroundings, k0: Knowledge, checked: bool, k: Knowledge)
    requires (checked, k) in Drains(around, k0) && k.v in Consistent(size, k.trace)
    requires checked && !k.heard.killed && !k.heard.isError ==> k.v.items == []
    ensures
      var stopped := around.workerStopped(k.counts.barriers);
      if !checked then (true, k) in Barriers(size, around, k0)
      else (stopped || k.heard.killed || k.heard.isError, PastBarrier(k)) in Barriers(size, around, k0)
  {
    BarrierEnds(around, k.heard, k0.counts, k.counts);
    assert k.v.items == [] ==> k.v.History() == k.v.removed;
  }

  // A group in sequence joins as soon as it may, unless the coordinator is stopped or a worker
  // fails while it waits.
  ghost function JoinResults(size: nat, around: Surroundings, k0: Knowledge, g: Group): iset<(Outcome, Knowledge)> {
    iset r: Outcome, k: Knowledge |
      && Follow(size, around, k0, k)
      && r == JoinOutcome(HasToWait(k0.v, g.lastCommitted), k.heard)
      && (if r == Scheduled then
          && Started(k0.v, k.v, g) && k.v.last == g.sequenceNumber
          && Schedules(k0.trace, k.trace, Join(g))
          && k.trace[..|k.trace| - 1] in JoinWaits(size, k0.v, k0.trace, g.lastCommitted)
        else k.trace in Waited(k0.trace))
      && (!HasToWait(k0.v, g.lastCommitted) ==> k.heard == k0.heard && k.v == Joined(k0.v, g)) :: (r, k)
  }

  // A batch starts after everything else has finished, unless the barrier fails.
  ghost function BatchResults(size: nat, around: Surroundings, k0: Knowledge, g: Group): iset<(Outcome, Knowledge)> {
    iset r: Outcome, k: Knowledge |
      && Follow(size, around, k0, k)
      && r == BatchOutcome(BarrierFails(around, k.heard, k0.counts, k.counts))
      && (if r == Scheduled then
          && Started(k0.v, k.v, g) && StartedAlone(k0.v, k.v, g) && k.v.last == g.sequenceNumber
          && Schedules(k0.trace, k.trace, Restart(g))
        else k.trace in Waited(k0.trace))
      && (k0.v.items == [] ==> k.heard == k0.heard && k.counts.rounds == k0.counts.rounds) :: (r, k)
  }

  ghost function Results(
    size: nat, around: Surroundings, k0: Knowledge, g: Group, isNewGroup: bool): iset<(Outcome, Knowledge)>
  {
    if isNewGroup then BatchResults(size, around, k0, g) else JoinResults(size, around, k0, g)
  }

  // A scheduling call: nothing if the coordinator is being stopped, a refusal of bad timestamps
  // unless it is the first event, and otherwise a start in a new batch or in sequence.
  ghost function Calls(
    size: nat, around: Surroundings, k0: Knowledge, firstEvent: bool, forced: bool, g: Group)
    : iset<(Outcome, Knowledge)>
  {
    if k0.heard.killed then iset{(Scheduled, k0)}
    else if !firstEvent && BadTimestamps(k0.v.last, g) then iset{(CantParallel, k0)}
    else Results(size, around, k0, g, StartsNewGroup(forced, k0.v.last, g))
  }

  // Something has happened around the coordinator since it started.
  predicate Disturbed(around: Surroundings, heard: Hearing, counts: Counts) {
    || Happens(around.stops, 0, heard.waits) || Happens(around.fails, 0, heard.waits)
    || Happens(around.checkpointFails, 0, counts.rounds) || Happens(around.workerStopped, 0, counts.barriers)
  }

  const AT_START := Hearing(false, false, 0)

  lemma ToldToStop(around: Surroundings, heard: Hearing, counts: Counts)
    requires heard in Heard(around, AT_START) && heard.killed
    ensures Disturbed(around, heard, counts)
  {
  }

  // What a call with good timestamps means to whoever makes it.
  lemma CallEnds(
    size: nat, around: Surroundings, k0: Knowledge, firstEvent: bool, forced: bool, g: Group, r: Outcome, k: Knowledge)
    requires (r, k) in Calls(size, around, k0, firstEvent, forced, g) && !k0.heard.killed
    requires k0.v in Consistent(size, k0.trace) && k0.heard in Heard(around, AT_START)
    requires firstEvent || !BadTimestamps(k0.v.last, g)
    ensures k.v in Consistent(size, k.trace) && k.heard in Heard(around, AT_START) && r != CantParallel
    ensures r == Scheduled ==> k.v.last == g.sequenceNumber
    ensures r == Scheduled ==>
      Schedules(k0.trace, k.trace, if StartsNewGroup(forced, k0.v.last, g) then Restart(g) else Join(g))
    ensures r != Scheduled ==> k.trace in Waited(k0.trace) && Disturbed(around, k.heard, k.counts)
  {
    HeardMore(around, AT_START, k0.heard, k.heard);
    HappensLater(around.checkpointFails, 0, k0.counts.rounds, k.counts.rounds);
    HappensLater(around.workerStopped, 0, k0.counts.barriers, k.counts.barriers);
  }

  // What comes of waiting for the parent: whether it failed, and what is known then.
  ghost function Awaits(size: nat, around: Surroundings, k0: Knowledge, parent: int): iset<(bool, Knowledge)> {
    iset err: bool, k: Knowledge |
      && Follow(size, around, k0, k) && Advanced(k0.v, k.v) && k.trace in Waited(k0.trace)
      && err == (HasToWait(k0.v, parent) && (k.heard.killed || k.heard.isError))
      && (!err ==> !HasToWait(k.v, parent) && k.trace in JoinWaits(size, k0.v, k0.trace, parent))
      && (!HasToWait(k0.v, parent) ==> k.heard == k0.heard && k.v == k0.v) :: (err, k)
  }

  lemma JoinEnds(size: nat, around: Surroundings, k0: Knowledge, g: Group, err: bool, k1: Knowledge)
    requires (err, k1) in Awaits(size, around, k0, g.lastCommitted) && 0 < k0.v.last && 0 < g.lastCommitted
    ensures err ==> (Interrupted, k1) in JoinResults(size, around, k0, g)
    ensures
      var k := k1.(v := Joined(k1.v, g), trace := k1.trace + [Join(g)]);
      !err && k.v in Consistent(size, k.trace) ==> (Scheduled, k) in JoinResults(size, around, k0, g)
  {
    if !err {
      MarkAllowsStart(k1.v, g);
      SchedulesNext(k0.trace, k1.trace, Join(g));
      JoinedIsStarted(k0.v, k1.v, g);
      assert (k1.trace + [Join(g)])[..|k1.trace|] == k1.trace;
    }
  }

  lemma BatchStarts(size: nat, around: Surroundings, k0: Knowledge, g: Group, k1: Knowledge, k: Knowledge)
    requires (false, k1) in Barriers(size, around, k0)
    requires k == k1.(v := Restarted(k1.v, g), trace := k1.trace + [Restart(g)]) && k.v in Consistent(size, k.trace)
    ensures (Scheduled, k) in BatchResults(size, around, k0, g)
  {
    SchedulesNext(k0.trace, k1.trace, Restart(g));
    AloneIsStarted(k0.v, k.v, g);
  }

  lemma BatchStops(size: nat, around: Surroundings, k0: Knowledge, g: Group, k: Knowledge)
    requires (true, k) in Barriers(size, around, k0)
    ensures (InconsistentData, k) in BatchResults(size, around, k0, g)
  {
  }
}
