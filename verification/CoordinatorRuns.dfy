/**
 The coordinator and its workers on a log: every interleaving of what the scheduler does, with
 the row changes. These runs are runs of the scheduling rule; the coordinator is stricter than
 the rule in one point, and here is exactly which transactions it lets overlap.
 */
module CoordinatorRuns {
  import opened Basics
  import opened Transactions
  import opened AssignedQueue
  import opened SchedulerState
  import opened ReplicaRuns

  datatype Applier = Applier(v: View, forced: bool, db: Db, progress: seq<nat>)

  // A new batch is forced, a move of the scheduler, or an operation of transaction i.
  datatype Act = ForceNewGroup | Coordinate(m: Move) | Work(i: nat)

  function Idle(log: seq<Item>, db: Db, size: nat): Applier {
    Applier(EmptyView(size), false, db, seq(|log|, _ => 0))
  }

  // The next transaction of the log.
  predicate IsNext(log: seq<Item>, a: Applier, g: Group) {
    var j := |a.v.History()|;
    j < |log| && g == GroupOf(log[j])
  }

  // A worker finishes its group after its last operation. A change of the log file forces a new
  // batch before its first transaction is scheduled.
  predicate CanAct(log: seq<Item>, a: Applier, act: Act) {
    && |a.progress| == |log| && |a.v.History()| <= |log|
    && match act
      case ForceNewGroup => true
      case Coordinate(m) =>
        && CanMove(a.v, m)
        && (match m
          case Done(k) =>
            var i := |a.v.removed| + k;
            a.progress[i] == |log[i].trx.ops|
          case Join(g) =>
            IsNext(log, a, g) && !StartsNewGroup(a.forced, a.v.last, g) && !log[|a.v.History()|].opensFile
          case Restart(g) =>
            && IsNext(log, a, g) && StartsNewGroup(a.forced, a.v.last, g)
            && (log[|a.v.History()|].opensFile ==> a.forced)
          case _ => true)
      case Work(i) =>
        |a.v.removed| <= i < |a.v.History()| && !a.v.History()[i].done && a.progress[i] < |log[i].trx.ops|
  }

  function Acted(log: seq<Item>, a: Applier, act: Act): Applier
    requires CanAct(log, a, act)
  {
    match act
    case ForceNewGroup => a.(forced := true)
    case Coordinate(m) => a.(v := Moved(a.v, m), forced := if m.Restart? then false else a.forced)
    case Work(i) =>
      a.(db := ApplyOp(a.db, log[i].trx.ops[a.progress[i]]), progress := a.progress[i := a.progress[i] + 1])
  }

  // The states of the applier with a queue of the given size.
  ghost predicate Ran(log: seq<Item>, db: Db, size: nat, acts: seq<Act>, a: Applier)
    decreases |acts|
  {
    if acts == [] then a == Idle(log, db, size)
    else
      var n := |acts| - 1;
      exists a0 :: Ran(log, db, size, acts[..n], a0) && CanAct(log, a0, acts[n]) && a == Acted(log, a0, acts[n])
  }

  // The states so reached. Written as a set so that a proof can pass one on whole.
  ghost function Runs(log: seq<Item>, db: Db, size: nat, acts: seq<Act>): iset<Applier> {
    iset a: Applier | Ran(log, db, size, acts, a)
  }

  lemma Then(log: seq<Item>, db: Db, size: nat, acts: seq<Act>, a: Applier, act: Act) returns (more: seq<Act>)
    requires a in Runs(log, db, size, acts) && CanAct(log, a, act)
    ensures Acted(log, a, act) in Runs(log, db, size, more)
  {
    more := acts + [act];
    assert more[..|acts|] == acts;
  }

  /******* Runs of the rule *******/

  // What a replica sees of the applier.
  function Seen(a: Applier): Replica {
    Replica(a.db, a.v.History(), a.progress)
  }

  ghost predicate Inv(log: seq<Item>, size: nat, a: Applier) {
    && ViewInv(a.v) && a.v.size == size
    && ProgressInv(log, Seen(a)) && WaitsInv(log, Seen(a).groups)
  }

  // A scheduled group is one that the rule allows to start.
  lemma ScheduleIsStart(log: seq<Item>, a: Applier, m: Move)
    requires ViewInv(a.v) && (m.Join? || m.Restart?) && CanAct(log, a, Coordinate(m))
    ensures ReplicaRuns.Enabled(log, Seen(a), Start)
    ensures Seen(Acted(log, a, Coordinate(m))) == ReplicaRuns.Next(log, Seen(a), Start)
  {
    var a' := Acted(log, a, Coordinate(m));
    match m {
      case Join(g) =>
        MarkAllowsStart(a.v, g);
        assert a'.v.History() == a.v.History() + [g];
      case Restart(g) =>
        assert a.v.History() == a.v.removed;
        assert a'.v.History() == a.v.removed + [g];
      case _ =>
    }
  }

  // What an act is to the rule: an event, or nothing.
  function EventOf(a: Applier, act: Act): Option<Event> {
    match act
    case ForceNewGroup => None
    case Work(i) => Some(Apply(i))
    case Coordinate(m) =>
      match m
      case Done(k) => Some(Event.Finish(|a.v.removed| + k))
      case Join(_) => Some(Start)
      case Restart(_) => Some(Start)
      case _ => None
  }

  lemma DoneIsFinish(log: seq<Item>, a: Applier, k: nat)
    requires CanAct(log, a, Coordinate(Done(k)))
    ensures ReplicaRuns.Enabled(log, Seen(a), Event.Finish(|a.v.removed| + k))
    ensures Seen(Acted(log, a, Coordinate(Done(k)))) == ReplicaRuns.Next(log, Seen(a), Event.Finish(|a.v.removed| + k))
  {
    var i := |a.v.removed| + k;
    assert a.v.History()[i] == a.v.items[k];
    assert Finished(a.v, k).History() == SchedulerState.Finish(a.v.History(), i);
  }

  lemma ActIsEvent(log: seq<Item>, a: Applier, act: Act)
    requires ViewInv(a.v) && CanAct(log, a, act)
    ensures match EventOf(a, act)
      case None => Seen(Acted(log, a, act)) == Seen(a)
      case Some(e) =>
        && ReplicaRuns.Enabled(log, Seen(a), e)
        && Seen(Acted(log, a, act)) == ReplicaRuns.Next(log, Seen(a), e)
  {
    match act {
      case Coordinate(m) =>
        match m {
          case Done(k) => DoneIsFinish(log, a, k);
          case Collect => CollectedInv(a.v);
          case Refresh =>
          case _ => ScheduleIsStart(log, a, m);
        }
      case _ =>
    }
  }

  lemma ActKeepsView(log: seq<Item>, a: Applier, act: Act)
    requires ViewInv(a.v) && CanAct(log, a, act)
    ensures ViewInv(Acted(log, a, act).v) && Acted(log, a, act).v.size == a.v.size
  {
    if act.Coordinate? {
      MovedInv(a.v, act.m);
    }
  }

  /**
   Every run of the coordinator and its workers is a run of the scheduling rule.
   */
  lemma {:induction false} RanIsReached(log: seq<Item>, db: Db, size: nat, acts: seq<Act>, a: Applier)
    returns (events: seq<Event>)
    requires 0 < size && a in Runs(log, db, size, acts)
    ensures Reached(log, db, events, Seen(a)) && Inv(log, size, a)
    decreases |acts|
  {
    if acts == [] {
      events := [];
      EmptyInv(size);
    } else {
      var n := |acts| - 1;
      var a0 :| Ran(log, db, size, acts[..n], a0) && CanAct(log, a0, acts[n]) && a == Acted(log, a0, acts[n]);
      events := RanIsReached(log, db, size, acts[..n], a0);
      ActIsEvent(log, a0, acts[n]);
      ActKeepsView(log, a0, acts[n]);
      if EventOf(a0, acts[n]).Some? {
        events := ReplicaRuns.Then(log, db, events, Seen(a0), EventOf(a0, acts[n]).value);
      }
    }
    ReachedWaits(log, db, events, Seen(a));
  }

  /******* The coordinator's own moves *******/

  // The groups scheduled by the moves, in order.
  function Scheduled(trace: seq<Move>): seq<Group> {
    if trace == [] then []
    else
      var n := |trace| - 1;
      Scheduled(trace[..n]) + match trace[n]
        case Join(g) => [g]
        case Restart(g) => [g]
        case _ => []
  }

  // The coordinator scheduled the transactions of the log, and forced a new batch at each file.
  ghost predicate FollowsLog(log: seq<Item>, trace: seq<Move>) {
    trace == [] ||
    var n, j := |trace| - 1, |Scheduled(trace[..|trace| - 1])|;
    && FollowsLog(log, trace[..n])
    && match trace[n]
      case Join(g) => j < |log| && g == GroupOf(log[j]) && !log[j].opensFile
      case Restart(g) => j < |log| && g == GroupOf(log[j])
      case _ => true
  }

  // Where a queued group stands.
  lemma Position(log: seq<Item>, db: Db, size: nat, acts: seq<Act>, a: Applier, k: nat)
    requires 0 < size && a in Runs(log, db, size, acts) && k < |a.v.items|
    ensures |a.v.removed| + k < |a.v.History()| <= |log| == |a.progress|
    ensures a.v.History()[|a.v.removed| + k] == a.v.items[k]
    ensures a.progress[|a.v.removed| + k] <= |log[|a.v.removed| + k].trx.ops|
  {
    var _ := RanIsReached(log, db, size, acts, a);
  }

  // What is left of transaction i.
  function Left(log: seq<Item>, a: Applier, i: nat): seq<RowOp> {
    if i < |log| && i < |a.progress| && a.progress[i] <= |log[i].trx.ops| then log[i].trx.ops[a.progress[i]..] else []
  }

  // One more operation of transaction i.
  function Stepped(log: seq<Item>, a: Applier, i: nat): Applier
    requires Left(log, a, i) != []
  {
    a.(db := ApplyOp(a.db, Left(log, a, i)[0]), progress := a.progress[i := a.progress[i] + 1])
  }

  lemma WorkOnce(log: seq<Item>, db: Db, size: nat, acts: seq<Act>, a: Applier, k: nat) returns (more: seq<Act>)
    requires 0 < size && a in Runs(log, db, size, acts) && k < |a.v.items| && !a.v.items[k].done
    requires Left(log, a, |a.v.removed| + k) != []
    ensures Stepped(log, a, |a.v.removed| + k) in Runs(log, db, size, more)
    ensures |log| == |a.progress|
  {
    var act := Work(|a.v.removed| + k);
    Position(log, db, size, acts, a, k);
    more := Then(log, db, size, acts, a, act);
  }

  lemma {:induction false} ApplyFirst(db: Db, ops: seq<RowOp>)
    requires ops != []
    ensures ApplyOps(db, ops) == ApplyOps(ApplyOp(db, ops[0]), ops[1..])
  {
    var n := |ops| - 1;
    if n > 0 {
      ApplyFirst(db, ops[..n]);
      assert ops[..n][1..] == ops[1..][..n - 1];
    } else {
      assert ops[..n] == [] && ops[1..] == [];
    }
  }

  // All that is left of transaction i.
  function AllStepped(log: seq<Item>, a: Applier, i: nat): Applier
    requires i < |log| && i < |a.progress|
  {
    a.(db := ApplyOps(a.db, Left(log, a, i)), progress := a.progress[i := |log[i].trx.ops|])
  }

  lemma StepsAddUp(log: seq<Item>, a: Applier, i: nat)
    requires |log| == |a.progress| && Left(log, a, i) != []
    ensures |Left(log, Stepped(log, a, i), i)| == |Left(log, a, i)| - 1
    ensures Stepped(log, a, i).v == a.v && |Stepped(log, a, i).progress| == |log|
    ensures AllStepped(log, Stepped(log, a, i), i) == AllStepped(log, a, i)
  {
    assert Left(log, Stepped(log, a, i), i) == Left(log, a, i)[1..];
    ApplyFirst(a.db, Left(log, a, i));
  }

  lemma NothingLeft(log: seq<Item>, a: Applier, i: nat)
    requires i < |log| == |a.progress| && a.progress[i] <= |log[i].trx.ops| && Left(log, a, i) == []
    ensures AllStepped(log, a, i) == a
  {
  }

  // A group that is still being applied runs to its last operation, n operations from here.
  lemma {:induction false} WorkOn(
    log: seq<Item>, db: Db, size: nat, acts: seq<Act>, a: Applier, k: nat, i: nat, n: nat) returns (more: seq<Act>)
    requires 0 < size && a in Runs(log, db, size, acts) && k < |a.v.items| && !a.v.items[k].done
    requires i == |a.v.removed| + k && n == |Left(log, a, i)|
    ensures i < |log| == |a.progress| && AllStepped(log, a, i) in Runs(log, db, size, more)
    decreases n
  {
    Position(log, db, size, acts, a, k);
    if n == 0 {
      NothingLeft(log, a, i);
      more := acts;
    } else {
      StepsAddUp(log, a, i);
      more := WorkOnce(log, db, size, acts, a, k);
      more := WorkOn(log, db, size, more, Stepped(log, a, i), k, i, n - 1);
    }
  }

  // And is reported done.
  lemma FinishGroup(log: seq<Item>, db: Db, size: nat, acts: seq<Act>, a: Applier, k: nat)
    returns (more: seq<Act>, a': Applier)
    requires 0 < size && a in Runs(log, db, size, acts) && CanMove(a.v, Done(k))
    ensures |a.v.removed| + k < |log| == |a.progress| && a' in Runs(log, db, size, more)
    ensures a' == AllStepped(log, a, |a.v.removed| + k).(v := Finished(a.v, k))
  {
    var i := |a.v.removed| + k;
    more := WorkOn(log, db, size, acts, a, k, i, |Left(log, a, i)|);
    var b := AllStepped(log, a, i);
    Position(log, db, size, more, b, k);
    more := Then(log, db, size, more, b, Coordinate(Done(k)));
    a' := Acted(log, b, Coordinate(Done(k)));
  }

  // Forces a new batch if asked to.
  lemma Force(log: seq<Item>, db: Db, size: nat, acts: seq<Act>, a: Applier, force: bool)
    returns (more: seq<Act>, a': Applier)
    requires 0 < size && a in Runs(log, db, size, acts)
    ensures a' in Runs(log, db, size, more) && a' == a.(forced := a.forced || force)
  {
    var _ := RanIsReached(log, db, size, acts, a);
    more, a' := acts, a;
    if force {
      more := Then(log, db, size, acts, a, ForceNewGroup);
      a' := a.(forced := true);
    }
  }

  lemma MoveRuns(log: seq<Item>, db: Db, size: nat, acts: seq<Act>, a: Applier, m: Move)
    returns (more: seq<Act>, a': Applier)
    requires 0 < size && a in Runs(log, db, size, acts) && !a.forced && CanMove(a.v, m)
    requires m.Join? ==> IsNext(log, a, m.g) && !log[|a.v.History()|].opensFile
    requires m.Restart? ==> IsNext(log, a, m.g)
    ensures a' in Runs(log, db, size, more) && a'.v == Moved(a.v, m) && !a'.forced
  {
    if m.Done? {
      more, a' := FinishGroup(log, db, size, acts, a, m.k);
    } else {
      more, a' := Force(log, db, size, acts, a, m.Restart?);
      var _ := RanIsReached(log, db, size, more, a');
      more := Then(log, db, size, more, a', Coordinate(m));
      a' := Acted(log, a', Coordinate(m));
    }
  }

  /**
   Whatever the coordinator does while it schedules the log is the scheduler's side of such a
   run: the workers can do what it has seen them do.
   */
  lemma {:induction false} TraceRuns(log: seq<Item>, db: Db, size: nat, trace: seq<Move>, v: View)
    returns (acts: seq<Act>, a: Applier)
    requires 0 < size && Follows(size, trace, v) && FollowsLog(log, trace)
    ensures a in Runs(log, db, size, acts) && a.v == v && !a.forced && |v.History()| == |Scheduled(trace)|
    decreases |trace|
  {
    if trace == [] {
      acts, a := [], Idle(log, db, size);
    } else {
      var n := |trace| - 1;
      var v0 :| Follows(size, trace[..n], v0) && CanMove(v0, trace[n]) && v == Moved(v0, trace[n]);
      acts, a := TraceRuns(log, db, size, trace[..n], v0);
      acts, a := MoveRuns(log, db, size, acts, a, trace[n]);
      FollowsInv(size, trace[..n], v0);
      HistoryGrows(v0, trace[n]);
    }
  }

  lemma HistoryGrows(v: View, m: Move)
    requires ViewInv(v) && CanMove(v, m)
    ensures |Moved(v, m).History()| == |v.History()| + if m.Join? || m.Restart? then 1 else 0
  {
  }

  /******* What the coordinator lets overlap *******/

  // How a source numbers its transactions: in sequence within a file, with parents below.
  ghost predicate WellNumbered(log: seq<Item>) {
    && (log != [] ==> log[0].opensFile)
    && (forall k :: 0 <= k < |log| ==> 0 <= log[k].lastCommitted < log[k].sequenceNumber)
    && (forall k :: 0 < k < |log| && !log[k].opensFile ==> log[k].sequenceNumber == log[k - 1].sequenceNumber + 1)
  }

  // A transaction before which the coordinator waits for everything.
  predicate StartsBatch(log: seq<Item>, k: nat)
    requires k < |log|
  {
    log[k].opensFile || log[k].lastCommitted == SEQ_UNINIT
  }

  // Of the transactions scheduled last, b started the batch: what came before has finished, and
  // until b has, the mark is not defined and nobody joins.
  ghost predicate LastBatch(log: seq<Item>, v: View, b: nat) {
    var h := v.History();
    && b < |h| <= |log|
    && (forall k :: 0 <= k < b ==> h[k].done)
    && (forall k :: b < k < |h| ==> !StartsBatch(log, k))
    && (h[b].done || (v.items == [h[b]] && v.stable == SEQ_UNINIT))
  }

  ghost predicate BatchInv(log: seq<Item>, v: View) {
    if v.History() == [] then v.last == SEQ_UNINIT else exists b: nat :: LastBatch(log, v, b)
  }

  // Before the first group of the batch has finished there is no mark.
  lemma NobodyJoinsFirst(v: View, g: Group, b: Group)
    requires ViewInv(v) && MayJoin(v, g) && v.items == [b] && v.stable == SEQ_UNINIT
    ensures b.done
  {
    MarkFromScan(v.items, v.stable, v.mark);
  }

  lemma JoinKeepsBatch(log: seq<Item>, a: Applier, g: Group, b: nat)
    requires ViewInv(a.v) && CanAct(log, a, Coordinate(Join(g))) && LastBatch(log, a.v, b)
    ensures LastBatch(log, Joined(a.v, g), b)
  {
    var h := a.v.History();
    assert Joined(a.v, g).History() == h + [g];
    if !h[b].done {
      NobodyJoinsFirst(a.v, g, h[b]);
    }
  }

  lemma RestartKeepsBatch(log: seq<Item>, a: Applier, g: Group)
    requires ViewInv(a.v) && CanAct(log, a, Coordinate(Restart(g)))
    ensures LastBatch(log, Restarted(a.v, g), |a.v.History()|)
  {
    assert a.v.History() == a.v.removed;
    assert Restarted(a.v, g).History() == a.v.removed + [g];
  }

  lemma DoneKeepsBatch(log: seq<Item>, v: View, k: nat, b: nat)
    requires ViewInv(v) && CanMove(v, Done(k)) && LastBatch(log, v, b)
    ensures LastBatch(log, Finished(v, k), b)
  {
    var h, h' := v.History(), Finished(v, k).History();
    assert h' == SchedulerState.Finish(h, |v.removed| + k);
    if !h[b].done {
      assert v.items[0] == h[|v.removed|] && !v.items[0].done;
    }
  }

  lemma CollectKeepsBatch(log: seq<Item>, v: View, b: nat)
    requires ViewInv(v) && v.entry < v.size && |v.items| <= v.size && LastBatch(log, v, b)
    ensures LastBatch(log, Collected(v), b)
  {
    CollectedInv(v);
    if !v.History()[b].done {
      assert RunEnd(v.items, 0) == 0;
      assert v.items[0..] == v.items;
    }
  }

  lemma ActKeepsBatch(log: seq<Item>, a: Applier, act: Act)
    requires ViewInv(a.v) && CanAct(log, a, act) && BatchInv(log, a.v)
    ensures BatchInv(log, Acted(log, a, act).v)
  {
    if act.Coordinate? && act.m.Restart? {
      RestartKeepsBatch(log, a, act.m.g);
    } else if a.v.History() == [] {
      CollectedInv(a.v);
    } else {
      var b: nat :| LastBatch(log, a.v, b);
      match act {
        case Coordinate(m) =>
          match m {
            case Done(k) => DoneKeepsBatch(log, a.v, k, b);
            case Refresh => assert LastBatch(log, Refreshed(a.v), b);
            case Collect => CollectKeepsBatch(log, a.v, b);
            case Join(g) => JoinKeepsBatch(log, a, g, b);
            case Restart(_) =>
          }
        case _ => assert LastBatch(log, a.v, b);
      }
    }
  }

  lemma {:induction false} RanBatches(log: seq<Item>, db: Db, size: nat, acts: seq<Act>, a: Applier)
    requires 0 < size && a in Runs(log, db, size, acts)
    ensures BatchInv(log, a.v)
    decreases |acts|
  {
    if acts != [] {
      var n := |acts| - 1;
      var a0 :| Ran(log, db, size, acts[..n], a0) && CanAct(log, a0, acts[n]) && a == Acted(log, a0, acts[n]);
      RanBatches(log, db, size, acts[..n], a0);
      var _ := RanIsReached(log, db, size, acts[..n], a0);
      ActKeepsBatch(log, a0, acts[n]);
    }
  }

  // Two transactions the coordinator can have in flight together: the first one has joined a
  // batch, nothing up to the second waits for it, and the queue holds them and all in between.
  ghost predicate Overlapping(log: seq<Item>, size: nat, i: nat, j: nat)
    requires i < j < |log|
  {
    !StartsBatch(log, i) && !HeldBack(log, i, j) && j - i < size
  }

  // Whoever can not overlap a transaction starts after it has finished.
  lemma OverlapNeeds(log: seq<Item>, db: Db, size: nat, acts: seq<Act>, a: Applier, i: nat, j: nat)
    requires 0 < size && a in Runs(log, db, size, acts)
    requires i < j < |a.v.History()| && j < |log| && !Overlapping(log, size, i, j)
    ensures a.v.History()[i].done
  {
    var _ := RanIsReached(log, db, size, acts, a);
    RanBatches(log, db, size, acts, a);
    var b: nat :| LastBatch(log, a.v, b);
    if HeldBack(log, i, j) {
      HeldBackWaits(log, a.v.History(), i, j);
    }
  }

  // Everything scheduled has finished and left the queue.
  ghost predicate AtRest(log: seq<Item>, a: Applier, n: nat) {
    && n <= |log| && a.v.items == [] && |a.v.removed| == n && !a.forced
    && (n > 0 ==> a.v.last == a.v.stable == log[n - 1].sequenceNumber)
  }

  // Transaction n is the only one in flight; unless it started a batch there is a mark below it.
  ghost predicate Alone(log: seq<Item>, a: Applier, n: nat) {
    && n < |log| && a.v.items == [GroupOf(log[n])] && |a.v.removed| == n && !a.forced
    && a.v.last == log[n].sequenceNumber
    && (!StartsBatch(log, n) ==> a.v.stable == log[n].sequenceNumber - 1)
    && |a.progress| == |log| && a.progress[n] == 0
  }

  lemma Room(log: seq<Item>, db: Db, size: nat, acts: seq<Act>, a: Applier)
    requires 0 < size && a in Runs(log, db, size, acts)
    ensures a.v.entry < a.v.size == size && |a.v.items| <= size
    ensures |a.progress| == |log| && |a.v.History()| <= |log|
    ensures forall k :: |a.v.History()| <= k < |log| ==> a.progress[k] == 0
  {
    var _ := RanIsReached(log, db, size, acts, a);
  }

  lemma ScheduleNext(log: seq<Item>, db: Db, size: nat, acts: seq<Act>, a: Applier, n: nat)
    returns (more: seq<Act>, a': Applier)
    requires 0 < size && a in Runs(log, db, size, acts)
    requires WellNumbered(log) && n < |log| && AtRest(log, a, n)
    ensures a' in Runs(log, db, size, more) && Alone(log, a', n)
    ensures a'.db == a.db && a'.progress == a.progress
  {
    var g := GroupOf(log[n]);
    more, a' := Force(log, db, size, acts, a, log[n].opensFile);
    Room(log, db, size, more, a');
    var m := if StartsBatch(log, n) then Restart(g) else Join(g);
    more := Then(log, db, size, more, a', Coordinate(m));
    a' := Acted(log, a', Coordinate(m));
  }

  lemma FinishAlone(log: seq<Item>, db: Db, size: nat, acts: seq<Act>, a: Applier, n: nat)
    returns (more: seq<Act>, a': Applier)
    requires 0 < size && a in Runs(log, db, size, acts) && Alone(log, a, n)
    ensures a' in Runs(log, db, size, more) && AtRest(log, a', n + 1) && a'.v.History() == a'.v.removed
    ensures |a.progress| == |log| && a'.db == ApplyOps(a.db, Left(log, a, n))
  {
    Room(log, db, size, acts, a);
    more, a' := FinishGroup(log, db, size, acts, a, 0);
    Room(log, db, size, more, a');
    RunEndIs(a'.v.items, 0, 1);
    more := Then(log, db, size, more, a', Coordinate(Collect));
    a' := Acted(log, a', Coordinate(Collect));
  }

  lemma {:induction false} RunAlone(log: seq<Item>, db: Db, size: nat, n: nat) returns (acts: seq<Act>, a: Applier)
    requires 0 < size && WellNumbered(log) && n <= |log|
    ensures a in Runs(log, db, size, acts) && AtRest(log, a, n)
  {
    if n == 0 {
      acts, a := [], Idle(log, db, size);
    } else {
      acts, a := RunAlone(log, db, size, n - 1);
      acts, a := ScheduleNext(log, db, size, acts, a, n - 1);
      acts, a := FinishAlone(log, db, size, acts, a, n - 1);
    }
  }

  // Transaction i heads the queue, unfinished; the others up to n have finished behind it.
  ghost predicate Beside(log: seq<Item>, a: Applier, i: nat, n: nat) {
    && i < n <= |log| && |a.v.removed| == i && |a.v.items| == n - i && !a.forced
    && !a.v.items[0].done && (forall k :: 1 <= k < |a.v.items| ==> a.v.items[k].done)
    && a.v.last == log[n - 1].sequenceNumber && a.v.mark == log[i].sequenceNumber - 1
    && |a.progress| == |log| && a.progress[i] == 0
  }

  lemma StartBeside(log: seq<Item>, db: Db, size: nat, acts: seq<Act>, a: Applier, i: nat)
    returns (more: seq<Act>, a': Applier)
    requires 0 < size && a in Runs(log, db, size, acts) && Alone(log, a, i) && !StartsBatch(log, i)
    ensures a' in Runs(log, db, size, more) && Beside(log, a', i, i + 1)
  {
    Room(log, db, size, acts, a);
    more := Then(log, db, size, acts, a, Coordinate(Refresh));
    a' := Acted(log, a, Coordinate(Refresh));
  }

  lemma JoinBeside(log: seq<Item>, db: Db, size: nat, acts: seq<Act>, a: Applier, i: nat, n: nat)
    returns (more: seq<Act>, a': Applier)
    requires 0 < size && a in Runs(log, db, size, acts) && Beside(log, a, i, n)
    requires WellNumbered(log) && n < |log| && !WaitsFor(log, i, n) && n - i < size
    ensures a' in Runs(log, db, size, more)
    ensures a' == a.(v := Joined(a.v, GroupOf(log[n]))) && a.progress[n] == 0
  {
    Room(log, db, size, acts, a);
    var m := Join(GroupOf(log[n]));
    more := Then(log, db, size, acts, a, Coordinate(m));
    a' := Acted(log, a, Coordinate(m));
  }

  lemma {:induction false} RunBesideFirst(log: seq<Item>, db: Db, size: nat, i: nat, n: nat)
    returns (acts: seq<Act>, a: Applier)
    requires 0 < size && WellNumbered(log) && i < n <= |log| && !StartsBatch(log, i) && n - i <= size
    requires forall k: nat :: i < k < n ==> !WaitsFor(log, i, k)
    ensures a in Runs(log, db, size, acts) && Beside(log, a, i, n)
  {
    if n == i + 1 {
      acts, a := RunAlone(log, db, size, i);
      acts, a := ScheduleNext(log, db, size, acts, a, i);
      acts, a := StartBeside(log, db, size, acts, a, i);
    } else {
      acts, a := RunBesideFirst(log, db, size, i, n - 1);
      assert !WaitsFor(log, i, n - 1);
      acts, a := JoinBeside(log, db, size, acts, a, i, n - 1);
      Room(log, db, size, acts, a);
      acts, a := FinishGroup(log, db, size, acts, a, n - 1 - i);
    }
  }

  lemma RunOverlapping(log: seq<Item>, db: Db, size: nat, i: nat, j: nat) returns (acts: seq<Act>, a: Applier)
    requires 0 < size && WellNumbered(log) && i < j < |log| && Overlapping(log, size, i, j)
    ensures a in Runs(log, db, size, acts) && Overlap(a.v.History(), i, j)
  {
    acts, a := RunBesideFirst(log, db, size, i, j);
    assert !WaitsFor(log, i, j);
    acts, a := JoinBeside(log, db, size, acts, a, i, j);
    assert a.v.History()[i] == a.v.items[0] && a.v.History()[j] == a.v.items[j - i];
  }

  ghost predicate MayOverlap(log: seq<Item>, db: Db, size: nat, i: nat, j: nat) {
    exists acts, a :: a in Runs(log, db, size, acts) && Overlap(a.v.History(), i, j)
  }

  /**
   Exactly which transactions the coordinator can have in flight together. It is stricter than
   the rule: while the first group of a batch is unfinished it has no mark, and nobody joins.
   */
  lemma OverlapExactly(log: seq<Item>, db: Db, size: nat, i: nat, j: nat)
    requires 0 < size && WellNumbered(log) && i < j < |log|
    ensures MayOverlap(log, db, size, i, j) <==> Overlapping(log, size, i, j)
  {
    if Overlapping(log, size, i, j) {
      var acts, a := RunOverlapping(log, db, size, i, j);
    }
    forall acts, a | a in Runs(log, db, size, acts) && Overlap(a.v.History(), i, j)
      ensures Overlapping(log, size, i, j)
    {
      if !Overlapping(log, size, i, j) {
        OverlapNeeds(log, db, size, acts, a, i, j);
      }
    }
  }
}
