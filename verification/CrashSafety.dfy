/**
 Two-phase commit between the binary log and the engine across a crash at any step of group
 commit, including in the middle of a rotation.
 */
module CrashSafety {
  import opened Basics
  import opened BinlogRecovery
  import opened GroupCommit

  /******* Invariants that hold with any settings *******/

  // A group on its way to the log.
  ghost predicate Queued(redo: seq<Record>, n: nat, g: Group) {
    g.WellFormed() && (g.Xid().Some? ==> IsPrepared(redo, n, g.Xid().value))
  }

  ghost predicate AllQueued(redo: seq<Record>, n: nat, groups: seq<Group>) {
    forall k :: 0 <= k < |groups| ==> Queued(redo, n, groups[k])
  }

  // Prepared on disk, for every logged transaction.
  ghost predicate PreparedFirst(s: State) {
    && s.redoSynced <= |s.redo|
    && AllQueued(s.redo, |s.redo|, s.flushQ)
    && AllQueued(s.redo, if s.logLock.Writing? then s.redoSynced else |s.redo|, s.unwritten)
    && AllQueued(s.redo, s.redoSynced, s.cur.groups)
  }

  // Written as a set so that a proof can pass such a log on whole.
  ghost function SettledLogs(redo: seq<Record>, n: nat): iset<seq<Group>> {
    iset groups: seq<Group> | forall x :: HasXid(groups, |groups|, x) ==> IsCommitted(redo, n, x)
  }

  ghost predicate Settled(redo: seq<Record>, n: nat, groups: seq<Group>) {
    groups in SettledLogs(redo, n)
  }

  // Committed on disk, for every transaction in a file that recovery no longer scans.
  ghost predicate ClosedSettled(s: State) {
    && (forall f :: 0 <= f < |s.closed| ==> Settled(s.redo, s.redoSynced, s.closed[f].groups))
    && (Progress(s.logLock) >= 1 ==> s.prepXids == 0)
    && (Progress(s.logLock) >= 2 ==> Settled(s.redo, s.redoSynced, s.cur.groups))
  }

  // The flag stays set, on disk too, until everything in the file has been settled.
  ghost predicate Files(s: State) {
    && s.cur.synced <= s.cur.flushed <= |s.cur.groups|
    && (Progress(s.logLock) < 4 ==> s.cur.inUse && s.cur.flagSettled)
    && (Progress(s.logLock) >= 5 ==> s.cur.synced == |s.cur.groups|)
    && (forall f :: 0 <= f < |s.closed| ==>
      s.closed[f].synced == |s.closed[f].groups| && AllWellFormed(s.closed[f].groups))
  }

  lemma {:induction false} CommitsAre(redo: seq<Record>, x: Xid)
    ensures x in Commits(redo) <==> IsCommitted(redo, |redo|, x)
  {
    if redo != [] {
      var n := |redo| - 1;
      CommitsAre(redo[..n], x);
      if IsCommitted(redo[..n], n, x) {
        var k :| 0 <= k < n && redo[..n][k] == Commit(x);
        assert redo[k] == Commit(x);
      }
      if IsCommitted(redo, |redo|, x) && redo[n] != Commit(x) {
        var k :| 0 <= k < |redo| && redo[k] == Commit(x);
        assert redo[..n][k] == Commit(x);
      }
    }
  }

  lemma {:induction false} LogXidsAre(groups: seq<Group>, x: Xid)
    ensures x in LogXids(groups) <==> HasXid(groups, |groups|, x)
  {
    if groups != [] {
      var n := |groups| - 1;
      LogXidsAre(groups[..n], x);
      if HasXid(groups[..n], n, x) {
        var k :| 0 <= k < n && groups[..n][k].Xid() == Some(x);
        assert groups[k].Xid() == Some(x);
      }
      if HasXid(groups, |groups|, x) && groups[n].Xid() != Some(x) {
        var k :| 0 <= k < |groups| && groups[k].Xid() == Some(x);
        assert groups[..n][k].Xid() == Some(x);
      }
    }
  }

  // With no prepared transaction left, the engine has committed everything in the log.
  ghost predicate DrainSettles(s: State) {
    && (s.prepXids == 0 ==> Settled(s.redo, |s.redo|, s.cur.groups))
    && |ItemXids(s.finishing)| <= s.prepXids
  }

  lemma DrainedIsSettled(cfg: Config, s: State)
    requires Conserved(cfg, s) && Counted(s)
    ensures DrainSettles(s)
  {
    if s.prepXids == 0 {
      NothingInFlight(cfg, s);
    }
  }

  lemma NothingInFlight(cfg: Config, s: State)
    requires Conserved(cfg, s) && InFlight(s) == []
    ensures Settled(s.redo, |s.redo|, s.cur.groups)
  {
    assert multiset(Commits(s.redo)) == multiset(Logged(s));
    forall x | HasXid(s.cur.groups, |s.cur.groups|, x)
      ensures IsCommitted(s.redo, |s.redo|, x)
    {
      LogXidsAre(s.cur.groups, x);
      CommitsAre(s.redo, x);
      assert x in Logged(s);
      assert x in multiset(Logged(s));
    }
  }

  lemma QueuedGrows(redo: seq<Record>, redo': seq<Record>, n: nat, n': nat, groups: seq<Group>)
    requires redo <= redo' && n <= n' && AllQueued(redo, n, groups)
    ensures AllQueued(redo', n', groups)
  {
    forall k | 0 <= k < |groups|
      ensures Queued(redo', n', groups[k])
    {
      var g := groups[k];
      if g.Xid().Some? {
        var i :| 0 <= i < n && i < |redo| && redo[i] == Prepare(g.Xid().value);
        assert redo'[i] == Prepare(g.Xid().value);
      }
    }
  }

  lemma SettledGrows(redo: seq<Record>, redo': seq<Record>, n: nat, n': nat, groups: seq<Group>)
    requires redo <= redo' && n <= n' && Settled(redo, n, groups)
    ensures Settled(redo', n', groups)
  {
    forall x | HasXid(groups, |groups|, x)
      ensures IsCommitted(redo', n', x)
    {
      var i :| 0 <= i < n && i < |redo| && redo[i] == Commit(x);
      assert redo'[i] == Commit(x);
    }
  }

  lemma RedoGrows(cfg: Config, s: State, step: Step)
    requires Enabled(cfg, s, step) && s.redoSynced <= |s.redo|
    ensures s.redo <= Next(cfg, s, step).redo
    ensures s.redoSynced <= Next(cfg, s, step).redoSynced <= |Next(cfg, s, step).redo|
  {
  }

  lemma PreparedFirstKeeps(cfg: Config, s: State, step: Step)
    requires Stages(cfg, s) && PreparedFirst(s) && Enabled(cfg, s, step)
    ensures PreparedFirst(Next(cfg, s, step))
  {
    var s' := Next(cfg, s, step);
    RedoGrows(cfg, s, step);
    QueuedGrows(s.redo, s'.redo, |s.redo|, |s'.redo|, s.flushQ);
    QueuedGrows(s.redo, s'.redo, s.redoSynced, s'.redoSynced, s.cur.groups);
    QueuedGrows(s.redo, s'.redo, if s.logLock.Writing? then s.redoSynced else |s.redo|,
                if s.logLock.Writing? then s'.redoSynced else |s'.redo|, s.unwritten);
    match step {
      case AddToIndex =>
        assert IsHeader(s'.cur.groups);
      case _ =>
    }
  }

  lemma SettledAppend(redo: seq<Record>, n: nat, groups: seq<Group>, g: Group)
    requires Settled(redo, n, groups) && g.Xid().None?
    ensures Settled(redo, n, groups + [g])
  {
    var more := groups + [g];
    forall x: Xid | HasXid(more, |more|, x)
      ensures IsCommitted(redo, n, x)
    {
      var k :| 0 <= k < |more| && more[k].Xid() == Some(x);
      assert groups[k].Xid() == Some(x);
    }
  }

  // During a rotation nothing more is logged, except the event that names the next file.
  lemma RotationFrame(cfg: Config, s: State, step: Step)
    requires Enabled(cfg, s, step) && Progress(Next(cfg, s, step).logLock) >= 1 && !step.Drain?
    ensures Progress(s.logLock) >= 1
    ensures Progress(Next(cfg, s, step).logLock) >= 2 && !step.FlushEngineForRotate? ==> Progress(s.logLock) >= 2
    ensures Next(cfg, s, step).closed == s.closed
    ensures !step.Write?
      && (Next(cfg, s, step).cur.groups == s.cur.groups || step.WriteRotateEvent?)
  {
  }

  lemma SettledByFlush(cfg: Config, s: State)
    requires ClosedSettled(s) && DrainSettles(s) && s.logLock == Rotating(Drained)
    ensures Settled(Next(cfg, s, FlushEngineForRotate).redo, Next(cfg, s, FlushEngineForRotate).redoSynced,
                    Next(cfg, s, FlushEngineForRotate).cur.groups)
  {
  }

  lemma SettledByRotateEvent(cfg: Config, s: State, size: EventSize)
    requires ClosedSettled(s) && s.logLock == Rotating(EngineFlushed)
    ensures
      var s' := Next(cfg, s, WriteRotateEvent(size));
      Settled(s'.redo, s'.redoSynced, s'.cur.groups)
  {
    SettledAppend(s.redo, s.redoSynced, s.cur.groups, Single(None, Other(size)));
  }

  lemma CurSettledKeeps(cfg: Config, s: State, step: Step)
    requires ClosedSettled(s) && DrainSettles(s) && Enabled(cfg, s, step) && s.redoSynced <= |s.redo|
    requires Progress(Next(cfg, s, step).logLock) >= 2
    ensures Settled(Next(cfg, s, step).redo, Next(cfg, s, step).redoSynced, Next(cfg, s, step).cur.groups)
  {
    if step.FlushEngineForRotate? {
      SettledByFlush(cfg, s);
    } else if step.WriteRotateEvent? {
      SettledByRotateEvent(cfg, s, step.size);
    } else {
      var s' := Next(cfg, s, step);
      RedoGrows(cfg, s, step);
      RotationFrame(cfg, s, step);
      SettledGrows(s.redo, s'.redo, s.redoSynced, s'.redoSynced, s.cur.groups);
    }
  }

  lemma DrainedKeeps(cfg: Config, s: State, step: Step)
    requires ClosedSettled(s) && DrainSettles(s) && Enabled(cfg, s, step)
    requires Progress(Next(cfg, s, step).logLock) >= 1
    ensures Next(cfg, s, step).prepXids == 0
  {
    if !step.Drain? {
      RotationFrame(cfg, s, step);
      CounterFlow(cfg, s, step);
      if step.Finish? {
        ItemXidsHead(s.finishing);
      }
    }
  }

  // A file is closed to recovery only by the last step of a rotation.
  lemma ClosedFrame(cfg: Config, s: State, step: Step)
    requires Enabled(cfg, s, step)
    ensures if step.AddToIndex? then Next(cfg, s, step).closed == s.closed + [s.cur] && Progress(s.logLock) == 6
      else Next(cfg, s, step).closed == s.closed
  {
  }

  lemma ClosedSettledKeeps(cfg: Config, s: State, step: Step)
    requires ClosedSettled(s) && DrainSettles(s) && Enabled(cfg, s, step) && s.redoSynced <= |s.redo|
    ensures ClosedSettled(Next(cfg, s, step))
  {
    var s' := Next(cfg, s, step);
    RedoGrows(cfg, s, step);
    forall f | 0 <= f < |s'.closed|
      ensures Settled(s'.redo, s'.redoSynced, s'.closed[f].groups)
    {
      ClosedFrame(cfg, s, step);
      SettledGrows(s.redo, s'.redo, s.redoSynced, s'.redoSynced,
                   if f < |s.closed| then s.closed[f].groups else s.cur.groups);
    }
    if Progress(s'.logLock) >= 1 {
      DrainedKeeps(cfg, s, step);
    }
    if Progress(s'.logLock) >= 2 {
      CurSettledKeeps(cfg, s, step);
    }
  }

  // Only a few steps touch the current file or its flag.
  lemma CurFrame(cfg: Config, s: State, step: Step)
    requires Enabled(cfg, s, step) && Files(s)
    ensures
      var s' := Next(cfg, s, step);
      match step
      case Write => s'.cur == s.cur.(groups := s'.cur.groups) && |s.cur.groups| <= |s'.cur.groups|
      case FlushCache => s'.cur == s.cur.(flushed := |s.cur.groups|)
      case Sync => s'.cur == s.cur || s'.cur == s.cur.(synced := s.cur.flushed)
      case WriteRotateEvent(_) =>
        && s'.cur == s.cur.(groups := s'.cur.groups, flushed := |s'.cur.groups|)
        && |s.cur.groups| <= |s'.cur.groups|
      case ClearInUse => s'.cur == s.cur.(inUse := false, flagSettled := false)
      case CloseFile => s'.cur == s.cur.(flushed := |s.cur.groups|, synced := |s.cur.groups|, flagSettled := true)
      case AddToIndex => s'.cur == s.logLock.phase.next
      case _ => s'.cur == s.cur
  {
  }

  // Which steps move the log lock, and where to.
  lemma LockFrame(cfg: Config, s: State, step: Step)
    requires Enabled(cfg, s, step)
    ensures
      var p, p' := Progress(s.logLock), Progress(Next(cfg, s, step).logLock);
      match step
      case Write => p == p' == 0
      case FlushCache => p == p' == 0
      case FlushEngine => p == p' == 0
      case Drain => p == 0 && p' == 1
      case FlushEngineForRotate => p == 1 && p' == 2
      case WriteRotateEvent(_) => p == 2 && p' == 3
      case ClearInUse => p == 3 && p' == 4
      case CloseFile => p == 4 && p' == 5
      case CreateFile(_) => p == 5 && p' == 6
      case AddToIndex => p == 6 && p' == 0
      case _ => p' == p
  {
  }

  lemma FilesKeep(cfg: Config, s: State, step: Step)
    requires Stages(cfg, s) && PreparedFirst(s) && Files(s) && Enabled(cfg, s, step)
    ensures Files(Next(cfg, s, step))
  {
    CurFrame(cfg, s, step);
    LockFrame(cfg, s, step);
    ClosedFrame(cfg, s, step);
    var s' := Next(cfg, s, step);
    forall f | 0 <= f < |s'.closed|
      ensures s'.closed[f].synced == |s'.closed[f].groups| && AllWellFormed(s'.closed[f].groups)
    {
    }
  }

  /******* What reaches the disk *******/

  // In the files that are complete on disk, or among the first n groups of the current one.
  ghost predicate LogHolds(closed: seq<File>, groups: seq<Group>, n: nat, x: Xid) {
    InClosed(closed, x) || HasXid(groups, n, x)
  }

  ghost predicate Kept(closed: seq<File>, groups: seq<Group>, n: nat, it: Item) {
    && (it.file < |closed| || (it.file == |closed| && it.end <= n))
    && (it.group.Xid().Some? ==> LogHolds(closed, groups, n, it.group.Xid().value))
  }

  ghost predicate AllKept(closed: seq<File>, groups: seq<Group>, n: nat, items: seq<Item>) {
    forall k :: 0 <= k < |items| ==> Kept(closed, groups, n, items[k])
  }

  ghost predicate LogGrows(s: State, n: nat, s': State, n': nat) {
    || (s'.closed == s.closed && s.cur.groups <= s'.cur.groups && n <= n')
    || s'.closed == s.closed + [s.cur]
  }

  lemma LogHoldsGrows(s: State, n: nat, s': State, n': nat, x: Xid)
    requires LogGrows(s, n, s', n') && LogHolds(s.closed, s.cur.groups, n, x)
    ensures LogHolds(s'.closed, s'.cur.groups, n', x)
  {
    if InClosed(s.closed, x) {
      var f :| 0 <= f < |s.closed| && HasXid(s.closed[f].groups, |s.closed[f].groups|, x);
      assert s'.closed[f] == s.closed[f];
    } else {
      var k :| 0 <= k < n && k < |s.cur.groups| && s.cur.groups[k].Xid() == Some(x);
      if s'.closed == s.closed {
        assert s'.cur.groups[k] == s.cur.groups[k];
      } else {
        assert s'.closed[|s.closed|] == s.cur;
        assert HasXid(s.cur.groups, |s.cur.groups|, x);
      }
    }
  }

  lemma KeptGrows(s: State, n: nat, s': State, n': nat, items: seq<Item>)
    requires LogGrows(s, n, s', n') && AllKept(s.closed, s.cur.groups, n, items)
    ensures AllKept(s'.closed, s'.cur.groups, n', items)
  {
    forall k | 0 <= k < |items|
      ensures Kept(s'.closed, s'.cur.groups, n', items[k])
    {
      var g := items[k].group;
      if g.Xid().Some? {
        LogHoldsGrows(s, n, s', n', g.Xid().value);
      }
    }
  }

  // What the leaders of the flush and sync stages hold has been written; with any settings.
  ghost predicate Flushed(s: State) {
    && AllKept(s.closed, s.cur.groups, if s.logLock.Writing? then |s.cur.groups| else s.cur.flushed, s.batch)
    && AllKept(s.closed, s.cur.groups, s.cur.flushed, s.syncQ)
    && AllKept(s.closed, s.cur.groups, s.cur.flushed, s.syncing)
    && s.endPos <= s.cur.flushed
  }

  // When every group is synced: what the engine commits, or readers see, is on disk before.
  ghost predicate Durable(s: State) {
    && (s.syncStage.Synced? || s.syncStage.Published? ==> AllKept(s.closed, s.cur.groups, s.cur.synced, s.syncing))
    && AllKept(s.closed, s.cur.groups, s.cur.synced, s.commitQ)
    && AllKept(s.closed, s.cur.groups, s.cur.synced, s.committing)
    && AllKept(s.closed, s.cur.groups, s.cur.synced, s.loose)
    && s.endPos <= s.cur.synced
  }

  ghost predicate CommitsDurable(s: State) {
    forall x :: IsCommitted(s.redo, |s.redo|, x) ==> LogHolds(s.closed, s.cur.groups, s.cur.synced, x)
  }

  lemma LogGrowsInStep(cfg: Config, s: State, step: Step)
    requires Enabled(cfg, s, step) && Files(s)
    ensures
      var s' := Next(cfg, s, step);
      && LogGrows(s, |s.cur.groups|, s', |s'.cur.groups|)
      && LogGrows(s, s.cur.flushed, s', s'.cur.flushed)
      && LogGrows(s, s.cur.synced, s', s'.cur.synced)
  {
  }

  lemma JustWritten(s: State)
    requires s.unwritten != []
    ensures AllKept(Written1(s).closed, Written1(s).cur.groups, |s.cur.groups| + 1,
                    [Item(s.unwritten[0], |s.closed|, |s.cur.groups| + 1)])
  {
    var s', g := Written1(s), s.unwritten[0];
    assert s'.cur.groups[|s.cur.groups|] == g;
  }

  lemma BatchKeeps(cfg: Config, s: State, step: Step)
    requires Stages(cfg, s) && Files(s) && Flushed(s) && Enabled(cfg, s, step)
    ensures
      var s' := Next(cfg, s, step);
      AllKept(s'.closed, s'.cur.groups, InHand(s'), s'.batch)
  {
    var s' := Next(cfg, s, step);
    if s'.batch != [] {
      LogGrowsInStep(cfg, s, step);
      BatchFrame(cfg, s, step);
      KeptGrows(s, InHand(s), s', InHand(s'), s.batch);
      if step.Write? {
        JustWritten(s);
      }
    }
  }

  // How much of the file the batch lies in.
  function InHand(s: State): nat {
    if s.logLock.Writing? then |s.cur.groups| else s.cur.flushed
  }

  lemma BatchFrame(cfg: Config, s: State, step: Step)
    requires Stages(cfg, s) && Files(s) && Flushed(s) && Enabled(cfg, s, step) && Next(cfg, s, step).batch != []
    ensures
      var s' := Next(cfg, s, step);
      && AllKept(s.closed, s.cur.groups, InHand(s), s.batch) && LogGrows(s, InHand(s), s', InHand(s'))
      && (step.Write? ==> s' == Written1(s) && InHand(s') == |s.cur.groups| + 1)
      && (!step.Write? ==> s'.batch == s.batch)
  {
    LogGrowsInStep(cfg, s, step);
  }

  lemma SyncQueuesKeep(cfg: Config, s: State, step: Step)
    requires Stages(cfg, s) && Files(s) && Flushed(s) && Enabled(cfg, s, step)
    ensures
      var s' := Next(cfg, s, step);
      && AllKept(s'.closed, s'.cur.groups, s'.cur.flushed, s'.syncQ)
      && AllKept(s'.closed, s'.cur.groups, s'.cur.flushed, s'.syncing)
  {
    var s' := Next(cfg, s, step);
    LogGrowsInStep(cfg, s, step);
    KeptGrows(s, s.cur.flushed, s', s'.cur.flushed, s.syncQ);
    KeptGrows(s, s.cur.flushed, s', s'.cur.flushed, s.syncing);
  }

  lemma FlushedKeeps(cfg: Config, s: State, step: Step)
    requires Stages(cfg, s) && Files(s) && Flushed(s) && Enabled(cfg, s, step)
    ensures Flushed(Next(cfg, s, step))
  {
    BatchKeeps(cfg, s, step);
    SyncQueuesKeep(cfg, s, step);
  }

  lemma SyncingKept(cfg: Config, s: State, step: Step)
    requires Stages(cfg, s) && Files(s) && Flushed(s) && Enabled(cfg, s, step)
    requires cfg.syncPeriod == 1 && Durable(s)
    ensures
      var s' := Next(cfg, s, step);
      s'.syncStage.Synced? || s'.syncStage.Published? ==> AllKept(s'.closed, s'.cur.groups, s'.cur.synced, s'.syncing)
  {
    var s' := Next(cfg, s, step);
    LogGrowsInStep(cfg, s, step);
    if s.syncStage.Synced? || s.syncStage.Published? {
      KeptGrows(s, s.cur.synced, s', s'.cur.synced, s.syncing);
    }
  }

  lemma EndPosKept(cfg: Config, s: State, step: Step)
    requires Stages(cfg, s) && Files(s) && Enabled(cfg, s, step)
    requires cfg.syncPeriod == 1 && Durable(s)
    ensures Next(cfg, s, step).endPos <= Next(cfg, s, step).cur.synced
  {
    CurFrame(cfg, s, step);
    if step.PublishEnd? {
      assert Kept(s.closed, s.cur.groups, s.cur.synced, s.syncing[|s.syncing| - 1]);
    }
  }

  lemma DurableKeeps(cfg: Config, s: State, step: Step)
    requires Stages(cfg, s) && Files(s) && Flushed(s) && Enabled(cfg, s, step)
    requires cfg.syncPeriod == 1 && Durable(s)
    ensures Durable(Next(cfg, s, step))
  {
    var s' := Next(cfg, s, step);
    LogGrowsInStep(cfg, s, step);
    KeptGrows(s, s.cur.synced, s', s'.cur.synced, s.commitQ);
    KeptGrows(s, s.cur.synced, s', s'.cur.synced, s.committing);
    KeptGrows(s, s.cur.synced, s', s'.cur.synced, s.loose);
    if step.EnrollCommit? {
      KeptGrows(s, s.cur.synced, s', s'.cur.synced, s.syncing);
    }
    SyncingKept(cfg, s, step);
    EndPosKept(cfg, s, step);
  }

  lemma CommitsDurableKeep(cfg: Config, s: State, step: Step)
    requires Files(s) && Enabled(cfg, s, step)
    requires Durable(s) && CommitsDurable(s)
    ensures CommitsDurable(Next(cfg, s, step))
  {
    var s' := Next(cfg, s, step);
    LogGrowsInStep(cfg, s, step);
    forall x: Xid | IsCommitted(s'.redo, |s'.redo|, x)
      ensures LogHolds(s'.closed, s'.cur.groups, s'.cur.synced, x)
    {
      NewCommit(cfg, s, step, x);
      LogHoldsGrows(s, s.cur.synced, s', s'.cur.synced, x);
    }
  }

  lemma NewCommit(cfg: Config, s: State, step: Step, x: Xid)
    requires Enabled(cfg, s, step) && Durable(s) && CommitsDurable(s)
    requires IsCommitted(Next(cfg, s, step).redo, |Next(cfg, s, step).redo|, x)
    ensures LogHolds(s.closed, s.cur.groups, s.cur.synced, x)
  {
    CommitsAre(Next(cfg, s, step).redo, x);
    CommitsFlow(cfg, s, step);
    CommitsAre(s.redo, x);
    if FlowOf(s, step).Commits1? && x in OneXid(FlowOf(s, step).g) {
      match step {
        case CommitNext => assert Kept(s.closed, s.cur.groups, s.cur.synced, s.committing[0]);
        case CommitAlone(i) => assert Kept(s.closed, s.cur.groups, s.cur.synced, s.loose[i]);
        case _ =>
      }
    }
  }

  /******* All runs *******/

  ghost predicate Inv(cfg: Config, s: State) {
    && Stages(cfg, s) && Conserved(cfg, s) && Counted(s)
    && PreparedFirst(s) && ClosedSettled(s) && Files(s) && Flushed(s)
    && (cfg.syncPeriod == 1 ==> Durable(s) && CommitsDurable(s))
  }

  lemma InitInv(cfg: Config, header: seq<Group>)
    requires IsHeader(header)
    ensures Inv(cfg, Init(header))
  {
    HeaderHasNoXids(header);
  }

  lemma NextKeeps(cfg: Config, s: State, step: Step)
    requires Inv(cfg, s) && Enabled(cfg, s, step)
    ensures Inv(cfg, Next(cfg, s, step))
  {
    StagesKeep(cfg, s, step);
    ConservedKeeps(cfg, s, step);
    CountedKeeps(cfg, s, step);
    PreparedFirstKeeps(cfg, s, step);
    DrainedIsSettled(cfg, s);
    ClosedSettledKeeps(cfg, s, step);
    FilesKeep(cfg, s, step);
    FlushedKeeps(cfg, s, step);
    if cfg.syncPeriod == 1 {
      DurableKeeps(cfg, s, step);
      CommitsDurableKeep(cfg, s, step);
    }
  }

  lemma {:induction false} RunKeeps(cfg: Config, header: seq<Group>, steps: seq<Step>)
    requires Legal(cfg, header, steps)
    ensures Inv(cfg, Run(cfg, header, steps))
  {
    if steps == [] {
      InitInv(cfg, header);
    } else {
      RunKeeps(cfg, header, steps[..|steps| - 1]);
      NextKeeps(cfg, Run(cfg, header, steps[..|steps| - 1]), steps[|steps| - 1]);
    }
  }

  /**
   With ordered commits the engine commits in the order of the binary log: its commits are a
   prefix of the log, and the rest is in flight in log order. Without them no transaction is
   lost or committed twice.
   */
  lemma CommitOrderIsLogOrder(cfg: Config, header: seq<Group>, steps: seq<Step>)
    requires Legal(cfg, header, steps)
    ensures
      var s := Run(cfg, header, steps);
      && (cfg.orderCommits ==> Commits(s.redo) + InFlight(s) == Logged(s))
      && multiset(Commits(s.redo)) + multiset(InFlight(s)) == multiset(Logged(s))
  {
    RunKeeps(cfg, header, steps);
  }

  /**
   The end position published to readers is never past what has left the server's buffer, and
   when every group is synced never past what is on disk.
   */
  lemma EndPosIsSafe(cfg: Config, header: seq<Group>, steps: seq<Step>)
    requires Legal(cfg, header, steps)
    ensures
      var s := Run(cfg, header, steps);
      s.endPos <= s.cur.flushed && (cfg.syncPeriod == 1 ==> s.endPos <= s.cur.synced)
  {
    RunKeeps(cfg, header, steps);
  }

  /******* Crash and recovery *******/

  // What a crash leaves: a prefix of the engine's log, of the events of every file, and either
  // value of a flag that had not reached the disk.
  datatype Image = Image(redoKept: nat, closedCuts: seq<nat>, curCut: nat, curInUse: bool)

  ghost predicate CutAllowed(f: File, cut: nat) {
    f.synced <= |f.groups| && |Flatten(f.groups[..f.synced])| <= cut <= |Flatten(f.groups)|
  }

  ghost predicate CrashImage(s: State, im: Image) {
    && s.redoSynced <= im.redoKept <= |s.redo|
    && |im.closedCuts| == |s.closed|
    && (forall f :: 0 <= f < |s.closed| ==> CutAllowed(s.closed[f], im.closedCuts[f]))
    && CutAllowed(s.cur, im.curCut)
    && (s.cur.flagSettled ==> im.curInUse == s.cur.inUse)
  }

  // The transaction is in a whole group that is left in some file.
  ghost predicate Complete(groups: seq<Group>, cut: nat, x: Xid) {
    HasXid(groups, WholeCount(groups, cut), x)
  }

  ghost predicate Survives(s: State, im: Image, x: Xid)
    requires |im.closedCuts| == |s.closed|
  {
    || Complete(s.cur.groups, im.curCut, x)
    || exists f :: 0 <= f < |s.closed| && Complete(s.closed[f].groups, im.closedCuts[f], x)
  }

  // Recovery scans the last file of the index, if that was not closed. The engine then commits
  // the prepared transactions the scan found.
  ghost predicate Recovered(s: State, im: Image, start: nat, x: Xid)
    requires im.curCut <= |Flatten(s.cur.groups)|
  {
    || IsCommitted(s.redo, im.redoKept, x)
    || (im.curInUse && IsPrepared(s.redo, im.redoKept, x)
      && x in ScanOf(start, Flatten(s.cur.groups)[..im.curCut]).xids)
  }

  // The scan finds what is complete in the file it scans.
  lemma ScanFindsComplete(start: nat, groups: seq<Group>, cut: nat, x: Xid)
    requires AllWellFormed(groups) && cut <= |Flatten(groups)|
    ensures x in ScanOf(start, Flatten(groups)[..cut]).xids <==> Complete(groups, cut, x)
  {
    CutScan(start, groups, cut);
    XidsOfAre(groups, WholeCount(groups, cut), x);
  }

  // Synced groups are complete after any crash.
  lemma SyncedIsComplete(f: File, cut: nat, x: Xid)
    requires CutAllowed(f, cut) && HasXid(f.groups, f.synced, x)
    ensures Complete(f.groups, cut, x)
  {
    WholeCountIsLongest(f.groups, cut);
    assert f.synced <= WholeCount(f.groups, cut);
  }

  lemma LoggedIsPrepared(redo: seq<Record>, n: nat, groups: seq<Group>, x: Xid)
    requires AllQueued(redo, n, groups) && HasXid(groups, |groups|, x)
    ensures IsPrepared(redo, n, x)
  {
    var k :| 0 <= k < |groups| && Carries(groups[k].Last(), x);
    assert groups[k].Xid() == Some(x);
  }

  lemma CompleteIsLogged(groups: seq<Group>, cut: nat, x: Xid)
    requires Complete(groups, cut, x)
    ensures HasXid(groups, |groups|, x)
  {
  }

  // A logged transaction that is not settled yet is in the file that recovery scans.
  lemma CompleteIsRecovered(cfg: Config, s: State, im: Image, start: nat, x: Xid)
    requires Inv(cfg, s) && CrashImage(s, im) && Survives(s, im, x)
    ensures Recovered(s, im, start, x)
  {
    if Complete(s.cur.groups, im.curCut, x) {
      CurIsRecovered(cfg, s, im, start, x);
    } else {
      var f :| 0 <= f < |s.closed| && Complete(s.closed[f].groups, im.closedCuts[f], x);
      CompleteIsLogged(s.closed[f].groups, im.closedCuts[f], x);
      assert Settled(s.redo, s.redoSynced, s.closed[f].groups);
      assert IsCommitted(s.redo, s.redoSynced, x);
    }
  }

  lemma CurIsRecovered(cfg: Config, s: State, im: Image, start: nat, x: Xid)
    requires Inv(cfg, s) && CrashImage(s, im) && Complete(s.cur.groups, im.curCut, x)
    ensures Recovered(s, im, start, x)
  {
    CompleteIsLogged(s.cur.groups, im.curCut, x);
    if Progress(s.logLock) >= 2 {
      assert IsCommitted(s.redo, s.redoSynced, x);
    } else {
      ScanFindsComplete(start, s.cur.groups, im.curCut, x);
      LoggedIsPrepared(s.redo, s.redoSynced, s.cur.groups, x);
    }
  }

  lemma CommittedSurvives(cfg: Config, s: State, im: Image, x: Xid)
    requires Inv(cfg, s) && cfg.syncPeriod == 1 && CrashImage(s, im)
    requires IsCommitted(s.redo, |s.redo|, x)
    ensures Survives(s, im, x)
  {
    if InClosed(s.closed, x) {
      var f :| 0 <= f < |s.closed| && HasXid(s.closed[f].groups, |s.closed[f].groups|, x);
      SyncedIsComplete(s.closed[f], im.closedCuts[f], x);
    } else {
      SyncedIsComplete(s.cur, im.curCut, x);
    }
  }

  /**
   Crash at any step of any run, syncing every group: after recovery the engine has committed
   exactly the transactions that are complete in the surviving log files, although only the
   last file is scanned.
   */
  lemma EngineAgreesWithLog(cfg: Config, header: seq<Group>, steps: seq<Step>, im: Image, start: nat, x: Xid)
    requires cfg.syncPeriod == 1 && Legal(cfg, header, steps)
    requires CrashImage(Run(cfg, header, steps), im)
    ensures Recovered(Run(cfg, header, steps), im, start, x) <==> Survives(Run(cfg, header, steps), im, x)
  {
    RunKeeps(cfg, header, steps);
    var s := Run(cfg, header, steps);
    if Survives(s, im, x) {
      CompleteIsRecovered(cfg, s, im, start, x);
    }
    if IsCommitted(s.redo, im.redoKept, x) {
      assert IsCommitted(s.redo, |s.redo|, x);
      CommittedSurvives(cfg, s, im, x);
    } else if Recovered(s, im, start, x) {
      ScanFindsComplete(start, s.cur.groups, im.curCut, x);
    }
  }

  /**
   And no commit that the engine had made, seen by any client, is lost.
   */
  lemma NoCommitIsLost(cfg: Config, header: seq<Group>, steps: seq<Step>, im: Image, start: nat, x: Xid)
    requires cfg.syncPeriod == 1 && Legal(cfg, header, steps)
    requires CrashImage(Run(cfg, header, steps), im)
    requires x in Commits(Run(cfg, header, steps).redo)
    ensures Recovered(Run(cfg, header, steps), im, start, x)
  {
    RunKeeps(cfg, header, steps);
    CommitsAre(Run(cfg, header, steps).redo, x);
    CommittedSurvives(cfg, Run(cfg, header, steps), im, x);
    CompleteIsRecovered(cfg, Run(cfg, header, steps), im, start, x);
  }

  ghost predicate NotBehind(s: State, im: Image, start: nat, x: Xid) {
    CrashImage(s, im) && Survives(s, im, x) ==> Recovered(s, im, start, x)
  }

  /**
   Whatever sync_binlog is, the engine is never behind the log that survives.
   */
  lemma LogIsNeverAhead(cfg: Config, header: seq<Group>, steps: seq<Step>, im: Image, start: nat, x: Xid)
    requires Legal(cfg, header, steps)
    ensures NotBehind(Run(cfg, header, steps), im, start, x)
  {
    RunKeeps(cfg, header, steps);
    var s := Run(cfg, header, steps);
    if CrashImage(s, im) && Survives(s, im, x) {
      CompleteIsRecovered(cfg, s, im, start, x);
    }
  }

  /******* Only sync_binlog = 1 is safe *******/

  ghost predicate SafeAt(s: State, im: Image, start: nat, x: Xid) {
    CrashImage(s, im) ==> (Recovered(s, im, start, x) <==> Survives(s, im, x))
  }

  ghost predicate CrashSafe(cfg: Config) {
    forall header, steps, im, start, x :: Legal(cfg, header, steps) ==> SafeAt(Run(cfg, header, steps), im, start, x)
  }

  lemma OneMore(cfg: Config, header: seq<Group>, steps: seq<Step>, step: Step) returns (more: seq<Step>)
    requires Legal(cfg, header, steps) && Enabled(cfg, Run(cfg, header, steps), step)
    ensures Legal(cfg, header, more)
    ensures Run(cfg, header, more) == Next(cfg, Run(cfg, header, steps), step)
  {
    more := steps + [step];
    assert more[..|steps|] == steps;
  }

  const ONE_GROUP: Group := Transaction(None, 1, [], XidEvent(7, 1))
  const ONE_ITEM: Item := Item(ONE_GROUP, 0, 1)

  // One transaction on its own: prepared and enrolled.
  lemma EnrolledRun(cfg: Config) returns (steps: seq<Step>)
    ensures Legal(cfg, [], steps)
    ensures Run(cfg, [], steps) == Init([]).(redo := [Prepare(7)], flushQ := [ONE_GROUP])
  {
    steps := OneMore(cfg, [], [], PrepareInEngine(7));
    assert Run(cfg, [], steps).redo[0] == Prepare(7);
    steps := OneMore(cfg, [], steps, EnrollFlush(ONE_GROUP));
  }

  lemma FetchedRun(cfg: Config) returns (steps: seq<Step>)
    ensures Legal(cfg, [], steps)
    ensures Run(cfg, [], steps) == Init([]).(redo := [Prepare(7)], logLock := QueueFetched, unwritten := [ONE_GROUP])
  {
    steps := EnrolledRun(cfg);
    steps := OneMore(cfg, [], steps, FetchFlush);
  }

  // And written.
  lemma WrittenRun(cfg: Config) returns (steps: seq<Step>)
    ensures Legal(cfg, [], steps)
    ensures Run(cfg, [], steps) == Init([]).(
      redo := [Prepare(7)], redoSynced := 1, logLock := Writing, unwritten := [],
      cur := File([ONE_GROUP], 0, 0, true, true), batch := [ONE_ITEM], prepXids := 1)
  {
    steps := FetchedRun(cfg);
    steps := OneMore(cfg, [], steps, FlushEngine);
    steps := OneMore(cfg, [], steps, Write);
  }

  lemma FlushedRun(cfg: Config) returns (steps: seq<Step>)
    requires cfg.syncPeriod != 1
    ensures Legal(cfg, [], steps)
    ensures Run(cfg, [], steps) == Init([]).(
      redo := [Prepare(7)], redoSynced := 1,
      cur := File([ONE_GROUP], 1, 0, true, true), endPos := 1, syncQ := [ONE_ITEM], prepXids := 1)
  {
    steps := WrittenRun(cfg);
    steps := OneMore(cfg, [], steps, FlushCache);
    steps := OneMore(cfg, [], steps, EnrollSync);
  }

  // The sync stage comes, but does not sync.
  lemma UnsyncedRun(cfg: Config) returns (steps: seq<Step>)
    requires cfg.syncPeriod != 1
    ensures Legal(cfg, [], steps)
    ensures
      var s := Run(cfg, [], steps);
      && s.redo == [Prepare(7)] && s.redoSynced == 1 && s.closed == []
      && s.cur == File([ONE_GROUP], 1, 0, true, true)
      && s.syncStage == Published && s.syncing == [ONE_ITEM]
      && s.commitQ == [] && s.committing == [] && s.loose == [] && s.finishing == []
  {
    steps := FlushedRun(cfg);
    steps := OneMore(cfg, [], steps, FetchSync);
    steps := OneMore(cfg, [], steps, Sync);
    steps := OneMore(cfg, [], steps, PublishEnd);
  }

  lemma UnsyncedCommit(cfg: Config) returns (steps: seq<Step>)
    requires cfg.syncPeriod != 1
    ensures Legal(cfg, [], steps)
    ensures
      var s := Run(cfg, [], steps);
      && s.redo == [Prepare(7), Commit(7)] && s.redoSynced == 1 && s.closed == []
      && s.cur == File([ONE_GROUP], 1, 0, true, true)
  {
    steps := UnsyncedRun(cfg);
    steps := OneMore(cfg, [], steps, EnrollCommit);
    if cfg.orderCommits {
      steps := OneMore(cfg, [], steps, FetchCommit);
      steps := OneMore(cfg, [], steps, CommitNext);
    } else {
      steps := OneMore(cfg, [], steps, CommitAlone(0));
    }
  }

  // With any other setting there is a run after whose crash the engine has a transaction that
  // no log file has.
  lemma UnsyncedIsUnsafe(cfg: Config)
    requires cfg.syncPeriod != 1
    ensures !CrashSafe(cfg)
  {
    var steps := UnsyncedCommit(cfg);
    var s := Run(cfg, [], steps);
    var im := Image(2, [], 0, true);
    assert Flatten(s.cur.groups[..0]) == [];
    assert CrashImage(s, im);
    assert s.redo[1] == Commit(7);
    assert Recovered(s, im, 4, 7);
    WholeCountIsLongest(s.cur.groups, 0);
    assert Flatten(s.cur.groups[..0]) + ONE_GROUP.Events() == Flatten(s.cur.groups);
    assert WholeCount(s.cur.groups, 0) == 0;
    assert !Survives(s, im, 7);
    assert !SafeAt(s, im, 4, 7);
  }

  /**
   The two logs agree after every crash of every run if and only if every group is synced.
   */
  lemma SafeIffEveryGroupSynced(cfg: Config)
    ensures CrashSafe(cfg) <==> cfg.syncPeriod == 1
  {
    if cfg.syncPeriod == 1 {
      forall header, steps, im, start, x | Legal(cfg, header, steps)
        ensures SafeAt(Run(cfg, header, steps), im, start, x)
      {
        if CrashImage(Run(cfg, header, steps), im) {
          EngineAgreesWithLog(cfg, header, steps, im, start, x);
        }
      }
    } else {
      UnsyncedIsUnsafe(cfg);
    }
  }
}
