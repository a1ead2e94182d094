/**
 What the stages of group commit get done: the file is synced at every sync_binlog-th pass of the
 sync stage, and when the stages are empty readers may see all that has been written.
 */
module StageProgress {
  import opened Basics
  import opened BinlogRecovery
  import opened GroupCommit

  /******* Syncing every so often *******/

  // How often the sync stage has been gone through.
  function Syncs(steps: seq<Step>): nat {
    if steps == [] then 0 else Syncs(steps[..|steps| - 1]) + if steps[|steps| - 1].Sync? then 1 else 0
  }

  // What is left of n passes after whole periods.
  function Rest(n: nat, period: nat): nat {
    if n == 0 then 0 else if Rest(n - 1, period) + 1 >= period then 0 else Rest(n - 1, period) + 1
  }

  lemma {:induction false} RestIsRemainder(n: nat, period: nat) returns (periods: nat)
    requires 0 < period
    ensures n == periods * period + Rest(n, period) && Rest(n, period) < period
  {
    if n == 0 {
      periods := 0;
    } else {
      periods := RestIsRemainder(n - 1, period);
      if Rest(n - 1, period) + 1 >= period {
        OneMore(periods, period);
        periods := periods + 1;
      }
    }
  }

  lemma OneMore(k: nat, period: nat)
    ensures (k + 1) * period == k * period + period
  {
  }

  lemma CounterFrame(cfg: Config, s: State, step: Step)
    requires Enabled(cfg, s, step)
    ensures Next(cfg, s, step).syncCounter ==
      if !step.Sync? || cfg.syncPeriod == 0 then s.syncCounter
      else if s.syncCounter + 1 >= cfg.syncPeriod then 0 else s.syncCounter + 1
  {
  }

  lemma {:induction false} CounterIsRest(cfg: Config, header: seq<Group>, steps: seq<Step>)
    requires Legal(cfg, header, steps)
    ensures Run(cfg, header, steps).syncCounter == if cfg.syncPeriod == 0 then 0 else Rest(Syncs(steps), cfg.syncPeriod)
  {
    if steps != [] {
      var before := steps[..|steps| - 1];
      CounterIsRest(cfg, header, before);
      CounterFrame(cfg, Run(cfg, header, before), steps[|steps| - 1]);
    }
  }

  /**
   The n-th pass of the sync stage syncs the file, if that is open, exactly if n makes up whole periods
   of sync_binlog passes; with sync_binlog=0 none does.
   */
  lemma SyncedEveryPeriod(cfg: Config, header: seq<Group>, steps: seq<Step>)
    requires Legal(cfg, header, steps) && Enabled(cfg, Run(cfg, header, steps), GroupCommit.Sync)
    ensures
      var s, n := Run(cfg, header, steps), Syncs(steps) + 1;
      Next(cfg, s, GroupCommit.Sync).cur ==
        if cfg.syncPeriod != 0 && Rest(n, cfg.syncPeriod) == 0 && Progress(s.logLock) < 5
        then s.cur.(synced := s.cur.flushed) else s.cur
  {
    CounterIsRest(cfg, header, steps);
    SyncFrame(cfg, Run(cfg, header, steps));
  }

  lemma SyncFrame(cfg: Config, s: State)
    requires Enabled(cfg, s, GroupCommit.Sync)
    ensures Next(cfg, s, GroupCommit.Sync).cur ==
      if cfg.syncPeriod != 0 && s.syncCounter + 1 >= cfg.syncPeriod && Progress(s.logLock) < 5
      then s.cur.(synced := s.cur.flushed) else s.cur
  {
  }

  /******* What readers see *******/

  // Written and not yet shown to readers, oldest first, when every group is synced.
  function Unshown(s: State): seq<Item> {
    (if s.syncStage.Fetched? || s.syncStage.Synced? then s.syncing else []) + s.syncQ + s.batch
  }

  // The newest transaction written to the file is still on its way.
  predicate OnItsWay(s: State) {
    var u := Unshown(s);
    u != [] && u[|u| - 1].file == |s.closed|
  }

  ghost predicate ItemsInFiles(s: State) {
    forall k :: 0 <= k < |Unshown(s)| ==>
      Unshown(s)[k].file < |s.closed| || (Unshown(s)[k].file == |s.closed| && Unshown(s)[k].end <= |s.cur.groups|)
  }

  // Readers may see everything, unless its newest transaction is on its way, or the file is ending.
  ghost predicate Shown(cfg: Config, s: State) {
    && s.endPos <= |s.cur.groups| && ItemsInFiles(s)
    && (Progress(s.logLock) < 3 ==>
      if cfg.syncPeriod != 1 then s.logLock.Writing? || s.endPos == |s.cur.groups|
      else if OnItsWay(s) then Unshown(s)[|Unshown(s)| - 1].end == |s.cur.groups|
      else s.endPos == |s.cur.groups|)
  }

  lemma WriteShows(cfg: Config, s: State)
    requires Stages(cfg, s) && Shown(cfg, s) && Enabled(cfg, s, Write)
    ensures Shown(cfg, Next(cfg, s, Write))
  {
    var it := Item(s.unwritten[0], |s.closed|, |s.cur.groups| + 1);
    assert Unshown(Next(cfg, s, Write)) == Unshown(s) + [it];
  }

  // The sync stage's items are shown; what is behind them stays on its way.
  lemma PublishShows(cfg: Config, s: State)
    requires Stages(cfg, s) && Shown(cfg, s) && Enabled(cfg, s, PublishEnd)
    ensures Shown(cfg, Next(cfg, s, PublishEnd))
  {
    PublishFrame(cfg, s);
    Behind(s.syncing, s.syncQ + s.batch);
    PublishedShows(cfg, s, Next(cfg, s, PublishEnd), s.syncQ + s.batch, s.syncing[|s.syncing| - 1]);
  }

  lemma PublishFrame(cfg: Config, s: State)
    requires Enabled(cfg, s, PublishEnd)
    ensures
      var s', last := Next(cfg, s, PublishEnd), s.syncing[|s.syncing| - 1];
      && s'.cur == s.cur && s'.closed == s.closed && s'.logLock == s.logLock
      && s'.endPos == (
        if cfg.syncPeriod == 1 && last.file == |s.closed| && last.end > s.endPos then last.end else s.endPos)
      && Unshown(s') == s.syncQ + s.batch && Unshown(s) == s.syncing + (s.syncQ + s.batch)
  {
    assert s.syncing + s.syncQ + s.batch == s.syncing + (s.syncQ + s.batch);
  }

  lemma Behind(a: seq<Item>, rest: seq<Item>)
    requires a != []
    ensures a[|a| - 1] in a + rest && forall k :: 0 <= k < |rest| ==> rest[k] in a + rest
    ensures (a + rest)[|a + rest| - 1] == if rest == [] then a[|a| - 1] else rest[|rest| - 1]
  {
    assert (a + rest)[|a| - 1] == a[|a| - 1];
    assert forall k :: 0 <= k < |rest| ==> (a + rest)[|a| + k] == rest[k];
  }

  lemma PublishedShows(cfg: Config, s: State, s': State, rest: seq<Item>, last: Item)
    requires Shown(cfg, s) && Unshown(s') == rest && s'.cur == s.cur && s'.closed == s.closed && s'.logLock == s.logLock
    requires last in Unshown(s) && forall k :: 0 <= k < |rest| ==> rest[k] in Unshown(s)
    requires Unshown(s)[|Unshown(s)| - 1] == if rest == [] then last else rest[|rest| - 1]
    requires s'.endPos == if cfg.syncPeriod == 1 && last.file == |s.closed| && last.end > s.endPos then last.end
      else s.endPos
    ensures Shown(cfg, s')
  {
  }

  lemma QueuesShow(cfg: Config, s: State, step: Step)
    requires Stages(cfg, s) && Shown(cfg, s) && Enabled(cfg, s, step)
    requires step.EnrollSync? || step.FetchSync? || step.Sync? || step.EnrollCommit?
    ensures Shown(cfg, Next(cfg, s, step))
  {
    assert Unshown(Next(cfg, s, step)) == Unshown(s);
  }

  lemma NewFileShows(cfg: Config, s: State)
    requires Stages(cfg, s) && Shown(cfg, s) && Enabled(cfg, s, AddToIndex)
    ensures Shown(cfg, Next(cfg, s, AddToIndex))
  {
    assert Unshown(Next(cfg, s, AddToIndex)) == Unshown(s);
  }

  lemma QueueFrame(cfg: Config, s: State, step: Step)
    requires Enabled(cfg, s, step)
    requires !step.Write? && !step.PublishEnd? && !step.AddToIndex?
    requires !step.EnrollSync? && !step.FetchSync? && !step.Sync? && !step.EnrollCommit?
    ensures
      var s' := Next(cfg, s, step);
      && s'.syncing == s.syncing && s'.syncQ == s.syncQ && s'.batch == s.batch && s'.syncStage == s.syncStage
      && s'.closed == s.closed
  {
  }

  lemma FileFrame(cfg: Config, s: State, step: Step)
    requires Enabled(cfg, s, step)
    requires !step.Write? && !step.PublishEnd? && !step.AddToIndex?
    ensures
      var s' := Next(cfg, s, step);
      && |s.cur.groups| <= |s'.cur.groups|
      && (s'.endPos == s.endPos || (step.FlushCache? && s'.endPos == |s'.cur.groups|))
      && (|s'.cur.groups| == |s.cur.groups| || Progress(s'.logLock) >= 3)
      && (Progress(s.logLock) >= 3 ==> Progress(s'.logLock) >= 3)
      && (s.logLock.Writing? && !s'.logLock.Writing? && cfg.syncPeriod != 1 ==> s'.endPos == |s'.cur.groups|)
  {
  }

  lemma OthersShow(cfg: Config, s: State, step: Step)
    requires Stages(cfg, s) && Shown(cfg, s) && Enabled(cfg, s, step)
    requires !step.Write? && !step.PublishEnd? && !step.AddToIndex?
    requires !step.EnrollSync? && !step.FetchSync? && !step.Sync? && !step.EnrollCommit?
    ensures Shown(cfg, Next(cfg, s, step))
  {
    QueueFrame(cfg, s, step);
    FileFrame(cfg, s, step);
    StillShown(cfg, s, Next(cfg, s, step));
  }

  lemma StillShown(cfg: Config, s: State, s': State)
    requires Shown(cfg, s) && Unshown(s') == Unshown(s) && s'.closed == s.closed
    requires |s.cur.groups| <= |s'.cur.groups|
    requires s'.endPos == s.endPos || s'.endPos == |s'.cur.groups|
    requires |s'.cur.groups| == |s.cur.groups| || Progress(s'.logLock) >= 3
    requires Progress(s.logLock) >= 3 ==> Progress(s'.logLock) >= 3
    requires cfg.syncPeriod == 1 ==> s'.endPos == s.endPos
    requires s.logLock.Writing? && !s'.logLock.Writing? && cfg.syncPeriod != 1 ==> s'.endPos == |s'.cur.groups|
    ensures Shown(cfg, s')
  {
  }

  lemma NextShows(cfg: Config, s: State, step: Step)
    requires Stages(cfg, s) && Shown(cfg, s) && Enabled(cfg, s, step)
    ensures Shown(cfg, Next(cfg, s, step))
  {
    if step.Write? {
      WriteShows(cfg, s);
    } else if step.PublishEnd? {
      PublishShows(cfg, s);
    } else if step.AddToIndex? {
      NewFileShows(cfg, s);
    } else if step.EnrollSync? || step.FetchSync? || step.Sync? || step.EnrollCommit? {
      QueuesShow(cfg, s, step);
    } else {
      OthersShow(cfg, s, step);
    }
  }

  lemma {:induction false} RunShows(cfg: Config, header: seq<Group>, steps: seq<Step>)
    requires Legal(cfg, header, steps)
    ensures Stages(cfg, Run(cfg, header, steps)) && Shown(cfg, Run(cfg, header, steps))
  {
    if steps != [] {
      var n := |steps| - 1;
      RunShows(cfg, header, steps[..n]);
      NextShows(cfg, Run(cfg, header, steps[..n]), steps[n]);
      StagesKeep(cfg, Run(cfg, header, steps[..n]), steps[n]);
    }
  }

  /**
   On every run: when no leader holds the log lock, and with sync_binlog=1 none is on its way through
   the sync stage, readers may see all that has been written to the file.
   */
  lemma EndPosCatchesUp(cfg: Config, header: seq<Group>, steps: seq<Step>)
    requires Legal(cfg, header, steps)
    ensures
      var s := Run(cfg, header, steps);
      s.logLock.LogFree? && (cfg.syncPeriod == 1 ==> Unshown(s) == []) ==> s.endPos == |s.cur.groups|
  {
    RunShows(cfg, header, steps);
  }
}
