/**
 The stages of group commit as their leaders carry them out. Each method is proved to be a
 sequence of steps of the group-commit model, between any two of which that model lets other
 sessions act.
 */
module OrderedCommit {
  import opened Basics
  import opened BinlogRecovery
  import opened GroupCommit

  // The state reached by the steps, if every one of them was enabled in its turn.
  ghost predicate Leads(cfg: Config, s: State, steps: seq<Step>, t: State)
    decreases |steps|
  {
    if steps == [] then t == s
    else
      var n := |steps| - 1;
      exists m :: Leads(cfg, s, steps[..n], m) && Enabled(cfg, m, steps[n]) && t == Next(cfg, m, steps[n])
  }

  // The states so reached. Written as a set so that a method's proof can pass one on whole.
  ghost function Led(cfg: Config, s: State, steps: seq<Step>): iset<State> {
    iset t: State | Leads(cfg, s, steps, t)
  }

  lemma LedNone(cfg: Config, s: State)
    ensures s in Led(cfg, s, [])
  {
  }

  lemma LedNext(cfg: Config, s: State, steps: seq<Step>, m: State, step: Step, more: seq<Step>, t: State)
    requires m in Led(cfg, s, steps) && Enabled(cfg, m, step)
    requires more == steps + [step] && t == Next(cfg, m, step)
    ensures t in Led(cfg, s, more)
  {
    assert more[..|steps|] == steps;
  }

  // Runs go on as the leaders do.
  lemma {:induction false} LeadersStayLegal(
    cfg: Config, header: seq<Group>, before: seq<Step>, steps: seq<Step>, t: State)
    requires Legal(cfg, header, before) && t in Led(cfg, Run(cfg, header, before), steps)
    ensures Legal(cfg, header, before + steps) && Run(cfg, header, before + steps) == t
    decreases |steps|
  {
    if steps == [] {
      assert before + steps == before;
    } else {
      var n := |steps| - 1;
      var s := Run(cfg, header, before);
      var m :| Leads(cfg, s, steps[..n], m) && Enabled(cfg, m, steps[n]) && t == Next(cfg, m, steps[n]);
      LeadersStayLegal(cfg, header, before, steps[..n], m);
      assert (before + steps)[..|before + steps| - 1] == before + steps[..n];
    }
  }

  // The steps of the leader of the flush stage that has written n sessions' caches.
  function FlushSteps(n: nat): seq<Step> {
    [FetchFlush, FlushEngine] + seq(n, _ => Write)
  }

  // The steps of the leader of the commit stage after n commits and m decrements.
  function CommitSteps(n: nat, m: nat): seq<Step> {
    [FetchCommit] + seq(n, _ => CommitNext) + seq(m, _ => Finish)
  }

  lemma LedWrite(cfg: Config, s: State, n: nat, m: State, t: State)
    requires m in Led(cfg, s, FlushSteps(n)) && m.unwritten != [] && m.logLock == Writing
    requires t == Written1(m)
    ensures t in Led(cfg, s, FlushSteps(n + 1))
  {
    LedNext(cfg, s, FlushSteps(n), m, Write, FlushSteps(n + 1), t);
  }

  lemma TakeNext(groups: seq<Group>, queue: seq<Group>)
    requires queue != []
    ensures groups + [queue[0]] + queue[1..] == groups + queue
  {
  }

  class BinLog {
    const cfg: Config
    // The engine's log, and how much of it is on disk.
    var redo: seq<Record>
    var redoSynced: nat
    var closed: seq<File>
    var file: File
    var binlogEndPos: nat
    var prepXids: int
    var syncCounter: nat
    // The stage queues, and what their leaders have in hand.
    var flushQ: seq<Group>
    var logLock: LogLock
    var head: seq<Group>
    var waitQueue: seq<Item>
    var syncQ: seq<Item>
    var syncStage: SyncStage
    var finalQueue: seq<Item>
    var commitQ: seq<Item>
    var commitQueue: seq<Item>
    var loose: seq<Item>
    var finishing: seq<Item>

    ghost function Abs(): State
      reads this
    {
      State(redo, redoSynced, closed, file, binlogEndPos, prepXids, syncCounter, flushQ, logLock, head, waitQueue,
            syncQ, syncStage, finalQueue, commitQ, commitQueue, loose, finishing)
    }

    constructor (cfg: Config, header: seq<Group>)
      ensures this.cfg == cfg && Abs() == Init(header)
    {
      this.cfg := cfg;
      redo, redoSynced, closed, file := [], 0, [], NewFile(header);
      binlogEndPos, prepXids, syncCounter := |header|, 0, 0;
      flushQ, logLock, head, waitQueue, syncQ, syncStage := [], LogFree, [], [], [], SyncFree;
      finalQueue, commitQ, commitQueue, loose, finishing := [], [], [], [], [];
    }

    method IncPrepXids()
      modifies this`prepXids
      ensures prepXids == old(prepXids) + 1
    {
      prepXids := prepXids + 1;
    }

    method DecPrepXids()
      modifies this`prepXids
      ensures prepXids == old(prepXids) - 1
    {
      prepXids := prepXids - 1;
    }

    // Takes the whole queue, so that the next session leads the next batch, and makes the
    // prepared transactions durable before any of them is logged.
    method FetchAndProcessFlushStageQueue()
      requires logLock == LogFree && flushQ != []
      modifies this`head, this`flushQ, this`logLock, this`redoSynced
      ensures Abs() in Led(cfg, old(Abs()), [FetchFlush, FlushEngine])
      ensures head == old(flushQ) && flushQ == [] && logLock == Writing && redoSynced == |redo|
    {
      ghost var s := Abs();
      LedNone(cfg, s);
      FetchFlushQueue();
      ghost var m := Abs();
      LedNext(cfg, s, [], s, FetchFlush, [FetchFlush], m);
      FlushEngineLog();
      LedNext(cfg, s, [FetchFlush], m, FlushEngine, [FetchFlush, FlushEngine], Abs());
    }

    method FetchFlushQueue()
      requires logLock == LogFree && flushQ != []
      modifies this`head, this`flushQ, this`logLock
      ensures Abs() == Next(cfg, old(Abs()), FetchFlush)
    {
      head, flushQ, logLock := flushQ, [], QueueFetched;
    }

    method FlushEngineLog()
      requires logLock == QueueFetched
      modifies this`logLock, this`redoSynced
      ensures Abs() == Next(cfg, old(Abs()), FlushEngine)
    {
      redoSynced, logLock := |redo|, Writing;
    }

    // Writes one session's cache; the leader has written n before.
    method FlushThreadCaches(ghost s: State, ghost n: nat)
      requires head != [] && logLock == Writing
      requires Abs() in Led(cfg, s, FlushSteps(n))
      modifies this`head, this`file, this`waitQueue, this`prepXids
      ensures Abs() in Led(cfg, s, FlushSteps(n + 1))
      ensures head == old(head)[1..] && file.groups == old(file.groups) + [old(head)[0]]
    {
      WriteCache();
      LedWrite(cfg, s, n, old(Abs()), Abs());
    }

    method WriteCache()
      requires head != []
      modifies this`head, this`file, this`waitQueue, this`prepXids
      ensures Abs() == Written1(old(Abs()))
    {
      var group := head[0];
      file := file.(groups := file.groups + [group]);
      waitQueue := waitQueue + [Item(group, |closed|, |file.groups|)];
      if group.Xid().Some? {
        IncPrepXids();
      }
      head := head[1..];
    }

    method ProcessFlushStageQueue()
      requires logLock == LogFree && flushQ != []
      modifies this`head, this`flushQ, this`logLock, this`redoSynced, this`file, this`waitQueue, this`prepXids
      ensures Abs() in Led(cfg, old(Abs()), FlushSteps(|old(flushQ)|))
      ensures head == [] && logLock == Writing && redoSynced == |redo|
      ensures file.groups == old(file.groups) + old(flushQ)
    {
      ghost var s := Abs();
      FetchAndProcessFlushStageQueue();
      assert FlushSteps(0) == [FetchFlush, FlushEngine];
      FlushAllCaches(s);
    }

    method FlushAllCaches(ghost s: State)
      requires logLock == Writing && Abs() in Led(cfg, s, FlushSteps(0))
      modifies this`head, this`file, this`waitQueue, this`prepXids
      ensures Abs() in Led(cfg, s, FlushSteps(|old(head)|))
      ensures head == [] && file.groups == old(file.groups) + old(head)
    {
      ghost var all, n := file.groups + head, 0;
      while head != []
        invariant n + |head| == |old(head)| && file.groups + head == all
        invariant Abs() in Led(cfg, s, FlushSteps(n))
        decreases |head|
      {
        TakeNext(file.groups, head);
        FlushThreadCaches(s, n);
        n := n + 1;
      }
    }

    // The flush stage under the log lock, up to entering the sync stage.
    method FlushStage()
      requires logLock == LogFree && flushQ != []
      modifies this
      ensures Abs() in Led(cfg, old(Abs()), FlushSteps(|old(flushQ)|) + [FlushCache, EnrollSync])
      ensures logLock == LogFree && waitQueue == []
      ensures file.groups == old(file.groups) + old(flushQ) && file.flushed == |file.groups|
    {
      ghost var s, steps := Abs(), FlushSteps(|flushQ|);
      ProcessFlushStageQueue();
      ghost var m := Abs();
      FlushCacheToFile();
      LedNext(cfg, s, steps, m, FlushCache, steps + [FlushCache], Abs());
      m := Abs();
      LeaveFlushStage();
      LedNext(cfg, s, steps + [FlushCache], m, EnrollSync, steps + [FlushCache, EnrollSync], Abs());
    }

    method LeaveFlushStage()
      requires logLock == Written
      modifies this`syncQ, this`waitQueue, this`logLock
      ensures Abs() == Next(cfg, old(Abs()), EnrollSync)
    {
      syncQ, waitQueue, logLock := syncQ + waitQueue, [], LogFree;
    }

    method FlushCacheToFile()
      requires logLock == Writing && head == []
      modifies this`file, this`logLock, this`binlogEndPos
      ensures Abs() == Next(cfg, old(Abs()), FlushCache)
    {
      file := file.(flushed := |file.groups|);
      logLock := Written;
      if cfg.syncPeriod != 1 {
        binlogEndPos := file.flushed;
      }
    }

    // Syncs the file every syncPeriod-th time, never if that is zero.
    method SyncBinlogFile()
      modifies this`syncCounter, this`file
      ensures Abs() == SyncedFile(cfg, old(Abs()))
    {
      var due := false;
      if cfg.syncPeriod != 0 {
        syncCounter := syncCounter + 1;
        due := syncCounter >= cfg.syncPeriod;
      }
      if due {
        syncCounter := 0;
        if Progress(logLock) < 5 {
          file := file.(synced := file.flushed);
        }
      }
    }

    // The position only moves forward, and only for the active file.
    method UpdateBinlogEndPos(fileNumber: nat, pos: nat)
      modifies this`binlogEndPos
      ensures binlogEndPos == if fileNumber == |closed| && pos > old(binlogEndPos) then pos else old(binlogEndPos)
    {
      if fileNumber == |closed| && pos > binlogEndPos {
        binlogEndPos := pos;
      }
    }

    method PublishStage()
      requires syncStage == Synced && finalQueue != []
      modifies this`binlogEndPos, this`syncStage
      ensures Abs() == Next(cfg, old(Abs()), PublishEnd)
    {
      if cfg.syncPeriod == 1 {
        var last := finalQueue[|finalQueue| - 1];
        UpdateBinlogEndPos(last.file, last.end);
      }
      syncStage := Published;
    }

    method LeaveSyncStage()
      requires syncStage == Published
      modifies this`syncStage, this`commitQ, this`loose, this`finalQueue
      ensures Abs() == Next(cfg, old(Abs()), EnrollCommit)
    {
      if cfg.orderCommits {
        commitQ := commitQ + finalQueue;
      } else {
        loose := loose + finalQueue;
      }
      finalQueue, syncStage := [], SyncFree;
    }

    method FetchAndSync()
      requires syncStage == SyncFree && syncQ != []
      modifies this`finalQueue, this`syncQ, this`syncStage, this`syncCounter, this`file
      ensures Abs() in Led(cfg, old(Abs()), [FetchSync, GroupCommit.Sync])
      ensures syncStage == Synced && finalQueue == old(syncQ)
      ensures cfg.syncPeriod == 1 && Progress(logLock) < 5 ==> file.synced == file.flushed
    {
      ghost var s := Abs();
      LedNone(cfg, s);
      FetchSyncQueue();
      ghost var m := Abs();
      LedNext(cfg, s, [], s, FetchSync, [FetchSync], m);
      SyncFetched();
      LedNext(cfg, s, [FetchSync], m, GroupCommit.Sync, [FetchSync, GroupCommit.Sync], Abs());
    }

    method FetchSyncQueue()
      requires syncStage == SyncFree && syncQ != []
      modifies this`finalQueue, this`syncQ, this`syncStage
      ensures Abs() == Next(cfg, old(Abs()), FetchSync)
    {
      finalQueue, syncQ, syncStage := syncQ, [], Fetched;
    }

    method SyncFetched()
      requires syncStage == Fetched
      modifies this`syncStage, this`syncCounter, this`file
      ensures Abs() == Next(cfg, old(Abs()), GroupCommit.Sync)
      ensures cfg.syncPeriod == 1 && Progress(logLock) < 5 ==> file.synced == file.flushed
    {
      SyncBinlogFile();
      syncStage := Synced;
    }

    // The sync stage, up to entering the commit stage.
    method SyncStage()
      requires syncStage == SyncFree && syncQ != []
      modifies this`finalQueue, this`syncQ, this`syncStage, this`syncCounter, this`file
      modifies this`binlogEndPos, this`commitQ, this`loose
      ensures Abs() in Led(cfg, old(Abs()), [FetchSync, GroupCommit.Sync, PublishEnd, EnrollCommit])
      ensures cfg.orderCommits ==> commitQ == old(commitQ) + old(syncQ)
      ensures cfg.syncPeriod == 1 && Progress(logLock) < 5 ==> file.synced == file.flushed
    {
      ghost var s := Abs();
      FetchAndSync();
      ghost var m := Abs();
      PublishStage();
      ghost var steps := [FetchSync, GroupCommit.Sync, PublishEnd];
      LedNext(cfg, s, [FetchSync, GroupCommit.Sync], m, PublishEnd, steps, Abs());
      m := Abs();
      LeaveSyncStage();
      LedNext(cfg, s, steps, m, EnrollCommit, steps + [EnrollCommit], Abs());
      assert steps + [EnrollCommit] == [FetchSync, GroupCommit.Sync, PublishEnd, EnrollCommit];
    }

    // Commits the whole queue in the engine, in its order, and only then counts the
    // transactions out one by one.
    method CommitStage()
      requires commitQueue == [] && finishing == [] && commitQ != []
      modifies this
      ensures Abs() in Led(cfg, old(Abs()), CommitSteps(|old(commitQ)|, |old(commitQ)|))
      ensures commitQ == [] && commitQueue == [] && finishing == []
    {
      ghost var s := Abs();
      LedNone(cfg, s);
      FetchCommitQueue();
      LedNext(cfg, s, [], s, FetchCommit, CommitSteps(0, 0), Abs());
      CommitQueue(s);
      FinishQueue(s, |finishing|);
    }

    method FetchCommitQueue()
      requires commitQueue == [] && finishing == [] && commitQ != []
      modifies this`commitQueue, this`commitQ
      ensures Abs() == Next(cfg, old(Abs()), FetchCommit)
    {
      commitQueue, commitQ := commitQ, [];
    }

    method CommitQueue(ghost s: State)
      requires finishing == [] && Abs() in Led(cfg, s, CommitSteps(0, 0))
      modifies this`redo, this`commitQueue, this`finishing
      ensures Abs() in Led(cfg, s, CommitSteps(|old(commitQueue)|, 0))
      ensures commitQueue == [] && |finishing| == |old(commitQueue)|
    {
      ghost var n := 0;
      while commitQueue != []
        invariant n + |commitQueue| == |old(commitQueue)| && |finishing| == n
        invariant Abs() in Led(cfg, s, CommitSteps(n, 0))
        decreases |commitQueue|
      {
        HaCommitLow(s, n);
        n := n + 1;
      }
    }

    method FinishQueue(ghost s: State, ghost k: nat)
      requires commitQueue == [] && Abs() in Led(cfg, s, CommitSteps(k, 0))
      modifies this`prepXids, this`finishing
      ensures Abs() in Led(cfg, s, CommitSteps(k, |old(finishing)|)) && finishing == []
    {
      ghost var n := 0;
      while finishing != []
        invariant n + |finishing| == |old(finishing)|
        invariant Abs() in Led(cfg, s, CommitSteps(k, n))
        decreases |finishing|
      {
        FinishNext(s, k, n);
        n := n + 1;
      }
    }

    method HaCommitLow(ghost s: State, ghost n: nat)
      requires commitQueue != []
      requires Abs() in Led(cfg, s, CommitSteps(n, 0))
      modifies this`redo, this`commitQueue, this`finishing
      ensures Abs() == CommittedNext(old(Abs())) && Abs() in Led(cfg, s, CommitSteps(n + 1, 0))
    {
      CommitInEngine();
      LedNext(cfg, s, CommitSteps(n, 0), old(Abs()), CommitNext, CommitSteps(n + 1, 0), Abs());
    }

    method CommitInEngine()
      requires commitQueue != []
      modifies this`redo, this`commitQueue, this`finishing
      ensures Abs() == CommittedNext(old(Abs()))
    {
      var item := commitQueue[0];
      if item.group.Xid().Some? {
        redo := redo + [Commit(item.group.Xid().value)];
      }
      commitQueue, finishing := commitQueue[1..], finishing + [item];
    }

    method FinishNext(ghost s: State, ghost k: nat, ghost n: nat)
      requires commitQueue == [] && finishing != []
      requires Abs() in Led(cfg, s, CommitSteps(k, n))
      modifies this`prepXids, this`finishing
      ensures Abs() == Finished(old(Abs())) && Abs() in Led(cfg, s, CommitSteps(k, n + 1))
    {
      if finishing[0].group.Xid().Some? {
        DecPrepXids();
      }
      finishing := finishing[1..];
      LedNext(cfg, s, CommitSteps(k, n), old(Abs()), Finish, CommitSteps(k, n + 1), Abs());
    }
  }
}
