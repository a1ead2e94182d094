/**
 End to end: the log that a source writes on any run, in any tracking mode, applied by a
 replica's coordinator and workers on any run.
 */
module ParallelApply {
  import opened Basics
  import opened WritesetHistory
  import opened Transactions
  import opened AssignedQueue
  import opened SchedulerState
  import opened ReplicaRuns
  import opened CoordinatorRuns
  import opened SerialReplay
  import TR = TrackerRuns
  import TT = TrxTracking

  /******* The log as the source wrote it *******/

  // A logged transaction, and whether it is the first one of its file.
  datatype Entry = Entry(logged: TR.LoggedTrx, opensFile: bool)

  function EntriesOf(file: seq<TR.LoggedTrx>): (entries: seq<Entry>)
    ensures |entries| == |file| && forall k :: 0 <= k < |file| ==> entries[k] == Entry(file[k], k == 0)
  {
    seq(|file|, k requires 0 <= k < |file| => Entry(file[k], k == 0))
  }

  function Concatenated(files: seq<seq<TR.LoggedTrx>>): seq<Entry> {
    if files == [] then [] else Concatenated(files[..|files| - 1]) + EntriesOf(files[|files| - 1])
  }

  // Everything a source has written.
  function BinaryLog(mode: TT.Mode, steps: seq<TR.Step>): seq<Entry> {
    var s := TR.Run(mode, steps);
    Concatenated(s.closedFiles + [s.file])
  }

  // The log as the replica reads it.
  function Items(entries: seq<Entry>): (log: seq<Item>)
    ensures |log| == |entries|
    ensures forall k :: 0 <= k < |entries| ==> log[k] == ItemOf(entries[k])
  {
    seq(|entries|, k requires 0 <= k < |entries| => ItemOf(entries[k]))
  }

  function ItemOf(e: Entry): Item {
    Item(e.logged.trx, e.logged.stamp.sequenceNumber, e.logged.stamp.commitParent, e.opensFile)
  }

  ghost predicate SameFile(entries: seq<Entry>, i: nat, j: nat)
    requires j < |entries|
  {
    forall k :: i < k <= j ==> !entries[k].opensFile
  }

  // What the stamps of the log promise.
  ghost predicate Stamped(mode: TT.Mode, entries: seq<Entry>) {
    && WellNumbered(Items(entries))
    && forall i: nat, j: nat :: i < j < |entries| && SameFile(entries, i, j) ==>
      (entries[i].logged, entries[j].logged) in TR.SoundPairs(mode)
  }

  lemma FileIsStamped(mode: TT.Mode, before: seq<Entry>, file: seq<TR.LoggedTrx>)
    requires Stamped(mode, before) && TR.FileSound(mode, file)
    ensures Stamped(mode, before + EntriesOf(file))
  {
    var entries := before + EntriesOf(file);
    forall i: nat, j: nat | i < j < |entries| && SameFile(entries, i, j)
      ensures (entries[i].logged, entries[j].logged) in TR.SoundPairs(mode)
    {
      SameOldFile(before, file, i, j);
      if j >= |before| {
        assert (file[i - |before|], file[j - |before|]) in TR.SoundPairs(mode);
      }
    }
    FileIsNumbered(mode, before, file);
  }

  // Two transactions of one file are both in the new file, or both in front of it.
  lemma SameOldFile(before: seq<Entry>, file: seq<TR.LoggedTrx>, i: nat, j: nat)
    requires i < j < |before| + |file| && SameFile(before + EntriesOf(file), i, j)
    ensures if j < |before| then SameFile(before, i, j) else i >= |before|
  {
    var entries := before + EntriesOf(file);
    assert j < |before| ==> forall k :: i < k <= j ==> before[k] == entries[k];
    assert file != [] ==> entries[|before|].opensFile;
  }

  lemma FileIsNumbered(mode: TT.Mode, before: seq<Entry>, file: seq<TR.LoggedTrx>)
    requires WellNumbered(Items(before)) && TR.FileSound(mode, file)
    ensures WellNumbered(Items(before + EntriesOf(file)))
  {
    assert Items(before + EntriesOf(file)) == Items(before) + Items(EntriesOf(file));
  }

  lemma {:induction false} FilesAreStamped(mode: TT.Mode, files: seq<seq<TR.LoggedTrx>>)
    requires forall k :: 0 <= k < |files| ==> TR.FileSound(mode, files[k])
    ensures Stamped(mode, Concatenated(files))
  {
    if files != [] {
      FilesAreStamped(mode, files[..|files| - 1]);
      FileIsStamped(mode, Concatenated(files[..|files| - 1]), files[|files| - 1]);
    }
  }

  lemma BinaryLogIsStamped(mode: TT.Mode, steps: seq<TR.Step>)
    requires TR.Legal(mode, steps)
    ensures Stamped(mode, BinaryLog(mode, steps))
  {
    TR.StampsAreSound(mode, steps);
    var s := TR.Run(mode, steps);
    FilesAreStamped(mode, s.closedFiles + [s.file]);
  }

  /******* What waits for what *******/

  // The replica's rule, in terms of what the trackers knew: j waits for i.
  ghost predicate Ordered(mode: TT.Mode, entries: seq<Entry>, i: nat, j: nat)
    requires i < j < |entries|
  {
    !SameFile(entries, i, j) || !TR.MayOvertake(mode, entries[i].logged, entries[j].logged)
  }

  lemma OrderedIsWait(mode: TT.Mode, entries: seq<Entry>, i: nat, k: nat)
    requires Stamped(mode, entries) && i < k < |entries| && SameFile(entries, i, k)
    requires TR.MustOrder(mode, entries[i].logged.trx, entries[k].logged.trx)
    ensures WaitsFor(Items(entries), i, k) <==> !TR.MayOvertake(mode, entries[i].logged, entries[k].logged)
  {
    assert (entries[i].logged, entries[k].logged) in TR.SoundPairs(mode);
  }

  // Whoever opens a file is waited for, and holds back everything behind.
  lemma FilesAreApart(entries: seq<Entry>, i: nat, j: nat)
    requires i < j < |entries| && !SameFile(entries, i, j)
    ensures HeldBack(Items(entries), i, j)
  {
    var k :| i < k <= j && entries[k].opensFile;
    assert WaitsFor(Items(entries), i, k);
  }

  lemma OrderedIsHeldBack(mode: TT.Mode, entries: seq<Entry>, i: nat, j: nat)
    requires Stamped(mode, entries) && i < j < |entries| && Ordered(mode, entries, i, j)
    requires SameFile(entries, i, j) ==> TR.MustOrder(mode, entries[i].logged.trx, entries[j].logged.trx)
    ensures HeldBack(Items(entries), i, j)
  {
    if SameFile(entries, i, j) {
      OrderedIsWait(mode, entries, i, j);
    } else {
      FilesAreApart(entries, i, j);
    }
  }

  /******* Never in flight together *******/

  // The two transactions never overlap: they are in different files; or have a common row, the
  // earlier one not being an admin statement; or the earlier one is an admin statement that the
  // later one has not lost to its session; or the two are of one session in session mode; or the
  // earlier one was published before the later one read the commit clock, and the trackers have to
  // order the two, because the mode is commit order, they have a common row hash, or one of them
  // cannot use its writeset.
  ghost predicate Apart(mode: TT.Mode, entries: seq<Entry>, i: nat, j: nat)
    requires i < j < |entries|
  {
    var a, b := entries[i].logged, entries[j].logged;
    || !SameFile(entries, i, j)
    || (Conflict(a.trx, b.trx) && !TR.AdminStatement(a.trx))
    || (TR.AdminStatement(a.trx) && !LostToSession(mode, a, b))
    || (mode == TT.WritesetSessionMode && a.sid == b.sid)
    || (TR.MustOrder(mode, a.trx, b.trx) && a.absolute in b.before)
  }

  // Commit order gave b no parent, and its session put one from before the statement in place.
  predicate LostToSession(mode: TT.Mode, a: TR.LoggedTrx, b: TR.LoggedTrx) {
    && mode == TT.WritesetSessionMode
    && b.orderParent == SEQ_UNINIT && 0 < b.sessionParent < a.stamp.sequenceNumber
  }

  lemma ApartIsHeldBack(mode: TT.Mode, entries: seq<Entry>, i: nat, j: nat)
    requires Stamped(mode, entries) && i < j < |entries| && Apart(mode, entries, i, j)
    ensures HeldBack(Items(entries), i, j)
  {
    if SameFile(entries, i, j) {
      var a, b := entries[i].logged, entries[j].logged;
      assert (a, b) in TR.SoundPairs(mode);
      if TR.AdminStatement(a.trx) {
        TR.AdminStatementsBlock(mode, a, b);
      }
      if mode == TT.WritesetSessionMode && a.sid == b.sid {
        assert WaitsFor(Items(entries), i, j);
      } else {
        OrderedIsHeldBack(mode, entries, i, j);
      }
    } else {
      FilesAreApart(entries, i, j);
    }
  }

  /**
   Take any run of the source in any tracking mode, and any run of a replica on the log it wrote.
   When the later of two such transactions has started, the earlier one has finished.
   */
  lemma NeverInFlightTogether(
    mode: TT.Mode, steps: seq<TR.Step>, db: Db, size: nat, acts: seq<Act>, a: Applier, i: nat, j: nat)
    requires TR.Legal(mode, steps)
    requires 0 < size && a in Runs(Items(BinaryLog(mode, steps)), db, size, acts)
    requires i < j < |a.v.History()| && j < |BinaryLog(mode, steps)| && Apart(mode, BinaryLog(mode, steps), i, j)
    ensures a.v.History()[i].done
  {
    var entries := BinaryLog(mode, steps);
    BinaryLogIsStamped(mode, steps);
    ApartIsHeldBack(mode, entries, i, j);
    OverlapNeeds(Items(entries), db, size, acts, a, i, j);
  }

  /**
   So it is whenever the scheduler's class has scheduled any part of such a log.
   */
  lemma ScheduledApart(
    mode: TT.Mode, steps: seq<TR.Step>, size: nat, trace: seq<Move>, v: View, i: nat, j: nat)
    requires TR.Legal(mode, steps) && 0 < size
    requires Follows(size, trace, v) && FollowsLog(Items(BinaryLog(mode, steps)), trace)
    requires i < j < |v.History()| && j < |BinaryLog(mode, steps)| && Apart(mode, BinaryLog(mode, steps), i, j)
    ensures v.History()[i].done
  {
    var acts, a := TraceRuns(Items(BinaryLog(mode, steps)), map[], size, trace, v);
    NeverInFlightTogether(mode, steps, map[], size, acts, a, i, j);
  }

  /******* Exactly who may be in flight together *******/

  // The trackers have to order the transaction with everything up to j. So it is for all in
  // commit-order mode, and in every mode for those that cannot use their writeset.
  ghost predicate MustOrderAll(mode: TT.Mode, entries: seq<Entry>, i: nat, j: nat)
    requires j < |entries|
  {
    forall k :: i < k <= j ==> TR.MustOrder(mode, entries[i].logged.trx, entries[k].logged.trx)
  }

  ghost predicate AllMayOvertake(mode: TT.Mode, entries: seq<Entry>, i: nat, j: nat)
    requires i <= j < |entries|
  {
    forall k :: i < k <= j ==> TR.MayOvertake(mode, entries[i].logged, entries[k].logged)
  }

  lemma HeldBackExactly(mode: TT.Mode, entries: seq<Entry>, i: nat, j: nat)
    requires Stamped(mode, entries) && i < j < |entries| && MustOrderAll(mode, entries, i, j)
    ensures !HeldBack(Items(entries), i, j) <==> SameFile(entries, i, j) && AllMayOvertake(mode, entries, i, j)
  {
    if SameFile(entries, i, j) {
      forall k: nat | i < k <= j
        ensures WaitsFor(Items(entries), i, k) <==> !TR.MayOvertake(mode, entries[i].logged, entries[k].logged)
      {
        assert SameFile(entries, i, k);
        OrderedIsWait(mode, entries, i, k);
      }
    } else {
      FilesAreApart(entries, i, j);
    }
  }

  /**
   A transaction that cannot use its writeset, and in commit-order mode any transaction, may be
   in flight with a later one by the scheduling rule if and only if they are in one file and
   neither commit order nor session keeps any transaction up to the later one behind it.
   */
  lemma OverlapByRule(mode: TT.Mode, steps: seq<TR.Step>, db: Db, i: nat, j: nat)
    requires TR.Legal(mode, steps) && i < j < |BinaryLog(mode, steps)|
    requires MustOrderAll(mode, BinaryLog(mode, steps), i, j)
    ensures
      var entries := BinaryLog(mode, steps);
      ReplicaRuns.MayOverlap(Items(entries), db, i, j) <==>
        SameFile(entries, i, j) && AllMayOvertake(mode, entries, i, j)
  {
    var entries := BinaryLog(mode, steps);
    BinaryLogIsStamped(mode, steps);
    HeldBackExactly(mode, entries, i, j);
    ReplicaRuns.OverlapExactly(Items(entries), db, i, j);
  }

  /**
   And on runs of the coordinator if and only if, besides, it did not start a batch and the queue
   holds all from the one to the other.
   */
  lemma OverlapByCoordinator(mode: TT.Mode, steps: seq<TR.Step>, db: Db, size: nat, i: nat, j: nat)
    requires TR.Legal(mode, steps) && 0 < size && i < j < |BinaryLog(mode, steps)|
    requires MustOrderAll(mode, BinaryLog(mode, steps), i, j)
    ensures
      var entries := BinaryLog(mode, steps);
      CoordinatorRuns.MayOverlap(Items(entries), db, size, i, j) <==>
        && SameFile(entries, i, j) && AllMayOvertake(mode, entries, i, j)
        && !StartsBatch(Items(entries), i) && j - i < size
  {
    var entries := BinaryLog(mode, steps);
    BinaryLogIsStamped(mode, steps);
    HeldBackExactly(mode, entries, i, j);
    CoordinatorRuns.OverlapExactly(Items(entries), db, size, i, j);
  }

  /******* Admin statements *******/

  ghost predicate AllLost(mode: TT.Mode, entries: seq<Entry>, i: nat, j: nat)
    requires i <= j < |entries|
  {
    forall k :: i < k <= j ==> LostToSession(mode, entries[i].logged, entries[k].logged)
  }

  // The coordinator may have the admin statement i in flight with j.
  ghost predicate AdminLost(mode: TT.Mode, entries: seq<Entry>, size: nat, i: nat, j: nat)
    requires i < j < |entries|
  {
    && SameFile(entries, i, j) && AllLost(mode, entries, i, j)
    && !StartsBatch(Items(entries), i) && j - i < size
  }

  lemma AdminMustOrder(mode: TT.Mode, entries: seq<Entry>, i: nat, j: nat)
    requires Stamped(mode, entries) && i < j < |entries| && TR.AdminStatement(entries[i].logged.trx)
    ensures MustOrderAll(mode, entries, i, j)
    ensures SameFile(entries, i, j) ==> (AllMayOvertake(mode, entries, i, j) <==> AllLost(mode, entries, i, j))
  {
    if SameFile(entries, i, j) {
      forall k | i < k <= j
        ensures TR.MayOvertake(mode, entries[i].logged, entries[k].logged)
          <==> LostToSession(mode, entries[i].logged, entries[k].logged)
      {
        assert SameFile(entries, i, k);
        assert (entries[i].logged, entries[k].logged) in TR.SoundPairs(mode);
        TR.AdminStatementsBlock(mode, entries[i].logged, entries[k].logged);
      }
    }
  }

  lemma AdminOverlapping(mode: TT.Mode, entries: seq<Entry>, size: nat, i: nat, j: nat)
    requires Stamped(mode, entries) && i < j < |entries| && TR.AdminStatement(entries[i].logged.trx)
    ensures Overlapping(Items(entries), size, i, j) <==> AdminLost(mode, entries, size, i, j)
  {
    AdminMustOrder(mode, entries, i, j);
    HeldBackExactly(mode, entries, i, j);
  }

  /**
   An admin statement may be in flight with a later transaction exactly in session mode, within a
   file, if everything up to the later one has lost it to its session: by the scheduling rule,
   and on runs of the coordinator if besides it did not start a batch and the queue is long
   enough.
   */
  lemma AdminOverlapExactly(mode: TT.Mode, steps: seq<TR.Step>, db: Db, size: nat, i: nat, j: nat)
    requires TR.Legal(mode, steps) && 0 < size && i < j < |BinaryLog(mode, steps)|
    requires TR.AdminStatement(BinaryLog(mode, steps)[i].logged.trx)
    ensures
      var entries := BinaryLog(mode, steps);
      && (ReplicaRuns.MayOverlap(Items(entries), db, i, j) <==>
        SameFile(entries, i, j) && AllLost(mode, entries, i, j))
      && (CoordinatorRuns.MayOverlap(Items(entries), db, size, i, j) <==> AdminLost(mode, entries, size, i, j))
  {
    var entries := BinaryLog(mode, steps);
    BinaryLogIsStamped(mode, steps);
    AdminMustOrder(mode, entries, i, j);
    OverlapByRule(mode, steps, db, i, j);
    OverlapByCoordinator(mode, steps, db, size, i, j);
  }

  /******* The rows *******/

  // No admin statement is lost by a transaction that changes a common row.
  ghost predicate NoConflictLost(mode: TT.Mode, entries: seq<Entry>, size: nat) {
    forall i: nat, j: nat :: i < j < |entries| && AdminLost(mode, entries, size, i, j) ==>
      !TR.AdminStatement(entries[i].logged.trx) || !Conflict(entries[i].logged.trx, entries[j].logged.trx)
  }

  lemma KeptApartExactly(mode: TT.Mode, entries: seq<Entry>, size: nat)
    requires Stamped(mode, entries)
    ensures KeptApart(Items(entries), size) <==> NoConflictLost(mode, entries, size)
  {
    var log := Items(entries);
    forall i: nat, j: nat | i < j < |log| && Conflict(log[i].trx, log[j].trx)
      ensures Overlapping(log, size, i, j) <==>
        TR.AdminStatement(entries[i].logged.trx) && AdminLost(mode, entries, size, i, j)
    {
      if TR.AdminStatement(entries[i].logged.trx) {
        AdminOverlapping(mode, entries, size, i, j);
      } else {
        ApartIsHeldBack(mode, entries, i, j);
      }
    }
  }

  /**
   Whatever the data, every run of the replica that finishes leaves the rows of serial replay, if
   and only if no admin statement is lost by a transaction that changes a common row.
   */
  lemma ParallelEqualsSerialExactly(mode: TT.Mode, steps: seq<TR.Step>, size: nat)
    requires TR.Legal(mode, steps) && 0 < size
    ensures AlwaysSerial(Items(BinaryLog(mode, steps)), size) <==> NoConflictLost(mode, BinaryLog(mode, steps), size)
  {
    var entries := BinaryLog(mode, steps);
    BinaryLogIsStamped(mode, steps);
    KeptApartExactly(mode, entries, size);
    SerialExactly(Items(entries), size);
  }

  /**
   In commit-order and in writeset mode it always does.
   */
  lemma ParallelEqualsSerial(
    mode: TT.Mode, steps: seq<TR.Step>, db: Db, size: nat, acts: seq<Act>, a: Applier)
    requires TR.Legal(mode, steps) && mode != TT.WritesetSessionMode
    requires 0 < size && a in Runs(Items(BinaryLog(mode, steps)), db, size, acts)
    requires Complete(Items(BinaryLog(mode, steps)), a)
    ensures a.db == Serial(Items(BinaryLog(mode, steps)), db)
  {
    var entries := BinaryLog(mode, steps);
    BinaryLogIsStamped(mode, steps);
    forall i: nat, j: nat | i < j < |entries|
      ensures !AdminLost(mode, entries, size, i, j)
    {
      if SameFile(entries, i, j) {
        assert !LostToSession(mode, entries[i].logged, entries[j].logged);
      }
    }
    KeptApartExactly(mode, entries, size);
    CompleteIsSerialReplay(Items(entries), db, size, acts, a);
  }

  /******* The lost admin statement *******/

  // A source run after which the replica may have an ANALYZE TABLE and the transaction behind
  // it in flight together.
  lemma LostAdminOverlaps(db: Db, size: nat) returns (acts: seq<Act>, a: Applier, i: nat)
    requires 2 <= size
    ensures TR.Legal(TT.WritesetSessionMode, TR.LOST_ADMIN_RUN)
    ensures
      var entries := BinaryLog(TT.WritesetSessionMode, TR.LOST_ADMIN_RUN);
      && a in Runs(Items(entries), db, size, acts) && Overlap(a.v.History(), i, i + 1)
      && i < |entries| && TR.AdminStatement(entries[i].logged.trx)
  {
    TR.LostAdminStatement();
    var s := TR.Run(TT.WritesetSessionMode, TR.LOST_ADMIN_RUN);
    BinaryLogIsStamped(TT.WritesetSessionMode, TR.LOST_ADMIN_RUN);
    i := LastFile(s.closedFiles, s.file);
    i := i + 1;
    acts, a := RunPair(BinaryLog(TT.WritesetSessionMode, TR.LOST_ADMIN_RUN), db, size, i);
  }

  /**
   The same run, in which both change a row: the replica may finish with other rows than serial
   replay.
   */
  lemma LostAdminChangesRows(size: nat)
    requires 2 <= size
    ensures TR.Legal(TT.WritesetSessionMode, TR.LOST_ADMIN_RUN)
    ensures !AlwaysSerial(Items(BinaryLog(TT.WritesetSessionMode, TR.LOST_ADMIN_RUN)), size)
  {
    TR.LostAdminStatement();
    var entries := BinaryLog(TT.WritesetSessionMode, TR.LOST_ADMIN_RUN);
    var s := TR.Run(TT.WritesetSessionMode, TR.LOST_ADMIN_RUN);
    var i := LastFile(s.closedFiles, s.file);
    i := i + 1;
    BinaryLogIsStamped(TT.WritesetSessionMode, TR.LOST_ADMIN_RUN);
    assert !HeldBack(Items(entries), i, i + 1);
    AdminOverlapping(TT.WritesetSessionMode, entries, size, i, i + 1);
    ParallelEqualsSerialExactly(TT.WritesetSessionMode, TR.LOST_ADMIN_RUN, size);
  }

  lemma ConcatenatedLast(closed: seq<seq<TR.LoggedTrx>>, file: seq<TR.LoggedTrx>)
    ensures Concatenated(closed + [file]) == Concatenated(closed) + EntriesOf(file)
  {
    assert (closed + [file])[..|closed|] == closed;
  }

  lemma LastFile(closed: seq<seq<TR.LoggedTrx>>, file: seq<TR.LoggedTrx>) returns (n: nat)
    ensures |Concatenated(closed + [file])| == n + |file|
    ensures forall k :: 0 <= k < |file| ==> Concatenated(closed + [file])[n + k] == Entry(file[k], k == 0)
  {
    ConcatenatedLast(closed, file);
    var before := Concatenated(closed);
    n := |before|;
    forall k | 0 <= k < |file|
      ensures (before + EntriesOf(file))[n + k] == Entry(file[k], k == 0)
    {
    }
  }

  lemma RunPair(entries: seq<Entry>, db: Db, size: nat, i: nat) returns (acts: seq<Act>, a: Applier)
    requires 2 <= size && WellNumbered(Items(entries)) && i + 1 < |entries| && !StartsBatch(Items(entries), i)
    requires !WaitsFor(Items(entries), i, i + 1)
    ensures a in Runs(Items(entries), db, size, acts) && Overlap(a.v.History(), i, i + 1)
  {
    assert !HeldBack(Items(entries), i, i + 1);
    acts, a := CoordinatorRuns.RunOverlapping(Items(entries), db, size, i, i + 1);
  }
}
