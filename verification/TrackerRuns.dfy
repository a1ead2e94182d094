/**
 Every interleaving of preparing, flushing, committing and rotating that the source server can
 go through, and what holds of the stamps it writes.
 */
module TrackerRuns {
  import opened Basics
  import opened LogicalClocks
  import opened WritesetHistory
  import opened TrxTracking
  import opened Transactions

  type SessionId = nat

  // A session between the last statement of a transaction and its engine commit. `seen` are the
  // transactions already published when the session last read the commit clock; `flushed` are
  // those it has logged and not yet published (two when it flushes two caches).
  datatype Session = Session(
    lastCommitted: int, sessionParent: int, seen: set<int>, flushed: set<int>, sequenceNumber: int)

  // A logged transaction, and the session that logged it. `before` are the transactions known to
  // be published before this one read the commit clock; orderParent is the parent commit order
  // alone gives it, sessionParent what the tracker remembers of its session, and capacity the size
  // that the writeset history might have.
  datatype LoggedTrx = LoggedTrx(
    trx: Trx, sid: SessionId, absolute: int, stamp: Stamp, orderParent: int, sessionParent: int, before: set<int>,
    capacity: nat)

  datatype State = State(
    t: Trackers,
    sessions: map<SessionId, Session>,
    published: set<int>,
    closedFiles: seq<seq<LoggedTrx>>,
    file: seq<LoggedTrx>)

  datatype Step =
    | Prepare(sid: SessionId)
    | Flush(sid: SessionId, trx: Trx)
    | Publish(sid: SessionId)
    | Rotate
    | SetHistorySize(size: nat)

  function Init(mode: Mode): State {
    State(Trackers(mode, CommitOrder(Clock(0, 0), Clock(0, 0), SEQ_UNINIT), History(0, map[]), 25000),
          map[], {}, [], [])
  }

  function SessionOf(s: State, sid: SessionId): Session {
    if sid in s.sessions then s.sessions[sid] else Session(SEQ_UNINIT, 0, {}, {}, SEQ_UNINIT)
  }

  function Absolutes(file: seq<LoggedTrx>): set<int> {
    set k | 0 <= k < |file| :: file[k].absolute
  }

  // What is known to have been published when the session's snapshot counts as taken.
  function Before(s: State, sid: SessionId): set<int> {
    var x := SessionOf(s, sid);
    if x.lastCommitted == SEQ_UNINIT then Absolutes(s.file) else x.seen
  }

  function Entry(s: State, sid: SessionId, trx: Trx): LoggedTrx {
    var x := SessionOf(s, sid);
    var stepped := SteppedCounter(s.t);
    var c := FlushCandidate(stepped, x.lastCommitted, trx.unsafe, trx.w, x.sessionParent);
    LoggedTrx(trx, sid, c.sequenceNumber, Stamped(stepped, c), OrderStamp(stepped.order, c).commitParent,
              x.sessionParent, Before(s, sid), s.t.maxHistorySize)
  }

  function FlushedTrackers(s: State, sid: SessionId, trx: Trx): Trackers {
    var x := SessionOf(s, sid);
    var stepped := SteppedCounter(s.t);
    AfterStamp(stepped, FlushCandidate(stepped, x.lastCommitted, trx.unsafe, trx.w, x.sessionParent))
  }

  // A statement that gives up its metadata lock early; such statements carry no writeset.
  predicate AdminStatement(t: Trx) {
    t.unsafe && !CanUseWritesets(t.w)
  }

  // Locks are kept from before the snapshot until after the publication: of two transactions
  // that change the same row, the earlier one was published before the later one read the
  // commit clock. Not so after an admin statement, which releases its lock before it commits.
  ghost predicate LockDiscipline(s: State, sid: SessionId, trx: Trx) {
    forall k :: 0 <= k < |s.file| && Conflict(s.file[k].trx, trx) && !AdminStatement(s.file[k].trx) ==>
      s.file[k].absolute in Before(s, sid)
  }

  ghost predicate Enabled(s: State, step: Step) {
    match step
    case Prepare(sid) => SessionOf(s, sid).flushed == {}
    case Flush(sid, trx) => Covered(trx) && LockDiscipline(s, sid, trx)
    case Publish(sid) => SessionOf(s, sid).flushed != {}
    case Rotate => true
    case SetHistorySize(_) => true
  }

  function Next(s: State, step: Step): State {
    match step
    case Prepare(sid) =>
      s.(sessions := s.sessions[sid := SessionOf(s, sid).(
        lastCommitted := s.t.order.maxCommitted.state, seen := s.published)])
    case Flush(sid, trx) =>
      var x := SessionOf(s, sid);
      var e := Entry(s, sid, trx);
      s.(t := FlushedTrackers(s, sid, trx),
         file := s.file + [e],
         sessions := s.sessions[sid := Session(
           SEQ_UNINIT,
           if s.t.mode == WritesetSessionMode then e.stamp.sequenceNumber else x.sessionParent,
           {}, x.flushed + {e.absolute}, e.absolute)])
    case Publish(sid) =>
      var x := SessionOf(s, sid);
      s.(t := Published(s.t, x.sequenceNumber),
         published := s.published + x.flushed,
         sessions := s.sessions[sid := x.(flushed := {}, sequenceNumber := SEQ_UNINIT)])
    case Rotate => s.(t := Rotated(s.t), closedFiles := s.closedFiles + [s.file], file := [])
    case SetHistorySize(n) => s.(t := s.t.(maxHistorySize := n))
  }

  function Run(mode: Mode, steps: seq<Step>): State {
    if steps == [] then Init(mode) else Next(Run(mode, steps[..|steps| - 1]), steps[|steps| - 1])
  }

  ghost predicate Legal(mode: Mode, steps: seq<Step>) {
    steps == [] || (Legal(mode, steps[..|steps| - 1]) && Enabled(Run(mode, steps[..|steps| - 1]), steps[|steps| - 1]))
  }

  /******* What every file satisfies *******/

  // Numbers follow each other from 1 on, and parents lie below them.
  ghost predicate Numbered(file: seq<LoggedTrx>) {
    forall j :: 0 <= j < |file| ==> 0 <= file[j].stamp.commitParent < file[j].stamp.sequenceNumber == j + 1
  }

  // The stamps make b wait on the replica for the earlier transaction a of its file: b's parent
  // is not below a, or is missing, which makes the replica wait for everything before b.
  predicate Waits(a: LoggedTrx, b: LoggedTrx) {
    var p := b.stamp.commitParent;
    p == SEQ_UNINIT || p >= a.stamp.sequenceNumber
  }

  // The session tracker takes part: the session has logged something that may lie in the file.
  predicate UsesSession(mode: Mode, b: LoggedTrx) {
    mode == WritesetSessionMode && 0 < b.sessionParent < b.stamp.sequenceNumber
  }

  // Neither commit order nor the session keeps b behind a. Commit order does so also by giving
  // no parent at all, but only until the session puts one in its place.
  predicate MayOvertake(mode: Mode, a: LoggedTrx, b: LoggedTrx) {
    && b.orderParent < a.stamp.sequenceNumber
    && (b.orderParent == SEQ_UNINIT ==> UsesSession(mode, b))
    && (UsesSession(mode, b) ==> b.sessionParent < a.stamp.sequenceNumber)
  }

  // The tracker has to order the two: every earlier transaction in commit-order mode, and in
  // the others those with a common row hash, and those of which one cannot use its writeset.
  ghost predicate MustOrder(mode: Mode, a: Trx, b: Trx) {
    mode == CommitOrderMode || MayConflict(a.w, b.w)
  }

  // What holds of two transactions of one file, a logged before b.
  ghost predicate PairSound(mode: Mode, a: LoggedTrx, b: LoggedTrx) {
    && a.stamp.sequenceNumber < b.stamp.sequenceNumber
    // One published before the other read the commit clock is within its commit-order parent.
    && (a.absolute in b.before ==> b.orderParent >= a.stamp.sequenceNumber)
    // Commit order never lets a transaction overtake an admin statement.
    && (AdminStatement(a.trx) ==> b.orderParent == SEQ_UNINIT || b.orderParent >= a.stamp.sequenceNumber)
    // What the trackers have to order is ordered exactly if commit order or session do so.
    && (MustOrder(mode, a.trx, b.trx) ==> (Waits(a, b) <==> !MayOvertake(mode, a, b)))
    && (MustOrder(mode, a.trx, b.trx) && a.absolute in b.before ==> b.stamp.commitParent >= a.stamp.sequenceNumber)
    // In session mode the transactions of a session keep their order.
    && (mode == WritesetSessionMode && a.sid == b.sid ==> b.stamp.commitParent >= a.stamp.sequenceNumber)
    // A common row is seen, and is locked unless the earlier one is an admin statement.
    && (Conflict(a.trx, b.trx) ==> MayConflict(a.trx.w, b.trx.w))
    && (Conflict(a.trx, b.trx) && !AdminStatement(a.trx) ==> a.absolute in b.before)
  }

  // The pairs of a file. Written as a set so that a proof can pass a pair on whole.
  ghost function SoundPairs(mode: Mode): iset<(LoggedTrx, LoggedTrx)> {
    iset a: LoggedTrx, b: LoggedTrx | PairSound(mode, a, b) :: (a, b)
  }

  ghost predicate FileSound(mode: Mode, file: seq<LoggedTrx>) {
    && Numbered(file)
    && forall i, j :: 0 <= i < j < |file| ==> (file[i], file[j]) in SoundPairs(mode)
  }

  /******* Invariant *******/

  function Scan(file: seq<LoggedTrx>): (log: seq<Logged>)
    ensures |log| == |file|
    ensures forall k :: 0 <= k < |file| ==>
      log[k] == Logged(file[k].stamp.sequenceNumber, file[k].trx.w, file[k].capacity)
  {
    seq(|file|, k requires 0 <= k < |file| =>
      Logged(file[k].stamp.sequenceNumber, file[k].trx.w, file[k].capacity))
  }

  ghost predicate SessionInv(t: Trackers, x: Session) {
    && 0 <= x.lastCommitted <= t.order.maxCommitted.state
    && 0 <= x.sessionParent
    && (forall a :: a in x.seen ==> a <= Max(x.lastCommitted, t.order.maxCommitted.offset))
    && (forall a :: a in x.flushed ==> a <= x.sequenceNumber)
    && (x.flushed != {} ==> 0 < x.sequenceNumber)
    && x.sequenceNumber <= t.order.counter.state
  }

  ghost predicate FileInv(t: Trackers, file: seq<LoggedTrx>) {
    && FileSound(t.mode, file)
    && t.order.counter.state == t.order.counter.offset + |file|
    && (forall k :: 0 <= k < |file| ==>
      file[k].absolute == file[k].stamp.sequenceNumber + t.order.maxCommitted.offset)
    && (forall k :: 0 <= k < |file| ==> Covered(file[k].trx))
    && (forall k :: 0 <= k < |file| && file[k].trx.unsafe ==> file[k].absolute <= t.order.lastBlocking)
    && (t.mode != CommitOrderMode ==> Agrees(t.hist, Scan(file)))
  }

  // What the tracker remembers of a session is the last transaction it has logged to the file.
  ghost predicate RemembersLast(s: State, sid: SessionId) {
    && (forall k :: 0 <= k < |s.file| && s.file[k].sid == sid ==> k + 1 <= SessionOf(s, sid).sessionParent)
    && ((exists k :: 0 <= k < |s.file| && s.file[k].sid == sid) ==>
      exists k :: 0 <= k < |s.file| && s.file[k].sid == sid && SessionOf(s, sid).sessionParent == k + 1)
  }

  // The sessions of which that holds. Written as a set so that a proof can pass one on whole.
  ghost function Remembered(s: State): iset<SessionId> {
    iset sid: SessionId | RemembersLast(s, sid)
  }

  ghost predicate Inv(s: State) {
    && ValidTrackers(s.t)
    && (s.t.mode == WritesetSessionMode ==> forall sid: SessionId :: sid in Remembered(s))
    && (forall sid :: sid in s.sessions ==> SessionInv(s.t, s.sessions[sid]))
    && (forall a :: a in s.published ==> a <= Max(s.t.order.maxCommitted.state, s.t.order.maxCommitted.offset))
    && FileInv(s.t, s.file)
    && (forall k :: 0 <= k < |s.closedFiles| ==> FileSound(s.t.mode, s.closedFiles[k]))
  }

  // What a flush does to the clocks, and the numbers it gives the transaction.
  lemma FlushFacts(s: State, sid: SessionId, trx: Trx)
    requires Inv(s)
    ensures
      var t, t', e := s.t, FlushedTrackers(s, sid, trx), Entry(s, sid, trx);
      && ValidTrackers(t') && t'.mode == t.mode
      && t'.order.maxCommitted == t.order.maxCommitted
      && t'.order.lastBlocking == (if trx.unsafe then e.absolute else t.order.lastBlocking)
      && t'.order.counter.state == e.absolute == t.order.counter.state + 1
      && e.stamp.sequenceNumber == e.absolute - t.order.maxCommitted.offset
      && 0 <= e.stamp.commitParent < e.stamp.sequenceNumber
      && (t.mode != CommitOrderMode ==>
        t'.hist == Tracked(t.hist, t.maxHistorySize, trx.w, e.stamp.sequenceNumber, e.orderParent).0)
  {
    var x := SessionOf(s, sid);
    assert SessionInv(s.t, x);
    ParentBelowSequence(s.t, x.lastCommitted, trx.unsafe, trx.w, x.sessionParent);
  }

  lemma EntryOrderSound(s: State, sid: SessionId, trx: Trx, i: nat)
    requires Inv(s) && i < |s.file|
    ensures
      var a, b := s.file[i], Entry(s, sid, trx);
      && (a.absolute in b.before ==> b.orderParent >= a.stamp.sequenceNumber)
      && (AdminStatement(a.trx) ==> b.orderParent == SEQ_UNINIT || b.orderParent >= a.stamp.sequenceNumber)
  {
    assert SessionInv(s.t, SessionOf(s, sid));
  }

  // The parent before the session has its say.
  lemma EntryWritesetParent(s: State, sid: SessionId, trx: Trx, i: nat)
    requires Inv(s) && i < |s.file| && s.t.mode != CommitOrderMode && MayConflict(s.file[i].trx.w, trx.w)
    ensures
      var a, b := s.file[i], Entry(s, sid, trx);
      var parent := Tracked(s.t.hist, s.t.maxHistorySize, trx.w, b.stamp.sequenceNumber, b.orderParent).1;
      && (parent >= a.stamp.sequenceNumber <==> b.orderParent >= a.stamp.sequenceNumber)
      && (parent == SEQ_UNINIT <==> b.orderParent == SEQ_UNINIT)
      && b.stamp.commitParent == if UsesSession(s.t.mode, b) then Max(parent, b.sessionParent) else parent
  {
    FlushFacts(s, sid, trx);
    var b, log := Entry(s, sid, trx), Scan(s.file);
    assert log[i].w == s.file[i].trx.w;
    assert SessionInv(s.t, SessionOf(s, sid));
    ParentCoversConflicts(s.t.hist, s.t.maxHistorySize, trx.w, b.stamp.sequenceNumber, b.orderParent, log, i);
  }

  lemma EntryWaits(s: State, sid: SessionId, trx: Trx, i: nat)
    requires Inv(s) && i < |s.file| && MustOrder(s.t.mode, s.file[i].trx, trx)
    ensures
      var a, b := s.file[i], Entry(s, sid, trx);
      && (Waits(a, b) <==> !MayOvertake(s.t.mode, a, b))
      && (a.absolute in b.before ==> b.stamp.commitParent >= a.stamp.sequenceNumber)
  {
    EntryOrderSound(s, sid, trx, i);
    if s.t.mode != CommitOrderMode {
      EntryWritesetParent(s, sid, trx, i);
    }
  }

  lemma EntryFollowsSession(s: State, sid: SessionId, trx: Trx, i: nat)
    requires Inv(s) && i < |s.file| && s.t.mode == WritesetSessionMode && s.file[i].sid == sid
    ensures
      var b := Entry(s, sid, trx);
      i + 1 <= b.sessionParent < b.stamp.sequenceNumber && b.sessionParent <= b.stamp.commitParent
  {
    assert sid in Remembered(s);
    FlushFacts(s, sid, trx);
  }

  lemma EntrySound(s: State, sid: SessionId, trx: Trx, i: nat)
    requires Inv(s) && i < |s.file| && Covered(trx) && LockDiscipline(s, sid, trx)
    ensures (s.file[i], Entry(s, sid, trx)) in SoundPairs(s.t.mode)
  {
    EntryOrderSound(s, sid, trx, i);
    if MustOrder(s.t.mode, s.file[i].trx, trx) {
      EntryWaits(s, sid, trx, i);
    }
    if Conflict(s.file[i].trx, trx) {
      ConflictIsSeen(s.file[i].trx, trx);
    }
    if s.t.mode == WritesetSessionMode && s.file[i].sid == sid {
      EntryFollowsSession(s, sid, trx, i);
    }
  }

  lemma FlushKeepsFileSound(s: State, sid: SessionId, trx: Trx)
    requires Inv(s) && Covered(trx) && LockDiscipline(s, sid, trx)
    ensures FileSound(s.t.mode, s.file + [Entry(s, sid, trx)])
  {
    FlushFacts(s, sid, trx);
    var file := s.file + [Entry(s, sid, trx)];
    forall i, j | 0 <= i < j < |file|
      ensures (file[i], file[j]) in SoundPairs(s.t.mode)
    {
      if j == |s.file| {
        EntrySound(s, sid, trx, i);
      }
    }
  }

  lemma FlushKeepsScan(s: State, sid: SessionId, trx: Trx)
    requires Inv(s) && s.t.mode != CommitOrderMode
    ensures Agrees(FlushedTrackers(s, sid, trx).hist, Scan(s.file + [Entry(s, sid, trx)]))
  {
    var e := Entry(s, sid, trx);
    FlushFacts(s, sid, trx);
    var l := Logged(e.stamp.sequenceNumber, trx.w, e.capacity);
    assert Scan(s.file + [e]) == Scan(s.file) + [l];
    TrackedAgrees(s.t.hist, s.t.maxHistorySize, l, e.orderParent, Scan(s.file));
  }

  lemma FlushKeeps(s: State, sid: SessionId, trx: Trx)
    requires Inv(s) && Enabled(s, Flush(sid, trx))
    ensures Inv(Next(s, Flush(sid, trx)))
  {
    FlushFacts(s, sid, trx);
    FlushKeepsFileSound(s, sid, trx);
    if s.t.mode != CommitOrderMode {
      FlushKeepsScan(s, sid, trx);
    }
    if s.t.mode == WritesetSessionMode {
      FlushIsRemembered(s, sid, trx);
    }
    assert SessionInv(s.t, SessionOf(s, sid));
    var s' := Next(s, Flush(sid, trx));
    forall y | y in s'.sessions
      ensures SessionInv(s'.t, s'.sessions[y])
    {
      if y != sid {
        assert SessionInv(s.t, s.sessions[y]);
      }
    }
  }

  lemma FlushIsRemembered(s: State, sid: SessionId, trx: Trx)
    requires Inv(s) && s.t.mode == WritesetSessionMode
    ensures forall y: SessionId :: y in Remembered(Next(s, Flush(sid, trx)))
  {
    FlushFacts(s, sid, trx);
    var s' := Next(s, Flush(sid, trx));
    forall y: SessionId
      ensures y in Remembered(s')
    {
      var n := |s.file|;
      assert y in Remembered(s);
      assert s'.file[n].sid == sid && forall k :: 0 <= k < n ==> s'.file[k] == s.file[k];
      if y == sid {
        assert SessionOf(s', y).sessionParent == n + 1;
      } else {
        assert SessionOf(s', y) == SessionOf(s, y);
        if k :| 0 <= k < n + 1 && s'.file[k].sid == y {
          assert s.file[k].sid == y;
        }
      }
    }
  }

  // A step that leaves the file and what is remembered of sessions.
  lemma StillRemembered(s: State, s': State)
    requires forall sid: SessionId :: sid in Remembered(s)
    requires s'.file == s.file
    requires forall sid: SessionId :: SessionOf(s', sid).sessionParent == SessionOf(s, sid).sessionParent
    ensures forall sid: SessionId :: sid in Remembered(s')
  {
    forall sid: SessionId
      ensures sid in Remembered(s')
    {
      assert sid in Remembered(s);
    }
  }

  lemma RotateKeeps(s: State)
    requires Inv(s)
    ensures Inv(Next(s, Rotate))
  {
    RotatedAgrees(1);
    assert Scan([]) == [];
  }

  lemma PrepareKeeps(s: State, sid: SessionId)
    requires Inv(s) && Enabled(s, Prepare(sid))
    ensures Inv(Next(s, Prepare(sid)))
  {
    if s.t.mode == WritesetSessionMode {
      StillRemembered(s, Next(s, Prepare(sid)));
    }
  }

  lemma PublishKeeps(s: State, sid: SessionId)
    requires Inv(s) && Enabled(s, Publish(sid))
    ensures Inv(Next(s, Publish(sid)))
  {
    assert SessionInv(s.t, SessionOf(s, sid));
    if s.t.mode == WritesetSessionMode {
      StillRemembered(s, Next(s, Publish(sid)));
    }
  }

  lemma NextKeeps(s: State, step: Step)
    requires Inv(s) && Enabled(s, step)
    ensures Inv(Next(s, step))
  {
    match step {
      case Prepare(sid) => PrepareKeeps(s, sid);
      case Flush(sid, trx) => FlushKeeps(s, sid, trx);
      case Publish(sid) => PublishKeeps(s, sid);
      case Rotate => RotateKeeps(s);
      case SetHistorySize(n) =>
        if s.t.mode == WritesetSessionMode {
          StillRemembered(s, Next(s, step));
        }
    }
  }

  lemma {:induction false} RunKeeps(mode: Mode, steps: seq<Step>)
    requires Legal(mode, steps)
    ensures Inv(Run(mode, steps))
  {
    if steps == [] {
      assert Scan([]) == [];
    } else {
      RunKeeps(mode, steps[..|steps| - 1]);
      NextKeeps(Run(mode, steps[..|steps| - 1]), steps[|steps| - 1]);
    }
  }

  lemma {:induction false} ModeIsFixed(mode: Mode, steps: seq<Step>)
    ensures Run(mode, steps).t.mode == mode
  {
    if steps != [] {
      ModeIsFixed(mode, steps[..|steps| - 1]);
    }
  }

  /**
   In every mode, on every run, in the file being written and in all files closed so far: numbers
   follow each other, parents lie below them, and every pair of transactions is sound.
   */
  lemma StampsAreSound(mode: Mode, steps: seq<Step>)
    requires Legal(mode, steps)
    ensures FileSound(mode, Run(mode, steps).file)
    ensures forall k :: 0 <= k < |Run(mode, steps).closedFiles| ==> FileSound(mode, Run(mode, steps).closedFiles[k])
  {
    RunKeeps(mode, steps);
    ModeIsFixed(mode, steps);
  }

  /**
   A transaction waits for an earlier admin statement of its file in two of the three modes
   always; in session mode exactly unless a parent missing because of a rotation was replaced
   by a transaction of the session from before the statement.
   */
  lemma AdminStatementsBlock(mode: Mode, a: LoggedTrx, b: LoggedTrx)
    requires PairSound(mode, a, b) && AdminStatement(a.trx)
    ensures Waits(a, b) <==>
      mode != WritesetSessionMode || b.orderParent != SEQ_UNINIT || !(0 < b.sessionParent < a.stamp.sequenceNumber)
  {
  }

  /******* Exactly what the stamps are *******/

  // Commit order keeps b behind a: a was published before b read the commit clock, or is unsafe.
  predicate Ties(a: LoggedTrx, b: LoggedTrx) {
    a.absolute in b.before || a.trx.unsafe
  }

  // The commit-order parent is the number of the last one that b is tied to, or missing if nothing
  // of the file was published before b read the commit clock.
  ghost predicate OrderLaw(earlier: seq<LoggedTrx>, b: LoggedTrx) {
    var p := b.orderParent;
    && 0 <= p <= |earlier|
    && (p == SEQ_UNINIT <==> forall k :: 0 <= k < |earlier| ==> earlier[k].absolute !in b.before)
    && (p != SEQ_UNINIT ==> Ties(earlier[p - 1], b) && forall k :: p <= k < |earlier| ==> !Ties(earlier[k], b))
  }

  // What is remembered of the session is the last transaction that it has logged to the file.
  ghost predicate SessionLaw(earlier: seq<LoggedTrx>, b: LoggedTrx) {
    var p := b.sessionParent;
    (exists k :: 0 <= k < |earlier| && earlier[k].sid == b.sid) ==>
      0 < p <= |earlier| && earlier[p - 1].sid == b.sid && forall k :: p <= k < |earlier| ==> earlier[k].sid != b.sid
  }

  // The parent in terms of the log alone: the newest transaction of the file with a common row
  // hash, but not one further back than the history reaches, and not one behind what commit order
  // asks for; and in session mode not one before the last of the session.
  function ParentOf(mode: Mode, start: int, earlier: seq<LoggedTrx>, b: LoggedTrx): int {
    if mode == CommitOrderMode then b.orderParent
    else
      var log, w := Scan(earlier), b.trx.w;
      var parent :=
        if CanUseWritesets(w) && !w.missingKeys
        then Min(Max(ForgottenUpTo(log, start), NewestWriterOf(log, w.hashes)), b.orderParent)
        else b.orderParent;
      if UsesSession(mode, b) then Max(parent, b.sessionParent) else parent
  }

  ghost predicate StampLaw(mode: Mode, start: int, earlier: seq<LoggedTrx>, b: LoggedTrx) {
    && OrderLaw(earlier, b)
    && (mode == WritesetSessionMode ==> SessionLaw(earlier, b))
    && b.stamp == Stamp(|earlier| + 1, ParentOf(mode, start, earlier, b))
  }

  // The law holds of each transaction of the file and those in front of it.
  ghost predicate FileExact(mode: Mode, start: int, file: seq<LoggedTrx>) {
    file == [] ||
    (FileExact(mode, start, file[..|file| - 1]) && StampLaw(mode, start, file[..|file| - 1], file[|file| - 1]))
  }

  // Where the history of the n-th file starts.
  function HistoryStart(n: nat): int {
    if n == 0 then 0 else 1
  }

  // The clocks are those of known transactions.
  ghost predicate ClocksExact(s: State) {
    var o := s.t.order;
    && (o.lastBlocking > o.maxCommitted.offset ==>
      exists k :: 0 <= k < |s.file| && s.file[k].trx.unsafe && s.file[k].absolute == o.lastBlocking)
    && (o.maxCommitted.state > o.maxCommitted.offset ==> o.maxCommitted.state in s.published)
    && (forall sid :: sid in s.sessions ==> SessionExact(s.t, s.sessions[sid]))
  }

  ghost predicate SessionExact(t: Trackers, x: Session) {
    && (x.lastCommitted > t.order.maxCommitted.offset ==> x.lastCommitted in x.seen)
    && (x.flushed != {} ==> x.sequenceNumber in x.flushed)
  }

  ghost predicate ExactInv(s: State) {
    && ClocksExact(s)
    && (s.t.mode != CommitOrderMode ==> HoldsExactly(s.t.hist, Scan(s.file), HistoryStart(|s.closedFiles|)))
    && FileExact(s.t.mode, HistoryStart(|s.closedFiles|), s.file)
    && forall k :: 0 <= k < |s.closedFiles| ==> FileExact(s.t.mode, HistoryStart(k), s.closedFiles[k])
  }

  // The clock that b read is that of the last transaction published, and the blocking one that of
  // the last unsafe one, if they lie in the file.
  lemma LastTie(earlier: seq<LoggedTrx>, b: LoggedTrx, offset: int, read: int, blocking: int)
    requires forall k :: 0 <= k < |earlier| ==> earlier[k].absolute == k + 1 + offset
    requires b.orderParent == if read <= offset then SEQ_UNINIT else Max(read, blocking) - offset
    requires Max(read, blocking) <= offset + |earlier|
    requires (read > offset ==> read in b.before) && forall a :: a in b.before ==> a <= Max(read, offset)
    requires blocking > offset ==>
      exists k :: 0 <= k < |earlier| && earlier[k].trx.unsafe && earlier[k].absolute == blocking
    requires forall k :: 0 <= k < |earlier| && earlier[k].trx.unsafe ==> earlier[k].absolute <= blocking
    ensures OrderLaw(earlier, b)
  {
    if read > offset {
      assert earlier[read - offset - 1].absolute in b.before;
    }
  }

  lemma EntryOrderLaw(s: State, sid: SessionId, trx: Trx)
    requires Inv(s) && ClocksExact(s)
    ensures OrderLaw(s.file, Entry(s, sid, trx))
  {
    FlushFacts(s, sid, trx);
    var x, o, n := SessionOf(s, sid), s.t.order, |s.file|;
    assert SessionInv(s.t, x) && SessionExact(s.t, x);
    if x.lastCommitted == SEQ_UNINIT {
      assert n > 0 ==> s.file[n - 1].absolute in Absolutes(s.file);
      LastTie(s.file, Entry(s, sid, trx), o.maxCommitted.offset, o.counter.state, o.lastBlocking);
    } else {
      LastTie(s.file, Entry(s, sid, trx), o.maxCommitted.offset, x.lastCommitted, o.lastBlocking);
    }
  }

  lemma EntrySessionLaw(s: State, sid: SessionId, trx: Trx)
    requires Inv(s) && s.t.mode == WritesetSessionMode
    ensures SessionLaw(s.file, Entry(s, sid, trx))
  {
    assert sid in Remembered(s);
  }

  lemma EntryParent(s: State, sid: SessionId, trx: Trx)
    requires Inv(s) && ExactInv(s)
    ensures
      var b := Entry(s, sid, trx);
      b.stamp == Stamp(|s.file| + 1, ParentOf(s.t.mode, HistoryStart(|s.closedFiles|), s.file, b))
  {
    FlushFacts(s, sid, trx);
    var b := Entry(s, sid, trx);
    if s.t.mode != CommitOrderMode {
      ParentIsScan(s.t.hist, s.t.maxHistorySize, trx.w, b.stamp.sequenceNumber, b.orderParent, Scan(s.file));
    }
  }

  lemma FlushKeepsFileExact(s: State, sid: SessionId, trx: Trx)
    requires Inv(s) && ExactInv(s)
    ensures FileExact(s.t.mode, HistoryStart(|s.closedFiles|), s.file + [Entry(s, sid, trx)])
  {
    EntryOrderLaw(s, sid, trx);
    EntryParent(s, sid, trx);
    if s.t.mode == WritesetSessionMode {
      EntrySessionLaw(s, sid, trx);
    }
    assert (s.file + [Entry(s, sid, trx)])[..|s.file|] == s.file;
  }

  lemma FlushKeepsHistory(s: State, sid: SessionId, trx: Trx)
    requires Inv(s) && ExactInv(s) && s.t.mode != CommitOrderMode
    ensures HoldsExactly(FlushedTrackers(s, sid, trx).hist, Scan(s.file + [Entry(s, sid, trx)]),
                         HistoryStart(|s.closedFiles|))
  {
    FlushFacts(s, sid, trx);
    var e := Entry(s, sid, trx);
    var l := Logged(e.stamp.sequenceNumber, trx.w, e.capacity);
    assert Scan(s.file + [e]) == Scan(s.file) + [l];
    TrackedExactly(s.t.hist, l, e.orderParent, Scan(s.file), HistoryStart(|s.closedFiles|));
  }

  lemma FlushKeepsClocks(s: State, sid: SessionId, trx: Trx)
    requires Inv(s) && ClocksExact(s)
    ensures ClocksExact(Next(s, Flush(sid, trx)))
  {
    FlushFacts(s, sid, trx);
    var s', n := Next(s, Flush(sid, trx)), |s.file|;
    assert s'.file[n] == Entry(s, sid, trx);
    if s'.t.order.lastBlocking > s'.t.order.maxCommitted.offset && !trx.unsafe {
      var k :| 0 <= k < n && s.file[k].trx.unsafe && s.file[k].absolute == s.t.order.lastBlocking;
      assert s'.file[k] == s.file[k];
    }
  }

  lemma NextKeepsExact(s: State, step: Step)
    requires Inv(s) && ExactInv(s) && Enabled(s, step)
    ensures ExactInv(Next(s, step))
  {
    match step {
      case Flush(sid, trx) =>
        FlushKeepsFileExact(s, sid, trx);
        FlushKeepsClocks(s, sid, trx);
        if s.t.mode != CommitOrderMode {
          FlushKeepsHistory(s, sid, trx);
        }
      case Publish(sid) => PublishKeepsExact(s, sid);
      case Rotate => RotateKeepsExact(s);
      case _ =>
    }
  }

  lemma PublishKeepsExact(s: State, sid: SessionId)
    requires Inv(s) && ExactInv(s) && Enabled(s, Publish(sid))
    ensures ExactInv(Next(s, Publish(sid)))
  {
    assert SessionInv(s.t, SessionOf(s, sid)) && SessionExact(s.t, SessionOf(s, sid));
  }

  lemma RotateKeepsExact(s: State)
    requires Inv(s) && ExactInv(s)
    ensures ExactInv(Next(s, Rotate))
  {
    assert Scan([]) == [];
    forall sid | sid in s.sessions
      ensures SessionExact(Next(s, Rotate).t, s.sessions[sid])
    {
      assert SessionInv(s.t, s.sessions[sid]) && SessionExact(s.t, s.sessions[sid]);
    }
  }

  lemma {:induction false} RunKeepsExact(mode: Mode, steps: seq<Step>)
    requires Legal(mode, steps)
    ensures ExactInv(Run(mode, steps))
  {
    if steps == [] {
      assert Scan([]) == [];
    } else {
      RunKeeps(mode, steps[..|steps| - 1]);
      RunKeepsExact(mode, steps[..|steps| - 1]);
      NextKeepsExact(Run(mode, steps[..|steps| - 1]), steps[|steps| - 1]);
    }
  }

  /**
   In every mode, on every run and in every file, each stamp is the one that the log determines: the
   tracker's clocks and its bounded history give the number of the last transaction tied to by commit
   order, lowered to the newest one with a common row since the last that did not fit, and raised to
   the last of the session.
   */
  lemma StampsAreExact(mode: Mode, steps: seq<Step>)
    requires Legal(mode, steps)
    ensures
      var s := Run(mode, steps);
      && FileExact(mode, HistoryStart(|s.closedFiles|), s.file)
      && forall k :: 0 <= k < |s.closedFiles| ==> FileExact(mode, HistoryStart(k), s.closedFiles[k])
  {
    RunKeepsExact(mode, steps);
    ModeIsFixed(mode, steps);
  }

  // The law at one place of a file.
  lemma {:induction false} LawAt(mode: Mode, start: int, file: seq<LoggedTrx>, j: nat)
    requires FileExact(mode, start, file) && j < |file|
    ensures StampLaw(mode, start, file[..j], file[j])
  {
    var init := file[..|file| - 1];
    if j < |init| {
      LawAt(mode, start, init, j);
      assert init[..j] == file[..j];
    }
  }

  /**
   So commit order reaches a transaction of the file exactly if b is tied to it or to a later one.
   */
  lemma OrderReaches(earlier: seq<LoggedTrx>, b: LoggedTrx, i: nat)
    requires OrderLaw(earlier, b) && i < |earlier| && b.orderParent != SEQ_UNINIT
    ensures b.orderParent >= i + 1 <==> exists k :: i <= k < |earlier| && Ties(earlier[k], b)
  {
  }

  /**
   And while all transactions of a file use their writesets and there is room for their rows, the
   parent is the newest writer of a common row, the first transaction of the file if there is none,
   or that of commit order if that is earlier.
   */
  lemma ParentIsNewestWriter(start: int, earlier: seq<LoggedTrx>, b: LoggedTrx)
    requires StampLaw(WritesetMode, start, earlier, b) && AllFit(Scan(earlier))
    requires CanUseWritesets(b.trx.w) && !b.trx.w.missingKeys
    ensures b.stamp.commitParent == Min(Max(start, NewestWriterOf(Scan(earlier), b.trx.w.hashes)), b.orderParent)
  {
    NothingForgotten(Scan(earlier), start);
  }

  /**
   In particular transactions that change different rows only wait for the first one of their file,
   be it that commit order asks for less.
   */
  lemma OtherRowsDoNotWait(start: int, earlier: seq<LoggedTrx>, b: LoggedTrx)
    requires StampLaw(WritesetMode, start, earlier, b) && AllPlain(Scan(earlier)) && 0 <= start
    requires Plain(b.trx.w) && NoCommonRow(Scan(earlier), b.trx.w.hashes)
    ensures b.stamp.commitParent == Min(start, b.orderParent)
  {
    PlainFits(Scan(earlier));
    ParentIsNewestWriter(start, earlier, b);
    NobodyWroteAny(Scan(earlier), b.trx.w.hashes);
  }

  /******* The lost admin statement *******/

  function TrxOf(ops: seq<RowOp>, hashes: seq<Hash>, unsafe: bool): Trx {
    Trx(ops, Writeset(hashes, false, false, true, false, false), unsafe)
  }

  // Writes the value to a row that both change.
  function OpOnCommonRow(image: Image): RowOp {
    RowOp(Row(1, 8, false), v => Some(image))
  }

  const FIRST_TRX := TrxOf([], [7], false)
  const DDL_TRX := TrxOf([], [], false)
  const ADMIN_TRX := TrxOf([OpOnCommonRow(1)], [], true)
  const LAST_TRX := TrxOf([OpOnCommonRow(2)], [8], false)

  lemma RunNext(mode: Mode, steps: seq<Step>, step: Step)
    requires Legal(mode, steps) && Enabled(Run(mode, steps), step)
    ensures Legal(mode, steps + [step])
    ensures Run(mode, steps + [step]) == Next(Run(mode, steps), step)
  {
    assert (steps + [step])[..|steps|] == steps;
  }

  lemma RunNext2(mode: Mode, steps: seq<Step>, a: Step, b: Step)
    requires Legal(mode, steps) && Enabled(Run(mode, steps), a) && Enabled(Next(Run(mode, steps), a), b)
    ensures Legal(mode, steps + [a, b])
    ensures Run(mode, steps + [a, b]) == Next(Next(Run(mode, steps), a), b)
  {
    RunNext(mode, steps, a);
    RunNext(mode, steps + [a], b);
    assert steps + [a] + [b] == steps + [a, b];
  }

  // Session 1 commits, prepares again, and the file is rotated before it flushes; meanwhile
  // session 2 logs a DDL and then an ANALYZE TABLE to the new file, which changes a row that
  // session 1 changes next.
  const FIRST_COMMIT: seq<Step> := [Prepare(1), Flush(1, FIRST_TRX)]
  const BEFORE_ROTATION: seq<Step> := FIRST_COMMIT + [Publish(1), Prepare(1)]
  const AFTER_ROTATION: seq<Step> := BEFORE_ROTATION + [Rotate, Prepare(2)]
  const AFTER_DDL: seq<Step> := AFTER_ROTATION + [Flush(2, DDL_TRX), Publish(2)]
  const BEFORE_ADMIN: seq<Step> := AFTER_DDL + [Prepare(2)]
  const AFTER_ADMIN: seq<Step> := BEFORE_ADMIN + [Flush(2, ADMIN_TRX)]
  const LOST_ADMIN_RUN: seq<Step> := AFTER_ADMIN + [Flush(1, LAST_TRX)]

  lemma FirstCommit()
    ensures Legal(WritesetSessionMode, FIRST_COMMIT)
    ensures
      var s := Run(WritesetSessionMode, FIRST_COMMIT);
      && s.t.mode == WritesetSessionMode && s.t.maxHistorySize == 25000
      && s.t.order == CommitOrder(Clock(0, 0), Clock(1, 0), 0)
      && s.published == {}
      && s.sessions == map[1 := Session(SEQ_UNINIT, 1, {}, {1}, 1)]
      && s.closedFiles == []
  {
    RunNext2(WritesetSessionMode, [], Prepare(1), Flush(1, FIRST_TRX));
    assert [] + [Prepare(1), Flush(1, FIRST_TRX)] == FIRST_COMMIT;
  }

  lemma BeforeRotation()
    ensures Legal(WritesetSessionMode, BEFORE_ROTATION)
    ensures
      var s := Run(WritesetSessionMode, BEFORE_ROTATION);
      && s.t.mode == WritesetSessionMode && s.t.maxHistorySize == 25000
      && s.t.order == CommitOrder(Clock(1, 0), Clock(1, 0), 0)
      && s.published == {1}
      && s.sessions == map[1 := Session(1, 1, {1}, {}, SEQ_UNINIT)]
      && s.closedFiles == []
  {
    FirstCommit();
    RunNext2(WritesetSessionMode, FIRST_COMMIT, Publish(1), Prepare(1));
  }

  lemma AfterRotation()
    ensures Legal(WritesetSessionMode, AFTER_ROTATION)
    ensures
      var s := Run(WritesetSessionMode, AFTER_ROTATION);
      && s.t.mode == WritesetSessionMode && s.t.maxHistorySize == 25000
      && s.t.order == CommitOrder(Clock(1, 1), Clock(1, 1), 0)
      && s.published == {1} && s.file == []
      && s.sessions == map[1 := Session(1, 1, {1}, {}, SEQ_UNINIT), 2 := Session(1, 0, {1}, {}, SEQ_UNINIT)]
      && |s.closedFiles| == 1
  {
    BeforeRotation();
    RunNext2(WritesetSessionMode, BEFORE_ROTATION, Rotate, Prepare(2));
  }

  lemma AfterDdl()
    ensures Legal(WritesetSessionMode, AFTER_DDL)
    ensures
      var s := Run(WritesetSessionMode, AFTER_DDL);
      && s.t.mode == WritesetSessionMode && s.t.maxHistorySize == 25000
      && s.t.order == CommitOrder(Clock(2, 1), Clock(2, 1), 0)
      && |s.file| == 1 && s.file[0].trx == DDL_TRX && s.file[0].stamp == Stamp(1, 0)
      && 1 in s.sessions && s.sessions[1] == Session(1, 1, {1}, {}, SEQ_UNINIT)
      && 2 in s.sessions && s.sessions[2] == Session(SEQ_UNINIT, 1, {}, {}, SEQ_UNINIT)
  {
    AfterRotation();
    RunNext2(WritesetSessionMode, AFTER_ROTATION, Flush(2, DDL_TRX), Publish(2));
  }

  lemma BeforeAdmin()
    ensures Legal(WritesetSessionMode, BEFORE_ADMIN)
    ensures
      var s := Run(WritesetSessionMode, BEFORE_ADMIN);
      && s.t.mode == WritesetSessionMode && s.t.maxHistorySize == 25000
      && s.t.order == CommitOrder(Clock(2, 1), Clock(2, 1), 0)
      && |s.file| == 1 && s.file[0].trx == DDL_TRX && s.file[0].stamp == Stamp(1, 0)
      && 1 in s.sessions && s.sessions[1] == Session(1, 1, {1}, {}, SEQ_UNINIT)
      && 2 in s.sessions && s.sessions[2].lastCommitted == 2 && s.sessions[2].sessionParent == 1
      && s.t.hist.start >= 0
  {
    AfterDdl();
    RunKeeps(WritesetSessionMode, AFTER_DDL);
    RunNext(WritesetSessionMode, AFTER_DDL, Prepare(2));
  }

  lemma AfterAdmin()
    ensures Legal(WritesetSessionMode, AFTER_ADMIN)
    ensures
      var s := Run(WritesetSessionMode, AFTER_ADMIN);
      && s.t.mode == WritesetSessionMode && s.t.maxHistorySize == 25000
      && s.t.order == CommitOrder(Clock(2, 1), Clock(3, 1), 3)
      && |s.file| == 2
      && s.file[0].trx == DDL_TRX && s.file[0].stamp == Stamp(1, 0)
      && s.file[1].trx == ADMIN_TRX && s.file[1].stamp == Stamp(2, 1)
      && 1 in s.sessions && s.sessions[1] == Session(1, 1, {1}, {}, SEQ_UNINIT)
      && s.t.hist.start >= 0
  {
    BeforeAdmin();
    AdminIsEnabled(Run(WritesetSessionMode, BEFORE_ADMIN));
    RunNext(WritesetSessionMode, BEFORE_ADMIN, Flush(2, ADMIN_TRX));
  }

  lemma AdminIsEnabled(s: State)
    requires |s.file| == 1 && s.file[0].trx == DDL_TRX
    ensures Enabled(s, Flush(2, ADMIN_TRX))
  {
  }

  lemma LastIsEnabled(s: State)
    requires |s.file| == 2 && s.file[0].trx == DDL_TRX && s.file[1].trx == ADMIN_TRX
    ensures Enabled(s, Flush(1, LAST_TRX))
  {
  }

  lemma LastEntry(s: State)
    requires s.t.mode == WritesetSessionMode && s.t.order == CommitOrder(Clock(2, 1), Clock(3, 1), 3)
    requires s.t.hist.start >= 0 && 1 in s.sessions && s.sessions[1] == Session(1, 1, {1}, {}, SEQ_UNINIT)
    ensures Entry(s, 1, LAST_TRX).stamp == Stamp(3, 1) && Entry(s, 1, LAST_TRX).trx == LAST_TRX
  {
    assert Entry(s, 1, LAST_TRX).orderParent == SEQ_UNINIT;
  }

  lemma BothChangeTheRow()
    ensures Conflict(ADMIN_TRX, LAST_TRX)
  {
    var row := OpOnCommonRow(0).row;
    assert ADMIN_TRX.ops[0].row == row && LAST_TRX.ops[0].row == row;
    assert Touches(ADMIN_TRX.ops, row) && Touches(LAST_TRX.ops, row);
  }

  // An admin statement and a later transaction that does not wait for it.
  lemma LostAdminStatement()
    ensures Legal(WritesetSessionMode, LOST_ADMIN_RUN)
    ensures
      var file := Run(WritesetSessionMode, LOST_ADMIN_RUN).file;
      && |file| == 3
      && AdminStatement(file[1].trx) && Conflict(file[1].trx, file[2].trx)
      && file[0].stamp == Stamp(1, 0) && file[1].stamp == Stamp(2, 1) && file[2].stamp == Stamp(3, 1)
      && !Waits(file[1], file[2])
  {
    AfterAdmin();
    var s := Run(WritesetSessionMode, AFTER_ADMIN);
    LastIsEnabled(s);
    BothChangeTheRow();
    LastEntry(s);
    RunNext(WritesetSessionMode, AFTER_ADMIN, Flush(1, LAST_TRX));
  }
}
