/**
 Group commit: every interleaving of sessions going through the flush, sync and commit stages,
 of engine activity, and of rotation to a new file.
 */
module GroupCommit {
  import opened Basics
  import opened BinlogRecovery

  // syncPeriod is sync_binlog; orderCommits is binlog_order_commits.
  datatype Config = Config(syncPeriod: nat, orderCommits: bool)

  // A record in the engine's own log.
  datatype Record = Prepare(xid: Xid) | Commit(xid: Xid)

  // A binary log file by its groups: how many have left the server's buffer, how many are on
  // disk; the "in use" flag of its header, and whether its last change is on disk.
  datatype File = File(groups: seq<Group>, flushed: nat, synced: nat, inUse: bool, flagSettled: bool)

  // A transaction written to the log: the number of its file and its position in it.
  datatype Item = Item(group: Group, file: nat, end: nat)

  datatype Rotation = Draining | Drained | EngineFlushed | Ended | FlagCleared | Closed | Created(next: File)

  // Who holds the log lock, and how far it has got.
  datatype LogLock = LogFree | QueueFetched | Writing | Written | Rotating(phase: Rotation)

  // How far a rotation has got.
  function Progress(lock: LogLock): nat {
    if !lock.Rotating? then 0
    else match lock.phase
      case Draining => 0
      case Drained => 1
      case EngineFlushed => 2
      case Ended => 3
      case FlagCleared => 4
      case Closed => 5
      case Created(_) => 6
  }

  datatype SyncStage = SyncFree | Fetched | Synced | Published

  datatype State = State(
    redo: seq<Record>,
    redoSynced: nat,
    closed: seq<File>,
    cur: File,
    endPos: nat,
    prepXids: int,
    syncCounter: nat,
    flushQ: seq<Group>,
    logLock: LogLock,
    unwritten: seq<Group>,
    batch: seq<Item>,
    syncQ: seq<Item>,
    syncStage: SyncStage,
    syncing: seq<Item>,
    commitQ: seq<Item>,
    committing: seq<Item>,
    loose: seq<Item>,
    finishing: seq<Item>)

  datatype Step =
    | PrepareInEngine(xid: Xid)
    | EnrollFlush(group: Group)
    | FetchFlush
    | FlushEngine
    | Write
    | FlushCache
    | EnrollSync
    | FetchSync
    | Sync
    | PublishEnd
    | EnrollCommit
    | FetchCommit
    | CommitNext
    | CommitAlone(i: nat)
    | Finish
    | BeginRotate
    | Drain
    | FlushEngineForRotate
    | WriteRotateEvent(size: EventSize)
    | ClearInUse
    | CloseFile
    | CreateFile(header: seq<Group>)
    | AddToIndex

  function NewFile(header: seq<Group>): File {
    File(header, |header|, |header|, true, true)
  }

  function Init(header: seq<Group>): State {
    State([], 0, [], NewFile(header), |header|, 0, 0, [], LogFree, [], [], [], SyncFree, [], [], [], [], [])
  }

  function IsPending(it: Item): nat {
    if it.group.Xid().Some? then 1 else 0
  }

  // What flushing one session's cache writes, and the counter of prepared transactions.
  function Written1(s: State): State
    requires s.unwritten != []
  {
    var g := s.unwritten[0];
    var it := Item(g, |s.closed|, |s.cur.groups| + 1);
    s.(unwritten := s.unwritten[1..], cur := s.cur.(groups := s.cur.groups + [g]),
       batch := s.batch + [it], prepXids := s.prepXids + IsPending(it))
  }

  // The sync stage syncs every syncPeriod-th time; the file may be closed by a rotation.
  function SyncedFile(cfg: Config, s: State): State {
    var due := cfg.syncPeriod != 0 && s.syncCounter + 1 >= cfg.syncPeriod;
    var isOpen := Progress(s.logLock) < 5;
    s.(syncCounter := if due then 0 else if cfg.syncPeriod != 0 then s.syncCounter + 1 else s.syncCounter,
       cur := if due && isOpen then s.cur.(synced := s.cur.flushed) else s.cur)
  }

  // Readers of the active file learn of the end of the last transaction of the stage.
  function PublishedEnd(s: State): State
    requires s.syncing != []
  {
    var last := s.syncing[|s.syncing| - 1];
    if last.file == |s.closed| && last.end > s.endPos then s.(endPos := last.end) else s
  }

  function InEngine(redo: seq<Record>, it: Item): seq<Record> {
    if it.group.Xid().Some? then redo + [Commit(it.group.Xid().value)] else redo
  }

  function CommittedNext(s: State): State
    requires s.committing != []
  {
    var it := s.committing[0];
    s.(redo := InEngine(s.redo, it), committing := s.committing[1..], finishing := s.finishing + [it])
  }

  function CommittedAlone(s: State, i: nat): State
    requires i < |s.loose|
  {
    var it := s.loose[i];
    s.(redo := InEngine(s.redo, it), loose := s.loose[..i] + s.loose[i + 1..], finishing := s.finishing + [it])
  }

  function Finished(s: State): State
    requires s.finishing != []
  {
    s.(prepXids := s.prepXids - IsPending(s.finishing[0]), finishing := s.finishing[1..])
  }

  ghost predicate Enabled(cfg: Config, s: State, step: Step) {
    match step
    case PrepareInEngine(_) => true
    case EnrollFlush(g) => g.WellFormed() && (g.Xid().Some? ==> IsPrepared(s.redo, |s.redo|, g.Xid().value))
    case FetchFlush => s.logLock.LogFree? && s.flushQ != []
    case FlushEngine => s.logLock.QueueFetched?
    case Write => s.logLock.Writing? && s.unwritten != []
    case FlushCache => s.logLock.Writing? && s.unwritten == []
    case EnrollSync => s.logLock.Written?
    case FetchSync => s.syncStage.SyncFree? && s.syncQ != []
    case Sync => s.syncStage.Fetched?
    case PublishEnd => s.syncStage.Synced? && s.syncing != []
    case EnrollCommit => s.syncStage.Published?
    case FetchCommit => s.committing == [] && s.finishing == [] && s.commitQ != []
    case CommitNext => s.committing != []
    case CommitAlone(i) => i < |s.loose|
    case Finish => s.committing == [] && s.finishing != []
    case BeginRotate => s.logLock.LogFree?
    case Drain => s.logLock == Rotating(Draining) && s.prepXids == 0
    case FlushEngineForRotate => s.logLock == Rotating(Drained)
    case WriteRotateEvent(_) => s.logLock == Rotating(EngineFlushed)
    case ClearInUse => s.logLock == Rotating(Ended)
    case CloseFile => s.logLock == Rotating(FlagCleared)
    case CreateFile(header) => s.logLock == Rotating(Closed) && IsHeader(header)
    case AddToIndex => s.logLock.Rotating? && s.logLock.phase.Created?
  }

  // A file begins with groups that commit nothing in the engine.
  ghost predicate IsHeader(header: seq<Group>) {
    forall k :: 0 <= k < |header| ==> header[k].WellFormed() && header[k].Xid().None?
  }

  function Next(cfg: Config, s: State, step: Step): State
    requires Enabled(cfg, s, step)
  {
    match step
    case PrepareInEngine(x) => s.(redo := s.redo + [Prepare(x)])
    case EnrollFlush(g) => s.(flushQ := s.flushQ + [g])
    case FetchFlush => s.(logLock := QueueFetched, unwritten := s.flushQ, flushQ := [])
    case FlushEngine => s.(logLock := Writing, redoSynced := |s.redo|)
    case Write => Written1(s)
    case FlushCache =>
      var end := |s.cur.groups|;
      s.(logLock := Written, cur := s.cur.(flushed := end), endPos := if cfg.syncPeriod == 1 then s.endPos else end)
    case EnrollSync => s.(logLock := LogFree, syncQ := s.syncQ + s.batch, batch := [])
    case FetchSync => s.(syncStage := Fetched, syncing := s.syncQ, syncQ := [])
    case Sync => SyncedFile(cfg, s).(syncStage := Synced)
    case PublishEnd => (if cfg.syncPeriod == 1 then PublishedEnd(s) else s).(syncStage := Published)
    case EnrollCommit =>
      if cfg.orderCommits then s.(syncStage := SyncFree, commitQ := s.commitQ + s.syncing, syncing := [])
      else s.(syncStage := SyncFree, loose := s.loose + s.syncing, syncing := [])
    case FetchCommit => s.(committing := s.commitQ, commitQ := [])
    case CommitNext => CommittedNext(s)
    case CommitAlone(i) => CommittedAlone(s, i)
    case Finish => Finished(s)
    case BeginRotate => s.(logLock := Rotating(Draining))
    case Drain => s.(logLock := Rotating(Drained))
    case FlushEngineForRotate => s.(logLock := Rotating(EngineFlushed), redoSynced := |s.redo|)
    case WriteRotateEvent(size) =>
      var groups := s.cur.groups + [Single(None, Other(size))];
      s.(logLock := Rotating(Ended), cur := s.cur.(groups := groups, flushed := |groups|))
    case ClearInUse => s.(logLock := Rotating(FlagCleared), cur := s.cur.(inUse := false, flagSettled := false))
    case CloseFile =>
      s.(logLock := Rotating(Closed),
         cur := s.cur.(flushed := |s.cur.groups|, synced := |s.cur.groups|, flagSettled := true))
    case CreateFile(header) => s.(logLock := Rotating(Created(NewFile(header))))
    case AddToIndex =>
      var next := s.logLock.phase.next;
      s.(logLock := LogFree, closed := s.closed + [s.cur], cur := next, endPos := |next.groups|)
  }

  ghost predicate Legal(cfg: Config, header: seq<Group>, steps: seq<Step>) {
    if steps == [] then IsHeader(header)
    else
      var n := |steps| - 1;
      Legal(cfg, header, steps[..n]) && Enabled(cfg, Run(cfg, header, steps[..n]), steps[n])
  }

  ghost function Run(cfg: Config, header: seq<Group>, steps: seq<Step>): State {
    if steps == [] then Init(header)
    else
      var n := |steps| - 1;
      var s := Run(cfg, header, steps[..n]);
      if Enabled(cfg, s, steps[n]) then Next(cfg, s, steps[n]) else s
  }

  /******* What the logs hold *******/

  // Among the first n records.
  ghost predicate IsPrepared(redo: seq<Record>, n: nat, x: Xid) {
    exists k :: 0 <= k < n && k < |redo| && redo[k] == Prepare(x)
  }

  ghost predicate IsCommitted(redo: seq<Record>, n: nat, x: Xid) {
    exists k :: 0 <= k < n && k < |redo| && redo[k] == Commit(x)
  }

  ghost predicate InClosed(closed: seq<File>, x: Xid) {
    exists f :: 0 <= f < |closed| && HasXid(closed[f].groups, |closed[f].groups|, x)
  }

  // The engine's commits in the order in which it made them.
  function Commits(redo: seq<Record>): seq<Xid> {
    if redo == [] then []
    else
      var n := |redo| - 1;
      Commits(redo[..n]) + if redo[n].Commit? then [redo[n].xid] else []
  }

  function OneXid(g: Group): seq<Xid> {
    if g.Xid().Some? then [g.Xid().value] else []
  }

  // The transactions of a file in the order in which they were written.
  function LogXids(groups: seq<Group>): seq<Xid> {
    if groups == [] then [] else LogXids(groups[..|groups| - 1]) + OneXid(groups[|groups| - 1])
  }

  function FilesXids(files: seq<File>): seq<Xid> {
    if files == [] then [] else FilesXids(files[..|files| - 1]) + LogXids(files[|files| - 1].groups)
  }

  // The binary log in write order.
  function Logged(s: State): seq<Xid> {
    FilesXids(s.closed) + LogXids(s.cur.groups)
  }

  function ItemXids(items: seq<Item>): seq<Xid> {
    if items == [] then [] else ItemXids(items[..|items| - 1]) + OneXid(items[|items| - 1].group)
  }

  lemma ItemXidsAppend(items: seq<Item>, it: Item)
    ensures ItemXids(items + [it]) == ItemXids(items) + OneXid(it.group)
  {
    assert (items + [it])[..|items|] == items;
  }

  lemma {:induction false} ItemXidsConcat(a: seq<Item>, b: seq<Item>)
    ensures ItemXids(a + b) == ItemXids(a) + ItemXids(b)
  {
    if b == [] {
      assert a + b == a;
    } else {
      var init, last := b[..|b| - 1], b[|b| - 1];
      ItemXidsConcat(a, init);
      assert a + b == (a + init) + [last];
      ItemXidsAppend(a + init, last);
      JoinXids(ItemXids(a), ItemXids(init), OneXid(last.group));
    }
  }

  lemma JoinXids(a: seq<Xid>, b: seq<Xid>, c: seq<Xid>)
    ensures a + b + c == a + (b + c)
  {
  }

  lemma ItemXidsOne(it: Item)
    ensures ItemXids([it]) == OneXid(it.group)
  {
    assert [it][..0] == [];
  }

  lemma ItemXidsHead(items: seq<Item>)
    requires items != []
    ensures ItemXids(items) == OneXid(items[0].group) + ItemXids(items[1..])
  {
    assert items == [items[0]] + items[1..];
    ItemXidsOne(items[0]);
    ItemXidsConcat([items[0]], items[1..]);
  }

  function Joined(a: seq<Xid>, b: seq<Xid>, c: seq<Xid>, d: seq<Xid>, e: seq<Xid>, f: seq<Xid>): seq<Xid> {
    a + b + c + d + e + f
  }

  // Logged and not yet committed in the engine, oldest first.
  function InFlight(s: State): seq<Xid> {
    Joined(ItemXids(s.committing), ItemXids(s.commitQ), ItemXids(s.loose), ItemXids(s.syncing),
           ItemXids(s.syncQ), ItemXids(s.batch))
  }

  /******* Order and conservation *******/

  // The shape of the stages: only the leader of a stage has items in hand.
  ghost predicate Stages(cfg: Config, s: State) {
    && (s.syncStage.SyncFree? <==> s.syncing == [])
    && (s.batch != [] ==> s.logLock.Writing? || s.logLock.Written?)
    && (cfg.orderCommits ==> s.loose == [])
    && (s.logLock.Rotating? && s.logLock.phase.Created? ==>
      s.logLock.phase.next == NewFile(s.logLock.phase.next.groups) && IsHeader(s.logLock.phase.next.groups))
  }

  // Nothing is lost or committed twice; in order, if commits are ordered.
  ghost predicate Conserved(cfg: Config, s: State) {
    && multiset(Commits(s.redo)) + multiset(InFlight(s)) == multiset(Logged(s))
    && (cfg.orderCommits ==> Commits(s.redo) + InFlight(s) == Logged(s))
  }

  // The counter of prepared transactions counts those logged and not yet finished.
  ghost predicate Counted(s: State) {
    s.prepXids == |InFlight(s)| + |ItemXids(s.finishing)|
  }

  lemma {:induction false} HeaderHasNoXids(header: seq<Group>)
    requires IsHeader(header)
    ensures LogXids(header) == []
  {
    if header != [] {
      HeaderHasNoXids(header[..|header| - 1]);
    }
  }

  lemma CommitsAppend(redo: seq<Record>, r: Record)
    ensures Commits(redo + [r]) == Commits(redo) + if r.Commit? then [r.xid] else []
  {
    assert (redo + [r])[..|redo|] == redo;
  }

  lemma LogXidsAppend(groups: seq<Group>, g: Group)
    ensures LogXids(groups + [g]) == LogXids(groups) + OneXid(g)
  {
    assert (groups + [g])[..|groups|] == groups;
  }

  lemma FilesXidsAppend(files: seq<File>, f: File)
    ensures FilesXids(files + [f]) == FilesXids(files) + LogXids(f.groups)
  {
    assert (files + [f])[..|files|] == files;
  }

  lemma EngineCommits(redo: seq<Record>, it: Item)
    ensures Commits(InEngine(redo, it)) == Commits(redo) + OneXid(it.group)
  {
    if it.group.Xid().Some? {
      CommitsAppend(redo, Commit(it.group.Xid().value));
    }
  }

  // Taking one item out of the middle of a list.
  lemma ItemXidsWithout(items: seq<Item>, i: nat)
    requires i < |items|
    ensures multiset(ItemXids(items)) ==
      multiset(ItemXids(items[..i] + items[i + 1..])) + multiset(OneXid(items[i].group))
    ensures |ItemXids(items)| == |ItemXids(items[..i] + items[i + 1..])| + |OneXid(items[i].group)|
  {
    assert items == items[..i] + ([items[i]] + items[i + 1..]);
    ItemXidsConcat(items[..i], [items[i]] + items[i + 1..]);
    ItemXidsConcat([items[i]], items[i + 1..]);
    ItemXidsOne(items[i]);
    ItemXidsConcat(items[..i], items[i + 1..]);
  }

  // How a step changes what is committed, in flight, finishing and logged.
  datatype Flow = Nothing | Logs(g: Group) | Commits1(g: Group) | Finishes(g: Group)

  function FlowOf(s: State, step: Step): Flow {
    match step
    case Write => if s.unwritten != [] then Logs(s.unwritten[0]) else Nothing
    case CommitNext => if s.committing != [] then Commits1(s.committing[0].group) else Nothing
    case CommitAlone(i) => if i < |s.loose| then Commits1(s.loose[i].group) else Nothing
    case Finish => if s.finishing != [] then Finishes(s.finishing[0].group) else Nothing
    case _ => Nothing
  }

  lemma LoggedFlow(cfg: Config, s: State, step: Step)
    requires Stages(cfg, s) && Enabled(cfg, s, step)
    ensures Logged(Next(cfg, s, step)) ==
      (if FlowOf(s, step).Logs? then Logged(s) + OneXid(FlowOf(s, step).g) else Logged(s))
  {
    match step {
      case Write => LogXidsAppend(s.cur.groups, s.unwritten[0]);
      case WriteRotateEvent(size) => RotateEventLogs(cfg, s, size);
      case AddToIndex => NewFileLogs(cfg, s);
      case _ => LogFrame(cfg, s, step);
    }
  }

  lemma RotateEventLogs(cfg: Config, s: State, size: EventSize)
    requires Enabled(cfg, s, WriteRotateEvent(size))
    ensures Logged(Next(cfg, s, WriteRotateEvent(size))) == Logged(s)
  {
    LogXidsAppend(s.cur.groups, Single(None, Other(size)));
    assert LogXids(Next(cfg, s, WriteRotateEvent(size)).cur.groups) == LogXids(s.cur.groups);
  }

  lemma NewFileLogs(cfg: Config, s: State)
    requires Stages(cfg, s) && Enabled(cfg, s, AddToIndex)
    ensures Logged(Next(cfg, s, AddToIndex)) == Logged(s)
  {
    FilesXidsAppend(s.closed, s.cur);
    HeaderHasNoXids(s.logLock.phase.next.groups);
  }

  lemma LogFrame(cfg: Config, s: State, step: Step)
    requires Enabled(cfg, s, step)
    requires !step.Write? && !step.WriteRotateEvent? && !step.AddToIndex?
    ensures Next(cfg, s, step).closed == s.closed && Next(cfg, s, step).cur.groups == s.cur.groups
  {
  }

  lemma CommitsFlow(cfg: Config, s: State, step: Step)
    requires Enabled(cfg, s, step)
    ensures Commits(Next(cfg, s, step).redo) ==
      (if FlowOf(s, step).Commits1? then Commits(s.redo) + OneXid(FlowOf(s, step).g) else Commits(s.redo))
  {
    match step {
      case PrepareInEngine(x) => CommitsAppend(s.redo, Prepare(x));
      case CommitNext => EngineCommits(s.redo, s.committing[0]);
      case CommitAlone(i) => EngineCommits(s.redo, s.loose[i]);
      case _ =>
    }
  }

  lemma JoinedHead(x: seq<Xid>, a: seq<Xid>, b: seq<Xid>, c: seq<Xid>, d: seq<Xid>, e: seq<Xid>, f: seq<Xid>)
    ensures x + Joined(a, b, c, d, e, f) == Joined(x + a, b, c, d, e, f)
  {
    assert x + (a + b) == x + a + b;
    assert x + (a + b + c) == x + (a + b) + c;
    assert x + (a + b + c + d) == x + (a + b + c) + d;
    assert x + (a + b + c + d + e) == x + (a + b + c + d) + e;
  }

  lemma JoinedTail(a: seq<Xid>, b: seq<Xid>, c: seq<Xid>, d: seq<Xid>, e: seq<Xid>, f: seq<Xid>)
    ensures Joined(a, b, c, d, e + f, []) == Joined(a, b, c, d, e, f)
  {
    var init := a + b + c + d;
    assert init + (e + f) == init + e + f;
  }

  lemma JoinedOrdered(a: seq<Xid>, b: seq<Xid>, d: seq<Xid>, e: seq<Xid>, f: seq<Xid>)
    ensures Joined(a, b + d, [], [], e, f) == Joined(a, b, [], d, e, f)
  {
    assert a + (b + d) + [] + [] == a + b + [] + d;
  }

  lemma JoinedLoose(a: seq<Xid>, b: seq<Xid>, c: seq<Xid>, d: seq<Xid>, e: seq<Xid>, f: seq<Xid>)
    ensures Joined(a, b, c + d, [], e, f) == Joined(a, b, c, d, e, f)
  {
    var ab := a + b;
    assert ab + (c + d) + [] == ab + c + d;
  }

  lemma JoinedFetched(a: seq<Xid>, b: seq<Xid>, c: seq<Xid>, e: seq<Xid>, f: seq<Xid>)
    ensures Joined(a, b, c, e, [], f) == Joined(a, b, c, [], e, f)
  {
    var abc := a + b + c;
    assert abc + e + [] == abc + [] + e;
  }

  lemma JoinedWithout(
    a: seq<Xid>, b: seq<Xid>, c: seq<Xid>, c': seq<Xid>, x: seq<Xid>, d: seq<Xid>, e: seq<Xid>, f: seq<Xid>)
    requires multiset(c) == multiset(c') + multiset(x) && |c| == |c'| + |x|
    ensures multiset(Joined(a, b, c', d, e, f)) + multiset(x) == multiset(Joined(a, b, c, d, e, f))
    ensures |Joined(a, b, c', d, e, f)| + |x| == |Joined(a, b, c, d, e, f)|
  {
  }

  lemma EnrollSyncKeepsFlight(cfg: Config, s: State)
    requires Enabled(cfg, s, EnrollSync)
    ensures InFlight(Next(cfg, s, EnrollSync)) == InFlight(s)
  {
    ItemXidsConcat(s.syncQ, s.batch);
    JoinedTail(ItemXids(s.committing), ItemXids(s.commitQ), ItemXids(s.loose), ItemXids(s.syncing),
               ItemXids(s.syncQ), ItemXids(s.batch));
  }

  lemma EnrollCommitKeepsFlight(cfg: Config, s: State)
    requires Stages(cfg, s) && Enabled(cfg, s, EnrollCommit)
    ensures InFlight(Next(cfg, s, EnrollCommit)) == InFlight(s)
  {
    if cfg.orderCommits {
      ItemXidsConcat(s.commitQ, s.syncing);
      JoinedOrdered(ItemXids(s.committing), ItemXids(s.commitQ), ItemXids(s.syncing), ItemXids(s.syncQ),
                    ItemXids(s.batch));
    } else {
      ItemXidsConcat(s.loose, s.syncing);
      JoinedLoose(ItemXids(s.committing) , ItemXids(s.commitQ), ItemXids(s.loose), ItemXids(s.syncing),
                  ItemXids(s.syncQ), ItemXids(s.batch));
    }
  }

  // How the transactions in flight may change in such a step, as a set so that a proof can pass
  // one on whole.
  ghost function InFlightFlows(cfg: Config, flow: Flow): iset<(seq<Xid>, seq<Xid>)> {
    match flow
    case Logs(g) => iset a: seq<Xid>, b: seq<Xid> | b == a + OneXid(g) :: (a, b)
    case Commits1(g) =>
      iset a: seq<Xid>, b: seq<Xid> |
        && multiset(OneXid(g)) + multiset(b) == multiset(a) && |OneXid(g)| + |b| == |a|
        && (cfg.orderCommits ==> OneXid(g) + b == a) :: (a, b)
    case _ => iset a: seq<Xid>, b: seq<Xid> | b == a :: (a, b)
  }

  lemma LogsTail(cfg: Config, g: Group, a: seq<Xid>, b: seq<Xid>)
    requires b == a + OneXid(g)
    ensures (a, b) in InFlightFlows(cfg, Logs(g))
  {
  }

  lemma CommitsHead(cfg: Config, g: Group, a: seq<Xid>, b: seq<Xid>)
    requires OneXid(g) + b == a
    ensures (a, b) in InFlightFlows(cfg, Commits1(g))
  {
  }

  lemma CommitsAny(cfg: Config, g: Group, a: seq<Xid>, b: seq<Xid>)
    requires !cfg.orderCommits && multiset(b) + multiset(OneXid(g)) == multiset(a) && |b| + |OneXid(g)| == |a|
    ensures (a, b) in InFlightFlows(cfg, Commits1(g))
  {
  }

  lemma InFlightWrites(cfg: Config, s: State)
    requires Enabled(cfg, s, Write)
    ensures InFlight(Next(cfg, s, Write)) == InFlight(s) + OneXid(s.unwritten[0])
  {
    ItemXidsAppend(s.batch, Item(s.unwritten[0], |s.closed|, |s.cur.groups| + 1));
  }

  lemma InFlightCommits(cfg: Config, s: State)
    requires Enabled(cfg, s, CommitNext)
    ensures OneXid(s.committing[0].group) + InFlight(Next(cfg, s, CommitNext)) == InFlight(s)
  {
    ItemXidsHead(s.committing);
    JoinedHead(OneXid(s.committing[0].group), ItemXids(s.committing[1..]), ItemXids(s.commitQ), ItemXids(s.loose),
               ItemXids(s.syncing), ItemXids(s.syncQ), ItemXids(s.batch));
  }

  lemma InFlightCommitsAlone(cfg: Config, s: State, i: nat)
    requires Enabled(cfg, s, CommitAlone(i))
    ensures multiset(InFlight(Next(cfg, s, CommitAlone(i)))) + multiset(OneXid(s.loose[i].group)) ==
      multiset(InFlight(s))
    ensures |InFlight(Next(cfg, s, CommitAlone(i)))| + |OneXid(s.loose[i].group)| == |InFlight(s)|
  {
    ItemXidsWithout(s.loose, i);
    JoinedWithout(ItemXids(s.committing), ItemXids(s.commitQ),
                  ItemXids(s.loose), ItemXids(s.loose[..i] + s.loose[i + 1..]), OneXid(s.loose[i].group),
                  ItemXids(s.syncing), ItemXids(s.syncQ), ItemXids(s.batch));
  }

  lemma WriteFlow(cfg: Config, s: State)
    requires Enabled(cfg, s, Write)
    ensures (InFlight(s), InFlight(Next(cfg, s, Write))) in InFlightFlows(cfg, Logs(s.unwritten[0]))
  {
    InFlightWrites(cfg, s);
    LogsTail(cfg, s.unwritten[0], InFlight(s), InFlight(Next(cfg, s, Write)));
  }

  lemma CommitFlow(cfg: Config, s: State)
    requires Enabled(cfg, s, CommitNext)
    ensures (InFlight(s), InFlight(Next(cfg, s, CommitNext))) in InFlightFlows(cfg, Commits1(s.committing[0].group))
  {
    InFlightCommits(cfg, s);
    CommitsHead(cfg, s.committing[0].group, InFlight(s), InFlight(Next(cfg, s, CommitNext)));
  }

  lemma CommitAloneFlow(cfg: Config, s: State, i: nat)
    requires Stages(cfg, s) && Enabled(cfg, s, CommitAlone(i))
    ensures (InFlight(s), InFlight(Next(cfg, s, CommitAlone(i)))) in InFlightFlows(cfg, Commits1(s.loose[i].group))
  {
    InFlightCommitsAlone(cfg, s, i);
    CommitsAny(cfg, s.loose[i].group, InFlight(s), InFlight(Next(cfg, s, CommitAlone(i))));
  }

  lemma InFlightFlow(cfg: Config, s: State, step: Step)
    requires Stages(cfg, s) && Enabled(cfg, s, step)
    ensures (InFlight(s), InFlight(Next(cfg, s, step))) in InFlightFlows(cfg, FlowOf(s, step))
  {
    match step {
      case Write => WriteFlow(cfg, s);
      case CommitNext => CommitFlow(cfg, s);
      case CommitAlone(i) => CommitAloneFlow(cfg, s, i);
      case _ => FlightIsKept(cfg, s, step);
    }
  }

  // Moving between queues keeps the order of what is in flight.
  lemma FlightIsKept(cfg: Config, s: State, step: Step)
    requires Stages(cfg, s) && Enabled(cfg, s, step)
    requires !step.Write? && !step.CommitNext? && !step.CommitAlone?
    ensures InFlight(Next(cfg, s, step)) == InFlight(s)
  {
    var s' := Next(cfg, s, step);
    match step {
      case EnrollSync => EnrollSyncKeepsFlight(cfg, s);
      case EnrollCommit => EnrollCommitKeepsFlight(cfg, s);
      case FetchSync => FetchSyncKeepsFlight(cfg, s);
      case FetchCommit => FetchCommitKeepsFlight(cfg, s);
      case _ =>
        QueueFrame(cfg, s, step);
        SameQueues(s, s');
    }
  }

  lemma QueueFrame(cfg: Config, s: State, step: Step)
    requires Enabled(cfg, s, step)
    requires !step.Write? && !step.CommitNext? && !step.CommitAlone? && !step.EnrollSync? && !step.EnrollCommit?
    requires !step.FetchSync? && !step.FetchCommit?
    ensures
      var s' := Next(cfg, s, step);
      && s'.committing == s.committing && s'.commitQ == s.commitQ && s'.loose == s.loose
      && s'.syncing == s.syncing && s'.syncQ == s.syncQ && s'.batch == s.batch
  {
  }

  lemma FetchSyncKeepsFlight(cfg: Config, s: State)
    requires Stages(cfg, s) && Enabled(cfg, s, FetchSync)
    ensures InFlight(Next(cfg, s, FetchSync)) == InFlight(s)
  {
    JoinedFetched(ItemXids(s.committing), ItemXids(s.commitQ), ItemXids(s.loose), ItemXids(s.syncQ), ItemXids(s.batch));
  }

  lemma FetchCommitKeepsFlight(cfg: Config, s: State)
    requires Enabled(cfg, s, FetchCommit)
    ensures InFlight(Next(cfg, s, FetchCommit)) == InFlight(s)
  {
    var b := ItemXids(s.commitQ);
    assert b + [] == [] + b;
  }

  lemma SameQueues(s: State, s': State)
    requires s'.committing == s.committing && s'.commitQ == s.commitQ && s'.loose == s.loose
    requires s'.syncing == s.syncing && s'.syncQ == s.syncQ && s'.batch == s.batch
    ensures InFlight(s') == InFlight(s)
  {
  }

  lemma ConservedKeeps(cfg: Config, s: State, step: Step)
    requires Stages(cfg, s) && Conserved(cfg, s) && Enabled(cfg, s, step)
    ensures Conserved(cfg, Next(cfg, s, step))
  {
    LoggedFlow(cfg, s, step);
    CommitsFlow(cfg, s, step);
    InFlightFlow(cfg, s, step);
    var s' := Next(cfg, s, step);
    ConservedFlow(cfg, FlowOf(s, step), Commits(s.redo), InFlight(s), Logged(s),
                  Commits(s'.redo), InFlight(s'), Logged(s'));
  }

  lemma ConservedFlow(
    cfg: Config, flow: Flow, c: seq<Xid>, f: seq<Xid>, l: seq<Xid>, c': seq<Xid>, f': seq<Xid>, l': seq<Xid>)
    requires multiset(c) + multiset(f) == multiset(l) && (cfg.orderCommits ==> c + f == l)
    requires l' == if flow.Logs? then l + OneXid(flow.g) else l
    requires c' == if flow.Commits1? then c + OneXid(flow.g) else c
    requires (f, f') in InFlightFlows(cfg, flow)
    ensures multiset(c') + multiset(f') == multiset(l') && (cfg.orderCommits ==> c' + f' == l')
  {
    match flow {
      case Logs(g) => LogsFlow(cfg, c, f, OneXid(g), l);
      case Commits1(g) => CommitsOneFlow(cfg, c, f, f', OneXid(g), l);
      case _ =>
    }
  }

  lemma LogsFlow(cfg: Config, c: seq<Xid>, f: seq<Xid>, x: seq<Xid>, l: seq<Xid>)
    requires multiset(c) + multiset(f) == multiset(l) && (cfg.orderCommits ==> c + f == l)
    ensures multiset(c) + multiset(f + x) == multiset(l + x)
    ensures cfg.orderCommits ==> c + (f + x) == l + x
  {
    assert multiset(f + x) == multiset(f) + multiset(x);
    assert multiset(l + x) == multiset(l) + multiset(x);
    assert c + (f + x) == c + f + x;
  }

  lemma CommitsOneFlow(cfg: Config, c: seq<Xid>, f: seq<Xid>, f': seq<Xid>, x: seq<Xid>, l: seq<Xid>)
    requires multiset(c) + multiset(f) == multiset(l) && (cfg.orderCommits ==> c + f == l)
    requires multiset(x) + multiset(f') == multiset(f) && (cfg.orderCommits ==> x + f' == f)
    ensures multiset(c + x) + multiset(f') == multiset(l)
    ensures cfg.orderCommits ==> c + x + f' == l
  {
    assert multiset(c + x) == multiset(c) + multiset(x);
    assert c + (x + f') == c + x + f';
  }

  lemma FinishingFlow(cfg: Config, s: State, step: Step)
    requires Enabled(cfg, s, step)
    ensures
      var a, b := |ItemXids(s.finishing)|, |ItemXids(Next(cfg, s, step).finishing)|;
      match FlowOf(s, step)
      case Commits1(g) => b == a + |OneXid(g)|
      case Finishes(g) => b == a - |OneXid(g)|
      case _ => b == a
  {
    match step {
      case CommitNext =>
        ItemXidsConcat(s.finishing, [s.committing[0]]);
        ItemXidsOne(s.committing[0]);
      case CommitAlone(i) =>
        ItemXidsConcat(s.finishing, [s.loose[i]]);
        ItemXidsOne(s.loose[i]);
      case Finish => ItemXidsHead(s.finishing);
      case _ =>
    }
  }

  lemma CounterFlow(cfg: Config, s: State, step: Step)
    requires Enabled(cfg, s, step)
    ensures
      var d := Next(cfg, s, step).prepXids - s.prepXids;
      match FlowOf(s, step)
      case Logs(g) => d == |OneXid(g)|
      case Finishes(g) => d == -|OneXid(g)|
      case _ => d == 0
  {
  }

  lemma CountedKeeps(cfg: Config, s: State, step: Step)
    requires Stages(cfg, s) && Counted(s) && Enabled(cfg, s, step)
    ensures Counted(Next(cfg, s, step))
  {
    InFlightFlow(cfg, s, step);
    FinishingFlow(cfg, s, step);
    CounterFlow(cfg, s, step);
    var s' := Next(cfg, s, step);
    assert match FlowOf(s, step)
      case Logs(g) => |InFlight(s')| == |InFlight(s)| + |OneXid(g)|
      case Commits1(g) => |OneXid(g)| + |InFlight(s')| == |InFlight(s)|
      case _ => |InFlight(s')| == |InFlight(s)|;
  }

  lemma CreatedKeeps(cfg: Config, s: State, step: Step)
    requires Stages(cfg, s) && Enabled(cfg, s, step) && Progress(Next(cfg, s, step).logLock) == 6
    ensures
      var next := Next(cfg, s, step).logLock.phase.next;
      next == NewFile(next.groups) && IsHeader(next.groups)
  {
  }

  lemma StagesKeep(cfg: Config, s: State, step: Step)
    requires Stages(cfg, s) && Enabled(cfg, s, step)
    ensures Stages(cfg, Next(cfg, s, step))
  {
    if Progress(Next(cfg, s, step).logLock) == 6 {
      CreatedKeeps(cfg, s, step);
    }
  }
}
