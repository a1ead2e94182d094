/**
 The transaction cache: events, the flags computed from them on the way, and the positions to
 which a statement or a savepoint can be rolled back.
 */
module TrxCache {
  import opened Basics

  type EventSize = n: nat | 0 < n witness 1

  // What the cache notes of an event. `xid` marks an XID event or an atomic DDL statement.
  datatype Event = Event(
    size: EventSize, sbr: bool, rbr: bool, startsGroup: bool, endsGroup: bool, xid: bool, immediate: bool)

  // The part of the cache's state that a rollback restores.
  datatype Flags = Flags(
    withSbr: bool, withRbr: bool, withStart: bool, withEnd: bool, withContent: bool, eventCounter: nat)

  type Savepoint = string

  // beforeStmtPos is None when it is MY_OFF_T_UNDEF. The map of saved states keeps entries of
  // positions that are no longer in use. `marks` and `statement` are history: the events at the
  // time a savepoint was set, or the statement began.
  datatype Cache = Cache(
    events: seq<Event>,
    pending: Option<Event>,
    flags: Flags,
    withXid: bool,
    immediate: bool,
    states: map<nat, Flags>,
    beforeStmtPos: Option<nat>,
    savepoints: map<Savepoint, nat>,
    marks: map<Savepoint, seq<Event>>,
    statement: seq<Event>)

  const NO_FLAGS := Flags(false, false, false, false, false, 0)

  function Empty(): Cache {
    Cache([], None, NO_FLAGS, false, false, map[], None, map[], map[], [])
  }

  function Bytes(events: seq<Event>): nat {
    if events == [] then 0 else Bytes(events[..|events| - 1]) + events[|events| - 1].size
  }

  function Noted(f: Flags, e: Event): Flags {
    Flags(f.withSbr || e.sbr, f.withRbr || e.rbr, f.withStart || e.startsGroup, f.withEnd || e.endsGroup,
          f.withContent || (!e.startsGroup && !e.endsGroup), f.eventCounter + 1)
  }

  // The flags that the events add up to.
  function FlagsOf(events: seq<Event>): Flags {
    if events == [] then NO_FLAGS else Noted(FlagsOf(events[..|events| - 1]), events[|events| - 1])
  }

  // What the flags say about the events.
  lemma {:induction false} FlagsMean(events: seq<Event>)
    ensures FlagsOf(events).withSbr <==> exists e :: e in events && e.sbr
    ensures FlagsOf(events).withRbr <==> exists e :: e in events && e.rbr
    ensures FlagsOf(events).withStart <==> exists e :: e in events && e.startsGroup
    ensures FlagsOf(events).withEnd <==> exists e :: e in events && e.endsGroup
    ensures FlagsOf(events).withContent <==> exists e :: e in events && !e.startsGroup && !e.endsGroup
    ensures FlagsOf(events).eventCounter == |events|
  {
    if events != [] {
      var init, last := events[..|events| - 1], events[|events| - 1];
      FlagsMean(init);
      assert last in events;
      assert forall e :: e in events <==> e in init || e == last;
    }
  }

  /******* Operations *******/

  function WriteEvent(c: Cache, e: Event): Cache {
    c.(events := c.events + [e], flags := Noted(c.flags, e),
       withXid := c.withXid || e.xid, immediate := c.immediate || e.immediate)
  }

  function FlushPending(c: Cache): Cache {
    if c.pending.Some? then WriteEvent(c, c.pending.value).(pending := None) else c
  }

  // Only positions after the first byte need an entry.
  function Checkpoint(c: Cache, pos: nat): Cache {
    if pos > 0 then c.(states := c.states[pos := c.flags]) else c
  }

  function StateRollback(c: Cache, pos: nat): Cache {
    if pos == 0 then c.(flags := NO_FLAGS)
    else if pos in c.states then c.(flags := c.states[pos])
    else c
  }

  // The events that end at or before the position.
  function Kept(events: seq<Event>, pos: nat): seq<Event> {
    if Bytes(events) <= pos then events else Kept(events[..|events| - 1], pos)
  }

  function Truncate(c: Cache, pos: nat): Cache {
    c.(events := Kept(c.events, pos), pending := None)
  }

  // The first event of a statement: its start can be returned to from now on.
  function StartStatement(c: Cache): Cache {
    if c.beforeStmtPos.Some? then c
    else Checkpoint(c, Bytes(c.events)).(beforeStmtPos := Some(Bytes(c.events)), statement := c.events)
  }

  function EndStatement(c: Cache): Cache {
    c.(beforeStmtPos := None)
  }

  function UpTo(savepoints: map<Savepoint, nat>, pos: nat): map<Savepoint, nat> {
    map n | n in savepoints && savepoints[n] <= pos :: savepoints[n]
  }

  // The server forgets the savepoints that were set after the position.
  function DropAfter(c: Cache, pos: nat): Cache {
    c.(savepoints := UpTo(c.savepoints, pos))
  }

  function RollbackStatement(c: Cache): Cache {
    if c.beforeStmtPos.None? then c.(pending := None)
    else
      var pos := c.beforeStmtPos.value;
      DropAfter(StateRollback(Truncate(c, pos), pos), pos).(beforeStmtPos := None, withXid := false)
  }

  // The position is taken after the SAVEPOINT statement has been written.
  function SetSavepoint(c: Cache, name: Savepoint, e: Event): Cache {
    var c1 := WriteEvent(FlushPending(c), e);
    var pos := Bytes(c1.events);
    Checkpoint(c1, pos).(savepoints := c1.savepoints[name := pos], marks := c1.marks[name := c1.events])
  }

  // A statement that began no earlier than the savepoint has no start any more.
  function RollbackTo(c: Cache, name: Savepoint): Cache
    requires name in c.savepoints
  {
    var pos := c.savepoints[name];
    DropAfter(StateRollback(Truncate(c, pos), pos), pos).(
      beforeStmtPos := if c.beforeStmtPos.Some? && c.beforeStmtPos.value < pos then c.beforeStmtPos else None)
  }

  function Release(c: Cache, name: Savepoint): Cache {
    c.(savepoints := map n | n in c.savepoints && n != name :: c.savepoints[n])
  }

  datatype Op =
    | Write(e: Event)
    | SetPending(e: Event)
    | Flush
    | Start
    | End
    | RollbackStmt
    | Save(name: Savepoint, e: Event)
    | RollbackToSave(name: Savepoint)
    | ReleaseSave(name: Savepoint)
    | Reset

  predicate Enabled(c: Cache, op: Op) {
    op.RollbackToSave? ==> op.name in c.savepoints
  }

  function Next(c: Cache, op: Op): Cache
    requires Enabled(c, op)
  {
    match op
    case Write(e) => WriteEvent(c, e)
    case SetPending(e) => c.(pending := Some(e))
    case Flush => FlushPending(c)
    case Start => StartStatement(c)
    case End => EndStatement(c)
    case RollbackStmt => RollbackStatement(c)
    case Save(n, e) => SetSavepoint(c, n, e)
    case RollbackToSave(n) => RollbackTo(c, n)
    case ReleaseSave(n) => Release(c, n)
    case Reset => Empty()
  }

  // The cache after a history of operations on cache c.
  ghost predicate Leads(c: Cache, ops: seq<Op>, c': Cache)
    decreases |ops|
  {
    if ops == [] then c' == c
    else
      var n := |ops| - 1;
      exists m :: Leads(c, ops[..n], m) && Enabled(m, ops[n]) && c' == Next(m, ops[n])
  }

  /******* Invariant *******/

  // The events up to a position that can be returned to, and the flags saved for it.
  ghost predicate Returnable(c: Cache, pos: nat, events: seq<Event>) {
    && events <= c.events && pos == Bytes(events)
    && (pos > 0 ==> pos in c.states && c.states[pos] == FlagsOf(events))
  }

  ghost predicate Inv(c: Cache) {
    && c.flags == FlagsOf(c.events)
    && (c.beforeStmtPos.Some? ==> Returnable(c, c.beforeStmtPos.value, c.statement))
    && (forall n :: n in c.savepoints ==> n in c.marks && Returnable(c, c.savepoints[n], c.marks[n]))
  }

  lemma NotedIsComputed(events: seq<Event>, e: Event)
    ensures Noted(FlagsOf(events), e) == FlagsOf(events + [e])
  {
    assert (events + [e])[..|events|] == events;
  }

  lemma {:induction false} PrefixBytes(a: seq<Event>, b: seq<Event>)
    requires a <= b
    ensures Bytes(a) <= Bytes(b) && (|a| < |b| ==> Bytes(a) < Bytes(b))
  {
    if |a| < |b| {
      PrefixBytes(a, b[..|b| - 1]);
    } else {
      assert a == b;
    }
  }

  lemma {:induction false} KeptIsPrefix(a: seq<Event>, b: seq<Event>)
    requires a <= b
    ensures Kept(b, Bytes(a)) == a
  {
    PrefixBytes(a, b);
    if |a| < |b| {
      KeptIsPrefix(a, b[..|b| - 1]);
    } else {
      assert a == b;
    }
  }

  lemma WriteKeeps(c: Cache, e: Event)
    requires Inv(c)
    ensures Inv(WriteEvent(c, e))
  {
    NotedIsComputed(c.events, e);
  }

  // Saving the state of the whole cache overwrites at most the same state.
  lemma CheckpointKeeps(c: Cache)
    requires Inv(c)
    ensures Inv(Checkpoint(c, Bytes(c.events)))
    ensures Returnable(Checkpoint(c, Bytes(c.events)), Bytes(c.events), c.events)
  {
    var c' := Checkpoint(c, Bytes(c.events));
    if c.beforeStmtPos.Some? {
      SamePosition(c, c.statement);
    }
    forall n | n in c.savepoints
      ensures Returnable(c', c.savepoints[n], c.marks[n])
    {
      SamePosition(c, c.marks[n]);
    }
  }

  lemma SamePosition(c: Cache, events: seq<Event>)
    requires Inv(c) && Returnable(c, Bytes(events), events)
    ensures Returnable(Checkpoint(c, Bytes(c.events)), Bytes(events), events)
  {
    PrefixBytes(events, c.events);
    if |events| == |c.events| {
      assert events == c.events;
    }
  }

  // Going back restores the events, and the flags computed from them.
  lemma GoingBack(c: Cache, pos: nat, events: seq<Event>)
    requires Inv(c) && Returnable(c, pos, events)
    ensures
      var c' := StateRollback(Truncate(c, pos), pos);
      c'.events == events && c'.flags == FlagsOf(events)
  {
    KeptIsPrefix(events, c.events);
    if pos == 0 {
      PrefixBytes([], events);
      assert events == [];
    }
  }

  lemma {:induction false} ShorterPrefix(a: seq<Event>, b: seq<Event>, all: seq<Event>)
    requires a <= all && b <= all && Bytes(a) <= Bytes(b)
    ensures a <= b
  {
    if |a| <= |b| {
      assert a == all[..|a|] && b == all[..|b|];
      assert b[..|a|] == all[..|a|];
    } else {
      assert b == a[..|b|] by {
        assert a == all[..|a|] && b == all[..|b|];
      }
      PrefixBytes(b, a);
    }
  }

  // What was set earlier can still be returned to.
  lemma StillReturnable(c: Cache, c': Cache, pos: nat, events: seq<Event>)
    requires Returnable(c, pos, events) && c'.events <= c.events && c'.states == c.states
    requires pos <= Bytes(c'.events)
    ensures Returnable(c', pos, events)
  {
    ShorterPrefix(events, c'.events, c.events);
  }

  lemma RollbackStatementKeeps(c: Cache)
    requires Inv(c)
    ensures Inv(RollbackStatement(c))
  {
    if c.beforeStmtPos.Some? {
      GoingBack(c, c.beforeStmtPos.value, c.statement);
      EarlierReturnable(c, RollbackStatement(c), c.beforeStmtPos.value);
    }
  }

  lemma RollbackToKeeps(c: Cache, name: Savepoint)
    requires Inv(c) && name in c.savepoints
    ensures Inv(RollbackTo(c, name))
  {
    var c', pos := RollbackTo(c, name), c.savepoints[name];
    GoingBack(c, pos, c.marks[name]);
    EarlierReturnable(c, c', pos);
    if c'.beforeStmtPos.Some? {
      StillReturnable(c, c', c.beforeStmtPos.value, c.statement);
    }
  }

  // The savepoints set up to a position survive a return to it.
  lemma EarlierReturnable(c: Cache, c': Cache, pos: nat)
    requires Inv(c) && c'.events <= c.events && pos == Bytes(c'.events)
    requires c'.states == c.states && c'.marks == c.marks && c'.savepoints == UpTo(c.savepoints, pos)
    ensures forall n :: n in c'.savepoints ==> n in c'.marks && Returnable(c', c'.savepoints[n], c'.marks[n])
  {
    forall n | n in c'.savepoints
      ensures n in c'.marks && Returnable(c', c'.savepoints[n], c'.marks[n])
    {
      StillReturnable(c, c', c.savepoints[n], c.marks[n]);
    }
  }

  lemma FlushKeeps(c: Cache)
    requires Inv(c)
    ensures Inv(FlushPending(c))
  {
    if c.pending.Some? {
      WriteKeeps(c, c.pending.value);
    }
  }

  lemma SaveKeeps(c: Cache, name: Savepoint, e: Event)
    requires Inv(c)
    ensures Inv(SetSavepoint(c, name, e))
  {
    FlushKeeps(c);
    WriteKeeps(FlushPending(c), e);
    CheckpointKeeps(WriteEvent(FlushPending(c), e));
  }

  lemma StartKeeps(c: Cache)
    requires Inv(c)
    ensures Inv(StartStatement(c))
  {
    CheckpointKeeps(c);
  }

  lemma NextKeeps(c: Cache, op: Op)
    requires Inv(c) && Enabled(c, op)
    ensures Inv(Next(c, op))
  {
    match op {
      case Write(e) => WriteKeeps(c, e);
      case Flush => FlushKeeps(c);
      case Start => StartKeeps(c);
      case RollbackStmt => RollbackStatementKeeps(c);
      case Save(n, e) => SaveKeeps(c, n, e);
      case RollbackToSave(n) => RollbackToKeeps(c, n);
      case Reset => EmptyInv();
      case _ =>
    }
  }

  lemma EmptyInv()
    ensures Inv(Empty())
  {
  }

  lemma {:induction false} LeadsKeeps(c: Cache, ops: seq<Op>, c': Cache)
    requires Inv(c) && Leads(c, ops, c')
    ensures Inv(c')
    decreases |ops|
  {
    if ops != [] {
      var n := |ops| - 1;
      var m :| Leads(c, ops[..n], m) && Enabled(m, ops[n]) && c' == Next(m, ops[n]);
      LeadsKeeps(c, ops[..n], m);
      NextKeeps(m, ops[n]);
    }
  }

  /******* Histories *******/

  /**
   After any history the flags and the event counter are those of the events in the cache, and
   the start of the statement is undefined or lies within the cache.
   */
  lemma FlagsAreComputed(ops: seq<Op>, c: Cache)
    requires Leads(Empty(), ops, c)
    ensures c.flags.withSbr <==> exists e :: e in c.events && e.sbr
    ensures c.flags.withRbr <==> exists e :: e in c.events && e.rbr
    ensures c.flags.withStart <==> exists e :: e in c.events && e.startsGroup
    ensures c.flags.withEnd <==> exists e :: e in c.events && e.endsGroup
    ensures c.flags.withContent <==> exists e :: e in c.events && !e.startsGroup && !e.endsGroup
    ensures c.flags.eventCounter == |c.events|
    ensures c.beforeStmtPos.Some? ==> c.beforeStmtPos.value <= Bytes(c.events)
  {
    EmptyInv();
    LeadsKeeps(Empty(), ops, c);
    FlagsMean(c.events);
    if c.beforeStmtPos.Some? {
      PrefixBytes(c.statement, c.events);
    }
  }

  // No operation of the history sets the savepoint again.
  ghost predicate NotSet(ops: seq<Op>, name: Savepoint) {
    forall k :: 0 <= k < |ops| ==> !(ops[k].Save? && ops[k].name == name) && !ops[k].Reset?
  }

  lemma MarkNext(c: Cache, op: Op, name: Savepoint)
    requires Enabled(c, op) && name in c.marks && NotSet([op], name)
    ensures name in Next(c, op).marks && Next(c, op).marks[name] == c.marks[name]
  {
    assert !([op][0].Save? && [op][0].name == name) && ![op][0].Reset?;
  }

  lemma {:induction false} MarkStays(c: Cache, ops: seq<Op>, c': Cache, name: Savepoint)
    requires name in c.marks && Leads(c, ops, c') && NotSet(ops, name)
    ensures name in c'.marks && c'.marks[name] == c.marks[name]
    decreases |ops|
  {
    if ops != [] {
      var n := |ops| - 1;
      var m :| Leads(c, ops[..n], m) && Enabled(m, ops[n]) && c' == Next(m, ops[n]);
      MarkStays(c, ops[..n], m, name);
      MarkNext(m, ops[n], name);
    }
  }

  /**
   Whatever happens between setting a savepoint and rolling back to it while it is live, the
   cache is then as it was when the savepoint had just been set: events, flags and counter.
   */
  lemma SavepointRoundTrip(
    before: seq<Op>, c: Cache, name: Savepoint, e: Event, saved: Cache, between: seq<Op>, c': Cache)
    requires Leads(Empty(), before, c) && saved == SetSavepoint(c, name, e)
    requires Leads(saved, between, c') && NotSet(between, name)
    requires name in c'.savepoints
    ensures RollbackTo(c', name).events == saved.events
    ensures RollbackTo(c', name).flags == saved.flags
  {
    EmptyInv();
    LeadsKeeps(Empty(), before, c);
    SaveKeeps(c, name, e);
    SavedMark(c, name, e);
    LeadsKeeps(saved, between, c');
    MarkStays(saved, between, c', name);
    BackToMark(c', name, saved.events);
  }

  lemma SavedMark(c: Cache, name: Savepoint, e: Event)
    ensures name in SetSavepoint(c, name, e).marks
    ensures SetSavepoint(c, name, e).marks[name] == SetSavepoint(c, name, e).events
  {
  }

  lemma BackToMark(c: Cache, name: Savepoint, events: seq<Event>)
    requires Inv(c) && name in c.savepoints && c.marks[name] == events
    ensures RollbackTo(c, name).events == events && RollbackTo(c, name).flags == FlagsOf(events)
  {
    GoingBack(c, c.savepoints[name], events);
  }

  lemma BackToStatement(c: Cache, events: seq<Event>)
    requires Inv(c) && c.beforeStmtPos.Some? && c.statement == events
    ensures RollbackStatement(c).events == events && RollbackStatement(c).flags == FlagsOf(events)
  {
    GoingBack(c, c.beforeStmtPos.value, events);
  }

  predicate OutsideStatement(op: Op) {
    op.End? || op.RollbackStmt? || op.Reset? || op.RollbackToSave?
  }

  // Operations inside a statement, none of which ends it or goes back before it.
  ghost predicate WithinStatement(ops: seq<Op>) {
    forall k :: 0 <= k < |ops| ==> !OutsideStatement(ops[k])
  }

  lemma StatementNext(c: Cache, op: Op)
    requires Enabled(c, op) && c.beforeStmtPos.Some? && WithinStatement([op])
    ensures Next(c, op).beforeStmtPos == c.beforeStmtPos && Next(c, op).statement == c.statement
  {
    assert !OutsideStatement([op][0]);
  }

  lemma {:induction false} StatementStays(c: Cache, ops: seq<Op>, c': Cache)
    requires c.beforeStmtPos.Some? && Leads(c, ops, c') && WithinStatement(ops)
    ensures c'.beforeStmtPos == c.beforeStmtPos && c'.statement == c.statement
    decreases |ops|
  {
    if ops != [] {
      var n := |ops| - 1;
      var m :| Leads(c, ops[..n], m) && Enabled(m, ops[n]) && c' == Next(m, ops[n]);
      StatementStays(c, ops[..n], m);
      StatementNext(m, ops[n]);
    }
  }

  /**
   Rolling a statement back restores the cache to what it was when the statement began.
   */
  lemma StatementRoundTrip(before: seq<Op>, c: Cache, started: Cache, within: seq<Op>, c': Cache)
    requires Leads(Empty(), before, c) && c.beforeStmtPos.None? && started == StartStatement(c)
    requires Leads(started, within, c') && WithinStatement(within)
    ensures RollbackStatement(c').events == c.events
    ensures RollbackStatement(c').flags == c.flags
  {
    EmptyInv();
    LeadsKeeps(Empty(), before, c);
    StartKeeps(c);
    LeadsKeeps(started, within, c');
    StatementStays(started, within, c');
    BackToStatement(c', c.events);
  }

  /******* What gets into the cache *******/

  predicate GoesBack(op: Op) {
    op.RollbackStmt? || op.RollbackToSave? || op.Reset?
  }

  // The events that an operation writes, and what is pending after it.
  function Written(pending: Option<Event>, op: Op): (seq<Event>, Option<Event>) {
    var held := if pending.Some? then [pending.value] else [];
    match op
    case Write(e) => ([e], pending)
    case SetPending(e) => ([], Some(e))
    case Flush => (held, None)
    case Save(_, e) => (held + [e], None)
    case _ => ([], pending)
  }

  function AllWritten(pending: Option<Event>, ops: seq<Op>): (seq<Event>, Option<Event>) {
    if ops == [] then ([], pending)
    else
      var (events, held) := AllWritten(pending, ops[..|ops| - 1]);
      var (more, held') := Written(held, ops[|ops| - 1]);
      (events + more, held')
  }

  lemma WrittenNext(c: Cache, op: Op)
    requires Enabled(c, op) && !GoesBack(op)
    ensures Next(c, op).events == c.events + Written(c.pending, op).0 && Next(c, op).pending == Written(c.pending, op).1
  {
  }

  ghost predicate AnyXid(events: seq<Event>) {
    exists k :: 0 <= k < |events| && events[k].xid
  }

  ghost predicate AnyImmediate(events: seq<Event>) {
    exists k :: 0 <= k < |events| && events[k].immediate
  }

  lemma AnyConcat(a: seq<Event>, b: seq<Event>)
    ensures AnyXid(a + b) <==> AnyXid(a) || AnyXid(b)
    ensures AnyImmediate(a + b) <==> AnyImmediate(a) || AnyImmediate(b)
  {
    assert forall k :: 0 <= k < |a| ==> (a + b)[k] == a[k];
    assert forall k :: 0 <= k < |b| ==> (a + b)[|a| + k] == b[k];
  }

  lemma AnyOne(e: Event)
    ensures AnyXid([e]) == e.xid && AnyImmediate([e]) == e.immediate
    ensures !AnyXid([]) && !AnyImmediate([])
  {
    assert [e][0] == e;
  }

  lemma NotedNext(c: Cache, op: Op)
    requires Enabled(c, op) && !GoesBack(op)
    ensures Next(c, op).withXid <==> c.withXid || AnyXid(Written(c.pending, op).0)
    ensures Next(c, op).immediate <==> c.immediate || AnyImmediate(Written(c.pending, op).0)
  {
    if c.pending.Some? {
      AnyOne(c.pending.value);
    }
    match op {
      case Write(e) => AnyOne(e);
      case Save(_, e) =>
        AnyOne(e);
        AnyConcat(if c.pending.Some? then [c.pending.value] else [], [e]);
      case _ =>
    }
  }

  /**
   As long as nothing is rolled back the cache holds every event written, in order, and the marks for
   XID and immediate events are those of the events; a pending event comes in with the next flush or
   savepoint.
   */
  lemma {:induction false} NothingIsDropped(c: Cache, ops: seq<Op>, c': Cache)
    requires Leads(c, ops, c') && forall k :: 0 <= k < |ops| ==> !GoesBack(ops[k])
    ensures c'.events == c.events + AllWritten(c.pending, ops).0 && c'.pending == AllWritten(c.pending, ops).1
    ensures c'.withXid <==> c.withXid || AnyXid(AllWritten(c.pending, ops).0)
    ensures c'.immediate <==> c.immediate || AnyImmediate(AllWritten(c.pending, ops).0)
    decreases |ops|
  {
    if ops != [] {
      var n := |ops| - 1;
      var m :| Leads(c, ops[..n], m) && Enabled(m, ops[n]) && c' == Next(m, ops[n]);
      NothingIsDropped(c, ops[..n], m);
      assert !GoesBack(ops[n]);
      WrittenNext(m, ops[n]);
      NotedNext(m, ops[n]);
      AnyConcat(AllWritten(c.pending, ops[..n]).0, Written(m.pending, ops[n]).0);
      JoinEvents(c.events, AllWritten(c.pending, ops[..n]).0, Written(m.pending, ops[n]).0);
    }
  }

  lemma JoinEvents(a: seq<Event>, b: seq<Event>, c: seq<Event>)
    ensures a + b + c == a + (b + c)
  {
  }

  // Positions are in the order of the events that lie in front of them.
  lemma EarlierPosition(c: Cache, a: seq<Event>, b: seq<Event>)
    requires a <= c.events && b <= c.events
    ensures Bytes(a) <= Bytes(b) <==> a <= b
  {
    if Bytes(a) <= Bytes(b) {
      ShorterPrefix(a, b, c.events);
    }
    if a <= b {
      PrefixBytes(a, b);
    }
  }

  /**
   After a rollback exactly those savepoints are left that had not been set after what is kept, and
   the start of a statement that had begun before.
   */
  lemma SavepointsLeft(ops: seq<Op>, c: Cache, name: Savepoint)
    requires Leads(Empty(), ops, c) && name in c.savepoints
    ensures
      var c' := RollbackTo(c, name);
      && name in c.marks
      && (forall n :: n in c'.savepoints <==> n in c.savepoints && n in c.marks && c.marks[n] <= c.marks[name])
      && (c'.beforeStmtPos.Some? <==> c.beforeStmtPos.Some? && !(c.marks[name] <= c.statement))
  {
    EmptyInv();
    LeadsKeeps(Empty(), ops, c);
    forall n | n in c.savepoints
      ensures c.savepoints[n] <= c.savepoints[name] <==> c.marks[n] <= c.marks[name]
    {
      EarlierPosition(c, c.marks[n], c.marks[name]);
    }
    if c.beforeStmtPos.Some? {
      EarlierPosition(c, c.marks[name], c.statement);
    }
  }

  lemma SavepointsLeftByStatement(ops: seq<Op>, c: Cache)
    requires Leads(Empty(), ops, c) && c.beforeStmtPos.Some?
    ensures forall n ::
      n in RollbackStatement(c).savepoints <==> n in c.savepoints && n in c.marks && c.marks[n] <= c.statement
  {
    EmptyInv();
    LeadsKeeps(Empty(), ops, c);
    forall n | n in c.savepoints
      ensures c.savepoints[n] <= c.beforeStmtPos.value <==> c.marks[n] <= c.statement
    {
      EarlierPosition(c, c.marks[n], c.statement);
    }
  }

  /******* The cache as an object *******/

  class BinlogTrxCacheData {
    var cache: seq<Event>
    var pending: Option<Event>
    var flags: Flags
    var withXid: bool
    var immediate: bool
    var cacheStateMap: map<nat, Flags>
    var beforeStmtPos: Option<nat>
    var savepoints: map<Savepoint, nat>
    ghost var marks: map<Savepoint, seq<Event>>
    ghost var statement: seq<Event>

    ghost function Abs(): Cache
      reads this
    {
      Cache(cache, pending, flags, withXid, immediate, cacheStateMap, beforeStmtPos, savepoints, marks, statement)
    }

    constructor ()
      ensures Abs() == Empty()
    {
      cache, pending, flags := [], None, NO_FLAGS;
      withXid, immediate, cacheStateMap, beforeStmtPos := false, false, map[], None;
      savepoints, marks, statement := map[], map[], [];
    }

    method Write(e: Event)
      modifies this`cache, this`withXid, this`immediate, this`flags
      ensures Abs() == WriteEvent(old(Abs()), e)
    {
      cache := cache + [e];
      if e.xid {
        withXid := true;
      }
      if e.immediate {
        immediate := true;
      }
      NoteFlags(e);
    }

    method NoteFlags(e: Event)
      modifies this`flags
      ensures flags == Noted(old(flags), e)
    {
      if e.sbr {
        flags := flags.(withSbr := true);
      }
      if e.rbr {
        flags := flags.(withRbr := true);
      }
      if e.startsGroup {
        flags := flags.(withStart := true);
      }
      if e.endsGroup {
        flags := flags.(withEnd := true);
      }
      if !e.startsGroup && !e.endsGroup {
        flags := flags.(withContent := true);
      }
      flags := flags.(eventCounter := flags.eventCounter + 1);
    }

    method FlushPendingEvent()
      modifies this
      ensures Abs() == FlushPending(old(Abs()))
    {
      if pending.Some? {
        Write(pending.value);
        pending := None;
      }
    }

    method CacheStateCheckpoint(pos: nat)
      modifies this`cacheStateMap
      ensures Abs() == Checkpoint(old(Abs()), pos)
    {
      if pos > 0 {
        cacheStateMap := cacheStateMap[pos := flags];
      }
    }

    method CacheStateRollback(pos: nat)
      modifies this`flags
      ensures Abs() == StateRollback(old(Abs()), pos)
    {
      if pos > 0 {
        if pos in cacheStateMap {
          flags := cacheStateMap[pos];
        }
      } else {
        flags := NO_FLAGS;
      }
    }

    method TruncateCache(pos: nat)
      modifies this`cache, this`pending
      ensures Abs() == Truncate(old(Abs()), pos)
    {
      pending := None;
      cache := Kept(cache, pos);
    }

    method RegisterStatement()
      modifies this
      ensures Abs() == StartStatement(old(Abs()))
    {
      if beforeStmtPos.None? {
        var pos := Bytes(cache);
        CacheStateCheckpoint(pos);
        beforeStmtPos := Some(pos);
        CacheStateCheckpoint(pos);
        statement := cache;
      }
    }

    method RestorePrevPosition()
      modifies this
      ensures Abs() == RollbackStatement(old(Abs()))
      ensures old(beforeStmtPos).None? ==>
        cache == old(cache) && flags == old(flags) && savepoints == old(savepoints) && pending == None
    {
      pending := None;
      if beforeStmtPos.Some? {
        var pos := beforeStmtPos.value;
        TruncateCache(pos);
        CacheStateRollback(pos);
        beforeStmtPos := None;
        withXid := false;
        ForgetSavepointsAfter(pos);
      }
    }

    method SavepointSet(name: Savepoint, e: Event)
      modifies this
      ensures Abs() == SetSavepoint(old(Abs()), name, e)
    {
      FlushPendingEvent();
      Write(e);
      var pos := Bytes(cache);
      CacheStateCheckpoint(pos);
      savepoints := savepoints[name := pos];
      marks := marks[name := cache];
    }

    method RestoreSavepoint(name: Savepoint)
      requires name in savepoints
      modifies this
      ensures Abs() == RollbackTo(old(Abs()), name)
    {
      var pos := savepoints[name];
      TruncateCache(pos);
      if beforeStmtPos.None? || pos <= beforeStmtPos.value {
        beforeStmtPos := None;
      }
      CacheStateRollback(pos);
      ForgetSavepointsAfter(pos);
    }

    method ForgetSavepointsAfter(pos: nat)
      modifies this`savepoints
      ensures Abs() == DropAfter(old(Abs()), pos)
    {
      savepoints := UpTo(savepoints, pos);
    }
  }
}
