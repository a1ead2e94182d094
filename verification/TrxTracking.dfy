/**
 The dependency trackers that give every logged transaction its pair of sequence number and
 commit parent, both relative to the binary log file they are written to.
 */
module TrxTracking {
  import opened Basics
  import opened LogicalClocks
  import opened WritesetHistory

  datatype Mode = CommitOrderMode | WritesetMode | WritesetSessionMode

  datatype Stamp = Stamp(sequenceNumber: int, commitParent: int)

  datatype CommitOrder = CommitOrder(maxCommitted: Clock, counter: Clock, lastBlocking: int)

  datatype Trackers = Trackers(mode: Mode, order: CommitOrder, hist: History, maxHistorySize: nat)

  // The transaction as the trackers see it at the moment it is written to the log: its absolute
  // sequence number, the commit clock it read when it was prepared, and the last sequence
  // number its session logged.
  datatype Candidate = Candidate(
    sequenceNumber: int,
    lastCommitted: int,
    unsafe: bool,
    w: Writeset,
    sessionParent: int)

  /******* Specification *******/

  function OrderStamp(o: CommitOrder, c: Candidate): Stamp {
    Stamp(
      c.sequenceNumber - o.maxCommitted.offset,
      if c.lastCommitted <= o.maxCommitted.offset then SEQ_UNINIT
      else Max(c.lastCommitted, o.lastBlocking) - o.maxCommitted.offset)
  }

  function OrderAfter(o: CommitOrder, c: Candidate): CommitOrder {
    if c.unsafe then o.(lastBlocking := c.sequenceNumber) else o
  }

  function SessionStamp(s: Stamp, sessionParent: int): Stamp {
    if sessionParent != 0 && sessionParent < s.sequenceNumber
    then s.(commitParent := Max(s.commitParent, sessionParent))
    else s
  }

  function WritesetStamp(t: Trackers, c: Candidate): (History, Stamp) {
    var s := OrderStamp(t.order, c);
    var (hist, parent) := Tracked(t.hist, t.maxHistorySize, c.w, s.sequenceNumber, s.commitParent);
    (hist, s.(commitParent := parent))
  }

  function Stamped(t: Trackers, c: Candidate): Stamp {
    match t.mode
    case CommitOrderMode => OrderStamp(t.order, c)
    case WritesetMode => WritesetStamp(t, c).1
    case WritesetSessionMode => SessionStamp(WritesetStamp(t, c).1, c.sessionParent)
  }

  function AfterStamp(t: Trackers, c: Candidate): Trackers {
    var order := OrderAfter(t.order, c);
    if t.mode == CommitOrderMode then t.(order := order)
    else t.(order := order, hist := WritesetStamp(t, c).0)
  }

  function SteppedCounter(t: Trackers): Trackers {
    t.(order := t.order.(counter := t.order.counter.(state := t.order.counter.state + 1)))
  }

  function Published(t: Trackers, sequenceNumber: int): Trackers {
    t.(order := t.order.(maxCommitted := Raised(t.order.maxCommitted, sequenceNumber)))
  }

  function Rotated(t: Trackers): Trackers {
    var now := t.order.counter.state;
    t.(order := t.order.(maxCommitted := t.order.maxCommitted.(offset := now),
                         counter := t.order.counter.(offset := now)),
       hist := History(1, map[]))
  }

  /******* The trackers *******/

  class CommitOrderTracker {
    const maxCommitted: LogicalClock
    const counter: LogicalClock
    var lastBlocking: int

    ghost predicate Valid()
      reads this, maxCommitted, counter
    {
      && maxCommitted != counter
      && maxCommitted.Valid() && counter.Valid()
      && maxCommitted.offset <= counter.state
      && counter.offset <= counter.state
    }

    ghost function Value(): CommitOrder
      reads this, maxCommitted, counter
    {
      CommitOrder(maxCommitted.Value(), counter.Value(), lastBlocking)
    }

    constructor ()
      ensures Valid() && fresh(maxCommitted) && fresh(counter)
      ensures Value() == CommitOrder(Clock(0, 0), Clock(0, 0), SEQ_UNINIT)
    {
      maxCommitted := new LogicalClock();
      counter := new LogicalClock();
      lastBlocking := SEQ_UNINIT;
    }

    method GetDependency(c: Candidate) returns (s: Stamp)
      requires Valid()
      modifies this
      ensures Valid()
      ensures s == OrderStamp(old(Value()), c)
      ensures Value() == OrderAfter(old(Value()), c)
    {
      var sequenceNumber := c.sequenceNumber - maxCommitted.offset;
      var commitParent;
      if c.lastCommitted <= maxCommitted.offset {
        commitParent := SEQ_UNINIT;
      } else {
        commitParent := Max(c.lastCommitted, lastBlocking) - maxCommitted.offset;
      }
      if c.unsafe {
        lastBlocking := c.sequenceNumber;
      }
      s := Stamp(sequenceNumber, commitParent);
    }

    method Step() returns (r: int)
      requires Valid()
      modifies counter
      ensures Valid()
      ensures r == old(counter.state) + 1
      ensures Value() == old(Value()).(counter := old(counter.Value()).(state := r))
    {
      r := counter.Step();
    }

    method Rotate()
      requires Valid()
      modifies maxCommitted, counter
      ensures Valid()
      ensures Value() == old(Value()).(
        maxCommitted := Clock(old(maxCommitted.state), old(counter.state)),
        counter := Clock(old(counter.state), old(counter.state)))
    {
      var now := counter.GetTimestamp();
      maxCommitted.UpdateOffset(now);
      counter.UpdateOffset(now);
    }

    // The caller holds the tracker's mutex, so no other thread moves the clock meanwhile.
    method UpdateMaxCommitted(sequenceNumber: int)
      requires Valid() && 0 < sequenceNumber
      modifies maxCommitted
      ensures Valid()
      ensures Value() == old(Value()).(maxCommitted := Raised(old(maxCommitted.Value()), sequenceNumber))
    {
      var _ := maxCommitted.SetIfGreater(sequenceNumber, []);
    }
  }

  // The part of a session's transaction that the trackers read and write.
  class TransactionContext {
    var sequenceNumber: int
    var lastCommitted: int
    var lastSessionSequenceNumber: int

    constructor ()
      ensures sequenceNumber == lastCommitted == SEQ_UNINIT
      ensures lastSessionSequenceNumber == 0
    {
      sequenceNumber, lastCommitted, lastSessionSequenceNumber := SEQ_UNINIT, SEQ_UNINIT, 0;
    }
  }

  class DependencyTracker {
    const mode: Mode
    const order: CommitOrderTracker
    const writeset: WritesetTracker

    ghost predicate Valid()
      reads this, order, order.maxCommitted, order.counter
    {
      order.Valid()
    }

    ghost function Value(): Trackers
      reads this, order, order.maxCommitted, order.counter, writeset
    {
      Trackers(mode, order.Value(), writeset.Value(), writeset.maxHistorySize)
    }

    constructor (mode: Mode)
      ensures Valid() && this.mode == mode
      ensures fresh(order) && fresh(order.maxCommitted) && fresh(order.counter) && fresh(writeset)
      ensures Value() == Trackers(mode, CommitOrder(Clock(0, 0), Clock(0, 0), 0), History(0, map[]), 25000)
    {
      this.mode := mode;
      order := new CommitOrderTracker();
      writeset := new WritesetTracker(25000);
    }

    // Remembers, when a statement is prepared, what has been committed so far.
    method StoreCommitParent(t: TransactionContext)
      requires Valid()
      modifies t`lastCommitted
      ensures t.lastCommitted == order.maxCommitted.state
    {
      t.lastCommitted := order.maxCommitted.GetTimestamp();
    }

    /**
     What the flush of one transaction cache does to the clocks: it takes the next sequence
     number, treats a missing commit parent as "the transaction just before", stamps the
     transaction, and forgets the commit parent so that a second cache of the same session
     follows the first.
     */
    method FlushStamp(t: TransactionContext, unsafe: bool, w: Writeset) returns (s: Stamp)
      requires Valid()
      modifies t, order, order.counter, writeset`historyStart, writeset`history
      ensures Valid()
      ensures
        var stepped := SteppedCounter(old(Value()));
        var c := FlushCandidate(stepped, old(t.lastCommitted), unsafe, w, old(t.lastSessionSequenceNumber));
        && s == Stamped(stepped, c)
        && Value() == AfterStamp(stepped, c)
        && t.sequenceNumber == c.sequenceNumber
        && t.lastCommitted == SEQ_UNINIT
        && t.lastSessionSequenceNumber ==
          if mode == WritesetSessionMode then s.sequenceNumber else old(t.lastSessionSequenceNumber)
    {
      t.sequenceNumber := order.Step();
      if t.lastCommitted == SEQ_UNINIT {
        t.lastCommitted := t.sequenceNumber - 1;
      }
      s := GetDependency(t, unsafe, w);
      t.lastCommitted := SEQ_UNINIT;
    }

    method GetDependency(t: TransactionContext, unsafe: bool, w: Writeset) returns (s: Stamp)
      requires Valid()
      modifies t`lastSessionSequenceNumber, order, writeset`historyStart, writeset`history
      ensures Valid()
      ensures
        var c := Candidate(t.sequenceNumber, t.lastCommitted, unsafe, w, old(t.lastSessionSequenceNumber));
        s == Stamped(old(Value()), c) && Value() == AfterStamp(old(Value()), c)
      ensures t.lastSessionSequenceNumber ==
        if mode == WritesetSessionMode then s.sequenceNumber else old(t.lastSessionSequenceNumber)
    {
      s := order.GetDependency(Candidate(t.sequenceNumber, t.lastCommitted, unsafe, w, t.lastSessionSequenceNumber));
      match mode {
        case CommitOrderMode =>
        case WritesetMode =>
          var parent := writeset.GetDependency(w, s.sequenceNumber, s.commitParent);
          s := s.(commitParent := parent);
        case WritesetSessionMode =>
          var parent := writeset.GetDependency(w, s.sequenceNumber, s.commitParent);
          s := s.(commitParent := parent);
          var sessionParent := t.lastSessionSequenceNumber;
          if sessionParent != 0 && sessionParent < s.sequenceNumber {
            s := s.(commitParent := Max(s.commitParent, sessionParent));
          }
          t.lastSessionSequenceNumber := s.sequenceNumber;
      }
    }

    method UpdateMaxCommitted(t: TransactionContext)
      requires Valid() && 0 < t.sequenceNumber
      modifies t`sequenceNumber, order.maxCommitted
      ensures Valid()
      ensures Value() == Published(old(Value()), old(t.sequenceNumber))
      ensures t.sequenceNumber == SEQ_UNINIT
    {
      order.UpdateMaxCommitted(t.sequenceNumber);
      t.sequenceNumber := SEQ_UNINIT;
    }

    method Rotate()
      requires Valid()
      modifies order.maxCommitted, order.counter, writeset`historyStart, writeset`history
      ensures Valid()
      ensures Value() == Rotated(old(Value()))
    {
      order.Rotate();
      writeset.Rotate(1);
    }
  }

  // The transaction handed to the trackers by a flush, the counter having been stepped.
  function FlushCandidate(t: Trackers, lastCommitted: int, unsafe: bool, w: Writeset, sessionParent: int): Candidate {
    var now := t.order.counter.state;
    Candidate(now, if lastCommitted == SEQ_UNINIT then now - 1 else lastCommitted, unsafe, w, sessionParent)
  }

  /******* Range of the stamps *******/

  ghost predicate ValidTrackers(t: Trackers) {
    && 0 <= t.order.maxCommitted.offset == t.order.counter.offset <= t.order.counter.state
    && 0 <= t.order.maxCommitted.state <= t.order.counter.state
    && 0 <= t.order.lastBlocking <= t.order.counter.state
    && 0 <= t.hist.start
  }

  // In every mode a logged transaction has a parent below its own sequence number.
  lemma ParentBelowSequence(t: Trackers, lastCommitted: int, unsafe: bool, w: Writeset, sessionParent: nat)
    requires ValidTrackers(t) && 0 <= lastCommitted <= t.order.maxCommitted.state
    ensures
      var stepped := SteppedCounter(t);
      var s := Stamped(stepped, FlushCandidate(stepped, lastCommitted, unsafe, w, sessionParent));
      0 <= s.commitParent < s.sequenceNumber
  {
  }
}
