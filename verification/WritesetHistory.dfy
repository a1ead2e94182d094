/**
 The bounded history of row hashes with which the source lowers a transaction's commit
 parent, and its agreement with a scan of the whole log of the current file.
 */
module WritesetHistory {
  import opened Basics

  type Hash = nat

  // What the session knows about the rows a transaction changed.
  datatype Writeset = Writeset(
    hashes: seq<Hash>,
    missingKeys: bool,
    emptyTransaction: bool,
    sameAlgorithm: bool,
    relatedForeignKeys: bool,
    limitReached: bool)

  predicate CanUseWritesets(w: Writeset) {
    && (w.hashes != [] || w.missingKeys || w.emptyTransaction)
    && w.sameAlgorithm
    && !w.relatedForeignKeys
    && !w.limitReached
  }

  // The history proper, and the newest sequence number it no longer tells apart.
  datatype History = History(start: int, rows: map<Hash, int>)

  // The greatest of `start` and the usable history values of the given hashes.
  function NewestConflict(rows: map<Hash, int>, hashes: seq<Hash>, start: int, seqno: int): (r: int)
    ensures start <= r
  {
    if hashes == [] then start
    else
      var last := hashes[|hashes| - 1];
      var rest := NewestConflict(rows, hashes[..|hashes| - 1], start, seqno);
      if last in rows && rows[last] < seqno then Max(rest, rows[last]) else rest
  }

  function Recorded(rows: map<Hash, int>, hashes: seq<Hash>, seqno: int): map<Hash, int> {
    rows + map h | h in hashes :: seqno
  }

  // One dependency computation: the new history and the commit parent.
  function Tracked(hist: History, maxSize: nat, w: Writeset, seqno: int, parent: int): (History, int) {
    if !CanUseWritesets(w) then (History(seqno, map[]), parent)
    else
      var newest := NewestConflict(hist.rows, w.hashes, hist.start, seqno);
      var parent' := if w.missingKeys then parent else Min(newest, parent);
      if |hist.rows| + |w.hashes| > maxSize then (History(seqno, map[]), parent')
      else (History(hist.start, Recorded(hist.rows, w.hashes, seqno)), parent')
  }

  // The rows after part of the writeset has been entered; a full history takes no new rows.
  function Scanned(rows: map<Hash, int>, hashes: seq<Hash>, seqno: int, full: bool): map<Hash, int> {
    if full then map h | h in rows :: if h in hashes then seqno else rows[h]
    else Recorded(rows, hashes, seqno)
  }

  class WritesetTracker {
    // Settable at any time.
    var maxHistorySize: nat
    var historyStart: int
    var history: map<Hash, int>

    ghost function Value(): History
      reads this
    {
      History(historyStart, history)
    }

    constructor (maxSize: nat)
      ensures Value() == History(0, map[]) && maxHistorySize == maxSize
    {
      maxHistorySize, historyStart, history := maxSize, 0, map[];
    }

    method Rotate(start: int)
      modifies this`historyStart, this`history
      ensures Value() == History(start, map[])
    {
      historyStart, history := start, map[];
    }

    method GetDependency(w: Writeset, seqno: int, commitParent: int) returns (parent: int)
      modifies this`historyStart, this`history
      ensures (Value(), parent) == Tracked(old(Value()), maxHistorySize, w, seqno, commitParent)
      ensures |history| <= maxHistorySize
    {
      parent := commitParent;
      var canUse := CanUseWritesets(w);
      var exceedsCapacity := false;
      if canUse {
        exceedsCapacity := |history| + |w.hashes| > maxHistorySize;
        RecordedSize(history, w.hashes, seqno);
        var lastParent := EnterWriteset(w.hashes, seqno, exceedsCapacity);
        if !w.missingKeys {
          parent := Min(lastParent, parent);
        }
      }
      if exceedsCapacity || !canUse {
        historyStart := seqno;
        history := map[];
      }
    }

    // Finds the newest conflict and enters the rows, of which a full history takes no new ones.
    method EnterWriteset(hashes: seq<Hash>, seqno: int, full: bool) returns (lastParent: int)
      modifies this`history
      ensures history == Scanned(old(history), hashes, seqno, full)
      ensures lastParent == NewestConflict(old(history), hashes, historyStart, seqno)
    {
      lastParent := historyStart;
      for i := 0 to |hashes|
        invariant history == Scanned(old(history), hashes[..i], seqno, full)
        invariant lastParent == NewestConflict(old(history), hashes[..i], historyStart, seqno)
      {
        ScannedNext(old(history), hashes, i, seqno, historyStart, full);
        var h := hashes[i];
        if h in history {
          if history[h] > lastParent && history[h] < seqno {
            lastParent := history[h];
          }
          history := history[h := seqno];
        } else if !full {
          history := history[h := seqno];
        }
      }
      assert hashes[..|hashes|] == hashes;
    }
  }

  lemma ScannedNext(rows: map<Hash, int>, hashes: seq<Hash>, i: nat, seqno: int, start: int, full: bool)
    requires i < |hashes|
    ensures
      var h := hashes[i];
      var cur := Scanned(rows, hashes[..i], seqno, full);
      var parent := NewestConflict(rows, hashes[..i], start, seqno);
      && Scanned(rows, hashes[..i + 1], seqno, full) == (if h in cur || !full then cur[h := seqno] else cur)
      && NewestConflict(rows, hashes[..i + 1], start, seqno) ==
        if h in cur && cur[h] < seqno then Max(parent, cur[h]) else parent
  {
    RowsNext(rows, hashes, i, seqno, full);
    assert hashes[..i + 1][..i] == hashes[..i];
    var h := hashes[i];
    if h in hashes[..i] && h in rows && rows[h] < seqno {
      KnownConflict(rows, hashes[..i], start, seqno, h);
    }
  }

  lemma RowsNext(rows: map<Hash, int>, hashes: seq<Hash>, i: nat, seqno: int, full: bool)
    requires i < |hashes|
    ensures
      var h := hashes[i];
      var cur := Scanned(rows, hashes[..i], seqno, full);
      && Scanned(rows, hashes[..i + 1], seqno, full) == (if h in cur || !full then cur[h := seqno] else cur)
      && (h in cur <==> h in rows || (h in hashes[..i] && !full))
      && (h in cur ==> cur[h] == if h in hashes[..i] then seqno else rows[h])
  {
    assert hashes[..i + 1] == hashes[..i] + [hashes[i]];
  }

  lemma {:induction false} KnownConflict(rows: map<Hash, int>, hashes: seq<Hash>, start: int, seqno: int, h: Hash)
    requires h in hashes && h in rows && rows[h] < seqno
    ensures rows[h] <= NewestConflict(rows, hashes, start, seqno)
  {
    var n := |hashes| - 1;
    if hashes[n] != h {
      assert hashes == hashes[..n] + [hashes[n]];
      KnownConflict(rows, hashes[..n], start, seqno, h);
    }
  }

  function HashSet(hashes: seq<Hash>): set<Hash> {
    set h | h in hashes
  }

  lemma {:induction false} HashSetSize(hashes: seq<Hash>)
    ensures |HashSet(hashes)| <= |hashes|
  {
    if hashes != [] {
      var n := |hashes| - 1;
      HashSetSize(hashes[..n]);
      assert hashes == hashes[..n] + [hashes[n]];
      assert HashSet(hashes) == HashSet(hashes[..n]) + {hashes[n]};
    }
  }

  lemma RecordedSize(rows: map<Hash, int>, hashes: seq<Hash>, seqno: int)
    ensures |Recorded(rows, hashes, seqno)| <= |rows| + |HashSet(hashes)| <= |rows| + |hashes|
  {
    HashSetSize(hashes);
    var r := Recorded(rows, hashes, seqno);
    assert r.Keys == rows.Keys + HashSet(hashes);
    assert |r.Keys| == |rows.Keys| + |HashSet(hashes) - rows.Keys|;
    assert HashSet(hashes) - rows.Keys <= HashSet(hashes);
    SubsetSize(HashSet(hashes) - rows.Keys, HashSet(hashes));
  }

  lemma {:induction false} SubsetSize(a: set<Hash>, b: set<Hash>)
    requires a <= b
    ensures |a| <= |b|
  {
    assert b == a + (b - a);
  }

  /******* Agreement with a scan of the log *******/

  // A transaction of the current file, with its sequence number relative to the file, and the
  // size that the history might have at the time.
  datatype Logged = Logged(seqno: int, w: Writeset, capacity: nat)

  ghost predicate Increasing(log: seq<Logged>) {
    && (forall i :: 0 <= i < |log| ==> 0 < log[i].seqno)
    && (forall i, j :: 0 <= i < j < |log| ==> log[i].seqno < log[j].seqno)
  }

  // The sequence number of the last transaction of the log that changed the row, 0 if none.
  function NewestWriter(log: seq<Logged>, h: Hash): int {
    if log == [] then SEQ_UNINIT
    else
      var last := log[|log| - 1];
      if h in last.w.hashes then last.seqno else NewestWriter(log[..|log| - 1], h)
  }

  // The greatest newest writer of any of the rows: the parent an unbounded history would give.
  function NewestWriterOf(log: seq<Logged>, hashes: seq<Hash>): int {
    if hashes == [] then SEQ_UNINIT
    else Max(NewestWriterOf(log, hashes[..|hashes| - 1]), NewestWriter(log, hashes[|hashes| - 1]))
  }

  ghost predicate Agrees(hist: History, log: seq<Logged>) {
    && 0 <= hist.start
    && (forall h :: h in hist.rows ==> hist.rows[h] == NewestWriter(log, h))
    && (forall h :: h !in hist.rows ==> NewestWriter(log, h) <= hist.start)
    && (forall i :: 0 <= i < |log| && !CanUseWritesets(log[i].w) ==> log[i].seqno <= hist.start)
  }

  lemma {:induction false} NewestWriterIsNewest(log: seq<Logged>, h: Hash)
    requires Increasing(log)
    ensures 0 <= NewestWriter(log, h)
    ensures log != [] ==> NewestWriter(log, h) <= log[|log| - 1].seqno
    ensures forall i :: 0 <= i < |log| && h in log[i].w.hashes ==> log[i].seqno <= NewestWriter(log, h)
    ensures NewestWriter(log, h) > 0 ==>
      exists i :: 0 <= i < |log| && h in log[i].w.hashes && log[i].seqno == NewestWriter(log, h)
  {
    if log != [] && h !in log[|log| - 1].w.hashes {
      var init := log[..|log| - 1];
      NewestWriterIsNewest(init, h);
      forall i | 0 <= i < |log| && h in log[i].w.hashes
        ensures log[i].seqno <= NewestWriter(log, h)
      {
        assert log[i] == init[i];
      }
      if NewestWriter(log, h) > 0 {
        var i :| 0 <= i < |init| && h in init[i].w.hashes && init[i].seqno == NewestWriter(init, h);
        assert log[i] == init[i];
      }
    }
  }

  // The file's first dependency computation starts from an empty history.
  lemma RotatedAgrees(start: nat)
    ensures Agrees(History(start, map[]), [])
  {
  }

  lemma TrackedAgrees(hist: History, maxSize: nat, e: Logged, parent: int, log: seq<Logged>)
    requires Increasing(log + [e]) && Agrees(hist, log)
    ensures Agrees(Tracked(hist, maxSize, e.w, e.seqno, parent).0, log + [e])
    ensures |Tracked(hist, maxSize, e.w, e.seqno, parent).0.rows| <= maxSize
  {
    var log' := log + [e];
    var hist' := Tracked(hist, maxSize, e.w, e.seqno, parent).0;
    assert log'[..|log|] == log;
    assert e == log'[|log|];
    RecordedSize(hist.rows, e.w.hashes, e.seqno);
    forall h
      ensures h in hist'.rows ==> hist'.rows[h] == NewestWriter(log', h)
      ensures h !in hist'.rows ==> NewestWriter(log', h) <= hist'.start
    {
      NewestWriterIsNewest(log', h);
    }
    forall i | 0 <= i < |log'| && !CanUseWritesets(log'[i].w)
      ensures log'[i].seqno <= hist'.start
    {
      if i < |log| {
        assert log'[i] == log[i];
      }
    }
  }

  lemma {:induction false} NewestConflictIsScan(hist: History, hashes: seq<Hash>, seqno: int, log: seq<Logged>)
    requires Increasing(log) && Agrees(hist, log)
    requires forall i :: 0 <= i < |log| ==> log[i].seqno < seqno
    requires 0 < seqno
    ensures NewestConflict(hist.rows, hashes, hist.start, seqno) == Max(hist.start, NewestWriterOf(log, hashes))
  {
    if hashes != [] {
      var n := |hashes| - 1;
      NewestConflictIsScan(hist, hashes[..n], seqno, log);
      NewestWriterIsNewest(log, hashes[n]);
      if hashes[n] in hist.rows {
        assert hist.rows[hashes[n]] == NewestWriter(log, hashes[n]);
      }
    }
  }

  lemma {:induction false} NewestWriterOfBounds(log: seq<Logged>, hashes: seq<Hash>, h: Hash)
    requires h in hashes
    ensures NewestWriter(log, h) <= NewestWriterOf(log, hashes)
  {
    var n := |hashes| - 1;
    if hashes[n] != h {
      assert hashes == hashes[..n] + [hashes[n]];
      NewestWriterOfBounds(log, hashes[..n], h);
    }
  }

  /**
   The bounded history loses nothing that matters: the parent of a transaction that can use its
   writeset is the one a scan of the whole file would give, floored at the point up to which
   the history has been forgotten and capped by the commit-order parent; a transaction that
   cannot use its writeset keeps the commit-order parent.
   */
  lemma ParentIsScan(hist: History, maxSize: nat, w: Writeset, seqno: int, parent: int, log: seq<Logged>)
    requires Increasing(log) && Agrees(hist, log)
    requires 0 < seqno && forall i :: 0 <= i < |log| ==> log[i].seqno < seqno
    ensures Tracked(hist, maxSize, w, seqno, parent).1 ==
      if CanUseWritesets(w) && !w.missingKeys
      then Min(Max(hist.start, NewestWriterOf(log, w.hashes)), parent)
      else parent
  {
    NewestConflictIsScan(hist, w.hashes, seqno, log);
  }

  // Two transactions conflict as far as writesets can tell: they share a row hash, or the
  // earlier one had no usable writeset, or the later one has none.
  predicate MayConflict(earlier: Writeset, later: Writeset) {
    || !CanUseWritesets(earlier)
    || !CanUseWritesets(later)
    || later.missingKeys
    || exists h :: h in earlier.hashes && h in later.hashes
  }

  // The history knows of every earlier transaction that may conflict.
  lemma ConflictIsKnown(hist: History, w: Writeset, log: seq<Logged>, i: nat)
    requires Increasing(log) && Agrees(hist, log)
    requires i < |log| && MayConflict(log[i].w, w) && CanUseWritesets(w) && !w.missingKeys
    ensures log[i].seqno <= Max(hist.start, NewestWriterOf(log, w.hashes))
  {
    if CanUseWritesets(log[i].w) {
      var h :| h in log[i].w.hashes && h in w.hashes;
      NewestWriterIsNewest(log, h);
      NewestWriterOfBounds(log, w.hashes, h);
    }
  }

  // A transaction never gets a parent below an earlier conflicting one, unless commit order
  // already allowed that. Against such a one the writeset changes nothing: the parent reaches
  // it exactly if the commit-order parent does, and is missing exactly if that is.
  lemma ParentCoversConflicts(
    hist: History, maxSize: nat, w: Writeset, seqno: int, parent: int, log: seq<Logged>, i: nat)
    requires Increasing(log) && Agrees(hist, log)
    requires 0 < seqno && forall k :: 0 <= k < |log| ==> log[k].seqno < seqno
    requires i < |log| && MayConflict(log[i].w, w)
    ensures Tracked(hist, maxSize, w, seqno, parent).1 >= Min(log[i].seqno, parent)
    ensures Tracked(hist, maxSize, w, seqno, parent).1 >= log[i].seqno <==> parent >= log[i].seqno
    ensures Tracked(hist, maxSize, w, seqno, parent).1 == SEQ_UNINIT <==> parent == SEQ_UNINIT
  {
    ParentIsScan(hist, maxSize, w, seqno, parent, log);
    if CanUseWritesets(w) && !w.missingKeys {
      ConflictIsKnown(hist, w, log, i);
    }
  }

  /******* When history is forgotten *******/

  predicate Fits(rows: nat, w: Writeset, capacity: nat) {
    CanUseWritesets(w) && rows + |w.hashes| <= capacity
  }

  // A transaction that can use its writeset and fits adds its rows and takes none away; any other
  // empties the history, which from then on does not reach behind it.
  lemma HistoryIsKept(hist: History, maxSize: nat, w: Writeset, seqno: int, parent: int)
    ensures
      var hist' := Tracked(hist, maxSize, w, seqno, parent).0;
      if Fits(|hist.rows|, w, maxSize) then
        && hist'.start == hist.start && hist'.rows.Keys == hist.rows.Keys + HashSet(w.hashes)
        && (forall h :: h in w.hashes ==> hist'.rows[h] == seqno)
        && (forall h :: h in hist.rows && h !in w.hashes ==> hist'.rows[h] == hist.rows[h])
      else hist' == History(seqno, map[])
  {
  }

  // The rows that the history holds after these transactions, in terms of the log alone.
  function RowsHeld(log: seq<Logged>): set<Hash>
    decreases |log|, 1
  {
    if log == [] || Forgets(log) then {}
    else RowsHeld(log[..|log| - 1]) + HashSet(log[|log| - 1].w.hashes)
  }

  // The last of these transactions makes it forget.
  predicate Forgets(log: seq<Logged>)
    requires log != []
    decreases |log|, 0
  {
    var last := log[|log| - 1];
    !Fits(|RowsHeld(log[..|log| - 1])|, last.w, last.capacity)
  }

  // The last transaction that made it forget, or where the history started.
  function ForgottenUpTo(log: seq<Logged>, start: int): int {
    if log == [] then start
    else if Forgets(log) then log[|log| - 1].seqno
    else ForgottenUpTo(log[..|log| - 1], start)
  }

  ghost predicate HoldsExactly(hist: History, log: seq<Logged>, start: int) {
    hist.start == ForgottenUpTo(log, start) && hist.rows.Keys == RowsHeld(log)
  }

  lemma TrackedExactly(hist: History, e: Logged, parent: int, log: seq<Logged>, start: int)
    requires HoldsExactly(hist, log, start)
    ensures HoldsExactly(Tracked(hist, e.capacity, e.w, e.seqno, parent).0, log + [e], start)
  {
    assert (log + [e])[..|log|] == log;
    assert |hist.rows| == |hist.rows.Keys|;
    HistoryIsKept(hist, e.capacity, e.w, e.seqno, parent);
  }

  function HashesOf(log: seq<Logged>): set<Hash> {
    if log == [] then {} else HashesOf(log[..|log| - 1]) + HashSet(log[|log| - 1].w.hashes)
  }

  // All of them can use their writesets, and there was room for all rows.
  ghost predicate AllFit(log: seq<Logged>) {
    forall k :: 0 <= k < |log| ==> Fits(|HashesOf(log[..k])|, log[k].w, log[k].capacity)
  }

  // Then nothing is forgotten.
  lemma {:induction false} NothingForgotten(log: seq<Logged>, start: int)
    requires AllFit(log)
    ensures ForgottenUpTo(log, start) == start && RowsHeld(log) == HashesOf(log)
  {
    if log != [] {
      var init := log[..|log| - 1];
      forall k | 0 <= k < |init|
        ensures Fits(|HashesOf(init[..k])|, init[k].w, init[k].capacity)
      {
        assert init[..k] == log[..k];
      }
      NothingForgotten(init, start);
    }
  }

  // The history reaches back to the last transaction that made it forget, if there is one.
  lemma {:induction false} LastForgetting(log: seq<Logged>, start: int) returns (k: nat)
    ensures k <= |log| && ForgottenUpTo(log, start) == if k == 0 then start else log[k - 1].seqno
    ensures k > 0 ==> Forgets(log[..k])
    ensures forall j :: k < j <= |log| ==> !Forgets(log[..j])
  {
    var n := |log|;
    assert log[..n] == log;
    if n == 0 || Forgets(log) {
      k := n;
    } else {
      var init := log[..n - 1];
      k := LastForgetting(init, start);
      assert forall j :: 0 <= j < n ==> init[..j] == log[..j];
    }
  }

  // Rows with keys were changed, and all of them are in the writeset.
  predicate Plain(w: Writeset) {
    w.hashes != [] && !w.missingKeys && w.sameAlgorithm && !w.relatedForeignKeys && !w.limitReached
  }

  ghost predicate AllPlain(log: seq<Logged>) {
    forall k :: 0 <= k < |log| ==> Plain(log[k].w) && |HashesOf(log[..k])| + |log[k].w.hashes| <= log[k].capacity
  }

  // A transaction with other rows than all before it.
  ghost predicate NoCommonRow(log: seq<Logged>, hashes: seq<Hash>) {
    forall h :: h in hashes ==> h !in HashesOf(log)
  }

  lemma {:induction false} NobodyWrote(log: seq<Logged>, h: Hash)
    requires h !in HashesOf(log)
    ensures NewestWriter(log, h) == SEQ_UNINIT
  {
    if log != [] {
      NobodyWrote(log[..|log| - 1], h);
    }
  }

  lemma {:induction false} NobodyWroteAny(log: seq<Logged>, hashes: seq<Hash>)
    requires NoCommonRow(log, hashes)
    ensures NewestWriterOf(log, hashes) == SEQ_UNINIT
  {
    if hashes != [] {
      NobodyWroteAny(log, hashes[..|hashes| - 1]);
      NobodyWrote(log, hashes[|hashes| - 1]);
    }
  }

  lemma PlainFits(log: seq<Logged>)
    requires AllPlain(log)
    ensures AllFit(log)
  {
  }
}
