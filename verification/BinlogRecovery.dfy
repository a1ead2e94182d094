/**
 Recovery of the last binary log file: which transactions it still holds after a crash, and
 where its valid part ends.
 */
module BinlogRecovery {
  import opened Basics

  type Xid = nat

  type EventSize = n: nat | 0 < n witness 1

  // ddlXid is the transaction id carried by the query event of an atomic DDL statement.
  datatype Event =
    | Query(text: string, ddlXid: Option<Xid>, size: EventSize)
    | XidEvent(xid: Xid, size: EventSize)
    | Gtid(size: EventSize)
    | Other(size: EventSize)

  function Bytes(events: seq<Event>): nat {
    if events == [] then 0 else Bytes(events[..|events| - 1]) + events[|events| - 1].size
  }

  predicate IsQuery(ev: Event, text: string) {
    ev.Query? && ev.text == text
  }

  predicate IsAtomicDdl(ev: Event) {
    ev.Query? && ev.ddlXid.Some?
  }

  /******* The scan *******/

  datatype Scan = Scan(inTransaction: bool, xids: set<Xid>, pos: nat, validPos: nat)

  function InTransactionAfter(inTransaction: bool, ev: Event): bool {
    if IsQuery(ev, "BEGIN") then true
    else if IsQuery(ev, "COMMIT") || ev.XidEvent? then false
    else inTransaction
  }

  // The event ends the engine transaction x: it is the XID event of a transaction, or the whole
  // of an atomic DDL statement.
  predicate Carries(ev: Event, x: Xid) {
    match ev
    case Query(_, ddlXid, _) => ddlXid == Some(x)
    case XidEvent(xid, _) => xid == x
    case _ => false
  }

  // The engine transaction that the event commits, if any.
  function Identity(ev: Event): Option<Xid> {
    if IsAtomicDdl(ev) then ev.ddlXid else if ev.XidEvent? then Some(ev.xid) else None
  }

  function XidOf(ev: Event): set<Xid> {
    if Identity(ev).Some? then {Identity(ev).value} else {}
  }

  function ScanEvent(s: Scan, ev: Event): Scan {
    var inTransaction := InTransactionAfter(s.inTransaction, ev);
    var pos := s.pos + ev.size;
    Scan(inTransaction, s.xids + XidOf(ev), pos, if !inTransaction && !ev.Gtid? then pos else s.validPos)
  }

  function ScanFrom(s: Scan, events: seq<Event>): Scan {
    if events == [] then s else ScanEvent(ScanFrom(s, events[..|events| - 1]), events[|events| - 1])
  }

  // The scan of a file whose events begin at position `start`.
  function ScanOf(start: nat, events: seq<Event>): Scan {
    ScanFrom(Scan(false, {}, start, start), events)
  }

  // What the source asserts while it scans: no DDL inside a transaction.
  ghost predicate NoDdlInTransaction(start: nat, events: seq<Event>) {
    forall k :: 0 <= k < |events| && IsAtomicDdl(events[k]) ==> !ScanOf(start, events[..k + 1]).inTransaction
  }

  lemma {:induction false} ScanFromConcat(s: Scan, a: seq<Event>, b: seq<Event>)
    ensures ScanFrom(s, a + b) == ScanFrom(ScanFrom(s, a), b)
  {
    if b == [] {
      assert a + b == a;
    } else {
      var n := |b| - 1;
      ScanFromConcat(s, a, b[..n]);
      assert (a + b)[..|a + b| - 1] == a + b[..n];
    }
  }

  lemma {:induction false} BytesConcat(a: seq<Event>, b: seq<Event>)
    ensures Bytes(a + b) == Bytes(a) + Bytes(b)
  {
    if b == [] {
      assert a + b == a;
    } else {
      BytesConcat(a, b[..|b| - 1]);
      assert (a + b)[..|a + b| - 1] == a + b[..|b| - 1];
    }
  }

  // Whatever the events are, the scan finds exactly the transactions that one of them ends.
  lemma {:induction false} FoundExactly(s: Scan, events: seq<Event>, x: Xid)
    ensures x in ScanFrom(s, events).xids <==> x in s.xids || exists k :: 0 <= k < |events| && Carries(events[k], x)
  {
    if events != [] {
      var init, last := events[..|events| - 1], events[|events| - 1];
      FoundExactly(s, init, x);
      assert events == init + [last];
    }
  }

  lemma AllFound(start: nat, events: seq<Event>)
    ensures forall x :: x in ScanOf(start, events).xids <==> exists k :: 0 <= k < |events| && Carries(events[k], x)
  {
    forall x
      ensures x in ScanOf(start, events).xids <==> exists k :: 0 <= k < |events| && Carries(events[k], x)
    {
      FoundExactly(Scan(false, {}, start, start), events, x);
    }
  }

  lemma {:induction false} ScanCountsBytes(s: Scan, events: seq<Event>)
    ensures ScanFrom(s, events).pos == s.pos + Bytes(events)
  {
    if events != [] {
      ScanCountsBytes(s, events[..|events| - 1]);
    }
  }

  /******* Groups *******/

  // An event that may stand inside a transaction.
  predicate Inner(ev: Event) {
    !IsQuery(ev, "COMMIT") && !ev.XidEvent? && !IsAtomicDdl(ev)
  }

  // An event that is a whole group: a DDL or utility statement, or no statement at all.
  predicate Standalone(ev: Event) {
    ev.Other? || (ev.Query? && ev.text != "BEGIN" && ev.text != "COMMIT")
  }

  predicate EndsTransaction(ev: Event) {
    ev.XidEvent? || (IsQuery(ev, "COMMIT") && !IsAtomicDdl(ev))
  }

  datatype Group =
    | Single(gtid: Option<EventSize>, event: Event)
    | Transaction(gtid: Option<EventSize>, begin: EventSize, inner: seq<Event>, end: Event)
  {
    predicate WellFormed() {
      match this
      case Single(_, event) => Standalone(event)
      case Transaction(_, _, inner, end) => EndsTransaction(end) && forall k :: 0 <= k < |inner| ==> Inner(inner[k])
    }

    function Opening(): seq<Event> {
      if gtid.Some? then [Gtid(gtid.value)] else []
    }

    function Events(): seq<Event> {
      match this
      case Single(_, event) => Opening() + [event]
      case Transaction(_, begin, inner, end) => Opening() + [Query("BEGIN", None, begin)] + inner + [end]
    }

    function Last(): Event {
      if Single? then event else end
    }

    function Xid(): Option<Xid> {
      Identity(Last())
    }
  }

  function Flatten(groups: seq<Group>): seq<Event> {
    if groups == [] then [] else Flatten(groups[..|groups| - 1]) + groups[|groups| - 1].Events()
  }

  // One of the first n groups ends the transaction.
  ghost predicate HasXid(groups: seq<Group>, n: nat, x: Xid) {
    exists k :: 0 <= k < n && k < |groups| && Carries(groups[k].Last(), x)
  }

  function XidsOf(groups: seq<Group>): set<Xid> {
    if groups == [] then {} else XidsOf(groups[..|groups| - 1]) + XidOf(groups[|groups| - 1].Last())
  }

  lemma {:induction false} XidsOfAre(groups: seq<Group>, n: nat, x: Xid)
    requires n <= |groups|
    ensures x in XidsOf(groups[..n]) <==> HasXid(groups, n, x)
  {
    if n > 0 {
      XidsOfAre(groups, n - 1, x);
      assert groups[..n][..n - 1] == groups[..n - 1];
      assert HasXid(groups, n, x) <==> HasXid(groups, n - 1, x) || Carries(groups[n - 1].Last(), x);
    }
  }

  ghost predicate AllWellFormed(groups: seq<Group>) {
    forall k :: 0 <= k < |groups| ==> groups[k].WellFormed()
  }

  // Inside a transaction nothing is recorded until its end.
  lemma {:induction false} InnerRecordsNothing(s: Scan, events: seq<Event>)
    requires s.inTransaction
    requires forall k :: 0 <= k < |events| ==> Inner(events[k])
    ensures ScanFrom(s, events) == s.(pos := s.pos + Bytes(events))
  {
    if events != [] {
      InnerRecordsNothing(s, events[..|events| - 1]);
    }
  }

  lemma OpeningRecordsNothing(s: Scan, g: Group)
    requires !s.inTransaction
    ensures ScanFrom(s, g.Opening()) == s.(pos := s.pos + Bytes(g.Opening()))
  {
    if g.gtid.Some? {
      assert g.Opening()[..0] == [];
    }
  }

  lemma ScanOfOne(s: Scan, ev: Event)
    ensures ScanFrom(s, [ev]) == ScanEvent(s, ev)
    ensures Bytes([ev]) == ev.size
  {
    assert [ev][..0] == [];
    assert Bytes([]) == 0;
  }

  // The scan of the part of a group in front of its last event.
  lemma UnfinishedGroup(s: Scan, g: Group, n: nat)
    requires g.WellFormed() && !s.inTransaction && n < |g.Events()|
    ensures
      var t := ScanFrom(s, g.Events()[..n]);
      && t.xids == s.xids && t.validPos == s.validPos && t.pos == s.pos + Bytes(g.Events()[..n])
      && (n == |g.Events()| - 1 && g.Transaction? ==> t.inTransaction)
      && (n == |g.Events()| - 1 && g.Single? ==> !t.inTransaction)
  {
    var opening, part := g.Opening(), g.Events()[..n];
    OpeningRecordsNothing(s, g);
    if n < |opening| {
      assert part == [];
    } else if n == |opening| {
      assert part == opening;
    } else {
      var begin, inner := Query("BEGIN", None, g.begin), g.inner[..n - |opening| - 1];
      assert part == (opening + [begin]) + inner;
      var t := ScanFrom(s, opening);
      ScanFromConcat(s, opening, [begin]);
      ScanOfOne(t, begin);
      ScanFromConcat(s, opening + [begin], inner);
      InnerRecordsNothing(ScanEvent(t, begin), inner);
      BytesConcat(opening, [begin]);
      BytesConcat(opening + [begin], inner);
    }
  }

  lemma FinishedGroup(s: Scan, g: Group)
    requires g.WellFormed() && !s.inTransaction
    ensures
      var pos := s.pos + Bytes(g.Events());
      ScanFrom(s, g.Events()) == Scan(false, s.xids + XidOf(g.Last()), pos, pos)
  {
    UnfinishedGroup(s, g, |g.Events()| - 1);
  }

  lemma {:induction false} WholeScan(start: nat, groups: seq<Group>)
    requires AllWellFormed(groups)
    ensures
      var pos := start + Bytes(Flatten(groups));
      ScanOf(start, Flatten(groups)) == Scan(false, XidsOf(groups), pos, pos)
  {
    if groups != [] {
      var init, last := groups[..|groups| - 1], groups[|groups| - 1];
      WholeScan(start, init);
      ScanFromConcat(Scan(false, {}, start, start), Flatten(init), last.Events());
      FinishedGroup(ScanOf(start, Flatten(init)), last);
      BytesConcat(Flatten(init), last.Events());
    }
  }

  // The scan of whole groups ends at their end, and finds the transactions that they end.
  lemma WholeGroups(start: nat, groups: seq<Group>)
    requires AllWellFormed(groups)
    ensures
      var s, pos := ScanOf(start, Flatten(groups)), start + Bytes(Flatten(groups));
      && !s.inTransaction && s.pos == pos == s.validPos
      && forall x :: x in s.xids <==> HasXid(groups, |groups|, x)
  {
    WholeScan(start, groups);
    XidsOfWhole(groups);
  }

  lemma XidsOfWhole(groups: seq<Group>)
    ensures forall x :: x in XidsOf(groups) <==> HasXid(groups, |groups|, x)
  {
    assert groups[..|groups|] == groups;
    forall x
      ensures x in XidsOf(groups) <==> HasXid(groups, |groups|, x)
    {
      XidsOfAre(groups, |groups|, x);
    }
  }

  lemma {:induction false} FlattenTake(groups: seq<Group>, k: nat)
    requires k <= |groups|
    ensures Flatten(groups[..k]) <= Flatten(groups)
  {
    if k == |groups| {
      assert groups[..k] == groups;
    } else {
      FlattenTake(groups[..|groups| - 1], k);
      assert groups[..|groups| - 1][..k] == groups[..k];
    }
  }

  // The longest prefix of whole groups among the first n events.
  ghost predicate LongestWholePrefix(groups: seq<Group>, n: nat, k: nat) {
    && k <= |groups| && |Flatten(groups[..k])| <= n
    && forall j :: k < j <= |groups| ==> n < |Flatten(groups[..j])|
  }

  function WholeCount(groups: seq<Group>, n: nat): (k: nat)
    ensures k <= |groups|
  {
    if |Flatten(groups)| <= n then |groups| else WholeCount(groups[..|groups| - 1], n)
  }

  // What is longest of all groups but the last, which does not fit, is longest of all.
  lemma LongestOfInit(groups: seq<Group>, n: nat, k: nat)
    requires groups != [] && n < |Flatten(groups)| && LongestWholePrefix(groups[..|groups| - 1], n, k)
    ensures LongestWholePrefix(groups, n, k)
  {
    InitSlice(groups, k);
    forall j | k < j <= |groups|
      ensures n < |Flatten(groups[..j])|
    {
      InitSlice(groups, j);
    }
  }

  lemma InitSlice(groups: seq<Group>, j: nat)
    requires groups != [] && j <= |groups|
    ensures groups[..j] == if j == |groups| then groups else groups[..|groups| - 1][..j]
  {
  }

  lemma {:induction false} WholeCountIsLongest(groups: seq<Group>, n: nat)
    ensures LongestWholePrefix(groups, n, WholeCount(groups, n))
  {
    if |Flatten(groups)| <= n {
      assert groups[..|groups|] == groups;
    } else {
      WholeCountIsLongest(groups[..|groups| - 1], n);
      LongestOfInit(groups, n, WholeCount(groups, n));
    }
  }

  /**
   A log cut after any of its events: the scan finds the end of the longest prefix of whole
   groups and exactly the transactions that those groups end.
   */
  lemma CutLog(start: nat, groups: seq<Group>, n: nat)
    requires AllWellFormed(groups) && n <= |Flatten(groups)|
    ensures LongestWholePrefix(groups, n, WholeCount(groups, n))
    ensures
      var whole := groups[..WholeCount(groups, n)];
      var s := ScanOf(start, Flatten(groups)[..n]);
      s.validPos == start + Bytes(Flatten(whole)) && forall x :: x in s.xids <==> HasXid(whole, |whole|, x)
  {
    CutScan(start, groups, n);
    XidsOfWhole(groups[..WholeCount(groups, n)]);
  }

  lemma CutScan(start: nat, groups: seq<Group>, n: nat)
    requires AllWellFormed(groups) && n <= |Flatten(groups)|
    ensures LongestWholePrefix(groups, n, WholeCount(groups, n))
    ensures
      var whole := groups[..WholeCount(groups, n)];
      var s := ScanOf(start, Flatten(groups)[..n]);
      s.validPos == start + Bytes(Flatten(whole)) && s.xids == XidsOf(whole)
  {
    WholeCountIsLongest(groups, n);
    var k := WholeCount(groups, n);
    var whole := Flatten(groups[..k]);
    FlattenTake(groups, k);
    WholeScan(start, groups[..k]);
    if k == |groups| {
      assert groups[..k] == groups;
      assert Flatten(groups)[..n] == whole;
    } else {
      var part := CutInGroup(groups, n, k);
      ScanFromConcat(Scan(false, {}, start, start), whole, part);
      UnfinishedGroup(ScanOf(start, whole), groups[k], |part|);
    }
  }

  lemma CutInGroup(groups: seq<Group>, n: nat, k: nat) returns (part: seq<Event>)
    requires k < |groups|
    requires |Flatten(groups[..k])| <= n < |Flatten(groups[..k + 1])|
    ensures n <= |Flatten(groups)|
    ensures |part| < |groups[k].Events()| && part == groups[k].Events()[..|part|]
    ensures Flatten(groups)[..n] == Flatten(groups[..k]) + part
  {
    assert groups[..k + 1][..k] == groups[..k];
    FlattenTake(groups, k + 1);
    part := groups[k].Events()[..n - |Flatten(groups[..k])|];
    PartOf(Flatten(groups[..k]), groups[k].Events(), Flatten(groups), n);
  }

  lemma PartOf(a: seq<Event>, b: seq<Event>, all: seq<Event>, n: nat)
    requires a + b <= all && |a| <= n < |a + b|
    ensures all[..n] == a + b[..n - |a|]
  {
    assert all[..|a + b|] == a + b;
    assert all[..n] == (a + b)[..n];
  }

  /******* Truncation *******/

  // The events that lie wholly in front of position pos.
  function Truncated(start: nat, events: seq<Event>, pos: nat): seq<Event> {
    if events == [] || start + Bytes(events) <= pos then events
    else Truncated(start, events[..|events| - 1], pos)
  }

  lemma {:induction false} TruncatedIsPrefix(start: nat, events: seq<Event>, m: nat)
    requires m <= |events|
    ensures Truncated(start, events, start + Bytes(events[..m])) == events[..m]
    ensures Bytes(events[..m]) <= Bytes(events)
  {
    if m == |events| {
      assert events[..m] == events;
    } else {
      TruncatedIsPrefix(start, events[..|events| - 1], m);
      assert events[..|events| - 1][..m] == events[..m];
    }
  }

  // The valid position is the end of some event, and the scan up to there has found as much.
  lemma {:induction false} ValidPrefix(start: nat, events: seq<Event>) returns (m: nat)
    requires NoDdlInTransaction(start, events)
    ensures m <= |events|
    ensures ScanOf(start, events).validPos == start + Bytes(events[..m])
    ensures ScanOf(start, events[..m]).validPos == ScanOf(start, events).validPos
    ensures ScanOf(start, events[..m]).xids == ScanOf(start, events).xids
  {
    ScanCountsBytes(Scan(false, {}, start, start), events);
    m := |events|;
    assert events[..m] == events;
    if events != [] {
      var init := events[..m - 1];
      var last := events[m - 1];
      if InTransactionAfter(ScanOf(start, init).inTransaction, last) || last.Gtid? {
        forall k | 0 <= k < |init| && IsAtomicDdl(init[k])
          ensures !ScanOf(start, init[..k + 1]).inTransaction
        {
          assert init[..k + 1] == events[..k + 1];
        }
        m := ValidPrefix(start, init);
        assert init[..m] == events[..m];
      }
    }
  }

  /**
   Recovering a truncated log again: nothing more is cut off and the same transactions are
   found, for every sequence of events.
   */
  lemma RecoverAgain(start: nat, events: seq<Event>)
    requires NoDdlInTransaction(start, events)
    ensures
      var s := ScanOf(start, events);
      var kept := Truncated(start, events, s.validPos);
      && s.validPos == start + Bytes(kept) && kept <= events
      && ScanOf(start, kept).validPos == s.validPos
      && ScanOf(start, kept).xids == s.xids
  {
    var m := ValidPrefix(start, events);
    TruncatedIsPrefix(start, events, m);
  }

  // The scan never records a position before the first event or past the last one.
  lemma {:induction false} ValidPosInFile(start: nat, events: seq<Event>)
    ensures start <= ScanOf(start, events).validPos <= start + Bytes(events)
  {
    if events != [] {
      ScanCountsBytes(Scan(false, {}, start, start), events);
      ValidPosInFile(start, events[..|events| - 1]);
    }
  }

  /******* The procedure *******/

  class BinlogFile {
    // Where the first event after the format description begins.
    const start: nat
    // The flag in the format description: not closed yet.
    var inUse: bool
    var events: seq<Event>

    constructor (start: nat)
      requires 0 < start
      ensures this.start == start && inUse && events == []
    {
      this.start := start;
      inUse, events := true, [];
    }

    function Size(): nat
      reads this
    {
      start + Bytes(events)
    }

    // Collects the transactions in the file and the position up to which it is valid.
    method BinlogRecover() returns (xids: set<Xid>, validPos: nat)
      ensures xids == ScanOf(start, events).xids
      ensures forall x :: x in xids <==> exists k :: 0 <= k < |events| && Carries(events[k], x)
      ensures validPos == ScanOf(start, events).validPos
    {
      var inTransaction := false;
      xids, validPos := {}, start;
      var pos := start;
      for i := 0 to |events|
        invariant ScanOf(start, events[..i]) == Scan(inTransaction, xids, pos, validPos)
      {
        var ev := events[i];
        match ev {
          case Query(text, ddlXid, _) =>
            if text == "BEGIN" {
              inTransaction := true;
            }
            if text == "COMMIT" {
              inTransaction := false;
            }
            if ddlXid.Some? {
              xids := xids + {ddlXid.value};
            }
          case XidEvent(xid, _) =>
            inTransaction := false;
            xids := xids + {xid};
          case _ =>
        }
        pos := pos + ev.size;
        if !inTransaction && !ev.Gtid? {
          validPos := pos;
        }
        assert events[..i + 1][..i] == events[..i];
      }
      assert events[..|events|] == events;
      AllFound(start, events);
    }

    /**
     Opening the last log: one that was not closed is scanned, truncated to its valid part and
     marked closed. Returns the transactions the engines are told to commit, if it was scanned.
     */
    method Open() returns (found: Option<set<Xid>>)
      requires 0 < start
      modifies this
      ensures !inUse
      ensures !old(inUse) ==> found == None && events == old(events)
      ensures old(inUse) ==>
        && found == Some(ScanOf(start, old(events)).xids)
        && events == Truncated(start, old(events), ScanOf(start, old(events)).validPos)
    {
      found := None;
      var validPos := 0;
      var binlogSize := 0;
      if inUse {
        var xids;
        xids, validPos := BinlogRecover();
        found := Some(xids);
        binlogSize := Size();
      }
      ValidPosInFile(start, events);
      if validPos > 0 {
        if validPos < binlogSize {
          events := Truncated(start, events, validPos);
        }
        inUse := false;
      }
    }
  }
}
