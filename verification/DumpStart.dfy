/** The log file from which a source starts sending to a replica that has a given set of GTIDs. */
module DumpStart {
  import opened Basics

  type Gtid = nat

  // What reading the head of a log file yields.
  datatype Head = ReadError | NoGtids | Previous(gtids: set<Gtid>) | Truncated

  // `own` are the GTIDs of the transactions in the file, `first` is the first of them.
  datatype LogFile = LogFile(head: Head, own: set<Gtid>, first: Option<Gtid>)

  datatype Failure = IndexUnreadable | NoLogs | HeaderUnreadable | LogWithoutGtids | Missing

  datatype Result = Found(i: nat) | Failed(failure: Failure)

  // The search passes over the file.
  predicate Passed(f: LogFile, have: set<Gtid>) {
    f.head.Truncated? || (f.head.Previous? && !(f.head.gtids <= have))
  }

  predicate Suits(f: LogFile, have: set<Gtid>) {
    f.head.Previous? && f.head.gtids <= have
  }

  ghost predicate AllPassedAfter(files: seq<LogFile>, i: nat, have: set<Gtid>) {
    forall j :: i <= j < |files| ==> Passed(files[j], have)
  }

  // What the file the search stops at makes of it.
  predicate StopsWith(f: LogFile, have: set<Gtid>, i: nat, r: Result) {
    match f.head
    case ReadError => r == Failed(HeaderUnreadable)
    case NoGtids => r == Failed(LogWithoutGtids)
    case Previous(gtids) => gtids <= have && r == Found(i)
    case Truncated => false
  }

  // The first GTID in the log from file i on.
  function FirstFrom(files: seq<LogFile>, i: nat): (g: Option<Gtid>)
    requires i <= |files|
    ensures g == None ==> forall k :: i <= k < |files| ==> !GivesFirst(files[k])
    ensures g.Some? ==> exists j ::
      && i <= j < |files| && GivesFirst(files[j]) && files[j].first == g
      && forall k :: i <= k < j ==> !GivesFirst(files[k])
    decreases |files| - i
  {
    if i == |files| then None else if GivesFirst(files[i]) then files[i].first else FirstFrom(files, i + 1)
  }

  predicate GivesFirst(f: LogFile) {
    f.head.Previous? && f.first.Some?
  }

  // Searches from the newest file backwards. The first GTID is that of the chosen file, or of the
  // next one that has any.
  method FindFirstLogNotInGtidSet(indexReadable: bool, files: seq<LogFile>, have: set<Gtid>)
    returns (r: Result, firstGtid: Option<Gtid>)
    ensures !indexReadable <==> r == Failed(IndexUnreadable)
    ensures indexReadable && files == [] <==> r == Failed(NoLogs)
    ensures r == Failed(Missing) <==> indexReadable && files != [] && AllPassedAfter(files, 0, have)
    ensures r.Found? || r == Failed(HeaderUnreadable) || r == Failed(LogWithoutGtids) ==>
      exists i :: 0 <= i < |files| && AllPassedAfter(files, i + 1, have) && StopsWith(files[i], have, i, r)
    ensures r.Found? ==> r.i < |files| && firstGtid == FirstFrom(files, r.i)
  {
    firstGtid := None;
    if !indexReadable {
      return Failed(IndexUnreadable), firstGtid;
    }
    if files == [] {
      return Failed(NoLogs), firstGtid;
    }
    var i := |files|;
    while i > 0
      invariant 0 <= i <= |files| && AllPassedAfter(files, i, have)
      invariant firstGtid == FirstFrom(files, i)
    {
      i := i - 1;
      match files[i].head {
        case ReadError => return Failed(HeaderUnreadable), firstGtid;
        case NoGtids => return Failed(LogWithoutGtids), firstGtid;
        case Previous(gtids) =>
          if files[i].first.Some? {
            firstGtid := files[i].first;
          }
          if gtids <= have {
            return Found(i), firstGtid;
          }
        case Truncated =>
      }
    }
    r := Failed(Missing);
  }

  /******* What the choice means *******/

  function Logged(purged: set<Gtid>, files: seq<LogFile>): set<Gtid> {
    if files == [] then purged else Logged(purged, files[..|files| - 1]) + files[|files| - 1].own
  }

  // Every file that has a previous-GTIDs event lists there what was logged before it, in files
  // that have been purged or are still there.
  ghost predicate Consistent(purged: set<Gtid>, files: seq<LogFile>) {
    forall i :: 0 <= i < |files| && files[i].head.Previous? ==> files[i].head.gtids == Logged(purged, files[..i])
  }

  predicate Lacks(f: LogFile, have: set<Gtid>) {
    !(f.own <= have)
  }

  lemma {:induction false} OwnIsLogged(purged: set<Gtid>, files: seq<LogFile>, j: nat)
    requires j < |files|
    ensures files[j].own <= Logged(purged, files) && purged <= Logged(purged, files)
  {
    if j < |files| - 1 {
      OwnIsLogged(purged, files[..|files| - 1], j);
    } else if j > 0 {
      OwnIsLogged(purged, files[..|files| - 1], j - 1);
    }
  }

  lemma {:induction false} LoggedGrows(purged: set<Gtid>, files: seq<LogFile>, i: nat)
    requires i <= |files|
    ensures purged <= Logged(purged, files[..i]) <= Logged(purged, files)
  {
    if i == |files| {
      assert files[..i] == files;
      if i > 0 {
        OwnIsLogged(purged, files, 0);
      }
    } else {
      LoggedGrows(purged, files[..|files| - 1], i);
      assert files[..|files| - 1][..i] == files[..i];
    }
  }

  lemma {:induction false} LoggedIsSomewhere(purged: set<Gtid>, files: seq<LogFile>, g: Gtid)
    requires g in Logged(purged, files) && g !in purged
    ensures exists j :: 0 <= j < |files| && g in files[j].own
  {
    var n := |files| - 1;
    if g !in files[n].own {
      LoggedIsSomewhere(purged, files[..n], g);
      var j :| 0 <= j < n && g in files[..n][j].own;
      assert g in files[j].own;
    }
  }

  /**
   Nothing that the replica lacks is skipped: it lies in the chosen file or a later one.
   */
  lemma NothingIsSkipped(purged: set<Gtid>, files: seq<LogFile>, have: set<Gtid>, i: nat, g: Gtid)
    requires Consistent(purged, files) && i < |files| && Suits(files[i], have)
    requires g in Logged(purged, files) && g !in have
    ensures g !in purged && exists j :: i <= j < |files| && g in files[j].own
    ensures forall j :: 0 <= j < i ==> g !in files[j].own
  {
    LoggedGrows(purged, files, i);
    LoggedGrows(purged, files[..i], 0);
    LoggedIsSomewhere(purged, files, g);
    var k :| 0 <= k < |files| && g in files[k].own;
    forall j | 0 <= j < i
      ensures g !in files[j].own
    {
      OwnIsLogged(purged, files[..i], j);
      assert files[..i][j] == files[j];
    }
  }

  // The chosen file as a declarative choice.
  ghost predicate Chosen(files: seq<LogFile>, have: set<Gtid>, i: nat) {
    i < |files| && Suits(files[i], have) && AllPassedAfter(files, i + 1, have)
  }

  /**
   With no truncated file the choice is the best one: the oldest file with a transaction the
   replica lacks, or the newest file when all the others have none.
   */
  lemma OldestLacking(purged: set<Gtid>, files: seq<LogFile>, have: set<Gtid>, i: nat)
    requires Consistent(purged, files) && purged <= have && i < |files|
    requires forall k :: 0 <= k < |files| ==> files[k].head.Previous?
    ensures Chosen(files, have, i) <==>
      && (forall j :: 0 <= j < i ==> !Lacks(files[j], have))
      && (i == |files| - 1 || Lacks(files[i], have))
  {
    if forall j :: 0 <= j < i ==> !Lacks(files[j], have) {
      HaveAllBefore(purged, files, have, i);
      if i < |files| - 1 {
        if Lacks(files[i], have) {
          forall j | i + 1 <= j < |files|
            ensures Passed(files[j], have)
          {
            LacksLater(purged, files, have, i, j);
          }
        } else {
          HaveAllBefore(purged, files, have, i + 1);
        }
      }
    } else {
      var j :| 0 <= j < i && Lacks(files[j], have);
      LacksLater(purged, files, have, j, i);
    }
  }

  lemma {:induction false} HaveAllBefore(purged: set<Gtid>, files: seq<LogFile>, have: set<Gtid>, i: nat)
    requires purged <= have && i <= |files|
    requires forall j :: 0 <= j < i ==> !Lacks(files[j], have)
    ensures Logged(purged, files[..i]) <= have
  {
    if i > 0 {
      HaveAllBefore(purged, files, have, i - 1);
      assert files[..i][..i - 1] == files[..i - 1];
    }
  }

  lemma LacksLater(purged: set<Gtid>, files: seq<LogFile>, have: set<Gtid>, i: nat, j: nat)
    requires i < j <= |files| && Lacks(files[i], have)
    ensures !(Logged(purged, files[..j]) <= have)
  {
    OwnIsLogged(purged, files[..j], i);
    assert files[..j][i] == files[i];
  }

  /**
   When the files can be read, the search fails for missing transactions exactly when the
   replica lacks one that was logged before the oldest file with a previous-GTIDs event.
   */
  lemma MissingExactly(purged: set<Gtid>, files: seq<LogFile>, have: set<Gtid>, first: nat)
    requires Consistent(purged, files) && first < |files| && files[first].head.Previous?
    requires forall k :: 0 <= k < first ==> files[k].head.Truncated?
    requires forall k :: 0 <= k < |files| ==> files[k].head.Previous? || files[k].head.Truncated?
    ensures AllPassedAfter(files, 0, have) <==> !(Logged(purged, files[..first]) <= have)
  {
    forall k | 0 <= k < |files| && Suits(files[k], have)
      ensures Suits(files[first], have)
    {
      if first < k {
        LoggedGrows(purged, files[..k], first);
        assert files[..k][..first] == files[..first];
      }
    }
  }
}
