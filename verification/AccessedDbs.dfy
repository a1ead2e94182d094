/**
 The sorted list of databases a statement touches, built on the source by shifting names in
 place, and the replica's search that relies on its order.
 */
module AccessedDbs {
  import opened Basics
  import opened Names

  const MAX_DBS_IN_EVENT_MTS: nat := 16

  ghost predicate Descending(names: seq<Name>) {
    forall i, j :: 0 <= i < j < |names| ==> Less(names[j], names[i])
  }

  function SetOf(names: seq<Name>): set<Name> {
    set n | n in names
  }

  /******* Insertion *******/

  // The list with the name in its place, once.
  function Inserted(names: seq<Name>, db: Name): seq<Name> {
    if names == [] then [db]
    else if db == names[0] then names
    else if Less(names[0], db) then [db] + names
    else [names[0]] + Inserted(names[1..], db)
  }

  lemma {:induction false} InsertedNames(names: seq<Name>, db: Name)
    ensures SetOf(Inserted(names, db)) == SetOf(names) + {db}
  {
    if names != [] && db != names[0] && !Less(names[0], db) {
      InsertedNames(names[1..], db);
      assert names == [names[0]] + names[1..];
      assert SetOf(names) == {names[0]} + SetOf(names[1..]);
      assert SetOf(Inserted(names, db)) == {names[0]} + SetOf(Inserted(names[1..], db));
    }
  }

  lemma {:induction false} InsertedDescends(names: seq<Name>, db: Name)
    requires Descending(names)
    ensures Descending(Inserted(names, db))
  {
    if names != [] && db != names[0] {
      LessTotal(db, names[0]);
      if Less(names[0], db) {
        forall j | 0 <= j < |names|
          ensures Less(names[j], db)
        {
          if j > 0 {
            LessTransitive(names[j], names[0], db);
          }
        }
      } else {
        InsertedDescends(names[1..], db);
        InsertedNames(names[1..], db);
        var rest := Inserted(names[1..], db);
        forall j | 0 <= j < |rest|
          ensures Less(rest[j], names[0])
        {
          assert rest[j] in SetOf(rest);
          assert rest[j] == db || rest[j] in names[1..];
        }
      }
    }
  }

  // A name that goes in front of the list.
  lemma InsertedFirst(names: seq<Name>, db: Name)
    requires names != [] ==> Less(names[0], db)
    ensures Inserted(names, db) == [db] + names
  {
    if names != [] {
      LessTotal(db, names[0]);
    }
  }

  class Thd {
    var accessedNames: seq<Name>

    constructor ()
      ensures accessedNames == []
    {
      accessedNames := [];
    }

    // Each name smaller than the one in hand changes places with it; what is in hand at the end
    // is appended. A list that has grown past the maximum is left alone.
    method AddToBinlogAccessedDbs(db: Name)
      requires Descending(accessedNames)
      modifies this
      ensures accessedNames ==
        if |old(accessedNames)| > MAX_DBS_IN_EVENT_MTS then old(accessedNames) else Inserted(old(accessedNames), db)
    {
      if |accessedNames| > MAX_DBS_IN_EVENT_MTS {
        return;
      }
      ghost var names := accessedNames;
      var afterDb := Some(db);
      var i := 0;
      assert names[0..] == names;
      while i < |accessedNames| && afterDb.Some?
        invariant InHand(names, db, i, accessedNames, afterDb)
        decreases |accessedNames| - i, afterDb.Some?
      {
        RoundKeeps(names, db, i, accessedNames, afterDb.value);
        if afterDb.value == accessedNames[i] {
          afterDb := None;
        } else {
          if Less(accessedNames[i], afterDb.value) {
            afterDb, accessedNames := Some(accessedNames[i]), accessedNames[i := afterDb.value];
          }
          i := i + 1;
        }
      }
      AllRoundsDone(names, db, i, accessedNames, afterDb);
      if afterDb.Some? {
        accessedNames := accessedNames + [afterDb.value];
      }
    }
  }

  // The state of the insertion after i rounds: the part before i is final, the part from i on
  // untouched, and a name in hand, unless it was found to be a duplicate.
  ghost predicate InHand(names: seq<Name>, db: Name, i: nat, cur: seq<Name>, afterDb: Option<Name>) {
    && i <= |names| == |cur| && cur[i..] == names[i..]
    && Inserted(names, db) == cur[..i] + (if afterDb.Some? then Inserted(names[i..], afterDb.value) else names[i..])
  }

  lemma RoundKeeps(names: seq<Name>, db: Name, i: nat, cur: seq<Name>, afterDb: Name)
    requires Descending(names) && InHand(names, db, i, cur, Some(afterDb)) && i < |names|
    ensures cur[i] == names[i]
    ensures afterDb == names[i] ==> InHand(names, db, i, cur, None)
    ensures afterDb != names[i] && Less(names[i], afterDb) ==>
      InHand(names, db, i + 1, cur[i := afterDb], Some(names[i]))
    ensures afterDb != names[i] && !Less(names[i], afterDb) ==> InHand(names, db, i + 1, cur, Some(afterDb))
  {
    assert cur[i] == cur[i..][0] == names[i..][0];
    assert cur[i + 1..] == cur[i..][1..] == names[i + 1..];
    InsertStep(names, i, afterDb);
    if afterDb != names[i] && Less(names[i], afterDb) {
      PlaceOne(cur, i, afterDb, Inserted(names[i + 1..], names[i]));
    } else if afterDb != names[i] {
      PlaceOne(cur, i, names[i], Inserted(names[i + 1..], afterDb));
    }
  }

  lemma PlaceOne(cur: seq<Name>, i: nat, name: Name, rest: seq<Name>)
    requires i < |cur|
    ensures cur[..i] + ([name] + rest) == cur[i := name][..i + 1] + rest
    ensures cur[i := name][i + 1..] == cur[i + 1..]
    ensures cur[i] == name ==> cur[i := name] == cur
  {
    assert cur[i := name][..i + 1] == cur[..i] + [name];
  }

  lemma AllRoundsDone(names: seq<Name>, db: Name, i: nat, cur: seq<Name>, afterDb: Option<Name>)
    requires InHand(names, db, i, cur, afterDb) && (i == |names| || afterDb.None?)
    ensures Inserted(names, db) == if afterDb.Some? then cur + [afterDb.value] else cur
  {
    assert cur == cur[..i] + cur[i..];
  }

  // One round of the insertion: exchanging the name in hand with a smaller one leaves the same
  // list to be made.
  lemma InsertStep(names: seq<Name>, i: nat, db: Name)
    requires Descending(names) && i < |names|
    ensures Inserted(names[i..], db) ==
      if db == names[i] then names[i..]
      else if Less(names[i], db) then [db] + Inserted(names[i + 1..], names[i])
      else [names[i]] + Inserted(names[i + 1..], db)
  {
    assert names[i..][1..] == names[i + 1..];
    assert names[i..] == [names[i]] + names[i + 1..];
    InsertedFirst(names[i + 1..], names[i]);
  }

  // The names the list holds after a series of calls.
  function AllInserted(names: seq<Name>, dbs: seq<Name>): seq<Name> {
    if dbs == [] then names
    else
      var before := AllInserted(names, dbs[..|dbs| - 1]);
      if |before| > MAX_DBS_IN_EVENT_MTS then before else Inserted(before, dbs[|dbs| - 1])
  }

  /**
   The list stays strictly descending, without duplicates. It holds exactly the databases
   touched unless it has reached one name more than the maximum.
   */
  lemma {:induction false} ListIsSorted(dbs: seq<Name>)
    ensures Descending(AllInserted([], dbs))
    ensures SetOf(AllInserted([], dbs)) <= SetOf(dbs)
    ensures |AllInserted([], dbs)| <= MAX_DBS_IN_EVENT_MTS + 1
    ensures |AllInserted([], dbs)| <= MAX_DBS_IN_EVENT_MTS ==> SetOf(AllInserted([], dbs)) == SetOf(dbs)
  {
    if dbs != [] {
      var n := |dbs| - 1;
      ListIsSorted(dbs[..n]);
      var before := AllInserted([], dbs[..n]);
      InsertedDescends(before, dbs[n]);
      InsertedNames(before, dbs[n]);
      InsertedLength(before, dbs[n]);
      assert dbs == dbs[..n] + [dbs[n]];
      assert SetOf(dbs) == SetOf(dbs[..n]) + {dbs[n]};
    }
  }

  lemma {:induction false} InsertedLength(names: seq<Name>, db: Name)
    ensures |names| <= |Inserted(names, db)| <= |names| + 1
  {
    if names != [] && db != names[0] && !Less(names[0], db) {
      InsertedLength(names[1..], db);
    }
  }

  /******* The search on the replica *******/

  // Rewriting of the event's default database; no rules is the usual case.
  datatype Rewrite = NoRules | Rules(evDb: Name, newName: Name)

  function Effective(name: Name, rules: Rewrite): Name {
    if rules.Rules? && name == rules.evDb then rules.newName else name
  }

  // The partition that a table of the database belongs to: an empty name stands for all.
  predicate FitsRewritten(name: Name, evDb: Name, newName: Name, db: Name) {
    name == "" || (if name == evDb then newName == db else name == db)
  }

  // Where the search stops: early, if there are no rules, at a name that does not sort after
  // the table's database.
  predicate Stops(name: Name, rules: Rewrite, db: Name) {
    name == "" || (!Less(db, Effective(name, rules)) && (rules.NoRules? || db == Effective(name, rules)))
  }

  ghost predicate FirstStop(names: seq<Name>, rules: Rewrite, db: Name, i: nat) {
    && i <= |names| && (i < |names| ==> Stops(names[i], rules, db))
    && forall j :: 0 <= j < i ==> !Stops(names[j], rules, db)
  }

  method FindPartition(names: seq<Name>, rules: Rewrite, db: Name) returns (i: nat)
    ensures FirstStop(names, rules, db, i)
  {
    i := 0;
    while i < |names|
      invariant 0 <= i <= |names|
      invariant forall j :: 0 <= j < i ==> !Stops(names[j], rules, db)
      decreases |names| - i
    {
      if names[i] == "" {
        break;
      }
      var name := Effective(names[i], rules);
      if !Less(db, name) {
        if rules.NoRules? || db == name {
          break;
        }
      }
      i := i + 1;
    }
  }

  /**
   Without rewrite rules the early stop is right exactly if the list has the table's database,
   or has the empty name and otherwise only names after it.
   */
  lemma EarlyStopIsRight(names: seq<Name>, db: Name, i: nat)
    requires Descending(names) && FirstStop(names, NoRules, db, i)
    ensures i < |names| && (names[i] == "" || names[i] == db)
      <==> db in names || ("" in names && forall k :: 0 <= k < |names| ==> names[k] == "" || Less(db, names[k]))
  {
    forall k | 0 <= k < |names| - 1
      ensures names[k] != ""
    {
      EmptyIsLast(names, k);
    }
    if db in names {
      var k :| 0 <= k < |names| && names[k] == db;
      LessTotal(db, db);
      assert Stops(names[k], NoRules, db);
      LessTotal(db, names[i]);
    }
  }

  lemma EmptyIsLast(names: seq<Name>, k: nat)
    requires Descending(names) && k < |names| - 1
    ensures names[k] != ""
  {
    assert Less(names[k + 1], names[k]);
  }

  // With rules the search does not rely on the order: it finds the name that is rewritten to the
  // table's database, or is it and not rewritten, or the empty one, if there is any.
  lemma RulesSearchAll(names: seq<Name>, evDb: Name, newName: Name, db: Name, i: nat)
    requires FirstStop(names, Rules(evDb, newName), db, i)
    ensures i < |names| <==> exists k :: 0 <= k < |names| && FitsRewritten(names[k], evDb, newName, db)
    ensures i < |names| ==> FitsRewritten(names[i], evDb, newName, db)
  {
    LessTotal(db, db);
    if k :| 0 <= k < |names| && FitsRewritten(names[k], evDb, newName, db) {
      assert Stops(names[k], Rules(evDb, newName), db);
    }
  }

  /******* Handing the temporary tables over *******/

  datatype Table = Table(db: Name, id: nat)

  // The event's list as the worker sees it: one empty name when there were too many.
  ghost predicate WellAssigned(names: seq<Name>, tables: seq<Table>) {
    && Descending(names)
    && (names == [""] || forall k :: 0 <= k < |tables| ==> tables[k].db in names)
  }

  // The partition of a table: that of its database, or the one for all.
  predicate Owns(names: seq<Name>, name: Name, table: Table) {
    names == [""] || name == table.db
  }

  // The tables of one partition, the last moved first.
  function TablesOf(names: seq<Name>, tables: seq<Table>, name: Name): seq<Table> {
    if tables == [] then []
    else
      var n := |tables| - 1;
      var rest := TablesOf(names, tables[..n], name);
      if Owns(names, name, tables[n]) then [tables[n]] + rest else rest
  }

  // Every table of the partition, as often as there was one, and no others.
  lemma {:induction false} TablesOfAre(names: seq<Name>, tables: seq<Table>, name: Name, t: Table)
    ensures multiset(TablesOf(names, tables, name))[t] == if Owns(names, name, t) then multiset(tables)[t] else 0
  {
    if tables != [] {
      var n := |tables| - 1;
      TablesOfAre(names, tables[..n], name, t);
      assert tables == tables[..n] + [tables[n]];
      assert multiset(tables) == multiset(tables[..n]) + multiset{tables[n]};
    }
  }

  // The partitions' own lists after the first n tables have been moved.
  ghost predicate Distributed(names: seq<Name>, tables: seq<Table>, n: nat, entries: seq<seq<Table>>)
    requires n <= |tables|
  {
    && |entries| == |names|
    && forall i :: 0 <= i < |names| ==> entries[i] == TablesOf(names, tables[..n], names[i])
  }

  class Worker {
    var temporaryTables: seq<Table>
    var entries: seq<seq<Table>>

    constructor (tables: seq<Table>)
      ensures temporaryTables == tables && entries == []
    {
      temporaryTables, entries := tables, [];
    }

    // Every table goes to the partition of its own database; none stays with the worker.
    method DetachTempTables(names: seq<Name>)
      requires WellAssigned(names, temporaryTables)
      modifies this
      ensures temporaryTables == []
      ensures Distributed(names, old(temporaryTables), |old(temporaryTables)|, entries)
      ensures forall i, t :: 0 <= i < |names| ==>
        multiset(entries[i])[t] ==
          if names == [""] || names[i] == t.db then multiset(old(temporaryTables))[t] else 0
    {
      ghost var tables, n := temporaryTables, 0;
      entries := seq(|names|, _ => []);
      while temporaryTables != []
        invariant n <= |tables| && temporaryTables == tables[n..]
        invariant Distributed(names, tables, n, entries)
        decreases |temporaryTables|
      {
        var table := temporaryTables[0];
        var i := FindPartition(names, NoRules, table.db);
        OwnPartition(names, tables, n, i);
        entries := entries[i := [table] + entries[i]];
        assert tables[..n + 1][..n] == tables[..n];
        temporaryTables := temporaryTables[1..];
        n := n + 1;
      }
      assert tables[..n] == tables;
      forall i, t | 0 <= i < |names|
        ensures multiset(entries[i])[t] == if names == [""] || names[i] == t.db then multiset(tables)[t] else 0
      {
        TablesOfAre(names, tables, names[i], t);
      }
    }
  }

  lemma OwnPartition(names: seq<Name>, tables: seq<Table>, n: nat, i: nat)
    requires WellAssigned(names, tables) && n < |tables| && FirstStop(names, NoRules, tables[n].db, i)
    ensures forall k :: 0 <= k < |names| ==> (Owns(names, names[k], tables[n]) <==> k == i)
    ensures i < |names|
  {
    var db := tables[n].db;
    if names != [""] {
      var k :| 0 <= k < |names| && names[k] == db;
      LessTotal(db, db);
      assert Stops(names[k], NoRules, db);
      LessTotal(db, names[i]);
    } else {
      assert Stops(names[0], NoRules, db);
    }
  }
}
