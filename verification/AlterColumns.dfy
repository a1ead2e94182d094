/** The column list of a table that ALTER TABLE rebuilds: which columns it has, in what order. */
module AlterColumns {
  import opened Basics

  // A name by its weight in the system collation, in which names that differ only in case are
  // equal. Smaller weights sort first.
  type Name = nat

  // A column of the old table. `used` says that a generated column, a default or the
  // partitioning depends on it; `alteredName` is its name in the new table if no clause
  // redefines it, and `alterFails` that changing its name or default fails.
  datatype Field = Field(name: Name, stored: bool, used: bool, functional: bool, alteredName: Name, alterFails: bool)

  datatype Place = Unplaced | First | After(name: Name)

  // A column definition in the statement; `change` names the old column that it redefines.
  datatype Definition = Definition(name: Name, change: Option<Name>, stored: bool, place: Place)

  // An entry of the new list: an old column as it was, or the k-th definition. Entries are the
  // same object exactly if they are equal.
  datatype Column = Kept(i: nat) | Defined(k: nat)

  datatype Error = ColumnUsed | StoredChanged | AlterFailed | BadField | NoColumns

  datatype Alter = Alter(
    fields: seq<Field>,
    defs: seq<Definition>,
    drops: seq<Name>,
    sortsFunctionalLast: bool,
    unresolved: bool)
  {
    // Names of the columns of a table are distinct.
    ghost predicate Valid() {
      this in WithDistinctColumns()
    }

    predicate Dropped(i: nat)
      requires i < |fields|
    {
      fields[i].name in drops
    }

    // The first definition that redefines the column, |defs| if none does.
    function Changing(name: Name, from: nat): (k: nat)
      requires from <= |defs|
      ensures from <= k <= |defs| && (k < |defs| ==> defs[k].change == Some(name))
      ensures forall j :: from <= j < k ==> defs[j].change != Some(name)
      decreases |defs| - from
    {
      if from == |defs| || defs[from].change == Some(name) then from else Changing(name, from + 1)
    }

    function ColumnOf(i: nat): Column
      requires i < |fields|
    {
      var k := Changing(fields[i].name, 0);
      if k < |defs| then Defined(k) else Kept(i)
    }

    // A hidden column of a functional index that goes to the end of the table.
    predicate GoesLast(i: nat)
      requires i < |fields|
    {
      sortsFunctionalLast && fields[i].functional && ColumnOf(i).Kept?
    }

    function CollectedOne(i: nat): seq<Column>
      requires i < |fields|
    {
      if Dropped(i) || GoesLast(i) then [] else [ColumnOf(i)]
    }

    function SetAsideOne(i: nat): seq<Column>
      requires i < |fields|
    {
      if !Dropped(i) && GoesLast(i) then [Kept(i)] else []
    }

    // The entries made for the first n old columns, and those set aside for the end.
    function Collected(n: nat): seq<Column>
      requires n <= |fields|
    {
      if n == 0 then [] else Collected(n - 1) + CollectedOne(n - 1)
    }

    function SetAside(n: nat): seq<Column>
      requires n <= |fields|
    {
      if n == 0 then [] else SetAside(n - 1) + SetAsideOne(n - 1)
    }

    // The old column the definition redefines is still there.
    ghost predicate Matched(k: nat) {
      exists i :: 0 <= i < |fields| && !Dropped(i) && ColumnOf(i) == Defined(k)
    }

    function NameOf(c: Column): Name {
      match c
      case Kept(i) => if i < |fields| then fields[i].alteredName else 0
      case Defined(k) => if k < |defs| then defs[k].name else 0
    }

    // Where to look for the column a definition is to follow: |list| if it is not there.
    function Find(list: seq<Column>, name: Name): nat {
      if list == [] || NameOf(list[0]) == name then 0 else 1 + Find(list[1..], name)
    }

    lemma {:induction false} FindIsFirst(list: seq<Column>, name: Name)
      ensures Find(list, name) <= |list|
      ensures Find(list, name) < |list| ==> NameOf(list[Find(list, name)]) == name
      ensures forall j :: 0 <= j < Find(list, name) ==> NameOf(list[j]) != name
    {
      if list != [] && NameOf(list[0]) != name {
        FindIsFirst(list[1..], name);
        assert forall j :: 1 <= j < |list| ==> list[j] == list[1..][j - 1];
      }
    }

    // The list after the k-th definition has been dealt with.
    function Added(list: seq<Column>, k: nat): Option<seq<Column>>
      requires k < |defs|
    {
      var d := defs[k];
      if d.place.Unplaced? then Some(if d.change.Some? then list else list + [Defined(k)])
      else
        var rest := if d.change.Some? then Without(list, Defined(k)) else list;
        var p := Spot(rest, d.place);
        if p <= |rest| then Some(Insert(rest, p, Defined(k))) else None
    }

    // Where in the list a placed column goes: past its end if its predecessor is not there.
    function Spot(list: seq<Column>, place: Place): nat {
      if place.After? then Find(list, place.name) + 1 else 0
    }

    // The list after the first k definitions, if all of them could be placed.
    function AllAdded(k: nat): Option<seq<Column>>
      requires k <= |defs|
    {
      if k == 0 then Some(Collected(|fields|))
      else if AllAdded(k - 1).None? then None
      else Added(AllAdded(k - 1).value, k - 1)
    }

    function NewColumn(k: nat): seq<Column>
      requires k < |defs|
    {
      if defs[k].change.None? then [Defined(k)] else []
    }

    // The columns that the first k definitions add to the table.
    function NewColumns(k: nat): seq<Column>
      requires k <= |defs|
    {
      if k == 0 then [] else NewColumns(k - 1) + NewColumn(k - 1)
    }

    // Whether the column stays where it is put first.
    predicate Stays(c: Column) {
      match c
      case Kept(_) => true
      case Defined(k) => k < |defs| && defs[k].place.Unplaced?
    }

    // The entry of a definition that adds a column without saying where.
    function NewStaying(k: nat): seq<Column>
      requires k < |defs|
    {
      if defs[k].place.Unplaced? && defs[k].change.None? then [Defined(k)] else []
    }

    function Staying(list: seq<Column>): seq<Column> {
      if list == [] then []
      else Staying(list[..|list| - 1]) + if Stays(list[|list| - 1]) then [list[|list| - 1]] else []
    }
  }

  // Written as a set so that a proof can pass such a table on whole.
  ghost function WithDistinctColumns(): iset<Alter> {
    iset a: Alter | forall i, j :: 0 <= i < j < |a.fields| ==> a.fields[i].name != a.fields[j].name
  }

  // The list without the first occurrence of the entry.
  function Without(list: seq<Column>, c: Column): seq<Column> {
    if list == [] then [] else if list[0] == c then list[1..] else [list[0]] + Without(list[1..], c)
  }

  function Insert(list: seq<Column>, p: nat, c: Column): seq<Column>
    requires p <= |list|
  {
    list[..p] + [c] + list[p..]
  }

  /******* Which columns *******/

  lemma {:induction false} WithoutOne(list: seq<Column>, c: Column)
    ensures multiset(Without(list, c)) == if c in list then multiset(list) - multiset{c} else multiset(list)
  {
    if list != [] {
      assert list == [list[0]] + list[1..];
      if list[0] != c {
        WithoutOne(list[1..], c);
        assert multiset(list) == multiset{list[0]} + multiset(list[1..]);
      }
    }
  }

  lemma InsertOne(list: seq<Column>, p: nat, c: Column)
    requires p <= |list|
    ensures multiset(Insert(list, p, c)) == multiset(list) + multiset{c}
  {
    assert list == list[..p] + list[p..];
  }

  lemma AddedEntries(a: Alter, list: seq<Column>, k: nat)
    requires k < |a.defs| && a.Added(list, k).Some?
    requires a.defs[k].change.Some? ==> Defined(k) in list
    ensures multiset(a.Added(list, k).value) ==
      if a.defs[k].change.Some? then multiset(list) else multiset(list) + multiset{Defined(k)}
  {
    var d := a.defs[k];
    if !d.place.Unplaced? {
      WithoutOne(list, Defined(k));
      var rest := if d.change.Some? then Without(list, Defined(k)) else list;
      InsertOne(rest, a.Spot(rest, d.place), Defined(k));
      assert Defined(k) in list ==> Defined(k) in multiset(list);
    }
  }

  lemma {:induction false} CollectedHasMatched(a: Alter, n: nat, i: nat)
    requires i < n <= |a.fields| && !a.Dropped(i) && !a.GoesLast(i)
    ensures a.ColumnOf(i) in a.Collected(n)
  {
    if i < n - 1 {
      CollectedHasMatched(a, n - 1, i);
    }
  }

  // A definition that redefines a column finds its entry in the list.
  lemma MatchedIsListed(a: Alter, k: nat, list: seq<Column>, more: seq<Column>)
    requires a.Matched(k) && multiset(list) == multiset(a.Collected(|a.fields|)) + multiset(more)
    ensures Defined(k) in list
  {
    var i :| 0 <= i < |a.fields| && !a.Dropped(i) && a.ColumnOf(i) == Defined(k);
    CollectedHasMatched(a, |a.fields|, i);
    assert Defined(k) in multiset(a.Collected(|a.fields|));
    assert Defined(k) in multiset(list);
  }

  // The entries after k definitions: those collected from the old table, and those added since.
  ghost predicate Complete(a: Alter, k: nat, list: seq<Column>)
    requires k <= |a.defs|
  {
    multiset(list) == multiset(a.Collected(|a.fields|)) + multiset(a.NewColumns(k))
  }

  lemma AddedNext(a: Alter, k: nat, list: seq<Column>)
    requires k < |a.defs| && a.Added(list, k).Some?
    requires a.defs[k].change.Some? ==> a.Matched(k)
    requires Complete(a, k, list)
    ensures Complete(a, k + 1, a.Added(list, k).value)
  {
    if a.defs[k].change.Some? {
      MatchedIsListed(a, k, list, a.NewColumns(k));
    }
    AddedEntries(a, list, k);
    assert multiset(a.NewColumns(k + 1)) ==
      multiset(a.NewColumns(k)) + if a.defs[k].change.None? then multiset{Defined(k)} else multiset{};
  }

  /******* In what order *******/

  lemma {:induction false} StayingConcat(a: Alter, x: seq<Column>, y: seq<Column>)
    ensures a.Staying(x + y) == a.Staying(x) + a.Staying(y)
  {
    if y == [] {
      assert x + y == x;
    } else {
      StayingConcat(a, x, y[..|y| - 1]);
      assert (x + y)[..|x + y| - 1] == x + y[..|y| - 1];
    }
  }

  lemma StayingOne(a: Alter, c: Column)
    ensures a.Staying([c]) == if a.Stays(c) then [c] else []
  {
    assert [c][..0] == [];
  }

  lemma {:induction false} StayingWithout(a: Alter, list: seq<Column>, c: Column)
    requires !a.Stays(c)
    ensures a.Staying(Without(list, c)) == a.Staying(list)
  {
    if list != [] {
      var rest := list[1..];
      assert list == [list[0]] + rest;
      StayingConcat(a, [list[0]], rest);
      StayingOne(a, list[0]);
      if list[0] != c {
        StayingWithout(a, rest, c);
        StayingConcat(a, [list[0]], Without(rest, c));
      }
    }
  }

  lemma StayingInsert(a: Alter, list: seq<Column>, p: nat, c: Column)
    requires p <= |list| && !a.Stays(c)
    ensures a.Staying(Insert(list, p, c)) == a.Staying(list)
  {
    var front, back := list[..p], list[p..];
    StayingOne(a, c);
    StayingConcat(a, front + [c], back);
    StayingConcat(a, front, [c]);
    assert a.Staying(front) + [] == a.Staying(front);
    StayingConcat(a, front, back);
    assert list == front + back;
  }

  lemma AddedOrder(a: Alter, list: seq<Column>, k: nat)
    requires k < |a.defs| && a.Added(list, k).Some?
    ensures a.Staying(a.Added(list, k).value) ==
      a.Staying(list) + a.NewStaying(k)
  {
    var d, c := a.defs[k], Defined(k);
    if d.place.Unplaced? {
      StayingOne(a, c);
      StayingConcat(a, list, [c]);
    } else {
      StayingWithout(a, list, c);
      var rest := if d.change.Some? then Without(list, c) else list;
      StayingInsert(a, rest, a.Spot(rest, d.place), c);
    }
  }

  // A column with a place is put first, or directly behind the first column of the given name.
  lemma PlacedAsAsked(a: Alter, list: seq<Column>, k: nat, placed: seq<Column>) returns (p: nat)
    requires k < |a.defs| && !a.defs[k].place.Unplaced? && a.Added(list, k) == Some(placed)
    ensures p < |placed| && placed[p] == Defined(k)
    ensures a.defs[k].place.First? ==> p == 0
    ensures a.defs[k].place.After? ==> p > 0 && a.NameOf(placed[p - 1]) == a.defs[k].place.name
    ensures a.defs[k].place.After? ==> forall j :: 0 <= j < p - 1 ==> a.NameOf(placed[j]) != a.defs[k].place.name
  {
    var place := a.defs[k].place;
    var rest := if a.defs[k].change.Some? then Without(list, Defined(k)) else list;
    p := a.Spot(rest, place);
    assert placed == Insert(rest, p, Defined(k));
    if place.After? {
      a.FindIsFirst(rest, place.name);
    }
  }

  // The columns that stay where they were put first are in the order of the old table, new
  // ones in the order of the statement behind them.
  ghost predicate InOrder(a: Alter, k: nat, list: seq<Column>)
    requires k <= |a.defs|
  {
    a.Staying(list) == a.Staying(a.Collected(|a.fields|)) + a.Staying(a.NewColumns(k))
  }

  lemma OrderNext(a: Alter, k: nat, list: seq<Column>)
    requires k < |a.defs| && a.Added(list, k).Some? && InOrder(a, k, list)
    ensures InOrder(a, k + 1, a.Added(list, k).value)
  {
    AddedOrder(a, list, k);
    NewColumnsOrder(a, k + 1);
    Associate(a.Staying(a.Collected(|a.fields|)), a.Staying(a.NewColumns(k)), a.NewStaying(k));
  }

  // Written as a set so that a proof can pass such a list on whole.
  ghost function Arranged(a: Alter, k: nat): iset<seq<Column>>
    requires k <= |a.defs|
  {
    iset list: seq<Column> | Complete(a, k, list) && InOrder(a, k, list)
  }

  lemma CollectedIsArranged(a: Alter)
    ensures a.Collected(|a.fields|) in Arranged(a, 0)
  {
    assert a.NewColumns(0) == [] && a.Staying([]) == [];
  }

  lemma ArrangedNext(a: Alter, list: seq<Column>, k: nat)
    requires k < |a.defs| && a.Added(list, k).Some? && list in Arranged(a, k)
    requires a.defs[k].change.Some? ==> a.Matched(k)
    ensures a.Added(list, k).value in Arranged(a, k + 1)
  {
    AddedNext(a, k, list);
    OrderNext(a, k, list);
  }

  lemma Associate(x: seq<Column>, y: seq<Column>, z: seq<Column>)
    ensures x + y + z == x + (y + z)
  {
  }

  lemma NewColumnsOrder(a: Alter, k: nat)
    requires 0 < k <= |a.defs|
    ensures a.Staying(a.NewColumns(k)) == a.Staying(a.NewColumns(k - 1)) + a.NewStaying(k - 1)
  {
    StayingConcat(a, a.NewColumns(k - 1), a.NewColumn(k - 1));
    StayingNew(a, k - 1);
  }

  lemma StayingNew(a: Alter, k: nat)
    requires k < |a.defs|
    ensures a.Staying(a.NewColumn(k)) == a.NewStaying(k)
  {
    StayingOne(a, Defined(k));
    assert a.Staying([]) == [];
  }

  /******* The end of the table *******/

  ghost predicate SortedByName(a: Alter, list: seq<Column>) {
    forall i, j :: 0 <= i < j < |list| ==> a.NameOf(list[i]) <= a.NameOf(list[j])
  }

  function PutInOrder(a: Alter, list: seq<Column>, c: Column): seq<Column> {
    if list == [] then [c]
    else if a.NameOf(c) < a.NameOf(list[0]) then [c] + list
    else [list[0]] + PutInOrder(a, list[1..], c)
  }

  // The columns in the order of their names.
  function Sorted(a: Alter, list: seq<Column>): seq<Column> {
    if list == [] then [] else PutInOrder(a, Sorted(a, list[1..]), list[0])
  }

  lemma {:induction false} PutInOrderEntries(a: Alter, list: seq<Column>, c: Column)
    ensures multiset(PutInOrder(a, list, c)) == multiset(list) + multiset{c}
  {
    if list != [] {
      assert list == [list[0]] + list[1..];
      PutInOrderEntries(a, list[1..], c);
    }
  }

  lemma {:induction false} PutInOrderSorts(a: Alter, list: seq<Column>, c: Column)
    requires SortedByName(a, list)
    ensures SortedByName(a, PutInOrder(a, list, c))
  {
    if list != [] && a.NameOf(list[0]) <= a.NameOf(c) {
      var rest := PutInOrder(a, list[1..], c);
      PutInOrderSorts(a, list[1..], c);
      PutInOrderEntries(a, list[1..], c);
      forall j | 0 <= j < |rest|
        ensures a.NameOf(list[0]) <= a.NameOf(rest[j])
      {
        assert rest[j] in multiset(rest);
        assert rest[j] == c || rest[j] in list[1..];
      }
    }
  }

  lemma {:induction false} SortedIsSorted(a: Alter, list: seq<Column>)
    ensures SortedByName(a, Sorted(a, list)) && multiset(Sorted(a, list)) == multiset(list)
  {
    if list != [] {
      assert list == [list[0]] + list[1..];
      SortedIsSorted(a, list[1..]);
      PutInOrderSorts(a, Sorted(a, list[1..]), list[0]);
      PutInOrderEntries(a, Sorted(a, list[1..]), list[0]);
    }
  }

  /******* The whole list *******/

  // An entry that belongs in the new table: every definition, and every old column that is
  // neither dropped nor redefined.
  ghost predicate Wanted(a: Alter, c: Column) {
    match c
    case Kept(i) => i < |a.fields| && a.fields[i].name !in a.drops && !Redefined(a, a.fields[i].name)
    case Defined(k) => k < |a.defs|
  }

  predicate Redefined(a: Alter, name: Name) {
    exists k :: 0 <= k < |a.defs| && a.defs[k].change == Some(name)
  }

  // A hidden column of a functional index that stays as it was, if such go last.
  ghost predicate WantedLast(a: Alter, c: Column) {
    Wanted(a, c) && c.Kept? && a.sortsFunctionalLast && a.fields[c.i].functional
  }

  lemma KeptUnlessRedefined(a: Alter, i: nat)
    requires i < |a.fields|
    ensures a.ColumnOf(i) == Kept(i) <==> !Redefined(a, a.fields[i].name)
    ensures a.ColumnOf(i).Kept? ==> a.ColumnOf(i) == Kept(i)
  {
  }

  // Those are what is set aside for the end.
  lemma {:induction false} SetAsideIs(a: Alter, n: nat, c: Column)
    requires n <= |a.fields|
    ensures c in a.SetAside(n) <==> WantedLast(a, c) && c.i < n
  {
    if n > 0 {
      SetAsideIs(a, n - 1, c);
      KeptUnlessRedefined(a, n - 1);
    }
  }

  ghost predicate FromField(a: Alter, n: nat, c: Column)
    requires n <= |a.fields|
  {
    exists i :: 0 <= i < n && !a.Dropped(i) && a.ColumnOf(i) == c
  }

  // No two old columns have the same entry.
  lemma EntriesDiffer(a: Alter, i: nat, j: nat)
    requires a.Valid() && i < j < |a.fields|
    ensures a.ColumnOf(i) != a.ColumnOf(j)
  {
  }

  // How often the first n entries have this one.
  function CountTo(list: seq<Column>, n: nat, c: Column): nat
    requires n <= |list|
  {
    if n == 0 then 0 else CountTo(list, n - 1, c) + if list[n - 1] == c then 1 else 0
  }

  function Count(list: seq<Column>, c: Column): nat {
    CountTo(list, |list|, c)
  }

  lemma {:induction false} CountToPrefix(x: seq<Column>, y: seq<Column>, n: nat, c: Column)
    requires n <= |x| <= |y| && x == y[..|x|]
    ensures CountTo(x, n, c) == CountTo(y, n, c)
  {
    if n > 0 {
      CountToPrefix(x, y, n - 1, c);
    }
  }

  lemma {:induction false} CountIsMultiplicity(list: seq<Column>, c: Column)
    ensures multiset(list)[c] == Count(list, c)
  {
    if list != [] {
      var init := list[..|list| - 1];
      CountIsMultiplicity(init, c);
      CountToPrefix(init, list, |init|, c);
      assert list == init + [list[|list| - 1]];
    }
  }

  lemma CountConcat(x: seq<Column>, y: seq<Column>, c: Column)
    ensures Count(x + y, c) == Count(x, c) + Count(y, c)
  {
    CountIsMultiplicity(x, c);
    CountIsMultiplicity(y, c);
    CountIsMultiplicity(x + y, c);
  }

  lemma CountOne(d: Column, c: Column)
    ensures Count([d], c) == if d == c then 1 else 0
  {
    assert CountTo([d], 0, c) == 0;
  }

  // How many of the first n columns have the entry.
  function FieldCount(a: Alter, n: nat, c: Column): nat
    requires n <= |a.fields|
  {
    if n == 0 then 0 else FieldCount(a, n - 1, c) + if !a.Dropped(n - 1) && a.ColumnOf(n - 1) == c then 1 else 0
  }

  function CollectedTimes(a: Alter, n: nat, c: Column): nat
    requires n <= |a.fields|
  {
    if n == 0 then 0 else CollectedTimes(a, n - 1, c) + Count(a.CollectedOne(n - 1), c)
  }

  function SetAsideTimes(a: Alter, n: nat, c: Column): nat
    requires n <= |a.fields|
  {
    if n == 0 then 0 else SetAsideTimes(a, n - 1, c) + Count(a.SetAsideOne(n - 1), c)
  }

  lemma {:induction false} CollectedTimesIs(a: Alter, n: nat, c: Column)
    requires n <= |a.fields|
    ensures Count(a.Collected(n), c) == CollectedTimes(a, n, c)
  {
    if n > 0 {
      CollectedTimesIs(a, n - 1, c);
      CountConcat(a.Collected(n - 1), a.CollectedOne(n - 1), c);
    }
  }

  lemma {:induction false} SetAsideTimesIs(a: Alter, n: nat, c: Column)
    requires n <= |a.fields|
    ensures Count(a.SetAside(n), c) == SetAsideTimes(a, n, c)
  {
    if n > 0 {
      SetAsideTimesIs(a, n - 1, c);
      CountConcat(a.SetAside(n - 1), a.SetAsideOne(n - 1), c);
    }
  }

  lemma OneFieldCount(a: Alter, i: nat, c: Column)
    requires i < |a.fields|
    ensures Count(a.CollectedOne(i), c) + Count(a.SetAsideOne(i), c) ==
      if !a.Dropped(i) && a.ColumnOf(i) == c then 1 else 0
  {
    CountOne(a.ColumnOf(i), c);
  }

  lemma {:induction false} TimesAddUp(a: Alter, n: nat, c: Column)
    requires n <= |a.fields|
    ensures CollectedTimes(a, n, c) + SetAsideTimes(a, n, c) == FieldCount(a, n, c)
  {
    if n > 0 {
      TimesAddUp(a, n - 1, c);
      OneFieldCount(a, n - 1, c);
    }
  }

  lemma FieldCountIs(a: Alter, c: Column)
    ensures Count(a.Collected(|a.fields|), c) + Count(a.SetAside(|a.fields|), c) == FieldCount(a, |a.fields|, c)
  {
    CollectedTimesIs(a, |a.fields|, c);
    SetAsideTimesIs(a, |a.fields|, c);
    TimesAddUp(a, |a.fields|, c);
  }

  lemma {:induction false} FieldsOnce(a: Alter, n: nat, c: Column)
    requires a.Valid() && n <= |a.fields|
    ensures FieldCount(a, n, c) == if FromField(a, n, c) then 1 else 0
  {
    if n > 0 {
      FieldsOnce(a, n - 1, c);
      FromFieldNext(a, n - 1, c);
    }
  }

  lemma FromFieldNext(a: Alter, n: nat, c: Column)
    requires n < |a.fields|
    ensures FromField(a, n + 1, c) <==> FromField(a, n, c) || (!a.Dropped(n) && a.ColumnOf(n) == c)
    ensures a.Valid() && a.ColumnOf(n) == c ==> !FromField(a, n, c)
  {
    if i :| 0 <= i < n && !a.Dropped(i) && a.ColumnOf(i) == c {
      if a.Valid() {
        EntriesDiffer(a, i, n);
      }
    }
  }

  lemma {:induction false} NewOnce(a: Alter, k: nat, c: Column)
    requires k <= |a.defs|
    ensures Count(a.NewColumns(k), c) == if c.Defined? && c.k < k && a.defs[c.k].change.None? then 1 else 0
  {
    if k > 0 {
      NewOnce(a, k - 1, c);
      CountConcat(a.NewColumns(k - 1), a.NewColumn(k - 1), c);
      CountOne(Defined(k - 1), c);
    }
  }

  ghost predicate AllMatched(a: Alter) {
    forall k {:trigger a.Matched(k)} :: 0 <= k < |a.defs| && a.defs[k].change.Some? ==> a.Matched(k)
  }

  lemma WantedAreThese(a: Alter, c: Column)
    requires AllMatched(a)
    ensures Wanted(a, c) <==>
      FromField(a, |a.fields|, c) || (c.Defined? && c.k < |a.defs| && a.defs[c.k].change.None?)
    ensures !(FromField(a, |a.fields|, c) && c.Defined? && c.k < |a.defs| && a.defs[c.k].change.None?)
  {
    if c.Kept? && c.i < |a.fields| {
      KeptUnlessRedefined(a, c.i);
    }
    if c.Defined? && c.k < |a.defs| && a.defs[c.k].change.Some? {
      assert a.Matched(c.k);
    }
  }

  /******* The order of the old table *******/

  // Where an entry comes in the order of the old table and, behind it, of the statement.
  ghost predicate HasRank(a: Alter, c: Column, n: nat) {
    if n < |a.fields| then !a.Dropped(n) && !a.GoesLast(n) && a.ColumnOf(n) == c
    else n - |a.fields| < |a.defs| && a.defs[n - |a.fields|].change.None? && c == Defined(n - |a.fields|)
  }

  predicate BothStay(a: Alter, c: Column, d: Column) {
    a.Stays(c) && a.Stays(d)
  }

  ghost predicate StayingInRank(a: Alter, list: seq<Column>) {
    forall p, q, m: nat, n: nat ::
      0 <= p < q < |list| && BothStay(a, list[p], list[q]) && HasRank(a, list[p], m) && HasRank(a, list[q], n) ==> m < n
  }

  // Lists whose columns without a place of their own are in that order. Written as a set so that a
  // proof can pass one on whole.
  ghost function InOldOrder(a: Alter): iset<seq<Column>> {
    iset list: seq<Column> | StayingInRank(a, list)
  }

  lemma OneRank(a: Alter, c: Column, m: nat, n: nat)
    requires a.Valid() && HasRank(a, c, m) && HasRank(a, c, n)
    ensures m == n
  {
    if m < |a.fields| && n < |a.fields| && m != n {
      EntriesDiffer(a, if m < n then m else n, if m < n then n else m);
    }
  }

  ghost predicate Ranked(a: Alter, c: Column, from: nat, to: nat) {
    exists n: nat :: from <= n < to && HasRank(a, c, n)
  }

  ghost predicate AllRanked(a: Alter, list: seq<Column>, from: nat, to: nat) {
    forall p :: 0 <= p < |list| ==> Ranked(a, list[p], from, to)
  }

  ghost predicate RanksAscend(a: Alter, list: seq<Column>) {
    forall p, q, m: nat, n: nat ::
      0 <= p < q < |list| && HasRank(a, list[p], m) && HasRank(a, list[q], n) ==> m < n
  }

  // Lists of entries with ascending ranks in a range. A set, for the same reason.
  ghost function Ascending(a: Alter, from: nat, to: nat): iset<seq<Column>> {
    iset list: seq<Column> | AllRanked(a, list, from, to) && RanksAscend(a, list)
  }

  lemma RankedConcat(a: Alter, x: seq<Column>, y: seq<Column>, from: nat, mid: nat, to: nat)
    requires from <= mid <= to && AllRanked(a, x, from, mid) && AllRanked(a, y, mid, to)
    ensures AllRanked(a, x + y, from, to)
  {
    var list := x + y;
    forall p | 0 <= p < |list|
      ensures Ranked(a, list[p], from, to)
    {
      assert if p < |x| then Ranked(a, x[p], from, mid) else Ranked(a, y[p - |x|], mid, to);
    }
  }

  lemma RanksConcat(a: Alter, x: seq<Column>, y: seq<Column>, from: nat, mid: nat, to: nat)
    requires a.Valid() && AllRanked(a, x, from, mid) && AllRanked(a, y, mid, to)
    requires RanksAscend(a, x) && RanksAscend(a, y)
    ensures RanksAscend(a, x + y)
  {
    var list := x + y;
    forall p, q, m: nat, n: nat | 0 <= p < q < |list| && HasRank(a, list[p], m) && HasRank(a, list[q], n)
      ensures m < n
    {
      if p < |x| <= q {
        assert Ranked(a, x[p], from, mid) && Ranked(a, y[q - |x|], mid, to);
        var m': nat :| from <= m' < mid && HasRank(a, x[p], m');
        var n': nat :| mid <= n' < to && HasRank(a, y[q - |x|], n');
        OneRank(a, list[p], m, m');
        OneRank(a, list[q], n, n');
      } else if q < |x| {
        assert HasRank(a, x[p], m) && HasRank(a, x[q], n);
      } else {
        assert HasRank(a, y[p - |x|], m) && HasRank(a, y[q - |x|], n);
      }
    }
  }

  lemma AscendingConcat(a: Alter, x: seq<Column>, y: seq<Column>, from: nat, mid: nat, to: nat)
    requires a.Valid() && from <= mid <= to && x in Ascending(a, from, mid) && y in Ascending(a, mid, to)
    ensures x + y in Ascending(a, from, to)
  {
    RankedConcat(a, x, y, from, mid, to);
    RanksConcat(a, x, y, from, mid, to);
  }

  lemma AscendingOne(a: Alter, c: Column, n: nat)
    requires a.Valid() && HasRank(a, c, n)
    ensures [c] in Ascending(a, n, n + 1)
  {
    assert [c][0] == c;
  }

  lemma AscendingNone(a: Alter, from: nat, to: nat)
    ensures [] in Ascending(a, from, to)
  {
  }

  lemma {:induction false} CollectedAscends(a: Alter, n: nat)
    requires a.Valid() && n <= |a.fields|
    ensures a.Collected(n) in Ascending(a, 0, n)
  {
    if n == 0 {
      AscendingNone(a, 0, 0);
    } else {
      CollectedAscends(a, n - 1);
      if a.CollectedOne(n - 1) == [] {
        AscendingNone(a, n - 1, n);
      } else {
        AscendingOne(a, a.ColumnOf(n - 1), n - 1);
      }
      AscendingConcat(a, a.Collected(n - 1), a.CollectedOne(n - 1), 0, n - 1, n);
    }
  }

  lemma {:induction false} NewAscend(a: Alter, k: nat)
    requires a.Valid() && k <= |a.defs|
    ensures a.NewColumns(k) in Ascending(a, |a.fields|, |a.fields| + k)
  {
    var n := |a.fields|;
    if k == 0 {
      AscendingNone(a, n, n);
    } else {
      NewAscend(a, k - 1);
      if a.NewColumn(k - 1) == [] {
        AscendingNone(a, n + k - 1, n + k);
      } else {
        AscendingOne(a, Defined(k - 1), n + k - 1);
      }
      AscendingConcat(a, a.NewColumns(k - 1), a.NewColumn(k - 1), n, n + k - 1, n + k);
    }
  }

  // Of two that stay, the one that comes first in a list comes first among those that stay.
  lemma StayingKeepsOrder(a: Alter, list: seq<Column>, p: nat, q: nat) returns (p': nat, q': nat)
    requires p < q < |list| && a.Stays(list[p]) && a.Stays(list[q])
    ensures p' < q' < |a.Staying(list)| && a.Staying(list)[p'] == list[p] && a.Staying(list)[q'] == list[q]
  {
    var x, y, z := list[..p], list[p + 1..q], list[q + 1..];
    assert list == x + ([list[p]] + (y + ([list[q]] + z)));
    StayingConcat(a, x, [list[p]] + (y + ([list[q]] + z)));
    StayingConcat(a, [list[p]], y + ([list[q]] + z));
    StayingConcat(a, y, [list[q]] + z);
    StayingConcat(a, [list[q]], z);
    StayingOne(a, list[p]);
    StayingOne(a, list[q]);
    p' := |a.Staying(x)|;
    q' := p' + 1 + |a.Staying(y)|;
  }

  ghost function SameStaying(a: Alter, from: seq<Column>): iset<seq<Column>> {
    iset list: seq<Column> | a.Staying(list) == a.Staying(from)
  }

  // Any list whose columns that stay are those of another in ascending order.
  lemma StayingInOrder(a: Alter, list: seq<Column>, from: seq<Column>, to: nat)
    requires a.Valid() && from in Ascending(a, 0, to) && list in SameStaying(a, from)
    ensures list in InOldOrder(a)
  {
    forall p, q, m: nat, n: nat |
      0 <= p < q < |list| && BothStay(a, list[p], list[q]) && HasRank(a, list[p], m) && HasRank(a, list[q], n)
      ensures m < n
    {
      var p', q' := StayingKeepsOrder(a, list, p, q);
      var i, j := StayingFrom(a, from, p', q');
      assert HasRank(a, from[i], m) && HasRank(a, from[j], n);
    }
  }

  // And back.
  lemma {:induction false} StayingFrom(a: Alter, list: seq<Column>, p': nat, q': nat) returns (p: nat, q: nat)
    requires p' < q' < |a.Staying(list)|
    ensures p < q < |list| && list[p] == a.Staying(list)[p'] && list[q] == a.Staying(list)[q']
  {
    var n := |list| - 1;
    if q' < |a.Staying(list[..n])| {
      p, q := StayingFrom(a, list[..n], p', q');
    } else {
      p := StayingAt(a, list[..n], p');
      q := n;
    }
  }

  lemma {:induction false} StayingAt(a: Alter, list: seq<Column>, p': nat) returns (p: nat)
    requires p' < |a.Staying(list)|
    ensures p < |list| && list[p] == a.Staying(list)[p']
  {
    var n := |list| - 1;
    if p' < |a.Staying(list[..n])| {
      p := StayingAt(a, list[..n], p');
    } else {
      p := n;
    }
  }

  // The old table's columns with the new ones behind them.
  function InTurn(a: Alter): seq<Column> {
    a.Collected(|a.fields|) + a.NewColumns(|a.defs|)
  }

  lemma InTurnAscends(a: Alter)
    requires a.Valid()
    ensures InTurn(a) in Ascending(a, 0, |a.fields| + |a.defs|)
  {
    CollectedAscends(a, |a.fields|);
    NewAscend(a, |a.defs|);
    AscendingConcat(a, a.Collected(|a.fields|), a.NewColumns(|a.defs|), 0, |a.fields|, |a.fields| + |a.defs|);
  }

  lemma ArrangedStays(a: Alter, list: seq<Column>)
    requires list in Arranged(a, |a.defs|)
    ensures list in SameStaying(a, InTurn(a))
  {
    StayingConcat(a, a.Collected(|a.fields|), a.NewColumns(|a.defs|));
  }

  lemma ArrangedInOldOrder(a: Alter, list: seq<Column>)
    requires a.Valid() && list in Arranged(a, |a.defs|)
    ensures list in InOldOrder(a)
  {
    InTurnAscends(a);
    ArrangedStays(a, list);
    StayingInOrder(a, list, InTurn(a), |a.fields| + |a.defs|);
  }

  // What ALTER TABLE promises of the new column list.
  ghost predicate Rebuilt(a: Alter, list: seq<Column>) {
    && (forall c :: multiset(list)[c] == if Wanted(a, c) then 1 else 0)
    && exists front, tail ::
      && list == front + tail
      && (forall c :: c in tail <==> WantedLast(a, c)) && SortedByName(a, tail)
      && a.Staying(front) == a.Staying(a.Collected(|a.fields|)) + a.Staying(a.NewColumns(|a.defs|))
      && front in InOldOrder(a)
  }

  /**
   Every old column that is not dropped and every definition has exactly one entry; columns
   without a place of their own keep the order of the old table, new ones follow in the order of
   the statement; and columns of functional indexes come last, in the order of their names.
   */
  lemma ListIsRebuilt(a: Alter, front: seq<Column>)
    requires a.Valid() && AllMatched(a) && front in Arranged(a, |a.defs|)
    ensures Rebuilt(a, front + Sorted(a, a.SetAside(|a.fields|)))
  {
    var tail := Sorted(a, a.SetAside(|a.fields|));
    SortedIsSorted(a, a.SetAside(|a.fields|));
    ArrangedInOldOrder(a, front);
    forall c
      ensures c in tail <==> WantedLast(a, c)
    {
      SetAsideIs(a, |a.fields|, c);
      assert c in tail <==> c in multiset(tail);
    }
    forall c: Column
      ensures multiset(front + tail)[c] == if Wanted(a, c) then 1 else 0
    {
      EntryCount(a, front, tail, c);
    }
  }

  lemma HoldsWanted(a: Alter, list: seq<Column>)
    requires Rebuilt(a, list)
    ensures list == [] <==> forall c :: !Wanted(a, c)
  {
    assert forall c :: c in multiset(list) <==> Wanted(a, c);
    if list != [] {
      assert list[0] in multiset(list);
    }
  }

  lemma EntryCount(a: Alter, front: seq<Column>, tail: seq<Column>, c: Column)
    requires a.Valid() && AllMatched(a)
    requires Complete(a, |a.defs|, front) && multiset(tail) == multiset(a.SetAside(|a.fields|))
    ensures multiset(front + tail)[c] == if Wanted(a, c) then 1 else 0
  {
    FieldsOnce(a, |a.fields|, c);
    FieldCountIs(a, c);
    NewOnce(a, |a.defs|, c);
    WantedAreThese(a, c);
    CountIsMultiplicity(a.Collected(|a.fields|), c);
    CountIsMultiplicity(a.SetAside(|a.fields|), c);
    CountIsMultiplicity(a.NewColumns(|a.defs|), c);
    assert multiset(front + tail)[c] == multiset(front)[c] + multiset(tail)[c];
  }

  /******* Columns to follow *******/

  // A definition that is to follow a column finds one of that name, other than itself, among
  // the columns of the table and those added before.
  ghost predicate HasTarget(a: Alter, k: nat)
    requires k < |a.defs|
  {
    a.defs[k].place.After? ==>
      exists c :: c != Defined(k) && a.NameOf(c) == a.defs[k].place.name
        && (c in a.Collected(|a.fields|) || c in a.NewColumns(k))
  }

  ghost predicate AllHaveTargets(a: Alter) {
    forall k {:trigger HasTarget(a, k)} :: 0 <= k < |a.defs| ==> HasTarget(a, k)
  }

  // The definitions that redefine one of the first n columns.
  function FoundBy(a: Alter, n: nat): set<nat>
    requires n <= |a.fields|
  {
    if n == 0 then {}
    else FoundBy(a, n - 1) + if !a.Dropped(n - 1) && a.ColumnOf(n - 1).Defined? then {a.ColumnOf(n - 1).k} else {}
  }

  lemma {:induction false} FoundAreMatched(a: Alter, n: nat, k: nat)
    requires n <= |a.fields|
    ensures k in FoundBy(a, n) <==> FromField(a, n, Defined(k))
    ensures FromField(a, |a.fields|, Defined(k)) <==> a.Matched(k)
  {
    if n > 0 {
      FoundAreMatched(a, n - 1, k);
      FromFieldNext(a, n - 1, Defined(k));
    }
  }

  // The definitions that can be carried out. Written as a set so that a method's proof can pass
  // one on whole.
  ghost function Feasible(a: Alter): iset<nat> {
    iset k: nat | k < |a.defs| && (a.defs[k].change.Some? ==> a.Matched(k)) && HasTarget(a, k)
  }

  ghost predicate AllInSet(n: nat, s: iset<nat>) {
    forall k: nat :: k < n ==> k in s
  }

  lemma {:induction false} AllAddedIsArranged(a: Alter, k: nat)
    requires a.Valid() && k <= |a.defs| && AllInSet(k, Feasible(a)) && a.AllAdded(k).Some?
    ensures a.AllAdded(k).value in Arranged(a, k)
  {
    if k == 0 {
      CollectedIsArranged(a);
    } else {
      var list := a.AllAdded(k - 1).value;
      AllAddedIsArranged(a, k - 1);
      assert k - 1 in Feasible(a);
      assert a.AllAdded(k) == a.Added(list, k - 1);
      ArrangedNext(a, list, k - 1);
    }
  }

  // The next definition is carried out exactly if it can be.
  lemma NextIsFeasible(a: Alter, k: nat)
    requires a.Valid() && k < |a.defs| && AllInSet(k, Feasible(a)) && a.AllAdded(k).Some?
    ensures k in Feasible(a) <==>
      (a.defs[k].change.None? || k in FoundBy(a, |a.fields|)) && a.Added(a.AllAdded(k).value, k).Some?
  {
    FoundAreMatched(a, |a.fields|, k);
    AllAddedIsArranged(a, k);
    SpotFound(a, k, a.AllAdded(k).value);
  }

  lemma AllFeasible(a: Alter)
    ensures AllInSet(|a.defs|, Feasible(a)) <==> AllMatched(a) && AllHaveTargets(a)
  {
    if AllInSet(|a.defs|, Feasible(a)) {
      forall k: nat | k < |a.defs|
        ensures a.defs[k].change.Some? ==> a.Matched(k)
        ensures HasTarget(a, k)
      {
        assert k in Feasible(a);
      }
    }
  }

  lemma WithoutHas(list: seq<Column>, c: Column, d: Column)
    requires Count(list, c) <= 1
    ensures d in Without(list, c) <==> d in list && d != c
  {
    CountIsMultiplicity(list, c);
    WithoutOne(list, c);
    assert d in Without(list, c) <==> d in multiset(Without(list, c));
    assert d in list <==> d in multiset(list);
  }

  lemma ListHas(a: Alter, k: nat, list: seq<Column>, c: Column)
    requires k <= |a.defs| && Complete(a, k, list)
    ensures c in list <==> c in a.Collected(|a.fields|) || c in a.NewColumns(k)
  {
    assert c in list <==> c in multiset(list);
  }

  lemma EntryOnce(a: Alter, k: nat, list: seq<Column>)
    requires a.Valid() && k < |a.defs| && Complete(a, k, list)
    ensures Count(list, Defined(k)) == if a.defs[k].change.Some? && a.Matched(k) then 1 else 0
  {
    var c := Defined(k);
    FieldsOnce(a, |a.fields|, c);
    FieldCountIs(a, c);
    NewOnce(a, k, c);
    NotSetAside(a, |a.fields|, c);
    CountIsMultiplicity(list, c);
    CountIsMultiplicity(a.Collected(|a.fields|), c);
    CountIsMultiplicity(a.NewColumns(k), c);
    assert FromField(a, |a.fields|, c) <==> a.Matched(k);
  }

  lemma {:induction false} NotSetAside(a: Alter, n: nat, c: Column)
    requires n <= |a.fields| && c.Defined?
    ensures Count(a.SetAside(n), c) == 0
  {
    if n > 0 {
      NotSetAside(a, n - 1, c);
      CountConcat(a.SetAside(n - 1), a.SetAsideOne(n - 1), c);
      CountOne(Kept(n - 1), c);
    }
  }

  // Whether a column can be placed does not depend on how the others were.
  lemma SpotFound(a: Alter, k: nat, list: seq<Column>)
    requires a.Valid() && k < |a.defs| && list in Arranged(a, k)
    ensures a.Added(list, k).Some? <==> HasTarget(a, k)
  {
    var d := a.defs[k];
    if d.place.After? {
      var rest := if d.change.Some? then Without(list, Defined(k)) else list;
      RestHas(a, k, list, rest);
      FindFinds(a, rest, d.place.name);
    }
  }

  lemma FindFinds(a: Alter, list: seq<Column>, name: Name)
    ensures a.Find(list, name) <= |list|
    ensures a.Find(list, name) < |list| <==> exists c :: c in list && a.NameOf(c) == name
  {
    a.FindIsFirst(list, name);
    if a.Find(list, name) < |list| {
      assert list[a.Find(list, name)] in list;
    }
  }

  lemma RestHas(a: Alter, k: nat, list: seq<Column>, rest: seq<Column>)
    requires a.Valid() && k < |a.defs| && Complete(a, k, list)
    requires rest == if a.defs[k].change.Some? then Without(list, Defined(k)) else list
    ensures forall c :: c in rest <==> c != Defined(k) && (c in a.Collected(|a.fields|) || c in a.NewColumns(k))
  {
    EntryOnce(a, k, list);
    CountIsMultiplicity(list, Defined(k));
    forall c
      ensures c in rest <==> c != Defined(k) && (c in a.Collected(|a.fields|) || c in a.NewColumns(k))
    {
      WithoutHas(list, Defined(k), c);
      ListHas(a, k, list, c);
      assert c in list <==> c in multiset(list);
    }
  }

  /******* The procedure *******/

  datatype Result = Ok(columns: seq<Column>) | Failed(error: Error)

  // The error found while looking at an old column.
  function FieldError(a: Alter, i: nat): Option<Error>
    requires i < |a.fields|
  {
    var f := a.fields[i];
    var k := a.Changing(f.name, 0);
    if a.Dropped(i) then if f.used then Some(ColumnUsed) else None
    else if k < |a.defs| then
      if f.stored != a.defs[k].stored then Some(StoredChanged)
      else if a.defs[k].name != f.name && f.used then Some(ColumnUsed)
      else None
    else if f.alterFails then Some(AlterFailed)
    else None
  }

  // What the statement may do to an old column: drop it only if nothing depends on it, redefine it
  // with its storage kept, and its name if something depends on it, or leave it as it can be.
  ghost predicate MayTreat(a: Alter, i: nat)
    requires i < |a.fields|
  {
    var f := a.fields[i];
    if f.name in a.drops then !f.used
    else if Redefined(a, f.name) then
      exists k :: 0 <= k < |a.defs| && RedefinesFirst(a, k, f.name)
        && a.defs[k].stored == f.stored && (f.used ==> a.defs[k].name == f.name)
    else !f.alterFails
  }

  predicate RedefinesFirst(a: Alter, k: nat, name: Name)
    requires k < |a.defs|
  {
    a.defs[k].change == Some(name) && forall j :: 0 <= j < k ==> a.defs[j].change != Some(name)
  }

  lemma FieldIsGood(a: Alter, i: nat)
    requires i < |a.fields|
    ensures FieldError(a, i).None? <==> MayTreat(a, i)
  {
    var k := a.Changing(a.fields[i].name, 0);
    if k < |a.defs| {
      assert RedefinesFirst(a, k, a.fields[i].name);
    }
  }

  lemma FieldsAreGood(a: Alter)
    ensures (forall i :: 0 <= i < |a.fields| ==> FieldError(a, i).None?)
      <==> forall i :: 0 <= i < |a.fields| ==> MayTreat(a, i)
  {
    forall i | 0 <= i < |a.fields|
      ensures FieldError(a, i).None? <==> MayTreat(a, i)
    {
      FieldIsGood(a, i);
    }
  }

  class Rebuild {
    const a: Alter
    var dropList: seq<Name>
    var newCreateList: seq<Column>
    var functionalIndexColumns: seq<Column>
    // The definitions that have found the old column they redefine.
    var matched: set<nat>

    constructor (a: Alter)
      ensures this.a == a && dropList == a.drops
      ensures newCreateList == [] && functionalIndexColumns == [] && matched == {}
    {
      this.a := a;
      dropList, newCreateList, functionalIndexColumns, matched := a.drops, [], [], {};
    }

    // The first n old columns have been dealt with.
    ghost predicate CollectedUpTo(n: nat)
      reads this
    {
      && n <= |a.fields|
      && newCreateList == a.Collected(n) && functionalIndexColumns == a.SetAside(n)
      && matched == FoundBy(a, n)
      && (forall j :: n <= j < |a.fields| ==> (a.fields[j].name in dropList <==> a.Dropped(j)))
    }

    method CollectFields() returns (err: Option<Error>)
      requires a.Valid() && CollectedUpTo(0)
      modifies this
      ensures err.None? ==> CollectedUpTo(|a.fields|) && forall i :: 0 <= i < |a.fields| ==> FieldError(a, i).None?
      ensures err.Some? ==> exists i :: 0 <= i < |a.fields| && FieldError(a, i) == err
    {
      for i := 0 to |a.fields|
        invariant CollectedUpTo(i)
        invariant forall j :: 0 <= j < i ==> FieldError(a, j).None?
      {
        err := CollectField(i);
        if err.Some? {
          return;
        }
      }
      err := None;
    }

    method FindDrop(name: Name) returns (d: nat)
      ensures d <= |dropList| && (d < |dropList| <==> name in dropList)
      ensures d < |dropList| ==> dropList[d] == name
    {
      d := 0;
      while d < |dropList| && dropList[d] != name
        invariant d <= |dropList| && name !in dropList[..d]
      {
        d := d + 1;
      }
      assert dropList == dropList[..d] + dropList[d..];
    }

    method FindChange(name: Name) returns (k: nat)
      ensures k == a.Changing(name, 0)
    {
      k := 0;
      while k < |a.defs| && a.defs[k].change != Some(name)
        invariant k <= |a.defs| && a.Changing(name, k) == a.Changing(name, 0)
      {
        k := k + 1;
      }
    }

    method CollectField(i: nat) returns (err: Option<Error>)
      requires a.Valid() && i < |a.fields| && CollectedUpTo(i)
      modifies this
      ensures err == FieldError(a, i)
      ensures err.None? ==> CollectedUpTo(i + 1)
    {
      var f := a.fields[i];
      var d := FindDrop(f.name);
      if d < |dropList| {
        if f.used {
          return Some(ColumnUsed);
        }
        Erased(dropList, d);
        dropList := dropList[..d] + dropList[d + 1..];
        return None;
      }
      var k := FindChange(f.name);
      if k < |a.defs| {
        if f.stored != a.defs[k].stored {
          return Some(StoredChanged);
        }
        if a.defs[k].name != f.name && f.used {
          return Some(ColumnUsed);
        }
        matched := matched + {k};
        newCreateList := newCreateList + [Defined(k)];
      } else {
        if f.functional && a.sortsFunctionalLast {
          functionalIndexColumns := functionalIndexColumns + [Kept(i)];
        } else {
          newCreateList := newCreateList + [Kept(i)];
        }
        if f.alterFails {
          return Some(AlterFailed);
        }
      }
      err := None;
    }

    // Adds new columns, and moves those that have a place.
    method AddColumns() returns (ok: bool)
      requires a.Valid() && newCreateList == a.Collected(|a.fields|) && matched == FoundBy(a, |a.fields|)
      modifies this`newCreateList
      ensures ok <==> AllInSet(|a.defs|, Feasible(a))
      ensures ok ==> a.AllAdded(|a.defs|) == Some(newCreateList)
    {
      for k := 0 to |a.defs|
        invariant a.AllAdded(k) == Some(newCreateList)
        invariant AllInSet(k, Feasible(a))
      {
        NextIsFeasible(a, k);
        var added := false;
        if a.defs[k].change.None? || k in matched {
          added := AddColumn(k);
        }
        if !added {
          return false;
        }
      }
      ok := true;
    }

    method AddColumn(k: nat) returns (ok: bool)
      requires k < |a.defs|
      modifies this`newCreateList
      ensures a.Added(old(newCreateList), k) == if ok then Some(newCreateList) else None
    {
      var d := a.defs[k];
      if d.change.Some? && d.place.Unplaced? {
        return true;
      }
      if d.place.Unplaced? {
        newCreateList := newCreateList + [Defined(k)];
        ok := true;
      } else {
        ok := PlaceColumn(k);
      }
    }

    method PlaceColumn(k: nat) returns (ok: bool)
      requires k < |a.defs| && !a.defs[k].place.Unplaced?
      modifies this`newCreateList
      ensures a.Added(old(newCreateList), k) == if ok then Some(newCreateList) else None
    {
      var d := a.defs[k];
      if d.change.Some? {
        Remove(Defined(k));
      }
      if d.place.First? {
        assert Insert(newCreateList, 0, Defined(k)) == [Defined(k)] + newCreateList;
        newCreateList := [Defined(k)] + newCreateList;
      } else {
        var p := FindColumn(d.place.name);
        if p == |newCreateList| {
          return false;
        }
        newCreateList := newCreateList[..p + 1] + [Defined(k)] + newCreateList[p + 1..];
      }
      ok := true;
    }

    method Remove(c: Column)
      modifies this`newCreateList
      ensures newCreateList == Without(old(newCreateList), c)
    {
      var p := 0;
      while p < |newCreateList| && newCreateList[p] != c
        invariant p <= |newCreateList|
        invariant Without(newCreateList, c) == newCreateList[..p] + Without(newCreateList[p..], c)
      {
        assert newCreateList[p..][1..] == newCreateList[p + 1..];
        p := p + 1;
      }
      if p < |newCreateList| {
        newCreateList := newCreateList[..p] + newCreateList[p + 1..];
      }
    }

    method FindColumn(name: Name) returns (p: nat)
      ensures p == a.Find(newCreateList, name) <= |newCreateList|
    {
      p := 0;
      a.FindIsFirst(newCreateList, name);
      while p < |newCreateList| && a.NameOf(newCreateList[p]) != name
        invariant p <= |newCreateList|
        invariant a.Find(newCreateList, name) == p + a.Find(newCreateList[p..], name)
      {
        assert newCreateList[p..][1..] == newCreateList[p + 1..];
        p := p + 1;
      }
    }

    method PrepareColumns() returns (r: Result)
      requires a.Valid() && CollectedUpTo(0)
      modifies this
      ensures r.Ok? <==>
        && (forall i :: 0 <= i < |a.fields| ==> MayTreat(a, i))
        && AllMatched(a) && AllHaveTargets(a) && !a.unresolved
        && (exists c :: Wanted(a, c))
      ensures r.Ok? ==> Rebuilt(a, r.columns)
      ensures r == Failed(NoColumns) ==> forall c :: !Wanted(a, c)
    {
      var err := CollectFields();
      FieldsAreGood(a);
      if err.Some? {
        return Failed(err.value);
      }
      var ok := AddColumns();
      AllFeasible(a);
      if !ok || a.unresolved {
        return Failed(BadField);
      }
      AllAddedIsArranged(a, |a.defs|);
      ListIsRebuilt(a, newCreateList);
      r := CompleteList();
    }

    // The columns set aside are added at the end; an empty list is refused.
    method CompleteList() returns (r: Result)
      requires Rebuilt(a, newCreateList + Sorted(a, functionalIndexColumns))
      modifies this`newCreateList
      ensures if r.Ok? then Rebuilt(a, r.columns) else r == Failed(NoColumns)
      ensures r.Ok? <==> exists c :: Wanted(a, c)
    {
      newCreateList := newCreateList + Sorted(a, functionalIndexColumns);
      HoldsWanted(a, newCreateList);
      r := if newCreateList == [] then Failed(NoColumns) else Ok(newCreateList);
    }
  }

  lemma Erased(names: seq<Name>, d: nat)
    requires d < |names|
    ensures forall n :: n != names[d] ==> (n in names[..d] + names[d + 1..] <==> n in names)
  {
    assert names == names[..d] + [names[d]] + names[d + 1..];
  }
}
