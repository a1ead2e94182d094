/**
 The circular queue of groups assigned to the replica's workers, and the low-water mark of
 finished groups that is read from it.
 */
module AssignedQueue {
  import opened Basics

  datatype Group = Group(sequenceNumber: int, lastCommitted: int, done: bool)

  /******* Meaning of the low-water mark *******/

  // The end of the run of finished groups that starts at position k.
  function RunEnd(items: seq<Group>, k: nat): (r: nat)
    requires k <= |items|
    ensures k <= r <= |items|
    ensures forall j :: k <= j < r ==> items[j].done
    ensures r == |items| || !items[r].done
    decreases |items| - k
  {
    if k < |items| && items[k].done then RunEnd(items, k + 1) else k
  }

  // What a scan of the whole queue finds: the number of the last group of the finished prefix,
  // or the stable mark left by the groups already removed.
  function FullScan(items: seq<Group>, stable: int): int {
    var r := RunEnd(items, 0);
    if r == 0 then stable else items[r - 1].sequenceNumber
  }

  lemma {:induction false} RunEndIs(items: seq<Group>, k: nat, r: nat)
    requires k <= r <= |items|
    requires forall j :: k <= j < r ==> items[j].done
    requires r == |items| || !items[r].done
    ensures RunEnd(items, k) == r
    decreases r - k
  {
    if k < r {
      RunEndIs(items, k + 1, r);
    }
  }

  lemma {:induction false} RunEndAtLeast(items: seq<Group>, k: nat, m: nat)
    requires k <= m <= |items|
    requires forall j :: k <= j < m ==> items[j].done
    ensures m <= RunEnd(items, k)
    decreases m - k
  {
    if k < m {
      RunEndAtLeast(items, k + 1, m);
    }
  }

  ghost predicate Consecutive(items: seq<Group>) {
    && (forall i :: 0 <= i < |items| ==> items[i].sequenceNumber == items[0].sequenceNumber + i)
    && (forall i :: 0 <= i < |items| ==> 0 <= items[i].sequenceNumber)
    && (|items| >= 2 ==> 0 < items[0].sequenceNumber)
  }

  // The cached mark is the stable one or older, or points into the finished prefix.
  ghost predicate MarkInv(items: seq<Group>, stable: int, mark: int) {
    && 0 <= stable && 0 <= mark
    && (stable == SEQ_UNINIT || items == [] || stable + 1 == items[0].sequenceNumber)
    && (mark > stable ==>
      && items != []
      && 0 <= mark - items[0].sequenceNumber < |items|
      && forall k :: 0 <= k <= mark - items[0].sequenceNumber ==> items[k].done)
  }

  // Everything up to the mark is finished.
  lemma MarkIsSafe(items: seq<Group>, stable: int, mark: int, i: nat)
    requires Consecutive(items) && MarkInv(items, stable, mark)
    requires i < |items| && 0 < items[i].sequenceNumber <= mark
    ensures items[i].done
  {
  }

  // What a fresh scan does to a cached mark.
  lemma MarkFromScan(items: seq<Group>, stable: int, mark: int)
    requires Consecutive(items) && MarkInv(items, stable, mark)
    ensures MarkInv(items, stable, FullScan(items, stable))
    ensures ClockLeq(mark, FullScan(items, stable))
    ensures RunEnd(items, 0) == 0 ==> mark <= stable
    ensures RunEnd(items, 0) > 0 && mark > stable ==> mark - items[0].sequenceNumber < RunEnd(items, 0)
  {
    var r := RunEnd(items, 0);
    if mark > stable {
      RunEndAtLeast(items, 0, mark - items[0].sequenceNumber + 1);
    }
    if r > 0 {
      assert items[r - 1].sequenceNumber == items[0].sequenceNumber + (r - 1);
    }
  }

  // Completions and removals never lower the full scan.
  lemma ScanAfterCompletion(items: seq<Group>, stable: int, k: nat)
    requires Consecutive(items) && k < |items| && 0 <= stable
    requires stable == SEQ_UNINIT || stable + 1 == items[0].sequenceNumber
    ensures FullScan(items, stable) <= FullScan(items[k := items[k].(done := true)], stable)
  {
    var items' := items[k := items[k].(done := true)];
    RunEndAtLeast(items', 0, RunEnd(items, 0));
  }

  lemma ScanAfterRemoval(items: seq<Group>, stable: int)
    ensures
      var r := RunEnd(items, 0);
      FullScan(items[r..], if r == 0 then stable else items[r - 1].sequenceNumber) == FullScan(items, stable)
  {
    RunEndIs(items[RunEnd(items, 0)..], 0, 0);
  }

  /******* The queue *******/

  // The slot of the k-th group of a circular queue.
  function SlotOf(entry: nat, size: nat, k: nat): (i: nat)
    requires k <= size && entry < size
    ensures i < size
  {
    if entry + k < size then entry + k else entry + k - size
  }

  class Queue {
    const size: nat
    const slots: array<Group>
    var entry: nat
    var len: nat
    // The sequence number of the last group removed: the stable low-water mark.
    var lwm: int
    // The groups in the queue, oldest first.
    ghost var items: seq<Group>

    ghost predicate Valid()
      reads this, slots
    {
      && size == slots.Length
      && 0 < size
      && entry < size
      && len <= size
      && |items| == len
      && forall k :: 0 <= k < len ==> items[k] == slots[SlotOf(entry, size, k)]
    }

    constructor (size: nat)
      requires 0 < size
      ensures Valid() && fresh(slots)
      ensures items == [] && lwm == SEQ_UNINIT && entry == 0 && this.size == size
    {
      this.size := size;
      slots := new Group[size](_ => Group(SEQ_UNINIT, SEQ_UNINIT, false));
      entry, len, lwm, items := 0, 0, SEQ_UNINIT, [];
    }

    method EnQueue(g: Group) returns (index: nat)
      requires Valid() && len < size
      modifies this`len, this`items, slots
      ensures Valid() && items == old(items) + [g]
      ensures len == old(len) + 1 && index == SlotOf(entry, size, len - 1)
    {
      index := SlotOf(entry, size, len);
      slots[index] := g;
      len := len + 1;
      items := items + [g];
    }

    method Replace(ghost k: nat, index: nat, g: Group)
      requires Valid() && k < len && index == SlotOf(entry, size, k)
      modifies this`items, slots
      ensures Valid() && items == old(items)[k := g]
    {
      slots[index] := g;
      items := items[k := g];
    }

    // A worker reports its group finished.
    method MarkDone(k: nat)
      requires Valid() && k < len
      modifies this`items, slots
      ensures Valid() && items == old(items)[k := old(items)[k].(done := true)]
    {
      slots[SlotOf(entry, size, k)] := slots[SlotOf(entry, size, k)].(done := true);
      items := items[k := items[k].(done := true)];
    }

    // The last group of the finished run that starts at the given slot, or `size` if none.
    method FindLwm(start: nat, ghost k: nat) returns (index: nat, sequenceNumber: int)
      requires Valid() && k < len && start == SlotOf(entry, size, k)
      ensures
        var r := RunEnd(items, k);
        if r == k then index == size
        else index == SlotOf(entry, size, r - 1) && sequenceNumber == items[r - 1].sequenceNumber
    {
      index, sequenceNumber := size, SEQ_UNINIT;
      var i := start;
      ghost var r := k;
      var left := if entry <= start then len - (start - entry) else len - (start + size - entry);
      while left > 0 && slots[i].done
        invariant k <= r <= len && left == len - r
        invariant r < len ==> i == SlotOf(entry, size, r)
        invariant i < size
        invariant RunEnd(items, k) == RunEnd(items, r)
        invariant if r == k then index == size
          else index == SlotOf(entry, size, r - 1) && sequenceNumber == items[r - 1].sequenceNumber
        decreases left
      {
        index, sequenceNumber := i, slots[i].sequenceNumber;
        i := if i + 1 < size then i + 1 else 0;
        left := left - 1;
        r := r + 1;
      }
    }

    method DeQueue()
      requires Valid() && 0 < len
      modifies this`entry, this`len, this`items
      ensures Valid() && items == old(items)[1..]
      ensures entry == SlotOf(old(entry), size, 1)
    {
      entry := if entry + 1 < size then entry + 1 else 0;
      len := len - 1;
      items := items[1..];
    }

    // Removes the finished prefix and keeps the number of the last group removed.
    method MoveQueueHead() returns (count: nat)
      requires Valid()
      modifies this`entry, this`len, this`lwm, this`items
      ensures Valid()
      ensures count == RunEnd(old(items), 0)
      ensures items == old(items)[count..]
      ensures lwm == if count == 0 then old(lwm) else old(items)[count - 1].sequenceNumber
      ensures entry == SlotOf(old(entry), size, count)
    {
      count := 0;
      ghost var was := items;
      while len > 0 && slots[entry].done
        invariant Valid() && count + len == old(len)
        invariant entry == SlotOf(old(entry), size, count)
        invariant items == was[count..]
        invariant forall j :: 0 <= j < count ==> was[j].done
        invariant lwm == if count == 0 then old(lwm) else was[count - 1].sequenceNumber
        decreases len
      {
        assert items[0] == slots[SlotOf(entry, size, 0)] == was[count];
        lwm := slots[entry].sequenceNumber;
        DeQueue();
        count := count + 1;
      }
      assert len > 0 ==> items[0] == slots[SlotOf(entry, size, 0)] == was[count];
      RunEndIs(was, 0, count);
    }
  }
}
