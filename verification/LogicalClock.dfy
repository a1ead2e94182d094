/**
 The logical clock that stamps binary log transactions. Other threads may raise the clock
 between any two atomic accesses of this thread.
 */
module LogicalClocks {
  import opened Basics

  // What a clock holds: the absolute time and the time at which the current file was opened.
  datatype Clock = Clock(state: int, offset: int)

  // The clock after an undisturbed attempt to move it forward to newVal.
  function Raised(c: Clock, newVal: int): Clock {
    if newVal <= c.offset then c else c.(state := Max(c.state, newVal))
  }

  // A clock that only other threads have moved, from position i of its trace on.
  ghost predicate OnlyRises(trace: seq<int>, i: nat)
  {
    forall p :: i < p < |trace| ==> trace[p - 1] <= trace[p]
  }

  class LogicalClock {
    var state: int
    var offset: int
    // Every value the clock has had, in order; the last one is the present one.
    ghost var trace: seq<int>

    ghost predicate Valid()
      reads this
    {
      && 0 <= offset
      && 0 <= state
      && |trace| > 0
      && trace[|trace| - 1] == state
    }

    ghost function Value(): Clock
      reads this
    {
      Clock(state, offset)
    }

    constructor ()
      ensures Valid() && Value() == Clock(SEQ_UNINIT, 0)
    {
      state, offset := SEQ_UNINIT, 0;
      trace := [SEQ_UNINIT];
    }

    // Fetches the absolute time.
    method GetTimestamp() returns (r: int)
      ensures r == state
    {
      r := state;
    }

    method Step() returns (r: int)
      requires Valid()
      modifies this
      ensures Valid() && offset == old(offset)
      ensures r == state == old(state) + 1
      ensures trace == old(trace) + [r]
    {
      state := state + 1;
      trace := trace + [state];
      r := state;
    }

    method UpdateOffset(newOffset: int)
      requires Valid() && offset <= newOffset
      modifies this`offset
      ensures Valid() && offset == newOffset
    {
      offset := newOffset;
    }

    // Other threads move the clock forward by some amount.
    method Disturb(raise: nat)
      requires Valid()
      modifies this
      ensures Valid() && offset == old(offset)
      ensures state == old(state) + raise
      ensures trace == old(trace) + [state]
    {
      state := state + raise;
      trace := trace + [state];
    }

    // One atomic compare-and-exchange.
    method CompareExchange(oldVal: int, newVal: int) returns (ok: bool, seen: int)
      requires Valid() && 0 <= newVal
      modifies this
      ensures Valid() && offset == old(offset)
      ensures ok == (old(state) == oldVal)
      ensures seen == old(state)
      ensures state == if ok then newVal else old(state)
      ensures trace == old(trace) + [state]
    {
      seen := state;
      ok := state == oldVal;
      if ok {
        state := newVal;
      }
      trace := trace + [state];
    }

    /**
     The lock-free `state := max(state, newVal)`. Just before the n-th exchange attempt the
     other threads raise the clock by others[n]; a list of any length is possible, so the
     contract holds for every interference. The last entry of the trace is the instant of the
     update: all earlier moves of the call belong to other threads, and the value returned is
     the one the clock has at that instant.
     */
    method SetIfGreater(newVal: int, others: seq<nat>) returns (r: int)
      requires Valid() && 0 < newVal
      modifies this
      ensures Valid() && offset == old(offset)
      ensures newVal <= offset ==> r == SEQ_UNINIT && trace == old(trace) && state == old(state)
      ensures newVal > offset ==>
        && old(trace) <= trace
        && |old(trace)| < |trace|
        && OnlyRises(trace[..|trace| - 1], |old(trace)| - 1)
        && state == Max(trace[|trace| - 2], newVal)
        && r == state
      ensures others == [] ==> Value() == Raised(old(Value()), newVal)
    {
      if newVal <= offset {
        return SEQ_UNINIT;
      }
      var oldVal, attempt, done := newVal - 1, 0, false;
      while !done && oldVal < newVal
        invariant Valid() && offset == old(offset) && old(trace) <= trace
        invariant attempt == 0 ==> !done && oldVal == newVal - 1 && trace == old(trace)
        invariant attempt > 0 ==> |old(trace)| < |trace|
        invariant attempt > 0 ==> OnlyRises(trace[..|trace| - 1], |old(trace)| - 1)
        invariant attempt > 0 && done ==> state == newVal > trace[|trace| - 2]
        invariant attempt > 0 && !done ==> trace[|trace| - 2] == oldVal == state
        invariant others == [] ==> state == if done then newVal else old(state)
        invariant others == [] && done ==> old(state) < newVal
        // After the first failed exchange the distance to newVal falls with every failure.
        decreases !done, if attempt == 0 then 1 else 0, newVal - oldVal
      {
        if attempt < |others| {
          Disturb(others[attempt]);
        }
        var seen;
        done, seen := CompareExchange(oldVal, newVal);
        if !done {
          oldVal := seen;
        }
        attempt := attempt + 1;
      }
      r := if done then newVal else oldVal;
    }
  }
}
