/** Vesting schedules: an amount that unlocks by a fixed step per block from a starting block on. */
module Vesting {
  import opened Perbills

  datatype Schedule = Schedule(locked: nat, perBlock: nat, start: nat)

  function LockedAt(v: Schedule, block: nat): nat {
    SatSub(v.locked, v.perBlock * SatSub(block, v.start))
  }

  function TotalLocked(schedules: seq<Schedule>, block: nat): nat {
    if schedules == [] then 0 else LockedAt(schedules[0], block) + TotalLocked(schedules[1..], block)
  }

  lemma {:induction false} TotalLockedConcat(a: seq<Schedule>, b: seq<Schedule>, block: nat)
    ensures TotalLocked(a + b, block) == TotalLocked(a, block) + TotalLocked(b, block)
  {
    if a == [] {
      assert a + b == b;
    } else {
      TotalLockedConcat(a[1..], b, block);
      assert (a + b)[1..] == a[1..] + b;
    }
  }

  lemma {:induction false} TotalLockedSnoc(schedules: seq<Schedule>, v: Schedule, block: nat)
    ensures TotalLocked(schedules + [v], block) == TotalLocked(schedules, block) + LockedAt(v, block)
  {
    TotalLockedConcat(schedules, [v], block);
    assert [v][1..] == [];
  }

  /** What is left to lock after each schedule in turn has been credited against the desired amount. */
  function Remaining(schedules: seq<Schedule>, desired: nat, block: nat): nat
    decreases |schedules|
  {
    if schedules == [] then desired
    else Remaining(schedules[1..], SatSub(desired, LockedAt(schedules[0], block)), block)
  }

  /** Subtracting schedule by schedule, flooring at zero each time, is one subtraction of the total. */
  lemma {:induction false} RemainingIsOneSubtraction(schedules: seq<Schedule>, desired: nat, block: nat)
    ensures Remaining(schedules, desired, block) == SatSub(desired, TotalLocked(schedules, block))
    decreases |schedules|
  {
    if schedules != [] {
      RemainingIsOneSubtraction(schedules[1..], SatSub(desired, LockedAt(schedules[0], block)), block);
    }
  }

  /** A schedule spread evenly over a period of blocks. */
  function Spread(lock: nat, period: nat, start: nat): Schedule
    requires period > 0
  {
    Schedule(lock, lock / period, start)
  }

  /**
   The unlock bound: after k of the period's blocks at least the share of the remaining blocks is still
   locked, and at the end of the period less than one unit per block of it.
   */
  lemma {:induction false} SpreadUnlocks(lock: nat, period: nat, start: nat, k: nat)
    requires period > 0 && k <= period
    ensures LockedAt(Spread(lock, period, start), start + k) * period >= lock * (period - k)
    ensures LockedAt(Spread(lock, period, start), start + period) == lock % period < period
  {
    var step := lock / period;
    assert lock == step * period + lock % period;
    MulMono(step, k, period);
    assert LockedAt(Spread(lock, period, start), start + k) == lock - step * k;
    var rem := lock % period;
    assert (lock - step * k) * period == lock * period - step * period * k;
    assert lock * (period - k) == lock * period - lock * k;
    assert step * period * k <= lock * k by {
      MulMono(k, step * period, lock);
    }
  }
}
