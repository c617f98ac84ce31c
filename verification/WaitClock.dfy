/** The timespec arithmetic behind the accumulated waiting times. */
module WaitClock {
  const NANOS: int := 1_000_000_000

  /** The fields of a struct timespec, as a value. */
  datatype Time = Time(sec: int, nsec: int) {
    function Value(): int { sec * NANOS + nsec }
    predicate Normal() { 0 <= nsec < NANOS }
  }

  function DiffTime(end: Time, start: Time): Time {
    var nsec := end.nsec - start.nsec;
    if nsec < 0 then Time(end.sec - start.sec - 1, nsec + NANOS) else Time(end.sec - start.sec, nsec)
  }

  function AddTime(acc: Time, diff: Time): Time {
    var nsec := acc.nsec + diff.nsec;
    if nsec >= NANOS then Time(acc.sec + diff.sec + 1, nsec - NANOS) else Time(acc.sec + diff.sec, nsec)
  }

  /** Differences are exact, and normalised also when the clock went backwards. */
  lemma DiffTimeExact(end: Time, start: Time)
    requires end.Normal() && start.Normal()
    ensures DiffTime(end, start).Normal()
    ensures DiffTime(end, start).Value() == end.Value() - start.Value()
  {
  }

  /** Adding a measured difference is exact, and one carry is enough to normalise. */
  lemma AddDifference(acc: Time, end: Time, start: Time)
    requires acc.Normal() && end.Normal() && start.Normal()
    ensures AddTime(acc, DiffTime(end, start)).Normal()
    ensures AddTime(acc, DiffTime(end, start)).Value() == acc.Value() + (end.Value() - start.Value())
  {
    DiffTimeExact(end, start);
  }

  /** struct timespec, updated in place through a pointer. */
  class Timespec {
    var sec: int
    var nsec: int

    constructor (sec: int, nsec: int)
      ensures AsTime() == Time(sec, nsec)
    {
      this.sec, this.nsec := sec, nsec;
    }

    function AsTime(): Time
      reads this
    {
      Time(sec, nsec)
    }
  }

  method ClockDifftime(endTime: Timespec, startTime: Timespec, diffTime: Timespec)
    requires diffTime != endTime && diffTime != startTime
    modifies diffTime
    ensures diffTime.AsTime() == DiffTime(old(endTime.AsTime()), old(startTime.AsTime()))
  {
    diffTime.nsec := endTime.nsec - startTime.nsec;
    diffTime.sec := endTime.sec - startTime.sec;
    if diffTime.nsec < 0 {
      diffTime.sec := diffTime.sec - 1;
      diffTime.nsec := diffTime.nsec + 1000000000;
    }
  }

  method ClockAddtime(accTime: Timespec, diffTime: Timespec)
    modifies accTime
    ensures accTime.AsTime() == AddTime(old(accTime.AsTime()), old(diffTime.AsTime()))
  {
    accTime.nsec := accTime.nsec + diffTime.nsec;
    accTime.sec := accTime.sec + diffTime.sec;
    if accTime.nsec >= 1000000000 {
      accTime.sec := accTime.sec + 1;
      accTime.nsec := accTime.nsec - 1000000000;
    }
  }
}
