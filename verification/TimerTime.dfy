/** Deadlines of LocTimer: struct timespec, how start() computes one, how ranks() compares two. */
module TimerTime {
  const NANOS_PER_SEC: int := 1_000_000_000
  const INT32_LIMIT: int := 0x8000_0000

  datatype TimeSpec = TimeSpec(sec: int, nsec: int)

  function Nanos(t: TimeSpec): int {
    t.sec * NANOS_PER_SEC + t.nsec
  }

  predicate Normalised(t: TimeSpec) {
    0 <= t.sec && 0 <= t.nsec < NANOS_PER_SEC
  }

  /** What CLOCK_BOOTTIME can read: normalised, after boot, and with seconds that fit an int. */
  type Deadline = t: TimeSpec | Normalised(t) && t.sec < INT32_LIMIT && Nanos(t) > 0
    witness TimeSpec(1, 0)

  /** Conversion of a long to int. */
  function ToInt32(x: int): int {
    var low := x % (2 * INT32_LIMIT);
    if low < INT32_LIMIT then low else low - 2 * INT32_LIMIT
  }

  /** LocTimerDelegate::ranks: the later the other deadline, the higher this one ranks. */
  function Ranks(mine: TimeSpec, other: TimeSpec): int {
    var rank := ToInt32(other.sec - mine.sec);
    if rank == 0 then ToInt32(other.nsec - mine.nsec) else rank
  }

  lemma RanksIsEarlier(a: Deadline, b: Deadline)
    ensures Ranks(a, b) > 0 <==> Nanos(a) < Nanos(b)
    ensures Ranks(a, b) == 0 <==> a == b
    ensures a == b <==> Nanos(a) == Nanos(b)
  {
    assert ToInt32(b.sec - a.sec) == b.sec - a.sec;
    assert ToInt32(b.nsec - a.nsec) == b.nsec - a.nsec;
  }

  /** Why the bound on seconds is there: past it the truncation turns the order round. */
  lemma RanksOverflows(a: TimeSpec, b: TimeSpec)
    requires Normalised(a) && Normalised(b) && INT32_LIMIT <= b.sec - a.sec < 2 * INT32_LIMIT
    ensures Nanos(a) < Nanos(b) && Ranks(a, b) < 0
    ensures Ranks(b, a) > 0 <==> b.sec - a.sec > INT32_LIMIT
  {
    var gap := b.sec - a.sec;
    assert gap % (2 * INT32_LIMIT) == gap;
    assert -gap % (2 * INT32_LIMIT) == 2 * INT32_LIMIT - gap;
  }

  /** The deadline LocTimer::start computes, with its carry only when it is needed. */
  function FutureTime(now: TimeSpec, timeOutInMs: nat): TimeSpec {
    var sec := now.sec + timeOutInMs / 1000;
    var nsec := now.nsec + timeOutInMs % 1000 * 1_000_000;
    if nsec >= NANOS_PER_SEC then TimeSpec(sec + nsec / NANOS_PER_SEC, nsec % NANOS_PER_SEC)
    else TimeSpec(sec, nsec)
  }

  /** start() keeps deadlines normalised and exact, and its sum of nanoseconds fits an int. */
  lemma FutureTimeExact(now: TimeSpec, timeOutInMs: nat)
    requires Normalised(now)
    ensures Normalised(FutureTime(now, timeOutInMs))
    ensures Nanos(FutureTime(now, timeOutInMs)) == Nanos(now) + timeOutInMs * 1_000_000
    ensures now.nsec + timeOutInMs % 1000 * 1_000_000 < INT32_LIMIT
  {
    assert timeOutInMs == 1000 * (timeOutInMs / 1000) + timeOutInMs % 1000;
  }
}
