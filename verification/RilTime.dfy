/** struct timeval and the macros of ril_event.cpp. */
module RilTime {
  const MICROS_PER_SEC: int := 1_000_000

  datatype RawTimeVal = TimeVal(sec: int, usec: int)

  /** What the clock reads and what timers are given: a normalised timeval. */
  type TimeVal = t: RawTimeVal | 0 <= t.usec < MICROS_PER_SEC witness TimeVal(0, 0)

  function Micros(t: TimeVal): int {
    t.sec * MICROS_PER_SEC + t.usec
  }

  /** timercmp(a, b, <) */
  predicate Before(a: TimeVal, b: TimeVal) {
    if a.sec == b.sec then a.usec < b.usec else a.sec < b.sec
  }

  lemma BeforeIsLess(a: TimeVal, b: TimeVal)
    ensures Before(a, b) <==> Micros(a) < Micros(b)
    ensures a == b <==> Micros(a) == Micros(b)
  {
  }

  /** timeradd */
  function Add(a: TimeVal, b: TimeVal): TimeVal {
    var usec := a.usec + b.usec;
    if usec >= MICROS_PER_SEC then TimeVal(a.sec + b.sec + 1, usec - MICROS_PER_SEC)
    else TimeVal(a.sec + b.sec, usec)
  }

  /** timersub */
  function Sub(a: TimeVal, b: TimeVal): TimeVal {
    var usec := a.usec - b.usec;
    if usec < 0 then TimeVal(a.sec - b.sec - 1, usec + MICROS_PER_SEC)
    else TimeVal(a.sec - b.sec, usec)
  }

  /** The macros are exact on normalised values, and undo each other. */
  lemma AddSub(a: TimeVal, b: TimeVal)
    ensures Micros(Add(a, b)) == Micros(a) + Micros(b)
    ensures Micros(Sub(a, b)) == Micros(a) - Micros(b)
    ensures Add(b, Sub(a, b)) == a && Sub(Add(a, b), b) == a
  {
  }
}
