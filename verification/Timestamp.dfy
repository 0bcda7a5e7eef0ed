/** Microsecond timestamps and their order (core/Timestamp.cpp). */
module Timestamps {
  const USEC_PER_SEC := 1000000

  datatype Timestamp = Timestamp(sec: int, usec: int) {
    predicate Less(o: Timestamp) {
      if sec == o.sec then usec < o.usec else sec < o.sec
    }

    predicate Normal() {
      0 <= usec < USEC_PER_SEC
    }

    function Micros(): int {
      sec * USEC_PER_SEC + usec
    }

    function Increment(): Timestamp {
      if usec == 999999 then Timestamp(sec + 1, 0) else Timestamp(sec, usec + 1)
    }

    function Decrement(): Timestamp {
      if usec == 0 then Timestamp(sec - 1, 999999) else Timestamp(sec, usec - 1)
    }
  }

  const NONE := Timestamp(-1, -1)
  const ZERO := Timestamp(0, 0)
  const ENDT := Timestamp(0x7fffffff, 999999)

  /** On normalised times the comparison is that of the microsecond counts. */
  lemma LessIsMicros(a: Timestamp, b: Timestamp)
    requires a.Normal() && b.Normal()
    ensures a.Less(b) <==> a.Micros() < b.Micros()
    ensures a == b <==> a.Micros() == b.Micros()
  {
  }

  /** Stepping moves by exactly one microsecond: nothing lies strictly between a time and its successor. */
  lemma StepIsOne(t: Timestamp)
    requires t.Normal()
    ensures t.Increment().Normal() && t.Increment().Micros() == t.Micros() + 1
    ensures t.Decrement().Normal() && t.Decrement().Micros() == t.Micros() - 1
    ensures t.Increment().Decrement() == t && t.Decrement().Increment() == t
  {
  }
}
