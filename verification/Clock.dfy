/** Clock readings in nanoseconds, and the whole seconds in which they are stored. */
module Clock {
  const NANOS: int := 1_000_000_000

  /** Seconds since the epoch. */
  function Unix(nanos: int): int {
    nanos / NANOS
  }

  lemma UnixAdds(nanos: int, seconds: int)
    ensures Unix(nanos + NANOS * seconds) == Unix(nanos) + seconds
    ensures Unix(nanos) * 1_000_000_000 <= nanos < (Unix(nanos) + 1) * 1_000_000_000
  {
  }

  lemma UnixMonotone(a: int, b: int)
    requires a <= b
    ensures Unix(a) <= Unix(b)
  {
  }
}
