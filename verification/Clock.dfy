/**
 Instants in nanoseconds. The tables keep whole seconds (backend/internal/store/sqlite.go), so
 an instant reads back rounded down.
 */
module Clock {

  const SECOND: int := 1_000_000_000
  const MINUTE: int := 60 * SECOND
  const HOUR: int := 60 * MINUTE
  const DAY: int := 24 * HOUR

  /** What a stored time reads back as. */
  function Stored(t: int): (s: int)
    ensures s <= t < s + SECOND && s % SECOND == 0
  {
    t - t % SECOND
  }

  lemma StoredPlusWholeSeconds(t: int, n: int)
    ensures Stored(t + n * SECOND) == Stored(t) + n * SECOND
    ensures Stored(t) <= t < Stored(t) + SECOND
  {
    assert (t + n * SECOND) % SECOND == t % SECOND;
  }

  lemma StoredIsMonotone(a: int, b: int)
    requires a <= b
    ensures Stored(a) <= Stored(b)
  {
    assert a / SECOND <= b / SECOND;
  }

  /** A whole second not after `t` is not after `t` rounded down either. */
  lemma WholeSecondsStayBelow(whole: int, t: int)
    requires whole % SECOND == 0 && whole <= t
    ensures whole <= Stored(t)
  {
  }
}
