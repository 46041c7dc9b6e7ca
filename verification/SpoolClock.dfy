/** How an instant survives being written as a wall-clock second and read back later. */
module SpoolClock {
  import opened QueueTypes

  /** One reading of both clocks, in nanoseconds: the monotonic one and the time since the Unix epoch. */
  datatype Clock = Clock(mono: Instant, wall: nat)

  function Seconds(nanos: nat): nat {
    nanos / NANOS
  }

  /** `instant_to_timestamp`: an instant in the past is written as the current second. */
  function Timestamp(t: Instant, now: Clock): nat {
    Seconds(now.wall) + if t > now.mono then Seconds(t - now.mono) else 0
  }

  /** `to_instant`: a second in the past is read as the current instant. */
  function InstantOf(timestamp: nat, now: Clock): Instant {
    if timestamp > Seconds(now.wall) then now.mono + (timestamp - Seconds(now.wall)) * NANOS else now.mono
  }

  function Recovered(t: Instant, written: Clock, read: Clock): Instant {
    InstantOf(Timestamp(t, written), read)
  }

  /** The later reading, with both clocks having advanced by the same amount. */
  predicate Together(earlier: Clock, later: Clock) {
    later.mono - earlier.mono == later.wall - earlier.wall >= 0
  }

  predicate WholeSeconds(t: int) {
    t % NANOS == 0
  }

  predicate Aligned(c: Clock) {
    WholeSeconds(c.mono) && WholeSeconds(c.wall)
  }

  function Max(a: int, b: int): int {
    if a < b then b else a
  }

  /** `t'` is what is left of `t` at time `now`: never before `now`, at most two seconds early or one late. */
  predicate Near(t: Instant, t': Instant, now: Instant) {
    now <= t' && Max(t, now) - 2 * NANOS < t' < Max(t, now) + NANOS
  }

  lemma RecoveredNear(t: Instant, written: Clock, read: Clock)
    requires Together(written, read)
    ensures Near(t, Recovered(t, written, read), read.mono)
  {
    Floor(written.wall);
    Floor(read.wall);
    if t > written.mono {
      Floor(t - written.mono);
    }
  }

  /** With clocks and due times in whole seconds, exactly the later of the due time and the time of reading. */
  lemma RecoveredExactly(t: Instant, written: Clock, read: Clock)
    requires Together(written, read) && Aligned(written) && Aligned(read) && WholeSeconds(t)
    ensures Recovered(t, written, read) == Max(t, read.mono)
  {
    Whole(written.wall);
    Whole(read.wall);
    Difference(t, written.mono);
    if t > written.mono {
      Whole(t - written.mono);
    }
  }

  lemma Floor(n: nat)
    ensures Seconds(n) * NANOS <= n < Seconds(n) * NANOS + NANOS
  {
  }

  lemma Whole(n: nat)
    requires WholeSeconds(n)
    ensures Seconds(n) * NANOS == n
  {
  }

  lemma Difference(a: int, b: int)
    requires WholeSeconds(a) && WholeSeconds(b)
    ensures WholeSeconds(a - b)
  {
  }
}
