/**
 Lease arithmetic of the outbox. Clocks count nanoseconds; the database's NOW() and the
 DATETIME column locked_until only see whole seconds, and the configured lock timeout is
 truncated to whole seconds before it reaches the database.
 */
module Leases {

  const SECOND: nat := 1_000_000_000

  /** NOW() as a DATETIME without fraction, and int(duration.Seconds()). */
  function WholeSeconds(nanos: nat): nat {
    nanos / SECOND
  }

  /** Durations and clock readings are truncated, not rounded. */
  lemma WholeSecondsTruncates(nanos: nat)
    ensures WholeSeconds(nanos) * 1_000_000_000 <= nanos < (WholeSeconds(nanos) + 1) * 1_000_000_000
  {
  }

  /** DATE_ADD(NOW(), INTERVAL lease SECOND), evaluated at nanosecond `at`. */
  function LockedUntil(at: nat, lease: nat): nat {
    WholeSeconds(at) + lease
  }

  /** locked_until < NOW(), evaluated at nanosecond `at`. */
  predicate Stale(lockedUntil: nat, at: nat) {
    lockedUntil < WholeSeconds(at)
  }

  /** The last nanosecond at which a claim made at `at` is promised to be safe. */
  function Deadline(at: nat, lease: nat): nat {
    at + lease * SECOND
  }

  /** First tick, at or after `t`, of a ticker created at `start`; it first fires one `interval` later. */
  function NextTick(start: nat, interval: nat, t: nat): nat
    requires interval > 0
  {
    if t <= start + interval then start + interval else start + (t - start + interval - 1) / interval * interval
  }

  lemma NeverRecoverableBeforeDeadline(at: nat, lease: nat, t: nat)
    requires t <= Deadline(at, lease)
    ensures !Stale(LockedUntil(at, lease), t)
  {
    var q, r := at / SECOND, at % SECOND;
    assert at == q * SECOND + r;
    assert t < (q + lease + 1) * SECOND;
    assert t / SECOND < q + lease + 1;
  }

  lemma AlwaysRecoverableAfterOneMoreSecond(at: nat, lease: nat, t: nat)
    requires t >= Deadline(at, lease) + SECOND
    ensures Stale(LockedUntil(at, lease), t)
  {
    var q, r := at / SECOND, at % SECOND;
    assert at == q * SECOND + r;
    assert t >= (q + lease + 1) * SECOND;
    assert t / SECOND >= q + lease + 1;
  }

  /**
   The two bounds are the best possible: whatever the lease, a claim made at the last nanosecond
   of a second is recoverable one nanosecond after its deadline, and one made on the second is
   still protected one nanosecond before deadline + one second.
   */
  lemma LeaseBoundsAreTight(lease: nat, s: nat)
    ensures Stale(LockedUntil(s * SECOND + SECOND - 1, lease), Deadline(s * SECOND + SECOND - 1, lease) + 1)
    ensures !Stale(LockedUntil(s * SECOND, lease), Deadline(s * SECOND, lease) + SECOND - 1)
  {
    var a := s * SECOND + SECOND - 1;
    assert a / SECOND == s;
    assert Deadline(a, lease) + 1 == (s + lease + 1) * SECOND;
    assert (s + lease + 1) * SECOND / SECOND == s + lease + 1;
    var b := s * SECOND;
    assert b / SECOND == s;
    assert Deadline(b, lease) + SECOND - 1 == (s + lease) * SECOND + SECOND - 1;
    assert ((s + lease) * SECOND + SECOND - 1) / SECOND == s + lease;
  }

  /** A recovery tick falls within one interval of any instant after the ticker was created. */
  lemma NextTickIsPrompt(start: nat, interval: nat, t: nat)
    requires interval > 0 && start < t
    ensures t <= NextTick(start, interval, t) < t + interval
    ensures exists k :: k >= 1 && NextTick(start, interval, t) == start + k * interval
  {
    if t <= start + interval {
      assert NextTick(start, interval, t) == start + 1 * interval;
    } else {
      var d := t - start + interval - 1;
      var q, r := d / interval, d % interval;
      assert d == q * interval + r && r < interval;
      assert NextTick(start, interval, t) == start + q * interval;
    }
  }
}
