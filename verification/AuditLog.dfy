/** The audit table as a sequence, and the trail of one booking inside it. */
module AuditLog {
  import opened Domain

  /** The entries of booking b, oldest first. */
  ghost function Trail(log: seq<Entry>, b: BookingId): seq<Entry> {
    if log == [] then []
    else
      var last := log[|log| - 1];
      Trail(log[..|log| - 1], b) + if last.booking == b then [last] else []
  }

  lemma TrailAppend(log: seq<Entry>, e: Entry, b: BookingId)
    ensures Trail(log + [e], b) == Trail(log, b) + if e.booking == b then [e] else []
  {
    assert (log + [e])[..|log|] == log;
  }

  lemma TrailAppend2(log: seq<Entry>, e: Entry, f: Entry, b: BookingId)
    requires e.booking == f.booking
    ensures Trail(log + [e, f], b) == Trail(log, b) + if e.booking == b then [e, f] else []
  {
    assert log + [e, f] == log + [e] + [f];
    TrailAppend(log, e, b);
    TrailAppend(log + [e], f, b);
  }

  lemma {:induction false} TrailOnlyOf(log: seq<Entry>, b: BookingId)
    ensures forall e <- Trail(log, b) :: e.booking == b && e in log
  {
    if log != [] {
      TrailOnlyOf(log[..|log| - 1], b);
    }
  }

  lemma {:induction false} TrailFinds(log: seq<Entry>, e: Entry)
    requires e in log
    ensures e in Trail(log, e.booking)
  {
    var n := |log| - 1;
    if log[n] != e {
      assert log == log[..n] + [log[n]];
      TrailFinds(log[..n], e);
    }
  }
}
