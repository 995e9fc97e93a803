/** How long a reservation can outlive its expiry while cleanup passes and all other
    transactions interleave. */
module HoldLifetime {
  import opened Domain
  import opened Serial
  import opened SerialRuns
  import opened Machine
  import opened MachineSafety
  import opened Refinement
  import opened Journeys
  import opened CleanupPass
  import Sets

  /** A row in the snapshot of a pass that did not find it locked is not reserved past the
      cutoff of the pass at any time after its commit. */
  lemma PassEndsHold(c: Catalog, tr: seq<Sys>, acts: seq<Act>, i: nat, j: nat, k: TxId, n: nat, b: BookingId)
    requires Run(c, tr, acts) && WholePass(tr, acts, i, j, k) && j < n < |tr|
    requires b in tr[i].db.bookings && !Skipped(tr, acts, i, j, k, b)
    ensures b in tr[n].db.bookings
    ensures var row := tr[n].db.bookings[b];
      row.status == Reserved && row.expiresAt.Some? ==> tr[i].txs[k].cutoff <= row.expiresAt.value
  {
    RunMovesRow(c, tr, acts, i, n, b);
    RunMovesRow(c, tr, acts, j + 1, n, b);
    if Stale(tr[i].db.bookings[b], tr[i].txs[k].cutoff) {
      PassIsComplete(c, tr, acts, i, j, k, b);
    }
  }

  lemma RunMovesRow(c: Catalog, tr: seq<Sys>, acts: seq<Act>, i: nat, j: nat, b: BookingId)
    requires Run(c, tr, acts) && i <= j < |tr|
    ensures tr[i].clock <= tr[j].clock
    ensures b in tr[i].db.bookings ==>
            b in tr[j].db.bookings && Moves(tr[i].db.bookings[b], tr[j].db.bookings[b])
  {
    RunOnlyExtends(c, tr, acts, i, j);
  }

  /** The step is the commit that brings booking b into the tables. */
  ghost predicate Brings(s: Sys, act: Act, s': Sys, b: BookingId) {
    && b !in s.db.bookings && b in s'.db.bookings
    && IsCreateCommit(s, act, ArgsOf(s'.db.bookings[b])) && s.txs[act.t].id == b
    && s'.db.bookings[b].expiresAt == Some(s.txs[act.t].at + HOLD_SECONDS)
  }

  ghost predicate BornAt(tr: seq<Sys>, acts: seq<Act>, q: nat, b: BookingId) {
    q + 1 < |tr| && q < |acts| && Brings(tr[q], acts[q], tr[q + 1], b)
  }

  lemma CommitMakesRow(c: Catalog, s: Sys, act: Act, s': Sys, b: BookingId)
    requires Safe(c, s) && Step(c, s, act, s') && b !in s.db.bookings && b in s'.db.bookings
    ensures Brings(s, act, s', b)
  {
    StepRefines(c, s, act, s');
    var op := OpOf(s, act);
    OnlyCreateAddsRows(c, Visible(s), op.value, b);
    assert s.txs[act.t].Creating? && s.txs[act.t].cpc == CommitCreate;
  }

  lemma BirthAt(c: Catalog, tr: seq<Sys>, acts: seq<Act>, q: nat, b: BookingId)
    requires Run(c, tr, acts) && q < |acts| && b !in tr[q].db.bookings && b in tr[q + 1].db.bookings
    ensures BornAt(tr, acts, q, b)
  {
    RunIsSafe(c, tr, acts, q);
    CommitMakesRow(c, tr[q], acts[q], tr[q + 1], b);
  }

  lemma Birth(c: Catalog, tr: seq<Sys>, acts: seq<Act>, n: nat, b: BookingId) returns (q: nat)
    requires Run(c, tr, acts) && n < |tr| && b in tr[n].db.bookings
    ensures q < n && BornAt(tr, acts, q, b)
  {
    q := Sets.Turn(k => 0 <= k < |tr| && b in tr[k].db.bookings, n);
    BirthAt(c, tr, acts, q, b);
  }

  /** A pass that began no more than `period` ago has committed, and did not find b locked. */
  ghost predicate RecentPass(tr: seq<Sys>, acts: seq<Act>, n: nat, b: BookingId, period: Time) {
    exists i: nat, j: nat, k: TxId ::
      n < |tr| && j < n && WholePass(tr, acts, i, j, k) && tr[n].clock - period <= tr[i].txs[k].cutoff
          && !Skipped(tr, acts, i, j, k, b)
  }

  /** With a pass in every stretch of `period` seconds that does not find b locked, b is held
      no longer than `period` after its expiry, or after its commit when that came later. */
  lemma HoldsEndInTime(c: Catalog, tr: seq<Sys>, acts: seq<Act>, q: nat, n: nat, b: BookingId, period: Time)
    requires Run(c, tr, acts) && n < |tr| && BornAt(tr, acts, q, b) && q < n && RecentPass(tr, acts, n, b, period)
    requires b in tr[n].db.bookings && tr[n].db.bookings[b].status == Reserved
    ensures var expiry := tr[n].db.bookings[b].expiresAt;
      expiry.Some? && (tr[n].clock <= expiry.value + period || tr[n].clock <= tr[q].clock + period)
  {
    var i: nat, j: nat, k: TxId :|
      n < |tr| && j < n && WholePass(tr, acts, i, j, k) && tr[n].clock - period <= tr[i].txs[k].cutoff
          && !Skipped(tr, acts, i, j, k, b);
    RunMovesRow(c, tr, acts, q + 1, n, b);
    if q < i {
      RunMovesRow(c, tr, acts, q + 1, i, b);
      PassEndsHold(c, tr, acts, i, j, k, n, b);
    } else {
      RunMovesRow(c, tr, acts, i, q, b);
      RunIsSafe(c, tr, acts, i);
      assert Knows(c, tr[i].db, tr[i].gateway, tr[i].clock, tr[i].txs[k]);
    }
  }

  /** The create of b commits before the hold it grants has run out. */
  ghost predicate Prompt(tr: seq<Sys>, acts: seq<Act>, b: BookingId) {
    forall q: nat | BornAt(tr, acts, q, b) :: tr[q].clock <= tr[q].txs[acts[q].t].at + HOLD_SECONDS
  }

  /** Theorem: a reservation whose create commits within its own hold does not outlive its
      expiry by more than the time between passes that do not find it locked. */
  lemma PromptHoldsEndInTime(c: Catalog, tr: seq<Sys>, acts: seq<Act>, n: nat, b: BookingId, period: Time)
    requires Run(c, tr, acts) && n < |tr| && RecentPass(tr, acts, n, b, period) && Prompt(tr, acts, b)
    requires b in tr[n].db.bookings && tr[n].db.bookings[b].status == Reserved
    ensures tr[n].db.bookings[b].expiresAt.Some? && tr[n].clock <= tr[n].db.bookings[b].expiresAt.value + period
  {
    var q := Birth(c, tr, acts, n, b);
    HoldsEndInTime(c, tr, acts, q, n, b, period);
    RunMovesRow(c, tr, acts, q + 1, n, b);
  }
}
