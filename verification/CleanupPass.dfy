/** One cleanup pass among other open transactions. */
module CleanupPass {
  import opened Domain
  import opened AuditLog
  import opened Serial
  import opened Consistency
  import opened SerialRuns
  import opened Machine
  import opened MachineSafety
  import opened Refinement

  /** At step v the pass k visited row b and found it locked by another transaction. */
  ghost predicate SkippedLocked(tr: seq<Sys>, acts: seq<Act>, v: nat, k: TxId, b: BookingId) {
    && v < |tr| && v < |acts| && acts[v].Statement? && acts[v].t == k && acts[v].ch.id == b
    && k in tr[v].txs && tr[v].txs[k].Cleaning? && b in tr[v].txs[k].pending && !RowFree(tr[v], k, b)
  }

  ghost predicate Skipped(tr: seq<Sys>, acts: seq<Act>, from: nat, n: nat, k: TxId, b: BookingId) {
    exists v: nat :: from < v < n && SkippedLocked(tr, acts, v, k, b)
  }

  /** Where row b of the snapshot taken at step i can be while pass k is open. */
  ghost predicate Accounted(tr: seq<Sys>, acts: seq<Act>, i: nat, n: nat, k: TxId, b: BookingId)
    requires n < |tr| && k in tr[n].txs && tr[n].txs[k].Cleaning?
  {
    || b in tr[n].txs[k].pending || b in tr[n].txs[k].held
    || (b in tr[n].db.bookings && tr[n].db.bookings[b].status != Reserved)
    || Skipped(tr, acts, i, n, k, b)
  }

  ghost predicate OpenPass(tr: seq<Sys>, n: nat, k: TxId, cutoff: Time) {
    n < |tr| && k in tr[n].txs && tr[n].txs[k].Cleaning? && tr[n].txs[k].scanned && tr[n].txs[k].cutoff == cutoff
  }

  lemma SkipsAccumulate(tr: seq<Sys>, acts: seq<Act>, i: nat, n: nat, k: TxId, b: BookingId)
    requires Skipped(tr, acts, i, n, k, b)
    ensures Skipped(tr, acts, i, n + 1, k, b)
  {
    var v: nat :| i < v < n && SkippedLocked(tr, acts, v, k, b);
    assert i < v < n + 1 && SkippedLocked(tr, acts, v, k, b);
  }

  lemma AccountStep(c: Catalog, tr: seq<Sys>, acts: seq<Act>, i: nat, n: nat, k: TxId, b: BookingId, cutoff: Time)
    requires Run(c, tr, acts) && i < n < |acts| && OpenPass(tr, n, k, cutoff)
    requires b in tr[i].db.bookings && Stale(tr[i].db.bookings[b], cutoff)
    requires Accounted(tr, acts, i, n, k, b)
    ensures k in tr[n + 1].txs
    ensures tr[n + 1].txs[k].Done? || (OpenPass(tr, n + 1, k, cutoff) && Accounted(tr, acts, i, n + 1, k, b))
  {
    RunOnlyExtends(c, tr, acts, i, n);
    RunOnlyExtends(c, tr, acts, n, n + 1);
    assert Moves(tr[i].db.bookings[b], tr[n].db.bookings[b]);
    assert Moves(tr[n].db.bookings[b], tr[n + 1].db.bookings[b]);
    assert Step(c, tr[n], acts[n], tr[n + 1]);
    if Skipped(tr, acts, i, n, k, b) {
      SkipsAccumulate(tr, acts, i, n, k, b);
    } else if acts[n].Statement? && acts[n].t == k && acts[n].ch.id == b && b in tr[n].txs[k].pending {
      if !RowFree(tr[n], k, b) {
        assert SkippedLocked(tr, acts, n, k, b);
      }
    }
  }

  lemma {:induction false} PassAccounts(c: Catalog, tr: seq<Sys>, acts: seq<Act>, i: nat, n: nat, k: TxId,
        b: BookingId, cutoff: Time)
    requires Run(c, tr, acts) && i < n < |tr|
    requires acts[i].Statement? && acts[i].t == k && k in tr[i].txs
    requires tr[i].txs[k].Cleaning? && !tr[i].txs[k].scanned && tr[i].txs[k].cutoff == cutoff
    requires b in tr[i].db.bookings && Stale(tr[i].db.bookings[b], cutoff)
    ensures k in tr[n].txs
    ensures tr[n].txs[k].Done? || (OpenPass(tr, n, k, cutoff) && Accounted(tr, acts, i, n, k, b))
  {
    assert Step(c, tr[n - 1], acts[n - 1], tr[n]);
    if n > i + 1 {
      PassAccounts(c, tr, acts, i, n - 1, k, b, cutoff);
      if !tr[n - 1].txs[k].Done? {
        AccountStep(c, tr, acts, i, n - 1, k, b, cutoff);
      }
    }
  }

  /** Pass k takes its snapshot at step i and commits at step j. */
  ghost predicate WholePass(tr: seq<Sys>, acts: seq<Act>, i: nat, j: nat, k: TxId) {
    && i < j < |acts| && j < |tr| && acts[i].Statement? && acts[i].t == k && acts[j].Statement? && acts[j].t == k
    && k in tr[i].txs && tr[i].txs[k].Cleaning? && !tr[i].txs[k].scanned
    && k in tr[j].txs && tr[j].txs[k].Cleaning? && tr[j].txs[k].pending == {}
  }

  /** Theorem: a row that was stale when pass k scanned and is still reserved when k has
      committed was locked by another transaction at the moment k visited it. */
  lemma PassIsComplete(c: Catalog, tr: seq<Sys>, acts: seq<Act>, i: nat, j: nat, k: TxId, b: BookingId)
    requires Run(c, tr, acts) && WholePass(tr, acts, i, j, k)
    requires b in tr[i].db.bookings && tr[i].db.bookings[b].status == Reserved && tr[i].db.bookings[b].expiresAt.Some?
    requires tr[i].db.bookings[b].expiresAt.value < tr[i].txs[k].cutoff
    ensures b in tr[j + 1].db.bookings
    ensures tr[j + 1].db.bookings[b].status == Reserved ==> Skipped(tr, acts, i, j, k, b)
    ensures tr[j + 1].db.bookings[b].status == Reserved ==>
              exists v: nat, u: TxId :: i < v < j && u != k && u in tr[v].txs && Holds(tr[v].txs[u], b)
  {
    var cutoff := tr[i].txs[k].cutoff;
    PassAccounts(c, tr, acts, i, j, k, b, cutoff);
    RunOnlyExtends(c, tr, acts, i, j);
    assert Step(c, tr[j], acts[j], tr[j + 1]);
    RunIsSafe(c, tr, acts, j);
    CommitOfPass(c, tr[j], k, acts[j].ch);
    if Skipped(tr, acts, i, j, k, b) {
      var v := HolderOfSkipped(tr, acts, i, j, k, b);
    }
  }

  lemma HolderOfSkipped(tr: seq<Sys>, acts: seq<Act>, i: nat, j: nat, k: TxId, b: BookingId) returns (v: nat)
    requires Skipped(tr, acts, i, j, k, b) && j <= |tr|
    ensures i < v < j && exists u: TxId :: u != k && u in tr[v].txs && Holds(tr[v].txs[u], b)
  {
    v :| i < v < j && SkippedLocked(tr, acts, v, k, b);
  }

  /** A committing pass cancels exactly the rows it locked, all of them reserved with an expiry
      before its cutoff, adds one entry to each of their trails, and changes nothing besides. */
  lemma CommitOfPass(c: Catalog, s: Sys, k: TxId, ch: Choice)
    requires Safe(c, s) && CanRun(s, k, ch) && s.txs[k].Cleaning? && s.txs[k].scanned && s.txs[k].pending == {}
    ensures var db', tx := Next(c, s, k, ch).db, s.txs[k];
      && db'.bookings.Keys == s.db.bookings.Keys
      && forall b <- s.db.bookings ::
           if b in tx.held then
             && s.db.bookings[b].status == Reserved && s.db.bookings[b].expiresAt.Some?
             && s.db.bookings[b].expiresAt.value < tx.cutoff <= s.clock
             && db'.bookings[b] == s.db.bookings[b].(status := Cancelled, cancelledAt := Some(tx.cutoff))
             && Trail(db'.audit, b) == Trail(s.db.audit, b) + [ExpireEntry(b)]
           else
             db'.bookings[b] == s.db.bookings[b] && Trail(db'.audit, b) == Trail(s.db.audit, b)
  {
    assert Knows(c, s.db, s.gateway, s.clock, s.txs[k]);
    SweepEffect(s.db, s.txs[k].held, s.txs[k].cutoff);
  }

  /** A row that a pay, a refund or a create holds is never among the rows of a pass. */
  lemma PassSparesLockedRows(c: Catalog, s: Sys, k: TxId, u: TxId, b: BookingId, ch: Choice)
    requires Safe(c, s) && CanRun(s, k, ch) && s.txs[k].Cleaning? && u in s.txs && u != k
    requires Holds(s.txs[u], b) && b in s.db.bookings
    ensures b !in s.txs[k].held && Next(c, s, k, ch).db.bookings[b] == s.db.bookings[b]
  {
    assert Knows(c, s.db, s.gateway, s.clock, s.txs[k]) && Apart(s.txs[k], s.txs[u]);
    if s.txs[k].scanned && s.txs[k].pending == {} {
      CommitOfPass(c, s, k, ch);
    }
  }
}
