/** When the overlap check of one create can miss the other: it and the insert being in one
    transaction does not close the window between two open creates of one user. */
module WriteSkew {
  import opened Domain
  import opened Serial
  import opened Machine
  import opened MachineSafety
  import opened Journeys
  import opened OpenCreates

  /** Two valid creates are open for different keys and seats, neither user has another create
      open, and nobody is inserting the keys or the seats. Creates of other users, pays,
      refunds and cleanup passes may be open. */
  ghost predicate TwoCreates(c: Catalog, s: Sys, t: TxId, a: CreateArgs, u: TxId, b: CreateArgs) {
    && Safe(c, s) && DisjointFor(c, s.db, a.user) && DisjointFor(c, s.db, b.user)
    && t != u && Ready(c, s, t, a) && Ready(c, s, u, b) && Unopposed(s, t, a) && Unopposed(s, u, b)
    && a.key != b.key && (a.schedule != b.schedule || a.seat != b.seat)
    && OnlyCreates(s, t, a, u, b)
  }

  /** Every open create of the two users is one of the two. */
  ghost predicate OnlyCreates(s: Sys, t: TxId, a: CreateArgs, u: TxId, b: CreateArgs) {
    forall x <- s.txs :: CreatesFor(s.txs[x], a.user) || CreatesFor(s.txs[x], b.user) ==>
      (x == t && s.txs[x].a == a) || (x == u && s.txs[x].a == b)
  }

  ghost predicate NoNewCreate(acts: seq<Act>, a: CreateArgs, b: CreateArgs) {
    forall i | 0 <= i < |acts| ::
      acts[i].Begin? ==> !CreatesFor(acts[i].tx, a.user) && !CreatesFor(acts[i].tx, b.user)
  }

  /** A continuation of s in which both creates come to an end, with or without commits, and
      everything but a further create of the two users may happen. */
  ghost predicate Completes(c: Catalog, s: Sys, tr: seq<Sys>, acts: seq<Act>, t: TxId, a: CreateArgs, u: TxId,
        b: CreateArgs) {
    && Path(c, tr, acts) && tr[0] == s && NoNewCreate(acts, a, b)
    && var last := tr[|acts|];
    t in last.txs && u in last.txs && last.txs[t].Done? && last.txs[u].Done?
  }

  lemma {:induction false} OnlyThoseTwo(c: Catalog, tr: seq<Sys>, acts: seq<Act>, t: TxId, a: CreateArgs, u: TxId,
        b: CreateArgs, n: nat)
    requires Path(c, tr, acts) && NoNewCreate(acts, a, b) && OnlyCreates(tr[0], t, a, u, b) && n < |tr|
    ensures OnlyCreates(tr[n], t, a, u, b)
  {
    if n > 0 {
      OnlyThoseTwo(c, tr, acts, t, a, u, b, n - 1);
      assert Step(c, tr[n - 1], acts[n - 1], tr[n]);
    }
  }

  /** The journeys of both users are disjoint. */
  ghost predicate BothDisjoint(c: Catalog, db: Database, a: CreateArgs, b: CreateArgs) {
    DisjointFor(c, db, a.user) && DisjointFor(c, db, b.user)
  }

  lemma DisjointStays(c: Catalog, s: Sys, tr: seq<Sys>, acts: seq<Act>, t: TxId, a: CreateArgs, u: TxId, b: CreateArgs)
    requires TwoCreates(c, s, t, a, u, b) && !Clash(c, a, b.user, b.schedule)
    requires Completes(c, s, tr, acts, t, a, u, b)
    ensures BothDisjoint(c, tr[|acts|].db, a, b)
  {
    forall i | 0 <= i < |acts|
      ensures NoRivalsOf(c, tr[i], a.user) && NoRivalsOf(c, tr[i], b.user)
    {
      OnlyThoseTwo(c, tr, acts, t, a, u, b, i);
    }
    PathKeepsJourneys(c, tr, acts, |acts|, a.user);
    PathKeepsJourneys(c, tr, acts, |acts|, b.user);
  }

  /** Both creates run up to their commits before either commits. */
  lemma SkewedRun(c: Catalog, tr: seq<Sys>, acts: seq<Act>, t: TxId, a: CreateArgs, u: TxId, b: CreateArgs)
      returns (tr': seq<Sys>, acts': seq<Act>)
    requires Path(c, tr, acts) && TwoCreates(c, tr[|acts|], t, a, u, b) && Clash(c, a, b.user, b.schedule)
    ensures Longer(c, tr, acts, tr', acts')
    ensures var last := tr'[|acts'|];
      && t in last.txs && u in last.txs
      && last.txs[t].Done? && last.txs[t].out.Created? && last.txs[u].Done? && last.txs[u].out.Created?
      && !DisjointFor(c, last.db, a.user)
  {
    var tr1, acts1 := RunUpTo(c, tr, acts, t, a, CommitCreate);
    var tr2, acts2 := RunUpTo(c, tr1, acts1, u, b, CommitCreate);
    LongerIsTransitive(c, tr, acts, tr1, acts1, tr2, acts2);
    var s := tr2[|acts2|];
    var act, s1 := ReadyCommits(c, s, t, a);
    Append(c, tr2, acts2, act, s1);
    var act', s2 := SecondCommits(c, s, s1, t, a, u, b);
    Append(c, tr2 + [s1], acts2 + [act], act', s2);
    tr', acts' := tr2 + [s1] + [s2], acts2 + [act] + [act'];
    LongerIsTransitive(c, tr, acts, tr2, acts2, tr2 + [s1], acts2 + [act]);
    LongerIsTransitive(c, tr, acts, tr2 + [s1], acts2 + [act], tr', acts');
  }

  /** The second create is at its commit and does not look again. */
  lemma SecondCommits(c: Catalog, s: Sys, s1: Sys, t: TxId, a: CreateArgs, u: TxId, b: CreateArgs)
      returns (act: Act, s2: Sys)
    requires Safe(c, s) && t != u && Ready(c, s, t, a) && Ready(c, s, u, b) && Clash(c, a, b.user, b.schedule)
    requires s.txs[t].cpc == CommitCreate && s.txs[u].cpc == CommitCreate
    requires s1 == s.(db := CreateWrite(c, s.db, a, None, s.txs[t].at, s.txs[t].id),
            txs := s.txs[t := Done(Created(s.txs[t].id))])
    ensures act.Statement? && Step(c, s1, act, s2) && t in s2.txs && u in s2.txs
    ensures s2.txs[t] == s1.txs[t] && s2.txs[u] == Done(Created(s.txs[u].id)) && !DisjointFor(c, s2.db, a.user)
  {
    assert Apart(s.txs[t], s.txs[u]);
    var x, y := s.txs[t].id, s.txs[u].id;
    assert HoldsId(s.txs[t], x) && HoldsId(s.txs[u], y) && x != y;
    act := Statement(u, Choice(0, Declined));
    s2 := Next(c, s1, u, act.ch);
    assert s2.db == CreateWrite(c, s1.db, b, None, s.txs[u].at, y);
    assert OverlapHit(c, s2.db.bookings[x], s2.db.bookings[y].user, s2.db.bookings[y].schedule);
  }

  /** Theorem: two open creates leave the journeys of their users disjoint in every
      interleaving exactly when they do not ask for overlapping journeys of one user. */
  lemma OverlapDecidesExactly(c: Catalog, s: Sys, t: TxId, a: CreateArgs, u: TxId, b: CreateArgs)
    requires TwoCreates(c, s, t, a, u, b)
    ensures (forall tr: seq<Sys>, acts: seq<Act> ::
               Completes(c, s, tr, acts, t, a, u, b) ==> BothDisjoint(c, tr[|acts|].db, a, b))
            <==> !Clash(c, a, b.user, b.schedule)
  {
    if Clash(c, a, b.user, b.schedule) {
      var tr, acts := SkewedRun(c, [s], [], t, a, u, b);
      assert Completes(c, s, tr, acts, t, a, u, b);
    } else {
      forall tr: seq<Sys>, acts: seq<Act> | Completes(c, s, tr, acts, t, a, u, b)
        ensures BothDisjoint(c, tr[|acts|].db, a, b)
      {
        DisjointStays(c, s, tr, acts, t, a, u, b);
      }
    }
  }
}
