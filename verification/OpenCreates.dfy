/** Open creates that nothing committed stands in the way of, and how far they can always run. */
module OpenCreates {
  import opened Domain
  import opened Serial
  import opened Machine
  import opened MachineSafety

  /** The ids exist, and neither the key, nor the seat, nor the user's journeys are taken. */
  ghost predicate ValidArgs(c: Catalog, db: Database, a: CreateArgs) {
    && a.user in c.users && a.schedule in c.schedules && a.seat in c.seats
    && KeyHolder(db, a.key) == None && SeatHolder(db, a.schedule, a.seat) == None
    && OverlapHits(c, db, a.user, a.schedule) == {}
  }

  /** Create t is open or still to begin. */
  ghost predicate Racing(c: Catalog, s: Sys, t: TxId, a: CreateArgs) {
    && ValidArgs(c, s.db, a)
    && (t in s.txs ==> s.txs[t].Creating? && s.txs[t].a == a && s.txs[t].found == None)
  }

  ghost predicate Ready(c: Catalog, s: Sys, t: TxId, a: CreateArgs) {
    t in s.txs && Racing(c, s, t, a)
  }

  /** No other transaction has an index entry that a create for a needs. */
  ghost predicate Unopposed(s: Sys, t: TxId, a: CreateArgs) {
    forall u <- s.txs :: u != t ==> !HoldsKey(s.txs[u], a.key) && !HoldsSeat(s.txs[u], a.schedule, a.seat)
  }

  function Order(pc: CreatePc): nat {
    match pc
    case KeyLookup => 0
    case SeatLock => 1
    case OverlapQuery => 2
    case FlushDelete => 3
    case KeyIndex => 4
    case SeatIndex => 5
    case CommitCreate => 6
  }

  lemma ReadyAdvances(c: Catalog, s: Sys, t: TxId, a: CreateArgs) returns (act: Act, s': Sys)
    requires Safe(c, s) && Ready(c, s, t, a) && Unopposed(s, t, a) && s.txs[t].cpc != CommitCreate
    ensures act.Statement? && Step(c, s, act, s') && s'.txs.Keys == s.txs.Keys && s' == s.(txs := s.txs[t := s'.txs[t]])
    ensures Ready(c, s', t, a) && Order(s'.txs[t].cpc) == Order(s.txs[t].cpc) + 1
  {
    var id := FreshId(s);
    var tx := s.txs[t];
    act := Statement(t, Choice(id, Declined));
    s' := Next(c, s, t, act.ch);
    assert NextCreate(c, s, tx, act.ch).0 == s.db;
  }

  /** A longer path with the same start, on which only statements were added. */
  ghost predicate Longer(c: Catalog, tr: seq<Sys>, acts: seq<Act>, tr': seq<Sys>, acts': seq<Act>) {
    && Path(c, tr, acts) && Path(c, tr', acts') && tr'[0] == tr[0]
    && |acts| <= |acts'| && acts'[..|acts|] == acts
    && forall i | |acts| <= i < |acts'| :: acts'[i].Statement?
  }

  lemma Append(c: Catalog, tr: seq<Sys>, acts: seq<Act>, act: Act, s': Sys)
    requires Path(c, tr, acts) && Step(c, tr[|acts|], act, s')
    ensures Path(c, tr + [s'], acts + [act]) && (tr + [s'])[0] == tr[0] && (tr + [s'])[|acts + [act]|] == s'
    ensures act.Statement? ==> Longer(c, tr, acts, tr + [s'], acts + [act])
  {
  }

  lemma LongerIsTransitive(c: Catalog, tr: seq<Sys>, acts: seq<Act>, tr1: seq<Sys>, acts1: seq<Act>, tr2: seq<Sys>,
        acts2: seq<Act>)
    requires Longer(c, tr, acts, tr1, acts1) && Longer(c, tr1, acts1, tr2, acts2)
    ensures Longer(c, tr, acts, tr2, acts2)
  {
    assert acts2[..|acts|] == acts2[..|acts1|][..|acts|];
    forall i | |acts| <= i < |acts2|
      ensures acts2[i].Statement?
    {
      assert i < |acts1| ==> acts2[i] == acts2[..|acts1|][i] == acts1[i];
    }
  }

  /** Whatever else is open, an unopposed create can run up to any statement it has ahead. */
  lemma {:induction false} RunUpTo(c: Catalog, tr: seq<Sys>, acts: seq<Act>, t: TxId, a: CreateArgs, goal: CreatePc)
      returns (tr': seq<Sys>, acts': seq<Act>)
    requires Path(c, tr, acts) && Safe(c, tr[|acts|]) && Ready(c, tr[|acts|], t, a) && Unopposed(tr[|acts|], t, a)
    requires Order(tr[|acts|].txs[t].cpc) <= Order(goal)
    ensures Longer(c, tr, acts, tr', acts') && Safe(c, tr'[|acts'|])
    ensures var s, s' := tr[|acts|], tr'[|acts'|];
      s'.txs.Keys == s.txs.Keys && s' == s.(txs := s.txs[t := s'.txs[t]]) && Ready(c, s', t, a) && s'.txs[t].cpc == goal
    decreases Order(goal) - Order(tr[|acts|].txs[t].cpc)
  {
    var s := tr[|acts|];
    if s.txs[t].cpc == goal {
      tr', acts' := tr, acts;
    } else {
      var act, s1 := ReadyAdvances(c, s, t, a);
      Append(c, tr, acts, act, s1);
      StepIsSafe(c, s, act, s1);
      tr', acts' := RunUpTo(c, tr + [s1], acts + [act], t, a, goal);
      LongerIsTransitive(c, tr, acts, tr + [s1], acts + [act], tr', acts');
    }
  }

  /** A create that has come to its commit can always commit. */
  lemma ReadyCommits(c: Catalog, s: Sys, t: TxId, a: CreateArgs) returns (act: Act, s': Sys)
    requires Safe(c, s) && Ready(c, s, t, a) && s.txs[t].cpc == CommitCreate
    ensures act.Statement? && Step(c, s, act, s') && s.txs[t].id !in s.db.bookings && a.seat in c.seats && c.Valid()
    ensures var id := s.txs[t].id;
      s' == s.(db := CreateWrite(c, s.db, a, None, s.txs[t].at, id), txs := s.txs[t := Done(Created(id))])
  {
    act := Statement(t, Choice(0, Declined));
    s' := Next(c, s, t, act.ch);
    assert Knows(c, s.db, s.gateway, s.clock, s.txs[t]);
  }
}
