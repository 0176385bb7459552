/** What every interleaving of the machine guarantees to the two parties and to a client that retries. */
module ConcurrentRuns {
  import opened Sequences
  import opened Tables
  import opened Negotiations
  import opened UnitOfWork
  import opened Invariants
  import opened AuditTrail
  import opened ClosingRecords
  import opened Retries
  import opened RowLocks
  import opened LockFacts
  import opened LockStability
  import opened Serializability

  /** Serializability. The committed tables, keys and stored responses are those of the committed calls run one
      at a time, in commit order, with the ids the database chose; the log is the same but for superseding rows
      of negotiations that were already closed, and is the same exactly when no sibling list was stale. */
  lemma {:induction false} Serializable(users: map<nat, Role>, es: seq<Event>, s: State, serial: seq<Commit>)
    requires Legal(users, es) && s == After(users, es) && serial == Tightened(EmptyDb(users), s.history)
    ensures |serial| == |s.history|
    ensures forall i :: 0 <= i < |serial| ==> serial[i].call == s.history[i].call
    ensures Script(EmptyDb(users), serial) && ExactRun(EmptyDb(users), serial)
    ensures var alone := Exec(EmptyDb(users), serial);
            && s.db.market == alone.market && s.db.keys == alone.keys && Prune(s.db.audit) == alone.audit
            && (s.db.audit == alone.audit <==> ExactRun(EmptyDb(users), s.history))
  {
    AlwaysGood(users, es);
    TightenedCalls(EmptyDb(users), s.history);
    OneAtATime(users, s.history);
    SameLogIffExact(users, s.history);
  }

  /** At most one negotiation of a request is accepted, the request is closed exactly when one is, and a closed
      request has no active negotiation; every chain alternates from the supplier's offer in one currency. */
  lemma {:induction false} Safe(users: map<nat, Role>, es: seq<Event>, m: Market, r: nat)
    requires Legal(users, es) && m == After(users, es).db.market && r in m.requests
    ensures m.requests[r].status == Closed <==> exists n :: Winner(m, r, n)
    ensures forall n, k :: Winner(m, r, n) && Winner(m, r, k) ==> n == k
    ensures m.requests[r].status == Closed ==>
              forall n :: n in m.negotiations && m.negotiations[n].request == r ==> m.negotiations[n].status != Active
    ensures forall n :: n in m.negotiations && m.negotiations[n].request == r ==>
              && Alternates(Chain(m.proposals, n), m.requests[r].client, m.negotiations[n].supplier)
              && AgreedOk(m.negotiations[n], Chain(m.proposals, n))
              && m.requests[r].client != m.negotiations[n].supplier
  {
    AlwaysGood(users, es);
    RunsKeep(users, After(users, es).history);
    assert StatusOk(m, r);
    forall n | n in m.negotiations && m.negotiations[n].request == r
      ensures Alternates(Chain(m.proposals, n), m.requests[r].client, m.negotiations[n].supplier)
              && AgreedOk(m.negotiations[n], Chain(m.proposals, n))
              && m.requests[r].client != m.negotiations[n].supplier
    {
      assert ThreadOk(m, n);
    }
  }

  /** The write of the sibling loop, which never reads its row again, lands on a committed row of the same
      request that is active or rejected; at the commit every active sibling has been written. */
  lemma {:induction false} SiblingWriteIsSafe(users: map<nat, Role>, es: seq<Event>, s: State, id: nat, sib: nat)
    requires Legal(users, es) && s == After(users, es) && id in s.txns && s.txns[id].call.op.Accept?
    requires Wanted(s.db, s.txns[id]) == Some(NegotiationRow(sib)) && s.txns[id].pc.Superseding?
    ensures var m, n := s.db.market, s.txns[id].call.op.negotiation;
            && n in m.negotiations && sib in m.negotiations && sib != n
            && m.negotiations[sib].request == m.negotiations[n].request
            && m.negotiations[sib].status in {Active, Rejected}
            && m.negotiations[n].status == Active
            && (forall k :: k in ActiveSiblings(m.negotiations, m.negotiations[n].request, n) ==>
                              k in s.txns[id].draw.siblings)
  {
    AlwaysGood(users, es);
    assert TxnGood(s.db, s.locks, id, s.txns[id]);
    assert IsLosing(s.db.market.negotiations, s.txns[id].call.op.negotiation, sib);
  }

  lemma PublishEvolves(db: Db, t: Txn)
    requires t.pc.Saved? && Facts(db, t) && Inv(db.users, db.market)
    ensures Evolves(db.market, Published(db, t, t.pc.body).market)
  {
    PublishIsHandle(db, t);
    EffectiveParts(db, Commit(t.call, t.draw));
    PerformEvolves(db.users, db.market, Actor(db, t.call), t.call.op, t.draw);
  }

  lemma OnlySavedPublishes(s: State, e: Event)
    requires Enabled(s, e) && (e.Step? ==> !s.txns[e.id].pc.Saved?)
    ensures Apply(s, e).db == s.db
  {
  }

  lemma EventEvolves(users: map<nat, Role>, s: State, e: Event)
    requires Good(users, s) && Enabled(s, e)
    ensures Evolves(s.db.market, Apply(s, e).db.market)
  {
    EvolvesReflexive(s.db.market);
    if e.Step? && s.txns[e.id].pc.Saved? {
      RunsKeep(users, s.history);
      assert Facts(s.db, s.txns[e.id]) by {
        assert TxnGood(s.db, s.locks, e.id, s.txns[e.id]);
      }
      PublishEvolves(s.db, s.txns[e.id]);
    } else {
      OnlySavedPublishes(s, e);
    }
  }

  lemma EvolvesReflexive(m: Market)
    ensures Evolves(m, m)
  {
    assert forall n :: n in m.negotiations ==> ThreadEvolves(m, m, n);
  }

  /** Accepted, rejected and closed are absorbing over every interleaving, and chains only ever grow. */
  lemma {:induction false} Absorbing(users: map<nat, Role>, es: seq<Event>, k: nat)
    requires Legal(users, es) && k <= |es|
    ensures Evolves(After(users, es[..k]).db.market, After(users, es).db.market)
  {
    if k == |es| {
      assert es[..k] == es;
      EvolvesReflexive(After(users, es).db.market);
    } else {
      assert Init(es)[..k] == es[..k];
      Absorbing(users, Init(es), k);
      AlwaysGood(users, Init(es));
      EventEvolves(users, After(users, Init(es)), Last(es));
      EvolvesTransitive(After(users, es[..k]).db.market, After(users, Init(es)).db.market, After(users, es).db.market);
    }
  }

  /** Folding the committed log rebuilds the committed negotiations, redundant rows included. */
  lemma {:induction false} ReplayUnderConcurrency(users: map<nat, Role>, es: seq<Event>)
    requires Legal(users, es)
    ensures Rebuilds(Replay(After(users, es).db.audit), After(users, es).db.market)
  {
    AlwaysGood(users, es);
    ReplayRebuilds(users, After(users, es).history);
  }

  /** At most once. No key is behind two committed effects, and the key table holds exactly the keys of the
      committed effects, also when several transactions looked a key up before any of them saved it. */
  lemma {:induction false} AtMostOnce(users: map<nat, Role>, es: seq<Event>, s: State)
    requires Legal(users, es) && s == After(users, es)
    ensures forall i, j :: 0 <= i < j < |s.history| && s.history[i].call.key != "" ==>
                             s.history[i].call.key != s.history[j].call.key
    ensures s.db.keys.Keys == UsedKeys(s.history)
  {
    AlwaysGood(users, es);
    KeyTable(users, s.history);
    forall i, j | 0 <= i < j < |s.history| && s.history[i].call.key != ""
      ensures s.history[i].call.key != s.history[j].call.key
    {
      OneEffectPerKey(users, s.history, i, j);
    }
  }

  // ---------------------------------------------------------------- answers

  /** A refusal before the effect is complete is the error of the operation on the present rows. */
  lemma RefusedByOffer(db: Db, t: Txn, pick: Draw, draw: Draw)
    requires Facts(db, t) && !t.pc.Start? && !t.pc.Produced? && (t.call.op.Create? || t.call.op.Offer?)
    requires Next(db, t, pick).Refuse?
    ensures t.call.op.Offer? && t.call.user in db.users
    ensures Next(db, t, pick).response.Failure? && Next(db, t, pick).response.error != ServerError
    ensures Offering(db.market, Actor(db, t.call), t.call.op, draw) == Err(Next(db, t, pick).response.error)
  {
  }

  /** The sibling loop of an accept never meets a missing row. */
  lemma LoopNeverFails(db: Db, t: Txn, pick: Draw)
    requires Facts(db, t) && t.pc.Superseding?
    ensures !Next(db, t, pick).Refuse?
  {
    if t.pc.next < |t.draw.siblings| {
      assert IsLosing(db.market.negotiations, t.call.op.negotiation, t.draw.siblings[t.pc.next]);
    }
  }

  lemma RefusedByLoad(db: Db, t: Txn, pick: Draw)
    requires Facts(db, t) && Inv(db.users, db.market)
    requires !t.pc.Start? && !t.pc.Produced? && !t.call.op.Create? && !t.call.op.Offer?
    requires Next(db, t, pick).Refuse?
    ensures Next(db, t, pick).response.Failure? && Next(db, t, pick).response.error != ServerError
    ensures LoadActive(db.market, t.call.user, t.call.op.negotiation) == Err(Next(db, t, pick).response.error)
  {
    if t.pc.Superseding? {
      LoopNeverFails(db, t, pick);
    }
  }

  /** No spurious refusals. Whatever else is live, a refused call gets the answer it would get if it were served
      alone at the moment it is refused. The one other failure is an insert of a key that somebody else has
      stored since this call looked it up; no statement ever meets a missing row. */
  lemma {:induction false} RefusalsAreServedAlone(
      users: map<nat, Role>, es: seq<Event>, s: State, id: nat, pick: Draw, draw: Draw)
    requires Legal(users, es) && s == After(users, es) && id in s.txns
    requires Next(s.db, s.txns[id], pick).Refuse?
    ensures var t, r := s.txns[id], Next(s.db, s.txns[id], pick).response;
            if t.pc.Start? then Handle(s.db, Commit(t.call, draw)) == Outcome(s.db, r)
            else if t.pc.Produced? then t.call.key in s.db.keys && t.call.key != "" && r == Failure(ServerError)
            else && t.call.user in s.db.users && r.Failure? && r.error != ServerError
                 && Perform(s.db.market, Actor(s.db, t.call), t.call.op, draw) == Err(r.error)
  {
    AlwaysGood(users, es);
    RunsKeep(users, s.history);
    var t := s.txns[id];
    assert Facts(s.db, t) by {
      assert TxnGood(s.db, s.locks, id, t);
    }
    if !t.pc.Start? && !t.pc.Produced? {
      if t.call.op.Create? || t.call.op.Offer? {
        RefusedByOffer(s.db, t, pick, draw);
      } else {
        RefusedByLoad(s.db, t, pick);
      }
    }
  }

  /** A successful answer is the one the call would get if it were served alone on the rows its commit finds. */
  lemma {:induction false} RepliesAreServedAlone(users: map<nat, Role>, es: seq<Event>, s: State, id: nat, pick: Draw)
    requires Legal(users, es) && s == After(users, es) && id in s.txns && s.txns[id].pc.Saved?
    ensures var t, s' := s.txns[id], Apply(s, Step(id, pick));
            && id in s'.answers
            && s'.answers[id] == Answer(t.call, Handle(s.db, Commit(t.call, t.draw)).response)
            && s'.answers[id].response.Reply?
  {
    assert Facts(s.db, s.txns[id]) by {
      AlwaysGood(users, es);
      assert TxnGood(s.db, s.locks, id, s.txns[id]);
    }
    PublishIsHandle(s.db, s.txns[id]);
    AdvanceCommits(s, id, pick);
  }

  /** All successful answers ever given under one key are the same answer, to the same user. */
  lemma {:induction false} SameAnswer(users: map<nat, Role>, es: seq<Event>, s: State, i: nat, j: nat)
    requires Legal(users, es) && s == After(users, es) && i in s.answers && j in s.answers
    requires s.answers[i].call.key == s.answers[j].call.key != ""
    requires s.answers[i].response.Reply? && s.answers[j].response.Reply?
    ensures s.answers[i].response == s.answers[j].response && s.answers[i].call.user == s.answers[j].call.user
  {
    AlwaysGood(users, es);
    assert AnswerGood(s.db, s.answers[i]) && AnswerGood(s.db, s.answers[j]);
  }
}
