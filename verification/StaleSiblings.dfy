/** A sibling rejected by the client between the sibling query of an accept and its update is rejected again:
    the tables are right, but the log closes it twice. */
module StaleSiblings {
  import opened Sequences
  import opened Tables
  import opened Negotiations
  import opened UnitOfWork
  import opened ClosingRecords
  import opened RowLocks
  import opened LockFacts
  import opened Serializability
  import opened SoloRuns

  /** A reject without a key touches only its own row. */
  lemma {:induction false} RejectIsUnhindered(users: map<nat, Role>, es: seq<Event>, s: State, id: nat, draw: Draw)
    requires Legal(users, es) && s == After(users, es)
    requires id in s.txns && s.txns[id].call.op.Reject? && s.txns[id].call.key == ""
    requires Free(s.locks, NegotiationRow(s.txns[id].call.op.negotiation), id)
    ensures Unhindered(s, id, draw)
  {
    assert Facts(s.db, s.txns[id]) by {
      AlwaysGood(users, es);
      assert TxnGood(s.db, s.locks, id, s.txns[id]);
    }
    RejectLocks(s.db, s.txns[id], draw);
  }

  lemma RejectLocks(db: Db, t: Txn, pick: Draw)
    requires Facts(db, t) && t.call.op.Reject? && t.call.key == ""
    ensures var own := NegotiationRow(t.call.op.negotiation);
            && (Wanted(db, t).Some? ==> Wanted(db, t).value == own)
            && (Next(db, t, pick).Move? ==> Next(db, t, pick).locks <= {own})
  {
  }

  /** It runs to its commit whatever else is live, if nobody has that row. */
  lemma {:induction false} RejectInBetween(users: map<nat, Role>, es: seq<Event>, s: State, id: nat, c: Commit)
    returns (more: seq<Event>, s': State)
    requires Legal(users, es) && s == After(users, es) && id in s.txns && CanServe(s.db, s.txns[id], c)
    requires c.call.op.Reject? && c.call.key == "" && Free(s.locks, NegotiationRow(c.call.op.negotiation), id)
    ensures Legal(users, more) && s' == After(users, more)
    ensures s'.txns == s.txns - {id} && s'.history == s.history + [c]
    decreases Phase(s.txns[id].pc), Loops(s.txns[id])
  {
    if s.txns[id].pc.Saved? {
      more, s' := Publishes(users, es, s, id, c);
    } else {
      RejectIsUnhindered(users, es, s, id, c.draw);
      more, s' := MoveAlong(users, es, s, id, c);
      assert s'.txns - {id} == s.txns - {id};
      more, s' := RejectInBetween(users, more, s', id, c);
    }
  }

  lemma ListedServes(db: Db, t: Txn)
    requires Facts(db, t) && t.pc.Superseding? && t.call.key == ""
    ensures CanServe(db, t, Commit(t.call, t.draw))
  {
  }

  /** An accept without a key that has fetched its list would still have its effect if served now. */
  lemma {:induction false} ListedIsEffective(users: map<nat, Role>, es: seq<Event>, s: State, id: nat)
    requires Legal(users, es) && s == After(users, es)
    requires id in s.txns && s.txns[id].pc.Superseding? && s.txns[id].call.key == ""
    ensures CanServe(s.db, s.txns[id], Commit(s.txns[id].call, s.txns[id].draw))
  {
    assert Facts(s.db, s.txns[id]) by {
      AlwaysGood(users, es);
      assert TxnGood(s.db, s.locks, id, s.txns[id]);
    }
    ListedServes(s.db, s.txns[id]);
  }

  /** A reject commits while an accept stands between its sibling query and its first update. */
  lemma RejectCommits(users: map<nat, Role>, es: seq<Event>, s: State, a: nat, reject: Commit, sib: nat)
    returns (more: seq<Event>, s': State)
    requires Legal(users, es) && s == After(users, es)
    requires Solo(s, a) && s.txns[a].pc == Superseding(0) && sib in s.txns[a].draw.siblings
    requires reject.call.op == Reject(sib) && reject.call.key == "" && Effective(s.db, reject)
    ensures Legal(users, more) && s' == After(users, more)
    ensures s'.txns == s.txns && s'.history == s.history + [reject]
  {
    var b;
    SiblingIsFree(users, es, s, a, sib);
    more, s', b := Begins(users, es, s, reject);
    more, s' := RejectInBetween(users, more, s', b, reject);
    assert s'.txns == s.txns;
  }

  /** An accept alone runs to the point where it has fetched its sibling list. */
  lemma {:induction false} ListAlone(users: map<nat, Role>, es: seq<Event>, s: State, accept: Commit)
    returns (more: seq<Event>, s': State, a: nat)
    requires Legal(users, es) && s == After(users, es) && Quiet(s)
    requires Effective(s.db, accept) && DrawExact(s.db.market, accept.call.op, accept.draw) && accept.call.op.Accept?
    ensures Legal(users, more) && s' == After(users, more) && s'.db == s.db && s'.history == s.history
    ensures Solo(s', a) && s'.txns[a].pc == Superseding(0) && CanServe(s'.db, s'.txns[a], accept)
  {
    more, s', a := BeginsAlone(users, es, s, accept);
    more, s' := RunAccept(users, more, s', a, accept, 5);
  }

  /** Whenever a user may accept one negotiation and reject another of the same request, some interleaving
      of the two calls commits both, with the sibling list fetched before the reject. */
  lemma {:induction false} RejectInTheGap(
      users: map<nat, Role>, es: seq<Event>, s: State, accept: Commit, reject: Commit, sib: nat)
    returns (more: seq<Event>)
    requires Legal(users, es) && s == After(users, es) && Quiet(s)
    requires accept.call.op.Accept? && accept.call.key == "" && sib in accept.draw.siblings
    requires Effective(s.db, accept) && DrawExact(s.db.market, accept.call.op, accept.draw)
    requires reject.call.op == Reject(sib) && reject.call.key == "" && Effective(s.db, reject)
    ensures Legal(users, more) && After(users, more).history == s.history + [reject, accept]
  {
    var s', a;
    more, s', a := ListAlone(users, es, s, accept);
    more, s' := RejectCommits(users, more, s', a, reject, sib);
    ListedIsEffective(users, more, s', a);
    more := FinishAlone(users, more, s', a, accept);
    assert s.history + [reject] + [accept] == s.history + [reject, accept];
  }

  /** Before its first update an accept has no sibling row. */
  lemma ListIsNotHeld(db: Db, t: Txn, sib: nat)
    requires Facts(db, t) && t.pc == Superseding(0) && sib in t.draw.siblings
    ensures NegotiationRow(sib) !in Footprint(db.market, t)
  {
    assert t.draw.siblings[..0] == [];
    assert IsLosing(db.market.negotiations, t.call.op.negotiation, sib);
  }

  lemma {:induction false} SiblingIsFree(users: map<nat, Role>, es: seq<Event>, s: State, a: nat, sib: nat)
    requires Legal(users, es) && s == After(users, es)
    requires Solo(s, a) && s.txns[a].pc == Superseding(0) && sib in s.txns[a].draw.siblings
    ensures NegotiationRow(sib) !in s.locks
  {
    assert TxnGood(s.db, s.locks, a, s.txns[a]) && forall row :: row in s.locks ==> s.locks[row] == a by {
      AlwaysGood(users, es);
    }
    ListIsNotHeld(s.db, s.txns[a], sib);
    assert NegotiationRow(sib) in s.locks ==> Holds(s.locks, NegotiationRow(sib), a);
  }

  lemma {:induction false} StaleNow(users: map<nat, Role>, cs: seq<Commit>, reject: Commit, accept: Commit, sib: nat)
    requires Script(EmptyDb(users), cs + [reject, accept])
    requires reject.call.op == Reject(sib) && accept.call.op.Accept? && sib in accept.draw.siblings
    ensures !ExactRun(EmptyDb(users), cs + [reject, accept])
  {
    var all, first := cs + [reject, accept], cs + [reject];
    assert Init(all) == first && Init(first) == cs;
    EffectiveParts(Exec(EmptyDb(users), cs), reject);
  }

  // ---------------------------------------------------------------- a concrete run

  /** Client 1 has two offers, from suppliers 2 and 3; it accepts the first while rejecting the second. */
  const USERS: map<nat, Role> := map[1 := Client, 2 := Supplier, 3 := Supplier]

  const SETUP: seq<Commit> := [
    Commit(Call(1, "", Create), Draw(1, 0, [])),
    Commit(Call(2, "", Offer(1, 100, "COP")), Draw(1, 1, [])),
    Commit(Call(3, "", Offer(1, 90, "COP")), Draw(2, 2, []))]

  function TwoOffers(): Market {
    Market(map[1 := ProductRequest(1, Open)],
           map[1 := Negotiation(1, 2, Active, None), 2 := Negotiation(1, 3, Active, None)],
           map[1 := Proposal(1, 2, Supplier, OfferKind, 100, "COP"),
               2 := Proposal(2, 3, Supplier, OfferKind, 90, "COP")])
  }

  lemma {:induction false} SetupStep(m: Market, db: Db, c: Commit, cs: seq<Commit>)
    requires Script(EmptyDb(USERS), cs) && ExactRun(EmptyDb(USERS), cs) && db == Exec(EmptyDb(USERS), cs)
    requires db.users == USERS && c.call.key == "" && !c.call.op.Accept?
    requires Guard(USERS, c.call).None? && DrawOk(db.market, c.call.op, c.draw)
    requires var result := Perform(db.market, User(c.call.user, USERS[c.call.user]), c.call.op, c.draw);
             result.Ok? && result.value.market == m
    ensures Script(EmptyDb(USERS), cs + [c]) && ExactRun(EmptyDb(USERS), cs + [c])
    ensures Exec(EmptyDb(USERS), cs + [c]).market == m && Exec(EmptyDb(USERS), cs + [c]).users == USERS
  {
    EffectiveParts(db, c);
    ScriptAppend(EmptyDb(USERS), cs, c);
    assert Init(cs + [c]) == cs;
  }

  lemma SetupRuns()
    ensures Script(EmptyDb(USERS), SETUP) && ExactRun(EmptyDb(USERS), SETUP)
    ensures Exec(EmptyDb(USERS), SETUP).users == USERS && Exec(EmptyDb(USERS), SETUP).market == TwoOffers()
  {
    var m := TwoOffers();
    var m1 := Market(m.requests, map[], map[]);
    var m2 := Market(m.requests, map[1 := m.negotiations[1]], map[1 := m.proposals[1]]);
    var e := EmptyDb(USERS);
    SetupStep(m1, e, SETUP[0], []);
    assert [] + [SETUP[0]] == SETUP[..1];
    SetupStep(m2, Exec(e, SETUP[..1]), SETUP[1], SETUP[..1]);
    assert SETUP[..1] + [SETUP[1]] == SETUP[..2];
    SetupStep(m, Exec(e, SETUP[..2]), SETUP[2], SETUP[..2]);
    assert SETUP[..2] + [SETUP[2]] == SETUP;
  }

  lemma BothWouldWork(db: Db, accept: Commit, reject: Commit)
    requires db.users == USERS && db.market == TwoOffers()
    requires accept == Commit(Call(1, "", Accept(1)), Draw(0, 0, [2]))
    requires reject == Commit(Call(1, "", Reject(2)), Draw(0, 0, []))
    ensures Effective(db, accept) && DrawExact(db.market, accept.call.op, accept.draw) && Effective(db, reject)
  {
    var m := TwoOffers();
    assert ProposalIds(m.proposals, 1) == {1} && ProposalIds(m.proposals, 2) == {2};
    assert LoadActive(m, 1, 1).Ok? && LoadActive(m, 1, 2).Ok?;
    assert ActiveSiblings(m.negotiations, 1, 1) == {2};
  }

  /** A run leads to the two offers. */
  lemma TwoOffersRun() returns (es: seq<Event>)
    ensures Legal(USERS, es) && Quiet(After(USERS, es)) && After(USERS, es).history == SETUP
    ensures After(USERS, es).db.users == USERS && After(USERS, es).db.market == TwoOffers()
  {
    SetupRuns();
    es := EveryScriptRuns(USERS, SETUP);
  }

  /** There is a run that leaves negotiation 2 rejected, as it should be, but closed twice in the log. */
  lemma {:induction false} SomeRunClosesTwice() returns (es: seq<Event>, n: nat)
    ensures Legal(USERS, es) && Closers(After(USERS, es).db.audit, n) > 1
    ensures !ExactRun(EmptyDb(USERS), After(USERS, es).history)
  {
    var accept := Commit(Call(1, "", Accept(1)), Draw(0, 0, [2]));
    var reject := Commit(Call(1, "", Reject(2)), Draw(0, 0, []));
    es := TwoOffersRun();
    BothWouldWork(After(USERS, es).db, accept, reject);
    es := RejectInTheGap(USERS, es, After(USERS, es), accept, reject, 2);
    AlwaysGood(USERS, es);
    StaleNow(USERS, SETUP, reject, accept, 2);
    n := ClosedTwice(USERS, SETUP + [reject, accept]);
  }
}
