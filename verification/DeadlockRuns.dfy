/** Deadlocks do happen, and whatever is live can be brought to an end: by its own statements, and by aborts of
    deadlocked pairs alone. */
module DeadlockRuns {
  import opened Ids
  import opened Tables
  import opened Negotiations
  import opened UnitOfWork
  import opened RowLocks
  import opened LockFacts
  import opened Serializability
  import opened SoloRuns
  import opened Overlaps
  import opened Deadlock
  import opened StaleSiblings

  // ---------------------------------------------------------------- a deadlock

  /** After its own update an accept has nothing locked but its own row. */
  lemma WaiterHolds(db: Db, t: Txn, row: Row)
    requires Facts(db, t) && t.pc.WantRequest?
    ensures row in Footprint(db.market, t) <==> row == NegotiationRow(t.call.op.negotiation)
    ensures Wanted(db, t) == Some(RequestRow(RequestOf(db.market, t.call.op.negotiation)))
  {
  }

  lemma ListerHolds(db: Db, t: Txn)
    requires Facts(db, t) && t.pc == Superseding(0) && t.draw.siblings != []
    ensures RequestRow(RequestOf(db.market, t.call.op.negotiation)) in Footprint(db.market, t)
    ensures Wanted(db, t) == Some(NegotiationRow(t.draw.siblings[0]))
  {
  }

  /** One accept waits for a request and another has just listed its row: they wait for each other. */
  lemma PairIsDead(users: map<nat, Role>, s: State, a: nat, b: nat)
    requires Good(users, s) && a in s.txns && b in s.txns && a != b
    requires s.txns[a].pc.WantRequest? && s.txns[a].call.op.Accept?
    requires s.txns[b].pc == Superseding(0) && s.txns[b].call.op.Accept?
    requires s.txns[a].call.op.negotiation != s.txns[b].call.op.negotiation
    requires RequestOf(s.db.market, s.txns[a].call.op.negotiation)
          == RequestOf(s.db.market, s.txns[b].call.op.negotiation)
    requires s.txns[b].draw.siblings != [] && s.txns[b].draw.siblings[0] == s.txns[a].call.op.negotiation
    ensures DeadPair(s, a, b)
  {
    assert TxnGood(s.db, s.locks, a, s.txns[a]) && TxnGood(s.db, s.locks, b, s.txns[b]);
    WaiterHolds(s.db, s.txns[a], NegotiationRow(s.txns[a].call.op.negotiation));
    ListerHolds(s.db, s.txns[b]);
    assert Holds(s.locks, Wanted(s.db, s.txns[a]).value, b) && Holds(s.locks, Wanted(s.db, s.txns[b]).value, a);
  }

  /** An accept runs up to the request and stops there. */
  lemma {:induction false} WaitAlone(users: map<nat, Role>, es: seq<Event>, s: State, c: Commit)
    returns (more: seq<Event>, s': State, a: nat)
    requires Legal(users, es) && s == After(users, es) && Quiet(s)
    requires Effective(s.db, c) && DrawExact(s.db.market, c.call.op, c.draw) && c.call.op.Accept?
    ensures Legal(users, more) && s' == After(users, more) && s'.db == s.db
    ensures Solo(s', a) && s'.txns[a].call == c.call && s'.txns[a].pc.WantRequest?
  {
    more, s', a := BeginsAlone(users, es, s, c);
    more, s' := RunAccept(users, more, s', a, c, 7);
  }

  /** It leaves every other row free. */
  lemma {:induction false} NotWaiters(users: map<nat, Role>, es: seq<Event>, s: State, a: nat, row: Row)
    requires Legal(users, es) && s == After(users, es) && Solo(s, a) && s.txns[a].pc.WantRequest?
    requires s.txns[a].call.op.Accept? && row != NegotiationRow(s.txns[a].call.op.negotiation)
    ensures row !in s.locks
  {
    AloneHasAllLocks(users, es, s, a);
    assert TxnGood(s.db, s.locks, a, s.txns[a]) by {
      AlwaysGood(users, es);
    }
    WaiterHolds(s.db, s.txns[a], row);
    assert row in s.locks ==> Holds(s.locks, row, a);
  }

  /** Beside it, the accept of a sibling gets as far as its sibling list. */
  lemma {:induction false} ListBeside(users: map<nat, Role>, es: seq<Event>, s: State, a: nat, c: Commit)
    returns (more: seq<Event>, s': State, b: nat)
    requires Legal(users, es) && s == After(users, es) && Solo(s, a) && s.txns[a].pc.WantRequest?
    requires Effective(s.db, c) && DrawExact(s.db.market, c.call.op, c.draw) && c.call.op.Accept?
    requires s.txns[a].call.op.Accept? && s.txns[a].call.op.negotiation != c.call.op.negotiation
    ensures Legal(users, more) && s' == After(users, more) && s'.db == s.db
    ensures b != a && b in s'.txns && s'.txns == s.txns[b := s'.txns[b]]
    ensures s'.txns[b].pc == Superseding(0) && s'.txns[b].call == c.call && s'.txns[b].draw == c.draw
  {
    more, s', b := Begins(users, es, s, c);
    var own := NegotiationRow(c.call.op.negotiation);
    var request := RequestRow(RequestOf(s.db.market, c.call.op.negotiation));
    NotWaiters(users, es, s, a, own);
    NotWaiters(users, es, s, a, request);
    more, s' := RunAccept(users, more, s', b, c, 5);
  }

  /** Whenever two negotiations of one request may both be accepted, some interleaving of the two accepts
      deadlocks. */
  lemma {:induction false} AcceptsDeadlock(
      users: map<nat, Role>, es: seq<Event>, s: State, first: Commit, second: Commit)
    returns (more: seq<Event>, s': State, a: nat, b: nat)
    requires Legal(users, es) && s == After(users, es) && Quiet(s)
    requires Effective(s.db, first) && DrawExact(s.db.market, first.call.op, first.draw) && first.call.op.Accept?
    requires Effective(s.db, second) && DrawExact(s.db.market, second.call.op, second.draw) && second.call.op.Accept?
    requires second.draw.siblings != [] && second.draw.siblings[0] == first.call.op.negotiation
    ensures Legal(users, more) && s' == After(users, more) && DeadPair(s', a, b)
    ensures s'.txns.Keys == {a, b} && s'.txns[a].call == first.call && s'.txns[b].call == second.call
  {
    var s1;
    assert IsLosing(s.db.market.negotiations, second.call.op.negotiation, second.draw.siblings[0]);
    more, s1, a := WaitAlone(users, es, s, first);
    more, s', b := ListBeside(users, more, s1, a, second);
    AlwaysGood(users, more);
    PairIsDead(users, s', a, b);
  }

  /** There is a run that deadlocks: a client accepts both offers on its request at the same time. */
  lemma {:induction false} SomeRunDeadlocks() returns (es: seq<Event>, s: State, a: nat, b: nat)
    ensures Legal(USERS, es) && s == After(USERS, es) && DeadPair(s, a, b)
    ensures Follow(s, b, 2) == Some(b)
  {
    var first := Commit(Call(1, "", Accept(1)), Draw(0, 0, [2]));
    var second := Commit(Call(1, "", Accept(2)), Draw(0, 0, [1]));
    es := TwoOffersRun();
    EitherWouldWork(After(USERS, es).db, first);
    EitherWouldWork(After(USERS, es).db, second);
    es, s, a, b := AcceptsDeadlock(USERS, es, After(USERS, es), first, second);
    PairAlternates(s, a, b, 2);
  }

  lemma EitherWouldWork(db: Db, accept: Commit)
    requires db.users == USERS && db.market == TwoOffers()
    requires accept in {Commit(Call(1, "", Accept(1)), Draw(0, 0, [2])),
                        Commit(Call(1, "", Accept(2)), Draw(0, 0, [1]))}
    ensures Effective(db, accept) && DrawExact(db.market, accept.call.op, accept.draw)
  {
    var m, n := TwoOffers(), accept.call.op.negotiation;
    assert ProposalIds(m.proposals, n) == {n};
    assert LoadActive(m, 1, n).Ok?;
    assert ActiveSiblings(m.negotiations, 1, n) == {3 - n};
  }

  // ---------------------------------------------------------------- draining

  /** A statement, or the abort of one of a deadlocked pair. */
  ghost predicate Drains(s: State, e: Event) {
    e.Step? || (e.Abort? && exists b :: DeadPair(s, e.id, b) || DeadPair(s, b, e.id))
  }

  /** `more` goes on from `es` without any new call, and aborts nothing but members of deadlocked pairs. */
  ghost predicate DrainsFrom(users: map<nat, Role>, es: seq<Event>, more: seq<Event>) {
    && |es| <= |more| && more[..|es|] == es
    && forall k {:trigger Before(users, more, k)} :: |es| <= k < |more| ==> Drains(Before(users, more, k), more[k])
  }

  function Total(txns: map<nat, Txn>, f: Txn -> nat): nat
    decreases |txns|
  {
    if txns == map[] then 0
    else var x := Max(txns.Keys); f(txns[x]) + Total(txns - {x}, f)
  }

  lemma {:induction false} TotalUpdate(txns: map<nat, Txn>, id: nat, t: Txn, f: Txn -> nat)
    requires id in txns
    ensures Total(txns[id := t], f) + f(txns[id]) == Total(txns, f) + f(t)
    decreases |txns|
  {
    var x, after := Max(txns.Keys), txns[id := t];
    assert after.Keys == txns.Keys;
    if x == id {
      assert after - {x} == txns - {x};
    } else {
      assert after - {x} == (txns - {x})[id := t];
      TotalUpdate(txns - {x}, id, t, f);
    }
  }

  const PHASES := (t: Txn) => Phase(t.pc)

  const LOOPS := (t: Txn) => Loops(t)

  /** What is left to do: fewer transactions, or the same and fewer statements ahead of them. */
  ghost predicate Lighter(after: map<nat, Txn>, txns: map<nat, Txn>) {
    || |after| < |txns|
    || (|after| == |txns| && Total(after, PHASES) < Total(txns, PHASES))
    || (|after| == |txns| && Total(after, PHASES) == Total(txns, PHASES) && Total(after, LOOPS) < Total(txns, LOOPS))
  }

  lemma StepLightens(db: Db, txns: map<nat, Txn>, id: nat, pick: Draw)
    requires id in txns && Next(db, txns[id], pick).Move?
    ensures Lighter(txns[id := Next(db, txns[id], pick).txn], txns)
  {
    var t := Next(db, txns[id], pick).txn;
    StatementsRunOut(db, txns[id], pick);
    TotalUpdate(txns, id, t, PHASES);
    TotalUpdate(txns, id, t, LOOPS);
    assert txns[id := t].Keys == txns.Keys;
    assert |txns[id := t].Keys| == |txns[id := t]| && |txns.Keys| == |txns|;
  }

  lemma EndLightens(txns: map<nat, Txn>, id: nat)
    requires id in txns
    ensures Lighter(txns - {id}, txns)
  {
    assert (txns - {id}).Keys == txns.Keys - {id};
    assert |(txns - {id}).Keys| == |txns - {id}| && |txns.Keys| == |txns|;
  }

  /** While something is live, some draining event makes what is left lighter. */
  lemma {:induction false} DrainStep(users: map<nat, Role>, s: State) returns (e: Event)
    requires Good(users, s) && s.txns != map[]
    ensures Enabled(s, e) && Drains(s, e) && Lighter(Apply(s, e).txns, s.txns)
  {
    if id :| id in s.txns && Blocker(s, id).None? {
      var pick := ChoiceExists(users, s, id);
      e := Step(id, pick);
      if Next(s.db, s.txns[id], pick).Move? {
        StepLightens(s.db, s.txns, id, pick);
      } else {
        EndLightens(s.txns, id);
      }
    } else {
      var id :| id in s.txns;
      var a, b := AllWaiting(users, s, id);
      e := Abort(a);
      EndLightens(s.txns, a);
    }
  }

  /** From every reachable state, whatever is live can come to its end without any new call, at the price of
      aborting no transaction but members of deadlocked pairs. */
  lemma {:induction false} EverythingEnds(users: map<nat, Role>, es: seq<Event>) returns (more: seq<Event>)
    requires Legal(users, es)
    ensures Legal(users, more) && DrainsFrom(users, es, more) && Quiet(After(users, more))
    decreases |After(users, es).txns|, Total(After(users, es).txns, PHASES), Total(After(users, es).txns, LOOPS)
  {
    if Quiet(After(users, es)) {
      more := es;
    } else {
      AlwaysGood(users, es);
      var e := DrainStep(users, After(users, es));
      Extend(users, es, e);
      more := EverythingEnds(users, es + [e]);
      Longer(users, es, e, more);
    }
  }

  lemma {:induction false} Longer(users: map<nat, Role>, es: seq<Event>, e: Event, more: seq<Event>)
    requires Drains(After(users, es), e) && DrainsFrom(users, es + [e], more)
    ensures DrainsFrom(users, es, more)
  {
    assert more[..|es|] == more[..|es| + 1][..|es|] == es;
    assert more[|es|] == more[..|es| + 1][|es|] == e;
  }
}
