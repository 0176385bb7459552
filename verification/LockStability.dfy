/** A commit changes only rows its transaction has locked, so it leaves every other transaction's facts true. */
module LockStability {
  import opened Tables
  import opened Negotiations
  import opened UnitOfWork
  import opened RowLocks
  import opened LockFacts

  // ---------------------------------------------------------------- what a commit may change

  ghost predicate RequestMove(m: Market, after: Market, locks: map<Row, nat>, u: nat, r: nat) {
    && (r in m.requests ==> r in after.requests && after.requests[r].client == m.requests[r].client)
    && (r in after.requests && (r in m.requests ==> after.requests[r] != m.requests[r]) ==>
          Holds(locks, RequestRow(r), u))
  }

  /** Old rows keep their links and never come back to life; accepting one needs the request's lock too. */
  ghost predicate NegotiationMove(m: Market, after: Market, locks: map<Row, nat>, u: nat, n: nat) {
    && (n in m.negotiations ==>
          && n in after.negotiations
          && after.negotiations[n].request == m.negotiations[n].request
          && after.negotiations[n].supplier == m.negotiations[n].supplier
          && (m.negotiations[n].status != Active ==> after.negotiations[n].status == m.negotiations[n].status)
          && (m.negotiations[n].status != Accepted && after.negotiations[n].status == Accepted ==>
                Holds(locks, RequestRow(m.negotiations[n].request), u)))
    && (n in after.negotiations && (n in m.negotiations ==> after.negotiations[n] != m.negotiations[n]) ==>
          Holds(locks, NegotiationRow(n), u))
    && (n in after.negotiations && n !in m.negotiations ==>
          Holds(locks, RequestRow(after.negotiations[n].request), u))
  }

  ghost predicate ProposalMove(m: Market, after: Market, locks: map<Row, nat>, u: nat, p: nat) {
    && (p in m.proposals ==> p in after.proposals && after.proposals[p] == m.proposals[p])
    && (p in after.proposals && p !in m.proposals ==>
          Holds(locks, ProposalRow(p), u) && Holds(locks, NegotiationRow(after.proposals[p].negotiation), u))
  }

  ghost predicate KeyMove(db: Db, after: Db, locks: map<Row, nat>, u: nat, k: string) {
    && (k in db.keys ==> k in after.keys && after.keys[k] == db.keys[k])
    && (k in after.keys && k !in db.keys ==> Holds(locks, KeyRow(k), u))
  }

  /** Every difference between the two databases is covered by a lock of `u`. */
  ghost predicate Respects(db: Db, after: Db, locks: map<Row, nat>, u: nat) {
    var m, m' := db.market, after.market;
    && after.users == db.users
    && (forall r {:trigger RequestMove(m, m', locks, u, r)} :: RequestMove(m, m', locks, u, r))
    && (forall n {:trigger NegotiationMove(m, m', locks, u, n)} :: NegotiationMove(m, m', locks, u, n))
    && (forall p {:trigger ProposalMove(m, m', locks, u, p)} :: ProposalMove(m, m', locks, u, p))
    && (forall k {:trigger KeyMove(db, after, locks, u, k)} :: KeyMove(db, after, locks, u, k))
  }

  // ---------------------------------------------------------------- a publishing transaction respects its locks

  lemma PublishRequests(db: Db, t: Txn, locks: map<Row, nat>, u: nat, r: nat)
    requires t.call.user in db.users && Complete(db.market, Actor(db, t.call), t)
    requires forall row :: row in FullFootprint(db.market, t) ==> Holds(locks, row, u)
    ensures RequestMove(db.market, View(db.market, t.writes), locks, u, r)
  {
    var written := t.writes.market.requests;
    assert r in written ==> RequestRow(r) in FullFootprint(db.market, t);
  }

  lemma PublishNegotiations(db: Db, t: Txn, locks: map<Row, nat>, u: nat, n: nat)
    requires t.call.user in db.users && Complete(db.market, Actor(db, t.call), t)
    requires forall row :: row in FullFootprint(db.market, t) ==> Holds(locks, row, u)
    ensures NegotiationMove(db.market, View(db.market, t.writes), locks, u, n)
  {
    var m := db.market;
    assert n in t.writes.market.negotiations ==> NegotiationRow(n) in FullFootprint(m, t);
    if t.call.op.Accept? {
      assert n in t.draw.siblings ==> IsLosing(m.negotiations, t.call.op.negotiation, n);
      assert RequestRow(RequestOf(m, t.call.op.negotiation)) in FullFootprint(m, t);
    } else if t.call.op.Offer? {
      assert RequestRow(t.call.op.request) in FullFootprint(m, t);
    }
  }

  lemma PublishProposals(db: Db, t: Txn, locks: map<Row, nat>, u: nat, p: nat)
    requires t.call.user in db.users && Complete(db.market, Actor(db, t.call), t)
    requires forall row :: row in FullFootprint(db.market, t) ==> Holds(locks, row, u)
    ensures ProposalMove(db.market, View(db.market, t.writes), locks, u, p)
  {
    if p in t.writes.market.proposals {
      assert {ProposalRow(p), NegotiationRow(t.writes.market.proposals[p].negotiation)} <= FullFootprint(db.market, t);
    }
  }

  lemma {:induction false} PublishRespects(db: Db, t: Txn, locks: map<Row, nat>, u: nat)
    requires t.pc.Saved? && Facts(db, t) && HoldsExactly(locks, Footprint(db.market, t), u)
    ensures Respects(db, Published(db, t, t.pc.body), locks, u)
  {
    var after := Published(db, t, t.pc.body);
    var m, m' := db.market, after.market;
    assert FullFootprint(m, t) <= Footprint(m, t);
    forall r ensures RequestMove(m, m', locks, u, r) {
      PublishRequests(db, t, locks, u, r);
    }
    forall n ensures NegotiationMove(m, m', locks, u, n) {
      PublishNegotiations(db, t, locks, u, n);
    }
    forall p ensures ProposalMove(m, m', locks, u, p) {
      PublishProposals(db, t, locks, u, p);
    }
    forall k ensures KeyMove(db, after, locks, u, k) {
      assert t.call.key != "" ==> KeyRow(t.call.key) in Footprint(m, t);
    }
  }

  // ---------------------------------------------------------------- the other transactions' facts stay true

  /** A thread whose row another transaction has locked keeps its row and its proposals. */
  lemma ThreadStable(db: Db, after: Db, locks: map<Row, nat>, u: nat, id: nat, n: nat)
    requires Respects(db, after, locks, u) && u != id && Holds(locks, NegotiationRow(n), id)
    ensures n in after.market.negotiations <==> n in db.market.negotiations
    ensures n in db.market.negotiations ==> after.market.negotiations[n] == db.market.negotiations[n]
    ensures ProposalIds(after.market.proposals, n) == ProposalIds(db.market.proposals, n)
    ensures Chain(after.market.proposals, n) == Chain(db.market.proposals, n)
  {
    var m, m' := db.market, after.market;
    assert NegotiationMove(m, m', locks, u, n);
    forall p ensures p in ProposalIds(m'.proposals, n) <==> p in ProposalIds(m.proposals, n) {
      assert ProposalMove(m, m', locks, u, p);
    }
    forall p | p in ProposalIds(m.proposals, n) ensures m'.proposals[p] == m.proposals[p] {
      assert ProposalMove(m, m', locks, u, p);
    }
    ChainFrame(m.proposals, m'.proposals, n);
  }

  /** Whether and to what a user may respond is fixed while the thread is locked. */
  lemma LoadStable(db: Db, after: Db, locks: map<Row, nat>, u: nat, id: nat, user: nat, n: nat)
    requires Respects(db, after, locks, u) && u != id && Holds(locks, NegotiationRow(n), id)
    requires LoadActive(db.market, user, n).Ok?
    ensures LoadActive(after.market, user, n) == LoadActive(db.market, user, n)
    ensures var last := LoadActive(db.market, user, n).value;
            last in db.market.proposals && last in after.market.proposals
            && after.market.proposals[last] == db.market.proposals[last]
  {
    var m, m' := db.market, after.market;
    ThreadStable(db, after, locks, u, id, n);
    assert RequestMove(m, m', locks, u, m.negotiations[n].request);
    assert ProposalMove(m, m', locks, u, LoadActive(m, user, n).value);
  }

  /** While a request is locked, nobody else opens a thread on it, accepts one of its threads or closes it. */
  lemma RequestStable(db: Db, after: Db, locks: map<Row, nat>, u: nat, id: nat, r: nat)
    requires Respects(db, after, locks, u) && u != id && Holds(locks, RequestRow(r), id)
    ensures r in after.market.requests <==> r in db.market.requests
    ensures r in db.market.requests ==> after.market.requests[r] == db.market.requests[r]
    ensures var now, later := db.market.negotiations, after.market.negotiations;
            forall n :: n in later && later[n].request == r ==>
                          && n in now && now[n].request == r && later[n].supplier == now[n].supplier
                          && (now[n].status != Active ==> later[n].status != Active)
                          && (now[n].status != Accepted ==> later[n].status != Accepted)
  {
    assert RequestMove(db.market, after.market, locks, u, r);
    forall n | n in after.market.negotiations && after.market.negotiations[n].request == r
      ensures n in db.market.negotiations && db.market.negotiations[n].request == r
              && after.market.negotiations[n].supplier == db.market.negotiations[n].supplier
              && (db.market.negotiations[n].status != Active ==> after.market.negotiations[n].status != Active)
              && (db.market.negotiations[n].status != Accepted ==> after.market.negotiations[n].status != Accepted)
    {
      assert NegotiationMove(db.market, after.market, locks, u, n);
    }
  }

  lemma SiblingsStable(db: Db, after: Db, locks: map<Row, nat>, u: nat, id: nat, n: nat, siblings: seq<nat>)
    requires Respects(db, after, locks, u) && u != id
    requires n in db.market.negotiations && SiblingsOk(db.market.negotiations, n, siblings)
    requires Holds(locks, NegotiationRow(n), id) && Holds(locks, RequestRow(db.market.negotiations[n].request), id)
    ensures n in after.market.negotiations && SiblingsOk(after.market.negotiations, n, siblings)
  {
    var negs, negs', r := db.market.negotiations, after.market.negotiations, db.market.negotiations[n].request;
    assert NegotiationMove(db.market, after.market, locks, u, n);
    RequestStable(db, after, locks, u, id, r);
    forall s | s in siblings ensures IsLosing(negs', n, s) {
      assert IsLosing(negs, n, s);
      assert NegotiationMove(db.market, after.market, locks, u, s);
    }
    assert forall s :: s in ActiveSiblings(negs', r, n) ==> s in ActiveSiblings(negs, r, n);
  }

  lemma LosersStable(db: Db, after: Db, locks: map<Row, nat>, u: nat, id: nat, done: seq<nat>)
    requires Respects(db, after, locks, u) && u != id
    requires forall s :: s in done ==> Holds(locks, NegotiationRow(s), id)
    ensures Losers(after.market.negotiations, done) == Losers(db.market.negotiations, done)
  {
    forall s | s in done
      ensures s in after.market.negotiations <==> s in db.market.negotiations
      ensures s in db.market.negotiations ==> after.market.negotiations[s] == db.market.negotiations[s]
    {
      assert NegotiationMove(db.market, after.market, locks, u, s);
    }
  }

  lemma AcceptsStable(
      db: Db, after: Db, locks: map<Row, nat>, u: nat, id: nat, t: Txn, closed: bool, done: seq<nat>)
    requires Respects(db, after, locks, u) && u != id && Accepts(db.market, t, closed, done)
    requires Holds(locks, NegotiationRow(t.call.op.negotiation), id)
    requires closed ==> Holds(locks, RequestRow(RequestOf(db.market, t.call.op.negotiation)), id)
    requires forall s :: s in done ==> Holds(locks, NegotiationRow(s), id)
    ensures Accepts(after.market, t, closed, done)
  {
    var n := t.call.op.negotiation;
    LoadStable(db, after, locks, u, id, t.call.user, n);
    ThreadStable(db, after, locks, u, id, n);
    LosersStable(db, after, locks, u, id, done);
    if closed {
      RequestStable(db, after, locks, u, id, db.market.negotiations[n].request);
    }
  }

  lemma OfferFactsStable(db: Db, after: Db, locks: map<Row, nat>, u: nat, id: nat, op: Op, supplier: nat)
    requires Respects(db, after, locks, u) && u != id && op.Offer? && Holds(locks, RequestRow(op.request), id)
    requires OpenFor(db.market, op)
    ensures OpenFor(after.market, op)
    ensures !HasOffer(db.market.negotiations, op.request, supplier) ==>
              !HasOffer(after.market.negotiations, op.request, supplier)
  {
    RequestStable(db, after, locks, u, id, op.request);
  }

  lemma CompleteStable(db: Db, after: Db, locks: map<Row, nat>, u: nat, id: nat, user: User, t: Txn)
    requires Respects(db, after, locks, u) && u != id && Complete(db.market, user, t)
    requires forall row :: row in FullFootprint(db.market, t) ==> Holds(locks, row, id)
    ensures Complete(after.market, user, t)
  {
    var m, m', op := db.market, after.market, t.call.op;
    match op {
      case Create =>
        assert RequestRow(t.draw.row) in FullFootprint(m, t);
        assert RequestMove(m, m', locks, u, t.draw.row);
      case Offer(r, _, _) =>
        assert {NegotiationRow(t.draw.row), ProposalRow(t.draw.proposal)} <= FullFootprint(m, t);
        OfferFactsStable(db, after, locks, u, id, op, user.id);
        assert NegotiationMove(m, m', locks, u, t.draw.row);
        assert ProposalMove(m, m', locks, u, t.draw.proposal);
      case Reject(n) =>
        LoadStable(db, after, locks, u, id, user.id, n);
        ThreadStable(db, after, locks, u, id, n);
      case Counter(n, _) =>
        LoadStable(db, after, locks, u, id, user.id, n);
        ThreadStable(db, after, locks, u, id, n);
        assert ProposalRow(t.draw.proposal) in FullFootprint(m, t);
        assert ProposalMove(m, m', locks, u, t.draw.proposal);
      case Accept(n) =>
        CompleteAcceptStable(db, after, locks, u, id, user, t);
    }
  }

  lemma CompleteAcceptStable(db: Db, after: Db, locks: map<Row, nat>, u: nat, id: nat, user: User, t: Txn)
    requires Respects(db, after, locks, u) && u != id && t.call.op.Accept? && Complete(db.market, user, t)
    requires forall row :: row in FullFootprint(db.market, t) ==> Holds(locks, row, id)
    ensures Complete(after.market, user, t)
  {
    var n := t.call.op.negotiation;
    forall s | s in t.draw.siblings ensures Holds(locks, NegotiationRow(s), id) {
      assert NegotiationRow(s) in SiblingRows(t.draw.siblings);
    }
    LoadStable(db, after, locks, u, id, user.id, n);
    SiblingsStable(db, after, locks, u, id, n, t.draw.siblings);
    AcceptsStable(db, after, locks, u, id, t, true, t.draw.siblings);
  }

  lemma ViewChainStable(db: Db, after: Db, locks: map<Row, nat>, u: nat, id: nat, writes: Done, n: nat)
    requires Respects(db, after, locks, u) && u != id && Holds(locks, NegotiationRow(n), id)
    ensures Chain(View(after.market, writes).proposals, n) == Chain(View(db.market, writes).proposals, n)
  {
    ThreadStable(db, after, locks, u, id, n);
    var m, m' := db.market.proposals, after.market.proposals;
    var view, view' := View(db.market, writes).proposals, View(after.market, writes).proposals;
    forall p ensures p in ProposalIds(view', n) <==> p in ProposalIds(view, n) {
      assert ProposalMove(db.market, after.market, locks, u, p);
      assert p in ProposalIds(m', n) <==> p in ProposalIds(m, n);
    }
    forall p | p in ProposalIds(view, n) ensures view'[p] == view[p] {
      assert ProposalMove(db.market, after.market, locks, u, p);
    }
    ChainFrame(view, view', n);
  }

  /** The response built from the transaction's view is still what its view shows. */
  lemma BodyStable(db: Db, after: Db, locks: map<Row, nat>, u: nat, id: nat, t: Txn, body: Body)
    requires Respects(db, after, locks, u) && u != id && BodyFits(db.market, t, body)
    requires t.call.op.Create? ==> Subject(t.call.op, t.draw) in t.writes.market.requests
    requires !t.call.op.Create? ==> Holds(locks, NegotiationRow(Subject(t.call.op, t.draw)), id)
    ensures BodyFits(after.market, t, body)
  {
    if !t.call.op.Create? {
      ThreadStable(db, after, locks, u, id, Subject(t.call.op, t.draw));
      ViewChainStable(db, after, locks, u, id, t.writes, Subject(t.call.op, t.draw));
    }
  }

  lemma FootprintStable(db: Db, after: Db, locks: map<Row, nat>, u: nat, t: Txn)
    requires Respects(db, after, locks, u) && Facts(db, t)
    ensures Footprint(after.market, t) == Footprint(db.market, t)
  {
    if !t.call.op.Create? && !t.call.op.Offer? {
      assert NegotiationMove(db.market, after.market, locks, u, t.call.op.negotiation);
    }
  }

  /** What a transaction knows survives every commit of another one. */
  lemma FactsStable(db: Db, after: Db, locks: map<Row, nat>, u: nat, id: nat, t: Txn)
    requires Respects(db, after, locks, u) && u != id
    requires Facts(db, t) && HoldsExactly(locks, Footprint(db.market, t), id)
    ensures Facts(after, t)
  {
    var op := t.call.op;
    match t.pc {
      case Start =>
      case Begun =>
      case OfferLocked => OfferFactsStable(db, after, locks, u, id, op, t.call.user);
      case OfferFree => OfferFactsStable(db, after, locks, u, id, op, t.call.user);
      case OfferInserted =>
        OfferFactsStable(db, after, locks, u, id, op, t.call.user);
        assert NegotiationMove(db.market, after.market, locks, u, t.draw.row);
      case NegotiationLocked => ThreadStable(db, after, locks, u, id, op.negotiation);
      case Checked =>
        ThreadStable(db, after, locks, u, id, op.negotiation);
        assert RequestMove(db.market, after.market, locks, u, db.market.negotiations[op.negotiation].request);
      case MyTurn => LoadStable(db, after, locks, u, id, t.call.user, op.negotiation);
      case WantRequest => AcceptsStable(db, after, locks, u, id, t, false, []);
      case HasRequest => AcceptsStable(db, after, locks, u, id, t, true, []);
      case Superseding(i) =>
        var done := t.draw.siblings[..i];
        forall s | s in done ensures Holds(locks, NegotiationRow(s), id) {
          assert NegotiationRow(s) in SiblingRows(done);
        }
        AcceptsStable(db, after, locks, u, id, t, true, done);
        SiblingsStable(db, after, locks, u, id, op.negotiation, t.draw.siblings);
      case Produced(body) =>
        CompleteStable(db, after, locks, u, id, Actor(db, t.call), t);
        assert !op.Create? ==> NegotiationRow(Subject(op, t.draw)) in FullFootprint(db.market, t);
        BodyStable(db, after, locks, u, id, t, body);
      case Saved(body) =>
        CompleteStable(db, after, locks, u, id, Actor(db, t.call), t);
        assert !op.Create? ==> NegotiationRow(Subject(op, t.draw)) in FullFootprint(db.market, t);
        BodyStable(db, after, locks, u, id, t, body);
        assert KeyMove(db, after, locks, u, t.call.key);
    }
  }

  // ---------------------------------------------------------------- a commit is one serial request

  lemma AcceptPerforms(m: Market, user: User, t: Txn)
    requires t.call.op.Accept? && Complete(m, user, t)
    ensures Accepting(m, user, t.call.op.negotiation, t.draw) == Ok(Done(View(m, t.writes), t.writes.rows))
  {
    var n := t.call.op.negotiation;
    var amount := m.proposals[LoadActive(m, user.id, n).value].amount;
    var merged := m.negotiations + t.writes.market.negotiations;
    forall k | k in m.negotiations ensures merged[k] == Settled(m.negotiations, n, amount)[k] {
      assert k in t.draw.siblings ==> IsLosing(m.negotiations, n, k);
      assert k in ActiveSiblings(m.negotiations, m.negotiations[n].request, n) ==> k in t.draw.siblings;
    }
    assert merged.Keys == m.negotiations.Keys by {
      assert forall s :: s in t.draw.siblings ==> IsLosing(m.negotiations, n, s);
    }
    assert merged == Settled(m.negotiations, n, amount);
    assert m.requests + t.writes.market.requests
        == m.requests[m.negotiations[n].request := m.requests[m.negotiations[n].request].(status := Closed)];
    assert m.proposals + t.writes.market.proposals == m.proposals;
  }

  lemma OfferPerforms(m: Market, user: User, t: Txn)
    requires t.call.op.Offer? && Complete(m, user, t)
    ensures Offering(m, user, t.call.op, t.draw) == Ok(Done(View(m, t.writes), t.writes.rows))
  {
    assert View(m, t.writes) == Offering(m, user, t.call.op, t.draw).value.market;
  }

  lemma DecisionPerforms(m: Market, user: User, t: Txn)
    requires (t.call.op.Reject? || t.call.op.Counter?) && Complete(m, user, t)
    ensures Perform(m, user, t.call.op, t.draw) == Ok(Done(View(m, t.writes), t.writes.rows))
  {
    assert View(m, t.writes) == Perform(m, user, t.call.op, t.draw).value.market;
  }

  lemma CompletePerforms(m: Market, user: User, t: Txn)
    requires Complete(m, user, t)
    ensures DrawOk(m, t.call.op, t.draw)
    ensures Perform(m, user, t.call.op, t.draw) == Ok(Done(View(m, t.writes), t.writes.rows))
  {
    match t.call.op {
      case Create => assert View(m, t.writes) == Creating(m, user, t.draw).market;
      case Offer(_, _, _) => OfferPerforms(m, user, t);
      case Reject(_) => DecisionPerforms(m, user, t);
      case Counter(_, _) => DecisionPerforms(m, user, t);
      case Accept(_) => AcceptPerforms(m, user, t);
    }
  }

  /** Publishing is exactly serving the whole request, alone, on the rows committed at that moment. */
  lemma PublishIsHandle(db: Db, t: Txn)
    requires t.pc.Saved? && Facts(db, t)
    ensures Effective(db, Commit(t.call, t.draw))
    ensures Handle(db, Commit(t.call, t.draw))
         == Outcome(Published(db, t, t.pc.body), Reply(StatusCode(t.call.op), t.pc.body))
  {
    CompletePerforms(db.market, Actor(db, t.call), t);
  }
}
