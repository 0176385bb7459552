/** What the listings show, in terms of the tables and of what a user may do
    (app/services/negotiation.py, app/routers/requests.py, app/routers/negotiations.py). */
module Listings {
  import opened Tables
  import opened Negotiations
  import opened UnitOfWork
  import opened Invariants
  import opened Answers
  import opened Pagination

  /** Some page of the user's listing of requests shows `r`. */
  ghost predicate ShowsRequest(m: Market, user: User, limit: nat, r: nat) {
    exists k: nat {:trigger Offset(limit, k)} :: r in ListRequests(m, user, limit, Offset(limit, k))
  }

  ghost predicate ShowsNegotiation(m: Market, user: User, limit: nat, n: nat) {
    exists k: nat {:trigger Offset(limit, k)} :: n in ListNegotiations(m, user, limit, Offset(limit, k))
  }

  /** A client's pages show exactly its own requests. */
  lemma ClientsSeeTheirRequests(m: Market, user: User, limit: nat, r: nat)
    requires user.role == Client && limit >= 1
    ensures ShowsRequest(m, user, limit, r) <==> r in m.requests && m.requests[r].client == user.id
  {
    ShownIffListed(RequestIds(m, user), limit, r);
    assert ShowsRequest(m, user, limit, r) <==> Shown(RequestIds(m, user), limit, r);
  }

  /** A supplier's pages show exactly the requests to which an offer is not refused because there is no such request
      or it is not open: any supplier, any offer. */
  lemma {:induction false} SuppliersSeeTheMarketplace(
      users: map<nat, Role>, cs: seq<Commit>, db: Db, user: User, limit: nat, call: Call, draw: Draw)
    requires FirstTry(users, cs, db, call) && call.op.Offer? && limit >= 1
    requires user.role == Supplier && users[call.user] == Supplier
    ensures ShowsRequest(db.market, user, limit, call.op.request)
       <==> Handle(db, Commit(call, draw)).response !in {Failure(NotFound), Failure(Conflict(RequestNotOpen))}
    ensures ShowsRequest(db.market, user, limit, call.op.request)
       <==> call.op.request in db.market.requests && !exists n :: Winner(db.market, call.op.request, n)
  {
    AnswerToOffer(users, cs, db, call, draw);
    ShownIffListed(RequestIds(db.market, user), limit, call.op.request);
    assert ShowsRequest(db.market, user, limit, call.op.request)
      <==> Shown(RequestIds(db.market, user), limit, call.op.request);
  }

  /** A user's pages of negotiations show exactly those of which it is a party: the one that spoke last, or the other
      one, whose turn it is while the negotiation is active. */
  lemma {:induction false} PartiesSeeTheirNegotiations(
      users: map<nat, Role>, cs: seq<Commit>, m: Market, user: User, limit: nat, n: nat)
    requires Script(EmptyDb(users), cs) && m == Exec(EmptyDb(users), cs).market && limit >= 1
    requires user.id in users && user.role == users[user.id]
    ensures n in m.negotiations ==> m.negotiations[n].request in m.requests
    ensures ShowsNegotiation(m, user, limit, n)
       <==> n in m.negotiations && user.id in {m.requests[m.negotiations[n].request].client, m.negotiations[n].supplier}
    ensures ShowsNegotiation(m, user, limit, n)
       <==> n in m.negotiations && (user.id == Mover(m, n) || LastActor(m.proposals, n) == Some(user.id))
  {
    RunsKeep(users, cs);
    PartiesAreListed(users, m, user, n);
    ShownIffListed(NegotiationIds(m, user), limit, n);
    assert ShowsNegotiation(m, user, limit, n) <==> Shown(NegotiationIds(m, user), limit, n);
    if n in m.negotiations {
      OneMover(users, cs, m, n, user, 0, Draw(0, 0, []));
      assert {LastActor(m.proposals, n).value, Mover(m, n)}
          == {m.requests[m.negotiations[n].request].client, m.negotiations[n].supplier};
    }
  }
}
