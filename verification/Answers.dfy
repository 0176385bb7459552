/** What a POST is answered, read from the tables alone: who may do what, which error comes first, what a reply shows.
    The statements are about every reachable database, and about whole requests, role guard and key included
    (app/routers/requests.py, app/routers/negotiations.py, app/deps.py, app/services/negotiation.py). */
module Answers {
  import opened Tables
  import opened Negotiations
  import opened UnitOfWork
  import opened Invariants

  /** The database after some successful requests, and a call by one of its users that is not a repeat. */
  ghost predicate FirstTry(users: map<nat, Role>, cs: seq<Commit>, db: Db, call: Call) {
    && Script(EmptyDb(users), cs) && db == Exec(EmptyDb(users), cs)
    && call.user in users && (call.key == "" || call.key !in db.keys)
  }

  function Answer(db: Db, call: Call, draw: Draw): Response {
    Handle(db, Commit(call, draw)).response
  }

  // ---------------------------------------------------------------- who is let in

  /** A token of nobody in the directory is refused before anything else, and changes nothing. */
  lemma StrangersAreUnauthorized(db: Db, call: Call, draw: Draw)
    requires call.user !in db.users
    ensures Handle(db, Commit(call, draw)) == Outcome(db, Failure(Unauthorized))
  {
  }

  /** Only clients create and only suppliers offer, with or without a stored key; nothing else asks for a role. */
  lemma OtherRolesAreForbidden(db: Db, call: Call, draw: Draw)
    requires call.user in db.users && (call.op.Create? || call.op.Offer?)
    requires db.users[call.user] != (if call.op.Create? then Client else Supplier)
    ensures Handle(db, Commit(call, draw)) == Outcome(db, Failure(Forbidden))
  {
  }

  /** A call whose key is stored is answered from the store, to the user who stored it; the role comes first. */
  lemma AnswerToRepeat(db: Db, call: Call, draw: Draw)
    requires call.user in db.users && call.key != "" && call.key in db.keys
    ensures var stored := db.keys[call.key];
            Handle(db, Commit(call, draw)) == Outcome(db,
              if call.op.Create? && db.users[call.user] != Client then Failure(Forbidden)
              else if call.op.Offer? && db.users[call.user] != Supplier then Failure(Forbidden)
              else if stored.user != call.user then Failure(Conflict(KeyOfAnotherUser))
              else Reply(stored.code, stored.body))
  {
  }

  /** A client's new request is always accepted, and shown as stored: open, and the client's. */
  lemma {:induction false} AnswerToCreate(users: map<nat, Role>, cs: seq<Commit>, db: Db, call: Call, draw: Draw)
    requires FirstTry(users, cs, db, call) && call.op.Create?
    ensures Answer(db, call, draw)
         == if users[call.user] == Client then Reply(201, RequestBody(draw.row, ProductRequest(call.user, Open)))
            else Failure(Forbidden)
    ensures users[call.user] == Client ==>
              Handle(db, Commit(call, draw)).db.market
              == db.market.(requests := db.market.requests[draw.row := ProductRequest(call.user, Open)])
  {
    RunsKeep(users, cs);
  }

  // ---------------------------------------------------------------- offers

  ghost predicate HasThread(m: Market, r: nat, supplier: nat) {
    exists k :: k in m.negotiations && m.negotiations[k].request == r && m.negotiations[k].supplier == supplier
  }

  /** When an offer succeeds, and which error it gives otherwise, in the order of the checks. The request is not open
      exactly when one of its negotiations has been accepted. */
  lemma {:induction false} AnswerToOffer(users: map<nat, Role>, cs: seq<Commit>, db: Db, call: Call, draw: Draw)
    requires FirstTry(users, cs, db, call) && call.op.Offer?
    ensures var m, r, answer := db.market, call.op.request, Answer(db, call, draw);
            && (if users[call.user] != Supplier then answer == Failure(Forbidden)
                else if r !in m.requests then answer == Failure(NotFound)
                else if exists n :: Winner(m, r, n) then answer == Failure(Conflict(RequestNotOpen))
                else if HasThread(m, r, call.user) then answer == Failure(Conflict(DuplicateOffer))
                else answer.Reply?)
            && (r in m.requests ==> (m.requests[r].status == Open <==> !exists n :: Winner(m, r, n)))
  {
    RunsKeep(users, cs);
    assert call.op.request in db.market.requests ==> StatusOk(db.market, call.op.request);
    OfferErrors(db.market, User(call.user, users[call.user]), call.op, draw);
  }

  /** For a supplier the errors of the service, in order, and nothing in the way otherwise. */
  lemma OfferErrors(m: Market, user: User, op: Op, draw: Draw)
    requires op.Offer?
    ensures Offering(m, user, op, draw).Ok?
       <==> && op.request in m.requests && m.requests[op.request].status == Open
            && forall k :: k in m.negotiations && m.negotiations[k].request == op.request ==>
                             m.negotiations[k].supplier != user.id
    ensures op.request !in m.requests ==> Offering(m, user, op, draw) == Err(NotFound)
    ensures op.request in m.requests && m.requests[op.request].status != Open ==>
              Offering(m, user, op, draw) == Err(Conflict(RequestNotOpen))
    ensures op.request in m.requests && m.requests[op.request].status == Open && HasThread(m, op.request, user.id) ==>
              Offering(m, user, op, draw) == Err(Conflict(DuplicateOffer))
  {
    assert HasThread(m, op.request, user.id) <==>
           exists k :: k in m.negotiations && m.negotiations[k].request == op.request
                       && m.negotiations[k].supplier == user.id;
  }

  /** A successful offer opens a thread of its supplier with one proposal, the offer, and shows it. */
  lemma {:induction false} ReplyToOffer(users: map<nat, Role>, cs: seq<Commit>, db: Db, call: Call, draw: Draw)
    requires FirstTry(users, cs, db, call) && call.op.Offer?
    requires Answer(db, call, draw).Reply? && DrawOk(db.market, call.op, draw)
    ensures var m, after, n := db.market, Handle(db, Commit(call, draw)).db.market, draw.row;
            var row := Negotiation(call.op.request, call.user, Active, None);
            && Answer(db, call, draw) == Reply(201, NegotiationBody(n, row, Some(call.user)))
            && after.requests == m.requests && after.negotiations == m.negotiations[n := row]
            && Chain(after.proposals, n)
               == [Proposal(n, call.user, Supplier, OfferKind, call.op.amount, call.op.currency)]
            && (forall k :: k in m.negotiations ==> Chain(after.proposals, k) == Chain(m.proposals, k))
  {
    RunsKeep(users, cs);
    var m := db.market;
    var offer := Proposal(draw.row, call.user, Supplier, OfferKind, call.op.amount, call.op.currency);
    assert ProposalIds(m.proposals, draw.row) == {};
    OfferChain(m.proposals, draw.proposal, offer);
    forall k | k in m.negotiations ensures Chain(m.proposals[draw.proposal := offer], k) == Chain(m.proposals, k) {
      ChainInsert(m.proposals, draw.proposal, offer, k);
    }
  }

  // ---------------------------------------------------------------- accept, reject and counter

  predicate Responds(op: Op) {
    op.Accept? || op.Reject? || op.Counter?
  }

  /** Every accept, reject and counter is refused by its cause, in this order, or succeeds: a party of an active
      negotiation succeeds if the other one spoke last. Nothing else can go wrong. */
  lemma {:induction false} AnswerToResponse(users: map<nat, Role>, cs: seq<Commit>, db: Db, call: Call, draw: Draw)
    requires FirstTry(users, cs, db, call) && Responds(call.op)
    ensures var m, n, answer := db.market, call.op.negotiation, Answer(db, call, draw);
            if n !in m.negotiations then answer == Failure(NotFound)
            else
              && m.negotiations[n].request in m.requests
              && var client, supplier := m.requests[m.negotiations[n].request].client, m.negotiations[n].supplier;
                 if call.user != client && call.user != supplier then answer == Failure(Forbidden)
                 else if m.negotiations[n].status != Active then answer == Failure(Conflict(AlreadyTerminal))
                 else if LastActor(m.proposals, n) == Some(call.user) then answer == Failure(Conflict(NotYourTurn))
                 else answer.Reply?
  {
    RunsKeep(users, cs);
    AnswerIsLoad(db, call, draw);
    LoadErrors(users, db.market, call.user, call.op.negotiation);
  }

  /** Only the checks stand between a first response and its success. */
  lemma AnswerIsLoad(db: Db, call: Call, draw: Draw)
    requires call.user in db.users && (call.key == "" || call.key !in db.keys) && Responds(call.op)
    ensures match LoadActive(db.market, call.user, call.op.negotiation)
            case Err(e) => Answer(db, call, draw) == Failure(e)
            case Ok(_) => Answer(db, call, draw).Reply?
  {
  }

  lemma LoadErrors(users: map<nat, Role>, m: Market, user: nat, n: nat)
    requires Inv(users, m)
    ensures var loaded := LoadActive(m, user, n);
            if n !in m.negotiations then loaded == Err(NotFound)
            else
              && m.negotiations[n].request in m.requests
              && if user != m.requests[m.negotiations[n].request].client && user != m.negotiations[n].supplier
                 then loaded == Err(Forbidden)
                 else if m.negotiations[n].status != Active then loaded == Err(Conflict(AlreadyTerminal))
                 else if LastActor(m.proposals, n) == Some(user) then loaded == Err(Conflict(NotYourTurn))
                 else loaded.Ok?
  {
    LastActorAgrees(m.proposals, n);
    if n in m.negotiations {
      assert ThreadOk(m, n);
    }
  }

  /** One mover, for whole requests: whoever it is and whatever role it has, a call that is not a repeat accepts,
      rejects or counters a negotiation if and only if it is active and its user is the one to move. */
  lemma {:induction false} OneMoverAnswers(users: map<nat, Role>, cs: seq<Commit>, db: Db, call: Call, draw: Draw)
    requires FirstTry(users, cs, db, call) && Responds(call.op)
    ensures var m, n := db.market, call.op.negotiation;
            && (n in m.negotiations ==> m.negotiations[n].request in m.requests)
            && (Answer(db, call, draw).Reply? <==>
                  n in m.negotiations && m.negotiations[n].status == Active && call.user == Mover(m, n))
  {
    AnswerToResponse(users, cs, db, call, draw);
    if call.op.negotiation in db.market.negotiations {
      OneMover(users, cs, db.market, call.op.negotiation, User(call.user, users[call.user]), 0, draw);
    }
  }

  /** Which of the two parties `user` is not. */
  function OtherParty(m: Market, n: nat, user: nat): nat
    requires n in m.negotiations && m.negotiations[n].request in m.requests
  {
    if user == m.negotiations[n].supplier then m.requests[m.negotiations[n].request].client
    else m.negotiations[n].supplier
  }

  /** What the tables and the reply show after an accept, a reject or a counter: the row, as it is now, and who spoke
      last. An accept agrees on the last amount, and after it and after a reject the other party has spoken last. A
      counter leaves the row as it was and adds one proposal: its user's, of its amount, in the chain's currency. */
  lemma {:induction false} ReplyToResponse(users: map<nat, Role>, cs: seq<Commit>, db: Db, call: Call, draw: Draw)
    requires FirstTry(users, cs, db, call) && Responds(call.op)
    requires Answer(db, call, draw).Reply? && DrawOk(db.market, call.op, draw)
    ensures var m, after, n := db.market, Handle(db, Commit(call, draw)).db.market, call.op.negotiation;
            && n in m.negotiations && m.negotiations[n].request in m.requests && n in after.negotiations
            && Chain(m.proposals, n) != []
            && var row, chain, other := m.negotiations[n], Chain(m.proposals, n), OtherParty(m, n, call.user);
               var shown := after.negotiations[n];
               && other != call.user && row.status == Active && row.agreed == None
               && Answer(db, call, draw)
                  == Reply(200, NegotiationBody(n, shown, Some(if call.op.Counter? then call.user else other)))
               && shown == (match call.op
                            case Accept(_) => row.(status := Accepted, agreed := Some(chain[|chain| - 1].amount))
                            case Reject(_) => row.(status := Rejected)
                            case _ => row)
               && Chain(after.proposals, n)
                  == chain + (if !call.op.Counter? then []
                              else [Proposal(n, call.user, users[call.user], CounterKind,
                                             call.op.amount, chain[0].currency)])
  {
    RunsKeep(users, cs);
    var m, n := db.market, call.op.negotiation;
    AnswerIsLoad(db, call, draw);
    SpokeLast(users, m, call.user, n);
    if call.op.Counter? {
      var currency := Chain(m.proposals, n)[0].currency;
      var counter := Proposal(n, call.user, users[call.user], CounterKind, call.op.amount, currency);
      ChainInsert(m.proposals, draw.proposal, counter, n);
    }
  }

  /** Whoever may respond answers the other party's proposal, the last of the chain. */
  lemma SpokeLast(users: map<nat, Role>, m: Market, user: nat, n: nat)
    requires Inv(users, m) && LoadActive(m, user, n).Ok?
    ensures n in m.negotiations && m.negotiations[n].request in m.requests
    ensures m.negotiations[n].status == Active && m.negotiations[n].agreed == None
    ensures OtherParty(m, n, user) != user && LastActor(m.proposals, n) == Some(OtherParty(m, n, user))
    ensures var chain, last := Chain(m.proposals, n), LoadActive(m, user, n).value;
            && last in m.proposals && chain != []
            && m.proposals[last].amount == chain[|chain| - 1].amount && m.proposals[last].currency == chain[0].currency
  {
    LastActorAgrees(m.proposals, n);
    assert ThreadOk(m, n);
    var chain, row := Chain(m.proposals, n), m.negotiations[n];
    assert TurnOk(chain, |chain| - 1, m.requests[row.request].client, row.supplier);
  }

  /** A reject and a counter touch nothing but their own thread. */
  lemma {:induction false} OtherThreadsStay(users: map<nat, Role>, cs: seq<Commit>, db: Db, call: Call, draw: Draw)
    requires FirstTry(users, cs, db, call) && (call.op.Reject? || call.op.Counter?)
    requires Answer(db, call, draw).Reply? && DrawOk(db.market, call.op, draw)
    ensures var m, after, n := db.market, Handle(db, Commit(call, draw)).db.market, call.op.negotiation;
            && after.requests == m.requests && after.negotiations.Keys == m.negotiations.Keys
            && (forall k :: k in m.negotiations && k != n ==>
                  after.negotiations[k] == m.negotiations[k] && Chain(after.proposals, k) == Chain(m.proposals, k))
  {
    RunsKeep(users, cs);
    if call.op.Counter? {
      var m, n := db.market, call.op.negotiation;
      var after := Handle(db, Commit(call, draw)).db.market;
      forall k | k in m.negotiations && k != n ensures Chain(after.proposals, k) == Chain(m.proposals, k) {
        ChainInsert(m.proposals, draw.proposal, after.proposals[draw.proposal], k);
      }
    }
  }

  // ---------------------------------------------------------------- a proposal and its acceptance

  lemma {:induction false} EffectiveIsFirstTry(users: map<nat, Role>, cs: seq<Commit>, c: Commit)
    requires Script(EmptyDb(users), cs) && Effective(Exec(EmptyDb(users), cs), c)
    ensures FirstTry(users, cs, Exec(EmptyDb(users), cs), c.call)
    ensures Answer(Exec(EmptyDb(users), cs), c.call, c.draw).Reply?
    ensures DrawOk(Exec(EmptyDb(users), cs).market, c.call.op, c.draw)
  {
    RunsKeep(users, cs);
  }

  /** After an offer or a counter its amount is the last of the thread. */
  lemma {:induction false} ProposalComesLast(users: map<nat, Role>, cs: seq<Commit>, c: Commit, n: nat)
    requires Script(EmptyDb(users), cs) && Effective(Exec(EmptyDb(users), cs), c)
    requires c.call.op.Offer? || c.call.op.Counter?
    requires n == if c.call.op.Offer? then c.draw.row else c.call.op.negotiation
    ensures var chain := Chain(Handle(Exec(EmptyDb(users), cs), c).db.market.proposals, n);
            chain != [] && chain[|chain| - 1].amount == c.call.op.amount && chain[|chain| - 1].actor == c.call.user
  {
    var db := Exec(EmptyDb(users), cs);
    EffectiveIsFirstTry(users, cs, c);
    if c.call.op.Offer? {
      ReplyToOffer(users, cs, db, c.call, c.draw);
    } else {
      ReplyToResponse(users, cs, db, c.call, c.draw);
    }
  }

  /** Whoever accepts an offer or a counter agrees to the amount that the call proposed. */
  lemma {:induction false} AcceptedAtItsAmount(
      users: map<nat, Role>, cs: seq<Commit>, proposal: Commit, accept: Commit, n: nat)
    requires Script(EmptyDb(users), cs) && Effective(Exec(EmptyDb(users), cs), proposal)
    requires proposal.call.op.Offer? || proposal.call.op.Counter?
    requires n == if proposal.call.op.Offer? then proposal.draw.row else proposal.call.op.negotiation
    requires Effective(Exec(EmptyDb(users), cs + [proposal]), accept) && accept.call.op == Accept(n)
    ensures var after := Handle(Exec(EmptyDb(users), cs + [proposal]), accept).db.market;
            && n in after.negotiations && after.negotiations[n].status == Accepted
            && after.negotiations[n].agreed == Some(proposal.call.op.amount)
    ensures accept.call.user != proposal.call.user
  {
    ScriptAppend(EmptyDb(users), cs, proposal);
    ProposalComesLast(users, cs, proposal, n);
    var db := Exec(EmptyDb(users), cs + [proposal]);
    EffectiveIsFirstTry(users, cs + [proposal], accept);
    ReplyToResponse(users, cs + [proposal], db, accept.call, accept.draw);
    AnswerToResponse(users, cs + [proposal], db, accept.call, accept.draw);
  }
}
