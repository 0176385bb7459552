/** What every run of the service keeps, and what follows from it for the two parties. */
module Invariants {
  import opened Sequences
  import opened Tables
  import opened Negotiations
  import opened UnitOfWork

  // ---------------------------------------------------------------- the invariant

  /** Foreign keys resolve, and the role guards put a client and a supplier at the two ends. */
  ghost predicate LinksOk(users: map<nat, Role>, m: Market) {
    && (forall r :: r in m.requests ==> m.requests[r].client in users && users[m.requests[r].client] == Client)
    && (forall n :: n in m.negotiations ==>
          && m.negotiations[n].request in m.requests
          && m.negotiations[n].supplier in users && users[m.negotiations[n].supplier] == Supplier)
    && (forall p :: p in m.proposals ==> m.proposals[p].negotiation in m.negotiations)
  }

  ghost predicate SamePair(m: Market, n: nat, k: nat) {
    && n in m.negotiations && k in m.negotiations
    && m.negotiations[n].request == m.negotiations[k].request
    && m.negotiations[n].supplier == m.negotiations[k].supplier
  }

  /** One thread per (request, supplier). */
  ghost predicate PairsUnique(m: Market) {
    forall n, k :: SamePair(m, n, k) ==> n == k
  }

  ghost predicate TurnOk(chain: seq<Proposal>, i: nat, client: nat, supplier: nat)
    requires i < |chain|
  {
    && chain[i].actor == (if i % 2 == 0 then supplier else client)
    && chain[i].role == (if i % 2 == 0 then Supplier else Client)
    && chain[i].kind == (if i == 0 then OfferKind else CounterKind)
    && chain[i].currency == chain[0].currency
  }

  /** The chain starts with the supplier's offer and alternates from there, in one currency. */
  ghost predicate Alternates(chain: seq<Proposal>, client: nat, supplier: nat) {
    chain != [] && forall i {:trigger TurnOk(chain, i, client, supplier)} ::
      0 <= i < |chain| ==> TurnOk(chain, i, client, supplier)
  }

  /** `agreed` is set exactly on accepted rows, to the amount proposed last. */
  ghost predicate AgreedOk(row: Negotiation, chain: seq<Proposal>) {
    chain != [] && row.agreed == (if row.status == Accepted then Some(chain[|chain| - 1].amount) else None)
  }

  ghost predicate ThreadOk(m: Market, n: nat) {
    && n in m.negotiations && m.negotiations[n].request in m.requests
    && Alternates(Chain(m.proposals, n), m.requests[m.negotiations[n].request].client, m.negotiations[n].supplier)
    && AgreedOk(m.negotiations[n], Chain(m.proposals, n))
  }

  ghost predicate ThreadsOk(m: Market) {
    forall n {:trigger ThreadOk(m, n)} :: n in m.negotiations ==> ThreadOk(m, n)
  }

  ghost predicate Winner(m: Market, r: nat, n: nat) {
    n in m.negotiations && m.negotiations[n].request == r && m.negotiations[n].status == Accepted
  }

  ghost predicate StatusOk(m: Market, r: nat) {
    r in m.requests && (m.requests[r].status == Closed <==> exists n :: Winner(m, r, n))
  }

  /** A request is closed exactly when one of its negotiations is accepted; then none is active. */
  ghost predicate ClosureOk(m: Market) {
    && (forall r {:trigger StatusOk(m, r)} :: r in m.requests ==> StatusOk(m, r))
    && (forall r, n, k :: Winner(m, r, n) && Winner(m, r, k) ==> n == k)
    && (forall n :: n in m.negotiations && m.negotiations[n].status == Active ==>
          m.negotiations[n].request in m.requests && m.requests[m.negotiations[n].request].status == Open)
  }

  ghost predicate Inv(users: map<nat, Role>, m: Market) {
    LinksOk(users, m) && PairsUnique(m) && ThreadsOk(m) && ClosureOk(m)
  }

  // ---------------------------------------------------------------- every operation keeps it

  /** A successful load fixes the active thread, its open request, the last proposal and the other party. */
  lemma Loaded(users: map<nat, Role>, m: Market, user: nat, n: nat)
    requires Inv(users, m) && LoadActive(m, user, n).Ok?
    ensures n in m.negotiations && m.negotiations[n].status == Active
    ensures m.negotiations[n].request in m.requests && m.requests[m.negotiations[n].request].status == Open
    ensures var chain := Chain(m.proposals, n);
            && LoadActive(m, user, n).value in m.proposals
            && chain != [] && m.proposals[LoadActive(m, user, n).value] == chain[|chain| - 1]
            && user == (if |chain| % 2 == 0 then m.negotiations[n].supplier
                        else m.requests[m.negotiations[n].request].client)
  {
    LastActorAgrees(m.proposals, n);
    assert ThreadOk(m, n);
    var chain := Chain(m.proposals, n);
    assert TurnOk(chain, |chain| - 1, m.requests[m.negotiations[n].request].client, m.negotiations[n].supplier);
  }

  /** A thread whose parties and chain are untouched is still in order if its row agrees with the chain. */
  lemma ThreadFrame(m: Market, after: Market, n: nat)
    requires ThreadOk(m, n) && n in after.negotiations
    requires after.negotiations[n].request == m.negotiations[n].request && m.negotiations[n].request in after.requests
    requires after.negotiations[n].supplier == m.negotiations[n].supplier
    requires after.requests[m.negotiations[n].request].client == m.requests[m.negotiations[n].request].client
    requires Chain(after.proposals, n) == Chain(m.proposals, n)
    requires AgreedOk(after.negotiations[n], Chain(m.proposals, n))
    ensures ThreadOk(after, n)
  {
  }

  /** Rows that keep their links and their settlement leave every thread in order and every pair unique;
      `w` is the one thread whose settlement may change. */
  lemma SettlementFrame(users: map<nat, Role>, m: Market, after: Market, w: nat)
    requires LinksOk(users, m) && PairsUnique(m) && ThreadsOk(m)
    requires after.proposals == m.proposals && after.negotiations.Keys == m.negotiations.Keys
    requires forall r :: r in m.requests ==> r in after.requests && after.requests[r].client == m.requests[r].client
    requires forall n :: n in m.negotiations ==>
                           && after.negotiations[n].request == m.negotiations[n].request
                           && after.negotiations[n].supplier == m.negotiations[n].supplier
    requires forall n :: n in m.negotiations && n != w ==>
                           && after.negotiations[n].agreed == m.negotiations[n].agreed
                           && (after.negotiations[n].status == Accepted <==> m.negotiations[n].status == Accepted)
    requires w in m.negotiations ==> AgreedOk(after.negotiations[w], Chain(m.proposals, w))
    ensures PairsUnique(after) && ThreadsOk(after)
  {
    forall n | n in after.negotiations ensures ThreadOk(after, n) {
      assert ThreadOk(m, n);
      ThreadFrame(m, after, n);
    }
    assert forall n, k :: SamePair(after, n, k) ==> SamePair(m, n, k);
  }

  /** Without a new winner, requests keep their status and only open ones get active negotiations. */
  lemma ClosureFrame(m: Market, after: Market)
    requires ClosureOk(m)
    requires forall r, n :: Winner(after, r, n) <==> Winner(m, r, n)
    requires forall n :: n in m.negotiations ==> m.negotiations[n].request in m.requests
    requires forall r :: r in after.requests ==>
                           if r in m.requests then after.requests[r] == m.requests[r]
                           else after.requests[r].status == Open
    requires forall n :: n in after.negotiations && after.negotiations[n].status == Active ==>
                           && after.negotiations[n].request in after.requests
                           && after.requests[after.negotiations[n].request].status == Open
    ensures ClosureOk(after)
  {
    forall r | r in after.requests ensures StatusOk(after, r) {
      if r in m.requests {
        assert StatusOk(m, r);
        if n :| Winner(m, r, n) {
          assert Winner(after, r, n);
        }
      } else {
        assert forall n :: !Winner(m, r, n);
      }
    }
  }

  lemma CreateKeeps(users: map<nat, Role>, m: Market, user: User, draw: Draw)
    requires Inv(users, m) && user.id in users && users[user.id] == Client && draw.row !in m.requests
    ensures Inv(users, Creating(m, user, draw).market)
  {
    var after := Creating(m, user, draw).market;
    if n :| n in m.negotiations {
      assert ThreadOk(m, n);
      SettlementFrame(users, m, after, n);
    }
    assert forall r, n :: Winner(after, r, n) <==> Winner(m, r, n);
    ClosureFrame(m, after);
  }

  lemma OfferThreads(users: map<nat, Role>, m: Market, user: User, op: Op, draw: Draw)
    requires LinksOk(users, m) && ThreadsOk(m) && user.role == Supplier && op.Offer?
    requires DrawOk(m, op, draw) && Offering(m, user, op, draw).Ok?
    ensures ThreadsOk(Offering(m, user, op, draw).value.market)
  {
    var after := Offering(m, user, op, draw).value.market;
    var row := after.proposals[draw.proposal];
    assert ProposalIds(m.proposals, draw.row) == {};
    forall k | k in after.negotiations ensures ThreadOk(after, k) {
      if k == draw.row {
        OfferChain(m.proposals, draw.proposal, row);
        assert TurnOk([row], 0, m.requests[op.request].client, user.id);
      } else {
        assert ThreadOk(m, k);
        ChainInsert(m.proposals, draw.proposal, row, k);
        ThreadFrame(m, after, k);
      }
    }
  }

  lemma OfferKeeps(users: map<nat, Role>, m: Market, user: User, op: Op, draw: Draw)
    requires Inv(users, m) && user.id in users && users[user.id] == Supplier == user.role && op.Offer?
    requires DrawOk(m, op, draw) && Offering(m, user, op, draw).Ok?
    ensures Inv(users, Offering(m, user, op, draw).value.market)
  {
    OfferThreads(users, m, user, op, draw);
    var after := Offering(m, user, op, draw).value.market;
    forall j, k | SamePair(after, j, k) ensures j == k {
      assert j != draw.row && k != draw.row ==> SamePair(m, j, k);
    }
    assert forall r, k :: Winner(after, r, k) <==> Winner(m, r, k);
    ClosureFrame(m, after);
  }

  lemma RejectKeeps(users: map<nat, Role>, m: Market, user: User, n: nat)
    requires Inv(users, m) && Rejecting(m, user, n).Ok?
    ensures Inv(users, Rejecting(m, user, n).value.market)
  {
    var after := Rejecting(m, user, n).value.market;
    Loaded(users, m, user.id, n);
    assert ThreadOk(m, n);
    SettlementFrame(users, m, after, n);
    assert forall r, k :: Winner(after, r, k) <==> Winner(m, r, k);
    ClosureFrame(m, after);
  }

  lemma AlternatesAppend(before: seq<Proposal>, row: Proposal, client: nat, supplier: nat)
    requires Alternates(before, client, supplier)
    requires row.actor == (if |before| % 2 == 0 then supplier else client)
    requires row.role == (if |before| % 2 == 0 then Supplier else Client)
    requires row.kind == CounterKind && row.currency == before[|before| - 1].currency
    ensures Alternates(before + [row], client, supplier)
  {
    assert TurnOk(before, |before| - 1, client, supplier);
    forall i | 0 <= i < |before + [row]| ensures TurnOk(before + [row], i, client, supplier) {
      if i < |before| {
        assert TurnOk(before, i, client, supplier);
      }
    }
  }

  lemma CounterKeeps(users: map<nat, Role>, m: Market, user: User, op: Op, draw: Draw)
    requires Inv(users, m) && user.id in users && users[user.id] == user.role && op.Counter?
    requires DrawOk(m, op, draw) && Countering(m, user, op, draw).Ok?
    ensures Inv(users, Countering(m, user, op, draw).value.market)
  {
    var after := Countering(m, user, op, draw).value.market;
    var n := op.negotiation;
    var row := after.proposals[draw.proposal];
    Loaded(users, m, user.id, n);
    forall k | k in after.negotiations ensures ThreadOk(after, k) {
      assert ThreadOk(m, k);
      ChainInsert(m.proposals, draw.proposal, row, k);
      if k == n {
        AlternatesAppend(Chain(m.proposals, n), row,
                         m.requests[m.negotiations[n].request].client, m.negotiations[n].supplier);
      } else {
        ThreadFrame(m, after, k);
      }
    }
    assert forall j, k :: SamePair(after, j, k) ==> SamePair(m, j, k);
    assert forall r, k :: Winner(after, r, k) <==> Winner(m, r, k);
    ClosureFrame(m, after);
  }

  lemma AcceptCloses(users: map<nat, Role>, m: Market, after: Market, n: nat, r: nat, amount: int)
    requires LinksOk(users, m) && ClosureOk(m)
    requires n in m.negotiations && m.negotiations[n].status == Active && m.negotiations[n].request == r
    requires after.requests == m.requests[r := m.requests[r].(status := Closed)]
    requires after.negotiations == Settled(m.negotiations, n, amount)
    ensures ClosureOk(after)
  {
    assert StatusOk(m, r);
    forall q, k ensures Winner(after, q, k) <==> if q == r then k == n else Winner(m, q, k) {
      assert !Winner(m, r, k);
    }
    forall q | q in after.requests ensures StatusOk(after, q) {
      assert StatusOk(m, q);
      if q == r {
        assert Winner(after, r, n);
      } else if k :| Winner(m, q, k) {
        assert Winner(after, q, k);
      }
    }
  }

  lemma AcceptKeeps(users: map<nat, Role>, m: Market, user: User, n: nat, draw: Draw)
    requires Inv(users, m) && Accepting(m, user, n, draw).Ok?
    ensures Inv(users, Accepting(m, user, n, draw).value.market)
  {
    var after := Accepting(m, user, n, draw).value.market;
    Loaded(users, m, user.id, n);
    SettlementFrame(users, m, after, n);
    AcceptCloses(users, m, after, n, m.negotiations[n].request, m.proposals[LoadActive(m, user.id, n).value].amount);
  }

  /** Each effective request keeps the invariant, whatever the database chose. */
  lemma HandleKeeps(db: Db, c: Commit)
    requires Inv(db.users, db.market) && Effective(db, c)
    ensures Handle(db, c).db.users == db.users && Inv(db.users, Handle(db, c).db.market)
  {
    EffectiveParts(db, c);
    var user := Actor(db, c.call);
    match c.call.op {
      case Create => CreateKeeps(db.users, db.market, user, c.draw);
      case Offer(_, _, _) => OfferKeeps(db.users, db.market, user, c.call.op, c.draw);
      case Accept(n) => AcceptKeeps(db.users, db.market, user, n, c.draw);
      case Reject(n) => RejectKeeps(db.users, db.market, user, n);
      case Counter(_, _) => CounterKeeps(db.users, db.market, user, c.call.op, c.draw);
    }
  }

  /** Every reachable database satisfies the invariant. */
  lemma {:induction false} RunsKeep(users: map<nat, Role>, cs: seq<Commit>)
    requires Script(EmptyDb(users), cs)
    ensures Exec(EmptyDb(users), cs).users == users && Inv(users, Exec(EmptyDb(users), cs).market)
  {
    if cs != [] {
      RunsKeep(users, Init(cs));
      HandleKeeps(Exec(EmptyDb(users), Init(cs)), Last(cs));
    }
  }

  // ---------------------------------------------------------------- turns

  /** The participant whose turn it is: the one who did not make the last proposal. */
  function Mover(m: Market, n: nat): nat
    requires n in m.negotiations && m.negotiations[n].request in m.requests
  {
    if LastActor(m.proposals, n) == Some(m.negotiations[n].supplier)
    then m.requests[m.negotiations[n].request].client
    else m.negotiations[n].supplier
  }

  /** In every reachable state exactly one user can accept, reject or counter an active negotiation,
      the same one for all three, and nobody can touch a terminal one. */
  lemma {:induction false} OneMover(
      users: map<nat, Role>, cs: seq<Commit>, m: Market, n: nat, user: User, amount: int, draw: Draw)
    requires Script(EmptyDb(users), cs) && m == Exec(EmptyDb(users), cs).market
    requires n in m.negotiations
    ensures m.negotiations[n].request in m.requests && Mover(m, n) in users
    ensures var moves := m.negotiations[n].status == Active && user.id == Mover(m, n);
            && (Accepting(m, user, n, draw).Ok? <==> moves)
            && (Rejecting(m, user, n).Ok? <==> moves)
            && (Countering(m, user, Counter(n, amount), draw).Ok? <==> moves)
    ensures LastActor(m.proposals, n).Some? && LastActor(m.proposals, n).value != Mover(m, n)
    ensures {LastActor(m.proposals, n).value, Mover(m, n)}
         == {m.requests[m.negotiations[n].request].client, m.negotiations[n].supplier}
  {
    RunsKeep(users, cs);
    LastActorAgrees(m.proposals, n);
    assert ThreadOk(m, n);
    var chain := Chain(m.proposals, n);
    assert TurnOk(chain, |chain| - 1, m.requests[m.negotiations[n].request].client, m.negotiations[n].supplier);
  }

  // ---------------------------------------------------------------- what accepting does to the siblings

  function WithStatus(m: Market, r: nat, status: NegotiationStatus): set<nat> {
    set n | n in m.negotiations && m.negotiations[n].request == r && m.negotiations[n].status == status
  }

  lemma {:induction false} DistinctSize(s: seq<nat>, ids: set<nat>)
    requires Distinct(s) && forall x :: x in s <==> x in ids
    ensures |s| == |ids|
  {
    if s != [] {
      var x, rest := s[|s| - 1], s[..|s| - 1];
      assert s == rest + [x];
      DistinctSize(rest, ids - {x});
    }
  }

  /** Served alone, an accept leaves the request with no active negotiation and one accepted one; its rejected
      ones grow by the old active ones but the winner; it records one superseding row for each of those before
      its own row; and no other request or negotiation changes. */
  lemma AcceptSettles(users: map<nat, Role>, m: Market, user: User, n: nat, draw: Draw)
    requires Inv(users, m) && Accepting(m, user, n, draw).Ok?
    requires DrawOk(m, Accept(n), draw) && DrawExact(m, Accept(n), draw)
    ensures var done, r := Accepting(m, user, n, draw).value, m.negotiations[n].request;
            var after, losers := done.market, WithStatus(m, r, Active) - {n};
            && WithStatus(m, r, Accepted) == {} && WithStatus(after, r, Accepted) == {n}
            && WithStatus(after, r, Active) == {}
            && WithStatus(after, r, Rejected) == WithStatus(m, r, Rejected) + losers
            && |WithStatus(after, r, Rejected)| == |WithStatus(m, r, Rejected)| + |WithStatus(m, r, Active)| - 1
            && |done.rows| == |losers| + 1 && done.rows[|losers|].WasAccepted?
            && (forall i :: 0 <= i < |losers| ==>
                  done.rows[i].WasSuperseded? && done.rows[i].winner == n && done.rows[i].negotiation in losers)
            && (forall i, j :: 0 <= i < j < |losers| ==> done.rows[i] != done.rows[j])
            && (forall k :: k in m.negotiations && m.negotiations[k].request != r ==>
                  after.negotiations[k] == m.negotiations[k])
            && (forall q :: q in m.requests && q != r ==> after.requests[q] == m.requests[q])
  {
    var r, amount := m.negotiations[n].request, m.proposals[LastProposal(m.proposals, n).value].amount;
    Loaded(users, m, user.id, n);
    NoWinnerYet(users, m, r);
    SiblingsAreLosers(m, n, draw);
    LoserRows(draw.siblings, n, WasAccepted(n, user.id, amount));
    AcceptStatuses(m, Accepting(m, user, n, draw).value.market, n, r, amount);
  }

  lemma NoWinnerYet(users: map<nat, Role>, m: Market, r: nat)
    requires Inv(users, m) && r in m.requests && m.requests[r].status == Open
    ensures WithStatus(m, r, Accepted) == {}
  {
    assert StatusOk(m, r);
    assert forall k :: k in WithStatus(m, r, Accepted) ==> Winner(m, r, k);
  }

  lemma LoserRows(siblings: seq<nat>, winner: nat, row: AuditRow)
    requires Distinct(siblings)
    ensures var rows := SupersededRows(siblings, winner) + [row];
            && |rows| == |siblings| + 1 && rows[|siblings|] == row
            && (forall i :: 0 <= i < |siblings| ==> rows[i] == WasSuperseded(siblings[i], winner))
            && (forall i, j :: 0 <= i < j < |siblings| ==> rows[i] != rows[j])
  {
  }

  lemma SiblingsAreLosers(m: Market, n: nat, draw: Draw)
    requires n in m.negotiations && DrawOk(m, Accept(n), draw) && DrawExact(m, Accept(n), draw)
    ensures var losers := WithStatus(m, m.negotiations[n].request, Active) - {n};
            |draw.siblings| == |losers| && forall i :: 0 <= i < |losers| ==> draw.siblings[i] in losers
  {
    var losers := WithStatus(m, m.negotiations[n].request, Active) - {n};
    assert losers == ActiveSiblings(m.negotiations, m.negotiations[n].request, n);
    forall s ensures s in draw.siblings <==> s in losers {
      assert s in draw.siblings ==> IsLosing(m.negotiations, n, s);
    }
    DistinctSize(draw.siblings, losers);
    forall i | 0 <= i < |draw.siblings| ensures draw.siblings[i] in losers {
      assert draw.siblings[i] in draw.siblings;
    }
  }

  lemma AcceptStatuses(m: Market, after: Market, n: nat, r: nat, amount: int)
    requires n in m.negotiations && m.negotiations[n].request == r && m.negotiations[n].status == Active
    requires after.negotiations == Settled(m.negotiations, n, amount)
    requires WithStatus(m, r, Accepted) == {}
    ensures WithStatus(after, r, Accepted) == {n} && WithStatus(after, r, Active) == {}
    ensures WithStatus(after, r, Rejected) == WithStatus(m, r, Rejected) + (WithStatus(m, r, Active) - {n})
    ensures |WithStatus(after, r, Rejected)| == |WithStatus(m, r, Rejected)| + |WithStatus(m, r, Active)| - 1
  {
    var active, rejected := WithStatus(m, r, Active), WithStatus(m, r, Rejected);
    forall k ensures k in WithStatus(after, r, Accepted) <==> k == n {
      assert k !in WithStatus(m, r, Accepted);
    }
    forall k ensures k in WithStatus(after, r, Rejected) <==> k in rejected + (active - {n}) {
      assert k !in WithStatus(m, r, Accepted);
    }
    assert |rejected + (active - {n})| == |rejected| + |active - {n}|;
  }

  // ---------------------------------------------------------------- what never changes again

  ghost predicate RequestEvolves(before: ProductRequest, after: ProductRequest) {
    after.client == before.client && (before.status == Closed ==> after == before)
  }

  ghost predicate ThreadEvolves(m: Market, after: Market, n: nat) {
    && n in m.negotiations && n in after.negotiations
    && after.negotiations[n].request == m.negotiations[n].request
    && after.negotiations[n].supplier == m.negotiations[n].supplier
    && Chain(m.proposals, n) <= Chain(after.proposals, n)
    && (m.negotiations[n].status != Active ==>
          after.negotiations[n] == m.negotiations[n] && Chain(after.proposals, n) == Chain(m.proposals, n))
  }

  /** Rows never disappear, owners and links are fixed, chains only grow,
      a closed request and a terminal thread never change. */
  ghost predicate Evolves(m: Market, after: Market) {
    && (forall r :: r in m.requests ==> r in after.requests && RequestEvolves(m.requests[r], after.requests[r]))
    && (forall n {:trigger ThreadEvolves(m, after, n)} :: n in m.negotiations ==> ThreadEvolves(m, after, n))
  }

  lemma PerformEvolves(users: map<nat, Role>, m: Market, user: User, op: Op, draw: Draw)
    requires Inv(users, m) && DrawOk(m, op, draw) && Perform(m, user, op, draw).Ok?
    ensures Evolves(m, Perform(m, user, op, draw).value.market)
  {
    var after := Perform(m, user, op, draw).value.market;
    if op.Accept? || op.Reject? || op.Counter? {
      Loaded(users, m, user.id, op.negotiation);
    }
    forall n | n in m.negotiations ensures ThreadEvolves(m, after, n) {
      if op.Offer? {
        assert ProposalIds(m.proposals, draw.row) == {};
        ChainInsert(m.proposals, draw.proposal, after.proposals[draw.proposal], n);
      } else if op.Counter? {
        ChainInsert(m.proposals, draw.proposal, after.proposals[draw.proposal], n);
      }
    }
  }

  /** Accepted, rejected and closed are absorbing over any run, and every chain is append-only. */
  lemma {:induction false} RunsEvolve(users: map<nat, Role>, cs: seq<Commit>, k: nat)
    requires Script(EmptyDb(users), cs) && k <= |cs|
    ensures Evolves(Exec(EmptyDb(users), cs[..k]).market, Exec(EmptyDb(users), cs).market)
  {
    if k == |cs| {
      assert cs[..k] == cs;
      var m := Exec(EmptyDb(users), cs).market;
      assert forall n :: n in m.negotiations ==> ThreadEvolves(m, m, n);
    } else {
      assert Init(cs)[..k] == cs[..k];
      RunsEvolve(users, Init(cs), k);
      RunsKeep(users, Init(cs));
      var mid := Exec(EmptyDb(users), Init(cs));
      var c := Last(cs);
      EffectiveParts(mid, c);
      PerformEvolves(users, mid.market, Actor(mid, c.call), c.call.op, c.draw);
      EvolvesTransitive(Exec(EmptyDb(users), cs[..k]).market, mid.market, Exec(EmptyDb(users), cs).market);
    }
  }

  lemma EvolvesTransitive(m: Market, mid: Market, after: Market)
    requires Evolves(m, mid) && Evolves(mid, after)
    ensures Evolves(m, after)
  {
    forall n | n in m.negotiations ensures ThreadEvolves(m, after, n) {
      assert ThreadEvolves(m, mid, n) && ThreadEvolves(mid, after, n);
    }
  }

  /** An agreement is final: once accepted, row, amount and chain are the same in every later state,
      and the amount is the one proposed last. */
  lemma {:induction false} AgreementFinal(
      users: map<nat, Role>, cs: seq<Commit>, k: nat, m: Market, now: Market, n: nat)
    requires Script(EmptyDb(users), cs) && k <= |cs|
    requires m == Exec(EmptyDb(users), cs[..k]).market && now == Exec(EmptyDb(users), cs).market
    requires n in m.negotiations && m.negotiations[n].status == Accepted
    ensures n in now.negotiations && now.negotiations[n] == m.negotiations[n]
    ensures Chain(now.proposals, n) == Chain(m.proposals, n) != []
    ensures now.negotiations[n].agreed == Some(Chain(now.proposals, n)[|Chain(now.proposals, n)| - 1].amount)
  {
    RunsEvolve(users, cs, k);
    ScriptPrefix(EmptyDb(users), cs, k);
    RunsKeep(users, cs[..k]);
    assert ThreadOk(m, n) && ThreadEvolves(m, now, n);
  }
}
