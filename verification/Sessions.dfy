/** The services and the unit of work as the program runs them: one session, statements in order, a loop over
    the siblings, and a database that may raise at any flush (app/services, app/routers/_helpers.py,
    app/database.py). */
module Sessions {
  import opened Sequences
  import opened Ids
  import opened Tables
  import opened Negotiations
  import opened UnitOfWork
  import opened ClosingRecords

  /** How many times an operation flushes before it returns. */
  function Flushes(op: Op, siblings: nat): nat {
    match op
    case Create => 3
    case Offer(_, _, _) => 4
    case Accept(_) => siblings + 4
    case Reject(_) => 3
    case Counter(_, _) => 3
  }

  function RejectAll(negotiations: map<nat, Negotiation>, losers: seq<nat>): map<nat, Negotiation> {
    map k | k in negotiations ::
      if k in losers then negotiations[k].(status := Rejected) else negotiations[k]
  }

  ghost predicate Lists(siblings: seq<nat>, ids: set<nat>) {
    Distinct(siblings) && forall s :: s in siblings <==> s in ids
  }

  /** The outcome of a service call on an open transaction with `fuse` flushes left: it raises if and only if the
      operation is refused or the database raises at one of its flushes; else it leaves what the operation means. */
  ghost predicate Served(before: Db, fuse: nat, after: Db, left: nat, user: User, op: Op, draw: Draw, r: Result<nat>) {
    var spec, needed := Perform(before.market, user, op, draw), Flushes(op, |draw.siblings|);
    && (spec.Err? ==> r == Err(spec.error))
    && (spec.Ok? && fuse < needed ==> r == Err(ServerError))
    && (spec.Ok? && fuse >= needed ==>
          && r == Ok(Subject(op, draw)) && left == fuse - needed
          && after == before.(market := spec.value.market, audit := before.audit + spec.value.rows))
  }

  lemma LoopSettles(negotiations: map<nat, Negotiation>, n: nat, amount: int, siblings: seq<nat>)
    requires n in negotiations
    requires Lists(siblings, ActiveSiblings(negotiations, negotiations[n].request, n))
    ensures RejectAll(negotiations[n := negotiations[n].(status := Accepted, agreed := Some(amount))], siblings)
         == Settled(negotiations, n, amount)
    ensures SiblingsOk(negotiations, n, siblings)
  {
    assert forall s :: s in siblings ==> s in ActiveSiblings(negotiations, negotiations[n].request, n);
  }

  /** All or nothing. With enough flushes left the request does exactly what it does when served alone; when the
      database raises at any flush before the end, or at the commit, the committed database is untouched. */
  ghost predicate Answered(before: Db, fuse: nat, after: Db, c: Commit, response: Response) {
    var alone := Handle(before, c);
    if Admit(before, c.call).None? && alone.response.Reply? && fuse <= Flushes(c.call.op, |c.draw.siblings|)
    then after == before && response == Failure(ServerError)
    else after == alone.db && response == alone.response
  }

  /** What a service call on an open transaction means for its request: refused, failed, or ready to be saved. */
  lemma ServedIsHandled(before: Db, fuse: nat, after: Db, left: nat, c: Commit, r: Result<nat>)
    requires Admit(before, c.call).None? && DrawOk(before.market, c.call.op, c.draw)
    requires Served(before, fuse, after, left, Actor(before, c.call), c.call.op, c.draw, r)
    ensures r.Err? ==> Answered(before, fuse, before, c, Failure(r.error))
    ensures r.Ok? ==>
              && Effective(before, c) && fuse == left + Flushes(c.call.op, |c.draw.siblings|)
              && (if c.call.op.Create? then r.value in after.market.requests else r.value in after.market.negotiations)
              && var body := BodyOf(after.market, c.call.op, r.value);
                 Handle(before, c) == Outcome(after.(keys := SavedKeys(after.keys, c.call, body)),
                                              Reply(StatusCode(c.call.op), body))
  {
  }

  /** One more effective request, served alone, after an exact history. */
  lemma {:induction false} HistoryGrows(db: Db, history: seq<Commit>, c: Commit)
    requires Script(db, history) && ExactRun(db, history)
    requires Effective(Exec(db, history), c) && DrawExact(Exec(db, history).market, c.call.op, c.draw)
    ensures Script(db, history + [c]) && ExactRun(db, history + [c])
    ensures Exec(db, history + [c]) == Handle(Exec(db, history), c).db
  {
    ScriptAppend(db, history, c);
    assert Init(history + [c]) == history;
  }

  /** Some list the sibling query may return, for an accept that raises before it runs the query. */
  function AnyDraw(m: Market, n: nat): (draw: Draw)
    ensures DrawOk(m, Accept(n), draw) && DrawExact(m, Accept(n), draw)
  {
    if n !in m.negotiations then Draw(0, 0, [])
    else
      var ids := ActiveSiblings(m.negotiations, m.negotiations[n].request, n);
      AscLists(ids);
      Draw(0, 0, Asc(ids))
  }

  class Session {
    var store: Db        // what is committed
    var work: Db         // what the open transaction sees
    var fuse: nat        // flushes that succeed before the database raises
    var nextRequest: nat // sequences, which a rollback does not rewind
    var nextNegotiation: nat
    var nextProposal: nat
    ghost var history: seq<Commit> // the effects committed so far, in order

    ghost predicate Below(m: Market)
      reads this
    {
      && (forall r :: r in m.requests ==> r < nextRequest)
      && (forall n :: n in m.negotiations ==> n < nextNegotiation)
      && (forall p :: p in m.proposals ==> p < nextProposal)
    }

    /** The committed database is the one its history reaches, one request at a time. */
    ghost predicate Valid()
      reads this
    {
      && Below(store.market)
      && Script(EmptyDb(store.users), history) && ExactRun(EmptyDb(store.users), history)
      && store == Exec(EmptyDb(store.users), history)
    }

    constructor (users: map<nat, Role>, fuse: nat)
      ensures Valid() && store == EmptyDb(users) && this.fuse == fuse && history == []
    {
      history := [];
      store, work := EmptyDb(users), EmptyDb(users);
      this.fuse := fuse;
      nextRequest, nextNegotiation, nextProposal := 1, 1, 1;
    }

    // ---------------------------------------------------------------- flushing and recording

    /** Sends the pending statements; false stands for an exception out of the database. */
    method Flush() returns (ok: bool)
      modifies this`fuse
      ensures ok <==> old(fuse) > 0
      ensures fuse == if ok then old(fuse) - 1 else 0
    {
      ok := fuse > 0;
      if ok {
        fuse := fuse - 1;
      }
    }

    method Record(row: AuditRow) returns (ok: bool)
      modifies this`work, this`fuse
      ensures work == old(work).(audit := old(work).audit + [row])
      ensures ok <==> old(fuse) > 0
      ensures fuse == if ok then old(fuse) - 1 else 0
    {
      work := work.(audit := work.audit + [row]);
      ok := Flush();
    }

    method AddProposal(row: Proposal) returns (ok: bool, p: nat)
      modifies this`work, this`fuse, this`nextProposal
      ensures p == old(nextProposal) && nextProposal == old(nextProposal) + 1
      ensures work == old(work).(market := old(work).market.(proposals := old(work).market.proposals[p := row]))
      ensures ok <==> old(fuse) > 0
      ensures fuse == if ok then old(fuse) - 1 else 0
    {
      p := nextProposal;
      nextProposal := nextProposal + 1;
      work := work.(market := work.market.(proposals := work.market.proposals[p := row]));
      ok := Flush();
    }

    // ---------------------------------------------------------------- services

    /** `_load_active_for_response`: the checks in the order the program makes them. */
    method LoadActiveForResponse(user: User, n: nat) returns (r: Result<nat>)
      ensures r == LoadActive(work.market, user.id, n)
    {
      if n !in work.market.negotiations {
        return Err(NotFound);
      }
      var neg := work.market.negotiations[n];
      if neg.request !in work.market.requests {
        return Err(ServerError);
      }
      if user.id != work.market.requests[neg.request].client && user.id != neg.supplier {
        return Err(Forbidden);
      }
      if neg.status != Active {
        return Err(Conflict(AlreadyTerminal));
      }
      var last := LastProposal(work.market.proposals, n);
      if last == None {
        return Err(Conflict(NoProposals));
      }
      if work.market.proposals[last.value].actor == user.id {
        return Err(Conflict(NotYourTurn));
      }
      return Ok(last.value);
    }

    method CreateRequest(user: User) returns (r: Result<nat>, draw: Draw)
      requires Below(work.market)
      modifies this`work, this`fuse, this`nextRequest
      ensures nextRequest == old(nextRequest) + 1
      ensures (r.Ok? ==> Below(work.market)) && DrawOk(old(work).market, Create, draw)
      ensures Served(old(work), old(fuse), work, fuse, user, Create, draw, r)
    {
      draw := Draw(nextRequest, 0, []);
      nextRequest := nextRequest + 1;
      work := work.(market := work.market.(
        requests := work.market.requests[draw.row := ProductRequest(user.id, Open)]));
      var ok := Flush();
      if ok {
        ok := Record(RequestCreated(draw.row, user.id));
        if ok {
          ok := Flush();
        }
      }
      r := if ok then Ok(draw.row) else Err(ServerError);
    }

    method MakeOffer(user: User, op: Op) returns (r: Result<nat>, draw: Draw)
      requires op.Offer? && Below(work.market)
      modifies this`work, this`fuse, this`nextNegotiation, this`nextProposal
      ensures nextNegotiation >= old(nextNegotiation) && nextProposal >= old(nextProposal)
      ensures (r.Ok? ==> Below(work.market)) && DrawOk(old(work).market, op, draw)
      ensures Served(old(work), old(fuse), work, fuse, user, op, draw, r)
    {
      draw := Draw(nextNegotiation, nextProposal, []);
      if op.request !in work.market.requests {
        return Err(NotFound), draw;
      }
      if work.market.requests[op.request].status != Open {
        return Err(Conflict(RequestNotOpen)), draw;
      }
      if HasOffer(work.market.negotiations, op.request, user.id) {
        return Err(Conflict(DuplicateOffer)), draw;
      }
      nextNegotiation := nextNegotiation + 1;
      work := work.(market := work.market.(
        negotiations := work.market.negotiations[draw.row := Negotiation(op.request, user.id, Active, None)]));
      var ok := Flush();
      if ok {
        var p;
        ok, p := AddProposal(Proposal(draw.row, user.id, user.role, OfferKind, op.amount, op.currency));
        if ok {
          ok := Record(OfferCreated(draw.row, user.id, op.amount, op.currency));
          if ok {
            ok := Flush();
          }
        }
      }
      r := if ok then Ok(draw.row) else Err(ServerError);
    }

    method RejectNegotiation(user: User, n: nat) returns (r: Result<nat>, draw: Draw)
      requires Below(work.market)
      modifies this`work, this`fuse
      ensures (r.Ok? ==> Below(work.market)) && DrawOk(old(work).market, Reject(n), draw)
      ensures Served(old(work), old(fuse), work, fuse, user, Reject(n), draw, r)
    {
      draw := Draw(0, 0, []);
      var loaded := LoadActiveForResponse(user, n);
      if loaded.Err? {
        return Err(loaded.error), draw;
      }
      work := work.(market := work.market.(
        negotiations := work.market.negotiations[n := work.market.negotiations[n].(status := Rejected)]));
      var ok := Flush();
      if ok {
        ok := Record(WasRejected(n, user.id));
        if ok {
          ok := Flush();
        }
      }
      r := if ok then Ok(n) else Err(ServerError);
    }

    method CounterOffer(user: User, op: Op) returns (r: Result<nat>, draw: Draw)
      requires op.Counter? && Below(work.market)
      modifies this`work, this`fuse, this`nextProposal
      ensures nextProposal >= old(nextProposal)
      ensures (r.Ok? ==> Below(work.market)) && DrawOk(old(work).market, op, draw)
      ensures Served(old(work), old(fuse), work, fuse, user, op, draw, r)
    {
      draw := Draw(0, nextProposal, []);
      var loaded := LoadActiveForResponse(user, op.negotiation);
      if loaded.Err? {
        return Err(loaded.error), draw;
      }
      var last := LastProposal(work.market.proposals, op.negotiation);
      var currency := work.market.proposals[last.value].currency;
      var ok, p := AddProposal(
        Proposal(op.negotiation, user.id, user.role, CounterKind, op.amount, currency));
      if ok {
        ok := Record(WasCountered(op.negotiation, user.id, op.amount, currency));
        if ok {
          ok := Flush();
        }
      }
      r := if ok then Ok(op.negotiation) else Err(ServerError);
    }

    /** The sibling query: the active siblings, each once; the program fixes no order. */
    method SelectSiblings(r: nat, winner: nat) returns (siblings: seq<nat>)
      ensures Lists(siblings, ActiveSiblings(work.market.negotiations, r, winner))
    {
      AscLists(ActiveSiblings(work.market.negotiations, r, winner));
      siblings := Asc(ActiveSiblings(work.market.negotiations, r, winner));
    }

    /** `_supersede_siblings`: one update, one audit row and one flush for each sibling, and a last flush. */
    method SupersedeSiblings(r: nat, winner: nat) returns (ok: bool, siblings: seq<nat>)
      modifies this`work, this`fuse
      ensures Lists(siblings, ActiveSiblings(old(work).market.negotiations, r, winner))
      ensures ok <==> old(fuse) > |siblings|
      ensures ok ==>
        && fuse == old(fuse) - |siblings| - 1
        && work == old(work).(
             market := old(work).market.(negotiations := RejectAll(old(work).market.negotiations, siblings)),
             audit := old(work).audit + SupersededRows(siblings, winner))
    {
      siblings := SelectSiblings(r, winner);
      var i := 0;
      assert RejectAll(work.market.negotiations, siblings[..0]) == work.market.negotiations;
      assert SupersededRows(siblings[..0], winner) == [];
      while i < |siblings|
        invariant i <= |siblings| && i <= old(fuse) && fuse == old(fuse) - i
        invariant work == old(work).(
            market := old(work).market.(negotiations := RejectAll(old(work).market.negotiations, siblings[..i])),
            audit := old(work).audit + SupersededRows(siblings[..i], winner))
      {
        var s := siblings[i];
        assert s in siblings;
        var row := work.market.negotiations[s].(status := Rejected);
        work := work.(market := work.market.(negotiations := work.market.negotiations[s := row]));
        ok := Record(WasSuperseded(s, winner));
        if !ok {
          return;
        }
        assert siblings[..i + 1] == siblings[..i] + [s];
        assert SupersededRows(siblings[..i + 1], winner)
            == SupersededRows(siblings[..i], winner) + [WasSuperseded(s, winner)];
        i := i + 1;
      }
      assert siblings[..i] == siblings;
      ok := Flush();
    }

    method AcceptNegotiation(user: User, n: nat) returns (r: Result<nat>, draw: Draw)
      requires Below(work.market)
      modifies this`work, this`fuse
      ensures (r.Ok? ==> Below(work.market))
      ensures DrawOk(old(work).market, Accept(n), draw) && DrawExact(old(work).market, Accept(n), draw)
      ensures Served(old(work), old(fuse), work, fuse, user, Accept(n), draw, r)
    {
      var m := work.market;
      var loaded := LoadActiveForResponse(user, n);
      if loaded.Err? {
        return Err(loaded.error), AnyDraw(m, n);
      }
      var amount := m.proposals[LastProposal(m.proposals, n).value].amount;
      var row := m.negotiations[n].(status := Accepted, agreed := Some(amount));
      work := work.(market := work.market.(negotiations := work.market.negotiations[n := row]));
      var ok := Flush();
      var req := m.negotiations[n].request;
      if !ok {
        return Err(ServerError), AnyDraw(m, n);
      }
      work := work.(market := work.market.(
        requests := work.market.requests[req := work.market.requests[req].(status := Closed)]));
      assert ActiveSiblings(work.market.negotiations, req, n) == ActiveSiblings(m.negotiations, req, n);
      var siblings;
      ok, siblings := SupersedeSiblings(req, n);
      draw := Draw(0, 0, siblings);
      LoopSettles(m.negotiations, n, amount, siblings);
      if ok {
        ok := Record(WasAccepted(n, user.id, amount));
        if ok {
          ok := Flush();
        }
      }
      r := if ok then Ok(n) else Err(ServerError);
    }

    // ---------------------------------------------------------------- the unit of work

    method Produce(user: User, op: Op) returns (r: Result<nat>, draw: Draw)
      requires Below(work.market)
      modifies this`work, this`fuse, this`nextRequest, this`nextNegotiation, this`nextProposal
      ensures nextRequest >= old(nextRequest)
      ensures nextNegotiation >= old(nextNegotiation) && nextProposal >= old(nextProposal)
      ensures (r.Ok? ==> Below(work.market))
      ensures DrawOk(old(work).market, op, draw) && DrawExact(old(work).market, op, draw)
      ensures Served(old(work), old(fuse), work, fuse, user, op, draw, r)
    {
      match op {
        case Create => r, draw := CreateRequest(user);
        case Offer(_, _, _) => r, draw := MakeOffer(user, op);
        case Accept(n) => r, draw := AcceptNegotiation(user, n);
        case Reject(n) => r, draw := RejectNegotiation(user, n);
        case Counter(_, _) => r, draw := CounterOffer(user, op);
      }
    }

    /** `Idempotency.save`: staged only; the commit flushes it. */
    method Save(call: Call, body: Body)
      modifies this`work
      ensures work == old(work).(keys := SavedKeys(old(work).keys, call, body))
    {
      if call.key != "" {
        work := work.(keys := work.keys[call.key := KeyRecord(call.user, StatusCode(call.op), body)]);
      }
    }

    /** Everything staged becomes visible together, or the commit raises. */
    method CommitWork() returns (ok: bool)
      modifies this`store, this`fuse
      ensures ok <==> old(fuse) > 0
      ensures store == if ok then work else old(store)
    {
      ok := Flush();
      if ok {
        store := work;
      }
    }

    /** `idempotent`: replay, or run, save and commit once. */
    method Idempotent(call: Call) returns (response: Response, draw: Draw)
      requires Valid() && work == store && Guard(store.users, call).None?
      modifies this
      ensures Valid()
      ensures Lookup(old(store), call).None? ==>
                DrawOk(old(store).market, call.op, draw) && DrawExact(old(store).market, call.op, draw)
      ensures Answered(old(store), old(fuse), store, Commit(call, draw), response)
    {
      var cached := Lookup(work, call);
      if cached.Some? {
        return cached.value, Draw(0, 0, []);
      }
      var user := Actor(work, call);
      var r;
      r, draw := Produce(user, call.op);
      ghost var c := Commit(call, draw);
      ServedIsHandled(old(store), old(fuse), work, fuse, c, r);
      if r.Err? {
        return Failure(r.error), draw;
      }
      var body := BodyOf(work.market, call.op, r.value);
      Save(call, body);
      var ok := CommitWork();
      if ok {
        HistoryGrows(EmptyDb(store.users), history, c);
        history := history + [c];
      }
      response := if ok then Reply(StatusCode(call.op), body) else Failure(ServerError);
    }

    /** A POST, from opening the session to closing it: an error anywhere rolls everything back. */
    method Post(call: Call) returns (response: Response, draw: Draw)
      requires Valid()
      modifies this
      ensures Valid() && work == store
      ensures Admit(old(store), call).None? ==>
                DrawOk(old(store).market, call.op, draw) && DrawExact(old(store).market, call.op, draw)
      ensures Answered(old(store), old(fuse), store, Commit(call, draw), response)
    {
      work := store;
      var refused := Guard(work.users, call);
      if refused.Some? {
        return Failure(refused.value), Draw(0, 0, []);
      }
      response, draw := Idempotent(call);
      work := store;
    }
  }
}
