/** The converse of serializability: every one-at-a-time run of requests is a run of the concurrent machine,
    so the machine commits exactly the tables and keys that whole requests, run alone, commit. */
module SoloRuns {
  import opened Sequences
  import opened Ids
  import opened Tables
  import opened Negotiations
  import opened UnitOfWork
  import opened ClosingRecords
  import opened RowLocks
  import opened LockFacts
  import opened Serializability

  lemma {:induction false} Extend(users: map<nat, Role>, es: seq<Event>, e: Event)
    requires Legal(users, es) && Enabled(After(users, es), e)
    ensures Legal(users, es + [e]) && After(users, es + [e]) == Apply(After(users, es), e)
  {
    assert Init(es + [e]) == es;
  }

  /** The choices made so far are those of `draw`. */
  predicate Agrees(t: Txn, draw: Draw) {
    t.pc.OfferInserted? || t.pc.Superseding? || t.pc.Produced? || t.pc.Saved? ==> t.draw == draw
  }

  function Phase(pc: Pc): nat {
    match pc
    case Start => 12
    case Begun => 11
    case OfferLocked => 10
    case OfferFree => 9
    case OfferInserted => 8
    case NegotiationLocked => 10
    case Checked => 9
    case MyTurn => 8
    case WantRequest => 7
    case HasRequest => 6
    case Superseding(_) => 5
    case Produced(_) => 4
    case Saved(_) => 3
  }

  function Loops(t: Txn): nat {
    if t.pc.Superseding? && t.pc.next < |t.draw.siblings| then |t.draw.siblings| - t.pc.next else 0
  }

  /** Closer to the end; in the sibling loop by one sibling. */
  predicate Sooner(after: Txn, t: Txn) {
    Phase(after.pc) < Phase(t.pc) || (Phase(after.pc) == Phase(t.pc) && Loops(after) < Loops(t))
  }

  /** Every statement brings its transaction closer to its end. */
  lemma StatementsRunOut(db: Db, t: Txn, pick: Draw)
    requires Next(db, t, pick).Move?
    ensures Sooner(Next(db, t, pick).txn, t)
  {
    if !t.pc.Start? && !t.pc.Produced? && !t.pc.Saved? && t.call.user in db.users {
      if t.call.op.Offer? {
        OfferRunsOut(db.market, Actor(db, t.call), t, pick);
      } else if !t.call.op.Create? {
        ResponseRunsOut(db.market, Actor(db, t.call), t, pick);
      }
    }
  }

  lemma OfferRunsOut(m: Market, user: User, t: Txn, pick: Draw)
    requires t.call.op.Offer? && NextOffer(m, user, t, pick).Move?
    ensures Sooner(NextOffer(m, user, t, pick).txn, t)
  {
  }

  lemma ResponseRunsOut(m: Market, user: User, t: Txn, pick: Draw)
    requires !t.call.op.Create? && !t.call.op.Offer? && NextResponse(m, user, t, pick).Move?
    ensures Sooner(NextResponse(m, user, t, pick).txn, t)
  {
  }

  /** The choice of siblings matters only until the list is fetched. */
  ghost predicate Choosable(m: Market, t: Txn, draw: Draw) {
    DrawOk(m, t.call.op, draw) && (t.pc.Superseding? || t.pc.Produced? || t.pc.Saved? || DrawExact(m, t.call.op, draw))
  }

  lemma SoloResponse(db: Db, t: Txn, draw: Draw)
    requires Facts(db, t) && t.call.user in db.users && !t.call.op.Create? && !t.call.op.Offer?
    requires LoadActive(db.market, t.call.user, t.call.op.negotiation).Ok? && Choosable(db.market, t, draw)
    requires !t.pc.Start? && !t.pc.Produced? && !t.pc.Saved? && Agrees(t, draw)
    ensures PickOk(db.market, t, draw) && Next(db, t, draw).Move? && Agrees(Next(db, t, draw).txn, draw)
  {
    var m, n := db.market, t.call.op.negotiation;
    if t.pc.HasRequest? {
      var r := m.negotiations[n].request;
      assert ActiveSiblings(View(m, t.writes).negotiations, r, n) == ActiveSiblings(m.negotiations, r, n);
      forall s ensures s in draw.siblings <==> s in ActiveSiblings(m.negotiations, r, n) {
        assert s in draw.siblings ==> IsLosing(m.negotiations, n, s);
      }
    } else if t.pc.Superseding? && t.pc.next < |draw.siblings| {
      assert IsLosing(m.negotiations, n, draw.siblings[t.pc.next]);
    } else if t.pc.Superseding? {
      AcceptStep(db, t, draw);
    }
  }

  lemma SoloOffer(db: Db, t: Txn, draw: Draw)
    requires Facts(db, t) && t.call.user in db.users && t.call.op.Offer?
    requires Offering(db.market, Actor(db, t.call), t.call.op, draw).Ok? && DrawOk(db.market, t.call.op, draw)
    requires !t.pc.Start? && !t.pc.Produced? && !t.pc.Saved? && Agrees(t, draw)
    ensures PickOk(db.market, t, draw) && Next(db, t, draw).Move? && Agrees(Next(db, t, draw).txn, draw)
  {
  }

  /** A transaction whose request would succeed alone, on the rows committed now, is not refused. */
  lemma SoloStep(db: Db, t: Txn, draw: Draw)
    requires Facts(db, t) && Effective(db, Commit(t.call, draw)) && Choosable(db.market, t, draw)
    requires !t.pc.Saved? && Agrees(t, draw)
    ensures PickOk(db.market, t, draw) && Next(db, t, draw).Move? && Agrees(Next(db, t, draw).txn, draw)
    ensures Next(db, t, draw).txn.call == t.call
  {
    if !t.pc.Start? && !t.pc.Produced? {
      if t.call.op.Offer? {
        SoloOffer(db, t, draw);
      } else if !t.call.op.Create? {
        SoloResponse(db, t, draw);
      }
    }
  }

  ghost predicate Quiet(s: State) {
    s.txns == map[]
  }

  ghost predicate Solo(s: State, id: nat) {
    s.txns.Keys == {id}
  }

  /** The request would have its effect if served now, and what is left to choose is `c.draw`. */
  ghost predicate CanServe(db: Db, t: Txn, c: Commit) {
    Effective(db, c) && t.call == c.call && Agrees(t, c.draw) && Choosable(db.market, t, c.draw)
  }

  /** A transaction that finds its rows free moves on; its choices and its chances stay the same. */
  lemma Moves(users: map<nat, Role>, s: State, id: nat, c: Commit)
    requires Good(users, s) && id in s.txns && CanServe(s.db, s.txns[id], c) && !s.txns[id].pc.Saved?
    requires Blocker(s, id).None?
    requires var plan := Next(s.db, s.txns[id], c.draw); plan.Move? ==> AllFree(s.locks, plan.locks, id)
    ensures Next(s.db, s.txns[id], c.draw).Move? && Enabled(s, Step(id, c.draw))
    ensures var s', plan := Apply(s, Step(id, c.draw)), Next(s.db, s.txns[id], c.draw);
            && s'.txns == s.txns[id := plan.txn] && s'.locks == Locked(s.locks, plan.locks, id)
            && s'.db == s.db && s'.history == s.history
            && CanServe(s'.db, s'.txns[id], c)
            && Sooner(s'.txns[id], s.txns[id])
  {
    assert Facts(s.db, s.txns[id]) by {
      assert TxnGood(s.db, s.locks, id, s.txns[id]);
    }
    SoloStep(s.db, s.txns[id], c.draw);
    StatementsRunOut(s.db, s.txns[id], c.draw);
    StaysChoosable(s.db, s.txns[id], c.draw);
  }

  lemma StaysChoosable(db: Db, t: Txn, draw: Draw)
    requires Next(db, t, draw).Move? && Choosable(db.market, t, draw) && Next(db, t, draw).txn.call == t.call
    ensures Choosable(db.market, Next(db, t, draw).txn, draw)
  {
  }

  /** Nobody else has a row this transaction needs for its next statement. */
  ghost predicate Unhindered(s: State, id: nat, draw: Draw)
    requires id in s.txns
  {
    Blocker(s, id).None? && var plan := Next(s.db, s.txns[id], draw); plan.Move? ==> AllFree(s.locks, plan.locks, id)
  }

  /** One statement further: nearer its end, everything else as before but for rows it has locked. */
  ghost predicate Nearer(s: State, s': State, id: nat) {
    && id in s.txns && id in s'.txns && s'.txns == s.txns[id := s'.txns[id]]
    && s'.db == s.db && s'.history == s.history
    && (forall row :: row in s'.locks && s'.locks[row] != id ==> row in s.locks && s.locks[row] == s'.locks[row])
    && Sooner(s'.txns[id], s.txns[id])
  }

  lemma MoveAlong(users: map<nat, Role>, es: seq<Event>, s: State, id: nat, c: Commit)
    returns (more: seq<Event>, s': State)
    requires Legal(users, es) && s == After(users, es) && id in s.txns
    requires CanServe(s.db, s.txns[id], c) && !s.txns[id].pc.Saved? && Unhindered(s, id, c.draw)
    ensures more == es + [Step(id, c.draw)] && Legal(users, more) && s' == After(users, more)
    ensures Nearer(s, s', id) && CanServe(s'.db, s'.txns[id], c)
    ensures Next(s.db, s.txns[id], c.draw).Move? && s'.txns[id] == Next(s.db, s.txns[id], c.draw).txn
  {
    AlwaysGood(users, es);
    Moves(users, s, id, c);
    Extend(users, es, Step(id, c.draw));
    more := es + [Step(id, c.draw)];
    s' := After(users, more);
  }

  lemma Publishes(users: map<nat, Role>, es: seq<Event>, s: State, id: nat, c: Commit)
    returns (more: seq<Event>, s': State)
    requires Legal(users, es) && s == After(users, es) && id in s.txns
    requires CanServe(s.db, s.txns[id], c) && s.txns[id].pc.Saved?
    ensures Legal(users, more) && s' == After(users, more)
    ensures s'.txns == s.txns - {id} && s'.history == s.history + [c]
  {
    Extend(users, es, Step(id, c.draw));
    more := es + [Step(id, c.draw)];
    s' := After(users, more);
  }

  /** Up to its sibling list an accept waits for and locks only its own row, then its request. */
  lemma AcceptLocks(db: Db, t: Txn, pick: Draw)
    requires Facts(db, t) && t.call.op.Accept? && Phase(t.pc) > 5
    ensures var n := t.call.op.negotiation;
            var row := if t.pc.WantRequest? then RequestRow(RequestOf(db.market, n)) else NegotiationRow(n);
            var plan := Next(db, t, pick);
            && (Wanted(db, t).Some? ==> Wanted(db, t).value == row)
            && (plan.Move? ==>
                  && plan.locks <= {row} && Phase(plan.txn.pc) == Phase(t.pc) - 1
                  && (Phase(t.pc) == 6 ==> plan.txn.pc == Superseding(0)))
  {
  }

  lemma AcceptMoves(users: map<nat, Role>, es: seq<Event>, s: State, id: nat, c: Commit)
    returns (more: seq<Event>, s': State)
    requires Legal(users, es) && s == After(users, es) && id in s.txns && CanServe(s.db, s.txns[id], c)
    requires c.call.op.Accept? && Phase(s.txns[id].pc) > 5
    requires Free(s.locks, NegotiationRow(c.call.op.negotiation), id)
    requires Phase(s.txns[id].pc) <= 7 ==> Free(s.locks, RequestRow(RequestOf(s.db.market, c.call.op.negotiation)), id)
    ensures Legal(users, more) && s' == After(users, more)
    ensures id in s'.txns && s'.txns == s.txns[id := s'.txns[id]] && s'.db == s.db && s'.history == s.history
    ensures forall row :: Free(s.locks, row, id) ==> Free(s'.locks, row, id)
    ensures CanServe(s'.db, s'.txns[id], c) && Phase(s'.txns[id].pc) == Phase(s.txns[id].pc) - 1
    ensures Phase(s'.txns[id].pc) == 5 ==> s'.txns[id].pc == Superseding(0)
  {
    assert Facts(s.db, s.txns[id]) by {
      AlwaysGood(users, es);
      assert TxnGood(s.db, s.locks, id, s.txns[id]);
    }
    AcceptLocks(s.db, s.txns[id], c.draw);
    more, s' := MoveAlong(users, es, s, id, c);
  }

  /** An accept whose row and request nobody else has runs to any point up to its sibling list. */
  lemma {:induction false} RunAccept(users: map<nat, Role>, es: seq<Event>, s: State, id: nat, c: Commit, phase: nat)
    returns (more: seq<Event>, s': State)
    requires Legal(users, es) && s == After(users, es) && id in s.txns && CanServe(s.db, s.txns[id], c)
    requires c.call.op.Accept? && 5 <= phase < Phase(s.txns[id].pc)
    requires Free(s.locks, NegotiationRow(c.call.op.negotiation), id)
    requires phase < 7 ==> Free(s.locks, RequestRow(RequestOf(s.db.market, c.call.op.negotiation)), id)
    ensures Legal(users, more) && s' == After(users, more) && s'.db == s.db && s'.history == s.history
    ensures id in s'.txns && s'.txns == s.txns[id := s'.txns[id]] && CanServe(s'.db, s'.txns[id], c)
    ensures Phase(s'.txns[id].pc) == phase && s'.txns[id].call == c.call
    ensures phase == 7 ==> s'.txns[id].pc.WantRequest?
    ensures phase == 5 ==> s'.txns[id].pc == Superseding(0) && s'.txns[id].draw == c.draw
    decreases Phase(s.txns[id].pc)
  {
    more, s' := AcceptMoves(users, es, s, id, c);
    if phase < Phase(s'.txns[id].pc) {
      more, s' := RunAccept(users, more, s', id, c, phase);
    }
  }

  lemma {:induction false} AloneIsFree(users: map<nat, Role>, es: seq<Event>, s: State, id: nat, draw: Draw)
    requires Legal(users, es) && s == After(users, es) && Solo(s, id)
    ensures Unhindered(s, id, draw)
  {
    AloneHasAllLocks(users, es, s, id);
  }

  lemma {:induction false} AloneHasAllLocks(users: map<nat, Role>, es: seq<Event>, s: State, id: nat)
    requires Legal(users, es) && s == After(users, es) && Solo(s, id)
    ensures forall row :: row in s.locks ==> s.locks[row] == id
  {
    AlwaysGood(users, es);
  }

  lemma {:induction false} FinishAlone(users: map<nat, Role>, es: seq<Event>, s: State, id: nat, c: Commit)
    returns (more: seq<Event>)
    requires Legal(users, es) && s == After(users, es) && Solo(s, id) && CanServe(s.db, s.txns[id], c)
    ensures Legal(users, more) && Quiet(After(users, more)) && After(users, more).history == s.history + [c]
    decreases Phase(s.txns[id].pc), Loops(s.txns[id])
  {
    var s';
    if s.txns[id].pc.Saved? {
      more, s' := Publishes(users, es, s, id, c);
    } else {
      AloneIsFree(users, es, s, id, c.draw);
      more, s' := MoveAlong(users, es, s, id, c);
      more := FinishAlone(users, more, s', id, c);
    }
  }

  lemma NewId(used: set<nat>) returns (id: nat)
    ensures id !in used
  {
    id := if used == {} then 0 else Max(used) + 1;
  }

  /** A transaction can always begin with an id nobody has had. */
  lemma Begins(users: map<nat, Role>, es: seq<Event>, s: State, c: Commit)
    returns (more: seq<Event>, s': State, id: nat)
    requires Legal(users, es) && s == After(users, es)
    requires Effective(s.db, c) && DrawExact(s.db.market, c.call.op, c.draw)
    ensures Legal(users, more) && s' == After(users, more)
    ensures id !in s.txns && id in s'.txns && s'.txns == s.txns[id := s'.txns[id]] && s'.txns[id].pc.Start?
    ensures CanServe(s'.db, s'.txns[id], c)
    ensures s'.db == s.db && s'.locks == s.locks && s'.history == s.history
  {
    id := NewId(s.answers.Keys + s.txns.Keys);
    Extend(users, es, Begin(id, c.call));
    more := es + [Begin(id, c.call)];
    s' := After(users, more);
  }

  /** Where nothing is live it begins alone. */
  lemma {:induction false} BeginsAlone(users: map<nat, Role>, es: seq<Event>, s: State, c: Commit)
    returns (more: seq<Event>, s': State, id: nat)
    requires Legal(users, es) && s == After(users, es) && Quiet(s)
    requires Effective(s.db, c) && DrawExact(s.db.market, c.call.op, c.draw)
    ensures Legal(users, more) && s' == After(users, more) && s'.db == s.db && s'.history == s.history
    ensures Solo(s', id) && s'.txns[id].pc.Start? && CanServe(s'.db, s'.txns[id], c)
    ensures forall row :: Free(s'.locks, row, id)
  {
    more, s', id := Begins(users, es, s, c);
    AloneHasAllLocks(users, more, s', id);
  }

  lemma ServeAlone(users: map<nat, Role>, es: seq<Event>, s: State, c: Commit) returns (more: seq<Event>)
    requires Legal(users, es) && s == After(users, es) && Quiet(s)
    requires Effective(s.db, c) && DrawExact(s.db.market, c.call.op, c.draw)
    ensures Legal(users, more) && Quiet(After(users, more)) && After(users, more).history == s.history + [c]
  {
    var s', id;
    more, s', id := BeginsAlone(users, es, s, c);
    more := FinishAlone(users, more, s', id, c);
  }

  lemma {:induction false} HistoryGivesDb(users: map<nat, Role>, es: seq<Event>)
    requires Legal(users, es)
    ensures After(users, es).db == Exec(EmptyDb(users), After(users, es).history)
  {
    AlwaysGood(users, es);
  }

  /** Every exact script of whole requests is the history of some run of the machine, with the same database. */
  lemma {:induction false} EveryScriptRuns(users: map<nat, Role>, cs: seq<Commit>) returns (es: seq<Event>)
    requires Script(EmptyDb(users), cs) && ExactRun(EmptyDb(users), cs)
    ensures Legal(users, es) && Quiet(After(users, es))
    ensures After(users, es).history == cs && After(users, es).db == Exec(EmptyDb(users), cs)
  {
    es := ScriptRuns(users, cs);
    HistoryGivesDb(users, es);
  }

  lemma {:induction false} ScriptRuns(users: map<nat, Role>, cs: seq<Commit>) returns (es: seq<Event>)
    requires Script(EmptyDb(users), cs) && ExactRun(EmptyDb(users), cs)
    ensures Legal(users, es) && Quiet(After(users, es)) && After(users, es).history == cs
  {
    if cs == [] {
      es := [];
    } else {
      es := ScriptRuns(users, Init(cs));
      ScriptSnoc(EmptyDb(users), cs);
      es := ServeNext(users, es, Init(cs), Last(cs));
    }
  }

  lemma {:induction false} ServeNext(users: map<nat, Role>, es: seq<Event>, cs: seq<Commit>, c: Commit)
    returns (more: seq<Event>)
    requires Legal(users, es) && Quiet(After(users, es)) && After(users, es).history == cs
    requires Effective(Exec(EmptyDb(users), cs), c) && DrawExact(Exec(EmptyDb(users), cs).market, c.call.op, c.draw)
    ensures Legal(users, more) && Quiet(After(users, more)) && After(users, more).history == cs + [c]
  {
    HistoryGivesDb(users, es);
    more := ServeAlone(users, es, After(users, es), c);
  }

  lemma {:induction false} ScriptSnoc(db: Db, cs: seq<Commit>)
    requires Script(db, cs) && ExactRun(db, cs) && cs != []
    ensures Script(db, Init(cs)) && ExactRun(db, Init(cs)) && cs == Init(cs) + [Last(cs)]
    ensures Effective(Exec(db, Init(cs)), Last(cs))
    ensures DrawExact(Exec(db, Init(cs)).market, Last(cs).call.op, Last(cs).draw)
  {
  }
}
