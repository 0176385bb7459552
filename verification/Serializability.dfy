/** Every interleaving of the concurrent machine commits what some run of whole requests, one at a time, commits. */
module Serializability {
  import opened Sequences
  import opened Tables
  import opened Negotiations
  import opened UnitOfWork
  import opened RowLocks
  import opened LockFacts
  import opened LockStability

  // ---------------------------------------------------------------- the invariant of the machine

  ghost predicate TxnGood(db: Db, locks: map<Row, nat>, id: nat, t: Txn) {
    Facts(db, t) && HoldsExactly(locks, Footprint(db.market, t), id)
  }

  ghost predicate AnswerGood(db: Db, a: Answer) {
    a.response.Reply? && a.call.key != "" ==>
      a.call.key in db.keys
      && db.keys[a.call.key] == KeyRecord(a.call.user, a.response.code, a.response.body)
  }

  /** The committed rows are those of the history run serially; every transaction's facts hold and it locks
      exactly its footprint; every keyed success that was answered is stored. */
  ghost predicate Good(users: map<nat, Role>, s: State) {
    && s.db.users == users
    && Script(EmptyDb(users), s.history) && s.db == Exec(EmptyDb(users), s.history)
    && (forall row :: row in s.locks ==> s.locks[row] in s.txns)
    && (forall id {:trigger TxnGood(s.db, s.locks, id, s.txns[id])} ::
          id in s.txns ==> TxnGood(s.db, s.locks, id, s.txns[id]))
    && (forall id :: id in s.answers ==> AnswerGood(s.db, s.answers[id]))
  }

  lemma LockingIsLocal(locks: map<Row, nat>, rows: set<Row>, id: nat, fp: set<Row>, other: nat, otherFp: set<Row>)
    requires AllFree(locks, rows, id) && other != id
    requires HoldsExactly(locks, fp, id) && HoldsExactly(locks, otherFp, other)
    ensures HoldsExactly(Locked(locks, rows, id), fp + rows, id)
    ensures HoldsExactly(Locked(locks, rows, id), otherFp, other)
  {
  }

  lemma ReleasingIsLocal(locks: map<Row, nat>, id: nat, other: nat, otherFp: set<Row>)
    requires HoldsExactly(locks, otherFp, other) && other != id
    ensures HoldsExactly(Released(locks, id), otherFp, other)
  {
  }

  /** Ending without a commit releases the locks and leaves the committed rows alone. */
  lemma FinishKeeps(users: map<nat, Role>, s: State, id: nat, response: Response)
    requires Good(users, s) && id in s.txns && AnswerGood(s.db, Answer(s.txns[id].call, response))
    ensures Good(users, Finish(s, id, response))
  {
    var s' := Finish(s, id, response);
    forall k | k in s'.txns ensures TxnGood(s'.db, s'.locks, k, s'.txns[k]) {
      assert TxnGood(s.db, s.locks, k, s.txns[k]);
      ReleasingIsLocal(s.locks, id, k, Footprint(s.db.market, s.txns[k]));
    }
  }

  lemma OtherMoves(db: Db, locks: map<Row, nat>, rows: set<Row>, id: nat, fp: set<Row>, k: nat, t: Txn)
    requires AllFree(locks, rows, id) && HoldsExactly(locks, fp, id) && k != id && TxnGood(db, locks, k, t)
    ensures TxnGood(db, Locked(locks, rows, id), k, t)
  {
    LockingIsLocal(locks, rows, id, fp, k, Footprint(db.market, t));
  }

  lemma OwnMove(db: Db, locks: map<Row, nat>, id: nat, t: Txn, pick: Draw)
    requires TxnGood(db, locks, id, t) && PickOk(db.market, t, pick)
    requires Next(db, t, pick).Move? && AllFree(locks, Next(db, t, pick).locks, id)
    ensures TxnGood(db, Locked(locks, Next(db, t, pick).locks, id), id, Next(db, t, pick).txn)
  {
    StepKeepsFacts(db, t, pick);
  }

  lemma MoveKeeps(users: map<nat, Role>, s: State, id: nat, pick: Draw)
    requires Good(users, s) && Enabled(s, Step(id, pick)) && Next(s.db, s.txns[id], pick).Move?
    ensures Good(users, Advance(s, id, pick))
  {
    var t, plan, s' := s.txns[id], Next(s.db, s.txns[id], pick), Advance(s, id, pick);
    assert TxnGood(s.db, s.locks, id, t);
    forall k | k in s'.txns ensures TxnGood(s'.db, s'.locks, k, s'.txns[k]) {
      if k == id {
        OwnMove(s.db, s.locks, id, t, pick);
      } else {
        assert TxnGood(s.db, s.locks, k, s.txns[k]);
        OtherMoves(s.db, s.locks, plan.locks, id, Footprint(s.db.market, t), k, s.txns[k]);
      }
    }
  }

  lemma OtherPublishes(db: Db, after: Db, locks: map<Row, nat>, u: nat, k: nat, t: Txn)
    requires Respects(db, after, locks, u) && k != u && TxnGood(db, locks, k, t)
    ensures TxnGood(after, Released(locks, u), k, t)
  {
    FactsStable(db, after, locks, u, k, t);
    FootprintStable(db, after, locks, u, t);
    ReleasingIsLocal(locks, u, k, Footprint(db.market, t));
  }

  /** Publishing serves the call, alone, after the history so far. */
  lemma {:induction false} PublishExtendsHistory(users: map<nat, Role>, history: seq<Commit>, db: Db, t: Txn)
    requires Script(EmptyDb(users), history) && db == Exec(EmptyDb(users), history)
    requires t.pc.Saved? && Facts(db, t)
    ensures var longer := history + [Commit(t.call, t.draw)];
            Script(EmptyDb(users), longer) && Published(db, t, t.pc.body) == Exec(EmptyDb(users), longer)
  {
    PublishIsHandle(db, t);
    ScriptAppend(EmptyDb(users), history, Commit(t.call, t.draw));
  }

  lemma PublishAnswers(db: Db, t: Txn, a: Answer)
    requires t.pc.Saved? && Facts(db, t)
    ensures AnswerGood(db, a) ==> AnswerGood(Published(db, t, t.pc.body), a)
    ensures AnswerGood(Published(db, t, t.pc.body), Answer(t.call, Reply(StatusCode(t.call.op), t.pc.body)))
  {
  }

  lemma PublishLeavesOthers(users: map<nat, Role>, s: State, id: nat, k: nat)
    requires Good(users, s) && id in s.txns && s.txns[id].pc.Saved? && k in s.txns && k != id
    ensures TxnGood(Published(s.db, s.txns[id], s.txns[id].pc.body), Released(s.locks, id), k, s.txns[k])
  {
    var t := s.txns[id];
    assert TxnGood(s.db, s.locks, id, t) && TxnGood(s.db, s.locks, k, s.txns[k]);
    PublishRespects(s.db, t, s.locks, id);
    OtherPublishes(s.db, Published(s.db, t, t.pc.body), s.locks, id, k, s.txns[k]);
  }

  /** The state after the commit of a transaction. */
  function AfterCommit(s: State, id: nat): State
    requires id in s.txns && s.txns[id].pc.Saved?
  {
    var t := s.txns[id];
    State(Published(s.db, t, t.pc.body), Released(s.locks, id), s.txns - {id},
          s.history + [Commit(t.call, t.draw)],
          s.answers[id := Answer(t.call, Reply(StatusCode(t.call.op), t.pc.body))])
  }

  lemma AdvanceCommits(s: State, id: nat, pick: Draw)
    requires id in s.txns && s.txns[id].pc.Saved?
    ensures Advance(s, id, pick) == AfterCommit(s, id)
  {
  }

  lemma PublishKeeps(users: map<nat, Role>, s: State, id: nat)
    requires Good(users, s) && id in s.txns && s.txns[id].pc.Saved?
    ensures Good(users, AfterCommit(s, id))
  {
    var t, s' := s.txns[id], AfterCommit(s, id);
    assert Facts(s.db, t) by {
      assert TxnGood(s.db, s.locks, id, t);
    }
    PublishExtendsHistory(users, s.history, s.db, t);
    forall k | k in s'.txns ensures TxnGood(s'.db, s'.locks, k, s'.txns[k]) {
      PublishLeavesOthers(users, s, id, k);
    }
    PublishKeepsAnswers(s, id);
  }

  lemma PublishKeepsAnswers(s: State, id: nat)
    requires id in s.txns && s.txns[id].pc.Saved? && Facts(s.db, s.txns[id])
    requires forall k :: k in s.answers ==> AnswerGood(s.db, s.answers[k])
    ensures var s' := AfterCommit(s, id); forall k :: k in s'.answers ==> AnswerGood(s'.db, s'.answers[k])
  {
    var s' := AfterCommit(s, id);
    forall k | k in s'.answers ensures AnswerGood(s'.db, s'.answers[k]) {
      PublishAnswers(s.db, s.txns[id], s'.answers[k]);
    }
  }

  lemma RefusalIsGood(db: Db, t: Txn, pick: Draw)
    requires Next(db, t, pick).Refuse?
    ensures AnswerGood(db, Answer(t.call, Next(db, t, pick).response))
  {
  }

  /** Every event keeps the invariant. */
  lemma EventKeeps(users: map<nat, Role>, s: State, e: Event)
    requires Good(users, s) && Enabled(s, e)
    ensures Good(users, Apply(s, e))
  {
    match e {
      case Begin(id, call) => BeginKeeps(users, s, id, call);
      case Abort(id) => FinishKeeps(users, s, id, Failure(ServerError));
      case Step(id, pick) => StepKeeps(users, s, id, pick);
    }
  }

  lemma BeginKeeps(users: map<nat, Role>, s: State, id: nat, call: Call)
    requires Good(users, s) && Enabled(s, Begin(id, call))
    ensures Good(users, Apply(s, Begin(id, call)))
  {
    var s' := Apply(s, Begin(id, call));
    forall k | k in s'.txns ensures TxnGood(s'.db, s'.locks, k, s'.txns[k]) {
      if k != id {
        assert TxnGood(s.db, s.locks, k, s.txns[k]);
      }
    }
  }

  lemma StepKeeps(users: map<nat, Role>, s: State, id: nat, pick: Draw)
    requires Good(users, s) && Enabled(s, Step(id, pick))
    ensures Good(users, Advance(s, id, pick))
  {
    match Next(s.db, s.txns[id], pick) {
      case Refuse(response) =>
        RefusalIsGood(s.db, s.txns[id], pick);
        FinishKeeps(users, s, id, response);
      case Move(_, _) => MoveKeeps(users, s, id, pick);
      case Publish(_) =>
        AdvanceCommits(s, id, pick);
        PublishKeeps(users, s, id);
    }
  }

  lemma {:induction false} AlwaysGood(users: map<nat, Role>, es: seq<Event>)
    requires Legal(users, es)
    ensures Good(users, After(users, es))
  {
    if es != [] {
      AlwaysGood(users, Init(es));
      EventKeeps(users, After(users, Init(es)), Last(es));
    }
  }
}
