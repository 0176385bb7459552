/** When a call loses the race for its Idempotency-Key, and what every repeat of it is answered
    (app/deps.py, app/routers/_helpers.py). */
module KeyRaces {
  import opened Sequences
  import opened Tables
  import opened Negotiations
  import opened UnitOfWork
  import opened RowLocks
  import opened LockFacts
  import opened Serializability
  import opened SoloRuns
  import opened Overlaps

  // ---------------------------------------------------------------- when a call loses its key

  /** The transaction has looked its key up, and has not ended. */
  ghost predicate PastLookup(s: State, id: nat) {
    id in s.txns && !s.txns[id].pc.Start?
  }

  /** A call with this key committed while `id` was live and past its lookup. */
  ghost predicate KeyTaken(users: map<nat, Role>, es: seq<Event>, id: nat, key: string) {
    Happened(users, es, TakesKey(id, key))
  }

  ghost function TakesKey(id: nat, key: string): (State, Event) -> bool {
    (s: State, e: Event) => PastLookup(s, id) && CommitOf(s, e).Some? && CommitOf(s, e).value.key == key
  }

  /** A key enters the table with a commit of a call that has it, and in no other way. */
  lemma KeysOfEvent(s: State, e: Event, key: string)
    requires key != ""
    ensures key in Apply(s, e).db.keys
       <==> key in s.db.keys || (CommitOf(s, e).Some? && CommitOf(s, e).value.key == key)
  {
    CommitsAreRecorded(s, e);
  }

  lemma {:induction false} LookedForGood(users: map<nat, Role>, es: seq<Event>, j: nat, id: nat)
    requires Legal(users, es) && j <= |es| && PastLookup(Before(users, es, j), id) && id !in After(users, es).answers
    ensures PastLookup(After(users, es), id)
  {
    SeenStays(users, es, j, id);
    PhaseFalls(users, es, j, id);
  }

  /** Nothing is past a lookup that has not been made yet. */
  lemma {:induction false} NotYetLooked(users: map<nat, Role>, es: seq<Event>, id: nat, key: string)
    requires Legal(users, es)
    requires id !in After(users, es).answers && (id in After(users, es).txns ==> After(users, es).txns[id].pc.Start?)
    ensures !KeyTaken(users, es, id, key)
  {
    forall j | 0 <= j < |es| ensures !TakesKey(id, key)(Before(users, es, j), es[j]) {
      if PastLookup(Before(users, es, j), id) {
        LookedForGood(users, es, j, id);
      }
    }
  }

  /** The key of a call past its lookup, absent then, is stored exactly when another call took it since. */
  lemma {:induction false} StoredIffTaken(users: map<nat, Role>, es: seq<Event>, id: nat, key: string)
    requires Legal(users, es) && PastLookup(After(users, es), id)
    requires key == After(users, es).txns[id].call.key != ""
    ensures key in After(users, es).db.keys <==> KeyTaken(users, es, id, key)
  {
    var s, e := After(users, Init(es)), Last(es);
    HappenedLater(users, es, TakesKey(id, key));
    Prefixes(users, es, |es| - 1);
    KeysOfEvent(s, e, key);
    SeenStays(users, Init(es), 0, id);
    EventKeepsCall(s, e, id);
    if PastLookup(s, id) {
      StoredIffTaken(users, Init(es), id, key);
    } else {
      NotYetLooked(users, Init(es), id, key);
    }
  }

  /** A call is refused once its effect is complete if and only if another call with its key committed
      since this one looked the key up. */
  lemma {:induction false} LosesIffTaken(users: map<nat, Role>, es: seq<Event>, s: State, id: nat, pick: Draw)
    requires Legal(users, es) && s == After(users, es) && id in s.txns && s.txns[id].pc.Produced?
    ensures var t := s.txns[id];
            Enabled(s, Step(id, pick)) && Next(s.db, t, pick).Refuse?
            <==> t.call.key != "" && KeyTaken(users, es, id, t.call.key)
    ensures Next(s.db, s.txns[id], pick).Refuse? ==> Next(s.db, s.txns[id], pick).response == Failure(ServerError)
  {
    if s.txns[id].call.key != "" {
      StoredIffTaken(users, es, id, s.txns[id].call.key);
    }
  }

  /** While `id` was past its lookup no other live call had its key. */
  ghost predicate AloneWithKey(users: map<nat, Role>, es: seq<Event>, id: nat, key: string) {
    forall j, k ::
      0 <= j < |es| && PastLookup(Before(users, es, j), id) && k != id && k in Before(users, es, j).txns ==>
        Before(users, es, j).txns[k].call.key != key
  }

  /** A client that never has two calls with one key under way at the same time never loses the race. */
  lemma {:induction false} AloneNeverLoses(users: map<nat, Role>, es: seq<Event>, s: State, id: nat, pick: Draw)
    requires Legal(users, es) && s == After(users, es) && id in s.txns && s.txns[id].pc.Produced?
    requires AloneWithKey(users, es, id, s.txns[id].call.key)
    ensures !Next(s.db, s.txns[id], pick).Refuse?
  {
    LosesIffTaken(users, es, s, id, pick);
    AloneIsNotTaken(users, es, id, s.txns[id].call.key);
  }

  lemma {:induction false} AloneIsNotTaken(users: map<nat, Role>, es: seq<Event>, id: nat, key: string)
    requires Legal(users, es) && id in After(users, es).txns && AloneWithKey(users, es, id, key)
    ensures !KeyTaken(users, es, id, key)
  {
    forall j | 0 <= j < |es| ensures !TakesKey(id, key)(Before(users, es, j), es[j]) {
      if CommitOf(Before(users, es, j), es[j]).Some? {
        CommitterEnds(users, es, j);
      }
    }
  }

  // ---------------------------------------------------------------- what a repeat is answered

  lemma {:induction false} StoredForGood(users: map<nat, Role>, es: seq<Event>, k: nat, key: string)
    requires Legal(users, es) && k <= |es| && key in Before(users, es, k).db.keys
    ensures key in After(users, es).db.keys && After(users, es).db.keys[key] == Before(users, es, k).db.keys[key]
    ensures After(users, es).db.users == users
  {
    AlwaysGood(users, es);
    if k == |es| {
      assert es[..k] == es;
    } else {
      Prefixes(users, es, k);
      StoredForGood(users, Init(es), k, key);
      AlwaysGood(users, Init(es));
      EventKeepsKey(users, After(users, Init(es)), Last(es), key);
    }
  }

  lemma EventKeepsKey(users: map<nat, Role>, s: State, e: Event, key: string)
    requires Good(users, s) && Enabled(s, e) && key in s.db.keys
    ensures key in Apply(s, e).db.keys && Apply(s, e).db.keys[key] == s.db.keys[key]
  {
    CommitsAreRecorded(s, e);
    if CommitOf(s, e).Some? {
      assert Facts(s.db, s.txns[e.id]) by {
        assert TxnGood(s.db, s.locks, e.id, s.txns[e.id]);
      }
    }
  }

  /** Once a key is stored, every call that comes with it is answered at its first statement, in every
      continuation: refused by the guard, given the stored response, or refused as another user's. */
  lemma {:induction false} RepeatIsAnswered(
      users: map<nat, Role>, es: seq<Event>, k: nat, s: State, id: nat, pick: Draw)
    requires Legal(users, es) && k <= |es| && s == After(users, es)
    requires id in s.txns && s.txns[id].pc.Start? && s.txns[id].call.key != ""
    requires s.txns[id].call.key in Before(users, es, k).db.keys
    ensures var call, stored := s.txns[id].call, Before(users, es, k).db.keys[s.txns[id].call.key];
            Enabled(s, Step(id, pick))
            && Next(s.db, s.txns[id], pick) == Refuse(
                 match Guard(users, call)
                 case Some(e) => Failure(e)
                 case None => if call.user == stored.user then Reply(stored.code, stored.body)
                              else Failure(Conflict(KeyOfAnotherUser)))
  {
    StoredForGood(users, es, k, s.txns[id].call.key);
  }

  /** Whoever lost the race and repeats the same call gets the winner's response if the winner was the same user,
      and a conflict if not; the guard, passed once, is passed again. */
  lemma {:induction false} LoserRepeats(
      users: map<nat, Role>, es: seq<Event>, k: nat, loser: nat, s: State, id: nat, pick: Draw)
    requires Legal(users, es) && k <= |es| && s == After(users, es)
    requires loser in Before(users, es, k).txns && Before(users, es, k).txns[loser].pc.Produced?
    requires Next(Before(users, es, k).db, Before(users, es, k).txns[loser], pick).Refuse?
    requires id in s.txns && s.txns[id].pc.Start? && s.txns[id].call == Before(users, es, k).txns[loser].call
    ensures var call, stored := s.txns[id].call, Before(users, es, k).db.keys[s.txns[id].call.key];
            Next(s.db, s.txns[id], pick)
            == Refuse(if call.user == stored.user then Reply(stored.code, stored.body)
                      else Failure(Conflict(KeyOfAnotherUser)))
  {
    LegalPrefix(users, es, k);
    var s0 := Before(users, es, k);
    assert Facts(s0.db, s0.txns[loser]) && s0.db.users == users by {
      AlwaysGood(users, es[..k]);
      assert TxnGood(s0.db, s0.locks, loser, s0.txns[loser]);
    }
    RepeatIsAnswered(users, es, k, s, id, pick);
  }

  // ---------------------------------------------------------------- some call does lose

  lemma CreateLocks(db: Db, t: Txn, pick: Draw)
    requires Facts(db, t) && t.call.op.Create? && !t.pc.Produced? && !t.pc.Saved?
    ensures Wanted(db, t).None?
    ensures var plan := Next(db, t, pick);
            plan.Move? ==> plan.locks <= {RequestRow(pick.row)} && !plan.txn.pc.Saved?
  {
  }

  lemma {:induction false} CreateMoves(users: map<nat, Role>, es: seq<Event>, s: State, id: nat, c: Commit)
    returns (more: seq<Event>, s': State)
    requires Legal(users, es) && s == After(users, es) && id in s.txns && CanServe(s.db, s.txns[id], c)
    requires c.call.op.Create? && !s.txns[id].pc.Saved? && !s.txns[id].pc.Produced?
    requires Free(s.locks, RequestRow(c.draw.row), id)
    ensures Legal(users, more) && s' == After(users, more)
    ensures Nearer(s, s', id) && CanServe(s'.db, s'.txns[id], c) && !s'.txns[id].pc.Saved?
  {
    assert Facts(s.db, s.txns[id]) by {
      AlwaysGood(users, es);
      assert TxnGood(s.db, s.locks, id, s.txns[id]);
    }
    CreateLocks(s.db, s.txns[id], c.draw);
    more, s' := MoveAlong(users, es, s, id, c);
  }

  /** A creation runs up to its key if nobody has the row it inserts. */
  lemma {:induction false} RunCreate(users: map<nat, Role>, es: seq<Event>, s: State, id: nat, c: Commit)
    returns (more: seq<Event>, s': State)
    requires Legal(users, es) && s == After(users, es) && id in s.txns && CanServe(s.db, s.txns[id], c)
    requires c.call.op.Create? && !s.txns[id].pc.Saved? && Free(s.locks, RequestRow(c.draw.row), id)
    ensures Legal(users, more) && s' == After(users, more)
    ensures id in s'.txns && s'.txns == s.txns[id := s'.txns[id]] && s'.db == s.db && s'.history == s.history
    ensures CanServe(s'.db, s'.txns[id], c) && s'.txns[id].pc.Produced?
    decreases Phase(s.txns[id].pc), Loops(s.txns[id])
  {
    if s.txns[id].pc.Produced? {
      more, s' := es, s;
    } else {
      more, s' := CreateMoves(users, es, s, id, c);
      more, s' := RunCreate(users, more, s', id, c);
    }
  }

  /** Up to its key a creation holds no more than the row it inserts. */
  lemma CreateFootprint(m: Market, t: Txn, row: Row)
    requires t.call.op.Create? && !t.pc.Saved? && row in Footprint(m, t)
    ensures row == RequestRow(t.draw.row) && (t.pc.Produced? || t.pc.Saved?)
  {
  }

  /** A row that no live creation inserts is not locked before one of them stores its key. */
  lemma {:induction false} NotLocked(users: map<nat, Role>, es: seq<Event>, s: State, row: Row)
    requires Legal(users, es) && s == After(users, es)
    requires forall k :: k in s.txns ==> s.txns[k].call.op.Create? && !s.txns[k].pc.Saved?
    requires forall k :: k in s.txns && s.txns[k].pc.Produced? ==> RequestRow(s.txns[k].draw.row) != row
    ensures row !in s.locks
  {
    AlwaysGood(users, es);
    if row in s.locks {
      var k := s.locks[row];
      assert TxnGood(s.db, s.locks, k, s.txns[k]);
      CreateFootprint(s.db.market, s.txns[k], row);
    }
  }

  /** Another call begins and runs up to its key. */
  lemma {:induction false} CreateJoins(users: map<nat, Role>, es: seq<Event>, s: State, c: Commit)
    returns (more: seq<Event>, s': State, id: nat)
    requires Legal(users, es) && s == After(users, es) && Effective(s.db, c) && c.call.op.Create?
    requires forall k :: k in s.txns ==> s.txns[k].call.op.Create? && s.txns[k].pc.Produced?
    requires forall k :: k in s.txns ==> s.txns[k].draw.row != c.draw.row
    ensures Legal(users, more) && s' == After(users, more) && s'.db == s.db && s'.history == s.history
    ensures id !in s.txns && id in s'.txns && s'.txns == s.txns[id := s'.txns[id]]
    ensures CanServe(s'.db, s'.txns[id], c) && s'.txns[id].pc.Produced?
  {
    NotLocked(users, es, s, RequestRow(c.draw.row));
    more, s', id := Begins(users, es, s, c);
    more, s' := RunCreate(users, more, s', id, c);
  }

  /** Where all live calls stand before their keys, one of them can store its key and commit. */
  lemma {:induction false} CreateSaves(users: map<nat, Role>, es: seq<Event>, s: State, id: nat, c: Commit)
    returns (more: seq<Event>, s': State)
    requires Legal(users, es) && s == After(users, es) && id in s.txns && CanServe(s.db, s.txns[id], c)
    requires forall k :: k in s.txns ==> s.txns[k].call.op.Create? && s.txns[k].pc.Produced?
    ensures Legal(users, more) && s' == After(users, more) && s'.db == s.db && s'.history == s.history
    ensures id in s'.txns && s'.txns == s.txns[id := s'.txns[id]] && s'.txns[id].pc.Saved?
    ensures CanServe(s'.db, s'.txns[id], c)
  {
    NotLocked(users, es, s, KeyRow(c.call.key));
    more, s' := MoveAlong(users, es, s, id, c);
  }

  lemma {:induction false} CreateCommits(users: map<nat, Role>, es: seq<Event>, s: State, id: nat, c: Commit)
    returns (more: seq<Event>, s': State)
    requires Legal(users, es) && s == After(users, es) && id in s.txns && CanServe(s.db, s.txns[id], c)
    requires forall k :: k in s.txns ==> s.txns[k].call.op.Create? && s.txns[k].pc.Produced?
    ensures Legal(users, more) && s' == After(users, more)
    ensures s'.txns == s.txns - {id} && s'.history == s.history + [c]
  {
    var s1;
    more, s1 := CreateSaves(users, es, s, id, c);
    more, s' := Publishes(users, more, s1, id, c);
    assert s1.txns - {id} == s.txns - {id};
  }

  /** Two creations under one key, both complete: one stores the key and commits, the other is refused. */
  lemma {:induction false} CreatesRace(users: map<nat, Role>, es: seq<Event>, s: State, first: Commit, second: Commit)
    returns (more: seq<Event>, s': State, loser: nat)
    requires Legal(users, es) && s == After(users, es) && Quiet(s)
    requires Effective(s.db, first) && Effective(s.db, second) && first.draw.row != second.draw.row
    requires first.call.op.Create? && second.call.op.Create? && first.call.key == second.call.key != ""
    ensures Legal(users, more) && s' == After(users, more) && s'.history == s.history + [first]
    ensures loser in s'.txns && s'.txns[loser].call == second.call && s'.txns[loser].pc.Produced?
  {
    var winner;
    more, s', loser := CreateJoins(users, es, s, second);
    more, s', winner := CreateJoins(users, more, s', first);
    more, s' := CreateCommits(users, more, s', winner, first);
  }

  /** One creation served on empty tables stores its key for its user. */
  lemma CreateWorks(users: map<nat, Role>, c: Commit)
    requires c.call.user in users && users[c.call.user] == Client && c.call.op.Create?
    ensures Effective(EmptyDb(users), c)
    ensures c.call.key != "" ==>
              && c.call.key in Exec(EmptyDb(users), [c]).keys
              && Exec(EmptyDb(users), [c]).keys[c.call.key].user == c.call.user
  {
    assert Init([c]) == [] && Exec(EmptyDb(users), []) == EmptyDb(users);
    EffectiveParts(EmptyDb(users), c);
  }

  /** There is a run in which both look the key up and find nothing, and one is refused after all its work. */
  lemma {:induction false} SomeCallLosesItsKey(users: map<nat, Role>, u: nat, v: nat, key: string)
    returns (es: seq<Event>, s: State, loser: nat)
    requires u in users && v in users && users[u] == Client && users[v] == Client && key != ""
    ensures Legal(users, es) && s == After(users, es) && |s.history| == 1 && s.history[0].call == Call(u, key, Create)
    ensures loser in s.txns && s.txns[loser].call == Call(v, key, Create) && s.txns[loser].pc.Produced?
    ensures key in s.db.keys && s.db.keys[key].user == u
    ensures forall pick ::
              Enabled(s, Step(loser, pick)) && Next(s.db, s.txns[loser], pick) == Refuse(Failure(ServerError))
  {
    var first, second := Commit(Call(u, key, Create), Draw(1, 0, [])), Commit(Call(v, key, Create), Draw(2, 0, []));
    CreateWorks(users, first);
    CreateWorks(users, second);
    es, s, loser := CreatesRace(users, [], After(users, []), first, second);
    assert s.db == Exec(EmptyDb(users), [first]) by {
      AlwaysGood(users, es);
      assert s.history == [first];
    }
    StoredIsRefused(s, loser);
  }

  lemma StoredIsRefused(s: State, id: nat)
    requires id in s.txns && s.txns[id].pc.Produced? && s.txns[id].call.key in s.db.keys && s.txns[id].call.key != ""
    ensures forall pick :: Enabled(s, Step(id, pick)) && Next(s.db, s.txns[id], pick) == Refuse(Failure(ServerError))
  {
  }
}
