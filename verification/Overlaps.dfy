/** What happened while a transaction was live: runs of the concurrent machine looked at from one of its events. */
module Overlaps {
  import opened Sequences
  import opened Tables
  import opened Negotiations
  import opened UnitOfWork
  import opened RowLocks
  import opened SoloRuns

  /** The state before the j-th event. */
  function Before(users: map<nat, Role>, es: seq<Event>, j: nat): State
    requires j <= |es|
  {
    After(users, es[..j])
  }

  /** The call that an event commits, if it is a commit. */
  function CommitOf(s: State, e: Event): Option<Call> {
    if e.Step? && e.id in s.txns && s.txns[e.id].pc.Saved? then Some(s.txns[e.id].call) else None
  }

  /** The history grows by exactly the calls that events commit. */
  lemma CommitsAreRecorded(s: State, e: Event)
    ensures match CommitOf(s, e)
            case None => Apply(s, e).history == s.history && Apply(s, e).db == s.db
            case Some(call) =>
              && Apply(s, e).history == s.history + [Commit(call, s.txns[e.id].draw)]
              && Apply(s, e).db == Published(s.db, s.txns[e.id], s.txns[e.id].pc.body)
              && Apply(s, e).txns == s.txns - {e.id} && e.id in Apply(s, e).answers
  {
  }

  /** Whoever is live stays live or answers, and no id is live twice. */
  lemma IdsOfEvent(s: State, e: Event, id: nat)
    requires Enabled(s, e)
    ensures id in s.answers ==> id in Apply(s, e).answers
    ensures id in s.txns ==> id in Apply(s, e).txns || id in Apply(s, e).answers
    ensures id in Apply(s, e).txns ==> id !in s.answers || id in s.txns
    ensures id in Apply(s, e).txns && id in Apply(s, e).answers ==> id in s.txns && id in s.answers
  {
  }

  lemma {:induction false} Prefixes(users: map<nat, Role>, es: seq<Event>, j: nat)
    requires es != [] && j < |es|
    ensures Before(users, Init(es), j) == Before(users, es, j)
    ensures Before(users, es, |es|) == After(users, es)
    ensures Before(users, es, |es| - 1) == After(users, Init(es))
  {
    assert Init(es)[..j] == es[..j] && es[..|es|] == es && es[..|es| - 1] == Init(es);
  }

  /** Some event of the run did this in the state it found. */
  ghost predicate Happened(users: map<nat, Role>, es: seq<Event>, what: (State, Event) -> bool) {
    exists j {:trigger Before(users, es, j)} :: 0 <= j < |es| && what(Before(users, es, j), es[j])
  }

  lemma {:induction false} HappenedLater(users: map<nat, Role>, es: seq<Event>, what: (State, Event) -> bool)
    requires es != []
    ensures Happened(users, es, what) <==> Happened(users, Init(es), what) || what(After(users, Init(es)), Last(es))
  {
    forall j | 0 <= j < |es| ensures j < |es| - 1 ==> Before(users, Init(es), j) == Before(users, es, j) {
      Prefixes(users, es, j);
    }
    Prefixes(users, es, 0);
    if Happened(users, Init(es), what) {
      var j :| 0 <= j < |Init(es)| && what(Before(users, Init(es), j), Init(es)[j]);
      assert what(Before(users, es, j), es[j]);
    }
    if Happened(users, es, what) {
      var j :| 0 <= j < |es| && what(Before(users, es, j), es[j]);
      assert j < |es| - 1 ==> what(Before(users, Init(es), j), Init(es)[j]);
    }
    assert what(Before(users, es, |es| - 1), es[|es| - 1]) <==> what(After(users, Init(es)), Last(es));
  }

  lemma {:induction false} LegalPrefix(users: map<nat, Role>, es: seq<Event>, k: nat)
    requires Legal(users, es) && k <= |es|
    ensures Legal(users, es[..k])
  {
    if k == |es| {
      assert es[..k] == es;
    } else {
      LegalPrefix(users, Init(es), k);
      assert Init(es)[..k] == es[..k];
    }
  }

  // ---------------------------------------------------------------- the life of a transaction

  /** Ids are not used again: what is live has not answered, and what has been live is live or has answered. */
  lemma {:induction false} SeenStays(users: map<nat, Role>, es: seq<Event>, j: nat, id: nat)
    requires Legal(users, es) && j <= |es|
    ensures id in After(users, es).txns ==> id !in After(users, es).answers
    ensures id in Before(users, es, j).txns ==> id in After(users, es).txns || id in After(users, es).answers
    ensures id in Before(users, es, j).answers ==> id in After(users, es).answers
  {
    if es != [] {
      Prefixes(users, es, if j < |es| then j else 0);
      SeenStays(users, Init(es), if j < |es| then j else 0, id);
      IdsOfEvent(After(users, Init(es)), Last(es), id);
    }
  }

  /** A live transaction has the call it began with, and has only ever come nearer its end. */
  lemma {:induction false} PhaseFalls(users: map<nat, Role>, es: seq<Event>, j: nat, id: nat)
    requires Legal(users, es) && j <= |es|
    requires id in Before(users, es, j).txns && id in After(users, es).txns
    ensures var t, t' := Before(users, es, j).txns[id], After(users, es).txns[id];
            t'.call == t.call && Phase(t'.pc) <= Phase(t.pc)
  {
    if j == |es| {
      assert es[..j] == es;
    } else {
      Prefixes(users, es, j);
      SeenStays(users, Init(es), j, id);
      PhaseFalls(users, Init(es), j, id);
      EventKeepsCall(After(users, Init(es)), Last(es), id);
    }
  }

  lemma EventKeepsCall(s: State, e: Event, id: nat)
    requires Enabled(s, e) && id in s.txns && id in Apply(s, e).txns
    ensures var t, t' := s.txns[id], Apply(s, e).txns[id]; t'.call == t.call && Phase(t'.pc) <= Phase(t.pc)
  {
    if e.Step? && e.id == id && Next(s.db, s.txns[id], e.pick).Move? {
      StatementsRunOut(s.db, s.txns[id], e.pick);
      StepKeepsCall(s.db, s.txns[id], e.pick);
    }
  }

  lemma StepKeepsCall(db: Db, t: Txn, pick: Draw)
    requires Next(db, t, pick).Move?
    ensures Next(db, t, pick).txn.call == t.call
  {
  }

  /** A transaction that commits ends: it is not live afterwards. */
  lemma {:induction false} CommitterEnds(users: map<nat, Role>, es: seq<Event>, j: nat)
    requires Legal(users, es) && j < |es| && CommitOf(Before(users, es, j), es[j]).Some?
    ensures es[j].id !in After(users, es).txns
  {
    assert Init(es[..j + 1]) == es[..j] && Last(es[..j + 1]) == es[j];
    SeenStays(users, es, j + 1, es[j].id);
  }
}
