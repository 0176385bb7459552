/** When the sibling list of an accept goes stale: exactly when a listed sibling is rejected between the query
    and its update (app/services/negotiation.py). This ties `ExactRun`, which reads a history, to the interleaving. */
module SiblingGaps {
  import opened Sequences
  import opened Tables
  import opened Negotiations
  import opened UnitOfWork
  import opened Invariants
  import opened ClosingRecords
  import opened RowLocks
  import opened LockFacts
  import opened LockStability
  import opened Serializability
  import opened SoloRuns
  import opened Overlaps

  /** An accept that has fetched its sibling list. */
  ghost predicate Listed(s: State, id: nat) {
    id in s.txns && s.txns[id].call.op.Accept? && Phase(s.txns[id].pc) <= 5
  }

  /** A reject of `sib` committed while the accept `id` stood in its sibling loop. */
  ghost predicate RejectedInTheLoop(users: map<nat, Role>, es: seq<Event>, id: nat, sib: nat) {
    Happened(users, es, RejectsInTheLoop(id, sib))
  }

  ghost function RejectsInTheLoop(id: nat, sib: nat): (State, Event) -> bool {
    (s: State, e: Event) =>
      id in s.txns && s.txns[id].pc.Superseding? && CommitOf(s, e).Some? && CommitOf(s, e).value.op == Reject(sib)
  }

  // ---------------------------------------------------------------- what a listing accept holds

  lemma ListedHolds(db: Db, t: Txn, sib: nat)
    requires Facts(db, t) && t.call.op.Accept? && Phase(t.pc) <= 5 && sib in t.draw.siblings
    ensures var n := t.call.op.negotiation;
            n in db.market.negotiations && IsLosing(db.market.negotiations, n, sib)
    ensures RequestRow(RequestOf(db.market, sib)) in Footprint(db.market, t)
    ensures !t.pc.Superseding? ==> NegotiationRow(sib) in Footprint(db.market, t)
  {
    assert IsLosing(db.market.negotiations, t.call.op.negotiation, sib);
  }

  /** Who commits an end of `sib` holds its request, or commits a reject and holds its row. */
  lemma EnderHolds(db: Db, t: Txn, sib: nat)
    requires Facts(db, t) && t.pc.Saved?
    requires t.call.op == Reject(sib) || (t.call.op.Accept? && (sib == t.call.op.negotiation || sib in t.draw.siblings))
    ensures if t.call.op.Reject? then NegotiationRow(sib) in Footprint(db.market, t)
            else RequestRow(RequestOf(db.market, sib)) in Footprint(db.market, t)
  {
    if t.call.op.Accept? && sib in t.draw.siblings {
      assert IsLosing(db.market.negotiations, t.call.op.negotiation, sib);
    }
  }

  /** Two transactions cannot hold the same row. */
  lemma HeldOnce(s: State, a: nat, b: nat, row: Row)
    requires a in s.txns && b in s.txns && TxnGood(s.db, s.locks, a, s.txns[a]) && TxnGood(s.db, s.locks, b, s.txns[b])
    requires row in Footprint(s.db.market, s.txns[a]) && row in Footprint(s.db.market, s.txns[b])
    ensures a == b
  {
    assert Holds(s.locks, row, a) && Holds(s.locks, row, b);
  }

  /** While an accept has its list, only a reject can end a listed sibling, and only during the loop. */
  lemma OnlyRejectsEnd(users: map<nat, Role>, s: State, id: nat, k: nat, sib: nat)
    requires Good(users, s) && Listed(s, id) && sib in s.txns[id].draw.siblings && k in s.txns && k != id
    requires s.txns[k].pc.Saved?
    requires var call, draw := s.txns[k].call, s.txns[k].draw;
             call.op == Reject(sib) || (call.op.Accept? && (sib == call.op.negotiation || sib in draw.siblings))
    ensures s.txns[k].call.op == Reject(sib) && s.txns[id].pc.Superseding?
  {
    var t, u := s.txns[id], s.txns[k];
    assert TxnGood(s.db, s.locks, id, t) && TxnGood(s.db, s.locks, k, u);
    ListedHolds(s.db, t, sib);
    EnderHolds(s.db, u, sib);
    if u.call.op.Accept? {
      HeldOnce(s, id, k, RequestRow(RequestOf(s.db.market, sib)));
    } else if !t.pc.Superseding? {
      HeldOnce(s, id, k, NegotiationRow(sib));
    }
  }

  /** Which threads a commit ends. */
  lemma CommitEnds(users: map<nat, Role>, s: State, k: nat, sib: nat)
    requires Good(users, s) && k in s.txns && s.txns[k].pc.Saved?
    ensures var t := s.txns[k];
            Terminal(Published(s.db, t, t.pc.body).market, sib)
            <==> || Terminal(s.db.market, sib) || t.call.op == Reject(sib)
                 || (t.call.op.Accept? && (sib == t.call.op.negotiation || sib in t.draw.siblings))
  {
    var t := s.txns[k];
    RunsKeep(users, s.history);
    assert Facts(s.db, t) by {
      assert TxnGood(s.db, s.locks, k, t);
    }
    PublishIsHandle(s.db, t);
    EffectiveParts(s.db, Commit(t.call, t.draw));
    TerminalAfter(users, s.db.market, Actor(s.db, t.call), t.call.op, t.draw, sib);
  }

  // ---------------------------------------------------------------- a list goes stale

  /** The query itself returns only active siblings. */
  lemma ListIsFresh(db: Db, t: Txn, pick: Draw, sib: nat)
    requires Facts(db, t) && t.call.op.Accept? && Phase(t.pc) > 5 && PickOk(db.market, t, pick)
    requires Next(db, t, pick).Move? && Phase(Next(db, t, pick).txn.pc) <= 5
    requires sib in Next(db, t, pick).txn.draw.siblings
    ensures !Terminal(db.market, sib)
  {
    var m, n := db.market, t.call.op.negotiation;
    assert t.pc.HasRequest?;
    assert ActiveSiblings(View(m, t.writes).negotiations, m.negotiations[n].request, n)
        == ActiveSiblings(m.negotiations, m.negotiations[n].request, n);
  }

  lemma ListStays(db: Db, t: Txn, pick: Draw)
    requires Next(db, t, pick).Move? && t.call.op.Accept? && Phase(t.pc) <= 5
    ensures Next(db, t, pick).txn.draw == t.draw
  {
  }

  /** Before the query the accept has not been in its loop. */
  lemma {:induction false} NotYetListed(users: map<nat, Role>, es: seq<Event>, id: nat, sib: nat)
    requires Legal(users, es) && id in After(users, es).txns && Phase(After(users, es).txns[id].pc) > 5
    ensures !RejectedInTheLoop(users, es, id, sib)
  {
    forall j | 0 <= j < |es| ensures !RejectsInTheLoop(id, sib)(Before(users, es, j), es[j]) {
      if id in Before(users, es, j).txns {
        PhaseFalls(users, es, j, id);
      }
    }
  }

  /** One event more: the sibling has ended now if it had before or this event is such a reject. */
  lemma {:induction false} ListedSibling(users: map<nat, Role>, s: State, e: Event, id: nat, sib: nat)
    requires Good(users, s) && Enabled(s, e) && Listed(s, id) && id in Apply(s, e).txns
    requires sib in s.txns[id].draw.siblings
    ensures Terminal(Apply(s, e).db.market, sib)
       <==> Terminal(s.db.market, sib) || RejectsInTheLoop(id, sib)(s, e)
  {
    CommitsAreRecorded(s, e);
    if CommitOf(s, e).Some? {
      CommitEnds(users, s, e.id, sib);
      var op := s.txns[e.id].call.op;
      if op == Reject(sib) || (op.Accept? && (sib == op.negotiation || sib in s.txns[e.id].draw.siblings)) {
        OnlyRejectsEnd(users, s, id, e.id, sib);
      }
    }
  }

  /** A listed sibling has ended if and only if a reject of it committed while the accept stood in its loop. */
  lemma {:induction false} StaleIffRejected(users: map<nat, Role>, es: seq<Event>, id: nat, sib: nat)
    requires Legal(users, es) && Listed(After(users, es), id) && sib in After(users, es).txns[id].draw.siblings
    ensures Terminal(After(users, es).db.market, sib) <==> RejectedInTheLoop(users, es, id, sib)
  {
    var s, e := After(users, Init(es)), Last(es);
    AlwaysGood(users, Init(es));
    HappenedLater(users, es, RejectsInTheLoop(id, sib));
    EventKeepsCall(s, e, id);
    if Phase(s.txns[id].pc) > 5 {
      NotYetListed(users, Init(es), id, sib);
      QueryIsFresh(users, s, e, id, sib);
    } else {
      EventKeepsList(s, e, id);
      StaleIffRejected(users, Init(es), id, sib);
      ListedSibling(users, s, e, id, sib);
    }
  }

  lemma EventKeepsList(s: State, e: Event, id: nat)
    requires Enabled(s, e) && Listed(s, id) && id in Apply(s, e).txns
    ensures Apply(s, e).txns[id].draw == s.txns[id].draw
  {
    if e.Step? && e.id == id && Next(s.db, s.txns[id], e.pick).Move? {
      ListStays(s.db, s.txns[id], e.pick);
    }
  }

  /** The event that fetches the list leaves its siblings active. */
  lemma QueryIsFresh(users: map<nat, Role>, s: State, e: Event, id: nat, sib: nat)
    requires Good(users, s) && Enabled(s, e) && id in s.txns && Phase(s.txns[id].pc) > 5
    requires Listed(Apply(s, e), id) && sib in Apply(s, e).txns[id].draw.siblings
    ensures !Terminal(Apply(s, e).db.market, sib) && !RejectsInTheLoop(id, sib)(s, e)
  {
    CommitsAreRecorded(s, e);
    EventKeepsCall(s, e, id);
    assert Facts(s.db, s.txns[id]) by {
      assert TxnGood(s.db, s.locks, id, s.txns[id]);
    }
    ListIsFresh(s.db, s.txns[id], e.pick, sib);
  }

  // ---------------------------------------------------------------- over whole runs

  /** The event commits an accept, one of whose listed siblings was rejected during its loop. */
  ghost predicate CommitsStale(users: map<nat, Role>, es: seq<Event>, e: Event) {
    var s := After(users, es);
    && CommitOf(s, e).Some? && CommitOf(s, e).value.op.Accept?
    && exists sib :: sib in s.txns[e.id].draw.siblings && RejectedInTheLoop(users, es, e.id, sib)
  }

  /** In no accept's loop was a listed sibling rejected. */
  ghost predicate NoGaps(users: map<nat, Role>, es: seq<Event>) {
    es == [] || (NoGaps(users, Init(es)) && !CommitsStale(users, Init(es), Last(es)))
  }

  /** The list a commit used was exact if and only if none of it was rejected during the loop. */
  lemma {:induction false} ExactIffNotStale(users: map<nat, Role>, es: seq<Event>, e: Event)
    requires Legal(users, es) && CommitOf(After(users, es), e).Some?
    ensures var s := After(users, es);
            DrawExact(s.db.market, s.txns[e.id].call.op, s.txns[e.id].draw) <==> !CommitsStale(users, es, e)
  {
    var s := After(users, es);
    var t := s.txns[e.id];
    if t.call.op.Accept? {
      assert Facts(s.db, t) by {
        AlwaysGood(users, es);
        assert TxnGood(s.db, s.locks, e.id, t);
      }
      forall sib | sib in t.draw.siblings
        ensures sib in s.db.market.negotiations
        ensures s.db.market.negotiations[sib].status == Active <==> !RejectedInTheLoop(users, es, e.id, sib)
      {
        ListedHolds(s.db, t, sib);
        StaleIffRejected(users, es, e.id, sib);
      }
    }
  }

  /** A history is exact if and only if no reject of a listed sibling fell into the loop of a committed accept. */
  lemma {:induction false} ExactIffNoGaps(users: map<nat, Role>, es: seq<Event>)
    requires Legal(users, es)
    ensures ExactRun(EmptyDb(users), After(users, es).history) <==> NoGaps(users, es)
  {
    if es != [] {
      var s, e := After(users, Init(es)), Last(es);
      ExactIffNoGaps(users, Init(es));
      CommitsAreRecorded(s, e);
      if CommitOf(s, e).Some? {
        ExactIffNotStale(users, Init(es), e);
        ExactSnoc(users, s.history, Commit(s.txns[e.id].call, s.txns[e.id].draw));
        AlwaysGood(users, Init(es));
      }
    }
  }

  lemma {:induction false} ExactSnoc(users: map<nat, Role>, cs: seq<Commit>, c: Commit)
    ensures ExactRun(EmptyDb(users), cs + [c])
       <==> ExactRun(EmptyDb(users), cs) && DrawExact(Exec(EmptyDb(users), cs).market, c.call.op, c.draw)
  {
    assert Init(cs + [c]) == cs;
  }

  /** In every interleaving the committed log closes each terminal negotiation once, and no other, if and only if
      no reject of a listed sibling fell into the loop of an accept that committed. */
  lemma {:induction false} ClosedOnceIffNoGaps(users: map<nat, Role>, es: seq<Event>)
    requires Legal(users, es)
    ensures EachClosedOnce(After(users, es).db) <==> NoGaps(users, es)
  {
    AlwaysGood(users, es);
    ExactIffNoGaps(users, es);
    ClosedOnceIffExact(users, After(users, es).history);
  }
}
