/** Who can wait for whom: every cycle of lock waits is two accepts on sibling negotiations of one request,
    and a live system can always go on, at worst after aborting one of such a pair. */
module Deadlock {
  import opened Ids
  import opened Tables
  import opened Negotiations
  import opened RowLocks
  import opened LockFacts
  import opened Serializability

  // ---------------------------------------------------------------- who waits while holding

  /** Only an accept ever waits for a row while it holds one; an insert of a key may also have to wait. */
  lemma {:induction false} OnlyAcceptsHoldAndWait(users: map<nat, Role>, es: seq<Event>, s: State, id: nat)
    requires Legal(users, es) && s == After(users, es)
    requires id in s.txns && Blocker(s, id).Some?
    requires Wanted(s.db, s.txns[id]) != Some(KeyRow(s.txns[id].call.key))
    requires exists row :: Holds(s.locks, row, id)
    ensures s.txns[id].call.op.Accept? && (s.txns[id].pc.WantRequest? || s.txns[id].pc.Superseding?)
  {
    AlwaysGood(users, es);
    assert TxnGood(s.db, s.locks, id, s.txns[id]);
  }

  lemma KeyOnlyWhenSaved(m: Market, t: Txn, key: string)
    requires KeyRow(key) in Footprint(m, t)
    ensures t.pc.Saved?
  {
  }

  /** Whoever holds a key that is not yet committed has only to commit. */
  lemma KeyHolderCommits(users: map<nat, Role>, s: State, id: nat, key: string)
    requires Good(users, s) && id in s.txns && Holds(s.locks, KeyRow(key), id)
    ensures s.txns[id].pc.Saved? && Blocker(s, id).None?
  {
    assert HoldsExactly(s.locks, Footprint(s.db.market, s.txns[id]), id) by {
      assert TxnGood(s.db, s.locks, id, s.txns[id]);
    }
    KeyOnlyWhenSaved(s.db.market, s.txns[id], key);
  }

  /** Two accepts on siblings: `a` has its own row and wants the request that `b` has;
      `b` wants to reject the row that `a` has. */
  ghost predicate DeadPair(s: State, a: nat, b: nat) {
    && a in s.txns && b in s.txns && a != b
    && var ta, tb := s.txns[a], s.txns[b];
       && ta.call.op.Accept? && tb.call.op.Accept? && ta.call.op.negotiation != tb.call.op.negotiation
       && RequestOf(s.db.market, ta.call.op.negotiation) == RequestOf(s.db.market, tb.call.op.negotiation)
       && ta.pc.WantRequest? && tb.pc.Superseding?
       && Blocker(s, a) == Some(b) && Blocker(s, b) == Some(a)
  }

  /** The request row an accept waits for is held by a transaction that, if it waits too, is in its sibling loop. */
  lemma RequestHolder(users: map<nat, Role>, s: State, a: nat, b: nat)
    requires Good(users, s) && a in s.txns && s.txns[a].pc.WantRequest? && Blocker(s, a) == Some(b)
    ensures b in s.txns
    ensures Blocker(s, b).Some? ==> s.txns[b].pc.Superseding? || s.txns[b].pc.Produced?
  {
    var ta := s.txns[a];
    assert TxnGood(s.db, s.locks, a, ta);
    var row := Wanted(s.db, ta).value;
    assert Holds(s.locks, row, b);
    assert TxnGood(s.db, s.locks, b, s.txns[b]);
    assert row in Footprint(s.db.market, s.txns[b]);
  }

  /** Every negotiation an accept has locked in its loop belongs to the request it has locked. */
  lemma LoopHoldsRequest(db: Db, t: Txn, n: nat)
    requires Facts(db, t) && t.pc.Superseding? && n in db.market.negotiations
    requires NegotiationRow(n) in Footprint(db.market, t)
    ensures RequestRow(RequestOf(db.market, n)) in Footprint(db.market, t)
  {
    if n in t.draw.siblings {
      assert IsLosing(db.market.negotiations, t.call.op.negotiation, n);
    }
  }

  /** Who has a committed negotiation row locked, waits for a row and does not have its request:
      the accept of that negotiation, waiting for that request. */
  lemma RowHolder(db: Db, t: Txn, n: nat)
    requires Facts(db, t) && n in db.market.negotiations && NegotiationRow(n) in Footprint(db.market, t)
    requires Wanted(db, t).Some? && !t.pc.Produced?
    requires RequestRow(RequestOf(db.market, n)) !in Footprint(db.market, t)
    ensures t.pc.WantRequest? && t.call.op.Accept? && t.call.op.negotiation == n
    ensures Wanted(db, t) == Some(RequestRow(RequestOf(db.market, n)))
  {
    if t.pc.Superseding? {
      LoopHoldsRequest(db, t, n);
    }
  }

  /** In its loop an accept holds its request and wants a sibling of its own negotiation on that request. */
  lemma LoopHolds(db: Db, t: Txn)
    requires Facts(db, t) && t.pc.Superseding? && Wanted(db, t).Some?
    ensures t.call.op.Accept? && t.pc.next < |t.draw.siblings|
    ensures RequestRow(RequestOf(db.market, t.call.op.negotiation)) in Footprint(db.market, t)
    ensures IsLosing(db.market.negotiations, t.call.op.negotiation, t.draw.siblings[t.pc.next])
  {
  }

  /** The sibling row an accept waits for is held, if its holder waits for a row too, by an accept of that
      sibling which waits for the request. */
  lemma SiblingHolder(users: map<nat, Role>, s: State, a: nat, b: nat)
    requires Good(users, s) && b in s.txns && s.txns[b].pc.Superseding? && Blocker(s, b) == Some(a)
    ensures a in s.txns
    ensures Blocker(s, a).Some? ==> s.txns[a].pc.Produced? || DeadPair(s, a, b)
  {
    var m, tb := s.db.market, s.txns[b];
    assert TxnGood(s.db, s.locks, b, tb);
    LoopHolds(s.db, tb);
    var sib, r := tb.draw.siblings[tb.pc.next], RequestOf(m, tb.call.op.negotiation);
    assert Holds(s.locks, NegotiationRow(sib), a) && Holds(s.locks, RequestRow(r), b);
    var ta := s.txns[a];
    assert TxnGood(s.db, s.locks, a, ta);
    if Blocker(s, a).Some? && !ta.pc.Produced? {
      RowHolder(s.db, ta, sib);
    }
  }

  /** A transaction that waits for a key waits for one that does not wait. */
  lemma KeyWaiterEndsTheChain(users: map<nat, Role>, s: State, id: nat)
    requires Good(users, s) && id in s.txns && s.txns[id].pc.Produced? && Blocker(s, id).Some?
    ensures Blocker(s, id).value in s.txns && Blocker(s, Blocker(s, id).value).None?
  {
    assert Holds(s.locks, KeyRow(s.txns[id].call.key), Blocker(s, id).value);
    KeyHolderCommits(users, s, Blocker(s, id).value, s.txns[id].call.key);
  }

  // ---------------------------------------------------------------- following the waits

  /** The transaction `k` waits away from `id`. */
  function Follow(s: State, id: nat, k: nat): Option<nat> {
    if k == 0 then Some(id)
    else match Follow(s, id, k - 1)
      case None => None
      case Some(x) => if x in s.txns then Blocker(s, x) else None
  }

  lemma {:induction false} FollowAdd(s: State, id: nat, i: nat, j: nat)
    requires Follow(s, id, i).Some?
    ensures Follow(s, id, i + j) == Follow(s, Follow(s, id, i).value, j)
  {
    if j > 0 {
      FollowAdd(s, id, i, j - 1);
    }
  }

  lemma {:induction false} FollowPrefix(s: State, id: nat, i: nat, k: nat)
    requires i <= k && Follow(s, id, k).Some?
    ensures Follow(s, id, i).Some?
  {
    if i < k {
      FollowPrefix(s, id, i, k - 1);
    }
  }

  /** A transaction that is waited for, waits, and waits for a waiting one is an accept past its own row. */
  lemma MiddleOfChain(users: map<nat, Role>, s: State, x: nat, y: nat)
    requires Good(users, s) && x in s.txns && Blocker(s, x) == Some(y)
    requires y in s.txns && Blocker(s, y).Some?
    requires Blocker(s, y).value in s.txns && Blocker(s, Blocker(s, y).value).Some?
    ensures s.txns[y].pc.WantRequest? || s.txns[y].pc.Superseding?
  {
    if s.txns[y].pc.Produced? {
      KeyWaiterEndsTheChain(users, s, y);
    } else {
      assert Holds(s.locks, Wanted(s.db, s.txns[x]).value, y);
      assert TxnGood(s.db, s.locks, y, s.txns[y]);
    }
  }

  /** A wait that goes on for five steps meets a deadlocked pair in the first two. */
  lemma LongChain(users: map<nat, Role>, s: State, id: nat) returns (a: nat, b: nat)
    requires Good(users, s) && Follow(s, id, 5).Some?
    ensures DeadPair(s, a, b) && (Follow(s, id, 1) == Some(b) || Follow(s, id, 2) == Some(b))
  {
    FollowPrefix(s, id, 4, 5);
    FollowPrefix(s, id, 3, 5);
    FollowPrefix(s, id, 2, 5);
    FollowPrefix(s, id, 1, 5);
    var u, v, w := Follow(s, id, 1).value, Follow(s, id, 2).value, Follow(s, id, 3).value;
    MiddleOfChain(users, s, id, u);
    MiddleOfChain(users, s, u, v);
    MiddleOfChain(users, s, v, w);
    if s.txns[u].pc.Superseding? {
      SiblingHolder(users, s, v, u);
      a, b := v, u;
    } else {
      RequestHolder(users, s, u, v);
      SiblingHolder(users, s, w, v);
      a, b := w, v;
    }
  }

  lemma {:induction false} PairAlternates(s: State, a: nat, b: nat, k: nat)
    requires DeadPair(s, a, b)
    ensures Follow(s, b, k) == Some(if k % 2 == 0 then b else a)
  {
    if k > 0 {
      PairAlternates(s, a, b, k - 1);
    }
  }

  lemma {:induction false} CycleRepeats(s: State, id: nat, k: nat, times: nat)
    requires Follow(s, id, k) == Some(id)
    ensures Follow(s, id, times * k) == Some(id)
  {
    if times > 0 {
      CycleRepeats(s, id, k, times - 1);
      FollowAdd(s, id, (times - 1) * k, k);
      assert times * k == (times - 1) * k + k;
    }
  }

  /** From one step before the pair, the waits only ever meet the pair again. */
  lemma {:induction false} EntersThePair(s: State, a: nat, b: nat, id: nat, i: nat, k: nat)
    requires DeadPair(s, a, b) && Follow(s, id, i) == Some(b) && i <= k
    ensures Follow(s, id, k) == Some(a) || Follow(s, id, k) == Some(b)
  {
    FollowAdd(s, id, i, k - i);
    PairAlternates(s, a, b, k - i);
  }

  /** Every cycle of waits is exactly one deadlocked pair. */
  lemma {:induction false} CyclesArePairs(users: map<nat, Role>, es: seq<Event>, s: State, id: nat, k: nat)
    requires Legal(users, es) && s == After(users, es)
    requires k > 0 && Follow(s, id, k) == Some(id)
    ensures Follow(s, id, 1).Some? && Follow(s, id, 2) == Some(id)
    ensures DeadPair(s, id, Follow(s, id, 1).value) || DeadPair(s, Follow(s, id, 1).value, id)
  {
    AlwaysGood(users, es);
    CycleRepeats(s, id, k, 5);
    FollowPrefix(s, id, 5, 5 * k);
    var a, b := LongChain(users, s, id);
    CycleRepeats(s, id, k, 2);
    EntersThePair(s, a, b, id, if Follow(s, id, 1) == Some(b) then 1 else 2, 2 * k);
    assert id == a || id == b;
    assert Follow(s, id, 0) == Some(id);
    assert Follow(s, id, 1) == Some(if id == a then b else a);
  }

  // ---------------------------------------------------------------- progress

  /** Some id that no row has and no transaction holds. */
  lemma FreshId(used: set<nat>) returns (unused: nat)
    ensures forall x :: x in used ==> x < unused
  {
    if used == {} {
      unused := 0;
    } else {
      unused := Max(used) + 1;
    }
  }

  /** What a statement waits for it locks, if it goes on at all. */
  lemma WaitsForWhatItLocks(db: Db, t: Txn, pick: Draw)
    requires Facts(db, t) && Wanted(db, t).Some? && Next(db, t, pick).Move?
    ensures Wanted(db, t).value in Next(db, t, pick).locks
  {
  }

  /** A statement locks at most the row it waited for and the rows it inserts. */
  lemma PlanLocks(db: Db, t: Txn, pick: Draw, row: Row)
    requires Next(db, t, pick).Move? && row in Next(db, t, pick).locks
    ensures Wanted(db, t) == Some(row)
         || row in {RequestRow(pick.row), NegotiationRow(pick.row), ProposalRow(pick.proposal)}
  {
  }

  /** A pick with ids above all committed ones is legal, and so is listing the active siblings by id. */
  lemma PickAbove(m: Market, t: Txn, pick: Draw)
    requires forall x :: x in m.requests || x in m.negotiations ==> x < pick.row
    requires forall p :: p in m.proposals ==> p < pick.proposal
    requires t.pc.HasRequest? && !t.call.op.Create? && !t.call.op.Offer? ==>
               pick.siblings == Asc(ActiveSiblings(View(m, t.writes).negotiations,
                                                   RequestOf(m, t.call.op.negotiation), t.call.op.negotiation))
    ensures PickOk(m, t, pick)
  {
    if t.pc.HasRequest? && !t.call.op.Create? && !t.call.op.Offer? {
      AscLists(ActiveSiblings(View(m, t.writes).negotiations,
                              RequestOf(m, t.call.op.negotiation), t.call.op.negotiation));
    }
  }

  lemma ChoiceExists(users: map<nat, Role>, s: State, id: nat) returns (pick: Draw)
    requires Good(users, s) && id in s.txns && Blocker(s, id).None?
    ensures Enabled(s, Step(id, pick))
  {
    var m, t := s.db.market, s.txns[id];
    var rows := set row | row in s.locks && !row.KeyRow? :: row.id;
    var unused := FreshId(rows + m.requests.Keys + m.negotiations.Keys + m.proposals.Keys);
    var n := if t.call.op.Create? || t.call.op.Offer? then 0 else t.call.op.negotiation;
    pick := Draw(unused, unused, Asc(ActiveSiblings(View(m, t.writes).negotiations, RequestOf(m, n), n)));
    PickAbove(m, t, pick);
    var plan := Next(s.db, t, pick);
    if plan.Move? {
      forall row | row in plan.locks ensures Free(s.locks, row, id) {
        PlanLocks(s.db, t, pick, row);
        assert row in s.locks && !row.KeyRow? ==> row.id in rows;
      }
    }
  }

  /** Aborting the transaction somebody waits for ends that wait. */
  lemma AbortFrees(users: map<nat, Role>, s: State, waiter: nat, holder: nat)
    requires Good(users, s) && waiter in s.txns && holder in s.txns && Blocker(s, waiter) == Some(holder)
    ensures CanStep(Apply(s, Abort(holder)), waiter)
  {
    EventKeeps(users, s, Abort(holder));
    var pick := ChoiceExists(users, Apply(s, Abort(holder)), waiter);
  }

  ghost predicate CanStep(s: State, id: nat) {
    exists pick :: Enabled(s, Step(id, pick))
  }

  ghost predicate Waits(s: State, id: nat) {
    id in s.txns && Blocker(s, id).Some? && Blocker(s, id).value in s.txns
  }

  lemma {:induction false} FollowForever(s: State, id: nat, k: nat)
    requires id in s.txns && forall x {:trigger Waits(s, x)} :: x in s.txns ==> Waits(s, x)
    ensures Follow(s, id, k).Some? && Follow(s, id, k).value in s.txns
  {
    if k > 0 {
      FollowForever(s, id, k - 1);
      assert Waits(s, Follow(s, id, k - 1).value);
    }
  }

  /** When everybody waits, following the waits from anyone meets a deadlocked pair. */
  lemma AllWaiting(users: map<nat, Role>, s: State, id: nat) returns (a: nat, b: nat)
    requires Good(users, s) && id in s.txns
    requires forall x :: x in s.txns ==> Blocker(s, x).Some?
    ensures DeadPair(s, a, b)
  {
    FollowForever(s, id, 5);
    a, b := LongChain(users, s, id);
  }

  /** Whenever transactions are live, one of them can step; or two of them are a deadlocked pair,
      and aborting either lets the other step. */
  lemma {:induction false} Progress(users: map<nat, Role>, es: seq<Event>, s: State)
    requires Legal(users, es) && s == After(users, es) && s.txns != map[]
    ensures (exists id :: CanStep(s, id))
         || (exists a, b :: DeadPair(s, a, b) && CanStep(Apply(s, Abort(b)), a) && CanStep(Apply(s, Abort(a)), b))
  {
    AlwaysGood(users, es);
    if id :| id in s.txns && Blocker(s, id).None? {
      var pick := ChoiceExists(users, s, id);
      assert CanStep(s, id);
    } else {
      var id :| id in s.txns;
      var a, b := AllWaiting(users, s, id);
      AbortFrees(users, s, a, b);
      AbortFrees(users, s, b, a);
    }
  }
}
