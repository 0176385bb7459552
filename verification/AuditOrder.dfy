/** The audit trail read by id. Ids are drawn when rows are inserted, so concurrent transactions may commit their
    rows in another order than that of the ids; folding by id rebuilds the same negotiations (app/services/audit.py). */
module AuditOrder {
  import opened Sequences
  import opened Tables
  import opened Negotiations
  import opened AuditTrail
  import opened RowLocks
  import opened LockFacts
  import opened Serializability
  import opened ConcurrentRuns

  // ---------------------------------------------------------------- rows whose order does not matter

  /** Two rows whose order does not matter: they are about different threads, or one supersedes the thread that
      the other counters or rejects. */
  predicate Independent(a: AuditRow, b: AuditRow) {
    || a.RequestCreated? || b.RequestCreated? || a.negotiation != b.negotiation
    || (a.WasSuperseded? && (b.WasCountered? || b.WasRejected?))
    || (b.WasSuperseded? && (a.WasCountered? || a.WasRejected?))
  }

  lemma FoldsCommute(threads: map<nat, Thread>, a: AuditRow, b: AuditRow)
    requires Independent(a, b)
    ensures Fold(Fold(threads, a), b) == Fold(Fold(threads, b), a)
  {
  }

  /** `other` has the rows of `log` in the given order, which swaps only independent ones. */
  ghost predicate Reorders(log: seq<AuditRow>, other: seq<AuditRow>, order: seq<nat>) {
    && |other| == |log| == |order| && Distinct(order)
    && (forall k :: 0 <= k < |order| ==> order[k] < |log| && other[k] == log[order[k]])
    && (forall i: nat :: i < |log| ==> i in order)
    && (forall k, l :: 0 <= k < l < |order| && order[k] > order[l] ==> Independent(log[order[l]], log[order[k]]))
  }

  function Without<T>(s: seq<T>, q: nat): seq<T>
    requires q < |s|
  {
    s[..q] + s[q + 1..]
  }

  /** Positions after position `q` is taken out. */
  function Shifted(order: seq<nat>, q: nat): seq<nat> {
    seq(|order|, k requires 0 <= k < |order| => if order[k] > q then order[k] - 1 else order[k])
  }

  /** A row that is independent of all later ones may as well be folded last. */
  lemma {:induction false} FoldLast(log: seq<AuditRow>, q: nat)
    requires q < |log| && forall i :: q < i < |log| ==> Independent(log[q], log[i])
    ensures Replay(log) == Fold(Replay(Without(log, q)), log[q])
  {
    if q == |log| - 1 {
      assert Without(log, q) == Init(log);
    } else {
      FoldLast(Init(log), q);
      FoldsCommute(Replay(Without(Init(log), q)), log[q], Last(log));
      ReplayAppend(Without(Init(log), q), Last(log));
      WithoutInit(log, q);
    }
  }

  lemma WithoutInit<T>(s: seq<T>, q: nat)
    requires q < |s| - 1
    ensures Without(s, q) == Without(Init(s), q) + [Last(s)]
  {
  }

  lemma ShiftedOrder(order: seq<nat>)
    requires order != [] && Distinct(order) && forall k :: 0 <= k < |order| ==> order[k] < |order|
    requires forall i: nat :: i < |order| ==> i in order
    ensures var shifted := Shifted(Init(order), Last(order));
            Distinct(shifted) && forall i: nat :: i < |order| - 1 ==> i in shifted
  {
    var q, shifted := Last(order), Shifted(Init(order), Last(order));
    forall i: nat | i < |order| - 1 ensures i in shifted {
      var at: nat := if i < q then i else i + 1;
      assert at in order;
      var k :| 0 <= k < |order| && order[k] == at;
      assert shifted[k] == i;
    }
  }

  lemma ShiftedReorders(log: seq<AuditRow>, other: seq<AuditRow>, order: seq<nat>)
    requires Reorders(log, other, order) && log != []
    ensures Last(order) < |log| && Last(other) == log[Last(order)]
    ensures Reorders(Without(log, Last(order)), Init(other), Shifted(Init(order), Last(order)))
  {
    var q, rest, shifted := Last(order), Without(log, Last(order)), Shifted(Init(order), Last(order));
    ShiftedOrder(order);
    forall k | 0 <= k < |shifted| ensures shifted[k] < |rest| && Init(other)[k] == rest[shifted[k]]
                                       && rest[shifted[k]] == log[order[k]] {
      assert order[k] != q;
    }
  }

  lemma LastIsIndependent(log: seq<AuditRow>, other: seq<AuditRow>, order: seq<nat>)
    requires Reorders(log, other, order) && log != []
    ensures Last(order) < |log| && forall i :: Last(order) < i < |log| ==> Independent(log[Last(order)], log[i])
  {
    forall i: nat | Last(order) < i < |log| ensures Independent(log[Last(order)], log[i]) {
      assert i in order;
      var k :| 0 <= k < |order| && order[k] == i;
    }
  }

  /** Any order that swaps only independent rows folds to the same threads. */
  lemma {:induction false} ReplayReordered(log: seq<AuditRow>, other: seq<AuditRow>, order: seq<nat>)
    requires Reorders(log, other, order)
    ensures Replay(other) == Replay(log)
  {
    if log != [] {
      ShiftedReorders(log, other, order);
      LastIsIndependent(log, other, order);
      FoldLast(log, Last(order));
      ReplayReordered(Without(log, Last(order)), Init(other), Shifted(Init(order), Last(order)));
    }
  }

  // ---------------------------------------------------------------- which rows can have their ids early

  /** A live transaction has inserted the row, or its next statement does, which may be waiting for a lock. */
  ghost predicate MayHaveId(db: Db, t: Txn, row: AuditRow) {
    row in t.writes.rows || exists pick :: Next(db, t, pick).Move? && row in Next(db, t, pick).txn.writes.rows
  }

  /** Which rows a transaction inserts, and where it stands once one of them may have an id. */
  ghost predicate Inserts(t: Txn, row: AuditRow) {
    var op, ended := t.call.op, t.pc.Produced? || t.pc.Saved?;
    match row
    case RequestCreated(_, _) => true
    case OfferCreated(n, _, _, _) => op.Offer? && n == t.draw.row && (ended || t.pc.OfferInserted?)
    case WasCountered(n, _, _, _) => op.Counter? && n == op.negotiation && (ended || t.pc.MyTurn?)
    case WasRejected(n, _) => op.Reject? && n == op.negotiation && (ended || t.pc.MyTurn?)
    case WasAccepted(n, _, _) => op.Accept? && n == op.negotiation && (ended || t.pc.Superseding?)
    case WasSuperseded(n, _) => op.Accept? && n in t.draw.siblings && (ended || t.pc.Superseding?)
  }

  lemma InsertedRow(db: Db, t: Txn, row: AuditRow)
    requires Facts(db, t) && row in t.writes.rows
    ensures Inserts(t, row)
  {
    if t.pc.Superseding? {
      assert row in SupersededRows(t.draw.siblings[..t.pc.next], t.call.op.negotiation);
    }
  }

  lemma NextRow(db: Db, t: Txn, pick: Draw, row: AuditRow)
    requires Facts(db, t) && Next(db, t, pick).Move?
    requires row in Next(db, t, pick).txn.writes.rows && row !in t.writes.rows
    ensures Inserts(t, row)
  {
  }

  /** A superseding row is about a row of the request that is locked; every other one about a thread that is. */
  lemma InserterHolds(db: Db, t: Txn, row: AuditRow)
    requires Facts(db, t) && Inserts(t, row) && !row.RequestCreated?
    ensures !row.WasSuperseded? || t.pc.Saved? ==> NegotiationRow(row.negotiation) in Footprint(db.market, t)
    ensures row.WasSuperseded? ==> row.negotiation in db.market.negotiations
    ensures row.WasSuperseded? || (row.WasAccepted? && t.pc.Saved?) ==>
              RequestRow(RequestOf(db.market, row.negotiation)) in Footprint(db.market, t)
    ensures row.OfferCreated? && t.pc.Saved? ==> row.negotiation !in db.market.negotiations
  {
    if row.WasSuperseded? {
      assert IsLosing(db.market.negotiations, t.call.op.negotiation, row.negotiation);
    }
  }

  /** When a transaction commits, its rows are independent of every row for which another live transaction may
      have drawn an id by then. So a row has a smaller id than one committed before it only if they are independent. */
  lemma {:induction false} EarlyIdsAreIndependent(
      users: map<nat, Role>, es: seq<Event>, s: State, a: nat, b: nat, row: AuditRow, early: AuditRow)
    requires Legal(users, es) && s == After(users, es) && a in s.txns && b in s.txns && a != b
    requires s.txns[a].pc.Saved? && row in s.txns[a].writes.rows && MayHaveId(s.db, s.txns[b], early)
    ensures Independent(row, early)
  {
    AlwaysGood(users, es);
    var t, u := s.txns[a], s.txns[b];
    assert TxnGood(s.db, s.locks, a, t) && TxnGood(s.db, s.locks, b, u);
    InsertedRow(s.db, t, row);
    if early in u.writes.rows {
      InsertedRow(s.db, u, early);
    } else {
      var pick :| Next(s.db, u, pick).Move? && early in Next(s.db, u, pick).txn.writes.rows;
      NextRow(s.db, u, pick, early);
    }
    HoldersAreIndependent(s, a, b, row, early);
  }

  lemma HoldersAreIndependent(s: State, a: nat, b: nat, row: AuditRow, early: AuditRow)
    requires a in s.txns && TxnGood(s.db, s.locks, a, s.txns[a]) && s.txns[a].pc.Saved? && Inserts(s.txns[a], row)
    requires b in s.txns && TxnGood(s.db, s.locks, b, s.txns[b]) && Inserts(s.txns[b], early) && a != b
    ensures Independent(row, early)
  {
    if !row.RequestCreated? && !early.RequestCreated? && row.negotiation == early.negotiation {
      InserterHolds(s.db, s.txns[a], row);
      InserterHolds(s.db, s.txns[b], early);
      assert if early.WasSuperseded? then Holds(s.locks, RequestRow(RequestOf(s.db.market, early.negotiation)), b)
             else Holds(s.locks, NegotiationRow(early.negotiation), b);
    }
  }

  /** In every interleaving, folding the committed log in any order that swaps only independent rows, the order of
      the ids among them, rebuilds the committed negotiations. */
  lemma {:induction false} ReplayInIdOrder(
      users: map<nat, Role>, es: seq<Event>, other: seq<AuditRow>, order: seq<nat>)
    requires Legal(users, es) && Reorders(After(users, es).db.audit, other, order)
    ensures Rebuilds(Replay(other), After(users, es).db.market)
  {
    ReplayUnderConcurrency(users, es);
    ReplayReordered(After(users, es).db.audit, other, order);
  }
}
