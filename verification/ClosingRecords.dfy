/** How often the log closes a negotiation, what each closing row says, and what a stale sibling list adds to it. */
module ClosingRecords {
  import opened Sequences
  import opened Tables
  import opened Negotiations
  import opened UnitOfWork
  import opened Invariants

  predicate Closing(row: AuditRow, n: nat) {
    (row.WasAccepted? || row.WasRejected? || row.WasSuperseded?) && row.negotiation == n
  }

  function Closers(log: seq<AuditRow>, n: nat): nat {
    if log == [] then 0 else Closers(Init(log), n) + if Closing(Last(log), n) then 1 else 0
  }

  predicate Terminal(m: Market, n: nat) {
    n in m.negotiations && m.negotiations[n].status != Active
  }

  lemma {:induction false} ClosersAppend(log: seq<AuditRow>, row: AuditRow, n: nat)
    ensures Closers(log + [row], n) == Closers(log, n) + if Closing(row, n) then 1 else 0
  {
    assert Init(log + [row]) == log;
  }

  lemma SupersededSnoc(siblings: seq<nat>, winner: nat)
    requires siblings != []
    ensures SupersededRows(siblings, winner)
         == SupersededRows(Init(siblings), winner) + [WasSuperseded(Last(siblings), winner)]
  {
  }

  lemma {:induction false} ClosersSuperseded(log: seq<AuditRow>, siblings: seq<nat>, winner: nat, n: nat)
    requires Distinct(siblings)
    ensures Closers(log + SupersededRows(siblings, winner), n)
         == Closers(log, n) + if n in siblings then 1 else 0
  {
    if siblings == [] {
      assert log + SupersededRows(siblings, winner) == log;
    } else {
      var rows, row := SupersededRows(Init(siblings), winner), WasSuperseded(Last(siblings), winner);
      SupersededSnoc(siblings, winner);
      assert log + SupersededRows(siblings, winner) == (log + rows) + [row];
      ClosersAppend(log + rows, row, n);
      ClosersSuperseded(log, Init(siblings), winner, n);
      assert siblings == Init(siblings) + [Last(siblings)];
      assert Last(siblings) !in Init(siblings);
    }
  }

  /** How many closing rows for `n` one operation adds. */
  lemma {:induction false} ClosersOfStep(m: Market, log: seq<AuditRow>, user: User, op: Op, draw: Draw, n: nat)
    requires DrawOk(m, op, draw) && Perform(m, user, op, draw).Ok?
    ensures var done := Perform(m, user, op, draw).value;
            Closers(log + done.rows, n) == Closers(log, n)
              + (if op.Accept? && n in draw.siblings then 1 else 0)
              + (if (op.Accept? || op.Reject?) && n == op.negotiation then 1 else 0)
  {
    var done := Perform(m, user, op, draw).value;
    if op.Accept? {
      var losing := SupersededRows(draw.siblings, op.negotiation);
      assert log + done.rows == (log + losing) + [Last(done.rows)];
      ClosersAppend(log + losing, Last(done.rows), n);
      ClosersSuperseded(log, draw.siblings, op.negotiation, n);
    } else {
      ClosersAppend(log, done.rows[0], n);
    }
  }

  // ---------------------------------------------------------------- what the rows say

  /** Each row is about rows that exist; a closing row agrees with the final state it announced. */
  ghost predicate RowOk(m: Market, row: AuditRow) {
    match row
    case RequestCreated(r, a) => r in m.requests && m.requests[r].client == a
    case OfferCreated(n, a, amount, currency) =>
      && n in m.negotiations && m.negotiations[n].supplier == a
      && var chain := Chain(m.proposals, n); chain != [] && chain[0].amount == amount && chain[0].currency == currency
    case WasCountered(n, a, amount, currency) => n in m.negotiations && Party(m, n, a)
    case WasAccepted(n, a, agreed) =>
      && n in m.negotiations && m.negotiations[n].status == Accepted && m.negotiations[n].agreed == Some(agreed)
      && Party(m, n, a) && LastActor(m.proposals, n).Some? && LastActor(m.proposals, n) != Some(a)
    case WasRejected(n, a) =>
      && n in m.negotiations && m.negotiations[n].status == Rejected
      && Party(m, n, a) && LastActor(m.proposals, n).Some? && LastActor(m.proposals, n) != Some(a)
    case WasSuperseded(s, w) =>
      && s in m.negotiations && w in m.negotiations && s != w
      && m.negotiations[s].request == m.negotiations[w].request
      && m.negotiations[s].status == Rejected && m.negotiations[w].status == Accepted
  }

  ghost predicate Party(m: Market, n: nat, user: nat)
    requires n in m.negotiations
  {
    && m.negotiations[n].request in m.requests
    && (user == m.negotiations[n].supplier || user == m.requests[m.negotiations[n].request].client)
  }

  ghost predicate RowsOk(m: Market, log: seq<AuditRow>) {
    forall i {:trigger log[i]} :: 0 <= i < |log| ==> RowOk(m, log[i])
  }

  lemma RowStays(m: Market, after: Market, row: AuditRow)
    requires RowOk(m, row) && Evolves(m, after)
    ensures RowOk(after, row)
  {
    match row {
      case RequestCreated(_, _) =>
      case OfferCreated(n, _, _, _) => assert ThreadEvolves(m, after, n);
      case WasCountered(n, _, _, _) => assert ThreadEvolves(m, after, n);
      case WasAccepted(n, _, _) => assert ThreadEvolves(m, after, n);
      case WasRejected(n, _) => assert ThreadEvolves(m, after, n);
      case WasSuperseded(s, w) => assert ThreadEvolves(m, after, s) && ThreadEvolves(m, after, w);
    }
  }

  lemma AcceptRowsOk(users: map<nat, Role>, m: Market, user: User, n: nat, draw: Draw)
    requires Inv(users, m) && Accepting(m, user, n, draw).Ok? && SiblingsOk(m.negotiations, n, draw.siblings)
    ensures RowsOk(Accepting(m, user, n, draw).value.market, Accepting(m, user, n, draw).value.rows)
  {
    var done := Accepting(m, user, n, draw).value;
    LastActorAgrees(m.proposals, n);
    forall i | 0 <= i < |done.rows| ensures RowOk(done.market, done.rows[i]) {
      if i < |draw.siblings| {
        assert draw.siblings[i] in draw.siblings;
        assert IsLosing(m.negotiations, n, draw.siblings[i]);
      }
    }
  }

  lemma NewRowsOk(users: map<nat, Role>, m: Market, user: User, op: Op, draw: Draw)
    requires Inv(users, m) && DrawOk(m, op, draw) && Perform(m, user, op, draw).Ok?
    ensures RowsOk(Perform(m, user, op, draw).value.market, Perform(m, user, op, draw).value.rows)
  {
    match op {
      case Create =>
      case Offer(_, _, _) =>
        assert ProposalIds(m.proposals, draw.row) == {};
        OfferChain(m.proposals, draw.proposal, Offering(m, user, op, draw).value.market.proposals[draw.proposal]);
      case Accept(n) => AcceptRowsOk(users, m, user, n, draw);
      case Reject(n) => LastActorAgrees(m.proposals, n);
      case Counter(_, _) =>
    }
  }

  /** In every reachable log each row tells the truth about the present tables, and a negotiation has a
      closing row exactly when it is terminal. */
  lemma {:induction false} LogTruthful(users: map<nat, Role>, cs: seq<Commit>, n: nat)
    requires Script(EmptyDb(users), cs)
    ensures var db := Exec(EmptyDb(users), cs);
            RowsOk(db.market, db.audit) && (Closers(db.audit, n) > 0 <==> Terminal(db.market, n))
  {
    if cs != [] {
      var db, c := Exec(EmptyDb(users), Init(cs)), Last(cs);
      var after := Exec(EmptyDb(users), cs);
      var user := Actor(db, c.call);
      LogTruthful(users, Init(cs), n);
      RunsKeep(users, Init(cs));
      EffectiveParts(db, c);
      NewRowsOk(users, db.market, user, c.call.op, c.draw);
      PerformEvolves(users, db.market, user, c.call.op, c.draw);
      forall i | 0 <= i < |db.audit| ensures RowOk(after.market, db.audit[i]) {
        RowStays(db.market, after.market, db.audit[i]);
      }
      ClosersOfStep(db.market, db.audit, user, c.call.op, c.draw, n);
      TerminalAfter(users, db.market, user, c.call.op, c.draw, n);
    }
  }

  /** Which threads are terminal after an operation. */
  lemma TerminalAfter(users: map<nat, Role>, m: Market, user: User, op: Op, draw: Draw, n: nat)
    requires Inv(users, m) && DrawOk(m, op, draw) && Perform(m, user, op, draw).Ok?
    ensures Terminal(Perform(m, user, op, draw).value.market, n) <==>
              || Terminal(m, n)
              || (op.Accept? && n in draw.siblings)
              || ((op.Accept? || op.Reject?) && n == op.negotiation)
    ensures (op.Accept? || op.Reject?) && n == op.negotiation ==> !Terminal(m, n) && !(op.Accept? && n in draw.siblings)
  {
    if op.Accept? || op.Reject? || op.Counter? {
      Loaded(users, m, user.id, op.negotiation);
    }
    if op.Accept? && n in m.negotiations {
      assert n in ActiveSiblings(m.negotiations, m.negotiations[op.negotiation].request, op.negotiation)
             ==> n in draw.siblings;
      assert n in draw.siblings ==> IsLosing(m.negotiations, op.negotiation, n);
    }
  }

  // ---------------------------------------------------------------- one at a time

  /** Every accept listed only siblings that were still active when it committed. */
  ghost predicate ExactRun(db: Db, cs: seq<Commit>) {
    cs == [] || (ExactRun(db, Init(cs)) && DrawExact(Exec(db, Init(cs)).market, Last(cs).call.op, Last(cs).draw))
  }

  /** When requests run one at a time, each terminal negotiation has exactly one closing row. */
  lemma {:induction false} ClosedOnce(users: map<nat, Role>, cs: seq<Commit>, n: nat)
    requires Script(EmptyDb(users), cs) && ExactRun(EmptyDb(users), cs)
    ensures Closers(Exec(EmptyDb(users), cs).audit, n) == if Terminal(Exec(EmptyDb(users), cs).market, n) then 1 else 0
  {
    if cs != [] {
      var db, c := Exec(EmptyDb(users), Init(cs)), Last(cs);
      ClosedOnce(users, Init(cs), n);
      RunsKeep(users, Init(cs));
      EffectiveParts(db, c);
      ClosersOfStep(db.market, db.audit, Actor(db, c.call), c.call.op, c.draw, n);
      TerminalAfter(users, db.market, Actor(db, c.call), c.call.op, c.draw, n);
    }
  }

  /** The log closes each terminal negotiation once and no other. */
  ghost predicate EachClosedOnce(db: Db) {
    forall n {:trigger Closers(db.audit, n)} :: Closers(db.audit, n) == if Terminal(db.market, n) then 1 else 0
  }

  /** Exactly when every sibling list was fresh is each terminal negotiation closed once in the log. */
  lemma {:induction false} ClosedOnceIffExact(users: map<nat, Role>, cs: seq<Commit>)
    requires Script(EmptyDb(users), cs)
    ensures ExactRun(EmptyDb(users), cs) <==> EachClosedOnce(Exec(EmptyDb(users), cs))
  {
    var db := Exec(EmptyDb(users), cs);
    if ExactRun(EmptyDb(users), cs) {
      forall n ensures Closers(db.audit, n) == if Terminal(db.market, n) then 1 else 0 {
        ClosedOnce(users, cs, n);
      }
    } else {
      var n := ClosedTwice(users, cs);
    }
  }

  /** A stale list closes some negotiation a second time, for good. */
  lemma {:induction false} ClosedTwice(users: map<nat, Role>, cs: seq<Commit>) returns (n: nat)
    requires Script(EmptyDb(users), cs) && !ExactRun(EmptyDb(users), cs)
    ensures Closers(Exec(EmptyDb(users), cs).audit, n) > 1
  {
    var db, c := Exec(EmptyDb(users), Init(cs)), Last(cs);
    EffectiveParts(db, c);
    if ExactRun(EmptyDb(users), Init(cs)) {
      n :| n in c.draw.siblings && !(n in db.market.negotiations && db.market.negotiations[n].status == Active);
      assert IsLosing(db.market.negotiations, c.call.op.negotiation, n);
      LogTruthful(users, Init(cs), n);
    } else {
      n := ClosedTwice(users, Init(cs));
    }
    ClosersOfStep(db.market, db.audit, Actor(db, c.call), c.call.op, c.draw, n);
  }

  // ---------------------------------------------------------------- stale sibling lists

  function StillActive(m: Market, siblings: seq<nat>): seq<nat> {
    if siblings == [] then []
    else StillActive(m, Init(siblings)) + if Terminal(m, Last(siblings)) then [] else [Last(siblings)]
  }

  lemma {:induction false} StillActiveMembers(m: Market, siblings: seq<nat>, s: nat)
    ensures s in StillActive(m, siblings) <==> s in siblings && !Terminal(m, s)
  {
    if siblings != [] {
      StillActiveMembers(m, Init(siblings), s);
      assert siblings == Init(siblings) + [Last(siblings)];
    }
  }

  lemma {:induction false} StillActiveDistinct(m: Market, siblings: seq<nat>)
    requires Distinct(siblings)
    ensures Distinct(StillActive(m, siblings))
  {
    if siblings != [] {
      StillActiveDistinct(m, Init(siblings));
      StillActiveMembers(m, Init(siblings), Last(siblings));
    }
  }

  predicate NoneTerminal(m: Market, siblings: seq<nat>) {
    siblings == [] || (NoneTerminal(m, Init(siblings)) && !Terminal(m, Last(siblings)))
  }

  /** Nothing is dropped exactly when no sibling is terminal. */
  lemma {:induction false} StillActiveLength(m: Market, siblings: seq<nat>)
    ensures |StillActive(m, siblings)| <= |siblings|
    ensures |StillActive(m, siblings)| == |siblings| <==> NoneTerminal(m, siblings)
    ensures NoneTerminal(m, siblings) ==> StillActive(m, siblings) == siblings
  {
    if siblings != [] {
      StillActiveLength(m, Init(siblings));
    }
  }

  lemma {:induction false} NoneTerminalMeans(m: Market, siblings: seq<nat>)
    ensures NoneTerminal(m, siblings) <==> forall s :: s in siblings ==> !Terminal(m, s)
  {
    if siblings != [] {
      NoneTerminalMeans(m, Init(siblings));
      assert siblings == Init(siblings) + [Last(siblings)];
      assert forall s :: s in siblings <==> s in Init(siblings) || s == Last(siblings);
    }
  }

  /** The same commit with the siblings the query would return now. */
  function Tighten(m: Market, c: Commit): Commit {
    if c.call.op.Accept? then c.(draw := c.draw.(siblings := StillActive(m, c.draw.siblings))) else c
  }

  function Tightened(db: Db, cs: seq<Commit>): seq<Commit> {
    if cs == [] then [] else Tightened(db, Init(cs)) + [Tighten(Exec(db, Init(cs)).market, Last(cs))]
  }

  /** The log without superseding rows for negotiations that were already closed. */
  function Prune(log: seq<AuditRow>): seq<AuditRow> {
    if log == [] then []
    else
      Prune(Init(log))
        + if Last(log).WasSuperseded? && Closers(Init(log), Last(log).negotiation) > 0 then [] else [Last(log)]
  }

  lemma {:induction false} PruneAppend(log: seq<AuditRow>, row: AuditRow)
    ensures Prune(log + [row])
         == Prune(log) + if row.WasSuperseded? && Closers(log, row.negotiation) > 0 then [] else [row]
  {
    assert Init(log + [row]) == log;
  }

  lemma LastIsNew(siblings: seq<nat>)
    requires Distinct(siblings) && siblings != []
    ensures Distinct(Init(siblings)) && Last(siblings) !in Init(siblings)
    ensures forall s :: s in siblings <==> s in Init(siblings) || s == Last(siblings)
  {
    assert siblings == Init(siblings) + [Last(siblings)];
  }

  lemma LogSnoc(log: seq<AuditRow>, siblings: seq<nat>, winner: nat)
    requires siblings != []
    ensures log + SupersededRows(siblings, winner)
         == (log + SupersededRows(Init(siblings), winner)) + [WasSuperseded(Last(siblings), winner)]
  {
    SupersededSnoc(siblings, winner);
  }

  lemma {:induction false} StillActiveSnoc(m: Market, siblings: seq<nat>, winner: nat)
    requires siblings != []
    ensures SupersededRows(StillActive(m, siblings), winner)
         == SupersededRows(StillActive(m, Init(siblings)), winner)
            + if Terminal(m, Last(siblings)) then [] else [WasSuperseded(Last(siblings), winner)]
  {
    if !Terminal(m, Last(siblings)) {
      SupersededSnoc(StillActive(m, siblings), winner);
      assert Init(StillActive(m, siblings)) == StillActive(m, Init(siblings));
    }
  }

  lemma {:induction false} PruneSuperseded(m: Market, log: seq<AuditRow>, siblings: seq<nat>, winner: nat)
    requires Distinct(siblings)
    requires forall s :: s in siblings ==> (Closers(log, s) > 0 <==> Terminal(m, s))
    ensures Prune(log + SupersededRows(siblings, winner))
         == Prune(log) + SupersededRows(StillActive(m, siblings), winner)
  {
    if siblings == [] {
      assert log + SupersededRows(siblings, winner) == log;
    } else {
      var rest, s := Init(siblings), Last(siblings);
      LastIsNew(siblings);
      LogSnoc(log, siblings, winner);
      PruneSuperseded(m, log, rest, winner);
      PruneAppend(log + SupersededRows(rest, winner), WasSuperseded(s, winner));
      ClosersSuperseded(log, rest, winner, s);
      StillActiveSnoc(m, siblings, winner);
    }
  }

  /** One operation and its tightened form: same tables, and the pruned log. */
  lemma {:induction false} TightenPerform(m: Market, log: seq<AuditRow>, user: User, c: Commit)
    requires DrawOk(m, c.call.op, c.draw) && Perform(m, user, c.call.op, c.draw).Ok?
    requires forall n :: Closers(log, n) > 0 <==> Terminal(m, n)
    ensures var t := Tighten(m, c);
            && t.call == c.call && DrawOk(m, t.call.op, t.draw)
            && Subject(t.call.op, t.draw) == Subject(c.call.op, c.draw)
            && Perform(m, user, t.call.op, t.draw).Ok?
            && var done, tight := Perform(m, user, c.call.op, c.draw).value, Perform(m, user, t.call.op, t.draw).value;
               tight.market == done.market && Prune(log + done.rows) == Prune(log) + tight.rows
  {
    var done := Perform(m, user, c.call.op, c.draw).value;
    if c.call.op.Accept? {
      TightenAccept(m, log, user, c);
    } else {
      PruneAppend(log, done.rows[0]);
      assert log + done.rows == log + [done.rows[0]];
    }
  }

  lemma {:induction false} TightenAccept(m: Market, log: seq<AuditRow>, user: User, c: Commit)
    requires c.call.op.Accept?
    requires DrawOk(m, c.call.op, c.draw) && Accepting(m, user, c.call.op.negotiation, c.draw).Ok?
    requires forall n :: Closers(log, n) > 0 <==> Terminal(m, n)
    ensures var n, t := c.call.op.negotiation, Tighten(m, c);
            && SiblingsOk(m.negotiations, n, t.draw.siblings)
            && Prune(log + Accepting(m, user, n, c.draw).value.rows)
               == Prune(log) + Accepting(m, user, n, t.draw).value.rows
  {
    var n := c.call.op.negotiation;
    StillActiveOk(m, n, c.draw.siblings);
    PruneAccept(m, log, c.draw.siblings, n, Last(Accepting(m, user, n, c.draw).value.rows));
  }

  lemma {:induction false} StillActiveOk(m: Market, n: nat, siblings: seq<nat>)
    requires n in m.negotiations && SiblingsOk(m.negotiations, n, siblings)
    ensures SiblingsOk(m.negotiations, n, StillActive(m, siblings))
  {
    StillActiveDistinct(m, siblings);
    forall s ensures s in StillActive(m, siblings) <==> s in siblings && !Terminal(m, s) {
      StillActiveMembers(m, siblings, s);
    }
    assert forall s :: s in StillActive(m, siblings) ==> IsLosing(m.negotiations, n, s);
  }

  lemma {:induction false} PruneAccept(m: Market, log: seq<AuditRow>, siblings: seq<nat>, winner: nat, row: AuditRow)
    requires Distinct(siblings) && row.WasAccepted?
    requires forall n :: Closers(log, n) > 0 <==> Terminal(m, n)
    ensures Prune(log + (SupersededRows(siblings, winner) + [row]))
         == Prune(log) + (SupersededRows(StillActive(m, siblings), winner) + [row])
  {
    var losing := SupersededRows(siblings, winner);
    PruneSuperseded(m, log, siblings, winner);
    PruneAppend(log + losing, row);
    assert log + (losing + [row]) == (log + losing) + [row];
  }

  lemma TightenExact(m: Market, c: Commit)
    requires DrawOk(m, c.call.op, c.draw) && (c.call.op.Accept? ==> c.call.op.negotiation in m.negotiations)
    ensures DrawExact(m, Tighten(m, c).call.op, Tighten(m, c).draw)
  {
    if c.call.op.Accept? {
      forall s | s in Tighten(m, c).draw.siblings ensures s in m.negotiations && m.negotiations[s].status == Active {
        StillActiveMembers(m, c.draw.siblings, s);
        assert IsLosing(m.negotiations, c.call.op.negotiation, s);
      }
    }
  }

  lemma {:induction false} TightenedCalls(db: Db, cs: seq<Commit>)
    ensures |Tightened(db, cs)| == |cs|
    ensures forall i :: 0 <= i < |cs| ==> Tightened(db, cs)[i].call == cs[i].call
  {
    if cs != [] {
      TightenedCalls(db, Init(cs));
    }
  }

  ghost predicate SameButLog(db: Db, tight: Db) {
    && tight.users == db.users && tight.market == db.market && tight.keys == db.keys
    && tight.audit == Prune(db.audit)
  }

  lemma TightenStep(db: Db, tight: Db, c: Commit)
    requires Effective(db, c) && SameButLog(db, tight)
    requires forall n :: Closers(db.audit, n) > 0 <==> Terminal(db.market, n)
    ensures Effective(tight, Tighten(db.market, c))
    ensures SameButLog(Handle(db, c).db, Handle(tight, Tighten(db.market, c)).db)
    ensures Handle(tight, Tighten(db.market, c)).response == Handle(db, c).response
  {
    TightenPerform(db.market, db.audit, Actor(db, c.call), c);
    EffectiveParts(db, c);
    EffectiveParts(tight, Tighten(db.market, c));
  }

  /** Any run has a one-at-a-time run with the same calls, tables and keys;
      its log is the run's log without the redundant superseding rows. */
  lemma {:induction false} OneAtATime(users: map<nat, Role>, cs: seq<Commit>)
    requires Script(EmptyDb(users), cs)
    ensures var ts := Tightened(EmptyDb(users), cs);
            && Script(EmptyDb(users), ts) && ExactRun(EmptyDb(users), ts)
            && SameButLog(Exec(EmptyDb(users), cs), Exec(EmptyDb(users), ts))
  {
    var e := EmptyDb(users);
    if cs != [] {
      var db, c := Exec(e, Init(cs)), Last(cs);
      var ts, t := Tightened(e, Init(cs)), Tighten(db.market, c);
      OneAtATime(users, Init(cs));
      forall n ensures Closers(db.audit, n) > 0 <==> Terminal(db.market, n) {
        LogTruthful(users, Init(cs), n);
      }
      TightenStep(db, Exec(e, ts), c);
      TightenExact(db.market, c);
      ScriptAppend(e, ts, t);
      assert Init(ts + [t]) == ts;
    }
  }

  /** The run's log is the one-at-a-time log exactly when no accept listed a stale sibling. */
  lemma {:induction false} SameLogIffExact(users: map<nat, Role>, cs: seq<Commit>)
    requires Script(EmptyDb(users), cs)
    ensures var log, tight := Exec(EmptyDb(users), cs).audit, Exec(EmptyDb(users), Tightened(EmptyDb(users), cs)).audit;
            && |tight| <= |log|
            && (|tight| == |log| ==> ExactRun(EmptyDb(users), cs))
            && (tight == log <==> ExactRun(EmptyDb(users), cs))
  {
    var e := EmptyDb(users);
    if cs != [] {
      var db, c := Exec(e, Init(cs)), Last(cs);
      var ts, t := Tightened(e, Init(cs)), Tighten(db.market, c);
      OneAtATime(users, Init(cs));
      OneAtATime(users, cs);
      SameLogIffExact(users, Init(cs));
      assert Init(ts + [t]) == ts;
      EffectiveParts(db, c);
      EffectiveParts(Exec(e, ts), t);
      RowCount(db.market, Actor(db, c.call), c);
    }
  }

  lemma RowCount(m: Market, user: User, c: Commit)
    requires DrawOk(m, c.call.op, c.draw) && Perform(m, user, c.call.op, c.draw).Ok?
    ensures var t := Tighten(m, c);
            && Perform(m, user, t.call.op, t.draw).Ok?
            && var rows := Perform(m, user, c.call.op, c.draw).value.rows;
               var tight := Perform(m, user, t.call.op, t.draw).value.rows;
               && |tight| <= |rows|
               && (|tight| == |rows| <==> DrawExact(m, c.call.op, c.draw))
               && (DrawExact(m, c.call.op, c.draw) ==> t == c)
  {
    if c.call.op.Accept? {
      StillActiveLength(m, c.draw.siblings);
      NoneTerminalMeans(m, c.draw.siblings);
      var siblings := c.draw.siblings;
      forall i | 0 <= i < |siblings| ensures IsLosing(m.negotiations, c.call.op.negotiation, siblings[i]) {
        assert siblings[i] in siblings;
      }
    }
  }
}
