/** The audit trail as an event log: folding it alone rebuilds every negotiation (app/services/audit.py). */
module AuditTrail {
  import opened Sequences
  import opened Tables
  import opened Negotiations
  import opened UnitOfWork
  import opened Invariants

  datatype Entry = Entry(actor: nat, amount: int, currency: string)

  /** What the log knows of a negotiation: its status, its agreement and who proposed what, in order. */
  datatype Thread = Thread(status: NegotiationStatus, agreed: Option<int>, chain: seq<Entry>)

  // ---------------------------------------------------------------- folding the log

  function Fold(threads: map<nat, Thread>, row: AuditRow): map<nat, Thread> {
    match row
    case RequestCreated(_, _) => threads
    case OfferCreated(n, a, amount, currency) => threads[n := Thread(Active, None, [Entry(a, amount, currency)])]
    case WasCountered(n, a, amount, currency) =>
      if n !in threads then threads
      else threads[n := threads[n].(chain := threads[n].chain + [Entry(a, amount, currency)])]
    case WasAccepted(n, _, amount) =>
      if n !in threads then threads else threads[n := threads[n].(status := Accepted, agreed := Some(amount))]
    case WasRejected(n, _) => Drop(threads, n)
    case WasSuperseded(n, _) => Drop(threads, n)
  }

  function Drop(threads: map<nat, Thread>, n: nat): map<nat, Thread> {
    if n !in threads then threads else threads[n := threads[n].(status := Rejected)]
  }

  function Replay(log: seq<AuditRow>): map<nat, Thread> {
    if log == [] then map[] else Fold(Replay(Init(log)), Last(log))
  }

  /** The thread shows what the tables hold for `n`: its row, and its proposals in id order. */
  ghost predicate Shows(threads: map<nat, Thread>, m: Market, n: nat) {
    && n in threads && n in m.negotiations
    && threads[n].status == m.negotiations[n].status
    && threads[n].agreed == m.negotiations[n].agreed
    && threads[n].chain == Entries(Chain(m.proposals, n))
  }

  /** The threads are exactly the negotiations in the tables. */
  ghost predicate Rebuilds(threads: map<nat, Thread>, m: Market) {
    && threads.Keys == m.negotiations.Keys
    && forall n {:trigger Shows(threads, m, n)} :: n in m.negotiations ==> Shows(threads, m, n)
  }

  function Entries(chain: seq<Proposal>): (entries: seq<Entry>)
    ensures |entries| == |chain|
  {
    if chain == [] then [] else Entries(Init(chain)) + [EntryOf(Last(chain))]
  }

  function EntryOf(p: Proposal): Entry {
    Entry(p.actor, p.amount, p.currency)
  }

  /** One entry for each proposal, in the same order. */
  lemma {:induction false} EntriesShow(chain: seq<Proposal>, i: nat)
    requires i < |chain|
    ensures Entries(chain)[i] == Entry(chain[i].actor, chain[i].amount, chain[i].currency)
  {
    if i < |chain| - 1 {
      EntriesShow(Init(chain), i);
    }
  }

  lemma {:induction false} EntriesAppend(chain: seq<Proposal>, p: Proposal)
    ensures Entries(chain + [p]) == Entries(chain) + [EntryOf(p)]
  {
    assert Init(chain + [p]) == chain;
  }

  lemma {:induction false} ReplayAppend(log: seq<AuditRow>, row: AuditRow)
    ensures Replay(log + [row]) == Fold(Replay(log), row)
  {
    assert Init(log + [row]) == log;
  }

  function Dropped(threads: map<nat, Thread>, losers: seq<nat>): map<nat, Thread> {
    map n | n in threads :: if n in losers then threads[n].(status := Rejected) else threads[n]
  }

  lemma {:induction false} ReplaySuperseded(log: seq<AuditRow>, losers: seq<nat>, winner: nat)
    ensures Replay(log + SupersededRows(losers, winner)) == Dropped(Replay(log), losers)
  {
    if losers == [] {
      assert log + SupersededRows(losers, winner) == log;
    } else {
      var row := WasSuperseded(Last(losers), winner);
      assert SupersededRows(losers, winner) == SupersededRows(Init(losers), winner) + [row];
      assert log + SupersededRows(losers, winner) == (log + SupersededRows(Init(losers), winner)) + [row];
      ReplaySuperseded(log, Init(losers), winner);
      ReplayAppend(log + SupersededRows(Init(losers), winner), row);
      assert losers == Init(losers) + [Last(losers)];
      assert forall n :: n in losers <==> n in Init(losers) || n == Last(losers);
    }
  }

  // ---------------------------------------------------------------- one operation

  lemma {:induction false} ReplayAccept(m: Market, log: seq<AuditRow>, user: User, n: nat, draw: Draw)
    requires Rebuilds(Replay(log), m)
    requires Accepting(m, user, n, draw).Ok? && SiblingsOk(m.negotiations, n, draw.siblings)
    ensures var done := Accepting(m, user, n, draw).value; Rebuilds(Replay(log + done.rows), done.market)
  {
    var done := Accepting(m, user, n, draw).value;
    var losers, losing, row := draw.siblings, SupersededRows(draw.siblings, n), Last(done.rows);
    ReplaySuperseded(log, losers, n);
    ReplayAppend(log + losing, row);
    assert log + done.rows == (log + losing) + [row];
    assert n !in losers;
    AcceptShows(Replay(log), m, done.market, n, losers, m.proposals[LastProposal(m.proposals, n).value].amount);
  }

  lemma AcceptShows(threads: map<nat, Thread>, m: Market, after: Market, n: nat, losers: seq<nat>, amount: int)
    requires Rebuilds(threads, m) && n in m.negotiations && SiblingsOk(m.negotiations, n, losers) && n !in losers
    requires after.negotiations == Settled(m.negotiations, n, amount) && after.proposals == m.proposals
    ensures n in Dropped(threads, losers)
    ensures var won := Dropped(threads, losers)[n].(status := Accepted, agreed := Some(amount));
            Rebuilds(Dropped(threads, losers)[n := won], after)
  {
    var won := Dropped(threads, losers)[n].(status := Accepted, agreed := Some(amount));
    forall k | k in m.negotiations ensures Shows(Dropped(threads, losers)[n := won], after, k) {
      assert Shows(threads, m, k);
      assert k in ActiveSiblings(m.negotiations, m.negotiations[n].request, n) ==> k in losers;
      assert k in losers ==> IsLosing(m.negotiations, n, k);
    }
  }

  lemma DropShows(threads: map<nat, Thread>, m: Market, after: Market, n: nat)
    requires Rebuilds(threads, m) && n in m.negotiations && after.proposals == m.proposals
    requires after.negotiations == m.negotiations[n := m.negotiations[n].(status := Rejected)]
    ensures Rebuilds(Drop(threads, n), after)
  {
    forall k | k in m.negotiations ensures Shows(Drop(threads, n), after, k) {
      assert Shows(threads, m, k) && Shows(threads, m, n);
    }
  }

  lemma {:induction false} ReplayCounter(m: Market, log: seq<AuditRow>, user: User, op: Op, draw: Draw)
    requires Rebuilds(Replay(log), m)
    requires op.Counter? && DrawOk(m, op, draw) && Countering(m, user, op, draw).Ok?
    ensures var done := Countering(m, user, op, draw).value; Rebuilds(Replay(log + done.rows), done.market)
  {
    var done := Countering(m, user, op, draw).value;
    ReplayAppend(log, done.rows[0]);
    CounterShows(Replay(log), m, done.market, draw.proposal, done.market.proposals[draw.proposal]);
  }

  lemma CounterShows(threads: map<nat, Thread>, m: Market, after: Market, p: nat, row: Proposal)
    requires Rebuilds(threads, m) && row.negotiation in m.negotiations
    requires p !in m.proposals && forall q :: q in ProposalIds(m.proposals, row.negotiation) ==> q < p
    requires after.negotiations == m.negotiations && after.proposals == m.proposals[p := row]
    ensures var thread := threads[row.negotiation];
            Rebuilds(threads[row.negotiation := thread.(chain := thread.chain + [EntryOf(row)])], after)
  {
    var n := row.negotiation;
    var threads' := threads[n := threads[n].(chain := threads[n].chain + [EntryOf(row)])];
    EntriesAppend(Chain(m.proposals, n), row);
    forall k | k in m.negotiations ensures Shows(threads', after, k) {
      assert Shows(threads, m, k);
      ChainInsert(m.proposals, p, row, k);
    }
  }

  lemma OfferShows(threads: map<nat, Thread>, m: Market, after: Market, n: nat, p: nat, row: Proposal)
    requires Rebuilds(threads, m) && n !in m.negotiations
    requires row.negotiation == n && p !in m.proposals && ProposalIds(m.proposals, n) == {}
    requires n in after.negotiations && after.negotiations == m.negotiations[n := after.negotiations[n]]
    requires after.negotiations[n].status == Active && after.negotiations[n].agreed == None
    requires after.proposals == m.proposals[p := row]
    ensures Rebuilds(threads[n := Thread(Active, None, [EntryOf(row)])], after)
  {
    var threads' := threads[n := Thread(Active, None, [EntryOf(row)])];
    OfferChain(m.proposals, p, row);
    EntriesAppend([], row);
    assert [] + [row] == [row];
    forall k | k in after.negotiations ensures Shows(threads', after, k) {
      if k != n {
        assert Shows(threads, m, k);
        ChainInsert(m.proposals, p, row, k);
      }
    }
  }

  lemma {:induction false} ReplayCreate(m: Market, log: seq<AuditRow>, user: User, draw: Draw)
    requires Rebuilds(Replay(log), m)
    ensures Rebuilds(Replay(log + Creating(m, user, draw).rows), Creating(m, user, draw).market)
  {
    ReplayAppend(log, RequestCreated(draw.row, user.id));
    forall n | n in m.negotiations ensures Shows(Replay(log), Creating(m, user, draw).market, n) {
      assert Shows(Replay(log), m, n);
    }
  }

  lemma {:induction false} ReplayOffer(
      users: map<nat, Role>, m: Market, log: seq<AuditRow>, user: User, op: Op, draw: Draw)
    requires LinksOk(users, m) && Rebuilds(Replay(log), m)
    requires op.Offer? && DrawOk(m, op, draw) && Offering(m, user, op, draw).Ok?
    ensures var done := Offering(m, user, op, draw).value; Rebuilds(Replay(log + done.rows), done.market)
  {
    var after := Offering(m, user, op, draw).value.market;
    assert ProposalIds(m.proposals, draw.row) == {};
    ReplayAppend(log, OfferCreated(draw.row, user.id, op.amount, op.currency));
    OfferShows(Replay(log), m, after, draw.row, draw.proposal, after.proposals[draw.proposal]);
  }

  lemma {:induction false} ReplayReject(m: Market, log: seq<AuditRow>, user: User, n: nat)
    requires Rebuilds(Replay(log), m) && Rejecting(m, user, n).Ok?
    ensures var done := Rejecting(m, user, n).value; Rebuilds(Replay(log + done.rows), done.market)
  {
    ReplayAppend(log, WasRejected(n, user.id));
    DropShows(Replay(log), m, Rejecting(m, user, n).value.market, n);
  }

  lemma {:induction false} ReplayStep(
      users: map<nat, Role>, m: Market, log: seq<AuditRow>, user: User, op: Op, draw: Draw)
    requires LinksOk(users, m) && Rebuilds(Replay(log), m)
    requires DrawOk(m, op, draw) && Perform(m, user, op, draw).Ok?
    ensures var done := Perform(m, user, op, draw).value; Rebuilds(Replay(log + done.rows), done.market)
  {
    match op {
      case Create => ReplayCreate(m, log, user, draw);
      case Offer(_, _, _) => ReplayOffer(users, m, log, user, op, draw);
      case Accept(n) => ReplayAccept(m, log, user, n, draw);
      case Reject(n) => ReplayReject(m, log, user, n);
      case Counter(_, _) => ReplayCounter(m, log, user, op, draw);
    }
  }

  /** Over any run, folding the log from nothing gives exactly the negotiations in the tables. */
  lemma {:induction false} ReplayRebuilds(users: map<nat, Role>, cs: seq<Commit>)
    requires Script(EmptyDb(users), cs)
    ensures Rebuilds(Replay(Exec(EmptyDb(users), cs).audit), Exec(EmptyDb(users), cs).market)
  {
    if cs != [] {
      var db, c := Exec(EmptyDb(users), Init(cs)), Last(cs);
      ReplayRebuilds(users, Init(cs));
      RunsKeep(users, Init(cs));
      EffectiveParts(db, c);
      ReplayStep(users, db.market, db.audit, Actor(db, c.call), c.call.op, c.draw);
    }
  }
}
