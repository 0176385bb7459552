/** What a live transaction may rely on: the facts it has read stay true while it holds its locks. */
module LockFacts {
  import opened Tables
  import opened Negotiations
  import opened UnitOfWork
  import opened RowLocks

  // ---------------------------------------------------------------- what each transaction knows

  ghost predicate OpenFor(m: Market, op: Op)
    requires op.Offer?
  {
    op.request in m.requests && m.requests[op.request].status == Open
  }

  /** The rows the siblings become: rejected, whatever they were. */
  function Losers(negotiations: map<nat, Negotiation>, siblings: seq<nat>): map<nat, Negotiation> {
    map s | s in siblings && s in negotiations :: negotiations[s].(status := Rejected)
  }

  function AcceptedRow(m: Market, n: nat, last: nat): Negotiation
    requires n in m.negotiations && last in m.proposals
  {
    m.negotiations[n].(status := Accepted, agreed := Some(m.proposals[last].amount))
  }

  /** An accept after updating its own row, the request if `closed`, and the given siblings. */
  ghost predicate Accepts(m: Market, t: Txn, closed: bool, siblings: seq<nat>) {
    && t.call.op.Accept? && LoadActive(m, t.call.user, t.call.op.negotiation).Ok?
    && var n, last := t.call.op.negotiation, LoadActive(m, t.call.user, t.call.op.negotiation).value;
       var r := m.negotiations[n].request;
       t.writes.market == Market(
         if closed then map[r := m.requests[r].(status := Closed)] else map[],
         Losers(m.negotiations, siblings)[n := AcceptedRow(m, n, last)],
         map[])
  }

  /** The effect is complete and matches the committed rows. */
  ghost predicate Complete(m: Market, user: User, t: Txn) {
    var op, draw := t.call.op, t.draw;
    match op
    case Create => draw.row !in m.requests && t.writes == Creating(Market(map[], map[], map[]), user, draw)
    case Offer(r, amount, currency) =>
      && OpenFor(m, op) && !HasOffer(m.negotiations, r, user.id)
      && draw.row !in m.negotiations && draw.proposal !in m.proposals
      && t.writes == Done(
           Market(map[], map[draw.row := Negotiation(r, user.id, Active, None)],
                  map[draw.proposal := Proposal(draw.row, user.id, user.role, OfferKind, amount, currency)]),
           [OfferCreated(draw.row, user.id, amount, currency)])
    case Reject(n) =>
      && LoadActive(m, user.id, n).Ok?
      && t.writes == Done(Market(map[], map[n := m.negotiations[n].(status := Rejected)], map[]),
                          [WasRejected(n, user.id)])
    case Counter(n, amount) =>
      && LoadActive(m, user.id, n).Ok? && DrawOk(m, op, draw)
      && var currency := m.proposals[LoadActive(m, user.id, n).value].currency;
         t.writes == Done(
           Market(map[], map[],
                  map[draw.proposal := Proposal(n, user.id, user.role, CounterKind, amount, currency)]),
           [WasCountered(n, user.id, amount, currency)])
    case Accept(n) =>
      && user.id == t.call.user && Accepts(m, t, true, draw.siblings)
      && SiblingsOk(m.negotiations, n, draw.siblings)
      && t.writes.rows == SupersededRows(draw.siblings, n)
           + [WasAccepted(n, user.id, m.proposals[LoadActive(m, user.id, n).value].amount)]
  }

  ghost predicate BodyFits(m: Market, t: Txn, body: Body) {
    var view, id := View(m, t.writes), Subject(t.call.op, t.draw);
    && (if t.call.op.Create? then id in view.requests else id in view.negotiations)
    && body == BodyOf(view, t.call.op, id)
  }

  /** What is true of the committed rows and the transaction's own writes at each point. */
  ghost predicate Facts(db: Db, t: Txn) {
    var m, op := db.market, t.call.op;
    if t.pc.Start? then t.writes == NO_WRITES else
      && Guard(db.users, t.call).None?
      && match t.pc
         case Begun => t.writes == NO_WRITES
         case OfferLocked => op.Offer? && t.writes == NO_WRITES && OpenFor(m, op)
         case OfferFree =>
           op.Offer? && t.writes == NO_WRITES && OpenFor(m, op) && !HasOffer(m.negotiations, op.request, t.call.user)
         case OfferInserted =>
           && op.Offer? && OpenFor(m, op) && !HasOffer(m.negotiations, op.request, t.call.user)
           && t.draw.row !in m.negotiations
           && t.writes == Done(
                Market(map[], map[t.draw.row := Negotiation(op.request, t.call.user, Active, None)], map[]), [])
         case NegotiationLocked =>
           !op.Create? && !op.Offer? && t.writes == NO_WRITES && op.negotiation in m.negotiations
         case Checked =>
           && !op.Create? && !op.Offer? && t.writes == NO_WRITES && op.negotiation in m.negotiations
           && MayRespond(m, t.call.user, op.negotiation)
         case MyTurn =>
           !op.Create? && !op.Offer? && t.writes == NO_WRITES && LoadActive(m, t.call.user, op.negotiation).Ok?
         case WantRequest => Accepts(m, t, false, []) && t.writes.rows == []
         case HasRequest => Accepts(m, t, true, []) && t.writes.rows == []
         case Superseding(i) =>
           && i <= |t.draw.siblings| && Accepts(m, t, true, t.draw.siblings[..i])
           && SiblingsOk(m.negotiations, op.negotiation, t.draw.siblings)
           && t.writes.rows == SupersededRows(t.draw.siblings[..i], op.negotiation)
         case Produced(body) => Complete(m, Actor(db, t.call), t) && BodyFits(m, t, body)
         case Saved(body) =>
           && Complete(m, Actor(db, t.call), t) && BodyFits(m, t, body)
           && (t.call.key == "" || t.call.key !in db.keys)
  }

  ghost predicate MayRespond(m: Market, user: nat, n: nat)
    requires n in m.negotiations
  {
    && m.negotiations[n].request in m.requests && m.negotiations[n].status == Active
    && (user == m.requests[m.negotiations[n].request].client || user == m.negotiations[n].supplier)
  }

  // ---------------------------------------------------------------- what each transaction holds

  function RequestOf(m: Market, n: nat): nat {
    if n in m.negotiations then m.negotiations[n].request else 0
  }

  function SiblingRows(siblings: seq<nat>): set<Row> {
    set s | s in siblings :: NegotiationRow(s)
  }

  /** Exactly the rows a transaction has locked when it stands at its present point. */
  function Footprint(m: Market, t: Txn): set<Row> {
    var op, draw := t.call.op, t.draw;
    match t.pc
    case Start => {}
    case Begun => {}
    case OfferLocked => if op.Offer? then {RequestRow(op.request)} else {}
    case OfferFree => if op.Offer? then {RequestRow(op.request)} else {}
    case OfferInserted => if op.Offer? then {RequestRow(op.request), NegotiationRow(draw.row)} else {}
    case Produced(_) => FullFootprint(m, t)
    case Saved(_) => FullFootprint(m, t) + if t.call.key == "" then {} else {KeyRow(t.call.key)}
    case _ => if op.Create? || op.Offer? then {} else ResponseFootprint(m, t)
  }

  function ResponseFootprint(m: Market, t: Txn): set<Row>
    requires !t.call.op.Create? && !t.call.op.Offer?
  {
    var n := t.call.op.negotiation;
    match t.pc
    case HasRequest => {NegotiationRow(n), RequestRow(RequestOf(m, n))}
    case Superseding(i) =>
      {NegotiationRow(n), RequestRow(RequestOf(m, n))}
        + SiblingRows(if i <= |t.draw.siblings| then t.draw.siblings[..i] else [])
    case _ => {NegotiationRow(n)}
  }

  function FullFootprint(m: Market, t: Txn): set<Row> {
    var draw := t.draw;
    match t.call.op
    case Create => {RequestRow(draw.row)}
    case Offer(r, _, _) => {RequestRow(r), NegotiationRow(draw.row), ProposalRow(draw.proposal)}
    case Reject(n) => {NegotiationRow(n)}
    case Counter(n, _) => {NegotiationRow(n), ProposalRow(draw.proposal)}
    case Accept(n) => {NegotiationRow(n), RequestRow(RequestOf(m, n))} + SiblingRows(draw.siblings)
  }

  ghost predicate Holds(locks: map<Row, nat>, row: Row, id: nat) {
    row in locks && locks[row] == id
  }

  ghost predicate HoldsExactly(locks: map<Row, nat>, rows: set<Row>, id: nat) {
    forall row :: Holds(locks, row, id) <==> row in rows
  }

  // ---------------------------------------------------------------- a statement keeps its own facts

  lemma CreateStep(db: Db, t: Txn, pick: Draw)
    requires Facts(db, t) && t.pc.Begun? && t.call.op.Create? && PickOk(db.market, t, pick)
    ensures var plan := Next(db, t, pick);
            plan.Move? && Facts(db, plan.txn) && Footprint(db.market, plan.txn) == Footprint(db.market, t) + plan.locks
  {
  }

  lemma OfferStep(db: Db, t: Txn, pick: Draw)
    requires Facts(db, t) && !t.pc.Start? && !t.pc.Produced? && !t.pc.Saved? && t.call.op.Offer?
    requires PickOk(db.market, t, pick) && Next(db, t, pick).Move?
    ensures var plan := Next(db, t, pick);
            Facts(db, plan.txn) && Footprint(db.market, plan.txn) == Footprint(db.market, t) + plan.locks
  {
    if t.pc.OfferInserted? {
      var draw := t.draw.(proposal := pick.proposal);
      var plan := Next(db, t, pick);
      assert plan.txn.writes.market.negotiations == t.writes.market.negotiations;
    }
  }

  lemma CheckStep(db: Db, t: Txn, pick: Draw)
    requires Facts(db, t) && (t.pc.Begun? || t.pc.NegotiationLocked? || t.pc.Checked?)
    requires !t.call.op.Offer? && !t.call.op.Create?
    requires PickOk(db.market, t, pick) && Next(db, t, pick).Move?
    ensures var plan := Next(db, t, pick);
            Facts(db, plan.txn) && Footprint(db.market, plan.txn) == Footprint(db.market, t) + plan.locks
  {
  }

  lemma RespondStep(db: Db, t: Txn, pick: Draw)
    requires Facts(db, t) && t.pc.MyTurn?
    requires PickOk(db.market, t, pick) && Next(db, t, pick).Move?
    ensures var plan := Next(db, t, pick);
            Facts(db, plan.txn) && Footprint(db.market, plan.txn) == Footprint(db.market, t) + plan.locks
  {
    assert Losers(db.market.negotiations, []) == map[];
  }

  lemma RequestStep(db: Db, t: Txn, pick: Draw)
    requires Facts(db, t) && t.pc.WantRequest?
    ensures var plan := Next(db, t, pick);
            && plan.Move? && Facts(db, plan.txn)
            && Footprint(db.market, plan.txn) == Footprint(db.market, t) + plan.locks
  {
  }

  lemma ListStep(db: Db, t: Txn, pick: Draw)
    requires Facts(db, t) && t.pc.HasRequest? && PickOk(db.market, t, pick)
    ensures var plan := Next(db, t, pick);
            && plan.Move? && Facts(db, plan.txn)
            && Footprint(db.market, plan.txn) == Footprint(db.market, t) + plan.locks
  {
    var m, n := db.market, t.call.op.negotiation;
    var r := m.negotiations[n].request;
    assert ActiveSiblings(View(m, t.writes).negotiations, r, n) == ActiveSiblings(m.negotiations, r, n);
    assert pick.siblings[..0] == [];
  }

  lemma LosersSnoc(negotiations: map<nat, Negotiation>, siblings: seq<nat>, s: nat)
    requires s in negotiations
    ensures Losers(negotiations, siblings + [s])
         == Losers(negotiations, siblings)[s := negotiations[s].(status := Rejected)]
  {
  }

  /** Writing one more sibling extends the settled rows by that sibling. */
  lemma AcceptsMore(m: Market, t: Txn, t': Txn, done: seq<nat>, s: nat)
    requires Accepts(m, t, true, done) && s in m.negotiations && s != t.call.op.negotiation
    requires t'.call == t.call
    requires t'.writes.market == t.writes.market.(
               negotiations := t.writes.market.negotiations[s := m.negotiations[s].(status := Rejected)])
    ensures Accepts(m, t', true, done + [s])
  {
    LosersSnoc(m.negotiations, done, s);
  }

  lemma SiblingStep(db: Db, t: Txn, pick: Draw)
    requires Facts(db, t) && t.pc.Superseding? && t.pc.next < |t.draw.siblings|
    ensures var plan := Next(db, t, pick);
            && plan.Move? && Facts(db, plan.txn)
            && Footprint(db.market, plan.txn) == Footprint(db.market, t) + plan.locks
  {
    var m, done, s, n := db.market, t.draw.siblings[..t.pc.next], t.draw.siblings[t.pc.next], t.call.op.negotiation;
    assert IsLosing(m.negotiations, n, s);
    assert t.draw.siblings[..t.pc.next + 1] == done + [s];
    assert SupersededRows(done + [s], n) == SupersededRows(done, n) + [WasSuperseded(s, n)];
    AcceptsMore(m, t, Next(db, t, pick).txn, done, s);
    assert SiblingRows(done + [s]) == SiblingRows(done) + {NegotiationRow(s)};
  }

  lemma AcceptStep(db: Db, t: Txn, pick: Draw)
    requires Facts(db, t) && t.pc.Superseding? && t.pc.next >= |t.draw.siblings|
    ensures var plan := Next(db, t, pick);
            && plan.Move? && Facts(db, plan.txn)
            && Footprint(db.market, plan.txn) == Footprint(db.market, t) + plan.locks
  {
    assert t.draw.siblings[..t.pc.next] == t.draw.siblings;
  }

  /** What is complete stays so when only the position moves on. */
  lemma CompleteMovesOn(m: Market, user: User, t: Txn, pc: Pc, body: Body)
    requires Complete(m, user, t) && BodyFits(m, t, body)
    ensures Complete(m, user, t.(pc := pc)) && BodyFits(m, t.(pc := pc), body)
    ensures FullFootprint(m, t.(pc := pc)) == FullFootprint(m, t)
  {
  }

  lemma SavedFacts(db: Db, t: Txn)
    requires t.pc.Saved? && Guard(db.users, t.call).None? && (t.call.key == "" || t.call.key !in db.keys)
    requires Complete(db.market, Actor(db, t.call), t) && BodyFits(db.market, t, t.pc.body)
    ensures Facts(db, t)
    ensures Footprint(db.market, t)
         == FullFootprint(db.market, t) + if t.call.key == "" then {} else {KeyRow(t.call.key)}
  {
  }

  lemma KeyStep(db: Db, t: Txn, pick: Draw)
    requires Facts(db, t) && t.pc.Produced? && Next(db, t, pick).Move?
    ensures var plan := Next(db, t, pick);
            Facts(db, plan.txn) && Footprint(db.market, plan.txn) == Footprint(db.market, t) + plan.locks
  {
    var t' := t.(pc := Saved(t.pc.body));
    assert Next(db, t, pick).txn == t';
    CompleteMovesOn(db.market, Actor(db, t.call), t, t'.pc, t.pc.body);
    SavedFacts(db, t');
  }

  /** Every statement that goes on establishes what the next point claims, and locks exactly its new rows. */
  lemma {:induction false} StepKeepsFacts(db: Db, t: Txn, pick: Draw)
    requires Facts(db, t) && PickOk(db.market, t, pick) && Next(db, t, pick).Move?
    ensures var plan := Next(db, t, pick);
            Facts(db, plan.txn) && Footprint(db.market, plan.txn) == Footprint(db.market, t) + plan.locks
  {
    match t.pc {
      case Start =>
      case Produced(_) => KeyStep(db, t, pick);
      case MyTurn => RespondStep(db, t, pick);
      case WantRequest => RequestStep(db, t, pick);
      case HasRequest => ListStep(db, t, pick);
      case Superseding(i) => LoopStep(db, t, pick);
      case Begun => FirstStep(db, t, pick);
      case NegotiationLocked => CheckStep(db, t, pick);
      case Checked => CheckStep(db, t, pick);
      case Saved(_) =>
      case _ => OfferStep(db, t, pick);
    }
  }

  lemma FirstStep(db: Db, t: Txn, pick: Draw)
    requires Facts(db, t) && t.pc.Begun? && PickOk(db.market, t, pick) && Next(db, t, pick).Move?
    ensures var plan := Next(db, t, pick);
            Facts(db, plan.txn) && Footprint(db.market, plan.txn) == Footprint(db.market, t) + plan.locks
  {
    if t.call.op.Create? {
      CreateStep(db, t, pick);
    } else if t.call.op.Offer? {
      OfferStep(db, t, pick);
    } else {
      CheckStep(db, t, pick);
    }
  }

  lemma LoopStep(db: Db, t: Txn, pick: Draw)
    requires Facts(db, t) && t.pc.Superseding?
    ensures var plan := Next(db, t, pick);
            && plan.Move? && Facts(db, plan.txn)
            && Footprint(db.market, plan.txn) == Footprint(db.market, t) + plan.locks
  {
    if t.pc.next < |t.draw.siblings| {
      SiblingStep(db, t, pick);
    } else {
      AcceptStep(db, t, pick);
    }
  }
}
