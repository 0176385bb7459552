/** The service under concurrency: one step per SQL statement, with PostgreSQL's row locks.
    READ COMMITTED: a statement sees the latest committed rows and its own transaction's writes.
    A row lock (SELECT ... FOR UPDATE, an update, or an insert) is exclusive and lasts until commit or abort.
    Any live transaction may be aborted at any time, which drops all its writes (app/database.py). */
module RowLocks {
  import opened Sequences
  import opened Tables
  import opened Negotiations
  import opened UnitOfWork

  datatype Row = RequestRow(id: nat) | NegotiationRow(id: nat) | ProposalRow(id: nat) | KeyRow(key: string)

  /** Where a transaction stands, named after what it has just done. */
  datatype Pc =
    | Start
    | Begun                 // authenticated, key looked up and not found
    | OfferLocked           // request row locked, seen open
    | OfferFree             // no negotiation of this supplier seen
    | OfferInserted         // negotiation row inserted
    | NegotiationLocked     // negotiation row locked
    | Checked               // participant and active
    | MyTurn                // last proposal is the other party's
    | WantRequest           // own row updated to accepted, about to lock the request
    | HasRequest            // request row locked and closed
    | Superseding(next: nat) // sibling list fetched, `next` of them updated
    | Produced(body: Body)  // effect complete, response built
    | Saved(body: Body)     // key row inserted, about to commit

  /** `writes` holds the rows the transaction has inserted or updated, and its audit rows. */
  datatype Txn = Txn(call: Call, pc: Pc, draw: Draw, writes: Done)

  /** What the next statement does: raise, go on after locking some rows, or commit. */
  datatype Plan = Refuse(response: Response) | Move(txn: Txn, locks: set<Row>) | Publish(body: Body)

  datatype Answer = Answer(call: Call, response: Response)

  datatype State = State(
    db: Db,                    // committed rows
    locks: map<Row, nat>,      // row to the transaction that locks it
    txns: map<nat, Txn>,       // live transactions
    history: seq<Commit>,      // commits, in commit order
    answers: map<nat, Answer>) // what finished transactions answered

  const NO_WRITES := Done(Market(map[], map[], map[]), [])

  function View(m: Market, writes: Done): Market {
    Market(m.requests + writes.market.requests,
           m.negotiations + writes.market.negotiations,
           m.proposals + writes.market.proposals)
  }

  // ---------------------------------------------------------------- statements

  /** A statement that meets a missing row where the program expects one raises an unhandled error. */
  const CRASH := Refuse(Failure(ServerError))

  function Raise(reason: Reason): Plan {
    Refuse(Failure(Conflict(reason)))
  }

  /** The statement a transaction executes next, on committed rows `db`. */
  function Next(db: Db, t: Txn, pick: Draw): Plan {
    match t.pc
    case Start =>
      (match Admit(db, t.call)
       case Some(response) => Refuse(response)
       case None => Move(t.(pc := Begun), {}))
    case Produced(body) =>
      if t.call.key == "" then Move(t.(pc := Saved(body)), {})
      else if t.call.key in db.keys then CRASH
      else Move(t.(pc := Saved(body)), {KeyRow(t.call.key)})
    case Saved(body) => Publish(body)
    case _ =>
      if t.call.user !in db.users then CRASH
      else if t.call.op.Create? then NextCreate(Actor(db, t.call), t, pick)
      else if t.call.op.Offer? then NextOffer(db.market, Actor(db, t.call), t, pick)
      else NextResponse(db.market, Actor(db, t.call), t, pick)
  }

  function Produce(m: Market, t: Txn, draw: Draw, writes: Done, locks: set<Row>): Plan {
    var view, id := View(m, writes), Subject(t.call.op, draw);
    if (if t.call.op.Create? then id in view.requests else id in view.negotiations)
    then Move(t.(pc := Produced(BodyOf(view, t.call.op, id)), draw := draw, writes := writes), locks)
    else CRASH
  }

  function NextCreate(user: User, t: Txn, pick: Draw): Plan {
    var m := Market(map[], map[], map[]);
    Produce(m, t, pick, Creating(m, user, pick), {RequestRow(pick.row)})
  }

  function NextOffer(m: Market, user: User, t: Txn, pick: Draw): Plan
    requires t.call.op.Offer?
  {
    var op := t.call.op;
    match t.pc
    case Begun =>
      if op.request !in m.requests then Refuse(Failure(NotFound))
      else if m.requests[op.request].status != Open then Raise(RequestNotOpen)
      else Move(t.(pc := OfferLocked), {RequestRow(op.request)})
    case OfferLocked =>
      if HasOffer(m.negotiations, op.request, user.id) then Raise(DuplicateOffer)
      else Move(t.(pc := OfferFree), {})
    case OfferFree =>
      var row := Negotiation(op.request, user.id, Active, None);
      Move(t.(pc := OfferInserted, draw := pick, writes := Done(Market(map[], map[pick.row := row], map[]), [])),
           {NegotiationRow(pick.row)})
    case OfferInserted =>
      var offer := Proposal(t.draw.row, user.id, user.role, OfferKind, op.amount, op.currency);
      var draw := t.draw.(proposal := pick.proposal);
      Produce(m, t, draw,
              Done(t.writes.market.(proposals := map[pick.proposal := offer]),
                   [OfferCreated(draw.row, user.id, op.amount, op.currency)]),
              {ProposalRow(pick.proposal)})
    case _ => CRASH
  }

  function NextResponse(m: Market, user: User, t: Txn, pick: Draw): Plan
    requires !t.call.op.Create? && !t.call.op.Offer?
  {
    var n := t.call.op.negotiation;
    if n !in m.negotiations then Refuse(Failure(NotFound))
    else if t.pc.Begun? then Move(t.(pc := NegotiationLocked), {NegotiationRow(n)})
    else if m.negotiations[n].request !in m.requests then CRASH
    else match t.pc
      case NegotiationLocked =>
        if user.id != m.requests[m.negotiations[n].request].client && user.id != m.negotiations[n].supplier
        then Refuse(Failure(Forbidden))
        else if m.negotiations[n].status != Active then Raise(AlreadyTerminal)
        else Move(t.(pc := Checked), {})
      case Checked =>
        (match LastProposal(m.proposals, n)
         case None => Raise(NoProposals)
         case Some(p) =>
           if m.proposals[p].actor == user.id then Raise(NotYourTurn) else Move(t.(pc := MyTurn), {}))
      case MyTurn =>
        (match LastProposal(m.proposals, n)
         case None => Raise(NoProposals)
         case Some(p) => Respond(m, user, t, pick, m.proposals[p]))
      case WantRequest =>
        var r := m.negotiations[n].request;
        Move(t.(pc := HasRequest,
                writes := t.writes.(market := t.writes.market.(
                  requests := map[r := m.requests[r].(status := Closed)]))),
             {RequestRow(r)})
      case HasRequest => Move(t.(pc := Superseding(0), draw := pick), {})
      case Superseding(i) => Supersede(m, user, t, i)
      case _ => CRASH
  }

  /** The effect of a response on its own row, once it is known to be the user's turn. */
  function Respond(m: Market, user: User, t: Txn, pick: Draw, last: Proposal): Plan
    requires !t.call.op.Create? && !t.call.op.Offer? && t.call.op.negotiation in m.negotiations
  {
    var n := t.call.op.negotiation;
    var row := m.negotiations[n];
    var op := t.call.op;
    if op.Reject? then
      Produce(m, t, pick,
              Done(Market(map[], map[n := row.(status := Rejected)], map[]), [WasRejected(n, user.id)]), {})
    else if op.Counter? then
      var counter := Proposal(n, user.id, user.role, CounterKind, op.amount, last.currency);
      Produce(m, t, pick,
              Done(Market(map[], map[], map[pick.proposal := counter]),
                   [WasCountered(n, user.id, op.amount, last.currency)]),
              {ProposalRow(pick.proposal)})
    else
      var accepted := row.(status := Accepted, agreed := Some(last.amount));
      Move(t.(pc := WantRequest, writes := Done(Market(map[], map[n := accepted], map[]), [])), {})
  }

  /** One turn of the sibling loop, which writes `rejected` without reading the row again; then the last row. */
  function Supersede(m: Market, user: User, t: Txn, i: nat): Plan
    requires !t.call.op.Create? && !t.call.op.Offer?
  {
    var n, w := t.call.op.negotiation, t.writes;
    if i < |t.draw.siblings| then
      var s := t.draw.siblings[i];
      if s !in m.negotiations then CRASH
      else
        var row := m.negotiations[s].(status := Rejected);
        Move(t.(pc := Superseding(i + 1),
                writes := Done(w.market.(negotiations := w.market.negotiations[s := row]),
                               w.rows + [WasSuperseded(s, n)])),
             {NegotiationRow(s)})
    else if n in w.market.negotiations && w.market.negotiations[n].agreed.Some? then
      Produce(m, t, t.draw,
              w.(rows := w.rows + [WasAccepted(n, user.id, w.market.negotiations[n].agreed.value)]), {})
    else CRASH
  }

  // ---------------------------------------------------------------- waiting and choosing

  /** The committed row, or the key, that the next statement must lock before it can even read. */
  function Wanted(db: Db, t: Txn): Option<Row> {
    var op := t.call.op;
    match t.pc
    case Begun =>
      if op.Create? then None
      else if op.Offer? then (if op.request in db.market.requests then Some(RequestRow(op.request)) else None)
      else (if op.negotiation in db.market.negotiations then Some(NegotiationRow(op.negotiation)) else None)
    case WantRequest =>
      if !op.Create? && !op.Offer? && op.negotiation in db.market.negotiations
      then Some(RequestRow(db.market.negotiations[op.negotiation].request)) else None
    case Superseding(i) => if i < |t.draw.siblings| then Some(NegotiationRow(t.draw.siblings[i])) else None
    case Produced(_) => if t.call.key != "" && t.call.key !in db.keys then Some(KeyRow(t.call.key)) else None
    case _ => None
  }

  /** What the database may choose for the next statement. */
  ghost predicate PickOk(m: Market, t: Txn, pick: Draw) {
    match t.pc
    case Begun => t.call.op.Create? ==> pick.row !in m.requests
    case OfferFree => pick.row !in m.negotiations
    case OfferInserted => pick.proposal !in m.proposals
    case MyTurn =>
      t.call.op.Counter? ==>
        pick.proposal !in m.proposals
        && forall p :: p in ProposalIds(m.proposals, t.call.op.negotiation) ==> p < pick.proposal
    case HasRequest =>
      var op, view := t.call.op, View(m, t.writes);
      !op.Create? && !op.Offer? && op.negotiation in m.negotiations ==>
        && Distinct(pick.siblings)
        && forall s :: s in pick.siblings
             <==> s in ActiveSiblings(view.negotiations, m.negotiations[op.negotiation].request, op.negotiation)
    case _ => true
  }

  ghost predicate Free(locks: map<Row, nat>, row: Row, id: nat) {
    row in locks ==> locks[row] == id
  }

  ghost predicate AllFree(locks: map<Row, nat>, rows: set<Row>, id: nat) {
    forall row :: row in rows ==> Free(locks, row, id)
  }

  /** The transaction that holds the row `id` wants, if another one does. */
  function Blocker(s: State, id: nat): Option<nat>
    requires id in s.txns
  {
    match Wanted(s.db, s.txns[id])
    case None => None
    case Some(row) => if row in s.locks && s.locks[row] != id then Some(s.locks[row]) else None
  }

  // ---------------------------------------------------------------- the machine

  datatype Event = Begin(id: nat, call: Call) | Step(id: nat, pick: Draw) | Abort(id: nat)

  ghost predicate Enabled(s: State, e: Event) {
    match e
    case Begin(id, _) => id !in s.txns && id !in s.answers
    case Abort(id) => id in s.txns
    case Step(id, pick) =>
      && id in s.txns
      && PickOk(s.db.market, s.txns[id], pick)
      && Blocker(s, id).None?
      && var plan := Next(s.db, s.txns[id], pick);
         plan.Move? ==> AllFree(s.locks, plan.locks, id)
  }

  function Locked(locks: map<Row, nat>, rows: set<Row>, id: nat): map<Row, nat> {
    map row | row in locks.Keys + rows :: if row in rows then id else locks[row]
  }

  function Released(locks: map<Row, nat>, id: nat): map<Row, nat> {
    map row | row in locks && locks[row] != id :: locks[row]
  }

  function Finish(s: State, id: nat, response: Response): State
    requires id in s.txns
  {
    s.(locks := Released(s.locks, id), txns := s.txns - {id},
       answers := s.answers[id := Answer(s.txns[id].call, response)])
  }

  function Published(db: Db, t: Txn, body: Body): Db {
    Committed(db, t.call, Done(View(db.market, t.writes), t.writes.rows), body)
  }

  function Apply(s: State, e: Event): State {
    match e
    case Begin(id, call) => s.(txns := s.txns[id := Txn(call, Start, Draw(0, 0, []), NO_WRITES)])
    case Abort(id) => if id in s.txns then Finish(s, id, Failure(ServerError)) else s
    case Step(id, pick) => if id in s.txns then Advance(s, id, pick) else s
  }

  function Advance(s: State, id: nat, pick: Draw): State
    requires id in s.txns
  {
    var t := s.txns[id];
    match Next(s.db, t, pick)
    case Refuse(response) => Finish(s, id, response)
    case Move(t', rows) => s.(locks := Locked(s.locks, rows, id), txns := s.txns[id := t'])
    case Publish(body) =>
      Finish(s.(db := Published(s.db, t, body), history := s.history + [Commit(t.call, t.draw)]),
             id, Reply(StatusCode(t.call.op), body))
  }

  /** Runs start from empty tables and take any events that are enabled, in any order. */
  function After(users: map<nat, Role>, es: seq<Event>): State {
    if es == [] then State(EmptyDb(users), map[], map[], [], map[])
    else Apply(After(users, Init(es)), Last(es))
  }

  ghost predicate Legal(users: map<nat, Role>, es: seq<Event>) {
    es == [] || (Legal(users, Init(es)) && Enabled(After(users, Init(es)), Last(es)))
  }
}
