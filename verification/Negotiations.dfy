/** Reference semantics of app/services/negotiation.py: what each operation means for the tables,
    stated without loops, locks or flushes. `Sessions` and `RowLocks` are proved against it. */
module Negotiations {
  import opened Ids
  import opened Tables

  datatype Op =
    | Create
    | Offer(request: nat, amount: int, currency: string)
    | Accept(negotiation: nat)
    | Reject(negotiation: nat)
    | Counter(negotiation: nat, amount: int)

  /** What the database chooses for an operation: the id of the row it inserts, the id of its proposal,
      and the siblings that the query of `accept` returned, in the order it returned them. */
  datatype Draw = Draw(row: nat, proposal: nat, siblings: seq<nat>)

  // ---------------------------------------------------------------- queries

  function ProposalIds(proposals: map<nat, Proposal>, n: nat): set<nat> {
    set p | p in proposals && proposals[p].negotiation == n
  }

  function LastProposal(proposals: map<nat, Proposal>, n: nat): Option<nat> {
    var ids := ProposalIds(proposals, n);
    if ids == {} then None else Some(Max(ids))
  }

  function Rows(proposals: map<nat, Proposal>, ids: seq<nat>): (rows: seq<Proposal>)
    requires forall p :: p in ids ==> p in proposals
    ensures |rows| == |ids|
  {
    if ids == [] then [] else Rows(proposals, ids[..|ids| - 1]) + [proposals[ids[|ids| - 1]]]
  }

  /** The relationship `Negotiation.proposals`: the rows of one thread in id order. */
  function Chain(proposals: map<nat, Proposal>, n: nat): seq<Proposal> {
    AscLists(ProposalIds(proposals, n));
    Rows(proposals, Asc(ProposalIds(proposals, n)))
  }

  function LastActor(proposals: map<nat, Proposal>, n: nat): Option<nat> {
    var chain := Chain(proposals, n);
    if chain == [] then None else Some(chain[|chain| - 1].actor)
  }

  function ActiveSiblings(negotiations: map<nat, Negotiation>, r: nat, winner: nat): set<nat> {
    set s | s in negotiations && negotiations[s].request == r && negotiations[s].status == Active && s != winner
  }

  predicate HasOffer(negotiations: map<nat, Negotiation>, r: nat, supplier: nat) {
    exists n :: n in negotiations && negotiations[n].request == r && negotiations[n].supplier == supplier
  }

  // ---------------------------------------------------------------- operations

  /** What a successful operation leaves: the tables, and the audit rows it recorded. */
  datatype Done = Done(market: Market, rows: seq<AuditRow>)

  function Creating(m: Market, user: User, draw: Draw): Done {
    Done(m.(requests := m.requests[draw.row := ProductRequest(user.id, Open)]), [RequestCreated(draw.row, user.id)])
  }

  function Offering(m: Market, user: User, op: Op, draw: Draw): Result<Done>
    requires op.Offer?
  {
    if op.request !in m.requests then Err(NotFound)
    else if m.requests[op.request].status != Open then Err(Conflict(RequestNotOpen))
    else if HasOffer(m.negotiations, op.request, user.id) then Err(Conflict(DuplicateOffer))
    else
      var row := Negotiation(op.request, user.id, Active, None);
      var offer := Proposal(draw.row, user.id, user.role, OfferKind, op.amount, op.currency);
      Ok(Done(
        m.(negotiations := m.negotiations[draw.row := row], proposals := m.proposals[draw.proposal := offer]),
        [OfferCreated(draw.row, user.id, op.amount, op.currency)]))
  }

  /** Which proposal the user may respond to. A dangling request id is an unhandled error. */
  function LoadActive(m: Market, user: nat, n: nat): Result<nat> {
    if n !in m.negotiations then Err(NotFound)
    else if m.negotiations[n].request !in m.requests then Err(ServerError)
    else if user != m.requests[m.negotiations[n].request].client && user != m.negotiations[n].supplier
    then Err(Forbidden)
    else if m.negotiations[n].status != Active then Err(Conflict(AlreadyTerminal))
    else match LastProposal(m.proposals, n)
      case None => Err(Conflict(NoProposals))
      case Some(p) => if m.proposals[p].actor == user then Err(Conflict(NotYourTurn)) else Ok(p)
  }

  /** The negotiations after `n` wins: it is accepted at `amount`, its active siblings are rejected. */
  function Settled(negotiations: map<nat, Negotiation>, n: nat, amount: int): map<nat, Negotiation>
    requires n in negotiations
  {
    var r := negotiations[n].request;
    map k | k in negotiations ::
      if k == n then negotiations[k].(status := Accepted, agreed := Some(amount))
      else if negotiations[k].request == r && negotiations[k].status == Active
      then negotiations[k].(status := Rejected)
      else negotiations[k]
  }

  function SupersededRows(siblings: seq<nat>, winner: nat): seq<AuditRow> {
    seq(|siblings|, i requires 0 <= i < |siblings| => WasSuperseded(siblings[i], winner))
  }

  function Accepting(m: Market, user: User, n: nat, draw: Draw): Result<Done> {
    match LoadActive(m, user.id, n)
    case Err(e) => Err(e)
    case Ok(last) =>
      var r, amount := m.negotiations[n].request, m.proposals[last].amount;
      Ok(Done(
        m.(requests := m.requests[r := m.requests[r].(status := Closed)],
           negotiations := Settled(m.negotiations, n, amount)),
        SupersededRows(draw.siblings, n) + [WasAccepted(n, user.id, amount)]))
  }

  function Rejecting(m: Market, user: User, n: nat): Result<Done> {
    match LoadActive(m, user.id, n)
    case Err(e) => Err(e)
    case Ok(_) => Ok(Done(
      m.(negotiations := m.negotiations[n := m.negotiations[n].(status := Rejected)]),
      [WasRejected(n, user.id)]))
  }

  function Countering(m: Market, user: User, op: Op, draw: Draw): Result<Done>
    requires op.Counter?
  {
    match LoadActive(m, user.id, op.negotiation)
    case Err(e) => Err(e)
    case Ok(last) =>
      var currency := m.proposals[last].currency;
      var row := Proposal(op.negotiation, user.id, user.role, CounterKind, op.amount, currency);
      Ok(Done(
        m.(proposals := m.proposals[draw.proposal := row]),
        [WasCountered(op.negotiation, user.id, op.amount, currency)]))
  }

  function Perform(m: Market, user: User, op: Op, draw: Draw): Result<Done> {
    match op
    case Create => Ok(Creating(m, user, draw))
    case Offer(_, _, _) => Offering(m, user, op, draw)
    case Accept(n) => Accepting(m, user, n, draw)
    case Reject(n) => Rejecting(m, user, n)
    case Counter(_, _) => Countering(m, user, op, draw)
  }

  /** The row the response model shows: the inserted one, or the negotiation that was answered. */
  function Subject(op: Op, draw: Draw): nat {
    if op.Create? || op.Offer? then draw.row else op.negotiation
  }

  /** The response model, read from the tables the operation left. */
  function BodyOf(m: Market, op: Op, id: nat): Body
    requires if op.Create? then id in m.requests else id in m.negotiations
  {
    if op.Create? then RequestBody(id, m.requests[id])
    else NegotiationBody(id, m.negotiations[id], LastActor(m.proposals, id))
  }

  // ---------------------------------------------------------------- what the database may choose

  ghost predicate Distinct(s: seq<nat>) {
    forall i, j :: 0 <= i < j < |s| ==> s[i] != s[j]
  }

  ghost predicate IsLosing(negotiations: map<nat, Negotiation>, n: nat, s: nat)
    requires n in negotiations
  {
    && s in negotiations && s != n
    && negotiations[s].request == negotiations[n].request
    && negotiations[s].status != Accepted
  }

  /** `siblings` names every active sibling of `n` once. It may also name siblings rejected since the query ran. */
  ghost predicate SiblingsOk(negotiations: map<nat, Negotiation>, n: nat, siblings: seq<nat>)
    requires n in negotiations
  {
    && Distinct(siblings)
    && (forall s :: s in siblings ==> IsLosing(negotiations, n, s))
    && (forall s :: s in ActiveSiblings(negotiations, negotiations[n].request, n) ==> s in siblings)
  }

  /** Ids are new, and a thread's proposals get increasing ids, as a sequence guarantees. */
  ghost predicate DrawOk(m: Market, op: Op, draw: Draw) {
    match op
    case Create => draw.row !in m.requests
    case Offer(_, _, _) => draw.row !in m.negotiations && draw.proposal !in m.proposals
    case Counter(n, _) =>
      draw.proposal !in m.proposals && forall p :: p in ProposalIds(m.proposals, n) ==> p < draw.proposal
    case Accept(n) => n in m.negotiations ==> SiblingsOk(m.negotiations, n, draw.siblings)
    case Reject(_) => true
  }

  /** The query and the commit saw the same rows: only active siblings were listed. */
  ghost predicate DrawExact(m: Market, op: Op, draw: Draw) {
    op.Accept? ==> forall s :: s in draw.siblings ==> s in m.negotiations && m.negotiations[s].status == Active
  }

  // ---------------------------------------------------------------- facts about the queries

  /** The last proposal by `ORDER BY id DESC LIMIT 1` is the last of the ordered chain, so the two ways
      the program asks for the last actor agree. */
  lemma LastActorAgrees(proposals: map<nat, Proposal>, n: nat)
    ensures LastProposal(proposals, n).None? <==> Chain(proposals, n) == []
    ensures LastProposal(proposals, n).Some? ==>
              && LastProposal(proposals, n).value in proposals
              && Chain(proposals, n)[|Chain(proposals, n)| - 1] == proposals[LastProposal(proposals, n).value]
              && LastActor(proposals, n) == Some(proposals[LastProposal(proposals, n).value].actor)
  {
    AscLists(ProposalIds(proposals, n));
  }

  lemma {:induction false} RowsFrame(before: map<nat, Proposal>, after: map<nat, Proposal>, ids: seq<nat>)
    requires forall p :: p in ids ==> p in before && p in after && after[p] == before[p]
    ensures Rows(after, ids) == Rows(before, ids)
  {
    if ids != [] {
      RowsFrame(before, after, ids[..|ids| - 1]);
    }
  }

  /** A chain depends only on its own thread's rows. */
  lemma ChainFrame(before: map<nat, Proposal>, after: map<nat, Proposal>, n: nat)
    requires ProposalIds(after, n) == ProposalIds(before, n)
    requires forall p :: p in ProposalIds(before, n) ==> after[p] == before[p]
    ensures Chain(after, n) == Chain(before, n)
  {
    AscLists(ProposalIds(before, n));
    RowsFrame(before, after, Asc(ProposalIds(before, n)));
  }

  /** Inserting a proposal with a larger id appends it to its own chain and leaves the others alone. */
  lemma ChainInsert(proposals: map<nat, Proposal>, p: nat, row: Proposal, n: nat)
    requires p !in proposals
    requires forall q :: q in ProposalIds(proposals, row.negotiation) ==> q < p
    ensures Chain(proposals[p := row], n)
         == if n == row.negotiation then Chain(proposals, n) + [row] else Chain(proposals, n)
  {
    var after, ids := proposals[p := row], ProposalIds(proposals, n);
    if n == row.negotiation {
      assert ProposalIds(after, n) == ids + {p};
      AscAppend(ids, p);
      AscLists(ids);
      AscLists(ids + {p});
      assert Asc(ids + {p})[..|ids|] == Asc(ids);
      RowsFrame(proposals, after, Asc(ids));
    } else {
      assert ProposalIds(after, n) == ids;
      ChainFrame(proposals, after, n);
    }
  }

  lemma OfferChain(proposals: map<nat, Proposal>, p: nat, row: Proposal)
    requires p !in proposals
    requires ProposalIds(proposals, row.negotiation) == {}
    ensures Chain(proposals[p := row], row.negotiation) == [row]
  {
    ChainInsert(proposals, p, row, row.negotiation);
  }
}
