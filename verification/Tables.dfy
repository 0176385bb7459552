/** The rows of app/models.py, and the database that holds them.
    Text no decision reads (names, messages, timestamps, correlation ids) is left out. */
module Tables {

  datatype Option<+T> = None | Some(value: T)

  datatype Result<+T> = Ok(value: T) | Err(error: Error)

  datatype Error =
    | Unauthorized
    | Forbidden
    | NotFound
    | Conflict(reason: Reason)
    | ServerError

  datatype Reason =
    | RequestNotOpen
    | DuplicateOffer
    | AlreadyTerminal
    | NotYourTurn
    | NoProposals
    | KeyOfAnotherUser

  datatype Role = Client | Supplier

  datatype RequestStatus = Open | Closed

  datatype NegotiationStatus = Active | Accepted | Rejected

  datatype ProposalKind = OfferKind | CounterKind

  datatype ProductRequest = ProductRequest(client: nat, status: RequestStatus)

  datatype Negotiation = Negotiation(
    request: nat, supplier: nat, status: NegotiationStatus, agreed: Option<int>)

  /** Amounts are integer cents. */
  datatype Proposal = Proposal(
    negotiation: nat, actor: nat, role: Role, kind: ProposalKind, amount: int, currency: string)

  /** One constructor per `action` the negotiation service records; the superseding row has no actor. */
  datatype AuditRow =
    | RequestCreated(request: nat, actor: nat)
    | OfferCreated(negotiation: nat, actor: nat, amount: int, currency: string)
    | WasCountered(negotiation: nat, actor: nat, amount: int, currency: string)
    | WasAccepted(negotiation: nat, actor: nat, agreed: int)
    | WasRejected(negotiation: nat, actor: nat)
    | WasSuperseded(negotiation: nat, winner: nat)

  /** What a handler sends back: the row it changed, and whose proposal came last. */
  datatype Body =
    | RequestBody(id: nat, request: ProductRequest)
    | NegotiationBody(id: nat, negotiation: Negotiation, lastActor: Option<nat>)

  datatype KeyRecord = KeyRecord(user: nat, code: nat, body: Body)

  datatype User = User(id: nat, role: Role)

  /** The tables the negotiation rules read and write; each is a map from primary key to row. */
  datatype Market = Market(
    requests: map<nat, ProductRequest>,
    negotiations: map<nat, Negotiation>,
    proposals: map<nat, Proposal>)

  /** The whole database. The audit trail is in the order it was committed. A user's role never changes
      after registration, so `users` is the directory of everyone who ever acts. */
  datatype Db = Db(users: map<nat, Role>, market: Market, audit: seq<AuditRow>, keys: map<string, KeyRecord>)

  function EmptyDb(users: map<nat, Role>): Db {
    Db(users, Market(map[], map[], map[]), [], map[])
  }
}
