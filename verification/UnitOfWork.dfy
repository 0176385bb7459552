/** The idempotent unit of work around an operation (app/routers/_helpers.py, app/deps.py), and runs of it. */
module UnitOfWork {
  import opened Sequences
  import opened Tables
  import opened Negotiations

  /** One POST: the authenticated user id, the Idempotency-Key header ("" when absent) and the operation. */
  datatype Call = Call(user: nat, key: string, op: Op)

  datatype Response = Reply(code: nat, body: Body) | Failure(error: Error)

  datatype Outcome = Outcome(db: Db, response: Response)

  /** A call together with what the database chose while serving it. */
  datatype Commit = Commit(call: Call, draw: Draw)

  /** `get_current_user` and `require_role`, which run before the key is looked up. */
  function Guard(users: map<nat, Role>, call: Call): Option<Error> {
    if call.user !in users then Some(Unauthorized)
    else if call.op.Create? && users[call.user] != Client then Some(Forbidden)
    else if call.op.Offer? && users[call.user] != Supplier then Some(Forbidden)
    else None
  }

  /** `Idempotency.lookup`: a stored response, a refusal, or nothing. */
  function Lookup(db: Db, call: Call): Option<Response> {
    if call.key == "" || call.key !in db.keys then None
    else if db.keys[call.key].user != call.user then Some(Failure(Conflict(KeyOfAnotherUser)))
    else Some(Reply(db.keys[call.key].code, db.keys[call.key].body))
  }

  /** The response when the operation is not run at all. */
  function Admit(db: Db, call: Call): Option<Response> {
    match Guard(db.users, call)
    case Some(e) => Some(Failure(e))
    case None => Lookup(db, call)
  }

  function StatusCode(op: Op): nat {
    if op.Create? || op.Offer? then 201 else 200
  }

  function SavedKeys(keys: map<string, KeyRecord>, call: Call, body: Body): map<string, KeyRecord> {
    if call.key == "" then keys
    else keys[call.key := KeyRecord(call.user, StatusCode(call.op), body)]
  }

  function Actor(db: Db, call: Call): User
    requires call.user in db.users
  {
    User(call.user, db.users[call.user])
  }

  /** The single commit: effect, audit rows and key together. */
  function Committed(db: Db, call: Call, done: Done, body: Body): Db {
    Db(db.users, done.market, db.audit + done.rows, SavedKeys(db.keys, call, body))
  }

  /** A whole request, served alone. */
  function Handle(db: Db, c: Commit): Outcome {
    match Admit(db, c.call)
    case Some(response) => Outcome(db, response)
    case None =>
      match Perform(db.market, Actor(db, c.call), c.call.op, c.draw)
      case Err(e) => Outcome(db, Failure(e))
      case Ok(done) =>
        var body := BodyOf(done.market, c.call.op, Subject(c.call.op, c.draw));
        Outcome(Committed(db, c.call, done, body), Reply(StatusCode(c.call.op), body))
  }

  /** The request commits an effect of its own: no refusal, no replay. */
  ghost predicate Effective(db: Db, c: Commit) {
    && Admit(db, c.call).None?
    && DrawOk(db.market, c.call.op, c.draw)
    && Perform(db.market, Actor(db, c.call), c.call.op, c.draw).Ok?
  }

  /** What an effective request does to each part of the database. */
  lemma EffectiveParts(db: Db, c: Commit)
    requires Effective(db, c)
    ensures var done := Perform(db.market, Actor(db, c.call), c.call.op, c.draw).value;
            && (if c.call.op.Create? then c.draw.row in done.market.requests
                else Subject(c.call.op, c.draw) in done.market.negotiations)
            && Handle(db, c).db
               == Committed(db, c.call, done, BodyOf(done.market, c.call.op, Subject(c.call.op, c.draw)))
  {
  }

  // ---------------------------------------------------------------- runs

  /** Every commit of the script is effective when the ones before it have run, one at a time. */
  ghost predicate Script(db: Db, cs: seq<Commit>) {
    cs == [] || (Script(db, Init(cs)) && Effective(Exec(db, Init(cs)), Last(cs)))
  }

  function Exec(db: Db, cs: seq<Commit>): Db {
    if cs == [] then db else Handle(Exec(db, Init(cs)), Last(cs)).db
  }

  lemma {:induction false} ScriptAppend(db: Db, cs: seq<Commit>, c: Commit)
    requires Script(db, cs) && Effective(Exec(db, cs), c)
    ensures Script(db, cs + [c]) && Exec(db, cs + [c]) == Handle(Exec(db, cs), c).db
  {
    assert Init(cs + [c]) == cs;
  }

  lemma {:induction false} ScriptPrefix(db: Db, cs: seq<Commit>, k: nat)
    requires Script(db, cs) && k <= |cs|
    ensures Script(db, cs[..k])
  {
    if k == |cs| {
      assert cs[..k] == cs;
    } else {
      ScriptPrefix(db, Init(cs), k);
      assert Init(cs)[..k] == cs[..k];
    }
  }
}
