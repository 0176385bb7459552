/** What an Idempotency-Key guarantees over any sequence of requests, and over any run of commits. */
module Retries {
  import opened Sequences
  import opened Tables
  import opened Negotiations
  import opened UnitOfWork

  /** A served request either changes nothing or is effective. */
  lemma UnchangedOrEffective(db: Db, c: Commit)
    requires DrawOk(db.market, c.call.op, c.draw)
    ensures !Effective(db, c) ==> Handle(db, c).db == db
  {
  }

  /** A key is never forgotten and never overwritten. */
  lemma KeysStay(db: Db, c: Commit, k: string)
    requires k in db.keys
    ensures k in Handle(db, c).db.keys && Handle(db, c).db.keys[k] == db.keys[k]
  {
  }

  lemma {:induction false} KeysStayOverRun(db: Db, cs: seq<Commit>, i: nat, k: string)
    requires i <= |cs| && k in Exec(db, cs[..i]).keys
    ensures k in Exec(db, cs).keys && Exec(db, cs).keys[k] == Exec(db, cs[..i]).keys[k]
  {
    if i == |cs| {
      assert cs[..i] == cs;
    } else {
      assert Init(cs)[..i] == cs[..i];
      KeysStayOverRun(db, Init(cs), i, k);
      KeysStay(Exec(db, Init(cs)), Last(cs), k);
    }
  }

  /** A keyed success leaves its own response under its key. */
  lemma ReplyIsStored(db: Db, c: Commit)
    requires Handle(db, c).response.Reply? && c.call.key != ""
    ensures var reply := Handle(db, c).response;
            c.call.key in Handle(db, c).db.keys
            && Handle(db, c).db.keys[c.call.key] == KeyRecord(c.call.user, reply.code, reply.body)
  {
  }

  function ResponseAt(db: Db, cs: seq<Commit>, i: nat): Response
    requires i < |cs|
  {
    Handle(Exec(db, cs[..i]), cs[i]).response
  }

  /** Every later request with the key of a success gets the first response, whatever happened since and
      whatever it asks for: if it comes from the same user and passes the role guard, which runs first.
      Another user is refused. */
  lemma {:induction false} FirstResponseReturns(db: Db, cs: seq<Commit>, i: nat, j: nat)
    requires i < j < |cs| && cs[i].call.key == cs[j].call.key != "" && ResponseAt(db, cs, i).Reply?
    ensures ResponseAt(db, cs, j) ==
            match Guard(Exec(db, cs[..j]).users, cs[j].call)
            case Some(e) => Failure(e)
            case None => if cs[j].call.user == cs[i].call.user then ResponseAt(db, cs, i)
                         else Failure(Conflict(KeyOfAnotherUser))
  {
    assert cs[..i + 1] == cs[..i] + [cs[i]];
    assert Init(cs[..i + 1]) == cs[..i];
    ReplyIsStored(Exec(db, cs[..i]), cs[i]);
    assert cs[..j][..i + 1] == cs[..i + 1];
    KeysStayOverRun(db, cs[..j], i + 1, cs[i].call.key);
  }

  /** The role guard can come between a retry and the first response: a client who made a request under a key
      and sends an offer under the same key is refused, though the key is stored. */
  lemma KeyOnTheOtherEndpoint(u: nat, k: string, amount: int, currency: string) returns (cs: seq<Commit>)
    requires k != ""
    ensures |cs| == 2 && cs[0].call == Call(u, k, Create) && cs[1].call == Call(u, k, Offer(1, amount, currency))
    ensures DrawsOk(EmptyDb(map[u := Client]), cs)
    ensures ResponseAt(EmptyDb(map[u := Client]), cs, 0) == Reply(201, RequestBody(1, ProductRequest(u, Open)))
    ensures ResponseAt(EmptyDb(map[u := Client]), cs, 1) == Failure(Forbidden)
    ensures k in Exec(EmptyDb(map[u := Client]), cs).keys
  {
    var e := EmptyDb(map[u := Client]);
    var first := Commit(Call(u, k, Create), Draw(1, 0, []));
    var second := Commit(Call(u, k, Offer(1, amount, currency)), Draw(1, 1, []));
    cs := [first, second];
    assert cs[..0] == [] && cs[..1] == [first] && Init(cs) == [first] && Init([first]) == [];
    assert DrawsOk(e, [first]);
    FirstResponseReturns(e, cs, 0, 1);
  }

  // ---------------------------------------------------------------- dropping retries and failures

  /** The database's choices are legal for every request, whether or not they are used. */
  ghost predicate DrawsOk(db: Db, cs: seq<Commit>) {
    cs == [] || (DrawsOk(db, Init(cs)) && DrawOk(Exec(db, Init(cs)).market, Last(cs).call.op, Last(cs).draw))
  }

  /** The requests that had an effect of their own: no failed attempts, no replays. */
  ghost function Kept(db: Db, cs: seq<Commit>): seq<Commit> {
    if cs == [] then []
    else Kept(db, Init(cs)) + if Effective(Exec(db, Init(cs)), Last(cs)) then [Last(cs)] else []
  }

  /** Deleting all replays and all failed attempts reaches the same database. */
  lemma {:induction false} RetriesAreInvisible(db: Db, cs: seq<Commit>)
    requires DrawsOk(db, cs)
    ensures Script(db, Kept(db, cs)) && Exec(db, Kept(db, cs)) == Exec(db, cs)
  {
    if cs != [] {
      RetriesAreInvisible(db, Init(cs));
      UnchangedOrEffective(Exec(db, Init(cs)), Last(cs));
      if Effective(Exec(db, Init(cs)), Last(cs)) {
        ScriptAppend(db, Kept(db, Init(cs)), Last(cs));
      } else {
        assert Kept(db, cs) == Kept(db, Init(cs));
      }
    }
  }

  // ---------------------------------------------------------------- at most one effect per key

  function UsedKeys(cs: seq<Commit>): set<string> {
    if cs == [] then {}
    else UsedKeys(Init(cs)) + if Last(cs).call.key == "" then {} else {Last(cs).call.key}
  }

  lemma {:induction false} UsedKeysLists(cs: seq<Commit>, i: nat)
    requires i < |cs| && cs[i].call.key != ""
    ensures cs[i].call.key in UsedKeys(cs)
  {
    if i < |cs| - 1 {
      UsedKeysLists(Init(cs), i);
    }
  }

  /** After a run of effective commits the key table holds exactly the keys used. */
  lemma {:induction false} KeyTable(users: map<nat, Role>, cs: seq<Commit>)
    requires Script(EmptyDb(users), cs)
    ensures Exec(EmptyDb(users), cs).keys.Keys == UsedKeys(cs)
  {
    if cs != [] {
      KeyTable(users, Init(cs));
      EffectiveParts(Exec(EmptyDb(users), Init(cs)), Last(cs));
    }
  }

  /** In a run of effective commits no key is used twice. */
  lemma {:induction false} OneEffectPerKey(users: map<nat, Role>, cs: seq<Commit>, i: nat, j: nat)
    requires Script(EmptyDb(users), cs) && i < j < |cs| && cs[i].call.key != ""
    ensures cs[i].call.key != cs[j].call.key
  {
    if j < |cs| - 1 {
      OneEffectPerKey(users, Init(cs), i, j);
    } else {
      KeyTable(users, Init(cs));
      UsedKeysLists(Init(cs), i);
    }
  }
}
