/** Listings by descending id with limit and offset, walked page by page while the tables change. */
module Pagination {
  import opened Ids
  import opened Tables
  import opened Invariants
  import opened ClosingRecords
  import opened RowLocks
  import opened Serializability
  import opened ConcurrentRuns
  import opened Overlaps

  // ---------------------------------------------------------------- the queries

  /** `ORDER BY id DESC`. */
  function Desc(ids: set<nat>): (s: seq<nat>)
    decreases |ids|
  {
    if ids == {} then [] else [Max(ids)] + Desc(ids - {Max(ids)})
  }

  /** `LIMIT limit OFFSET offset`. */
  function Cut(all: seq<nat>, limit: nat, offset: nat): seq<nat> {
    if offset >= |all| then [] else if offset + limit <= |all| then all[offset..offset + limit] else all[offset..]
  }

  function Page(ids: set<nat>, limit: nat, offset: nat): seq<nat> {
    Cut(Desc(ids), limit, offset)
  }

  /** Clients see their own requests, suppliers the open ones. */
  function RequestIds(m: Market, user: User): set<nat> {
    if user.role == Client then set r | r in m.requests && m.requests[r].client == user.id
    else set r | r in m.requests && m.requests[r].status == Open
  }

  /** Suppliers see their own negotiations, clients those on their requests. */
  function NegotiationIds(m: Market, user: User): set<nat> {
    if user.role == Supplier then set n | n in m.negotiations && m.negotiations[n].supplier == user.id
    else set n | n in m.negotiations && m.negotiations[n].request in m.requests
                 && m.requests[m.negotiations[n].request].client == user.id
  }

  function ListRequests(m: Market, user: User, limit: nat, offset: nat): seq<nat> {
    Page(RequestIds(m, user), limit, offset)
  }

  function ListNegotiations(m: Market, user: User, limit: nat, offset: nat): seq<nat> {
    Page(NegotiationIds(m, user), limit, offset)
  }

  // ---------------------------------------------------------------- where a row is listed

  function Above(ids: set<nat>, x: nat): set<nat> {
    set y | y in ids && y > x
  }

  lemma AboveStep(ids: set<nat>, x: nat)
    requires x in ids
    ensures x == Max(ids) ==> Above(ids, x) == {}
    ensures x != Max(ids) ==> |Above(ids, x)| == |Above(ids - {Max(ids)}, x)| + 1
  {
    if x != Max(ids) {
      assert Above(ids, x) == Above(ids - {Max(ids)}, x) + {Max(ids)};
    }
  }

  /** The position of a row is the number of rows with larger ids. */
  lemma {:induction false} DescAt(ids: set<nat>, x: nat)
    requires x in ids
    ensures |Desc(ids)| == |ids| && |Above(ids, x)| < |ids| && Desc(ids)[|Above(ids, x)|] == x
    decreases |ids|
  {
    DescLists(ids);
    AboveStep(ids, x);
    if x != Max(ids) {
      DescAt(ids - {Max(ids)}, x);
    }
  }

  lemma {:induction false} DescLists(ids: set<nat>)
    ensures |Desc(ids)| == |ids| && forall x :: x in Desc(ids) <==> x in ids
    decreases |ids|
  {
    if ids != {} {
      DescLists(ids - {Max(ids)});
    }
  }

  lemma {:induction false} DescInjective(ids: set<nat>, i: nat)
    requires i < |Desc(ids)|
    ensures Desc(ids)[i] in ids && |Above(ids, Desc(ids)[i])| == i
    decreases |ids|
  {
    if i > 0 {
      DescInjective(ids - {Max(ids)}, i - 1);
    }
    AboveStep(ids, Desc(ids)[i]);
  }

  /** A listing runs from larger ids to smaller ones. */
  lemma {:induction false} Descends(ids: set<nat>, i: nat, j: nat)
    requires i < j < |Desc(ids)|
    ensures Desc(ids)[i] > Desc(ids)[j]
    decreases |ids|
  {
    var rest := ids - {Max(ids)};
    DescLists(rest);
    if i == 0 {
      assert Desc(rest)[j - 1] in rest;
    } else {
      Descends(rest, i - 1, j - 1);
    }
  }

  lemma PageDescends(ids: set<nat>, limit: nat, offset: nat, i: nat, j: nat)
    requires i < j < |Page(ids, limit, offset)|
    ensures Page(ids, limit, offset)[i] > Page(ids, limit, offset)[j]
  {
    Descends(ids, offset + i, offset + j);
  }

  /** A page holds exactly the rows whose position falls in it. */
  lemma PageHolds(ids: set<nat>, limit: nat, offset: nat, x: nat)
    ensures x in Page(ids, limit, offset) <==> x in ids && offset <= |Above(ids, x)| < offset + limit
  {
    var all := Desc(ids);
    DescLists(ids);
    if x in ids {
      DescAt(ids, x);
      var i := |Above(ids, x)|;
      if offset <= i < offset + limit {
        assert Page(ids, limit, offset)[i - offset] == x;
      }
      if x in Page(ids, limit, offset) {
        var j :| 0 <= j < |Page(ids, limit, offset)| && Page(ids, limit, offset)[j] == x;
        DescInjective(ids, offset + j);
      }
    } else {
      assert x !in all;
    }
  }

  lemma AboveGrows(ids: set<nat>, later: set<nat>, x: nat)
    requires ids <= later
    ensures |Above(ids, x)| <= |Above(later, x)|
  {
    Subset(Above(ids, x), Above(later, x));
  }

  lemma {:induction false} Subset(a: set<nat>, b: set<nat>)
    requires a <= b
    ensures |a| <= |b|
  {
    if a != {} {
      var x :| x in a;
      Subset(a - {x}, b - {x});
    }
  }

  // ---------------------------------------------------------------- walking the pages

  /** Where page `k` starts. */
  function Offset(limit: nat, k: nat): nat {
    if k == 0 then 0 else Offset(limit, k - 1) + limit
  }

  lemma {:induction false} OffsetIsProduct(limit: nat, k: nat)
    ensures Offset(limit, k) == k * limit
  {
    if k > 0 {
      OffsetIsProduct(limit, k - 1);
      assert k * limit == (k - 1) * limit + limit;
    }
  }

  ghost predicate Growing(snapshots: seq<set<nat>>) {
    forall i, j :: 0 <= i <= j < |snapshots| ==> snapshots[i] <= snapshots[j]
  }

  /** A row not yet returned when page `k` is fetched is at or past that page. */
  lemma {:induction false} NotPassed(snapshots: seq<set<nat>>, limit: nat, x: nat, k: nat)
    requires Growing(snapshots) && k < |snapshots| && x in snapshots[0]
    requires forall i :: 0 <= i < k ==> x !in Page(snapshots[i], limit, Offset(limit, i))
    ensures x in snapshots[k] && |Above(snapshots[k], x)| >= Offset(limit, k)
  {
    if k > 0 {
      NotPassed(snapshots, limit, x, k - 1);
      PageHolds(snapshots[k - 1], limit, Offset(limit, k - 1), x);
      AboveGrows(snapshots[k - 1], snapshots[k], x);
    }
  }

  /** Walking offsets 0, L, 2L, ... over growing listings, wherever the new rows land, until a page comes
      back shorter than L, returns every row that was listed at the first fetch. */
  lemma {:induction false} WalkCovers(snapshots: seq<set<nat>>, limit: nat, x: nat) returns (k: nat)
    requires Growing(snapshots) && snapshots != [] && limit >= 1 && x in snapshots[0]
    requires |Page(snapshots[|snapshots| - 1], limit, Offset(limit, |snapshots| - 1))| < limit
    ensures k < |snapshots| && x in Page(snapshots[k], limit, Offset(limit, k))
  {
    var last := |snapshots| - 1;
    if i :| 0 <= i < last && x in Page(snapshots[i], limit, Offset(limit, i)) {
      k := i;
    } else {
      k := last;
      NotPassed(snapshots, limit, x, last);
      DescAt(snapshots[last], x);
      PageHolds(snapshots[last], limit, Offset(limit, last), x);
    }
  }

  function Pages(ids: set<nat>, limit: nat, count: nat): seq<nat> {
    if count == 0 then [] else Pages(ids, limit, count - 1) + Page(ids, limit, Offset(limit, count - 1))
  }

  /** A page after all rows before it makes all rows up to its end. */
  lemma CutExtends(all: seq<nat>, limit: nat, whole: nat)
    ensures Cut(all, whole, 0) + Cut(all, limit, whole) == Cut(all, whole + limit, 0)
    ensures |Cut(all, limit, whole)| < limit ==> Cut(all, whole + limit, 0) == all
  {
  }

  lemma {:induction false} PagesPrefix(ids: set<nat>, limit: nat, count: nat)
    ensures Pages(ids, limit, count) == Cut(Desc(ids), Offset(limit, count), 0)
  {
    if count > 0 {
      PagesPrefix(ids, limit, count - 1);
      CutExtends(Desc(ids), limit, Offset(limit, count - 1));
    }
  }

  /** When nothing changes, the pages up to the first short one are the descending list, cut up. */
  lemma {:induction false} StaticPagesPartition(ids: set<nat>, limit: nat, count: nat)
    requires limit >= 1 && |Page(ids, limit, Offset(limit, count))| < limit
    ensures Pages(ids, limit, count + 1) == Desc(ids)
  {
    PagesPrefix(ids, limit, count + 1);
    CutExtends(Desc(ids), limit, Offset(limit, count));
  }

  /** The page that a position falls in. */
  lemma {:induction false} PageOf(limit: nat, position: nat) returns (k: nat)
    requires limit >= 1
    ensures Offset(limit, k) <= position < Offset(limit, k) + limit
  {
    if position < limit {
      k := 0;
    } else {
      k := PageOf(limit, position - limit);
      k := k + 1;
    }
  }

  /** Some page shows it. */
  ghost predicate Shown(ids: set<nat>, limit: nat, x: nat) {
    exists k: nat {:trigger Offset(limit, k)} :: x in Page(ids, limit, Offset(limit, k))
  }

  /** The pages together show exactly the listed rows. */
  lemma {:induction false} ShownIffListed(ids: set<nat>, limit: nat, x: nat)
    requires limit >= 1
    ensures Shown(ids, limit, x) <==> x in ids
  {
    if Shown(ids, limit, x) {
      var k: nat :| x in Page(ids, limit, Offset(limit, k));
      PageHolds(ids, limit, Offset(limit, k), x);
    } else if x in ids {
      var k := PageOf(limit, |Above(ids, x)|);
      PageHolds(ids, limit, Offset(limit, k), x);
    }
  }

  // ---------------------------------------------------------------- over the tables

  /** A client's requests and either party's negotiations never leave the listing. */
  lemma ListingsGrow(users: map<nat, Role>, m: Market, after: Market, user: User)
    requires LinksOk(users, m) && Evolves(m, after)
    ensures user.role == Client ==> RequestIds(m, user) <= RequestIds(after, user)
    ensures NegotiationIds(m, user) <= NegotiationIds(after, user)
  {
    forall n | n in m.negotiations
      ensures n in after.negotiations && after.negotiations[n].request == m.negotiations[n].request
              && after.negotiations[n].supplier == m.negotiations[n].supplier
    {
      assert ThreadEvolves(m, after, n);
    }
  }

  /** The listing of negotiations holds exactly those of which the user is a party. */
  lemma PartiesAreListed(users: map<nat, Role>, m: Market, user: User, n: nat)
    requires LinksOk(users, m) && user.id in users && user.role == users[user.id]
    ensures n in NegotiationIds(m, user) <==> n in m.negotiations && Party(m, n, user.id)
  {
  }

  lemma {:induction false} LinksAt(users: map<nat, Role>, es: seq<Event>, k: nat)
    requires Legal(users, es) && k <= |es|
    ensures LinksOk(users, MarketAt(users, es, k))
  {
    LegalPrefix(users, es, k);
    AlwaysGood(users, es[..k]);
    RunsKeep(users, After(users, es[..k]).history);
  }

  /** When the pages are fetched: after how many events of the run, never going back. */
  ghost predicate FetchTimes(es: seq<Event>, at: seq<nat>) {
    && (forall i :: 0 <= i < |at| ==> at[i] <= |es|)
    && (forall i, j :: 0 <= i <= j < |at| ==> at[i] <= at[j])
  }

  function MarketAt(users: map<nat, Role>, es: seq<Event>, k: nat): Market
    requires k <= |es|
  {
    After(users, es[..k]).db.market
  }

  lemma {:induction false} MarketsGrow(users: map<nat, Role>, es: seq<Event>, i: nat, j: nat, user: User)
    requires Legal(users, es) && i <= j <= |es|
    ensures user.role == Client ==> RequestIds(MarketAt(users, es, i), user) <= RequestIds(MarketAt(users, es, j), user)
    ensures NegotiationIds(MarketAt(users, es, i), user) <= NegotiationIds(MarketAt(users, es, j), user)
  {
    LegalPrefix(users, es, j);
    assert es[..j][..i] == es[..i];
    Absorbing(users, es[..j], i);
    LinksAt(users, es, i);
    ListingsGrow(users, MarketAt(users, es, i), MarketAt(users, es, j), user);
  }

  /** What a user's listing of negotiations holds at each fetch. */
  function NegotiationSnapshots(users: map<nat, Role>, es: seq<Event>, at: seq<nat>, user: User): seq<set<nat>>
    requires forall i :: 0 <= i < |at| ==> at[i] <= |es|
  {
    seq(|at|, i requires 0 <= i < |at| => NegotiationIds(MarketAt(users, es, at[i]), user))
  }

  function RequestSnapshots(users: map<nat, Role>, es: seq<Event>, at: seq<nat>, user: User): seq<set<nat>>
    requires forall i :: 0 <= i < |at| ==> at[i] <= |es|
  {
    seq(|at|, i requires 0 <= i < |at| => RequestIds(MarketAt(users, es, at[i]), user))
  }

  lemma {:induction false} SnapshotsGrow(users: map<nat, Role>, es: seq<Event>, at: seq<nat>, user: User)
    requires Legal(users, es) && FetchTimes(es, at)
    ensures Growing(NegotiationSnapshots(users, es, at, user))
    ensures user.role == Client ==> Growing(RequestSnapshots(users, es, at, user))
  {
    forall i, j | 0 <= i <= j < |at|
      ensures NegotiationSnapshots(users, es, at, user)[i] <= NegotiationSnapshots(users, es, at, user)[j]
      ensures user.role == Client ==>
                RequestSnapshots(users, es, at, user)[i] <= RequestSnapshots(users, es, at, user)[j]
    {
      MarketsGrow(users, es, at[i], at[j], user);
    }
  }

  /** In any concurrent run, a user who walks the listing of negotiations until a short page sees every
      negotiation that was listed at the first fetch, whatever commits between the fetches. */
  lemma {:induction false} NegotiationWalkCovers(
      users: map<nat, Role>, es: seq<Event>, at: seq<nat>, user: User, limit: nat, n: nat) returns (k: nat)
    requires Legal(users, es) && FetchTimes(es, at) && at != [] && limit >= 1
    requires user.id in users && user.role == users[user.id]
    requires n in MarketAt(users, es, at[0]).negotiations && Party(MarketAt(users, es, at[0]), n, user.id)
    requires |ListNegotiations(MarketAt(users, es, at[|at| - 1]), user, limit, Offset(limit, |at| - 1))| < limit
    ensures k < |at| && n in ListNegotiations(MarketAt(users, es, at[k]), user, limit, Offset(limit, k))
  {
    LinksAt(users, es, at[0]);
    PartiesAreListed(users, MarketAt(users, es, at[0]), user, n);
    SnapshotsGrow(users, es, at, user);
    k := WalkCovers(NegotiationSnapshots(users, es, at, user), limit, n);
  }

  /** The same for a client's own requests. */
  lemma {:induction false} RequestWalkCovers(
      users: map<nat, Role>, es: seq<Event>, at: seq<nat>, user: User, limit: nat, r: nat) returns (k: nat)
    requires Legal(users, es) && FetchTimes(es, at) && at != [] && limit >= 1 && user.role == Client
    requires r in MarketAt(users, es, at[0]).requests && MarketAt(users, es, at[0]).requests[r].client == user.id
    requires |ListRequests(MarketAt(users, es, at[|at| - 1]), user, limit, Offset(limit, |at| - 1))| < limit
    ensures k < |at| && r in ListRequests(MarketAt(users, es, at[k]), user, limit, Offset(limit, k))
  {
    SnapshotsGrow(users, es, at, user);
    k := WalkCovers(RequestSnapshots(users, es, at, user), limit, r);
  }
}
