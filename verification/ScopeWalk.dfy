/** The scope listing as a client walks it (internal/adapters/dhcpwindows:
    scopes.go): list, filter, cut a page, mint its token; and the client that
    sends each token back while the scopes change underneath. */
module ScopeWalk {
  import opened Wrappers
  import opened Ipv4
  import opened Overlap
  import opened Registry
  import opened Token
  import Base64
  import Drift
  import Identity
  import P = Pagination

  predicate Matches(filter: Option<Addr>, s: Scope) {
    filter.None? || s.scopeId == filter.value
  }

  /** Every matching scope under its identity, in the strict order of identities. */
  ghost predicate Lists(items: seq<Item>, scopes: seq<Scope>, id: Scope -> string, filter: Option<Addr>) {
    && P.Sorted(items, IdOf)
    && (forall x :: x in items ==> x.scope in scopes && x.wadaptId == id(x.scope) && Matches(filter, x.scope))
    && (forall s :: s in scopes && Matches(filter, s) ==> Item(id(s), s) in items)
  }

  /** Identities are short byte strings, which is what a token can carry. */
  ghost predicate Carried(items: seq<Item>) {
    forall x :: x in items ==> Base64.Bytes(x.wadaptId) && |x.wadaptId| == Identity.WADAPT_ID_LENGTH
  }

  lemma FilteredLists(items: seq<Item>, matched: seq<Item>, scopes: seq<Scope>, id: Scope -> string, filter: Option<Addr>)
    requires multiset(items) == multiset(Identified(scopes, id)) && P.Sorted(matched, IdOf)
    requires forall x :: x in matched <==> x in items && Matches(filter, x.scope)
    ensures Lists(matched, scopes, id, filter)
  {
    var all := Identified(scopes, id);
    forall x
      ensures x in items <==> x in all
    {
      assert x in multiset(items) <==> x in multiset(all);
    }
    forall s | s in scopes && Matches(filter, s)
      ensures Item(id(s), s) in matched
    {
      var k :| 0 <= k < |scopes| && scopes[k] == s;
      assert all[k] == Item(id(s), s);
    }
  }

  lemma CarriedKeys(items: seq<Item>, after: string, size: nat)
    requires size > 0 && Carried(items)
    ensures P.NoEmptyKey(items, IdOf)
    ensures var r := P.Slice(items, after, size, IdOf).resume;
            r.Some? ==> Base64.Bytes(r.value) && |r.value| == Identity.WADAPT_ID_LENGTH
  {
    if P.Slice(items, after, size, IdOf).resume.Some? {
      ResumeIsAKey(items, after, size, IdOf);
    }
  }

  lemma ListedCarry(items: seq<Item>, c: Client, filter: Option<Addr>)
    requires Lists(items, c.scopes, c.Id(), filter)
    ensures Carried(items)
  {
  }

  /** The token a page ends with: empty when nothing is left. */
  function Onward(p: Paginator, page: P.Page<Item>): string
    requires Plain(p.scope) && (page.resume.Some? ==> Base64.Bytes(page.resume.value) && |page.resume.value| <= MAX_KEY_BYTES)
  {
    if page.resume.None? then "" else NextToken(p, page.resume.value).value
  }

  /** The handler: a bad token or a listing that cannot be identified is an
      error; otherwise the page of the filtered listing as it stands. */
  method GetPage(c: Client, p: Paginator, filter: Option<Addr>, token: string, size: nat)
    returns (page: Option<seq<Item>>, next: string, ghost listed: seq<Item>)
    requires c.Valid() && Plain(p.scope) && size > 0
    modifies c`emitted, c`log, c.ledger
    ensures c.Valid()
    ensures page.None? <==> ParseToken(p, token).None? || !DistinctIds(Identified(c.scopes, c.Id()))
    ensures page.Some? ==>
              && Lists(listed, c.scopes, c.Id(), filter) && Carried(listed)
              && var s := P.Slice(listed, ParseToken(p, token).value, size, IdOf);
                 && page.value == s.items && (s.resume.Some? ==> Base64.Bytes(s.resume.value) && |s.resume.value| <= MAX_KEY_BYTES)
                 && next == Onward(p, s)
  {
    listed, next := [], "";
    var after := ParseToken(p, token);
    if after.None? {
      return None, "", [];
    }
    var items := c.ListScopes();
    if items.None? {
      return None, "", [];
    }
    var matched := FilterByScopeId(items.value, filter);
    listed := matched;
    FilteredLists(items.value, matched, c.scopes, c.Id(), filter);
    ListedCarry(matched, c, filter);
    CarriedKeys(matched, after.value, size);
    var s := P.Slice(matched, after.value, size, IdOf);
    next := if s.resume.None? then "" else NextToken(p, s.resume.value).value;
    page := Some(s.items);
  }

  /** What each request of a walk was served from. */
  ghost predicate Served(visits: seq<P.Request<Item>>, states: seq<seq<Scope>>, id: Scope -> string, filter: Option<Addr>) {
    && |visits| == |states|
    && forall k :: 0 <= k < |visits| ==> visits[k].size > 0 && Lists(visits[k].items, states[k], id, filter) && Carried(visits[k].items)
  }

  lemma ServedCons(visits: seq<P.Request<Item>>, states: seq<seq<Scope>>, id: Scope -> string, filter: Option<Addr>,
                   visit: P.Request<Item>, scopes: seq<Scope>)
    requires Served(visits, states, id, filter)
    requires visit.size > 0 && Lists(visit.items, scopes, id, filter) && Carried(visit.items)
    ensures Served([visit] + visits, [scopes] + states, id, filter)
  {
  }

  ghost predicate Sized(requests: seq<P.Request<Item>>) {
    forall k :: 0 <= k < |requests| ==> requests[k].size > 0
  }

  /** One page on the wire, and the rest of the walk from its token. */
  lemma EchoStep(p: Paginator, visit: P.Request<Item>, rest: seq<P.Request<Item>>, token: string)
    requires Plain(p.scope) && visit.size > 0 && Sized(rest) && Sized([visit] + rest) && ParseToken(p, token).Some?
    requires var s := P.Slice(visit.items, ParseToken(p, token).value, visit.size, IdOf);
             s.resume.Some? ==> Base64.Bytes(s.resume.value) && |s.resume.value| <= MAX_KEY_BYTES
    ensures var s := P.Slice(visit.items, ParseToken(p, token).value, visit.size, IdOf);
            && (Onward(p, s) == "" <==> s.resume.None?)
            && Echo(p, [visit] + rest, token, IdOf) == [s.items] + (if s.resume.None? then [] else Echo(p, rest, Onward(p, s), IdOf))
            && (s.resume.Some? ==> ParseToken(p, Onward(p, s)) == Some(s.resume.value))
  {
    var s := P.Slice(visit.items, ParseToken(p, token).value, visit.size, IdOf);
    assert ([visit] + rest)[1..] == rest;
    if s.resume.Some? {
      MintedTokenParses(p, s.resume.value);
    }
  }

  lemma WalkCompletes(visit: P.Request<Item>, rest: seq<P.Request<Item>>, after: string)
    requires visit.size > 0 && Sized(rest) && Sized([visit] + rest)
    ensures var s := P.Slice(visit.items, after, visit.size, IdOf);
            P.Completed(P.Walk([visit] + rest, after, IdOf)) <==>
              s.resume.None? || P.Completed(P.Walk(rest, s.resume.value, IdOf))
  {
    assert ([visit] + rest)[1..] == rest;
    P.WalkStep([visit] + rest, after, IdOf);
  }

  /** A page shows only what was listed, and no more than was asked for. */
  ghost predicate DrawnFrom(page: seq<Item>, visit: P.Request<Item>) {
    |page| <= visit.size && forall x :: x in page ==> x in visit.items
  }

  /** Every page but the last is full. */
  ghost predicate Drawn(pages: seq<seq<Item>>, visits: seq<P.Request<Item>>) {
    && |pages| == |visits|
    && (forall k :: 0 <= k < |pages| ==> DrawnFrom(pages[k], visits[k]))
    && (forall k :: 0 <= k < |pages| - 1 ==> |pages[k]| == visits[k].size)
  }

  lemma DrawnCons(page: seq<Item>, visit: P.Request<Item>, pages: seq<seq<Item>>, visits: seq<P.Request<Item>>)
    requires DrawnFrom(page, visit) && |page| == visit.size && Drawn(pages, visits)
    ensures Drawn([page] + pages, [visit] + visits)
  {
  }

  /** A stretch of a walk: the pages are those of the listings it visited, and
      it is done exactly when the last of them left nothing. */
  ghost predicate Walked(p: Paginator, visits: seq<P.Request<Item>>, states: seq<seq<Scope>>, id: Scope -> string, filter: Option<Addr>,
                         token: string, pages: seq<seq<Item>>, done: bool)
    requires Plain(p.scope) && ParseToken(p, token).Some?
  {
    && Served(visits, states, id, filter) && Sized(visits)
    && pages == Echo(p, visits, token, IdOf) && |pages| == |visits|
    && (done <==> P.Completed(P.Walk(visits, ParseToken(p, token).value, IdOf)))
  }

  /** What GetPage answers with: this page, cut from this listing. */
  ghost predicate Answered(p: Paginator, visit: P.Request<Item>, scopes: seq<Scope>, id: Scope -> string, filter: Option<Addr>,
                           token: string, page: seq<Item>, next: string)
    requires Plain(p.scope) && ParseToken(p, token).Some? && visit.size > 0
  {
    && Lists(visit.items, scopes, id, filter) && Carried(visit.items)
    && var s := P.Slice(visit.items, ParseToken(p, token).value, visit.size, IdOf);
       && page == s.items && (s.resume.Some? ==> Base64.Bytes(s.resume.value) && |s.resume.value| <= MAX_KEY_BYTES)
       && next == Onward(p, s)
  }

  lemma PageIsDrawn(p: Paginator, visit: P.Request<Item>, scopes: seq<Scope>, id: Scope -> string, filter: Option<Addr>,
                    token: string, page: seq<Item>, next: string)
    requires Plain(p.scope) && ParseToken(p, token).Some? && visit.size > 0
    requires Answered(p, visit, scopes, id, filter, token, page, next)
    ensures DrawnFrom(page, visit) && (next != "" ==> |page| == visit.size)
  {
  }

  lemma LastPage(p: Paginator, visit: P.Request<Item>, scopes: seq<Scope>, id: Scope -> string, filter: Option<Addr>, token: string, page: seq<Item>)
    requires Plain(p.scope) && ParseToken(p, token).Some? && visit.size > 0 && Answered(p, visit, scopes, id, filter, token, page, "")
    ensures Walked(p, [visit], [scopes], id, filter, token, [page], true)
  {
    assert [visit] + [] == [visit];
    EchoStep(p, visit, [], token);
    WalkCompletes(visit, [], ParseToken(p, token).value);
  }

  lemma TokenGoesOn(p: Paginator, visit: P.Request<Item>, scopes: seq<Scope>, id: Scope -> string, filter: Option<Addr>,
                    token: string, page: seq<Item>, next: string)
    requires Plain(p.scope) && ParseToken(p, token).Some? && visit.size > 0 && next != ""
    requires Answered(p, visit, scopes, id, filter, token, page, next)
    ensures ParseToken(p, next).Some?
    ensures var s := P.Slice(visit.items, ParseToken(p, token).value, visit.size, IdOf); ParseToken(p, next) == s.resume
  {
    EchoStep(p, visit, [], token);
  }

  lemma OnePageMore(p: Paginator, visit: P.Request<Item>, scopes: seq<Scope>, id: Scope -> string, filter: Option<Addr>,
                    token: string, page: seq<Item>, next: string,
                    visits: seq<P.Request<Item>>, states: seq<seq<Scope>>, pages: seq<seq<Item>>, done: bool)
    requires Plain(p.scope) && ParseToken(p, token).Some? && visit.size > 0 && next != ""
    requires Answered(p, visit, scopes, id, filter, token, page, next)
    requires ParseToken(p, next).Some? && Walked(p, visits, states, id, filter, next, pages, done)
    ensures Walked(p, [visit] + visits, [scopes] + states, id, filter, token, [page] + pages, done)
  {
    TokenGoesOn(p, visit, scopes, id, filter, token, page, next);
    EchoStep(p, visit, visits, token);
    WalkCompletes(visit, visits, ParseToken(p, token).value);
    ServedCons(visits, states, id, filter, visit, scopes);
  }

  // ---- the registry underneath ----------------------------------------------------------

  /** Serving the requests takes the scopes from `before` to `after`. */
  ghost predicate Leads(before: seq<Scope>, requests: seq<Request>, after: seq<Scope>, server: Server) {
    exists states: seq<seq<Scope>>, logs: seq<seq<Drift.Seen>> ::
      Told(requests, states, logs, |requests|, server) && states[0] == before && states[|requests|] == after
  }

  /** The states the pages were cut from follow one another as the registry went
      from `start` to `end`: the k-th requests were served after the k-th page,
      none after a page that ended the walk. */
  ghost predicate Passed(start: seq<Scope>, states: seq<seq<Scope>>, between: seq<seq<Request>>, end: seq<Scope>, done: bool, server: Server) {
    && |states| <= |between|
    && (states == [] ==> end == start && !done)
    && (states != [] ==> states[0] == start)
    && (forall k :: 0 <= k < |states| - 1 ==> Leads(states[k], between[k], states[k + 1], server))
    && (states != [] ==> var n := |states| - 1; if done then end == states[n] else Leads(states[n], between[n], end, server))
  }

  lemma PassedCons(start: seq<Scope>, requests: seq<Request>, after: seq<Scope>,
                   states: seq<seq<Scope>>, between: seq<seq<Request>>, end: seq<Scope>, done: bool, server: Server)
    requires Leads(start, requests, after, server) && Passed(after, states, between, end, done, server)
    ensures Passed(start, [start] + states, [requests] + between, end, done, server)
  {
    var all, asked := [start] + states, [requests] + between;
    forall k | 0 <= k < |all| - 1
      ensures Leads(all[k], asked[k], all[k + 1], server)
    {
      if k > 0 {
        assert Leads(states[k - 1], between[k - 1], states[k], server);
      }
    }
  }

  /** The requests of the walk, page by page. */
  ghost predicate Asked(visits: seq<P.Request<Item>>, sizes: seq<nat>) {
    |visits| <= |sizes| && forall k :: 0 <= k < |visits| ==> visits[k].size == sizes[k]
  }

  lemma AskedCons(visits: seq<P.Request<Item>>, visit: P.Request<Item>, sizes: seq<nat>)
    requires sizes != [] && Asked(visits, sizes[1..]) && visit.size == sizes[0]
    ensures Asked([visit] + visits, sizes)
  {
  }

  /** Page by page: what was asked for, cut from what the registry had come to,
      until nothing was left, nothing more was asked, or no listing was to be had. */
  ghost predicate Traced(visits: seq<P.Request<Item>>, states: seq<seq<Scope>>, server: Server, sizes: seq<nat>, between: seq<seq<Request>>,
                         start: seq<Scope>, end: seq<Scope>, pages: seq<seq<Item>>, done: bool) {
    && Drawn(pages, visits) && Asked(visits, sizes) && Passed(start, states, between, end, done, server)
    && (done || |pages| == |sizes| || !DistinctIds(Identified(end, server.id)))
  }

  lemma TracedCons(visits: seq<P.Request<Item>>, states: seq<seq<Scope>>, server: Server, sizes: seq<nat>, between: seq<seq<Request>>,
                   start: seq<Scope>, after: seq<Scope>, end: seq<Scope>, page: seq<Item>, pages: seq<seq<Item>>, done: bool, visit: P.Request<Item>)
    requires sizes != [] && between != [] && visit.size == sizes[0] && DrawnFrom(page, visit) && |page| == visit.size
    requires Leads(start, between[0], after, server) && Traced(visits, states, server, sizes[1..], between[1..], after, end, pages, done)
    ensures Traced([visit] + visits, [start] + states, server, sizes, between, start, end, [page] + pages, done)
  {
    DrawnCons(page, visit, pages, visits);
    AskedCons(visits, visit, sizes);
    PassedCons(start, between[0], after, states, between[1..], end, done, server);
    assert between == [between[0]] + between[1..];
  }

  /** All of what a walk from this token does to the registry and is shown of it. */
  ghost predicate Followed(p: Paginator, visits: seq<P.Request<Item>>, states: seq<seq<Scope>>, server: Server, filter: Option<Addr>,
                           token: string, sizes: seq<nat>, between: seq<seq<Request>>, start: seq<Scope>, end: seq<Scope>,
                           pages: seq<seq<Item>>, done: bool)
    requires Plain(p.scope) && ParseToken(p, token).Some?
  {
    && Walked(p, visits, states, server.id, filter, token, pages, done)
    && Traced(visits, states, server, sizes, between, start, end, pages, done)
  }

  lemma NoPage(p: Paginator, server: Server, filter: Option<Addr>, token: string, sizes: seq<nat>, between: seq<seq<Request>>, scopes: seq<Scope>)
    requires Plain(p.scope) && ParseToken(p, token).Some? && (sizes == [] || !DistinctIds(Identified(scopes, server.id)))
    ensures Followed(p, [], [], server, filter, token, sizes, between, scopes, scopes, [], false)
  {
  }

  lemma OnlyPage(p: Paginator, visit: P.Request<Item>, scopes: seq<Scope>, server: Server, filter: Option<Addr>,
                 token: string, page: seq<Item>, sizes: seq<nat>, between: seq<seq<Request>>)
    requires Plain(p.scope) && ParseToken(p, token).Some? && visit.size > 0 && |sizes| == |between| > 0 && visit.size == sizes[0]
    requires Answered(p, visit, scopes, server.id, filter, token, page, "")
    ensures Followed(p, [visit], [scopes], server, filter, token, sizes, between, scopes, scopes, [page], true)
  {
    LastPage(p, visit, scopes, server.id, filter, token, page);
    PageIsDrawn(p, visit, scopes, server.id, filter, token, page, "");
  }

  lemma FirstPage(p: Paginator, visit: P.Request<Item>, scopes: seq<Scope>, server: Server, filter: Option<Addr>,
                  token: string, page: seq<Item>, next: string, sizes: seq<nat>, between: seq<seq<Request>>,
                  after: seq<Scope>, end: seq<Scope>,
                  visits: seq<P.Request<Item>>, states: seq<seq<Scope>>, pages: seq<seq<Item>>, done: bool)
    requires Plain(p.scope) && ParseToken(p, token).Some? && visit.size > 0 && next != "" && ParseToken(p, next).Some?
    requires |sizes| == |between| > 0 && visit.size == sizes[0]
    requires Answered(p, visit, scopes, server.id, filter, token, page, next) && Leads(scopes, between[0], after, server)
    requires Followed(p, visits, states, server, filter, next, sizes[1..], between[1..], after, end, pages, done)
    ensures Followed(p, [visit] + visits, [scopes] + states, server, filter, token, sizes, between, scopes, end, [page] + pages, done)
  {
    OnePageMore(p, visit, scopes, server.id, filter, token, page, next, visits, states, pages, done);
    PageIsDrawn(p, visit, scopes, server.id, filter, token, page, next);
    TracedCons(visits, states, server, sizes, between, scopes, after, end, page, pages, done, visit);
  }

  /** A client that follows tokens, the registry serving whatever else comes in
      between any two pages. It stops at a page without a token, at an error, or
      when it has asked as often as it would. */
  method Follow(c: Client, p: Paginator, filter: Option<Addr>, token: string, sizes: seq<nat>, between: seq<seq<Request>>)
    returns (pages: seq<seq<Item>>, done: bool, ghost visits: seq<P.Request<Item>>, ghost states: seq<seq<Scope>>)
    requires c.Valid() && Plain(p.scope) && |sizes| == |between| && forall k :: 0 <= k < |sizes| ==> sizes[k] > 0
    requires ParseToken(p, token).Some?
    modifies c, c.ledger
    ensures c.Valid() && Followed(p, visits, states, c.Terms(), filter, token, sizes, between, old(c.scopes), c.scopes, pages, done)
    decreases |sizes|
  {
    ghost var scopes, server := c.scopes, c.Terms();
    if sizes == [] {
      NoPage(p, server, filter, token, sizes, between, scopes);
      return [], false, [], [];
    }
    var page, next, listed := GetPage(c, p, filter, token, sizes[0]);
    if page.None? {
      NoPage(p, server, filter, token, sizes, between, scopes);
      return [], false, [], [];
    }
    ghost var visit := P.Request(listed, sizes[0]);
    assert Answered(p, visit, scopes, server.id, filter, token, page.value, next);
    if next == "" {
      OnlyPage(p, visit, scopes, server, filter, token, page.value, sizes, between);
      return [page.value], true, [visit], [scopes];
    }
    TokenGoesOn(p, visit, scopes, server.id, filter, token, page.value, next);
    ServeBetween(c, between[0]);
    ghost var after := c.scopes;
    pages, done, visits, states := Follow(c, p, filter, next, sizes[1..], between[1..]);
    FirstPage(p, visit, scopes, server, filter, token, page.value, next, sizes, between, after, c.scopes, visits, states, pages, done);
    pages, visits, states := [page.value] + pages, [visit] + visits, [scopes] + states;
  }

  /** What comes in between two pages. */
  method ServeBetween(c: Client, requests: seq<Request>)
    requires c.Valid()
    modifies c, c.ledger
    ensures c.Valid() && Leads(old(c.scopes), requests, c.scopes, c.Terms())
  {
    ghost var states, logs := c.Serve(requests);
    assert Told(requests, states, logs, |requests|, c.Terms());
  }

  function Flat(pages: seq<seq<Item>>): seq<Item> {
    if pages == [] then [] else pages[0] + Flat(pages[1..])
  }

  lemma {:induction false} FlatIsSeen(pages: seq<P.Page<Item>>)
    ensures Flat(ItemsOf(pages)) == P.Seen(pages)
  {
    if pages != [] {
      FlatIsSeen(pages[1..]);
      assert ItemsOf(pages)[1..] == ItemsOf(pages[1..]);
    }
  }

  /** The scope with this identity, if it matches, is in every state. */
  ghost predicate ThereThroughout(states: seq<seq<Scope>>, id: Scope -> string, filter: Option<Addr>, wadaptId: string) {
    forall k :: 0 <= k < |states| ==> Holding(states[k], id, filter, wadaptId)
  }

  ghost predicate Holding(scopes: seq<Scope>, id: Scope -> string, filter: Option<Addr>, wadaptId: string) {
    exists s :: s in scopes && Matches(filter, s) && id(s) == wadaptId
  }

  lemma ServedIsHonest(visits: seq<P.Request<Item>>, states: seq<seq<Scope>>, id: Scope -> string, filter: Option<Addr>)
    requires Served(visits, states, id, filter)
    ensures P.Honest(visits, IdOf) && Representable(visits, IdOf)
  {
    forall k | 0 <= k < |visits|
      ensures P.NoEmptyKey(visits[k].items, IdOf)
      ensures forall j :: 0 <= j < |visits[k].items| ==> Base64.Bytes(IdOf(visits[k].items[j])) && 1 <= |IdOf(visits[k].items[j])| <= MAX_KEY_BYTES
    {
      CarriedKeys(visits[k].items, "", visits[k].size);
      assert forall j :: 0 <= j < |visits[k].items| ==> visits[k].items[j] in visits[k].items;
    }
  }

  lemma ThereIsListed(visits: seq<P.Request<Item>>, states: seq<seq<Scope>>, id: Scope -> string, filter: Option<Addr>, wadaptId: string, n: nat)
    requires Served(visits, states, id, filter) && ThereThroughout(states, id, filter, wadaptId) && n <= |visits|
    ensures P.Throughout(visits, n, wadaptId, IdOf)
  {
    forall k | 0 <= k < n
      ensures P.Has(visits[k].items, wadaptId, IdOf)
    {
      assert Holding(states[k], id, filter, wadaptId);
      var s :| s in states[k] && Matches(filter, s) && id(s) == wadaptId;
      assert Item(id(s), s) in visits[k].items;
      var j :| 0 <= j < |visits[k].items| && visits[k].items[j] == Item(id(s), s);
      assert IdOf(visits[k].items[j]) == wadaptId;
    }
  }

  lemma WalkShows(visits: seq<P.Request<Item>>, states: seq<seq<Scope>>, id: Scope -> string, filter: Option<Addr>, wadaptId: string)
    requires Served(visits, states, id, filter) && P.Honest(visits, IdOf) && P.Completed(P.Walk(visits, "", IdOf))
    requires ThereThroughout(states, id, filter, wadaptId)
    ensures Shown(P.Seen(P.Walk(visits, "", IdOf)), wadaptId)
  {
    ThereIsListed(visits, states, id, filter, wadaptId, |P.Walk(visits, "", IdOf)|);
    assert P.Has(visits[0].items, wadaptId, IdOf) && P.NoEmptyKey(visits[0].items, IdOf);
    P.WalkMissesNothing(visits, "", wadaptId, IdOf);
    var seen := P.Seen(P.Walk(visits, "", IdOf));
    var i :| 0 <= i < |seen| && IdOf(seen[i]) == wadaptId;
    assert seen[i] in seen;
  }

  ghost predicate Shown(items: seq<Item>, wadaptId: string) {
    exists x :: x in items && x.wadaptId == wadaptId
  }

  ghost predicate NoneTwice(items: seq<Item>) {
    forall i, j :: 0 <= i < j < |items| ==> items[i].wadaptId != items[j].wadaptId
  }

  /** What a walk from the first page on has shown, whatever changed on the way. */
  lemma WalkedWhole(p: Paginator, visits: seq<P.Request<Item>>, states: seq<seq<Scope>>, id: Scope -> string, filter: Option<Addr>)
    requires Plain(p.scope) && Served(visits, states, id, filter) && Sized(visits)
    ensures var seen := Flat(Echo(p, visits, "", IdOf));
            && P.Sorted(seen, IdOf) && NoneTwice(seen)
            && (P.Completed(P.Walk(visits, "", IdOf)) ==>
                  forall wadaptId :: ThereThroughout(states, id, filter, wadaptId) ==> Shown(seen, wadaptId))
  {
    var walk := P.Walk(visits, "", IdOf);
    ServedIsHonest(visits, states, id, filter);
    EchoIsWalk(p, visits, "", "", IdOf);
    FlatIsSeen(walk);
    P.WalkNeverRepeats(visits, "", IdOf);
    SortedDiffer(P.Seen(walk));
    forall wadaptId | P.Completed(walk) && ThereThroughout(states, id, filter, wadaptId)
      ensures Shown(P.Seen(walk), wadaptId)
    {
      WalkShows(visits, states, id, filter, wadaptId);
    }
  }

  lemma SortedDiffer(items: seq<Item>)
    requires P.Sorted(items, IdOf)
    ensures NoneTwice(items)
  {
    forall i, j | 0 <= i < j < |items|
      ensures items[i].wadaptId != items[j].wadaptId
    {
      assert P.Less(IdOf(items[i]), IdOf(items[j]));
      P.LessIsTotal(IdOf(items[i]), IdOf(items[j]));
    }
  }

  /** What page k shows was there when page k was cut, under its own identity. */
  ghost predicate Honestly(pages: seq<seq<Item>>, states: seq<seq<Scope>>, id: Scope -> string, filter: Option<Addr>) {
    && |pages| == |states|
    && forall k, x :: 0 <= k < |pages| && x in pages[k] ==> x.scope in states[k] && x.wadaptId == id(x.scope) && Matches(filter, x.scope)
  }

  lemma DrawnHonestly(pages: seq<seq<Item>>, visits: seq<P.Request<Item>>, states: seq<seq<Scope>>, id: Scope -> string, filter: Option<Addr>)
    requires Drawn(pages, visits) && Served(visits, states, id, filter)
    ensures Honestly(pages, states, id, filter)
  {
    forall k, x | 0 <= k < |pages| && x in pages[k]
      ensures x.scope in states[k] && x.wadaptId == id(x.scope) && Matches(filter, x.scope)
    {
      assert DrawnFrom(pages[k], visits[k]);
      assert Lists(visits[k].items, states[k], id, filter);
    }
  }

  /** A client walking the listing by its tokens, with any requests and outside
      changes between any two pages. The states its pages were cut from are those
      the registry went through; it is shown nothing that was not there, no
      identity twice, in the order of identities; and if it came to the end,
      every matching scope that was there at each of its requests. It comes to
      the end unless it stops asking or a listing cannot be identified. */
  method WalkListing(c: Client, p: Paginator, filter: Option<Addr>, sizes: seq<nat>, between: seq<seq<Request>>)
    returns (pages: seq<seq<Item>>, done: bool, ghost visits: seq<P.Request<Item>>, ghost states: seq<seq<Scope>>)
    requires c.Valid() && Plain(p.scope) && |sizes| == |between| && forall k :: 0 <= k < |sizes| ==> sizes[k] > 0
    modifies c, c.ledger
    ensures c.Valid() && Followed(p, visits, states, c.Terms(), filter, "", sizes, between, old(c.scopes), c.scopes, pages, done)
    ensures Honestly(pages, states, c.Id(), filter) && P.Sorted(Flat(pages), IdOf) && NoneTwice(Flat(pages))
    ensures done ==> forall wadaptId :: ThereThroughout(states, c.Id(), filter, wadaptId) ==> Shown(Flat(pages), wadaptId)
  {
    pages, done, visits, states := Follow(c, p, filter, "", sizes, between);
    WalkedWhole(p, visits, states, c.Id(), filter);
    DrawnHonestly(pages, visits, states, c.Id(), filter);
  }
}
