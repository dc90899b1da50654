/** The scopes of one server, through the adapter's client: listing, creating,
    resizing and deleting by derived identity (internal/adapters/dhcpwindows:
    client.go, create.go, mutate.go). Each script is atomic. */
module Registry {
  import opened Wrappers
  import opened Ipv4
  import opened ScopeRules
  import opened Overlap
  import opened Pagination
  import opened Text
  import Identity
  import Drift

  /** A scope as the API serves it. */
  datatype Item = Item(wadaptId: string, scope: Scope)

  // ---- in the order of identities -----------------------------------------------------

  function IdOf(x: Item): string {
    x.wadaptId
  }

  function Insert(x: Item, sorted: seq<Item>): (r: seq<Item>)
    ensures multiset(r) == multiset(sorted) + multiset{x}
  {
    if sorted == [] || Less(x.wadaptId, sorted[0].wadaptId) then [x] + sorted
    else
      assert sorted == [sorted[0]] + sorted[1..];
      [sorted[0]] + Insert(x, sorted[1..])
  }

  /** slices.SortFunc by wadaptID. */
  function SortById(items: seq<Item>): (r: seq<Item>)
    ensures multiset(r) == multiset(items)
  {
    if items == [] then []
    else
      assert items == [items[0]] + items[1..];
      Insert(items[0], SortById(items[1..]))
  }

  ghost predicate DistinctIds(items: seq<Item>) {
    forall i, j :: 0 <= i < j < |items| ==> items[i].wadaptId != items[j].wadaptId
  }

  lemma {:induction false} InsertSorts(x: Item, sorted: seq<Item>)
    requires Sorted(sorted, IdOf) && forall y :: y in sorted ==> y.wadaptId != x.wadaptId
    ensures Sorted(Insert(x, sorted), IdOf)
  {
    if sorted != [] {
      LessIsTotal(x.wadaptId, sorted[0].wadaptId);
      assert sorted[0] in sorted;
      if Less(x.wadaptId, sorted[0].wadaptId) {
        forall j | 0 < j < |sorted|
          ensures Less(x.wadaptId, sorted[j].wadaptId)
        {
          assert Less(IdOf(sorted[0]), IdOf(sorted[j]));
          LessIsTransitive(x.wadaptId, sorted[0].wadaptId, sorted[j].wadaptId);
        }
        AtFront(x, sorted);
      } else {
        var rest := Insert(x, sorted[1..]);
        InsertSorts(x, sorted[1..]);
        forall j | 0 <= j < |rest|
          ensures Less(sorted[0].wadaptId, rest[j].wadaptId)
        {
          assert rest[j] in multiset(rest);
          if rest[j] != x {
            assert rest[j] in multiset(sorted[1..]);
            var k :| 0 <= k < |sorted[1..]| && sorted[1..][k] == rest[j];
            assert Less(IdOf(sorted[0]), IdOf(sorted[k + 1]));
          }
        }
        AtFront(sorted[0], rest);
      }
    }
  }

  lemma AtFront(x: Item, rest: seq<Item>)
    requires Sorted(rest, IdOf) && forall j :: 0 <= j < |rest| ==> Less(x.wadaptId, rest[j].wadaptId)
    ensures Sorted([x] + rest, IdOf)
  {
    var all := [x] + rest;
    forall i, j | 0 <= i < j < |all|
      ensures Less(IdOf(all[i]), IdOf(all[j]))
    {
      if i > 0 {
        assert Less(IdOf(rest[i - 1]), IdOf(rest[j - 1]));
      }
    }
  }

  lemma {:induction false} SortByIdSorts(items: seq<Item>)
    requires DistinctIds(items)
    ensures Sorted(SortById(items), IdOf)
  {
    if items != [] {
      var rest := SortById(items[1..]);
      SortByIdSorts(items[1..]);
      forall y | y in rest
        ensures y.wadaptId != items[0].wadaptId
      {
        assert y in multiset(rest);
        assert y in multiset(items[1..]);
        var k :| 0 <= k < |items[1..]| && items[1..][k] == y;
        assert items[k + 1] == y;
      }
      InsertSorts(items[0], rest);
    }
  }

  /** filterByScopeID; no filter keeps everything. */
  method FilterByScopeId(items: seq<Item>, filter: Option<Addr>) returns (matched: seq<Item>)
    ensures forall x :: x in matched <==> x in items && (filter.None? || x.scope.scopeId == filter.value)
    ensures Sorted(items, IdOf) ==> Sorted(matched, IdOf)
  {
    if filter.None? {
      return items;
    }
    matched := [];
    for i := 0 to |items|
      invariant forall x :: x in matched <==> x in items[..i] && x.scope.scopeId == filter.value
      invariant Sorted(items, IdOf) ==> Sorted(matched, IdOf)
    {
      if items[i].scope.scopeId == filter.value {
        if Sorted(items, IdOf) {
          forall k | 0 <= k < |matched|
            ensures Less(IdOf(matched[k]), IdOf(items[i]))
          {
            assert matched[k] in matched;
          }
        }
        matched := matched + [items[i]];
      }
      assert items[..i + 1] == items[..i] + [items[i]];
    }
    assert items[..|items|] == items;
  }

  // ---- the client ------------------------------------------------------------------------

  datatype CreateInput = CreateInput(
    name: string, description: string, state: string, kind: string, lease: int,
    start: Option<Addr>, end: Option<Addr>, mask: Option<Addr>)

  /** What the server gives a scope whose creator left it out. */
  datatype Defaults = Defaults(description: string, state: string, kind: string, lease: int)

  /** How a server's scopes are named, and what it fills in. */
  datatype Server = Server(id: Scope -> string, defaults: Defaults)

  function Chosen(sent: string, otherwise: string): string {
    if sent != "" then sent else otherwise
  }

  /** What Add-DhcpServerv4Scope makes of the input: env passes on a text that is
      not empty and a lease that is positive, and the server fills in the rest. */
  function Described(x: CreateInput, n: nat, d: Defaults): Scope
    requires x.start.Some? && x.end.Some? && x.mask.Some?
  {
    Scope(n, Network(x.start.value, x.mask.value), x.mask.value, x.start.value, x.end.value, x.name,
          Chosen(x.description, d.description), Chosen(x.state, d.state), Chosen(x.kind, d.kind),
          if x.lease > 0 then x.lease else d.lease)
  }

  datatype Update = Update(
    name: Option<string>, description: Option<string>, state: Option<string>, kind: Option<string>, lease: Option<int>,
    range: Resize)

  datatype Created = Created(item: Item) | ScopeExists(item: Item) | Invalid(errs: seq<FieldError>)

  datatype Mutated = Changed(item: Item) | Removed | NotFound | RangeUnusable(errs: seq<FieldError>) | BackendFault

  function Given<T>(sent: Option<T>, existing: T): T {
    if sent.Some? then sent.value else existing
  }

  /** What Set-DhcpServerv4Scope leaves: the ends together or not at all, and
      every field that was not sent as it was. */
  function Merged(s: Scope, u: Update): Scope {
    var t := s.(name := Given(u.name, s.name), description := Given(u.description, s.description),
                state := Given(u.state, s.state), kind := Given(u.kind, s.kind), lease := Given(u.lease, s.lease));
    if u.range.start.None? && u.range.end.None? then t
    else
      var a, b := Effective(u.range.start, Some(s.start)), Effective(u.range.end, Some(s.end));
      if a.None? || b.None? then t else t.(start := a.value, end := b.value)
  }

  function ExistingOf(s: Scope): Existing {
    Existing(s.scopeId, Some(s.mask), Some(s.start), Some(s.end))
  }

  function LooksOf(s: Scope): Drift.Fingerprint {
    Drift.Fingerprint(s.name, s.start, s.end, s.mask, s.lease)
  }

  function SightingOf(x: Item): Drift.Sighting {
    Drift.Sighting(x.wadaptId, x.scope.scopeId, LooksOf(x.scope))
  }

  function Sightings(items: seq<Item>): (r: seq<Drift.Sighting>)
    ensures |r| == |items| && forall i :: 0 <= i < |items| ==> r[i] == SightingOf(items[i])
  {
    seq(|items|, i requires 0 <= i < |items| => SightingOf(items[i]))
  }

  function Identified(list: seq<Scope>, id: Scope -> string): (items: seq<Item>)
    ensures |items| == |list| && forall i :: 0 <= i < |list| ==> items[i] == Item(id(list[i]), list[i])
  {
    seq(|list|, i requires 0 <= i < |list| => Item(id(list[i]), list[i]))
  }

  /** identify: a collision of derived identities is an error, not a listing. */
  method Identify(list: seq<Scope>, id: Scope -> string) returns (items: Option<seq<Item>>)
    ensures items.Some? <==> DistinctIds(Identified(list, id))
    ensures items.Some? ==> items.value == Identified(list, id)
  {
    var seen: map<string, Addr> := map[];
    var r: seq<Item> := [];
    for i := 0 to |list|
      invariant |r| == i && forall j :: 0 <= j < i ==> r[j] == Item(id(list[j]), list[j])
      invariant forall j :: 0 <= j < i ==> r[j].wadaptId in seen
      invariant forall x :: x in seen ==> exists j :: 0 <= j < i && r[j].wadaptId == x
      invariant DistinctIds(r)
    {
      var x := Item(id(list[i]), list[i]);
      if x.wadaptId in seen {
        ghost var j :| 0 <= j < i && r[j].wadaptId == x.wadaptId;
        assert Identified(list, id)[j].wadaptId == Identified(list, id)[i].wadaptId;
        return None;
      }
      seen := seen[x.wadaptId := x.scope.scopeId];
      r := r + [x];
    }
    assert r == Identified(list, id);
    items := Some(r);
  }

  /** The scan of a listing, which holds the items of `all` in some order. */
  method FindById(items: seq<Item>, ghost all: seq<Item>, wadaptId: string) returns (found: Option<Item>)
    requires multiset(items) == multiset(all)
    ensures found.Some? ==> found.value in all && found.value.wadaptId == wadaptId
    ensures found.None? ==> forall x :: x in all ==> x.wadaptId != wadaptId
  {
    for i := 0 to |items|
      invariant forall j :: 0 <= j < i ==> items[j].wadaptId != wadaptId
    {
      if items[i].wadaptId == wadaptId {
        assert items[i] in multiset(items);
        return Some(items[i]);
      }
    }
    forall x | x in all
      ensures x.wadaptId != wadaptId
    {
      assert x in multiset(all);
      assert x in multiset(items);
    }
    found := None;
  }

  class Client {
    const mac: Identity.Mac
    const serverName: string
    const ledger: Drift.Ledger
    const defaults: Defaults

    /** The server's scopes. */
    var scopes: seq<Scope>

    /** The drift events emitted, and every sighting with the way it came by. */
    var emitted: seq<Drift.Report>
    ghost var log: seq<Drift.Seen>

    var next: nat

    /** The subnet and mask of every scope ever created, by serial. */
    ghost var issued: seq<(Addr, Addr)>

    ghost predicate Valid()
      reads this, ledger
    {
      && Kept(scopes, issued) && |issued| == next
      && ledger.Valid() && ledger.history == Drift.SightingsIn(log) && emitted == Drift.Emitted(log)
    }

    constructor (mac: Identity.Mac, serverName: string, ledger: Drift.Ledger, defaults: Defaults, scopes: seq<Scope>)
      requires ledger.Valid() && ledger.history == [] && Separate(scopes) && forall i :: 0 <= i < |scopes| ==> scopes[i].serial == i
      ensures Valid() && this.ledger == ledger && this.scopes == scopes && emitted == [] && log == []
    {
      this.mac, this.serverName, this.ledger, this.defaults, this.scopes := mac, serverName, ledger, defaults, scopes;
      emitted, log := [], [];
      next := |scopes|;
      issued := seq(|scopes|, i requires 0 <= i < |scopes| => (scopes[i].scopeId, scopes[i].mask));
    }

    /** deriveWadaptID. */
    function Id(): Scope -> string {
      (s: Scope) => Identity.Derive(mac, serverName, Identity.DottedQuad(s.scopeId))
    }

    /** What is fixed of this server. */
    ghost function Terms(): Server {
      Server(Id(), defaults)
    }

    /** The ledger knows every scope exactly as it is. */
    ghost predicate KnowsAll()
      reads this, ledger
    {
      && DistinctIds(Identified(scopes, Id()))
      && Drift.UpToDate(ledger.history, Sightings(Identified(scopes, Id())))
    }

    /** What a listing adds to the log: every scope, or nothing when two of them
        derive one identity. */
    ghost function Listing(): seq<Drift.Seen>
      reads this
    {
      ListingOf(scopes, Id())
    }

    /** reportDrift: observe, and emit what it reports. */
    method ReportDrift(sightings: seq<Drift.Sighting>, ghost way: Drift.Way)
      requires Valid() && !way.ByUpdate?
      modifies this`emitted, this`log, ledger
      ensures Valid() && log == old(log) + Drift.By(way, sightings)
      ensures emitted == old(emitted) + Drift.Reports(old(ledger.history), sightings)
      ensures ledger.history == old(ledger.history) + sightings
    {
      ghost var more := log + Drift.By(way, sightings);
      Heard(log, way, sightings, ledger.history, more);
      var reports := ledger.Observe(sightings);
      emitted := emitted + reports;
      log := more;
    }

    /** The first half of ListScopes: identify what the server holds and tell the
        ledger of it. */
    method IdentifyAll() returns (identified: Option<seq<Item>>)
      requires Valid()
      modifies this`emitted, this`log, ledger
      ensures Valid() && log == old(log) + Listing()
      ensures identified == if DistinctIds(Identified(scopes, Id())) then Some(Identified(scopes, Id())) else None
      ensures emitted == old(emitted) + ListingReports(old(ledger.history), scopes, Id())
      ensures identified.Some? ==> KnowsAll()
    {
      identified := Identify(scopes, Id());
      if identified.Some? {
        ListedIsKnown(ledger.history, identified.value);
        ReportDrift(Sightings(identified.value), Drift.InListing);
      } else {
        assert log + [] == log;
      }
    }

    /** ListScopes: every scope, in strictly ascending order of identity, which
        is what Slice demands of a listing; and an event for every identity that
        has drifted, so none if the ledger knew them all. */
    method ListScopes() returns (items: Option<seq<Item>>)
      requires Valid()
      modifies this`emitted, this`log, ledger
      ensures Valid() && log == old(log) + Listing()
      ensures items.Some? <==> DistinctIds(Identified(scopes, Id()))
      ensures items.Some? ==> multiset(items.value) == multiset(Identified(scopes, Id())) && Sorted(items.value, IdOf) && KnowsAll()
      ensures emitted == old(emitted) + ListingReports(old(ledger.history), scopes, Id())
      ensures old(KnowsAll()) ==> emitted == old(emitted)
    {
      ghost var history, all := ledger.history, Identified(scopes, Id());
      var identified := IdentifyAll();
      if DistinctIds(all) && Drift.UpToDate(history, Sightings(all)) {
        Drift.KnownIsQuiet(history, Sightings(all));
      }
      if identified.None? {
        return None;
      }
      SortByIdSorts(identified.value);
      items := Some(SortById(identified.value));
    }

    /** resolveScope: list, then scan. */
    method ResolveScope(wadaptId: string) returns (r: Resolved)
      requires Valid()
      modifies this`emitted, this`log, ledger
      ensures Valid() && log == old(log) + Listing()
      ensures emitted == old(emitted) + ListingReports(old(ledger.history), scopes, Id())
      ensures r.ListFault? <==> !DistinctIds(Identified(scopes, Id()))
      ensures r.Found? ==> KnowsAll() && r.scope in scopes && Id()(r.scope) == wadaptId
      ensures r.Missing? ==> Absent(scopes, Id(), wadaptId)
    {
      var items := ListScopes();
      if items.None? {
        return ListFault;
      }
      var found := FindById(items.value, Identified(scopes, Id()), wadaptId);
      ScanDecides(scopes, Id(), wadaptId, found);
      r := if found.Some? then Found(found.value.scope) else Missing;
    }

    /** The place of the scope resolved, found anew by its subnet. */
    method ResolveIndex(wadaptId: string) returns (r: Resolved, i: nat)
      requires Valid()
      modifies this`emitted, this`log, ledger
      ensures Valid() && log == old(log) + Listing()
      ensures emitted == old(emitted) + ListingReports(old(ledger.history), scopes, Id())
      ensures r.ListFault? <==> !DistinctIds(Identified(scopes, Id()))
      ensures r.Found? ==> KnowsAll() && i < |scopes| && scopes[i] == r.scope && Id()(scopes[i]) == wadaptId
      ensures r.Missing? ==> Absent(scopes, Id(), wadaptId)
    {
      i := 0;
      r := ResolveScope(wadaptId);
      if r.Found? {
        i := Locate(scopes, r.scope);
      }
    }

    /** Remove-DhcpServerv4Scope. */
    method RemoveScope(i: nat)
      requires Valid() && i < |scopes|
      modifies this`scopes
      ensures Valid() && scopes == Dropped(old(scopes), i)
    {
      DroppedIsSeparate(scopes, i, issued);
      scopes := Dropped(scopes, i);
    }

    /** Add-DhcpServerv4Scope. */
    method PlaceScope(s: Scope)
      requires Valid() && Coherent(s) && s.serial == next
      requires forall i :: 0 <= i < |scopes| ==> !Overlaps(s.scopeId, s.mask, scopes[i].scopeId, scopes[i].mask)
      modifies this`scopes, this`next, this`issued
      ensures Valid() && old(issued) <= issued
      ensures scopes == old(scopes) + [s]
    {
      SeparateAppend(scopes, s);
      scopes := scopes + [s];
      issued := issued + [(s.scopeId, s.mask)];
      next := next + 1;
    }

    /** The adapter's own create, which the ledger is told of. */
    method AddScope(s: Scope) returns (item: Item)
      requires Valid() && Coherent(s) && s.serial == next
      requires forall i :: 0 <= i < |scopes| ==> !Overlaps(s.scopeId, s.mask, scopes[i].scopeId, scopes[i].mask)
      modifies this
      modifies ledger
      ensures Valid() && old(issued) <= issued
      ensures scopes == old(scopes) + [s] && item == Item(Id()(s), s)
      ensures log == old(log) + Drift.By(Drift.ByCreate, [SightingOf(item)])
      ensures emitted == old(emitted) + Drift.Reports(old(ledger.history), [SightingOf(item)])
    {
      PlaceScope(s);
      item := Item(Id()(s), s);
      ReportDrift([SightingOf(item)], Drift.ByCreate);
    }

    /** Set-DhcpServerv4Scope, and the ledger told of it without a word. */
    method SetScope(i: nat, u: Update) returns (item: Item)
      requires Valid() && KnowsAll() && i < |scopes| && Usable(scopes[i], u)
      modifies this`scopes, this`log, ledger
      ensures log == old(log) + [Drift.Seen(SightingOf(item), Drift.ByUpdate)]
      ensures Valid() && KnowsAll()
      ensures scopes == old(scopes)[i := Merged(old(scopes)[i], u)]
      ensures item == Item(Id()(old(scopes)[i]), scopes[i])
    {
      ghost var before := scopes;
      ChangedIsSeparate(scopes, i, u, issued);
      scopes := scopes[i := Merged(scopes[i], u)];
      item := Item(Id()(scopes[i]), scopes[i]);
      KnownAfterUpdate(ledger.history, before, i, scopes[i], Id());
      Drift.EmittedSnoc(log, Drift.Seen(SightingOf(item), Drift.ByUpdate));
      var _ := ledger.Observe([SightingOf(item)]);
      log := log + [Drift.Seen(SightingOf(item), Drift.ByUpdate)];
    }

    /** CreateScope, on input the validation accepted: a conflict names the first
        scope that shares an address with the new block, and nothing changes. */
    method CreateScope(x: CreateInput) returns (r: Created)
      requires Valid() && x.start.Some? && x.end.Some? && x.mask.Some?
      requires Leasable(x.start.value, x.end.value, x.mask.value)
      modifies this, ledger
      ensures Valid() && old(issued) <= issued && !r.Invalid?
      ensures var net := Network(x.start.value, x.mask.value);
              && (r.ScopeExists? <==> exists i :: 0 <= i < |old(scopes)| && Shares(net, x.mask.value, old(scopes)[i].scopeId, old(scopes)[i].mask))
              && (r.ScopeExists? ==> Conflicts(net, x.mask.value, old(scopes), r.item.scope))
      ensures r.ScopeExists? ==> scopes == old(scopes) && log == old(log) && emitted == old(emitted)
      ensures r.Created? ==>
                && scopes == old(scopes) + [r.item.scope] && r.item.scope == Described(x, r.item.scope.serial, defaults)
                && log == old(log) + [Drift.Seen(SightingOf(r.item), Drift.ByCreate)]
                && emitted == old(emitted) + Drift.ReportOf(old(ledger.history), SightingOf(r.item))
      ensures r.item.wadaptId == Id()(r.item.scope)
    {
      var existing := Conflicting(Network(x.start.value, x.mask.value), x.mask.value, scopes);
      var created := Described(x, next, defaults);
      CoherentIsAligned(created);
      ConflictsDecide(created.scopeId, created.mask, scopes, existing);
      if |existing| > 0 {
        return ScopeExists(Item(Id()(existing[0]), existing[0]));
      }
      var item := AddScope(created);
      OneSighting(old(ledger.history), SightingOf(item), Drift.ByCreate);
      r := Created(item);
    }

    /** DeleteScope: exactly the scope with that identity goes. The ledger keeps
        its entry, so that a later scope on the subnet is noticed. */
    method DeleteScope(wadaptId: string) returns (r: Mutated)
      requires Valid()
      modifies this`scopes, this`emitted, this`log, ledger
      ensures Valid() && log == old(log) + old(Listing())
      ensures emitted == old(emitted) + ListingReports(old(ledger.history), old(scopes), Id())
      ensures r.Removed? || r.NotFound? || r.BackendFault?
      ensures r.BackendFault? <==> !DistinctIds(Identified(old(scopes), Id()))
      ensures r.NotFound? ==> Absent(old(scopes), Id(), wadaptId)
      ensures if r.Removed? then exists i :: 0 <= i < |old(scopes)| && Id()(old(scopes)[i]) == wadaptId && scopes == Dropped(old(scopes), i)
              else scopes == old(scopes)
    {
      var resolved, i := ResolveIndex(wadaptId);
      if !resolved.Found? {
        return if resolved.Missing? then NotFound else BackendFault;
      }
      RemoveScope(i);
      r := Removed;
    }

    /** The second half of UpdateScope, the target at hand. */
    method ResizeScope(i: nat, u: Update) returns (r: Mutated)
      requires Valid() && KnowsAll() && i < |scopes|
      modifies this`scopes, this`log, ledger
      ensures Valid() && (r.Changed? || r.RangeUnusable?)
      ensures r.RangeUnusable? ==> r.errs != [] && !Usable(old(scopes)[i], u) && scopes == old(scopes) && log == old(log)
      ensures r.Changed? ==>
                && KnowsAll() && Usable(old(scopes)[i], u) && r.item == Item(Id()(old(scopes)[i]), Merged(old(scopes)[i], u))
                && scopes == old(scopes)[i := r.item.scope] && log == old(log) + [Drift.Seen(SightingOf(r.item), Drift.ByUpdate)]
    {
      var offending := ValidateEffectiveRange(u.range, ExistingOf(scopes[i]));
      UsableDecides(scopes[i], u, offending);
      if offending.value != [] {
        return RangeUnusable(offending.value);
      }
      var item := SetScope(i, u);
      r := Changed(item);
    }

    /** UpdateScope: the merged range must be leasable in the scope's own subnet;
        then the sent fields change, everything else stays, the identity with
        it, and the ledger already knows. */
    method UpdateScope(wadaptId: string, u: Update) returns (r: Mutated)
      requires Valid()
      modifies this`scopes, this`emitted, this`log, ledger
      ensures Valid()
      ensures log == old(log) + UpdateLog(old(scopes), Id(), r)
      ensures emitted == old(emitted) + ListingReports(old(ledger.history), old(scopes), Id())
      ensures UpdateOutcome(old(scopes), scopes, Id(), wadaptId, u, r)
      ensures r.Changed? ==> KnowsAll()
    {
      ghost var before, history := scopes, log;
      var resolved, i := ResolveIndex(wadaptId);
      if !resolved.Found? {
        r := if resolved.Missing? then NotFound else BackendFault;
      } else {
        r := ResizeScope(i, u);
        FoundOutcome(before, scopes, Id(), wadaptId, u, i, r);
      }
      LogUpdated(history, before, Id(), r);
    }

    /** Another administrator's edit, create or delete, which the ledger is not
        told of. What the server itself would refuse changes nothing. */
    method Disturb(change: Outside)
      requires Valid()
      modifies this`scopes, this`next, this`issued
      ensures Valid() && old(issued) <= issued
      ensures Disturbed(change, old(scopes), scopes)
    {
      match change
      case Edit(i, u) =>
        if i < |scopes| && Usable(scopes[i], u) {
          ChangedIsSeparate(scopes, i, u, issued);
          scopes := scopes[i := Merged(scopes[i], u)];
        }
      case Create(scope) =>
        var s := scope.(serial := next);
        if Coherent(s) && Conflicting(s.scopeId, s.mask, scopes) == [] {
          CoherentIsAligned(s);
          ConflictsDecide(s.scopeId, s.mask, scopes, []);
          PlaceScope(s);
        }
      case Remove(i) =>
        if i < |scopes| {
          RemoveScope(i);
        }
    }

    method HandleCreate(x: CreateInput) returns (ghost more: seq<Drift.Seen>)
      requires Valid()
      modifies this, ledger
      ensures Valid() && old(issued) <= issued
      ensures log == old(log) + more && Noted(Post(x), old(scopes), scopes, more, Terms())
    {
      more := [];
      assert log + more == log;
      var errs := ValidateAddressing(x.start, x.end, x.mask);
      if errs == [] {
        var r := CreateScope(x);
        if r.Created? {
          more := [Drift.Seen(SightingOf(r.item), Drift.ByCreate)];
          assert more == [Sighted(r.item.scope, Id(), Drift.ByCreate)];
          assert Placed(x, old(scopes), scopes, more, Terms());
        }
      }
    }

    method HandleUpdate(id: string, u: Update) returns (ghost more: seq<Drift.Seen>)
      requires Valid()
      modifies this`scopes, this`emitted, this`log, ledger
      ensures Valid()
      ensures log == old(log) + more && Noted(Patch(id, u), old(scopes), scopes, more, Terms())
    {
      var r := UpdateScope(id, u);
      more := UpdateLog(old(scopes), Id(), r);
      UpdateNoted(old(scopes), scopes, Terms(), id, u, r);
    }

    /** One request, as the handlers make it: a create is validated first. */
    method Handle(request: Request) returns (ghost more: seq<Drift.Seen>)
      requires Valid()
      modifies this, ledger
      ensures Valid() && old(issued) <= issued
      ensures log == old(log) + more && Noted(request, old(scopes), scopes, more, Terms())
    {
      match request
      case List =>
        more := Listing();
        var _ := ListScopes();
      case Post(x) =>
        more := HandleCreate(x);
      case Patch(id, u) =>
        more := HandleUpdate(id, u);
      case Delete(id) =>
        more := Listing();
        ghost var before := scopes;
        var r := DeleteScope(id);
        DeleteNoted(before, scopes, Terms(), id, r);
      case Foreign(change) =>
        more := [];
        Disturb(change);
    }

    /** Any run of requests and outside edits, creates and deletes, from any valid
        state: every state along the way has disjoint blocks, no subnet twice
        and pools inside their own block, and a scope keeps for life the subnet
        it was created with, and the identity with it. Each request changes what
        it should and adds to the log what it saw, and an event has been emitted
        exactly when some sighting by a listing or a create differed from the
        last sighting of its identity, by whatever way and whichever scope. */
    method Serve(requests: seq<Request>) returns (ghost states: seq<seq<Scope>>, ghost logs: seq<seq<Drift.Seen>>)
      requires Valid()
      modifies this, ledger
      ensures Valid()
      ensures Told(requests, states, logs, |requests|, Terms())
      ensures states[0] == old(scopes) && states[|requests|] == scopes && logs[0] == old(log) && logs[|requests|] == log
      ensures forall k :: 0 <= k < |states| ==> Separate(states[k]) && DistinctSubnets(states[k])
      ensures forall j, k, s, t :: 0 <= j < |states| && 0 <= k < |states| && s in states[j] && t in states[k] && s.serial == t.serial ==>
                s.scopeId == t.scopeId && s.mask == t.mask && Id()(s) == Id()(t)
      ensures forall r :: r in emitted <==> exists k: nat :: Drift.Drifted(log, k, r)
    {
      states, logs := [scopes], [log];
      for i := 0 to |requests|
        invariant Valid()
        invariant Told(requests, states, logs, i, Terms()) && AllKept(states, issued)
        invariant states[0] == old(scopes) && states[i] == scopes && logs[0] == old(log) && logs[i] == log
      {
        ghost var before := issued;
        ghost var more := Handle(requests[i]);
        KeptSnoc(states, before, scopes, issued);
        ToldSnoc(requests, states, logs, i, scopes, log, more, Terms());
        states, logs := states + [scopes], logs + [log];
      }
      SerialsAgree(states, issued, Id());
      SubnetsDiffer(states, issued);
      EventsAreDrift(log);
    }
  }

  /** How the log grew with each of the first `n` requests. */
  ghost predicate Told(requests: seq<Request>, states: seq<seq<Scope>>, logs: seq<seq<Drift.Seen>>, n: nat, server: Server) {
    && n <= |requests| && |states| == |logs| == n + 1
    && forall k :: 0 <= k < n ==> Grew(requests[k], states[k], states[k + 1], logs[k], logs[k + 1], server)
  }

  lemma ToldSnoc(requests: seq<Request>, states: seq<seq<Scope>>, logs: seq<seq<Drift.Seen>>, n: nat,
                 after: seq<Scope>, log: seq<Drift.Seen>, more: seq<Drift.Seen>, server: Server)
    requires n < |requests| && Told(requests, states, logs, n, server)
    requires log == logs[n] + more && Noted(requests[n], states[n], after, more, server)
    ensures Told(requests, states + [after], logs + [log], n + 1, server)
  {
    assert Grew(requests[n], states[n], after, logs[n], log, server);
  }

  ghost predicate AllKept(states: seq<seq<Scope>>, issued: seq<(Addr, Addr)>) {
    forall k :: 0 <= k < |states| ==> Separate(states[k]) && AllIssued(states[k], issued)
  }

  lemma KeptSnoc(states: seq<seq<Scope>>, before: seq<(Addr, Addr)>, scopes: seq<Scope>, issued: seq<(Addr, Addr)>)
    requires AllKept(states, before) && before <= issued && Kept(scopes, issued)
    ensures AllKept(states + [scopes], issued)
  {
    forall k | 0 <= k < |states|
      ensures AllIssued(states[k], issued)
    {
      assert AllIssued(states[k], before);
    }
  }

  lemma SerialsAgree(states: seq<seq<Scope>>, issued: seq<(Addr, Addr)>, id: Scope -> string)
    requires AllKept(states, issued) && forall s: Scope, t: Scope :: s.scopeId == t.scopeId ==> id(s) == id(t)
    ensures forall j, k, s, t :: 0 <= j < |states| && 0 <= k < |states| && s in states[j] && t in states[k] && s.serial == t.serial ==>
              s.scopeId == t.scopeId && s.mask == t.mask && id(s) == id(t)
  {
    forall j, k, s, t | 0 <= j < |states| && 0 <= k < |states| && s in states[j] && t in states[k] && s.serial == t.serial
      ensures s.scopeId == t.scopeId && s.mask == t.mask && id(s) == id(t)
    {
      assert AllIssued(states[j], issued) && AllIssued(states[k], issued);
    }
  }

  ghost predicate DistinctSubnets(scopes: seq<Scope>) {
    forall i, j :: 0 <= i < j < |scopes| ==> scopes[i].scopeId != scopes[j].scopeId
  }

  lemma SubnetsDiffer(states: seq<seq<Scope>>, issued: seq<(Addr, Addr)>)
    requires AllKept(states, issued)
    ensures forall k :: 0 <= k < |states| ==> DistinctSubnets(states[k])
  {
    forall k | 0 <= k < |states|
      ensures DistinctSubnets(states[k])
    {
      forall i, j | 0 <= i < j < |states[k]|
        ensures states[k][i].scopeId != states[k][j].scopeId
      {
        SeparateIdsDiffer(states[k], i, j);
      }
    }
  }

  lemma EventsAreDrift(log: seq<Drift.Seen>)
    ensures forall r :: r in Drift.Emitted(log) <==> exists k: nat :: Drift.Drifted(log, k, r)
  {
    forall r
      ensures r in Drift.Emitted(log) <==> exists k: nat :: Drift.Drifted(log, k, r)
    {
      Drift.EmittedIffDrifted(log, r);
    }
  }

  ghost predicate AllIssued(scopes: seq<Scope>, issued: seq<(Addr, Addr)>) {
    forall s :: s in scopes ==> Issued(s, issued)
  }

  datatype Request = List | Post(input: CreateInput) | Patch(id: string, update: Update) | Delete(id: string) | Foreign(change: Outside)

  datatype Outside = Edit(i: nat, update: Update) | Create(scope: Scope) | Remove(i: nat)

  ghost predicate Disturbed(change: Outside, before: seq<Scope>, after: seq<Scope>) {
    match change
    case Edit(i, u) =>
      if i < |before| && Usable(before[i], u) then after == before[i := Merged(before[i], u)] else after == before
    case Create(scope) =>
      if Coherent(scope) && Conflicting(scope.scopeId, scope.mask, before) == [] then
        exists n: nat :: after == before + [scope.(serial := n)]
      else after == before
    case Remove(i) => if i < |before| then after == Dropped(before, i) else after == before
  }

  ghost function ListingOf(scopes: seq<Scope>, id: Scope -> string): seq<Drift.Seen> {
    if DistinctIds(Identified(scopes, id)) then Drift.By(Drift.InListing, Sightings(Identified(scopes, id))) else []
  }

  lemma Heard(log: seq<Drift.Seen>, way: Drift.Way, sightings: seq<Drift.Sighting>, history: seq<Drift.Sighting>, more: seq<Drift.Seen>)
    requires !way.ByUpdate? && history == Drift.SightingsIn(log) && more == log + Drift.By(way, sightings)
    ensures Drift.Emitted(more) == Drift.Emitted(log) + Drift.Reports(history, sightings)
    ensures Drift.SightingsIn(more) == history + sightings
  {
    Drift.EmittedAppend(log, way, sightings);
    Drift.SightingsAppend(log, way, sightings);
  }

  /** What the scan of a listing says of the scopes listed. */
  lemma ScanDecides(scopes: seq<Scope>, id: Scope -> string, wadaptId: string, found: Option<Item>)
    requires found.Some? ==> found.value in Identified(scopes, id) && found.value.wadaptId == wadaptId
    requires found.None? ==> forall x :: x in Identified(scopes, id) ==> x.wadaptId != wadaptId
    ensures found.Some? ==> found.value.scope in scopes && id(found.value.scope) == wadaptId
    ensures found.None? ==> Absent(scopes, id, wadaptId)
  {
    var all := Identified(scopes, id);
    if found.None? {
      forall s | s in scopes
        ensures id(s) != wadaptId
      {
        var k :| 0 <= k < |scopes| && scopes[k] == s;
        assert all[k] in all;
      }
    }
  }

  ghost predicate Absent(scopes: seq<Scope>, id: Scope -> string, wadaptId: string) {
    forall s :: s in scopes ==> id(s) != wadaptId
  }

  /** One scope, with the item's identity, was changed as asked, within its own subnet. */
  ghost predicate Resized(before: seq<Scope>, after: seq<Scope>, id: Scope -> string, u: Update, x: Item) {
    exists i :: && 0 <= i < |before| && id(before[i]) == x.wadaptId && Usable(before[i], u)
                && x.scope == Merged(before[i], u) && after == before[i := x.scope]
  }

  /** What an update answers, and what it changes: nothing, or that one scope. */
  ghost predicate UpdateOutcome(before: seq<Scope>, after: seq<Scope>, id: Scope -> string, wadaptId: string, u: Update, r: Mutated) {
    && (r.BackendFault? <==> !DistinctIds(Identified(before, id)))
    && match r
       case Changed(x) => x.wadaptId == wadaptId && Resized(before, after, id, u, x)
       case NotFound => after == before && Absent(before, id, wadaptId)
       case RangeUnusable(errs) => after == before && errs != [] && exists s :: s in before && id(s) == wadaptId && !Usable(s, u)
       case BackendFault => after == before
       case Removed => false
  }

  lemma FoundOutcome(before: seq<Scope>, after: seq<Scope>, id: Scope -> string, wadaptId: string, u: Update, i: nat, r: Mutated)
    requires DistinctIds(Identified(before, id)) && i < |before| && id(before[i]) == wadaptId
    requires r.RangeUnusable? ==> r.errs != [] && !Usable(before[i], u) && after == before
    requires r.Changed? ==> && Usable(before[i], u) && r.item == Item(wadaptId, Merged(before[i], u)) && after == before[i := r.item.scope]
    requires r.Changed? || r.RangeUnusable?
    ensures UpdateOutcome(before, after, id, wadaptId, u, r)
  {
  }

  /** What an update adds to the log: the listing it resolved by, and if it
      changed anything the new looks, unannounced. */
  ghost function UpdateLog(before: seq<Scope>, id: Scope -> string, r: Mutated): seq<Drift.Seen> {
    ListingOf(before, id) + if r.Changed? then [Drift.Seen(SightingOf(r.item), Drift.ByUpdate)] else []
  }

  lemma LogUpdated(log: seq<Drift.Seen>, before: seq<Scope>, id: Scope -> string, r: Mutated)
    ensures log + UpdateLog(before, id, r) ==
            if r.Changed? then log + ListingOf(before, id) + [Drift.Seen(SightingOf(r.item), Drift.ByUpdate)]
            else log + ListingOf(before, id)
  {
  }

  lemma UpdateNoted(before: seq<Scope>, after: seq<Scope>, server: Server, wadaptId: string, u: Update, r: Mutated)
    requires UpdateOutcome(before, after, server.id, wadaptId, u, r)
    requires r.Changed? ==> server.id(r.item.scope) == r.item.wadaptId
    ensures Noted(Patch(wadaptId, u), before, after, UpdateLog(before, server.id, r), server)
  {
    var id := server.id;
    ChangedIffChangeable(before, after, id, wadaptId, u, r);
    if r.Changed? {
      var i :| && 0 <= i < |before| && id(before[i]) == r.item.wadaptId && Usable(before[i], u)
               && r.item.scope == Merged(before[i], u) && after == before[i := r.item.scope];
      assert after == before[i := Merged(before[i], u)];
      assert [Sighted(after[i], id, Drift.ByUpdate)] == [Drift.Seen(SightingOf(r.item), Drift.ByUpdate)];
    }
  }

  lemma ChangedIffChangeable(before: seq<Scope>, after: seq<Scope>, id: Scope -> string, wadaptId: string, u: Update, r: Mutated)
    requires UpdateOutcome(before, after, id, wadaptId, u, r)
    ensures r.Changed? <==> Changeable(before, id, wadaptId, u)
    ensures !r.Changed? ==> after == before
  {
    if r.RangeUnusable? {
      var s :| s in before && id(s) == wadaptId && !Usable(s, u);
      forall i | 0 <= i < |before| && id(before[i]) == wadaptId
        ensures !Usable(before[i], u)
      {
        var k :| 0 <= k < |before| && before[k] == s;
        assert Identified(before, id)[i].wadaptId == Identified(before, id)[k].wadaptId;
      }
    }
  }

  lemma DeleteNoted(before: seq<Scope>, after: seq<Scope>, server: Server, wadaptId: string, r: Mutated)
    requires r.Removed? || r.NotFound? || r.BackendFault?
    requires r.BackendFault? <==> !DistinctIds(Identified(before, server.id))
    requires r.NotFound? ==> Absent(before, server.id, wadaptId)
    requires if r.Removed? then exists i :: 0 <= i < |before| && server.id(before[i]) == wadaptId && after == Dropped(before, i)
             else after == before
    ensures Noted(Delete(wadaptId), before, after, ListingOf(before, server.id), server)
  {
    if r.Removed? {
      var i :| 0 <= i < |before| && server.id(before[i]) == wadaptId && after == Dropped(before, i);
      assert before[i] in before;
    }
  }

  /** The events a listing calls for. */
  ghost function ListingReports(history: seq<Drift.Sighting>, scopes: seq<Scope>, id: Scope -> string): seq<Drift.Report> {
    if DistinctIds(Identified(scopes, id)) then Drift.Reports(history, Sightings(Identified(scopes, id))) else []
  }

  /** A listing reports a scope exactly when its identity last looked different:
      so also one deleted and created anew on its subnet behind the adapter's back. */
  lemma ListingNotices(history: seq<Drift.Sighting>, scopes: seq<Scope>, id: Scope -> string, k: nat)
    requires DistinctIds(Identified(scopes, id)) && k < |scopes|
    ensures var was := Drift.LastSeen(history, id(scopes[k]));
            (exists r :: r in ListingReports(history, scopes, id) && r.id == id(scopes[k])) <==> was.Some? && was.value != LooksOf(scopes[k])
  {
    var seen := Sightings(Identified(scopes, id));
    LastOfOthers(history, scopes, id, k);
    var was := Drift.LastSeen(history, id(scopes[k]));
    if was.Some? {
      var r := Drift.Report(seen[k].id, seen[k].scopeId, was.value, seen[k].looks);
      Drift.ReportedIffChanged(history, seen, r);
      assert was.value != LooksOf(scopes[k]) ==> Drift.Changed(history, seen, k, r);
    }
    forall r | r in ListingReports(history, scopes, id) && r.id == id(scopes[k])
      ensures was.Some? && was.value != LooksOf(scopes[k])
    {
      Drift.ReportedIffChanged(history, seen, r);
      var j :| Drift.Changed(history, seen, j, r);
      assert Identified(scopes, id)[j].wadaptId == Identified(scopes, id)[k].wadaptId;
      assert j == k;
    }
  }

  lemma LastOfOthers(history: seq<Drift.Sighting>, scopes: seq<Scope>, id: Scope -> string, k: nat)
    requires DistinctIds(Identified(scopes, id)) && k < |scopes|
    ensures var seen := Sightings(Identified(scopes, id)); Drift.LastSeen(history + seen[..k], seen[k].id) == Drift.LastSeen(history, seen[k].id)
  {
    var seen := Sightings(Identified(scopes, id));
    forall i | 0 <= i < k
      ensures seen[..k][i].id != seen[k].id
    {
      assert Identified(scopes, id)[i].wadaptId != Identified(scopes, id)[k].wadaptId;
    }
    Drift.LastSeenAppend(history, seen[..k], seen[k].id);
  }

  function Sighted(s: Scope, id: Scope -> string, way: Drift.Way): Drift.Seen {
    Drift.Seen(SightingOf(Item(id(s), s)), way)
  }

  /** Input the validation accepts, over a block no scope shares an address with. */
  ghost predicate Creatable(x: CreateInput, before: seq<Scope>) {
    && x.start.Some? && x.end.Some? && x.mask.Some? && Leasable(x.start.value, x.end.value, x.mask.value)
    && forall i :: 0 <= i < |before| ==> !Shares(Network(x.start.value, x.mask.value), x.mask.value, before[i].scopeId, before[i].mask)
  }

  ghost predicate Placed(x: CreateInput, before: seq<Scope>, after: seq<Scope>, more: seq<Drift.Seen>, server: Server)
    requires x.start.Some? && x.end.Some? && x.mask.Some?
  {
    exists n: nat :: var s := Described(x, n, server.defaults); after == before + [s] && more == [Sighted(s, server.id, Drift.ByCreate)]
  }

  /** A scope with the identity can be told apart, and would keep a usable range. */
  ghost predicate Changeable(before: seq<Scope>, id: Scope -> string, wadaptId: string, u: Update) {
    DistinctIds(Identified(before, id)) && exists i :: 0 <= i < |before| && id(before[i]) == wadaptId && Usable(before[i], u)
  }

  ghost predicate Deletable(before: seq<Scope>, id: Scope -> string, wadaptId: string) {
    DistinctIds(Identified(before, id)) && !Absent(before, id, wadaptId)
  }

  /** What a request makes of the scopes, and what it adds to the log. */
  ghost predicate Noted(request: Request, before: seq<Scope>, after: seq<Scope>, more: seq<Drift.Seen>, server: Server) {
    var id := server.id;
    match request
    case List => after == before && more == ListingOf(before, id)
    case Post(x) =>
      if Creatable(x, before) then Placed(x, before, after, more, server)
      else after == before && more == []
    case Patch(wadaptId, u) =>
      if Changeable(before, id, wadaptId, u) then
        exists i :: && 0 <= i < |before| && id(before[i]) == wadaptId && Usable(before[i], u) && after == before[i := Merged(before[i], u)]
                    && more == ListingOf(before, id) + [Sighted(after[i], id, Drift.ByUpdate)]
      else after == before && more == ListingOf(before, id)
    case Delete(wadaptId) =>
      && more == ListingOf(before, id)
      && if Deletable(before, id, wadaptId) then exists i :: 0 <= i < |before| && id(before[i]) == wadaptId && after == Dropped(before, i)
         else after == before
    case Foreign(change) => more == [] && Disturbed(change, before, after)
  }

  ghost predicate Grew(request: Request, before: seq<Scope>, after: seq<Scope>, log: seq<Drift.Seen>, log': seq<Drift.Seen>, server: Server) {
    exists more :: log' == log + more && Noted(request, before, after, more, server)
  }

  lemma OneSighting(history: seq<Drift.Sighting>, s: Drift.Sighting, way: Drift.Way)
    ensures Drift.Reports(history, [s]) == Drift.ReportOf(history, s) && Drift.By(way, [s]) == [Drift.Seen(s, way)]
  {
    assert [s][..0] == [] && history + [] == history;
    Drift.ReportsLast(history, [s]);
  }

  // ---- the server's lists ------------------------------------------------------------------

  function Dropped(scopes: seq<Scope>, i: int): seq<Scope>
    requires 0 <= i < |scopes|
  {
    scopes[..i] + scopes[i + 1..]
  }

  ghost predicate Kept(scopes: seq<Scope>, issued: seq<(Addr, Addr)>) {
    && Separate(scopes)
    && (forall i :: 0 <= i < |scopes| ==> Issued(scopes[i], issued))
    && (forall i, j :: 0 <= i < j < |scopes| ==> scopes[i].serial != scopes[j].serial)
  }

  lemma DroppedIsSeparate(scopes: seq<Scope>, i: nat, issued: seq<(Addr, Addr)>)
    requires Kept(scopes, issued) && i < |scopes|
    ensures Kept(Dropped(scopes, i), issued)
  {
    var rest := Dropped(scopes, i);
    assert forall j :: 0 <= j < |rest| ==> rest[j] == scopes[if j < i then j else j + 1];
    forall j, k | 0 <= j < k < |rest|
      ensures Disjoint(rest[j], rest[k])
    {
      assert Disjoint(scopes[if j < i then j else j + 1], scopes[if k < i then k else k + 1]);
    }
  }

  /** The scope with this scopeId, which is the one meant. */
  method Locate(scopes: seq<Scope>, s: Scope) returns (i: nat)
    requires Separate(scopes) && s in scopes
    ensures i < |scopes| && scopes[i] == s
  {
    i := 0;
    while scopes[i].scopeId != s.scopeId
      invariant i < |scopes| && forall j :: 0 <= j < i ==> scopes[j].scopeId != s.scopeId
      decreases |scopes| - i
    {
      assert exists k :: i < k < |scopes| && scopes[k] == s;
      i := i + 1;
    }
    ghost var k :| 0 <= k < |scopes| && scopes[k] == s;
    if i != k {
      SeparateIdsDiffer(scopes, i, k);
    }
  }

  /** The range a caller would leave is leasable in the scope's own subnet. */
  predicate Usable(s: Scope, u: Update) {
    var a, b := Effective(u.range.start, Some(s.start)), Effective(u.range.end, Some(s.end));
    a.Some? && b.Some? && Leasable(a.value, b.value, s.mask) && Network(a.value, s.mask) == s.scopeId
  }

  lemma UsableDecides(s: Scope, u: Update, r: Option<seq<FieldError>>)
    requires Coherent(s) && RealMask(s.mask)
    requires var x := ExistingOf(s);
             && (r.None? <==> (u.range.start.Some? || u.range.end.Some?) && x.mask.None?)
             && (u.range.start.None? && u.range.end.None? ==> r == Some([]))
             && ((u.range.start.Some? || u.range.end.Some?) ==>
                   (r == Some([]) <==>
                    var a, b := Effective(u.range.start, x.start), Effective(u.range.end, x.end);
                    a.Some? && b.Some? && Leasable(a.value, b.value, s.mask) && Network(a.value, s.mask) == s.scopeId))
    ensures r.Some? && (r.value == [] <==> Usable(s, u))
  {
  }

  lemma ChangedIsSeparate(scopes: seq<Scope>, i: nat, u: Update, issued: seq<(Addr, Addr)>)
    requires Kept(scopes, issued) && i < |scopes| && Usable(scopes[i], u)
    ensures Kept(scopes[i := Merged(scopes[i], u)], issued)
  {
    var after := scopes[i := Merged(scopes[i], u)];
    assert Merged(scopes[i], u).scopeId == scopes[i].scopeId && Merged(scopes[i], u).mask == scopes[i].mask;
    forall j, k | 0 <= j < k < |after|
      ensures Disjoint(after[j], after[k])
    {
      assert Disjoint(scopes[j], scopes[k]);
    }
  }

  lemma KnownAfterUpdate(history: seq<Drift.Sighting>, before: seq<Scope>, i: nat, s: Scope, id: Scope -> string)
    requires i < |before| && DistinctIds(Identified(before, id)) && id(s) == id(before[i])
    requires Drift.UpToDate(history, Sightings(Identified(before, id)))
    ensures var after := Identified(before[i := s], id);
            DistinctIds(after) && Drift.UpToDate(history + [SightingOf(Item(id(s), s))], Sightings(after))
  {
    var after := Identified(before[i := s], id);
    var now := SightingOf(Item(id(s), s));
    forall j, k | 0 <= j < k < |after|
      ensures after[j].wadaptId != after[k].wadaptId
    {
      assert Identified(before, id)[j].wadaptId != Identified(before, id)[k].wadaptId;
    }
    Drift.LastSeenSnoc(history, now);
    forall k | 0 <= k < |after|
      ensures Drift.LastSeen(history + [now], Sightings(after)[k].id) == Some(Sightings(after)[k].looks)
    {
      if k != i {
        assert Sightings(Identified(before, id))[k] == Sightings(after)[k];
        assert after[k].wadaptId != after[i].wadaptId;
      }
    }
  }

  datatype Resolved = Found(scope: Scope) | Missing | ListFault

  lemma ListedIsKnown(history: seq<Drift.Sighting>, items: seq<Item>)
    requires DistinctIds(items)
    ensures Drift.Distinct(Sightings(items)) && Drift.UpToDate(history + Sightings(items), Sightings(items))
  {
    forall k | 0 <= k < |items|
      ensures Drift.LastSeen(history + Sightings(items), Sightings(items)[k].id) == Some(Sightings(items)[k].looks)
    {
      Drift.ListingIsKnown(history, Sightings(items), k);
    }
  }

  /** The script's filter over the server's scopes. */
  function Conflicting(net: Addr, mask: Addr, scopes: seq<Scope>): seq<Scope> {
    if scopes == [] then []
    else (if Overlaps(net, mask, scopes[0].scopeId, scopes[0].mask) then [scopes[0]] else []) + Conflicting(net, mask, scopes[1..])
  }

  /** The first scope sharing an address with the block. */
  ghost predicate Conflicts(net: Addr, mask: Addr, scopes: seq<Scope>, s: Scope) {
    exists i :: 0 <= i < |scopes| && scopes[i] == s && Shares(net, mask, s.scopeId, s.mask)
                && forall j :: 0 <= j < i ==> !Shares(net, mask, scopes[j].scopeId, scopes[j].mask)
  }

  lemma {:induction false} ConflictingFinds(net: Addr, mask: Addr, scopes: seq<Scope>) returns (i: nat)
    ensures Conflicting(net, mask, scopes) == [] ==> i == |scopes|
    ensures Conflicting(net, mask, scopes) != [] ==> i < |scopes| && scopes[i] == Conflicting(net, mask, scopes)[0]
                                                     && Overlaps(net, mask, scopes[i].scopeId, scopes[i].mask)
    ensures forall j :: 0 <= j < i ==> !Overlaps(net, mask, scopes[j].scopeId, scopes[j].mask)
  {
    i := 0;
    if scopes != [] && !Overlaps(net, mask, scopes[0].scopeId, scopes[0].mask) {
      i := ConflictingFinds(net, mask, scopes[1..]);
      assert forall j :: 0 < j <= i && j < |scopes| ==> scopes[j] == scopes[1..][j - 1];
      i := i + 1;
    }
  }

  lemma ConflictsDecide(net: Addr, mask: Addr, scopes: seq<Scope>, found: seq<Scope>)
    requires Aligned(net, mask) && Separate(scopes) && found == Conflicting(net, mask, scopes)
    ensures found == [] <==> forall i :: 0 <= i < |scopes| ==> !Overlaps(net, mask, scopes[i].scopeId, scopes[i].mask)
    ensures found == [] <==> forall i :: 0 <= i < |scopes| ==> !Shares(net, mask, scopes[i].scopeId, scopes[i].mask)
    ensures found != [] ==> Conflicts(net, mask, scopes, found[0])
  {
    forall i | 0 <= i < |scopes|
      ensures Overlaps(net, mask, scopes[i].scopeId, scopes[i].mask) <==> Shares(net, mask, scopes[i].scopeId, scopes[i].mask)
    {
      CoherentIsAligned(scopes[i]);
      OverlapIsSharing(net, mask, scopes[i].scopeId, scopes[i].mask);
    }
    var i := ConflictingFinds(net, mask, scopes);
  }

  ghost predicate Issued(s: Scope, issued: seq<(Addr, Addr)>) {
    s.serial < |issued| && issued[s.serial] == (s.scopeId, s.mask)
  }
}
