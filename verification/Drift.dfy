/** The drift ledger (internal/adapters/dhcpwindows/drift.go): what each
    identity looked like when it was last seen, and which ones have changed. */
module Drift {
  import opened Wrappers
  import opened Ipv4
  import opened Text

  datatype Fingerprint = Fingerprint(name: string, start: Addr, end: Addr, mask: Addr, lease: int)

  /** One observation of one identity. */
  datatype Sighting = Sighting(id: string, scopeId: Addr, looks: Fingerprint)

  datatype Report = Report(id: string, scopeId: Addr, was: Fingerprint, now: Fingerprint)

  /** The attributes an identity had the last time it was seen, if it ever was. */
  ghost function LastSeen(history: seq<Sighting>, id: string): Option<Fingerprint> {
    var n := |history|;
    if n == 0 then None
    else if history[n - 1].id == id then Some(history[n - 1].looks)
    else LastSeen(history[..n - 1], id)
  }

  ghost function ReportOf(history: seq<Sighting>, s: Sighting): seq<Report> {
    var was := LastSeen(history, s.id);
    if was.Some? && was.value != s.looks then [Report(s.id, s.scopeId, was.value, s.looks)] else []
  }

  /** The reports a listing calls for, each scope judged by all that went before. */
  ghost function Reports(history: seq<Sighting>, scopes: seq<Sighting>): seq<Report> {
    var n := |scopes|;
    if n == 0 then [] else Reports(history, scopes[..n - 1]) + ReportOf(history + scopes[..n - 1], scopes[n - 1])
  }

  class Ledger {
    var seen: map<string, Fingerprint>

    /** Everything observed since the process started. */
    ghost var history: seq<Sighting>

    ghost predicate Valid()
      reads this
    {
      forall id :: LastSeen(history, id) == if id in seen then Some(seen[id]) else None
    }

    constructor ()
      ensures Valid() && history == []
    {
      seen, history := map[], [];
    }

    /** observe. */
    method Observe(scopes: seq<Sighting>) returns (reports: seq<Report>)
      requires Valid()
      modifies this
      ensures Valid() && history == old(history) + scopes
      ensures reports == Reports(old(history), scopes)
    {
      reports := [];
      assert scopes[..0] == [];
      for i := 0 to |scopes|
        invariant history == old(history) + scopes[..i]
        invariant Valid()
        invariant reports == Reports(old(history), scopes[..i])
      {
        var s := scopes[i];
        assert LastSeen(history, s.id) == if s.id in seen then Some(seen[s.id]) else None;
        ghost var before := reports;
        if s.id in seen && seen[s.id] != s.looks {
          reports := reports + [Report(s.id, s.scopeId, seen[s.id], s.looks)];
        }
        assert reports == before + ReportOf(history, s);
        seen := seen[s.id := s.looks];
        assert scopes[..i + 1][..i] == scopes[..i] && scopes[..i + 1][i] == s;
        LastSeenSnoc(history, s);
        history := history + [s];
        assert history == old(history) + scopes[..i + 1];
      }
      assert scopes[..|scopes|] == scopes;
    }
  }

  lemma LastSeenSnoc(history: seq<Sighting>, s: Sighting)
    ensures forall id :: LastSeen(history + [s], id) == if id == s.id then Some(s.looks) else LastSeen(history, id)
  {
    assert (history + [s])[..|history|] == history;
  }

  /** A report appears exactly when an identity differs from its own last
      sighting, earlier ones in the same listing included. */
  lemma {:induction false} ReportedIffChanged(history: seq<Sighting>, scopes: seq<Sighting>, r: Report)
    ensures r in Reports(history, scopes) <==> exists k :: Changed(history, scopes, k, r)
  {
    if scopes != [] {
      var n := |scopes| - 1;
      ReportedIffChanged(history, scopes[..n], r);
      ReportsLast(history, scopes);
      ChangedEarlier(history, scopes, r);
      ChangedLast(history, scopes, r);
    }
  }

  lemma ChangedEarlier(history: seq<Sighting>, scopes: seq<Sighting>, r: Report)
    requires scopes != []
    ensures var n := |scopes| - 1;
            (exists k :: Changed(history, scopes, k, r)) <==> (exists k :: Changed(history, scopes[..n], k, r)) || Changed(history, scopes, n, r)
  {
    var n := |scopes| - 1;
    forall k | 0 <= k < n
      ensures Changed(history, scopes[..n], k, r) <==> Changed(history, scopes, k, r)
    {
      assert scopes[..n][..k] == scopes[..k];
    }
  }

  lemma ChangedLast(history: seq<Sighting>, scopes: seq<Sighting>, r: Report)
    requires scopes != []
    ensures var n := |scopes| - 1; r in ReportOf(history + scopes[..n], scopes[n]) <==> Changed(history, scopes, n, r)
  {
  }

  /** Scope `k` of the listing differs from the last sighting of its identity. */
  ghost predicate Changed(history: seq<Sighting>, scopes: seq<Sighting>, k: int, r: Report) {
    && 0 <= k < |scopes|
    && r == Report(scopes[k].id, scopes[k].scopeId, r.was, scopes[k].looks) && r.was != r.now
    && LastSeen(history + scopes[..k], r.id) == Some(r.was)
  }

  // ---- what an event names -------------------------------------------------------

  datatype Attribute = Name | StartRange | EndRange | SubnetMask | LeaseDuration

  predicate Differs(a: Attribute, was: Fingerprint, now: Fingerprint) {
    match a
    case Name => was.name != now.name
    case StartRange => was.start != now.start
    case EndRange => was.end != now.end
    case SubnetMask => was.mask != now.mask
    case LeaseDuration => was.lease != now.lease
  }

  /** changedFields: exactly the attributes that differ, so an emitted report,
      which has two different fingerprints, always names one. */
  method ChangedFields(was: Fingerprint, now: Fingerprint) returns (changed: seq<Attribute>)
    ensures forall a :: a in changed <==> Differs(a, was, now)
    ensures changed == [] <==> was == now
  {
    changed := [];
    if was.name != now.name {
      changed := changed + [Name];
    }
    if was.start != now.start {
      changed := changed + [StartRange];
    }
    if was.end != now.end {
      changed := changed + [EndRange];
    }
    if was.mask != now.mask {
      changed := changed + [SubnetMask];
    }
    if was.lease != now.lease {
      changed := changed + [LeaseDuration];
    }
    assert Differs(Name, was, now) || Differs(StartRange, was, now) || Differs(EndRange, was, now)
           || Differs(SubnetMask, was, now) || Differs(LeaseDuration, was, now) || was == now;
  }

  // ---- listings that change nothing ------------------------------------------------

  ghost predicate Distinct(scopes: seq<Sighting>) {
    forall i, j :: 0 <= i < j < |scopes| ==> scopes[i].id != scopes[j].id
  }

  /** The ledger knows these identities exactly as they are. */
  ghost predicate UpToDate(history: seq<Sighting>, scopes: seq<Sighting>) {
    forall i :: 0 <= i < |scopes| ==> LastSeen(history, scopes[i].id) == Some(scopes[i].looks)
  }

  lemma {:induction false} LastSeenAppend(history: seq<Sighting>, scopes: seq<Sighting>, id: string)
    requires forall i :: 0 <= i < |scopes| ==> scopes[i].id != id
    ensures LastSeen(history + scopes, id) == LastSeen(history, id)
  {
    if scopes == [] {
      assert history + scopes == history;
    } else {
      var n := |scopes| - 1;
      assert (history + scopes)[..|history| + n] == history + scopes[..n];
      LastSeenAppend(history, scopes[..n], id);
    }
  }

  /** After a listing the ledger knows every scope in it, and the others as before. */
  lemma ListingIsKnown(history: seq<Sighting>, scopes: seq<Sighting>, k: nat)
    requires Distinct(scopes) && k < |scopes|
    ensures LastSeen(history + scopes, scopes[k].id) == Some(scopes[k].looks)
  {
    assert history + scopes == (history + scopes[..k + 1]) + scopes[k + 1..];
    LastSeenAppend(history + scopes[..k + 1], scopes[k + 1..], scopes[k].id);
    assert history + scopes[..k + 1] == (history + scopes[..k]) + [scopes[k]];
    LastSeenSnoc(history + scopes[..k], scopes[k]);
  }

  /** Listing what is already known reports nothing. */
  lemma {:induction false} KnownIsQuiet(history: seq<Sighting>, scopes: seq<Sighting>)
    requires Distinct(scopes) && UpToDate(history, scopes)
    ensures Reports(history, scopes) == []
  {
    if scopes != [] {
      var n := |scopes| - 1;
      KnownIsQuiet(history, scopes[..n]);
      LastSeenAppend(history, scopes[..n], scopes[n].id);
    }
  }

  // ---- what is emitted ---------------------------------------------------------------

  /** The paths a sighting comes by. An update's is a new baseline: what observe
      returns for it is discarded. */
  datatype Way = InListing | ByCreate | ByUpdate

  datatype Seen = Seen(sighting: Sighting, way: Way)

  function SightingsIn(log: seq<Seen>): (r: seq<Sighting>)
    ensures |r| == |log| && forall i :: 0 <= i < |log| ==> r[i] == log[i].sighting
  {
    seq(|log|, i requires 0 <= i < |log| => log[i].sighting)
  }

  function By(way: Way, scopes: seq<Sighting>): (r: seq<Seen>)
    ensures |r| == |scopes| && forall i :: 0 <= i < |scopes| ==> r[i] == Seen(scopes[i], way)
  {
    seq(|scopes|, i requires 0 <= i < |scopes| => Seen(scopes[i], way))
  }

  /** The events of a whole log of sightings. */
  ghost function Emitted(log: seq<Seen>): seq<Report> {
    var n := |log|;
    if n == 0 then []
    else Emitted(log[..n - 1]) + if log[n - 1].way.ByUpdate? then [] else ReportOf(SightingsIn(log[..n - 1]), log[n - 1].sighting)
  }

  /** Sighting `k` was not an update's, and differs from the last one of its identity. */
  ghost predicate Drifted(log: seq<Seen>, k: nat, r: Report) {
    && k < |log| && !log[k].way.ByUpdate?
    && r == Report(log[k].sighting.id, log[k].sighting.scopeId, r.was, log[k].sighting.looks)
    && LastSeen(SightingsIn(log[..k]), r.id) == Some(r.was) && r.was != r.now
  }

  /** Over any log an event appears exactly when an identity looks different from
      the last time it was seen in a listing, created or updated. */
  lemma {:induction false} EmittedIffDrifted(log: seq<Seen>, r: Report)
    ensures r in Emitted(log) <==> exists k: nat :: Drifted(log, k, r)
  {
    if log != [] {
      var n := |log| - 1;
      EmittedIffDrifted(log[..n], r);
      forall k: nat | k < n
        ensures Drifted(log[..n], k, r) <==> Drifted(log, k, r)
      {
        assert log[..n][..k] == log[..k];
      }
      LastDrifted(log, r);
    }
  }

  lemma LastDrifted(log: seq<Seen>, r: Report)
    requires log != []
    ensures var n := |log| - 1;
            r in Emitted(log) <==> r in Emitted(log[..n]) || Drifted(log, n, r)
  {
  }

  lemma EmittedSnoc(log: seq<Seen>, x: Seen)
    ensures Emitted(log + [x]) == Emitted(log) + if x.way.ByUpdate? then [] else ReportOf(SightingsIn(log), x.sighting)
    ensures SightingsIn(log + [x]) == SightingsIn(log) + [x.sighting]
  {
    assert (log + [x])[..|log|] == log;
  }

  /** A listing or a create emits what its observation reports. */
  lemma {:induction false} EmittedAppend(log: seq<Seen>, way: Way, scopes: seq<Sighting>)
    requires !way.ByUpdate?
    ensures Emitted(log + By(way, scopes)) == Emitted(log) + Reports(SightingsIn(log), scopes)
  {
    if scopes == [] {
      assert log + By(way, scopes) == log;
    } else {
      var n := |scopes| - 1;
      EmittedAppend(log, way, scopes[..n]);
      ByLast(log, way, scopes);
      SightingsAppend(log, way, scopes[..n]);
      EmittedLast(log + By(way, scopes[..n]), Seen(scopes[n], way), SightingsIn(log) + scopes[..n]);
      ReportsLast(SightingsIn(log), scopes);
      Associate(Emitted(log), Reports(SightingsIn(log), scopes[..n]), ReportOf(SightingsIn(log) + scopes[..n], scopes[n]));
    }
  }

  lemma EmittedLast(log: seq<Seen>, x: Seen, history: seq<Sighting>)
    requires !x.way.ByUpdate? && SightingsIn(log) == history
    ensures Emitted(log + [x]) == Emitted(log) + ReportOf(history, x.sighting)
  {
    EmittedSnoc(log, x);
  }

  lemma SightingsAppend(log: seq<Seen>, way: Way, scopes: seq<Sighting>)
    ensures SightingsIn(log + By(way, scopes)) == SightingsIn(log) + scopes
  {
  }

  lemma ByLast(log: seq<Seen>, way: Way, scopes: seq<Sighting>)
    requires scopes != []
    ensures var n := |scopes| - 1; log + By(way, scopes) == log + By(way, scopes[..n]) + [Seen(scopes[n], way)]
  {
  }

  lemma ReportsLast(history: seq<Sighting>, scopes: seq<Sighting>)
    requires scopes != []
    ensures var n := |scopes| - 1; Reports(history, scopes) == Reports(history, scopes[..n]) + ReportOf(history + scopes[..n], scopes[n])
  {
  }
}
