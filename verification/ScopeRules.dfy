/** Which address ranges a scope may have, on create and on resize
    (internal/adapters/dhcpwindows/create.go and update.go). An address that
    does not parse is None. */
module ScopeRules {
  import opened Wrappers
  import opened Ipv4

  datatype Field = StartRange | EndRange | SubnetMask

  datatype Problem =
    | NotAnAddress | NotContiguous | NoHosts
    | BeforeStart | AfterEnd | OtherSubnet | IsNetwork | IsBroadcast | OutsideScope

  datatype FieldError = FieldError(field: Field, problem: Problem)

  predicate RealMask(mask: Addr) {
    IsContiguousMask(mask) && HasHostAddresses(mask)
  }

  /** The range lies strictly inside the subnet of its start. */
  predicate Leasable(start: Addr, end: Addr, mask: Addr) {
    RealMask(mask) && Network(start, mask) < start <= end < Broadcast(start, mask)
  }

  /** An address a client may be given. */
  predicate Host(a: Addr, mask: Addr) {
    a != Network(a, mask) && a != Broadcast(a, mask)
  }

  ghost predicate EveryAddressLeasable(start: Addr, end: Addr, mask: Addr) {
    start <= end && forall a: Addr :: start <= a <= end ==> Network(a, mask) == Network(start, mask) && Host(a, mask)
  }

  /** Strictly inside means that every address of the range, which has one, is a
      host of one and the same subnet, and under no other circumstances. */
  lemma LeasableIsEveryAddress(start: Addr, end: Addr, mask: Addr)
    requires RealMask(mask)
    ensures Leasable(start, end, mask) <==> EveryAddressLeasable(start, end, mask)
  {
    SubnetIsInterval(start, end, mask);
    SubnetIsInterval(start, start, mask);
    assert EveryAddressLeasable(start, end, mask) ==> Network(end, mask) == Network(start, mask) && Host(start, mask) && Host(end, mask);
    if Leasable(start, end, mask) {
      forall a: Addr | start <= a <= end
        ensures Network(a, mask) == Network(start, mask) && Host(a, mask)
      {
        SubnetIsInterval(start, a, mask);
      }
    }
  }

  /** The three ways the tests can phrase it agree. */
  lemma EndsDecide(start: Addr, end: Addr, mask: Addr)
    requires RealMask(mask)
    ensures Leasable(start, end, mask) <==>
              && start <= end && Network(start, mask) == Network(end, mask)
              && start != Network(start, mask) && end != Broadcast(end, mask)
  {
    SubnetIsInterval(start, end, mask);
    SubnetIsInterval(start, start, mask);
  }

  /** A problem with the start, if so, and then one with the end, if so. */
  function Pair(p: bool, atStart: Problem, q: bool, atEnd: Problem): seq<FieldError> {
    (if p then [FieldError(StartRange, atStart)] else []) + (if q then [FieldError(EndRange, atEnd)] else [])
  }

  /** checkLeasableEnds. */
  method CheckLeasableEnds(start: Addr, end: Addr, mask: Addr) returns (errs: seq<FieldError>)
    ensures errs == Pair(start == Network(start, mask), IsNetwork, end == Broadcast(end, mask), IsBroadcast)
  {
    errs := [];
    var network := NetworkAddr(start, mask);
    if start == network {
      errs := errs + [FieldError(StartRange, IsNetwork)];
    }
    var broadcast := BroadcastAddr(end, mask);
    if end == broadcast {
      errs := errs + [FieldError(EndRange, IsBroadcast)];
    }
  }

  /** ScopeInput.validateAddressing: accepts exactly the leasable ranges, and
      otherwise reports every mistake it can judge, not the first. */
  method ValidateAddressing(start: Option<Addr>, end: Option<Addr>, mask: Option<Addr>) returns (errs: seq<FieldError>)
    ensures errs == [] <==> start.Some? && end.Some? && mask.Some? && Leasable(start.value, end.value, mask.value)
    ensures FieldError(StartRange, NotAnAddress) in errs <==> start.None?
    ensures FieldError(EndRange, NotAnAddress) in errs <==> end.None?
    ensures FieldError(SubnetMask, NotAnAddress) in errs <==> mask.None?
    ensures FieldError(SubnetMask, NotContiguous) in errs <==> mask.Some? && !IsContiguousMask(mask.value)
    ensures FieldError(SubnetMask, NoHosts) in errs <==> mask.Some? && IsContiguousMask(mask.value) && !HasHostAddresses(mask.value)
    ensures FieldError(EndRange, BeforeStart) in errs <==> start.Some? && end.Some? && end.value < start.value
    ensures var judged := start.Some? && end.Some? && mask.Some? && RealMask(mask.value);
            && (FieldError(EndRange, OtherSubnet) in errs <==> judged && Network(start.value, mask.value) != Network(end.value, mask.value))
            && (FieldError(StartRange, IsNetwork) in errs <==> judged && start.value == Network(start.value, mask.value))
            && (FieldError(EndRange, IsBroadcast) in errs <==> judged && end.value == Broadcast(end.value, mask.value))
  {
    errs := [];
    if start.None? {
      errs := errs + [FieldError(StartRange, NotAnAddress)];
    }
    if end.None? {
      errs := errs + [FieldError(EndRange, NotAnAddress)];
    }
    var maskOk := mask.Some?;
    if mask.None? {
      errs := errs + [FieldError(SubnetMask, NotAnAddress)];
    } else if !IsContiguousMask(mask.value) {
      errs := errs + [FieldError(SubnetMask, NotContiguous)];
      maskOk := false;
    } else if !HasHostAddresses(mask.value) {
      errs := errs + [FieldError(SubnetMask, NoHosts)];
      maskOk := false;
    }
    if start.None? || end.None? {
      return;
    }
    if end.value < start.value {
      errs := errs + [FieldError(EndRange, BeforeStart)];
    }
    if !maskOk {
      return;
    }
    EndsDecide(start.value, end.value, mask.value);
    var a := NetworkAddr(start.value, mask.value);
    var b := NetworkAddr(end.value, mask.value);
    if a != b {
      errs := errs + [FieldError(EndRange, OtherSubnet)];
    }
    var ends := CheckLeasableEnds(start.value, end.value, mask.value);
    errs := errs + ends;
  }

  // ---- resize ----------------------------------------------------------------------

  /** What a resize needs of the scope that is there. Only scopeId is known to parse. */
  datatype Existing = Existing(scopeId: Addr, mask: Option<Addr>, start: Option<Addr>, end: Option<Addr>)

  /** The ends a caller sent, each perhaps unparseable. */
  datatype Resize = Resize(start: Option<Option<Addr>>, end: Option<Option<Addr>>)

  /** effective. */
  function Effective(provided: Option<Option<Addr>>, existing: Option<Addr>): Option<Addr> {
    if provided.Some? then provided.value else existing
  }

  predicate Named(errs: seq<FieldError>, f: Field) {
    exists i :: 0 <= i < |errs| && errs[i].field == f
  }

  predicate NamedOnce(errs: seq<FieldError>) {
    forall i, j :: 0 <= i < j < |errs| ==> errs[i].field != errs[j].field
  }

  /** appendUnnamed. */
  method AppendUnnamed(into: seq<FieldError>, more: seq<FieldError>) returns (r: seq<FieldError>)
    ensures into <= r && (NamedOnce(into) ==> NamedOnce(r))
    ensures forall f :: Named(r, f) <==> Named(into, f) || Named(more, f)
    ensures forall e :: e in r ==> e in into || e in more
  {
    r := into;
    for k := 0 to |more|
      invariant into <= r && (NamedOnce(into) ==> NamedOnce(r))
      invariant forall f :: Named(r, f) <==> Named(into, f) || Named(more[..k], f)
      invariant forall e :: e in r ==> e in into || e in more
    {
      assert forall f :: Named(more[..k + 1], f) <==> Named(more[..k], f) || more[k].field == f by {
        NamedSnoc(more[..k], more[k]);
        assert more[..k] + [more[k]] == more[..k + 1];
      }
      if !Named(r, more[k].field) {
        NamedSnoc(r, more[k]);
        r := r + [more[k]];
      }
    }
    assert more[..|more|] == more;
  }

  lemma NamedSnoc(errs: seq<FieldError>, e: FieldError)
    ensures forall f :: Named(errs + [e], f) <==> Named(errs, f) || e.field == f
  {
    var all := errs + [e];
    forall f | Named(errs, f)
      ensures Named(all, f)
    {
      var i :| 0 <= i < |errs| && errs[i].field == f;
      assert all[i].field == f;
    }
    assert all[|errs|].field == e.field;
  }

  lemma NamedPair(p: bool, a: Problem, q: bool, b: Problem)
    ensures forall f :: Named(Pair(p, a, q, b), f) <==> (p && f == StartRange) || (q && f == EndRange)
    ensures NamedOnce(Pair(p, a, q, b))
  {
    var both := Pair(p, a, q, b);
    if p {
      assert both[0].field == StartRange;
    }
    if q {
      assert both[|both| - 1].field == EndRange;
    }
  }

  /** invertedRange: the end the caller sent is the one to fix. */
  function InvertedRange(sent: Resize, start: Addr, end: Addr): seq<FieldError> {
    if end >= start then []
    else if sent.end.Some? then [FieldError(EndRange, BeforeStart)]
    else [FieldError(StartRange, AfterEnd)]
  }

  predicate Misplaced(a: Option<Addr>, scopeId: Addr, mask: Addr) {
    a.None? || Network(a.value, mask) != scopeId
  }

  /** The loop over the two effective ends. */
  method Misplacements(s: Option<Addr>, e: Option<Addr>, scopeId: Addr, mask: Addr) returns (errs: seq<FieldError>)
    ensures errs == Pair(Misplaced(s, scopeId, mask), OutsideScope, Misplaced(e, scopeId, mask), OutsideScope)
  {
    errs := [];
    var ends := [(StartRange, s), (EndRange, e)];
    for i := 0 to 2
      invariant errs == Pair(i > 0 && Misplaced(s, scopeId, mask), OutsideScope, i > 1 && Misplaced(e, scopeId, mask), OutsideScope)
    {
      if Misplaced(ends[i].1, scopeId, mask) {
        errs := errs + [FieldError(ends[i].0, OutsideScope)];
      }
    }
  }

  /** A scope as the server keeps it. */
  predicate WellFormed(x: Existing) {
    && x.mask.Some? && x.start.Some? && x.end.Some?
    && Leasable(x.start.value, x.end.value, x.mask.value) && Network(x.start.value, x.mask.value) == x.scopeId
  }

  /** validateEffectiveRange: None is the backend fault of a mask that does not
      parse. With a real mask nothing is reported exactly when the merged range
      is leasable in the scope's own subnet; a field is named at most once; and
      of a well-formed scope only fields the caller sent are named. */
  method ValidateEffectiveRange(sent: Resize, x: Existing) returns (r: Option<seq<FieldError>>)
    ensures r.None? <==> (sent.start.Some? || sent.end.Some?) && x.mask.None?
    ensures sent.start.None? && sent.end.None? ==> r == Some([])
    ensures r.Some? ==> NamedOnce(r.value)
    ensures (sent.start.Some? || sent.end.Some?) && x.mask.Some? && RealMask(x.mask.value) ==>
              (r == Some([]) <==>
               var s, e := Effective(sent.start, x.start), Effective(sent.end, x.end);
               s.Some? && e.Some? && Leasable(s.value, e.value, x.mask.value) && Network(s.value, x.mask.value) == x.scopeId)
    ensures r.Some? && WellFormed(x) ==>
              && (Named(r.value, StartRange) ==> sent.start.Some?)
              && (Named(r.value, EndRange) ==> sent.end.Some?)
  {
    if sent.start.None? && sent.end.None? {
      return Some([]);
    }
    if x.mask.None? {
      return None;
    }
    var mask := x.mask.value;
    var s, e := Effective(sent.start, x.start), Effective(sent.end, x.end);
    var offending := Misplacements(s, e, x.scopeId, mask);
    ghost var misplaced := offending;
    NamedPair(Misplaced(s, x.scopeId, mask), OutsideScope, Misplaced(e, x.scopeId, mask), OutsideScope);
    KeptEnds(x);
    if s.Some? && e.Some? {
      var ends := CheckLeasableEnds(s.value, e.value, mask);
      offending := AppendUnnamed(offending, ends);
      offending := AppendUnnamed(offending, InvertedRange(sent, s.value, e.value));
      JudgedEnds(sent, x, s.value, e.value, misplaced, ends, offending);
    }
    r := Some(offending);
  }

  lemma KeptEnds(x: Existing)
    ensures WellFormed(x) ==> !Misplaced(x.start, x.scopeId, x.mask.value) && !Misplaced(x.end, x.scopeId, x.mask.value)
  {
    if WellFormed(x) {
      EndsDecide(x.start.value, x.end.value, x.mask.value);
    }
  }

  /** What the three rules add up to once both ends parse. */
  lemma JudgedEnds(sent: Resize, x: Existing, s: Addr, e: Addr, misplaced: seq<FieldError>, ends: seq<FieldError>, all: seq<FieldError>)
    requires x.mask.Some? && (sent.start.Some? || sent.end.Some?)
    requires Effective(sent.start, x.start) == Some(s) && Effective(sent.end, x.end) == Some(e)
    requires forall f :: Named(all, f) <==> Named(misplaced, f) || Named(ends, f) || Named(InvertedRange(sent, s, e), f)
    requires misplaced == Pair(Misplaced(Some(s), x.scopeId, x.mask.value), OutsideScope, Misplaced(Some(e), x.scopeId, x.mask.value), OutsideScope)
    requires ends == Pair(s == Network(s, x.mask.value), IsNetwork, e == Broadcast(e, x.mask.value), IsBroadcast)
    ensures RealMask(x.mask.value) ==> (all == [] <==> Leasable(s, e, x.mask.value) && Network(s, x.mask.value) == x.scopeId)
    ensures WellFormed(x) ==> (Named(all, StartRange) ==> sent.start.Some?) && (Named(all, EndRange) ==> sent.end.Some?)
  {
    var mask := x.mask.value;
    NamedPair(Misplaced(Some(s), x.scopeId, mask), OutsideScope, Misplaced(Some(e), x.scopeId, mask), OutsideScope);
    NamedPair(s == Network(s, mask), IsNetwork, e == Broadcast(e, mask), IsBroadcast);
    var inverted := InvertedRange(sent, s, e);
    assert |inverted| > 0 ==> inverted[0].field == if sent.end.Some? then EndRange else StartRange;
    assert |all| > 0 ==> Named(all, all[0].field);
    assert Named(all, StartRange) <==> Named(misplaced, StartRange) || Named(ends, StartRange) || Named(inverted, StartRange);
    assert Named(all, EndRange) <==> Named(misplaced, EndRange) || Named(ends, EndRange) || Named(inverted, EndRange);
    assert |inverted| > 0 ==> Named(inverted, inverted[0].field);
    if RealMask(mask) {
      EndsDecide(s, e, mask);
    }
    if WellFormed(x) {
      EndsDecide(x.start.value, x.end.value, mask);
    }
  }
}
