/** The overlap test of the create script (internal/adapters/dhcpwindows/scope.go),
    and scopes as the server holds them. */
module Overlap {
  import opened Ipv4
  import opened ScopeRules

  /** One scope. The serial tells a scope from a later one on the same subnet;
      nothing in the system can see it. */
  datatype Scope = Scope(
    serial: nat, scopeId: Addr, mask: Addr, start: Addr, end: Addr,
    name: string, description: string, state: string, kind: string, lease: int)

  /** The script's two comparisons, in 64-bit arithmetic that cannot wrap. */
  predicate Overlaps(net: Addr, mask: Addr, net': Addr, mask': Addr) {
    net <= net' + (0xFFFF_FFFF - mask') && net' <= net + (0xFFFF_FFFF - mask)
  }

  ghost predicate Shares(net: Addr, mask: Addr, net': Addr, mask': Addr) {
    exists a: Addr :: Network(a, mask) == net && Network(a, mask') == net'
  }

  predicate Aligned(net: Addr, mask: Addr) {
    IsContiguousMask(mask) && Network(net, mask) == net
  }

  lemma InBlock(net: Addr, mask: Addr, a: Addr)
    requires Aligned(net, mask)
    ensures Network(a, mask) == net <==> net <= a <= net + (0xFFFF_FFFF - mask)
    ensures net + (0xFFFF_FFFF - mask) < WORD
  {
    SubnetIsInterval(net, a, mask);
    SubnetArithmetic(net, mask);
  }

  /** The two comparisons hold exactly when the blocks share an address. */
  lemma OverlapIsSharing(net: Addr, mask: Addr, net': Addr, mask': Addr)
    requires Aligned(net, mask) && Aligned(net', mask')
    ensures Overlaps(net, mask, net', mask') <==> Shares(net, mask, net', mask')
  {
    if Overlaps(net, mask, net', mask') {
      var a := if net <= net' then net' else net;
      InBlock(net, mask, a);
      InBlock(net', mask', a);
      assert Network(a, mask) == net && Network(a, mask') == net';
    }
    if Shares(net, mask, net', mask') {
      var a: Addr :| Network(a, mask) == net && Network(a, mask') == net';
      InBlock(net, mask, a);
      InBlock(net', mask', a);
    }
  }

  /** The exact scopeId match the test replaced is one case of it. */
  lemma SameIdShares(net: Addr, mask: Addr, mask': Addr)
    requires Aligned(net, mask) && Aligned(net, mask')
    ensures Shares(net, mask, net, mask') && Overlaps(net, mask, net, mask')
  {
    assert Network(net, mask) == net && Network(net, mask') == net;
  }

  /** A scope whose pool lies inside its own block. */
  predicate Coherent(s: Scope) {
    Leasable(s.start, s.end, s.mask) && Network(s.start, s.mask) == s.scopeId
  }

  lemma CoherentIsAligned(s: Scope)
    requires Coherent(s)
    ensures Aligned(s.scopeId, s.mask)
    ensures forall a: Addr :: s.start <= a <= s.end ==> Network(a, s.mask) == s.scopeId && Host(a, s.mask)
  {
    NetworkIsAligned(s.start, s.mask);
    LeasableIsEveryAddress(s.start, s.end, s.mask);
  }

  ghost predicate Disjoint(s: Scope, t: Scope) {
    !Shares(s.scopeId, s.mask, t.scopeId, t.mask)
  }

  /** What the server guarantees of its scopes. */
  ghost predicate Separate(scopes: seq<Scope>) {
    && (forall i :: 0 <= i < |scopes| ==> Coherent(scopes[i]))
    && (forall i, j :: 0 <= i < j < |scopes| ==> Disjoint(scopes[i], scopes[j]))
  }

  lemma SeparateIdsDiffer(scopes: seq<Scope>, i: nat, j: nat)
    requires Separate(scopes) && i < j < |scopes|
    ensures scopes[i].scopeId != scopes[j].scopeId
  {
    CoherentIsAligned(scopes[i]);
    CoherentIsAligned(scopes[j]);
    if scopes[i].scopeId == scopes[j].scopeId {
      SameIdShares(scopes[i].scopeId, scopes[i].mask, scopes[j].mask);
    }
  }

  /** So no address can be leased from two scopes. */
  lemma PoolsAreDisjoint(scopes: seq<Scope>, i: nat, j: nat, a: Addr)
    requires Separate(scopes) && i < j < |scopes|
    requires scopes[i].start <= a <= scopes[i].end
    ensures !(scopes[j].start <= a <= scopes[j].end)
  {
    CoherentIsAligned(scopes[i]);
    CoherentIsAligned(scopes[j]);
    assert Disjoint(scopes[i], scopes[j]);
  }

  /** Adding a scope that overlaps none keeps them separate. */
  lemma SeparateAppend(scopes: seq<Scope>, s: Scope)
    requires Separate(scopes) && Coherent(s)
    requires forall i :: 0 <= i < |scopes| ==> !Overlaps(s.scopeId, s.mask, scopes[i].scopeId, scopes[i].mask)
    ensures Separate(scopes + [s])
  {
    CoherentIsAligned(s);
    forall i | 0 <= i < |scopes|
      ensures Disjoint(scopes[i], s)
    {
      CoherentIsAligned(scopes[i]);
      OverlapIsSharing(s.scopeId, s.mask, scopes[i].scopeId, scopes[i].mask);
    }
  }
}
