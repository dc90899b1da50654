/** The derived scope identity (internal/adapters/dhcpwindows/identity.go): its
    encoding, and the bytes it is a hash of. */
module Identity {
  import opened Wrappers
  import opened Strconv
  import opened Base64
  import opened Pagination
  import opened Text
  import opened Ipv4

  // ---- base32hex, section 7 of RFC 4648 ------------------------------------------

  /** 0-9 then a-v: the order of the characters is the order of the values. */
  function Symbol32(v: nat): (c: char)
    requires v < 32
  {
    if v < 10 then ('0' as int + v) as char else ('a' as int + v - 10) as char
  }

  /** The last `k` base-32 digits of `n`, most significant first. */
  function Quintets(n: nat, k: nat): (s: string)
    ensures |s| == k && Bytes(s)
  {
    if k == 0 then "" else Quintets(n / 32, k - 1) + [Symbol32(n % 32)]
  }

  /** A run of bytes as one big-endian number. */
  function BigEndian(s: string): nat
    requires Bytes(s)
  {
    if s == "" then 0 else BigEndian(s[..|s| - 1]) * 256 + s[|s| - 1] as int
  }

  const WADAPT_ID_BYTES := 8
  const WADAPT_ID_LENGTH := 13

  /** Eight bytes unpadded: a quantum of five bytes is eight characters, and the
      three left over are five, with one zero bit at the end. */
  function Encode32(s: string): (r: string)
    requires Bytes(s) && |s| == WADAPT_ID_BYTES
    ensures |r| == WADAPT_ID_LENGTH && Bytes(r)
  {
    Quintets(BigEndian(s[..5]), 8) + Quintets(BigEndian(s[5..]) * 2, 5)
  }

  lemma SymbolOrder(a: nat, b: nat)
    requires a < 32 && b < 32
    ensures Symbol32(a) < Symbol32(b) <==> a < b
    ensures Symbol32(a) == Symbol32(b) <==> a == b
  {
  }

  /** Equal-length strings compare by their heads first, then their tails. */
  lemma {:induction false} LessParts(a: string, b: string, a': string, b': string)
    requires |a| == |b|
    ensures Less(a + a', b + b') <==> Less(a, b) || (a == b && Less(a', b'))
  {
    if a == "" {
      assert a + a' == a' && b + b' == b';
    } else {
      assert (a + a')[1..] == a[1..] + a' && (b + b')[1..] == b[1..] + b';
      LessParts(a[1..], b[1..], a', b');
      assert a == [a[0]] + a[1..] && b == [b[0]] + b[1..];
    }
  }

  function Pow32(k: nat): (p: nat)
    ensures p > 0
  {
    if k == 0 then 1 else 32 * Pow32(k - 1)
  }

  lemma DivBound(n: nat, p: nat)
    requires n < 32 * p
    ensures n / 32 < p
  {
  }

  /** Fixed-width numerals order as the numbers do. */
  lemma {:induction false} QuintetOrder(m: nat, n: nat, k: nat)
    requires m < Pow32(k) && n < Pow32(k)
    ensures Less(Quintets(m, k), Quintets(n, k)) <==> m < n
    ensures Quintets(m, k) == Quintets(n, k) <==> m == n
  {
    if k > 0 {
      DivBound(m, Pow32(k - 1));
      DivBound(n, Pow32(k - 1));
      QuintetOrder(m / 32, n / 32, k - 1);
      SymbolOrder(m % 32, n % 32);
      var a, b := Quintets(m / 32, k - 1), Quintets(n / 32, k - 1);
      LessParts(a, b, [Symbol32(m % 32)], [Symbol32(n % 32)]);
      assert (a + [Symbol32(m % 32)])[..k - 1] == a && (b + [Symbol32(n % 32)])[..k - 1] == b;
      assert (a + [Symbol32(m % 32)])[k - 1] == Symbol32(m % 32) && (b + [Symbol32(n % 32)])[k - 1] == Symbol32(n % 32);
      assert m == m / 32 * 32 + m % 32 && n == n / 32 * 32 + n % 32;
    }
  }

  function Pow256(k: nat): nat {
    if k == 0 then 1 else 256 * Pow256(k - 1)
  }

  /** Byte strings of one length order as their big-endian numbers do. */
  lemma {:induction false} BigEndianOrder(s: string, t: string)
    requires Bytes(s) && Bytes(t) && |s| == |t|
    ensures BigEndian(s) < Pow256(|s|)
    ensures Less(s, t) <==> BigEndian(s) < BigEndian(t)
    ensures s == t <==> BigEndian(s) == BigEndian(t)
  {
    if s != "" {
      var n := |s| - 1;
      BigEndianOrder(s[..n], t[..n]);
      LessParts(s[..n], t[..n], [s[n]], [t[n]]);
      assert s == s[..n] + [s[n]] && t == t[..n] + [t[n]];
    }
  }

  /** Encoded identities order and compare exactly as the bytes beneath them, so
      sorting on the one and resuming on the other cannot part ways. */
  lemma EncodingKeepsOrder(s: string, t: string)
    requires Bytes(s) && Bytes(t) && |s| == |t| == WADAPT_ID_BYTES
    ensures Less(Encode32(s), Encode32(t)) <==> Less(s, t)
    ensures Encode32(s) == Encode32(t) <==> s == t
  {
    var a, b, a', b' := s[..5], t[..5], s[5..], t[5..];
    HalvesOrder(a, b, 5, 8);
    HalvesOrder(a', b', 3, 5);
    LessParts(a, b, a', b');
    assert s == a + a' && t == b + b';
    var x, y := Quintets(BigEndian(a), 8), Quintets(BigEndian(b), 8);
    var x', y' := Quintets(BigEndian(a') * 2, 5), Quintets(BigEndian(b') * 2, 5);
    LessParts(x, y, x', y');
    assert (x + x')[..8] == x && (y + y')[..8] == y && (x + x')[8..] == x' && (y + y')[8..] == y';
  }

  lemma HalvesOrder(s: string, t: string, bytes: nat, digits: nat)
    requires Bytes(s) && Bytes(t) && |s| == |t| == bytes
    requires (bytes == 5 && digits == 8) || (bytes == 3 && digits == 5)
    ensures var shift := if bytes == 5 then 1 else 2;
            var x, y := Quintets(BigEndian(s) * shift, digits), Quintets(BigEndian(t) * shift, digits);
            (Less(x, y) <==> Less(s, t)) && (x == y <==> s == t)
  {
    BigEndianOrder(s, t);
    BigEndianOrder(t, s);
    var shift := if bytes == 5 then 1 else 2;
    assert Pow256(3) == 0x100_0000 && Pow256(5) == 0x100_0000_0000;
    assert Pow32(5) == 0x200_0000 && Pow32(8) == 0x100_0000_0000;
    QuintetOrder(BigEndian(s) * shift, BigEndian(t) * shift, digits);
  }

  // ---- the hashed input ------------------------------------------------------------

  const SEPARATOR: char := 0 as char

  /** serverName, a NUL, scopeID. */
  function HashedInput(serverName: string, scopeId: string): string {
    serverName + [SEPARATOR] + scopeId
  }

  predicate Dotted(s: string) {
    forall i :: 0 <= i < |s| ==> IsDigit(s[i]) || s[i] == '.'
  }

  /** Both inputs can be told from the hashed bytes: no two servers' scopes, and
      no two scopes of one server, hash the same input. */
  lemma InputsAreRecoverable(name: string, scopeId: string, name': string, scopeId': string)
    requires Dotted(scopeId) && Dotted(scopeId')
    ensures HashedInput(name, scopeId) == HashedInput(name', scopeId') <==> name == name' && scopeId == scopeId'
  {
    var x, y := HashedInput(name, scopeId), HashedInput(name', scopeId');
    if x == y {
      assert x[|name|] == SEPARATOR && y[|name'|] == SEPARATOR;
      assert forall i :: |name| < i < |x| ==> x[i] == scopeId[i - |name| - 1] != SEPARATOR;
      assert forall i :: |name'| < i < |y| ==> y[i] == scopeId'[i - |name'| - 1] != SEPARATOR;
      assert |name| == |name'|;
      assert x[..|name|] == name && y[..|name'|] == name';
      assert x[|name| + 1..] == scopeId && y[|name'| + 1..] == scopeId';
    }
  }

  // ---- the identity ------------------------------------------------------------------

  type Hash = s: string | Bytes(s) && |s| == 8 witness "AAAAAAAA"

  /** HMAC-SHA256 under the namespace key, cut to eight bytes. Any function at
      all will do here: nothing below assumes it free of collisions. */
  type Mac = string -> Hash

  function Derive(mac: Mac, serverName: string, scopeId: string): (id: string)
    ensures |id| == WADAPT_ID_LENGTH && Bytes(id)
  {
    Encode32(mac(HashedInput(serverName, scopeId)))
  }

  /** Two identities are equal exactly when the cut hashes of the two inputs
      are: a scope shares its identity only through a collision of the hash. */
  lemma SharedIdentityIsCollision(mac: Mac, name: string, scopeId: string, scopeId': string)
    requires Dotted(scopeId) && Dotted(scopeId') && scopeId != scopeId'
    ensures HashedInput(name, scopeId) != HashedInput(name, scopeId')
    ensures Derive(mac, name, scopeId) == Derive(mac, name, scopeId') <==> mac(HashedInput(name, scopeId)) == mac(HashedInput(name, scopeId'))
  {
    InputsAreRecoverable(name, scopeId, name, scopeId');
    EncodingKeepsOrder(mac(HashedInput(name, scopeId)), mac(HashedInput(name, scopeId')));
  }

  // ---- the text of a scopeId -----------------------------------------------------------

  /** netip.Addr.String of an IPv4 address. */
  function DottedQuad(a: Addr): (s: string)
  {
    Join(Numerals(a), ".")
  }

  function Numerals(a: Addr): (n: seq<string>)
    ensures |n| == 4 && forall i :: 0 <= i < 4 ==> Lacks(n[i], '.')
  {
    var b := Octets(a);
    [Digits(b[0]), Digits(b[1]), Digits(b[2]), Digits(b[3])]
  }

  lemma {:induction false} JoinIsDotted(pieces: seq<string>)
    requires |pieces| > 0 && forall i :: 0 <= i < |pieces| ==> Dotted(pieces[i])
    ensures Dotted(Join(pieces, "."))
  {
    if |pieces| > 1 {
      JoinIsDotted(pieces[1..]);
    }
  }

  /** The text of an address is dotted, and names no other address. */
  lemma QuadNamesAddress(a: Addr, b: Addr)
    ensures Dotted(DottedQuad(a))
    ensures DottedQuad(a) == DottedQuad(b) <==> a == b
  {
    JoinIsDotted(Numerals(a));
    SplitJoin(Numerals(a), '.');
    SplitJoin(Numerals(b), '.');
    if DottedQuad(a) == DottedQuad(b) {
      assert Numerals(a) == Numerals(b);
      SameOctets(a, b);
    }
  }

  lemma SameOctets(a: Addr, b: Addr)
    requires Numerals(a) == Numerals(b)
    ensures a == b
  {
    var x, y, m, n := Octets(a), Octets(b), Numerals(a), Numerals(b);
    assert m[0] == n[0] && m[1] == n[1] && m[2] == n[2] && m[3] == n[3];
    ValueOfDigits(x[0]);
    ValueOfDigits(y[0]);
    ValueOfDigits(x[1]);
    ValueOfDigits(y[1]);
    ValueOfDigits(x[2]);
    ValueOfDigits(y[2]);
    ValueOfDigits(x[3]);
    ValueOfDigits(y[3]);
    assert x == y;
    OctetsRound(a);
    OctetsRound(b);
  }
}
