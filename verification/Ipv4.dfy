/** IPv4 addresses and masks as 32-bit words, with the bitwise operators defined
    bit by bit on naturals, and the arithmetic the DHCP adapter does on them
    (internal/adapters/dhcpwindows/create.go). */
module Ipv4 {
  import opened Strconv

  const WORD: nat := 0x1_0000_0000

  type Addr = a: int | 0 <= a < 0x1_0000_0000

  function And(a: nat, b: nat): (r: nat)
    ensures r <= a && r <= b
  {
    if a == 0 || b == 0 then 0 else 2 * And(a / 2, b / 2) + if a % 2 == 1 && b % 2 == 1 then 1 else 0
  }

  function Or(a: nat, b: nat): (r: nat)
    decreases a + b
  {
    if a == 0 then b else if b == 0 then a
    else 2 * Or(a / 2, b / 2) + if a % 2 == 1 || b % 2 == 1 then 1 else 0
  }

  function Not(a: Addr): Addr {
    WORD - 1 - a
  }

  // ---- masks ---------------------------------------------------------------------

  /** isContiguousMask; the increment wraps. */
  predicate IsContiguousMask(mask: Addr) {
    var inverted := Not(mask);
    mask != 0 && And(inverted, (inverted + 1) % WORD) == 0
  }

  /** hasHostAddresses. */
  predicate HasHostAddresses(mask: Addr) {
    Not(mask) >= 3
  }

  lemma PowWord()
    ensures Pow2(32) == WORD && Pow2(24) == 0x100_0000 && Pow2(16) == 0x1_0000 && Pow2(8) == 256 && Pow2(1) == 2 && Pow2(2) == 4
  {
    assert Pow2(8) == 256;
    assert Pow2(12) == 4096;
    assert Pow2(16) == 65536;
    assert Pow2(20) == 0x10_0000;
    assert Pow2(24) == 0x100_0000;
    assert Pow2(28) == 0x1000_0000;
  }

  lemma {:induction false} PowGrows(a: nat, b: nat)
    requires a <= b
    ensures Pow2(a) <= Pow2(b) && (a < b ==> 2 * Pow2(a) <= Pow2(b))
    decreases b
  {
    if a < b {
      PowGrows(a, b - 1);
    }
  }

  /** The mask of `p` ones followed by zeros. */
  function Prefix(p: nat): Addr
    requires p <= 32
  {
    PowWord();
    PowGrows(32 - p, 32);
    WORD - Pow2(32 - p)
  }

  lemma {:induction false} AndSelf(a: nat)
    ensures And(a, a) == a
  {
    if a > 0 {
      AndSelf(a / 2);
    }
  }

  lemma {:induction false} OnesPass(k: nat)
    ensures And(Pow2(k) - 1, Pow2(k)) == 0
  {
    if k > 0 {
      OnesPass(k - 1);
      assert (Pow2(k) - 1) / 2 == Pow2(k - 1) - 1 && Pow2(k) / 2 == Pow2(k - 1);
    }
  }

  /** A word that shares no bit with its successor is all ones. */
  lemma {:induction false} OnlyOnesPass(h: nat) returns (k: nat)
    requires And(h, h + 1) == 0
    ensures h + 1 == Pow2(k)
  {
    k := 0;
    if h > 0 {
      AndSelf(h / 2);
      assert h % 2 == 1;
      assert (h + 1) / 2 == h / 2 + 1;
      k := OnlyOnesPass(h / 2);
      k := k + 1;
    }
  }

  lemma Width(k: nat)
    ensures Pow2(k) < WORD <==> k < 32
    ensures Pow2(k) >= 4 <==> k >= 2
  {
    PowWord();
    PowGrows(if k < 32 then k else 32, if k < 32 then 32 else k);
    PowGrows(if k < 2 then k else 2, if k < 2 then 1 else k);
  }

  /** The increment of an inverted mask only wraps for the zero mask. */
  lemma NoWrap(mask: Addr)
    ensures IsContiguousMask(mask) <==> mask != 0 && And(WORD - 1 - mask, WORD - 1 - mask + 1) == 0
  {
    if mask != 0 {
      assert (Not(mask) + 1) % WORD == WORD - 1 - mask + 1;
    }
  }

  lemma InvertedIsOnes(mask: Addr) returns (k: nat)
    requires IsContiguousMask(mask)
    ensures Not(mask) + 1 == Pow2(k)
  {
    NoWrap(mask);
    k := OnlyOnesPass(WORD - 1 - mask);
  }

  lemma ContiguousIsPrefix(mask: Addr) returns (p: nat)
    requires IsContiguousMask(mask)
    ensures 1 <= p <= 32 && mask == Prefix(p)
    ensures HasHostAddresses(mask) <==> p <= 30
  {
    var k := InvertedIsOnes(mask);
    Width(k);
    p := 32 - k;
  }

  lemma PrefixIsContiguous(p: nat)
    requires 1 <= p <= 32
    ensures IsContiguousMask(Prefix(p)) && (HasHostAddresses(Prefix(p)) <==> p <= 30)
  {
    Width(32 - p);
    OnesPass(32 - p);
    NoWrap(Prefix(p));
  }

  /** The bit tricks decide what they are meant to: a mask of one or more ones
      followed by zeros, and at least two host bits. */
  lemma MaskTestsDecide(mask: Addr)
    ensures IsContiguousMask(mask) <==> exists p :: 1 <= p <= 32 && mask == Prefix(p)
    ensures IsContiguousMask(mask) && HasHostAddresses(mask) <==> exists p :: 1 <= p <= 30 && mask == Prefix(p)
  {
    if IsContiguousMask(mask) {
      var p := ContiguousIsPrefix(mask);
    }
    forall p | 1 <= p <= 32 && mask == Prefix(p)
      ensures IsContiguousMask(mask) && (p <= 30 ==> HasHostAddresses(mask))
    {
      PrefixIsContiguous(p);
    }
  }

  // ---- subnets -----------------------------------------------------------------

  function Network(addr: Addr, mask: Addr): Addr {
    And(addr, mask)
  }

  lemma {:induction false} OrBelow(a: nat, b: nat, w: nat)
    requires a < Pow2(w) && b < Pow2(w)
    ensures Or(a, b) < Pow2(w)
  {
    if a > 0 && b > 0 {
      OrBelow(a / 2, b / 2, w - 1);
    }
  }

  function Broadcast(addr: Addr, mask: Addr): Addr {
    PowWord();
    OrBelow(addr, Not(mask), 32);
    Or(addr, Not(mask))
  }

  /** The number of addresses a prefix mask leaves in one subnet. */
  function Size(mask: Addr): nat {
    WORD - mask
  }

  lemma DivModIs(a: int, d: nat, q: int, r: nat)
    requires d > 0 && a == q * d + r && r < d
    ensures a / d == q && a % d == r
  {
    var x := a / d - q;
    assert x * d == a / d * d - q * d == r - a % d;
    OnlyZero(x, d);
  }

  lemma OnlyZero(x: int, d: int)
    requires -d < x * d < d
    ensures x == 0
  {
    assert x >= 1 ==> x * d >= 1 * d;
    assert x <= -1 ==> x * d <= -1 * d;
  }

  lemma HalveMod(a: nat, m: nat)
    requires m > 0
    ensures a % (2 * m) == 2 * (a / 2 % m) + a % 2
  {
    var q, r := a / 2 / m, a / 2 % m;
    assert a / 2 == q * m + r;
    assert a == q * (2 * m) + (2 * r + a % 2);
    DivModIs(a, 2 * m, q, 2 * r + a % 2);
  }

  lemma {:induction false} AndOnes(a: nat, w: nat)
    requires a < Pow2(w)
    ensures And(a, Pow2(w) - 1) == a
  {
    if a > 0 {
      AndOnes(a / 2, w - 1);
      assert (Pow2(w) - 1) / 2 == Pow2(w - 1) - 1;
    }
  }

  /** The low `k` bits. */
  function LowBits(a: nat, k: nat): nat
    decreases k
  {
    if k == 0 then 0 else 2 * LowBits(a / 2, k - 1) + a % 2
  }

  lemma {:induction false} LowBitsAreRemainder(a: nat, k: nat)
    ensures LowBits(a, k) == a % Pow2(k)
    decreases k
  {
    if k > 0 {
      LowBitsAreRemainder(a / 2, k - 1);
      HalveMod(a, Pow2(k - 1));
    }
  }

  lemma AndDouble(a: nat, b: nat)
    ensures And(a, 2 * b) == 2 * And(a / 2, b)
  {
    assert 2 * b / 2 == b && 2 * b % 2 == 0;
  }

  lemma OrDoubleOne(a: nat, b: nat)
    ensures Or(a, 2 * b + 1) == 2 * Or(a / 2, b) + 1
  {
    assert (2 * b + 1) / 2 == b && (2 * b + 1) % 2 == 1;
  }

  lemma HalfBelow(a: nat, w: nat)
    requires a < Pow2(w) && w > 0
    ensures a / 2 < Pow2(w - 1)
  {
  }

  lemma OneMoreZero(a: nat, x: nat, y: nat, low: nat)
    requires x == 2 * y && And(a / 2, y) == a / 2 - low
    ensures And(a, x) == a - (2 * low + a % 2)
  {
    AndDouble(a, y);
  }

  /** `w - k` ones followed by `k` zeros. */
  function Ones(w: nat, k: nat): nat
    requires k <= w
  {
    PowGrows(k, w);
    Pow2(w) - Pow2(k)
  }

  lemma OnesHalve(w: nat, k: nat)
    requires 0 < k <= w
    ensures Ones(w, k) == 2 * Ones(w - 1, k - 1)
  {
  }

  lemma NoZeros(a: nat, w: nat)
    requires a < Pow2(w)
    ensures And(a, Ones(w, 0)) == a
  {
    AndOnes(a, w);
  }

  /** Masking with a run of ones clears exactly the low bits. */
  lemma {:induction false} AndClears(a: nat, w: nat, k: nat)
    requires a < Pow2(w) && k <= w
    ensures And(a, Ones(w, k)) == a - LowBits(a, k)
    decreases w
  {
    if k == 0 {
      NoZeros(a, w);
    } else {
      HalfBelow(a, w);
      AndClears(a / 2, w - 1, k - 1);
      OnesHalve(w, k);
      OneMoreZero(a, Ones(w, k), Ones(w - 1, k - 1), LowBits(a / 2, k - 1));
    }
  }

  /** Joining a run of ones sets exactly the low bits. */
  lemma {:induction false} OrFills(a: nat, k: nat)
    ensures Or(a, Pow2(k) - 1) == a - LowBits(a, k) + Pow2(k) - 1
    decreases k
  {
    if k > 0 {
      OrFills(a / 2, k - 1);
      OrDoubleOne(a, Pow2(k - 1) - 1);
    }
  }

  /** A real mask rounds down to a multiple of the subnet's size; the broadcast
      address is the last one before the next multiple. */
  lemma SubnetArithmetic(addr: Addr, mask: Addr)
    requires IsContiguousMask(mask)
    ensures Network(addr, mask) == addr - addr % Size(mask)
    ensures Broadcast(addr, mask) == Network(addr, mask) + Not(mask)
  {
    var k := MaskSize(mask);
    PrefixSubnet(addr, k);
  }

  lemma MaskSize(mask: Addr) returns (k: nat)
    requires IsContiguousMask(mask)
    ensures k <= 31 && mask == WORD - Pow2(k)
  {
    var p := ContiguousIsPrefix(mask);
    k := 32 - p;
  }

  lemma PrefixSubnet(addr: Addr, k: nat)
    requires k <= 31
    ensures var m := Pow2(k);
            && m < WORD && And(addr, WORD - m) == addr - addr % m
            && Or(addr, m - 1) == addr - addr % m + m - 1
  {
    PowWord();
    Width(k);
    AndClears(addr, 32, k);
    OrFills(addr, k);
    LowBitsAreRemainder(addr, k);
  }

  lemma SameMultiple(a: nat, o: nat, d: nat)
    requires d > 0
    ensures a - a % d == o - o % d <==> a - a % d <= o < a - a % d + d
  {
    var n := a - a % d;
    assert n == a / d * d;
    if n <= o < n + d {
      DivModIs(o, d, a / d, o - n);
    }
  }

  /** So the subnet is an interval, from the network to the broadcast address. */
  lemma SubnetIsInterval(addr: Addr, other: Addr, mask: Addr)
    requires IsContiguousMask(mask)
    ensures Network(other, mask) == Network(addr, mask) <==> Network(addr, mask) <= other <= Broadcast(addr, mask)
    ensures Network(other, mask) == Network(addr, mask) ==> Broadcast(other, mask) == Broadcast(addr, mask)
  {
    SubnetArithmetic(addr, mask);
    SubnetArithmetic(other, mask);
    SameMultiple(addr, other, Size(mask));
  }

  lemma NetworkIsAligned(addr: Addr, mask: Addr)
    requires IsContiguousMask(mask)
    ensures Network(Network(addr, mask), mask) == Network(addr, mask)
  {
    SubnetArithmetic(addr, mask);
    SubnetIsInterval(addr, Network(addr, mask), mask);
  }

  // ---- octets ------------------------------------------------------------------

  type Octet = b: int | 0 <= b < 256

  /** As4. */
  function Octets(a: Addr): (b: seq<Octet>)
    ensures |b| == 4
  {
    [a / 0x100_0000, a / 0x1_0000 % 256, a / 256 % 256, a % 256]
  }

  /** AddrFrom4. */
  function FromOctets(b: seq<Octet>): Addr
    requires |b| == 4
  {
    var a: int, m: int, n: int, z: int := b[0], b[1], b[2], b[3];
    a * 0x100_0000 + m * 0x1_0000 + n * 256 + z
  }

  lemma DivDiv(x: nat)
    ensures x / 256 / 256 == x / 0x1_0000 && x / 0x1_0000 / 256 == x / 0x100_0000
  {
  }

  lemma OctetsRound(x: Addr)
    ensures FromOctets(Octets(x)) == x
  {
    DivDiv(x);
    var y, z := x / 256, x / 0x1_0000;
    assert x == 256 * y + x % 256 && y == 256 * z + y % 256 && z == 256 * (x / 0x100_0000) + z % 256;
  }

  lemma OctetsUnique(b: seq<Octet>)
    requires |b| == 4
    ensures Octets(FromOctets(b)) == b
  {
    var p: int, q: int, r: int, t: int := b[0], b[1], b[2], b[3];
    var x := FromOctets(b);
    assert x == 256 * (p * 0x1_0000 + q * 256 + r) + t;
    assert x / 256 == 256 * (p * 256 + q) + r;
    DivDiv(x);
    assert x / 0x1_0000 == 256 * p + q;
  }

  lemma NotByOctets(y: Addr)
    ensures var m := Octets(y); Octets(Not(y)) == [255 - m[0], 255 - m[1], 255 - m[2], 255 - m[3]]
  {
    var m := Octets(y);
    var n: seq<Octet> := [255 - m[0], 255 - m[1], 255 - m[2], 255 - m[3]];
    OctetsRound(y);
    assert FromOctets(n) == Not(y);
    OctetsUnique(n);
  }

  /** networkAddr. */
  method NetworkAddr(addr: Addr, mask: Addr) returns (network: Addr)
    ensures network == Network(addr, mask)
  {
    var a, m := Octets(addr), Octets(mask);
    var octets: seq<Octet> := [0, 0, 0, 0];
    for i := 0 to 4
      invariant |octets| == 4 && forall j :: 0 <= j < i ==> octets[j] == And(a[j], m[j])
    {
      octets := octets[i := And(a[i], m[i])];
    }
    network := FromOctets(octets);
    AndByOctets(addr, mask);
  }

  /** The join of each octet with the inverted one of the mask. */
  method FillOctets(a: seq<Octet>, m: seq<Octet>) returns (octets: seq<Octet>)
    requires |a| == |m| == 4
    ensures |octets| == 4 && forall j :: 0 <= j < 4 ==> octets[j] == Or(a[j], 255 - m[j])
  {
    octets := [0, 0, 0, 0];
    for i := 0 to 4
      invariant |octets| == 4 && forall j :: 0 <= j < i ==> octets[j] == Or(a[j], 255 - m[j])
    {
      PowWord();
      OrBelow(a[i], 255 - m[i], 8);
      octets := octets[i := Or(a[i], 255 - m[i])];
    }
  }

  /** broadcastAddr. */
  method BroadcastAddr(addr: Addr, mask: Addr) returns (broadcast: Addr)
    ensures broadcast == Broadcast(addr, mask)
  {
    var octets := FillOctets(Octets(addr), Octets(mask));
    broadcast := FromOctets(octets);
    NotByOctets(mask);
    OrByOctets(addr, Not(mask));
  }

  lemma Quarter(a: nat)
    ensures a / 2 / 2 == a / 4 && a % 4 % 2 == a % 2 && a % 4 / 2 == a / 2 % 2 && a % 4 / 2 % 2 == a / 2 % 2 && a % 4 / 2 / 2 == 0
  {
  }

  lemma AndUnfold(a: nat, b: nat)
    ensures And(a, b) == 2 * And(a / 2, b / 2) + if a % 2 == 1 && b % 2 == 1 then 1 else 0
  {
  }

  lemma OrUnfold(a: nat, b: nat)
    ensures Or(a, b) == 2 * Or(a / 2, b / 2) + if a % 2 == 1 || b % 2 == 1 then 1 else 0
  {
  }

  lemma AndSplit2(a: nat, b: nat)
    ensures And(a, b) == 4 * And(a / 4, b / 4) + And(a % 4, b % 4)
  {
    Quarter(a);
    Quarter(b);
    AndUnfold(a, b);
    AndUnfold(a / 2, b / 2);
    AndUnfold(a % 4, b % 4);
    AndUnfold(a % 4 / 2, b % 4 / 2);
  }

  lemma AndSplit4(a: nat, b: nat)
    ensures And(a, b) == 16 * And(a / 16, b / 16) + And(a % 16, b % 16)
  {
    AndSplit2(a, b);
    AndSplit2(a / 4, b / 4);
    AndSplit2(a % 16, b % 16);
    assert a / 4 / 4 == a / 16 && b / 4 / 4 == b / 16;
    assert a % 16 / 4 == a / 4 % 4 && b % 16 / 4 == b / 4 % 4;
    assert a % 16 % 4 == a % 4 && b % 16 % 4 == b % 4;
  }

  lemma AndSplit8(a: nat, b: nat)
    ensures And(a, b) == 256 * And(a / 256, b / 256) + And(a % 256, b % 256)
  {
    AndSplit4(a, b);
    AndSplit4(a / 16, b / 16);
    AndSplit4(a % 256, b % 256);
    assert a / 16 / 16 == a / 256 && b / 16 / 16 == b / 256;
    assert a % 256 / 16 == a / 16 % 16 && b % 256 / 16 == b / 16 % 16;
    assert a % 256 % 16 == a % 16 && b % 256 % 16 == b % 16;
  }

  lemma OrSplit2(a: nat, b: nat)
    ensures Or(a, b) == 4 * Or(a / 4, b / 4) + Or(a % 4, b % 4)
  {
    Quarter(a);
    Quarter(b);
    OrUnfold(a, b);
    OrUnfold(a / 2, b / 2);
    OrUnfold(a % 4, b % 4);
    OrUnfold(a % 4 / 2, b % 4 / 2);
  }

  lemma OrSplit4(a: nat, b: nat)
    ensures Or(a, b) == 16 * Or(a / 16, b / 16) + Or(a % 16, b % 16)
  {
    OrSplit2(a, b);
    OrSplit2(a / 4, b / 4);
    OrSplit2(a % 16, b % 16);
    assert a / 4 / 4 == a / 16 && b / 4 / 4 == b / 16;
    assert a % 16 / 4 == a / 4 % 4 && b % 16 / 4 == b / 4 % 4;
    assert a % 16 % 4 == a % 4 && b % 16 % 4 == b % 4;
  }

  lemma OrSplit8(a: nat, b: nat)
    ensures Or(a, b) == 256 * Or(a / 256, b / 256) + Or(a % 256, b % 256)
  {
    OrSplit4(a, b);
    OrSplit4(a / 16, b / 16);
    OrSplit4(a % 256, b % 256);
    assert a / 16 / 16 == a / 256 && b / 16 / 16 == b / 256;
    assert a % 256 / 16 == a / 16 % 16 && b % 256 / 16 == b / 16 % 16;
    assert a % 256 % 16 == a % 16 && b % 256 % 16 == b % 16;
  }

  lemma AndInFour(x: nat, y: nat)
    ensures And(x, y) == 0x100_0000 * And(x / 0x100_0000, y / 0x100_0000) + 0x1_0000 * And(x / 0x1_0000 % 256, y / 0x1_0000 % 256)
                       + 256 * And(x / 256 % 256, y / 256 % 256) + And(x % 256, y % 256)
  {
    DivDiv(x);
    DivDiv(y);
    AndSplit8(x, y);
    AndSplit8(x / 256, y / 256);
    AndSplit8(x / 0x1_0000, y / 0x1_0000);
  }

  lemma AndByOctets(x: Addr, y: Addr)
    ensures var a, m := Octets(x), Octets(y);
            And(x, y) == 0x100_0000 * And(a[0], m[0]) + 0x1_0000 * And(a[1], m[1]) + 256 * And(a[2], m[2]) + And(a[3], m[3])
  {
    AndInFour(x, y);
  }

  lemma OrInFour(x: nat, y: nat)
    ensures Or(x, y) == 0x100_0000 * Or(x / 0x100_0000, y / 0x100_0000) + 0x1_0000 * Or(x / 0x1_0000 % 256, y / 0x1_0000 % 256)
                       + 256 * Or(x / 256 % 256, y / 256 % 256) + Or(x % 256, y % 256)
  {
    DivDiv(x);
    DivDiv(y);
    OrSplit8(x, y);
    OrSplit8(x / 256, y / 256);
    OrSplit8(x / 0x1_0000, y / 0x1_0000);
  }

  lemma OrByOctets(x: Addr, y: Addr)
    ensures var a, m := Octets(x), Octets(y);
            Or(x, y) == 0x100_0000 * Or(a[0], m[0]) + 0x1_0000 * Or(a[1], m[1]) + 256 * Or(a[2], m[2]) + Or(a[3], m[3])
  {
    OrInFour(x, y);
  }
}
