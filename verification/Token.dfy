/** The opaque page token (internal/core/pagination/token.go), the query
    parameters that carry it (page.go), and the walk of a client that only ever
    echoes what it was handed. Strings here hold bytes. */
module Token {
  import opened Wrappers
  import opened Strconv
  import opened Text
  import opened Base64
  import opened Pagination

  const TOKEN_VERSION: nat := 1
  const MAX_KEY_BYTES: nat := 1024
  const CURSOR_OVERHEAD: nat := 64

  // ---- the cursor document -------------------------------------------------------

  datatype Cursor = Cursor(version: nat, scope: string, after: string)

  predicate Continues(s: string, i: nat) {
    i < |s| && 0x80 <= s[i] as int <= 0xBF
  }

  /** Valid UTF-8 without the two line separators JSON escapes. */
  predicate Utf8(s: string) {
    if s == "" then true
    else
      var b := s[0] as int;
      var c := if |s| > 1 then s[1] as int else 0;
      if b < 0x80 then Utf8(s[1..])
      else if 0xC2 <= b <= 0xDF then Continues(s, 1) && Utf8(s[2..])
      else if 0xE0 <= b <= 0xEF then
        && Continues(s, 1) && Continues(s, 2)
        && (b == 0xE0 ==> c >= 0xA0) && (b == 0xED ==> c <= 0x9F)
        && !(b == 0xE2 && c == 0x80 && (s[2] as int == 0xA8 || s[2] as int == 0xA9))
        && Utf8(s[3..])
      else
        && 0xF0 <= b <= 0xF4 && Continues(s, 1) && Continues(s, 2) && Continues(s, 3)
        && (b == 0xF0 ==> c >= 0x90) && (b == 0xF4 ==> c <= 0x8F)
        && Utf8(s[4..])
  }

  /** encoding/json prints the string between quotes as it stands. */
  predicate Plain(s: string) {
    && Utf8(s)
    && forall i :: 0 <= i < |s| ==> s[i] >= ' ' && s[i] as int < 256 && s[i] !in {'"', '\\', '<', '>', '&'}
  }

  const OPEN := "{\"v\":"
  const SCOPE := ",\"s\":\""
  const KEY := "\",\"k\":\""
  const CLOSE := "\"}"

  /** json.Marshal of a cursor whose scope needs no escaping. */
  function Document(c: Cursor): (s: string)
    requires Plain(c.scope) && Bytes(c.after)
  {
    OPEN + Digits(c.version) + (SCOPE + (c.scope + (KEY + (Encode(c.after, Std) + CLOSE))))
  }

  function After(s: string, prefix: string): Option<string> {
    if prefix <= s then Some(s[|prefix|..]) else None
  }

  predicate Integer(s: string) {
    s != "" && (forall i :: 0 <= i < |s| ==> IsDigit(s[i])) && (s[0] == '0' ==> |s| == 1)
  }

  /** json.Unmarshal on documents of the printed form, whatever their fields hold. */
  function ReadDocument(raw: string): Option<Cursor> {
    var s :- After(raw, OPEN);
    var i := IndexOf(s, ',');
    if !Integer(s[..i]) then None
    else
      var t :- After(s[i..], SCOPE);
      var j := IndexOf(t, '"');
      if !Plain(t[..j]) then None
      else
        var u :- After(t[j..], KEY);
        var k := IndexOf(u, '"');
        var after :- Decode(u[..k], Std);
        if u[k..] == CLOSE then Some(Cursor(Value(s[..i]), t[..j], after)) else None
  }

  lemma AfterPrefix(prefix: string, s: string)
    ensures After(prefix + s, prefix) == Some(s)
  {
    assert (prefix + s)[..|prefix|] == prefix;
  }

  lemma UpTo(a: string, rest: string, c: char)
    requires Lacks(a, c) && rest != "" && rest[0] == c
    ensures IndexOf(a + rest, c) == |a| && (a + rest)[..|a|] == a && (a + rest)[|a|..] == rest
  {
    IndexOfFirst(a, c, rest[1..]);
    assert a + rest == a + [c] + rest[1..];
  }

  lemma {:induction false} DigitsAreInteger(n: nat)
    ensures Integer(Digits(n)) && (n > 0 ==> Digits(n)[0] != '0')
  {
    if n >= 10 {
      DigitsAreInteger(n / 10);
    }
  }

  /** Reading a printed cursor gives the cursor back. */
  lemma ReadBack(c: Cursor)
    requires Plain(c.scope) && Bytes(c.after)
    ensures ReadDocument(Document(c)) == Some(c)
  {
    var encoded := Encode(c.after, Std);
    var u := encoded + CLOSE;
    var t := c.scope + (KEY + u);
    var s := Digits(c.version) + (SCOPE + t);
    AfterPrefix(OPEN, s);
    assert Document(c) == OPEN + s;
    DigitsAreInteger(c.version);
    ValueOfDigits(c.version);
    UpTo(Digits(c.version), SCOPE + t, ',');
    AfterPrefix(SCOPE, t);
    UpTo(c.scope, KEY + u, '"');
    AfterPrefix(KEY, u);
    UpTo(encoded, CLOSE, '"');
    DecodeEncode(c.after, Std);
  }

  // ---- the token -------------------------------------------------------------------

  function MaxTokenLen(scope: string): nat {
    EncodedLen((MAX_KEY_BYTES + 2) / 3 * 4 + 2 + |scope| + CURSOR_OVERHEAD, RawUrl)
  }

  lemma DocumentIsBytes(c: Cursor)
    requires Plain(c.scope) && Bytes(c.after)
    ensures Bytes(Document(c)) && |Document(c)| == |Digits(c.version)| + |c.scope| + EncodedLen(|c.after|, Std) + 20
  {
    assert Bytes(OPEN) && Bytes(SCOPE) && Bytes(KEY) && Bytes(CLOSE);
  }

  function EncodeToken(scope: string, after: string): string
    requires Plain(scope) && Bytes(after)
  {
    var c := Cursor(TOKEN_VERSION, scope, after);
    DocumentIsBytes(c);
    Encode(Document(c), RawUrl)
  }

  function DecodeToken(token: string, scope: string): Option<string> {
    if |token| > MaxTokenLen(scope) then None
    else
      var raw :- Decode(token, RawUrl);
      var c :- ReadDocument(raw);
      if c.version != TOKEN_VERSION || c.scope != scope then None
      else if c.after == "" || |c.after| > MAX_KEY_BYTES then None
      else Some(c.after)
  }

  /** The length gate never rejects a token this scope minted, and its slack is
      what the fixed structure needs and 43 bytes more. */
  lemma GateAdmitsMinted(scope: string, after: string)
    requires Plain(scope) && Bytes(after) && |after| <= MAX_KEY_BYTES
    ensures |EncodeToken(scope, after)| <= MaxTokenLen(scope)
  {
    DocumentIsBytes(Cursor(TOKEN_VERSION, scope, after));
    assert |Digits(TOKEN_VERSION)| == 1;
    var n := |Document(Cursor(TOKEN_VERSION, scope, after))|;
    assert n <= (MAX_KEY_BYTES + 2) / 3 * 4 + 2 + |scope| + CURSOR_OVERHEAD;
    LenGrows(n, (MAX_KEY_BYTES + 2) / 3 * 4 + 2 + |scope| + CURSOR_OVERHEAD);
  }

  lemma LenGrows(a: nat, b: nat)
    requires a <= b
    ensures EncodedLen(a, RawUrl) <= EncodedLen(b, RawUrl)
  {
    if a / 3 == b / 3 {
      assert a % 3 <= b % 3;
    } else {
      assert a / 3 + 1 <= b / 3;
    }
  }

  /** A token decodes, under the scope that minted it, to the key it was minted
      for, and under every other scope to nothing. */
  lemma TokenRoundTrip(scope: string, after: string, other: string)
    requires Plain(scope) && Bytes(after) && 1 <= |after| <= MAX_KEY_BYTES
    ensures DecodeToken(EncodeToken(scope, after), other) == if other == scope then Some(after) else None
  {
    var c := Cursor(TOKEN_VERSION, scope, after);
    DocumentIsBytes(c);
    DecodeEncode(Document(c), RawUrl);
    ReadBack(c);
    GateAdmitsMinted(scope, after);
  }

  // ---- the query parameters --------------------------------------------------------

  datatype Paginator = Paginator(scope: string, defaultSize: nat, maxSize: nat)

  /** New panics on anything else. */
  predicate Usable(p: Paginator) {
    p.scope != "" && 1 <= p.defaultSize <= p.maxSize
  }

  datatype SizeError = AtLeastOne | MustBeInteger

  function ParseSize(p: Paginator, raw: string, bits: nat): Result<nat, SizeError>
    requires bits > 0
  {
    if raw == "" then Success(p.defaultSize)
    else
      match Atoi(raw, bits)
      case Range => if raw[0] == '-' then Failure(AtLeastOne) else Success(p.maxSize)
      case Syntax => Failure(MustBeInteger)
      case Number(n) => if n < 1 then Failure(AtLeastOne) else Success(if n < p.maxSize then n else p.maxSize)
  }

  predicate Signed(raw: string) {
    raw != "" && (raw[0] == '-' || raw[0] == '+')
  }

  function Unsigned(raw: string): string {
    if Signed(raw) then raw[1..] else raw
  }

  /** The longest run of digits at the start. */
  function Leading(s: string): (d: string)
    ensures d <= s && forall i :: 0 <= i < |d| ==> IsDigit(d[i])
    ensures |d| < |s| ==> !IsDigit(s[|d|])
  {
    if s == "" || !IsDigit(s[0]) then "" else [s[0]] + Leading(s[1..])
  }

  lemma {:induction false} ScanThrough(s: string, acc: nat, max: nat)
    ensures Scan(s, acc, max) ==
            match Scan(Leading(s), acc, max)
            case Number(n) => if Leading(s) == s then Number(n) else Syntax
            case other => other
  {
    if s != "" && IsDigit(s[0]) {
      assert Leading(s)[1..] == Leading(s[1..]);
      if acc * 10 + DigitOf(s[0]) <= max {
        ScanThrough(s[1..], acc * 10 + DigitOf(s[0]), max);
      }
    }
  }

  /** A decimal integer, sign and all. */
  predicate Literal(raw: string) {
    Unsigned(raw) != "" && Leading(Unsigned(raw)) == Unsigned(raw)
  }

  function LiteralValue(raw: string): int
    requires Literal(raw)
  {
    if raw[0] == '-' then 0 - Value(Unsigned(raw)) else Value(Unsigned(raw))
  }

  lemma AtoiDecides(raw: string, bits: nat)
    requires bits > 0 && raw != ""
    ensures var d, cutoff: int := Leading(Unsigned(raw)), Pow2(bits - 1);
            Atoi(raw, bits) ==
            if Unsigned(raw) == "" then Syntax
            else if Value(d) > Pow2(bits) - 1 then Range
            else if !Literal(raw) then Syntax
            else if LiteralValue(raw) >= cutoff || LiteralValue(raw) < -cutoff then Range
            else Number(LiteralValue(raw))
  {
    ScanThrough(Unsigned(raw), 0, Pow2(bits) - 1);
    ScanIsValue(Leading(Unsigned(raw)), Pow2(bits) - 1);
    assert Pow2(bits) == 2 * Pow2(bits - 1);
  }

  /** An integer's fate does not depend on the platform: below one it is
      rejected, above the maximum clamped. Anything else is rejected, except
      that digits which overflow the platform's int are clamped before the
      junk after them is looked at. */
  lemma SizeDecides(p: Paginator, raw: string, bits: nat)
    requires Usable(p) && raw != "" && bits > 1 && p.maxSize < Pow2(bits - 1)
    ensures ParseSize(p, raw, bits) ==
            if Literal(raw) then
              (if LiteralValue(raw) < 1 then Failure(AtLeastOne)
               else Success(if LiteralValue(raw) < p.maxSize then LiteralValue(raw) else p.maxSize))
            else if Value(Leading(Unsigned(raw))) <= Pow2(bits) - 1 then Failure(MustBeInteger)
            else if raw[0] == '-' then Failure(AtLeastOne)
            else Success(p.maxSize)
  {
    AtoiDecides(raw, bits);
    assert Value("") == 0;
  }

  /** So for any two int widths one text is clamped on the narrower and rejected
      on the wider. */
  lemma JunkDependsOnPlatform(p: Paginator, narrow: nat, wide: nat)
    requires Usable(p) && 1 < narrow < wide && p.maxSize < Pow2(narrow - 1)
    ensures var raw := Digits(Pow2(narrow)) + "x";
            ParseSize(p, raw, narrow) == Success(p.maxSize) && ParseSize(p, raw, wide) == Failure(MustBeInteger)
  {
    var d := Digits(Pow2(narrow));
    var raw := d + "x";
    LeadingDigits(d);
    ValueOfDigits(Pow2(narrow));
    PowerGrows(narrow, wide);
    PowerGrows(narrow - 1, wide - 1);
    assert raw[0] == d[0];
    SizeDecides(p, raw, narrow);
    SizeDecides(p, raw, wide);
  }

  lemma {:induction false} LeadingDigits(d: string)
    requires forall i :: 0 <= i < |d| ==> IsDigit(d[i])
    ensures Leading(d + "x") == d
  {
    if d == "" {
      assert d + "x" == "x";
    } else {
      assert (d + "x")[1..] == d[1..] + "x";
      LeadingDigits(d[1..]);
    }
  }

  lemma {:induction false} PowerGrows(a: nat, b: nat)
    requires a <= b
    ensures Pow2(a) <= Pow2(b) && (a < b ==> Pow2(a) < Pow2(b))
    decreases b
  {
    if a < b {
      PowerGrows(a, b - 1);
    }
  }

  /** Absent is the first page; present and unreadable is an error. */
  function ParseToken(p: Paginator, raw: string): Option<string> {
    if raw == "" then Some("") else DecodeToken(raw, p.scope)
  }

  /** NextToken panics on a key it could not read back, which is None here. */
  function NextToken(p: Paginator, key: string): Option<string>
    requires Plain(p.scope) && Bytes(key)
  {
    if key == "" then Some("")
    else if |key| > MAX_KEY_BYTES then None
    else Some(EncodeToken(p.scope, key))
  }

  /** Whatever NextToken hands out, Parse resumes at; the empty token included. */
  lemma MintedTokenParses(p: Paginator, key: string)
    requires Plain(p.scope) && Bytes(key)
    ensures NextToken(p, key).Some? ==> ParseToken(p, NextToken(p, key).value) == Some(key)
    ensures NextToken(p, key).None? <==> |key| > MAX_KEY_BYTES
    ensures key != "" && NextToken(p, key).Some? ==> NextToken(p, key).value != ""
  {
    if 1 <= |key| <= MAX_KEY_BYTES {
      TokenRoundTrip(p.scope, key, p.scope);
      DocumentIsBytes(Cursor(TOKEN_VERSION, p.scope, key));
    }
  }

  // ---- the client's walk ------------------------------------------------------------

  /** What a client gets that sends each token back as it came: the items of
      each page. A rejected token or a panic would end it early. */
  function Echo<T>(p: Paginator, requests: seq<Request<T>>, token: string, key: T -> string): seq<seq<T>>
    requires Plain(p.scope)
    requires forall i :: 0 <= i < |requests| ==> requests[i].size > 0
  {
    if requests == [] then []
    else
      match ParseToken(p, token)
      case None => []
      case Some(after) =>
        var page := Slice(requests[0].items, after, requests[0].size, key);
        [page.items] +
        if page.resume.None? || !Bytes(page.resume.value) then []
        else
          match NextToken(p, page.resume.value)
          case None => []
          case Some(next) => if next == "" then [] else Echo(p, requests[1..], next, key)
  }

  function ItemsOf<T>(pages: seq<Page<T>>): seq<seq<T>> {
    if pages == [] then [] else [pages[0].items] + ItemsOf(pages[1..])
  }

  ghost predicate Representable<T>(requests: seq<Request<T>>, key: T -> string) {
    forall i, j :: 0 <= i < |requests| && 0 <= j < |requests[i].items| ==>
      var k := key(requests[i].items[j]); Bytes(k) && 1 <= |k| <= MAX_KEY_BYTES
  }

  lemma ResumeIsAKey<T>(items: seq<T>, after: string, size: nat, key: T -> string)
    requires size > 0 && Slice(items, after, size, key).resume.Some?
    ensures exists j :: 0 <= j < |items| && key(items[j]) == Slice(items, after, size, key).resume.value
  {
    var start := Start(items, after, key);
    assert key(items[start + size - 1]) == Slice(items, after, size, key).resume.value;
  }

  /** Through tokens a client sees exactly the pages of the walk over keys, so
      everything proved of that walk holds of the one on the wire. */
  lemma {:induction false} EchoIsWalk<T>(p: Paginator, requests: seq<Request<T>>, after: string, token: string, key: T -> string)
    requires Plain(p.scope) && Representable(requests, key)
    requires forall i :: 0 <= i < |requests| ==> requests[i].size > 0
    requires ParseToken(p, token) == Some(after)
    ensures Echo(p, requests, token, key) == ItemsOf(Walk(requests, after, key))
  {
    if requests != [] {
      var page := Slice(requests[0].items, after, requests[0].size, key);
      var pages := Walk(requests, after, key);
      assert pages[0] == page;
      if page.resume.None? {
        assert pages[1..] == [];
      } else {
        var k := page.resume.value;
        ResumeIsAKey(requests[0].items, after, requests[0].size, key);
        MintedTokenParses(p, k);
        assert pages[1..] == Walk(requests[1..], k, key);
        assert forall i, j :: 0 <= i < |requests[1..]| && 0 <= j < |requests[1..][i].items| ==>
            requests[1..][i].items[j] == requests[i + 1].items[j];
        EchoIsWalk(p, requests[1..], k, NextToken(p, k).value, key);
      }
    }
  }
}
