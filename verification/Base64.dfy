/** The two base64 alphabets of RFC 4648 (sections 4 and 5) as Go's
    encoding/base64 writes and reads them. A byte is a char below 256. */
module Base64 {
  import opened Wrappers

  predicate Bytes(s: string) {
    forall i :: 0 <= i < |s| ==> s[i] as int < 256
  }

  /** Padded standard encoding, or unpadded URL-safe. */
  datatype Variant = Std | RawUrl

  function Symbol(v: nat, x: Variant): (c: char)
    requires v < 64
    ensures c as int < 128 && c != '=' && c != '\r' && c != '\n' && c != '"' && c != '\\' && c >= '+'
  {
    if v < 26 then ('A' as int + v) as char
    else if v < 52 then ('a' as int + v - 26) as char
    else if v < 62 then ('0' as int + v - 52) as char
    else if v == 62 then (if x.Std? then '+' else '-')
    else if x.Std? then '/' else '_'
  }

  function Sextet(c: char, x: Variant): (v: Option<nat>)
    ensures v.Some? ==> v.value < 64
  {
    if 'A' <= c <= 'Z' then Some(c as int - 'A' as int)
    else if 'a' <= c <= 'z' then Some(c as int - 'a' as int + 26)
    else if '0' <= c <= '9' then Some(c as int - '0' as int + 52)
    else if c == (if x.Std? then '+' else '-') then Some(62)
    else if c == (if x.Std? then '/' else '_') then Some(63)
    else None
  }

  lemma SextetOfSymbol(v: nat, x: Variant)
    requires v < 64
    ensures Sextet(Symbol(v, x), x) == Some(v)
  {
  }

  function Byte(n: nat): (c: char)
    requires n < 256
    ensures c as int == n
  {
    n as char
  }

  function EncodedLen(n: nat, x: Variant): nat {
    if x.Std? then (n + 2) / 3 * 4 else n / 3 * 4 + (n % 3 * 8 + 5) / 6
  }

  /** Three bytes as four characters. */
  function Quantum(a: nat, b: nat, c: nat, x: Variant): (r: string)
    requires a < 256 && b < 256 && c < 256
    ensures |r| == 4
  {
    [Symbol(a / 4, x), Symbol(a % 4 * 16 + b / 16, x), Symbol(b % 16 * 4 + c / 64, x), Symbol(c % 64, x)]
  }

  function Encode(s: string, x: Variant): (r: string)
    requires Bytes(s)
    ensures |r| == EncodedLen(|s|, x)
    ensures forall i :: 0 <= i < |r| ==> r[i] as int < 128 && r[i] != '\r' && r[i] != '\n' && r[i] != '"' && r[i] != '\\' && r[i] >= '+'
  {
    if |s| == 0 then ""
    else if |s| == 1 then
      var a := s[0] as int;
      [Symbol(a / 4, x), Symbol(a % 4 * 16, x)] + if x.Std? then "==" else ""
    else if |s| == 2 then
      var a, b := s[0] as int, s[1] as int;
      [Symbol(a / 4, x), Symbol(a % 4 * 16 + b / 16, x), Symbol(b % 16 * 4, x)] + if x.Std? then "=" else ""
    else
      Quantum(s[0] as int, s[1] as int, s[2] as int, x) + Encode(s[3..], x)
  }

  /** The two, three or four sextets of a quantum, as one to three bytes. The
      bits a short quantum leaves over are ignored. */
  function One(p: nat, q: nat): string
    requires p < 64 && q < 64
  {
    [Byte(p * 4 + q / 16)]
  }

  function Two(p: nat, q: nat, r: nat): string
    requires p < 64 && q < 64 && r < 64
  {
    One(p, q) + [Byte(q % 16 * 16 + r / 4)]
  }

  function Three(p: nat, q: nat, r: nat, t: nat): string
    requires p < 64 && q < 64 && r < 64 && t < 64
  {
    Two(p, q, r) + [Byte(r % 4 * 64 + t)]
  }

  function Quanta(s: string, x: Variant): Option<string> {
    if s == "" then Some("")
    else if |s| < 2 then None
    else
      var p :- Sextet(s[0], x);
      var q :- Sextet(s[1], x);
      if x.RawUrl? && |s| == 2 then Some(One(p, q))
      else if x.Std? && s[2..] == "==" then Some(One(p, q))
      else if |s| < 3 then None
      else
        var r :- Sextet(s[2], x);
        if x.RawUrl? && |s| == 3 then Some(Two(p, q, r))
        else if x.Std? && s[3..] == "=" then Some(Two(p, q, r))
        else if |s| < 4 then None
        else
          var t :- Sextet(s[3], x);
          var rest :- Quanta(s[4..], x);
          Some(Three(p, q, r, t) + rest)
  }

  /** The decoder skips line breaks wherever they stand. */
  function Unbroken(s: string): string {
    if s == "" then ""
    else (if s[0] == '\r' || s[0] == '\n' then "" else [s[0]]) + Unbroken(s[1..])
  }

  function Decode(s: string, x: Variant): Option<string> {
    Quanta(Unbroken(s), x)
  }

  lemma {:induction false} UnbrokenAlready(s: string)
    requires forall i :: 0 <= i < |s| ==> s[i] != '\r' && s[i] != '\n'
    ensures Unbroken(s) == s
  {
    if s != "" {
      UnbrokenAlready(s[1..]);
    }
  }

  lemma LastQuantum(s: string, x: Variant)
    requires Bytes(s) && |s| <= 2
    ensures Quanta(Encode(s, x), x) == Some(s)
  {
    if |s| == 1 {
      var a := s[0] as int;
      SextetOfSymbol(a / 4, x);
      SextetOfSymbol(a % 4 * 16, x);
      assert One(a / 4, a % 4 * 16) == [s[0]] == s;
    } else if |s| == 2 {
      var a, b := s[0] as int, s[1] as int;
      SextetOfSymbol(a / 4, x);
      SextetOfSymbol(a % 4 * 16 + b / 16, x);
      SextetOfSymbol(b % 16 * 4, x);
      assert Two(a / 4, a % 4 * 16 + b / 16, b % 16 * 4) == [s[0], s[1]] == s;
    }
  }

  lemma FullQuantum(a: char, b: char, c: char)
    requires a as int < 256 && b as int < 256 && c as int < 256
    ensures Three(a as int / 4, a as int % 4 * 16 + b as int / 16, b as int % 16 * 4 + c as int / 64, c as int % 64) == [a, b, c]
  {
  }

  lemma QuantumThenRest(p: nat, q: nat, r: nat, t: nat, tail: string, x: Variant)
    requires p < 64 && q < 64 && r < 64 && t < 64 && Quanta(tail, x).Some?
    ensures Quanta([Symbol(p, x), Symbol(q, x), Symbol(r, x), Symbol(t, x)] + tail, x) == Some(Three(p, q, r, t) + Quanta(tail, x).value)
  {
    var s := [Symbol(p, x), Symbol(q, x), Symbol(r, x), Symbol(t, x)] + tail;
    SextetOfSymbol(p, x);
    SextetOfSymbol(q, x);
    SextetOfSymbol(r, x);
    SextetOfSymbol(t, x);
    assert s[2..][0] == Symbol(r, x) && s[3..][0] == Symbol(t, x) && s[4..] == tail;
  }

  lemma QuantumOfBytes(a: char, b: char, c: char, tail: string, x: Variant)
    requires a as int < 256 && b as int < 256 && c as int < 256 && Quanta(tail, x).Some?
    ensures Quanta(Quantum(a as int, b as int, c as int, x) + tail, x) == Some([a, b, c] + Quanta(tail, x).value)
  {
    var p, q, r := a as int, b as int, c as int;
    QuantumThenRest(p / 4, p % 4 * 16 + q / 16, q % 16 * 4 + r / 64, r % 64, tail, x);
    FullQuantum(a, b, c);
  }

  lemma EncodeStep(s: string, x: Variant)
    requires Bytes(s) && |s| > 2
    ensures Encode(s, x) == Quantum(s[0] as int, s[1] as int, s[2] as int, x) + Encode(s[3..], x)
    ensures s == [s[0], s[1], s[2]] + s[3..]
  {
  }

  lemma {:induction false} QuantaOfEncode(s: string, x: Variant)
    requires Bytes(s)
    ensures Quanta(Encode(s, x), x) == Some(s)
  {
    if |s| <= 2 {
      LastQuantum(s, x);
    } else {
      EncodeStep(s, x);
      QuantaOfEncode(s[3..], x);
      QuantumOfBytes(s[0], s[1], s[2], Encode(s[3..], x), x);
    }
  }

  /** Either encoding of any bytes decodes to them. */
  lemma DecodeEncode(s: string, x: Variant)
    requires Bytes(s)
    ensures Decode(Encode(s, x), x) == Some(s)
  {
    UnbrokenAlready(Encode(s, x));
    QuantaOfEncode(s, x);
  }
}
