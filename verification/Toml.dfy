/** A reader for the part of TOML v1.0.0 the renderer emits: comments, bare
    dotted table headers, and `bare-key = value` lines whose value is a literal
    or basic single-line string, an integer or a boolean (sections "Comment",
    "Keys", "String", "Integer", "Boolean" and "Table"). What lies outside it is
    rejected, as are the documents TOML itself calls invalid: a repeated key, a
    table defined twice, a key used as a table, a raw control character. */
module Toml {
  import opened Wrappers
  import opened Text
  import opened ConfigKey
  import Strconv

  predicate IsWs(c: char) {
    c == ' ' || c == '\t'
  }

  function SkipWs(s: string): (r: string)
    ensures |r| <= |s|
  {
    if s != "" && IsWs(s[0]) then SkipWs(s[1..]) else s
  }

  /** What may follow a value or a header on its line. */
  predicate IsTail(s: string) {
    var t := SkipWs(s);
    t == "" || (t[0] == '#' && Printable(t))
  }

  /** The longest prefix of bare-key characters, with dots if `dots`. */
  function KeySpan(s: string, dots: bool): (n: nat)
    ensures n <= |s| && forall i :: 0 <= i < n ==> IsBare(s[i]) || (dots && s[i] == '.')
    ensures n < |s| ==> !IsBare(s[n]) && !(dots && s[n] == '.')
  {
    if s != "" && (IsBare(s[0]) || (dots && s[0] == '.')) then 1 + KeySpan(s[1..], dots) else 0
  }

  // ---- strings -------------------------------------------------------------

  function HexDigit(d: nat): (c: char)
    requires d < 16
  {
    if d < 10 then ('0' as int + d) as char else ('A' as int + (d - 10)) as char
  }

  function HexValue(c: char): Option<nat> {
    if '0' <= c <= '9' then Some(c as int - '0' as int)
    else if 'A' <= c <= 'F' then Some(c as int - 'A' as int + 10)
    else if 'a' <= c <= 'f' then Some(c as int - 'a' as int + 10)
    else None
  }

  function Hex4(n: nat): (s: string)
    requires n < 0x1_0000
    ensures |s| == 4
  {
    [HexDigit(n / 4096), HexDigit(n / 256 % 16), HexDigit(n / 16 % 16), HexDigit(n % 16)]
  }

  /** The code point a \uXXXX escape names, when it is a Unicode scalar value. */
  function ReadHex4(s: string): Option<char>
    requires |s| == 4
  {
    var a :- HexValue(s[0]);
    var b :- HexValue(s[1]);
    var c :- HexValue(s[2]);
    var d :- HexValue(s[3]);
    var n := ((a * 16 + b) * 16 + c) * 16 + d;
    if n < 0xD800 || 0xE000 <= n < 0x1_0000 then Some(n as char) else None
  }

  lemma HexInverse(d: nat)
    requires d < 16
    ensures HexValue(HexDigit(d)) == Some(d)
  {
  }

  lemma ReadHex4Hex4(n: nat)
    requires n < 0xD800
    ensures ReadHex4(Hex4(n)) == Some(n as char)
  {
    var a, b, c := n / 16, n / 16 / 16, n / 16 / 16 / 16;
    assert n / 256 == b && n / 4096 == c;
    HexInverse(c);
    HexInverse(b % 16);
    HexInverse(a % 16);
    HexInverse(n % 16);
  }

  /** A basic string's content, read from after its opening quote. */
  function ReadBasic(s: string): Option<(string, string)>
    decreases |s|
  {
    if s == "" then None
    else if s[0] == '"' then Some(("", s[1..]))
    else if s[0] == '\\' then
      if |s| < 2 then None
      else if s[1] == 'u' then
        if |s| < 6 then None
        else
          var c :- ReadHex4(s[2..6]);
          var (v, rest) :- ReadBasic(s[6..]);
          Some(([c] + v, rest))
      else
        var c :- Unescape(s[1]);
        var (v, rest) :- ReadBasic(s[2..]);
        Some(([c] + v, rest))
    else if IsForbidden(s[0]) then None
    else
      var (v, rest) :- ReadBasic(s[1..]);
      Some(([s[0]] + v, rest))
  }

  function Unescape(c: char): Option<char> {
    match c
    case 'b' => Some('\U{08}')
    case 't' => Some('\t')
    case 'n' => Some('\n')
    case 'f' => Some('\U{0C}')
    case 'r' => Some('\r')
    case '"' => Some('"')
    case '\\' => Some('\\')
    case _ => None
  }

  /** A string value, quotes included. A tripled quote would open a multi-line
      string, which is outside the subset. */
  function ReadString(s: string): Option<(string, string)>
    requires s != "" && (s[0] == '\'' || s[0] == '"')
  {
    if |s| >= 3 && s[1] == s[0] && s[2] == s[0] then None
    else if s[0] == '"' then ReadBasic(s[1..])
    else
      var i := IndexOf(s[1..], '\'');
      if i == |s| - 1 || !Printable(s[1..][..i]) then None else Some((s[1..][..i], s[1..][i + 1..]))
  }

  // ---- lines ---------------------------------------------------------------

  function TokenEnd(s: string): (n: nat)
    ensures n <= |s|
  {
    if s == "" || IsWs(s[0]) || s[0] == '#' then 0 else 1 + TokenEnd(s[1..])
  }

  function ReadScalar(token: string): Option<Value> {
    if token == "true" then Some(Bool(true))
    else if token == "false" then Some(Bool(false))
    else
      var digits := if token != "" && (token[0] == '-' || token[0] == '+') then token[1..] else token;
      if |digits| > 1 && digits[0] == '0' then None
      else
        match Strconv.Atoi(token, 64)
        case Number(n) =>
          if -0x8000_0000_0000_0000 <= n < 0x8000_0000_0000_0000 then Some(Int(n)) else None
        case _ => None
  }

  function ReadValue(s: string): Option<(Value, string)> {
    if s == "" then None
    else if s[0] == '\'' || s[0] == '"' then
      var (v, rest) :- ReadString(s);
      Some((Str(v), rest))
    else
      var n := TokenEnd(s);
      var v :- ReadScalar(s[..n]);
      Some((v, s[n..]))
  }

  datatype Line = Blank | Header(table: string) | KeyVal(leaf: string, value: Value)

  function ReadLine(line: string): Option<Line> {
    var l := SkipWs(line);
    if IsTail(l) then Some(Blank)
    else if l[0] == '[' then
      var n := KeySpan(l[1..], true);
      var name := l[1..1 + n];
      if IsDotted(name) && 1 + n < |l| && l[1 + n] == ']' && IsTail(l[2 + n..]) then Some(Header(name)) else None
    else
      var n := KeySpan(l, false);
      var after := SkipWs(l[n..]);
      if n == 0 || after == "" || after[0] != '=' then None
      else
        var (v, rest) :- ReadValue(SkipWs(after[1..]));
        if IsTail(rest) then Some(KeyVal(l[..n], v)) else None
  }

  // ---- documents -----------------------------------------------------------

  /** The table a line belongs to, the tables defined so far, and every value
      under its full dotted path. */
  datatype Doc = Doc(table: string, tables: set<string>, values: map<string, Value>)

  /** `key` lies inside the table `table`. */
  predicate Under(table: string, key: string) {
    |table| < |key| && key[..|table|] == table && key[|table|] == '.'
  }

  function Path(table: string, leaf: string): string {
    if table == "" then leaf else table + "." + leaf
  }

  function Step(doc: Doc, line: Line): Option<Doc> {
    match line
    case Blank => Some(doc)
    case Header(t) =>
      if t in doc.tables || t in doc.values || (exists k :: k in doc.values.Keys && Under(k, t)) then None
      else Some(doc.(table := t, tables := doc.tables + {t}))
    case KeyVal(leaf, v) =>
      var p := Path(doc.table, leaf);
      if || p in doc.values || p in doc.tables
         || (exists k :: k in doc.values.Keys && Under(p, k))
         || (exists t :: t in doc.tables && Under(p, t))
      then None
      else Some(doc.(values := doc.values[p := v]))
  }

  function ReadLines(doc: Doc, lines: seq<string>): Option<Doc>
    decreases |lines|
  {
    if lines == [] then Some(doc)
    else
      var line :- ReadLine(lines[0]);
      var next :- Step(doc, line);
      ReadLines(next, lines[1..])
  }

  /** toml.Unmarshal: the document's tables, and the value at every dotted path. */
  function Unmarshal(document: string): Option<Doc> {
    ReadLines(Doc("", {}, map[]), SplitOn(document, '\n'))
  }

  lemma {:induction false} ReadAppend(doc: Doc, a: seq<string>, b: seq<string>)
    ensures ReadLines(doc, a + b) ==
            match ReadLines(doc, a)
            case Some(d) => ReadLines(d, b)
            case None => None
    decreases |a|
  {
    if a == [] {
      assert a + b == b;
    } else {
      assert (a + b)[1..] == a[1..] + b && (a + b)[0] == a[0];
      if ReadLine(a[0]).Some? && Step(doc, ReadLine(a[0]).value).Some? {
        ReadAppend(Step(doc, ReadLine(a[0]).value).value, a[1..], b);
      }
    }
  }

  /** Remarks change nothing. */
  lemma {:induction false} ReadRemarks(doc: Doc, lines: seq<string>)
    requires forall i :: 0 <= i < |lines| ==> IsRemark(lines[i])
    ensures ReadLines(doc, lines) == Some(doc)
    decreases |lines|
  {
    if lines != [] {
      assert SkipWs(lines[0]) == lines[0];
      ReadRemarks(doc, lines[1..]);
    }
  }
}
