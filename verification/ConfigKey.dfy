/** Registered configuration keys: the names derived from them, the index that
    rejects an ambiguous registration, and the coercion every source funnels
    through (internal/core/config/key.go). */
module ConfigKey {
  import opened Wrappers
  import opened Text
  import Strconv

  type int64 = x: int | -0x8000_0000_0000_0000 <= x < 0x8000_0000_0000_0000

  datatype Type = TypeString | TypeInt | TypeBool | TypeDuration

  /** The Go values a key can carry: string, int, bool, time.Duration. */
  datatype Value = Str(s: string) | Int(i: int64) | Bool(b: bool) | Dur(ns: int64)

  /** A NoFlag key is kept out of the command line, which any user can read. */
  datatype Key = Key(name: string, typ: Type, default: Option<Value>, usage: string, noFlag: bool)

  type Spec = seq<Key>

  datatype ConfigError =
    | DuplicateKey(name: string)
    | ReservedFlag(name: string)
    | Collision(first: string, second: string)
    | CannotRender(problems: seq<Problem>)
    | DoesNotParse
    | Unresolvable(keys: seq<string>)

  datatype Problem = Unregistered(key: string) | ProvidedTwice(key: string) | WrongType(key: string)

  /** Lines that say nothing to a reader of the file. */
  type Remarks = lines: seq<string> | forall i :: 0 <= i < |lines| ==> IsRemark(lines[i])

  /** Unicode's case mappings, character by character, taken as given. */
  datatype Casing = Casing(lower: char -> char, upper: char -> char)

  /** Of them this much is relied on: ASCII goes to ASCII in the known way, and
      what changes changes into a letter or leaves ASCII. */
  ghost predicate Folds(f: Casing) {
    && (forall c: char :: Recased(c, f.lower(c), LowerChar(c)))
    && (forall c: char :: Recased(c, f.upper(c), UpperChar(c)))
  }

  predicate Recased(c: char, d: char, ascii: char) {
    && (IsAscii(c) ==> d == ascii)
    && (d != c ==> !IsAscii(d) || 'a' <= d <= 'z' || 'A' <= d <= 'Z')
  }

  predicate IsAscii(c: char) {
    c < '\U{80}'
  }

  /** What a file is written and read with: the remarks at its head, the case
      mappings, and time.Duration's printer and parser, taken as given. */
  datatype Dialect = Dialect(header: Remarks, fold: Casing, format: int64 -> string, parse: string -> Option<int64>)

  ghost predicate Inverse(dc: Dialect) {
    forall d: int64 :: dc.parse(dc.format(d)) == Some(d)
  }

  // ---- names ---------------------------------------------------------------

  predicate IsUpper(c: char) {
    'A' <= c <= 'Z'
  }

  /** The next word boundary of a segment: its first upper-case letter that is
      not its first character. */
  function Boundary(segment: string, from: nat): (i: nat)
    requires from <= |segment|
    ensures from <= i <= |segment|
    ensures i < |segment| ==> i > 0 && IsUpper(segment[i])
    ensures forall j :: from <= j < i ==> j == 0 || !IsUpper(segment[j])
    decreases |segment| - from
  {
    if from == |segment| then from
    else if from > 0 && IsUpper(segment[from]) then from
    else Boundary(segment, from + 1)
  }

  /** A segment's words, the current one having begun at `start`. */
  function SegmentWords(segment: string, start: nat, from: nat, f: Casing): (words: seq<string>)
    requires start <= from <= |segment|
    ensures |words| > 0
    decreases |segment| - from
  {
    var i := Boundary(segment, from);
    if i == |segment| then [Mapped(f.lower, segment[start..])]
    else [Mapped(f.lower, segment[start..i])] + SegmentWords(segment, i, i + 1, f)
  }

  function AllWords(segments: seq<string>, f: Casing): seq<string> {
    if segments == [] then [] else SegmentWords(segments[0], 0, 0, f) + AllWords(segments[1..], f)
  }

  function Words(key: string, f: Casing): (words: seq<string>)
    ensures |words| > 0
  {
    AllWords(SplitOn(key, '.'), f)
  }

  lemma {:induction false} AllWordsSnoc(segments: seq<string>, last: string, f: Casing)
    ensures AllWords(segments + [last], f) == AllWords(segments, f) + SegmentWords(last, 0, 0, f)
  {
    if segments == [] {
      assert ([] + [last])[1..] == [];
    } else {
      assert (segments + [last])[1..] == segments[1..] + [last];
      AllWordsSnoc(segments[1..], last, f);
    }
  }

  lemma CutNext(segment: string, start: nat, i: nat, f: Casing)
    requires start <= i < |segment|
    ensures if i > 0 && IsUpper(segment[i])
            then SegmentWords(segment, start, i, f) == [Mapped(f.lower, segment[start..i])] + SegmentWords(segment, i, i + 1, f)
            else SegmentWords(segment, start, i, f) == SegmentWords(segment, start, i + 1, f)
  {
  }

  lemma CutLast(segment: string, start: nat, f: Casing)
    requires start <= |segment|
    ensures SegmentWords(segment, start, |segment|, f) == [Mapped(f.lower, segment[start..])]
  {
  }

  /** The inner loop: cut a segment before each upper-case letter. */
  method SplitSegment(segment: string, f: Casing) returns (words: seq<string>)
    ensures words == SegmentWords(segment, 0, 0, f)
  {
    words := [];
    var start := 0;
    for i := 0 to |segment|
      invariant start <= i
      invariant SegmentWords(segment, 0, 0, f) == words + SegmentWords(segment, start, i, f)
    {
      CutNext(segment, start, i, f);
      if i > 0 && IsUpper(segment[i]) {
        Associate(words, [Mapped(f.lower, segment[start..i])], SegmentWords(segment, i, i + 1, f));
        words := words + [Mapped(f.lower, segment[start..i])];
        start := i;
      }
    }
    CutLast(segment, start, f);
    words := words + [Mapped(f.lower, segment[start..])];
  }

  /** words: every dotted segment's words, in order. */
  method SplitWords(key: string, f: Casing) returns (words: seq<string>)
    ensures words == Words(key, f)
  {
    var segments := SplitOn(key, '.');
    words := [];
    for k := 0 to |segments|
      invariant words == AllWords(segments[..k], f)
    {
      var segment := SplitSegment(segments[k], f);
      words := words + segment;
      AllWordsSnoc(segments[..k], segments[k], f);
      assert segments[..k + 1] == segments[..k] + [segments[k]];
    }
    assert segments[..|segments|] == segments;
  }

  const ENV_PREFIX := "WEAVE_ADAPTER_"
  const RESERVED_FLAG := "config"

  function FlagName(key: string, f: Casing): string {
    Join(Words(key, f), "-")
  }

  function EnvName(key: string, f: Casing): string {
    ENV_PREFIX + Mapped(f.upper, Join(Words(key, f), "_"))
  }

  predicate IsAlnum(c: char) {
    '0' <= c <= '9' || 'a' <= c <= 'z' || 'A' <= c <= 'Z'
  }

  predicate IsBare(c: char) {
    IsAlnum(c) || c == '_' || c == '-'
  }

  predicate IsBareName(s: string) {
    s != "" && forall i :: 0 <= i < |s| ==> IsBare(s[i])
  }

  /** Bare TOML keys joined by single dots. */
  predicate IsDotted(s: string) {
    && s != "" && s[0] != '.' && s[|s| - 1] != '.'
    && (forall i :: 0 <= i < |s| ==> IsBare(s[i]) || s[i] == '.')
    && (forall i :: 0 < i < |s| ==> s[i - 1] != '.' || s[i] != '.')
  }

  // ---- when two keys derive one name ------------------------------------------

  /** Each word cut again at every `sep` it holds. */
  function Cut(words: seq<string>, sep: char): (pieces: seq<string>)
    ensures words != [] ==> pieces != []
  {
    if words == [] then [] else SplitOn(words[0], sep) + Cut(words[1..], sep)
  }

  /** What a flag tells of its key, and what a variable does. */
  function FlagWords(key: string, f: Casing): seq<string> {
    Cut(Words(key, f), '-')
  }

  function EnvWords(key: string, f: Casing): seq<string> {
    Cut(MappedAll(f.upper, Words(key, f)), '_')
  }

  function MappedAll(g: char -> char, words: seq<string>): (r: seq<string>)
    ensures |r| == |words| && forall k :: 0 <= k < |words| ==> r[k] == Mapped(g, words[k])
  {
    seq(|words|, k requires 0 <= k < |words| => Mapped(g, words[k]))
  }

  lemma {:induction false} SplitJoinCut(words: seq<string>, sep: char)
    requires words != []
    ensures SplitOn(Join(words, [sep]), sep) == Cut(words, sep)
  {
    if |words| == 1 {
      assert words[1..] == [];
    } else {
      SplitJoinCut(words[1..], sep);
      SplitAppend(words[0], sep, Join(words[1..], [sep]));
    }
  }

  /** Joined texts agree exactly when their pieces do. */
  lemma JoinedAlike(a: seq<string>, b: seq<string>, sep: char)
    requires a != [] && b != []
    ensures Join(a, [sep]) == Join(b, [sep]) <==> Cut(a, sep) == Cut(b, sep)
  {
    SplitJoinCut(a, sep);
    SplitJoinCut(b, sep);
    JoinSplit(Join(a, [sep]), sep);
    JoinSplit(Join(b, [sep]), sep);
  }

  lemma {:induction false} CutNothing(words: seq<string>, sep: char)
    requires forall k :: 0 <= k < |words| ==> Lacks(words[k], sep)
    ensures Cut(words, sep) == words
  {
    if words != [] {
      CutNothing(words[1..], sep);
      assert IndexOf(words[0], sep) == |words[0]|;
      HeadTail(words);
    }
  }

  lemma {:induction false} JoinMapped(g: char -> char, words: seq<string>, sep: string)
    requires words != []
    ensures Mapped(g, Join(words, sep)) == Join(MappedAll(g, words), Mapped(g, sep))
  {
    if |words| > 1 {
      JoinMapped(g, words[1..], sep);
      assert MappedAll(g, words)[1..] == MappedAll(g, words[1..]);
    }
  }

  lemma EnvNameTells(a: string, b: string, f: Casing)
    requires Folds(f)
    ensures EnvName(a, f) == EnvName(b, f) <==>
              Join(MappedAll(f.upper, Words(a, f)), "_") == Join(MappedAll(f.upper, Words(b, f)), "_")
  {
    assert Recased('_', f.upper('_'), UpperChar('_'));
    assert Mapped(f.upper, "_") == "_";
    JoinMapped(f.upper, Words(a, f), "_");
    JoinMapped(f.upper, Words(b, f), "_");
    if EnvName(a, f) == EnvName(b, f) {
      assert EnvName(a, f)[|ENV_PREFIX|..] == EnvName(b, f)[|ENV_PREFIX|..];
    }
  }

  /** Two keys derive one flag exactly when their words agree once cut at
      hyphens, and one variable exactly when their upper-cased words agree once
      cut at underscores; index compares the words themselves, or nearly, so
      what it rejects collides in both. */
  lemma CollideIff(a: string, b: string, f: Casing)
    requires Folds(f)
    ensures FlagName(a, f) == FlagName(b, f) <==> FlagWords(a, f) == FlagWords(b, f)
    ensures EnvName(a, f) == EnvName(b, f) <==> EnvWords(a, f) == EnvWords(b, f)
    ensures Split(a, f) == Split(b, f) <==> Cut(Words(a, f), '\0') == Cut(Words(b, f), '\0')
    ensures Words(a, f) == Words(b, f) ==> FlagName(a, f) == FlagName(b, f) && EnvName(a, f) == EnvName(b, f) && Split(a, f) == Split(b, f)
  {
    EnvNameTells(a, b, f);
    JoinedAlike(Words(a, f), Words(b, f), '-');
    JoinedAlike(MappedAll(f.upper, Words(a, f)), MappedAll(f.upper, Words(b, f)), '_');
    JoinedAlike(Words(a, f), Words(b, f), '\0');
  }

  // ---- names that hold neither hyphen nor underscore ------------------------------

  predicate AllOf(s: string, p: char -> bool) {
    forall i :: 0 <= i < |s| ==> p(s[i])
  }

  lemma {:induction false} SegmentWordsKeep(segment: string, start: nat, from: nat, f: Casing, p: char -> bool, q: char -> bool)
    requires start <= from <= |segment| && AllOf(segment, p) && forall c: char :: p(c) ==> q(f.lower(c))
    ensures forall k :: 0 <= k < |SegmentWords(segment, start, from, f)| ==> AllOf(SegmentWords(segment, start, from, f)[k], q)
    decreases |segment| - from
  {
    var i := Boundary(segment, from);
    if i < |segment| {
      SegmentWordsKeep(segment, i, i + 1, f, p, q);
    }
  }

  lemma {:induction false} AllWordsKeep(segments: seq<string>, f: Casing, p: char -> bool, q: char -> bool)
    requires (forall k :: 0 <= k < |segments| ==> AllOf(segments[k], p)) && forall c: char :: p(c) ==> q(f.lower(c))
    ensures forall k :: 0 <= k < |AllWords(segments, f)| ==> AllOf(AllWords(segments, f)[k], q)
  {
    if segments != [] {
      SegmentWordsKeep(segments[0], 0, 0, f, p, q);
      AllWordsKeep(segments[1..], f, p, q);
    }
  }

  lemma {:induction false} PiecesKeep(s: string, sep: char, p: char -> bool)
    requires AllOf(s, p)
    ensures forall k :: 0 <= k < |SplitOn(s, sep)| ==> AllOf(SplitOn(s, sep)[k], p)
    decreases |s|
  {
    var n := IndexOf(s, sep);
    if n < |s| {
      PiecesKeep(s[n + 1..], sep, p);
    }
  }

  /** What holds of every character of a name holds, lower-cased, of its words. */
  lemma WordsKeep(key: string, f: Casing, p: char -> bool, q: char -> bool)
    requires AllOf(key, p) && forall c: char :: p(c) ==> q(f.lower(c))
    ensures forall k :: 0 <= k < |Words(key, f)| ==> AllOf(Words(key, f)[k], q)
  {
    PiecesKeep(key, '.', p);
    AllWordsKeep(SplitOn(key, '.'), f, p, q);
  }

  function Other(sep: char): char -> bool {
    (c: char) => c != sep
  }

  /** No case mapping makes a separator. */
  lemma NoneBecomes(sep: char, f: Casing)
    requires Folds(f) && (sep == '-' || sep == '_')
    ensures forall c: char :: c != sep ==> f.lower(c) != sep
    ensures forall c: char :: c != sep ==> f.upper(c) != sep
  {
    forall c: char | c != sep
      ensures f.lower(c) != sep
      ensures f.upper(c) != sep
    {
      assert Recased(c, f.lower(c), LowerChar(c)) && Recased(c, f.upper(c), UpperChar(c));
    }
  }

  /** A name without the separator has words without it, */
  lemma WordsLack(key: string, sep: char, f: Casing)
    requires Folds(f) && Lacks(key, sep) && (sep == '-' || sep == '_')
    ensures forall k :: 0 <= k < |Words(key, f)| ==> Lacks(Words(key, f)[k], sep)
  {
    NoneBecomes(sep, f);
    WordsKeep(key, f, Other(sep), Other(sep));
    forall k | 0 <= k < |Words(key, f)|
      ensures Lacks(Words(key, f)[k], sep)
    {
      assert AllOf(Words(key, f)[k], Other(sep));
    }
  }

  /** in either case. */
  lemma RaisedLack(words: seq<string>, sep: char, f: Casing)
    requires Folds(f) && (sep == '-' || sep == '_') && forall k :: 0 <= k < |words| ==> Lacks(words[k], sep)
    ensures forall k :: 0 <= k < |words| ==> Lacks(MappedAll(f.upper, words)[k], sep)
  {
    NoneBecomes(sep, f);
    forall k | 0 <= k < |words|
      ensures Lacks(Mapped(f.upper, words[k]), sep)
    {
    }
  }

  lemma FlagNothingToCut(key: string, f: Casing)
    requires Folds(f) && Lacks(key, '-')
    ensures FlagWords(key, f) == Words(key, f)
  {
    WordsLack(key, '-', f);
    CutNothing(Words(key, f), '-');
  }

  lemma EnvNothingToCut(key: string, f: Casing)
    requires Folds(f) && Lacks(key, '_')
    ensures EnvWords(key, f) == MappedAll(f.upper, Words(key, f))
  {
    WordsLack(key, '_', f);
    RaisedLack(Words(key, f), '_', f);
    CutNothing(MappedAll(f.upper, Words(key, f)), '_');
  }

  predicate Ascii(s: string) {
    AllOf(s, IsAscii)
  }

  /** ASCII, and no capital. */
  predicate IsFolded(c: char) {
    IsAscii(c) && !IsUpper(c)
  }

  lemma UpperInjective(a: string, b: string, f: Casing)
    requires Folds(f) && AllOf(a, IsFolded) && AllOf(b, IsFolded) && Mapped(f.upper, a) == Mapped(f.upper, b)
    ensures a == b
  {
    assert |a| == |Mapped(f.upper, a)| == |b|;
    forall i | 0 <= i < |a|
      ensures a[i] == b[i]
    {
      assert Recased(a[i], f.upper(a[i]), UpperChar(a[i])) && Recased(b[i], f.upper(b[i]), UpperChar(b[i]));
      assert f.upper(a[i]) == Mapped(f.upper, a)[i] == Mapped(f.upper, b)[i] == f.upper(b[i]);
    }
  }

  lemma AsciiFolds(key: string, f: Casing)
    requires Folds(f) && Ascii(key)
    ensures forall k :: 0 <= k < |Words(key, f)| ==> AllOf(Words(key, f)[k], IsFolded)
  {
    forall c: char | IsAscii(c)
      ensures IsFolded(f.lower(c))
    {
      assert Recased(c, f.lower(c), LowerChar(c));
    }
    WordsKeep(key, f, IsAscii, IsFolded);
  }

  /** Upper-casing the words of an ASCII name loses nothing: they were folded. */
  lemma RaisedTells(a: string, b: string, f: Casing)
    requires Folds(f) && Ascii(a) && Ascii(b)
    ensures MappedAll(f.upper, Words(a, f)) == MappedAll(f.upper, Words(b, f)) <==> Words(a, f) == Words(b, f)
  {
    var x, y := Words(a, f), Words(b, f);
    AsciiFolds(a, f);
    AsciiFolds(b, f);
    if MappedAll(f.upper, x) == MappedAll(f.upper, y) {
      assert |x| == |MappedAll(f.upper, x)| == |y|;
      forall k | 0 <= k < |x|
        ensures x[k] == y[k]
      {
        assert Mapped(f.upper, x[k]) == MappedAll(f.upper, x)[k] == MappedAll(f.upper, y)[k] == Mapped(f.upper, y[k]);
        UpperInjective(x[k], y[k], f);
      }
    }
  }

  /** The documentation's claim, that two keys share a flag exactly when they
      share a variable and exactly when their words agree, where it holds: on
      ASCII names without hyphens and underscores. Beyond ASCII they share the
      variable exactly when their words agree upper-cased. */
  lemma CollideTogether(a: string, b: string, f: Casing)
    requires Folds(f) && Lacks(a, '-') && Lacks(a, '_') && Lacks(b, '-') && Lacks(b, '_')
    ensures FlagName(a, f) == FlagName(b, f) <==> Words(a, f) == Words(b, f)
    ensures EnvName(a, f) == EnvName(b, f) <==> MappedAll(f.upper, Words(a, f)) == MappedAll(f.upper, Words(b, f))
    ensures Ascii(a) && Ascii(b) ==> (EnvName(a, f) == EnvName(b, f) <==> Words(a, f) == Words(b, f))
  {
    CollideIff(a, b, f);
    FlagNothingToCut(a, f);
    FlagNothingToCut(b, f);
    EnvNothingToCut(a, f);
    EnvNothingToCut(b, f);
    if Ascii(a) && Ascii(b) {
      RaisedTells(a, b, f);
    }
  }

  // ---- the index -----------------------------------------------------------

  /** The word split as one string, its separator a character no key holds. */
  function Split(key: string, f: Casing): string {
    Join(Words(key, f), "\0")
  }

  /** The rest of the registration, given what the keys before `i` left. */
  function IndexFrom(spec: Spec, i: nat, out: map<string, Key>, byWords: map<string, string>, f: Casing)
    : Result<map<string, Key>, ConfigError>
    requires i <= |spec|
    decreases |spec| - i
  {
    if i == |spec| then Success(out)
    else
      var name := spec[i].name;
      if name in out then Failure(DuplicateKey(name))
      else if FlagName(name, f) == RESERVED_FLAG then Failure(ReservedFlag(name))
      else if Split(name, f) in byWords then Failure(Collision(byWords[Split(name, f)], name))
      else IndexFrom(spec, i + 1, out[name := spec[i]], byWords[Split(name, f) := name], f)
  }

  function Indexed(spec: Spec, f: Casing): Result<map<string, Key>, ConfigError> {
    IndexFrom(spec, 0, map[], map[], f)
  }

  method Index(spec: Spec, f: Casing) returns (r: Result<map<string, Key>, ConfigError>)
    ensures r == Indexed(spec, f)
  {
    var out: map<string, Key>, byWords: map<string, string> := map[], map[];
    for i := 0 to |spec|
      invariant Indexed(spec, f) == IndexFrom(spec, i, out, byWords, f)
    {
      var name := spec[i].name;
      if name in out {
        return Failure(DuplicateKey(name));
      }
      if FlagName(name, f) == RESERVED_FLAG {
        return Failure(ReservedFlag(name));
      }
      var split := Split(name, f);
      if split in byWords {
        return Failure(Collision(byWords[split], name));
      }
      out := out[name := spec[i]];
      byWords := byWords[split := name];
    }
    r := Success(out);
  }

  ghost predicate UnambiguousTo(spec: Spec, n: nat, f: Casing)
    requires n <= |spec|
  {
    && (forall i :: 0 <= i < n ==> FlagName(spec[i].name, f) != RESERVED_FLAG)
    && (forall i, j :: 0 <= i < j < n ==>
          spec[i].name != spec[j].name && Split(spec[i].name, f) != Split(spec[j].name, f))
  }

  ghost predicate Unambiguous(spec: Spec, f: Casing) {
    UnambiguousTo(spec, |spec|, f)
  }

  ghost function NamesTo(spec: Spec, n: nat): set<string>
    requires n <= |spec|
  {
    set i | 0 <= i < n :: spec[i].name
  }

  ghost function SplitsTo(spec: Spec, n: nat, f: Casing): set<string>
    requires n <= |spec|
  {
    set i | 0 <= i < n :: Split(spec[i].name, f)
  }

  /** `m` maps the first `n` names, and nothing else, to their declarations. */
  ghost predicate MapsFirst(m: map<string, Key>, spec: Spec, n: nat)
    requires n <= |spec|
  {
    && m.Keys == NamesTo(spec, n)
    && (forall i :: 0 <= i < n ==> m[spec[i].name] == spec[i])
  }

  ghost predicate IndexState(spec: Spec, i: nat, out: map<string, Key>, byWords: map<string, string>, f: Casing)
    requires i <= |spec|
  {
    && UnambiguousTo(spec, i, f)
    && MapsFirst(out, spec, i)
    && byWords.Keys == SplitsTo(spec, i, f)
  }

  lemma MapsNext(spec: Spec, i: nat, out: map<string, Key>)
    requires i < |spec| && MapsFirst(out, spec, i) && spec[i].name !in out
    requires NamesTo(spec, i + 1) == NamesTo(spec, i) + {spec[i].name}
    ensures MapsFirst(out[spec[i].name := spec[i]], spec, i + 1)
  {
    var m := out[spec[i].name := spec[i]];
    assert m.Keys == out.Keys + {spec[i].name};
    forall j | 0 <= j < i + 1
      ensures m[spec[j].name] == spec[j]
    {
      if j < i {
        assert spec[j].name in NamesTo(spec, i);
      }
    }
  }

  lemma UnambiguousNext(spec: Spec, i: nat, f: Casing)
    requires i < |spec| && UnambiguousTo(spec, i, f) && FlagName(spec[i].name, f) != RESERVED_FLAG
    requires forall j :: 0 <= j < i ==> spec[j].name != spec[i].name && Split(spec[j].name, f) != Split(spec[i].name, f)
    ensures UnambiguousTo(spec, i + 1, f)
  {
  }

  /** One accepted key: the state describes one key more. */
  lemma IndexStep(spec: Spec, i: nat, out: map<string, Key>, byWords: map<string, string>, f: Casing)
    requires i < |spec| && IndexState(spec, i, out, byWords, f)
    requires spec[i].name !in out && Split(spec[i].name, f) !in byWords && FlagName(spec[i].name, f) != RESERVED_FLAG
    ensures IndexState(spec, i + 1, out[spec[i].name := spec[i]], byWords[Split(spec[i].name, f) := spec[i].name], f)
  {
    NewKey(spec, i, f);
    UnambiguousNext(spec, i, f);
    MapsNext(spec, i, out);
    WordsNext(byWords, Split(spec[i].name, f), spec[i].name);
  }

  lemma WordsNext(m: map<string, string>, k: string, v: string)
    ensures m[k := v].Keys == m.Keys + {k}
  {
  }

  lemma NewKey(spec: Spec, i: nat, f: Casing)
    requires i < |spec| && spec[i].name !in NamesTo(spec, i) && Split(spec[i].name, f) !in SplitsTo(spec, i, f)
    ensures NamesTo(spec, i + 1) == NamesTo(spec, i) + {spec[i].name}
    ensures SplitsTo(spec, i + 1, f) == SplitsTo(spec, i, f) + {Split(spec[i].name, f)}
    ensures forall j :: 0 <= j < i ==> spec[j].name != spec[i].name && Split(spec[j].name, f) != Split(spec[i].name, f)
  {
    forall j | 0 <= j < i
      ensures spec[j].name != spec[i].name && Split(spec[j].name, f) != Split(spec[i].name, f)
    {
      assert spec[j].name in NamesTo(spec, i) && Split(spec[j].name, f) in SplitsTo(spec, i, f);
    }
  }

  /** One rejected key: whatever follows, the registration is ambiguous. */
  lemma IndexReject(spec: Spec, i: nat, out: map<string, Key>, byWords: map<string, string>, f: Casing)
    requires i < |spec| && IndexState(spec, i, out, byWords, f)
    requires spec[i].name in out || Split(spec[i].name, f) in byWords || FlagName(spec[i].name, f) == RESERVED_FLAG
    ensures !Unambiguous(spec, f)
  {
    if spec[i].name in out {
      var j :| 0 <= j < i && spec[j].name == spec[i].name;
    } else if Split(spec[i].name, f) in byWords {
      var j :| 0 <= j < i && Split(spec[j].name, f) == Split(spec[i].name, f);
    }
  }

  /** index refuses key `i`. */
  predicate Rejected(spec: Spec, i: nat, out: map<string, Key>, byWords: map<string, string>, f: Casing)
    requires i < |spec|
  {
    spec[i].name in out || FlagName(spec[i].name, f) == RESERVED_FLAG || Split(spec[i].name, f) in byWords
  }

  lemma IndexFromStep(spec: Spec, i: nat, out: map<string, Key>, byWords: map<string, string>, f: Casing)
    requires i < |spec|
    ensures Rejected(spec, i, out, byWords, f) ==> IndexFrom(spec, i, out, byWords, f).Failure?
    ensures !Rejected(spec, i, out, byWords, f) ==>
              IndexFrom(spec, i, out, byWords, f) ==
              IndexFrom(spec, i + 1, out[spec[i].name := spec[i]], byWords[Split(spec[i].name, f) := spec[i].name], f)
  {
  }

  ghost predicate Decides(spec: Spec, r: Result<map<string, Key>, ConfigError>, f: Casing) {
    && (r.Success? <==> Unambiguous(spec, f))
    && (r.Success? ==> MapsFirst(r.value, spec, |spec|))
  }

  lemma {:induction false} IndexFromDecides(spec: Spec, i: nat, out: map<string, Key>, byWords: map<string, string>, f: Casing)
    requires i <= |spec| && IndexState(spec, i, out, byWords, f)
    ensures Decides(spec, IndexFrom(spec, i, out, byWords, f), f)
    decreases |spec| - i
  {
    if i < |spec| {
      IndexFromStep(spec, i, out, byWords, f);
      if Rejected(spec, i, out, byWords, f) {
        IndexReject(spec, i, out, byWords, f);
      } else {
        var out', byWords' := out[spec[i].name := spec[i]], byWords[Split(spec[i].name, f) := spec[i].name];
        IndexStep(spec, i, out, byWords, f);
        IndexFromDecides(spec, i + 1, out', byWords', f);
      }
    }
  }

  /** index accepts exactly the unambiguous registrations, and then maps every
      name to its own declaration. */
  lemma IndexDecides(spec: Spec, f: Casing)
    ensures Indexed(spec, f).Success? <==> Unambiguous(spec, f)
    ensures Indexed(spec, f).Success? ==> MapsFirst(Indexed(spec, f).value, spec, |spec|)
  {
    IndexFromDecides(spec, 0, map[], map[], f);
  }

  /** Every key has a variable that no other key answers to, and a flag likewise
      unless it asked for none. */
  ghost predicate Settable(spec: Spec, f: Casing) {
    forall i, j :: 0 <= i < j < |spec| ==>
      && (spec[i].noFlag || spec[j].noFlag || FlagName(spec[i].name, f) != FlagName(spec[j].name, f))
      && EnvName(spec[i].name, f) != EnvName(spec[j].name, f)
  }

  /** No two keys agree after the cut at underscores, nor two with flags after
      the one at hyphens. */
  ghost predicate ApartOnceCut(spec: Spec, f: Casing) {
    forall i, j :: 0 <= i < j < |spec| ==>
      && (spec[i].noFlag || spec[j].noFlag || FlagWords(spec[i].name, f) != FlagWords(spec[j].name, f))
      && EnvWords(spec[i].name, f) != EnvWords(spec[j].name, f)
  }

  /** Two keys of an accepted registration: when their names derive one flag or
      one variable all the same, and what the names must hold for it. */
  lemma AcceptedKeysShareIff(spec: Spec, i: nat, j: nat, f: Casing)
    requires Folds(f) && Indexed(spec, f).Success? && i < j < |spec|
    ensures var a, b := spec[i].name, spec[j].name;
            && Words(a, f) != Words(b, f)
            && (FlagName(a, f) == FlagName(b, f) <==> FlagWords(a, f) == FlagWords(b, f))
            && (EnvName(a, f) == EnvName(b, f) <==> EnvWords(a, f) == EnvWords(b, f))
            && (FlagName(a, f) == FlagName(b, f) ==> '-' in a || '-' in b)
            && (EnvName(a, f) == EnvName(b, f) ==> '_' in a || '_' in b || !Ascii(a) || !Ascii(b))
  {
    var a, b := spec[i].name, spec[j].name;
    IndexDecides(spec, f);
    CollideIff(a, b, f);
    assert Split(a, f) != Split(b, f);
    if !('-' in a || '-' in b) {
      FlagNothingToCut(a, f);
      FlagNothingToCut(b, f);
    }
    if !('_' in a || '_' in b) && Ascii(a) && Ascii(b) {
      EnvNothingToCut(a, f);
      EnvNothingToCut(b, f);
      RaisedTells(a, b, f);
    }
  }

  /** What an accepted registration promises an operator holds exactly when its
      keys stay apart once cut; so always when every name is ASCII and holds
      neither hyphen nor underscore. */
  lemma AcceptedKeysAreSettableIff(spec: Spec, f: Casing)
    requires Folds(f) && Indexed(spec, f).Success?
    ensures Settable(spec, f) <==> ApartOnceCut(spec, f)
    ensures (forall k :: 0 <= k < |spec| ==> Ascii(spec[k].name) && Lacks(spec[k].name, '-') && Lacks(spec[k].name, '_')) ==> Settable(spec, f)
  {
    forall i, j | 0 <= i < j < |spec|
      ensures FlagName(spec[i].name, f) == FlagName(spec[j].name, f) <==> FlagWords(spec[i].name, f) == FlagWords(spec[j].name, f)
      ensures EnvName(spec[i].name, f) == EnvName(spec[j].name, f) <==> EnvWords(spec[i].name, f) == EnvWords(spec[j].name, f)
      ensures FlagName(spec[i].name, f) == FlagName(spec[j].name, f) ==> '-' in spec[i].name || '-' in spec[j].name
      ensures EnvName(spec[i].name, f) == EnvName(spec[j].name, f) ==>
                '_' in spec[i].name || '_' in spec[j].name || !Ascii(spec[i].name) || !Ascii(spec[j].name)
    {
      AcceptedKeysShareIff(spec, i, j, f);
    }
  }

  function Named(name: string): Key {
    Key(name, TypeString, None, "", false)
  }

  lemma AsciiRecased(c: char, f: Casing)
    requires Folds(f) && IsAscii(c)
    ensures f.lower(c) == LowerChar(c) && f.upper(c) == UpperChar(c)
  {
    assert Recased(c, f.lower(c), LowerChar(c)) && Recased(c, f.upper(c), UpperChar(c));
  }

  lemma OneSegment(segment: string, f: Casing)
    ensures AllWords([segment], f) == SegmentWords(segment, 0, 0, f)
  {
    assert [segment][1..] == [];
  }

  /** A name of three characters whose middle one is neither a dot nor a capital
      is one word; with a dot in the middle it is two. */
  lemma WordsOfThree(c: char, f: Casing)
    requires Folds(f) && IsAscii(c) && !IsUpper(c) && c != '.'
    ensures Words(['a', c, 'b'], f) == [['a', c, 'b']] && Words("a.b", f) == ["a", "b"]
  {
    var s := ['a', c, 'b'];
    AsciiRecased('a', f);
    AsciiRecased('b', f);
    AsciiRecased(c, f);
    assert IndexOf("a", '.') == 1 && IndexOf("b", '.') == 1 && SplitOn("b", '.') == ["b"];
    assert IndexOf("a.b", '.') == 1 && "a.b"[2..] == "b" && "a.b"[..1] == "a";
    assert SplitOn("a.b", '.') == ["a", "b"];
    assert s[1..] == [c, 'b'] && s[1..][1..] == "b";
    assert IndexOf("b", '.') == 1 && IndexOf([c, 'b'], '.') == 2 && IndexOf(s, '.') == 3;
    assert Mapped(f.lower, "a") == "a" && Mapped(f.lower, "b") == "b" && Mapped(f.lower, s) == s;
    assert "a"[0..] == "a" && "b"[0..] == "b" && s[0..] == s;
    assert SegmentWords("a", 0, 0, f) == ["a"] && SegmentWords("b", 0, 0, f) == ["b"];
    assert Boundary(s, 3) == 3;
    assert SegmentWords(s, 0, 0, f) == [s];
    OneSegment("b", f);
    OneSegment(s, f);
    assert ["a", "b"][1..] == ["b"];
    assert AllWords(["a", "b"], f) == ["a"] + ["b"];
  }

  lemma NamesOfThree(c: char, f: Casing)
    requires Folds(f) && IsAscii(c) && !IsUpper(c) && c != '.'
    ensures FlagName(['a', c, 'b'], f) == ['a', c, 'b'] && FlagName("a.b", f) == "a-b"
    ensures EnvName(['a', c, 'b'], f) == ENV_PREFIX + ['A', UpperChar(c), 'B'] && EnvName("a.b", f) == ENV_PREFIX + "A_B"
    ensures Split(['a', c, 'b'], f) == ['a', c, 'b'] && Split("a.b", f) == "a\0b"
  {
    WordsOfThree(c, f);
    assert Join(["b"], "-") == "b" && Join(["a", "b"], "-") == "a-b";
    assert Join(["b"], "_") == "b" && Join(["a", "b"], "_") == "a_b";
    assert Join(["b"], "\0") == "b" && Join(["a", "b"], "\0") == "a\0b";
    AsciiRecased('a', f);
    AsciiRecased('b', f);
    AsciiRecased('_', f);
    AsciiRecased(c, f);
    assert Mapped(f.upper, "a_b") == "A_B" && Mapped(f.upper, ['a', c, 'b']) == ['A', UpperChar(c), 'B'];
  }

  lemma TwoKeysAccepted(a: string, b: string, f: Casing)
    requires a != b && Split(a, f) != Split(b, f) && FlagName(a, f) != RESERVED_FLAG && FlagName(b, f) != RESERVED_FLAG
    ensures Indexed([Named(a), Named(b)], f).Success?
  {
    IndexDecides([Named(a), Named(b)], f);
  }

  lemma ThreeAccepted(c: char, f: Casing)
    requires Folds(f) && IsAscii(c) && !IsUpper(c) && c != '.' && c != '\0'
    ensures Indexed([Named(['a', c, 'b']), Named("a.b")], f).Success?
    ensures c != '-' ==> FlagName(['a', c, 'b'], f) != FlagName("a.b", f)
    ensures c != '_' && UpperChar(c) != '_' ==> EnvName(['a', c, 'b'], f) != EnvName("a.b", f)
  {
    var s := ['a', c, 'b'];
    NamesOfThree(c, f);
    assert s[1] == c && "a.b"[1] == '.' && "a-b"[1] == '-' && "a\0b"[1] == '\0';
    assert |RESERVED_FLAG| == 6;
    TwoKeysAccepted(s, "a.b", f);
    assert EnvName(s, f)[|ENV_PREFIX|..] == ['A', UpperChar(c), 'B'] && EnvName("a.b", f)[|ENV_PREFIX|..] == "A_B";
    assert ['A', UpperChar(c), 'B'][1] == UpperChar(c) && "A_B"[1] == '_';
  }

  /** With a hyphen inside a segment: one flag, two variables, and accepted. */
  lemma FlagWithoutVariableCollision(f: Casing)
    requires Folds(f)
    ensures FlagName("a-b", f) == FlagName("a.b", f) && EnvName("a-b", f) != EnvName("a.b", f) && Words("a-b", f) != Words("a.b", f)
    ensures Indexed([Named("a-b"), Named("a.b")], f).Success?
  {
    WordsOfThree('-', f);
    ThreeAccepted('-', f);
    NamesOfThree('-', f);
  }

  /** With an underscore: one variable, two flags, and accepted. */
  lemma VariableWithoutFlagCollision(f: Casing)
    requires Folds(f)
    ensures EnvName("a_b", f) == EnvName("a.b", f) && FlagName("a_b", f) != FlagName("a.b", f)
    ensures Indexed([Named("a_b"), Named("a.b")], f).Success?
  {
    ThreeAccepted('_', f);
    NamesOfThree('_', f);
  }

  lemma NamesOfOne(c: char, f: Casing)
    requires c != '.'
    ensures FlagName([c], f) == [f.lower(c)] && Split([c], f) == [f.lower(c)] && EnvName([c], f) == ENV_PREFIX + [f.upper(f.lower(c))]
  {
    assert IndexOf([c], '.') == 1 && SplitOn([c], '.') == [[c]];
    assert [c][0..] == [c] && Boundary([c], 1) == 1;
    assert Mapped(f.lower, [c]) == [f.lower(c)] && Mapped(f.upper, [f.lower(c)]) == [f.upper(f.lower(c))];
    assert SegmentWords([c], 0, 0, f) == [[f.lower(c)]];
    OneSegment([c], f);
  }

  /** A letter that is lower case already and shares its capital with an ASCII
      one, as the dotless i does: one variable, two flags, and accepted. */
  lemma CapitalCollision(f: Casing)
    requires Folds(f) && f.lower('\U{131}') == '\U{131}' && f.upper('\U{131}') == 'I'
    ensures EnvName("\U{131}", f) == EnvName("i", f) && FlagName("\U{131}", f) != FlagName("i", f)
    ensures Indexed([Named("\U{131}"), Named("i")], f).Success?
  {
    AsciiRecased('i', f);
    NamesOfOne('\U{131}', f);
    NamesOfOne('i', f);
    assert "\U{131}"[0] != "i"[0] && |RESERVED_FLAG| == 6;
    TwoKeysAccepted("\U{131}", "i", f);
  }

  // ---- coercion ------------------------------------------------------------

  /** The Go type of a value is the one its key declares. */
  predicate TypeFits(t: Type, v: Value) {
    match t
    case TypeString => v.Str?
    case TypeInt => v.Int?
    case TypeBool => v.Bool?
    case TypeDuration => v.Dur?
  }

  function ZeroOf(t: Type): Value {
    match t
    case TypeString => Str("")
    case TypeInt => Int(0)
    case TypeBool => Bool(false)
    case TypeDuration => Dur(0)
  }

  function ParseBool(s: string): Option<bool> {
    if s in {"1", "t", "T", "TRUE", "true", "True"} then Some(true)
    else if s in {"0", "f", "F", "FALSE", "false", "False"} then Some(false)
    else None
  }

  function Coerce(t: Type, raw: Option<Value>, dc: Dialect): Option<Value> {
    match raw
    case None => Some(ZeroOf(t))
    case Some(v) =>
      match t
      case TypeString => if v.Str? then Some(v) else None
      case TypeInt =>
        if v.Int? then Some(v)
        else if v.Str? then
          match Strconv.Atoi(v.s, 64)
          case Number(n) => if -0x8000_0000_0000_0000 <= n < 0x8000_0000_0000_0000 then Some(Int(n)) else None
          case _ => None
        else None
      case TypeBool =>
        if v.Bool? then Some(v)
        else if v.Str? then
          match ParseBool(v.s)
          case Some(b) => Some(Bool(b))
          case None => None
        else None
      case TypeDuration =>
        if v.Dur? then Some(v)
        else if v.Str? then
          match dc.parse(v.s)
          case Some(ns) => Some(Dur(ns))
          case None => None
        else None
  }

  /** Whatever source delivered it, an accepted value has the key's own type:
      the getters' type assertion cannot fail on a resolved value. */
  lemma CoerceTypes(t: Type, raw: Option<Value>, dc: Dialect)
    ensures Coerce(t, raw, dc).Some? ==> TypeFits(t, Coerce(t, raw, dc).value)
  {
  }
}
