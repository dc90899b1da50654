/** What the config printer writes, the loader reads back: the round trip the
    provisioning run's fixed point rests on. */
module RoundTrip {
  import opened Wrappers
  import opened Text
  import opened ConfigKey
  import opened Toml
  import opened Render
  import opened Resolve
  import Strconv

  // ---- values read back ----------------------------------------------------

  lemma ReadEscape(c: char, rest: string)
    ensures ReadBasic(Escape(c) + rest) ==
            match ReadBasic(rest)
            case Some(p) => Some(([c] + p.0, p.1))
            case None => None
  {
    var e := Escape(c);
    var s := e + rest;
    if |e| == 1 {
      assert s[1..] == rest;
    } else if |e| == 2 {
      assert s[1] == e[1] && s[2..] == rest;
    } else {
      assert e == "\\u" + Hex4(c as int);
      ReadHex4Hex4(c as int);
      assert s[1] == 'u' && s[2..6] == Hex4(c as int) && s[6..] == rest;
    }
  }

  lemma {:induction false} ReadEscapes(v: string, rest: string)
    ensures ReadBasic(EscapeAll(v) + "\"" + rest) == Some((v, rest))
  {
    var quoted := "\"" + rest;
    if v == "" {
      assert EscapeAll(v) + "\"" + rest == quoted && quoted[1..] == rest;
    } else {
      var tail := EscapeAll(v[1..]) + "\"" + rest;
      assert EscapeAll(v) + "\"" + rest == Escape(v[0]) + tail;
      ReadEscapes(v[1..], rest);
      ReadEscape(v[0], tail);
      assert [v[0]] + v[1..] == v;
    }
  }

  /** A string value, literal or escaped, reads back unchanged. */
  lemma ReadTomlText(v: string)
    ensures ReadValue(TomlText(v)) == Some((Str(v), ""))
  {
    var s := TomlText(v);
    if IsLiteral(v) {
      assert s[1..] == v + "'" + "";
      IndexOfFirst(v, '\'', "");
      assert s[1..][..|v|] == v && s[1..][|v| + 1..] == "";
      if v != "" {
        assert s[1] == v[0];
      }
    } else {
      assert s[1..] == EscapeAll(v) + "\"" + "";
      ReadEscapes(v, "");
      EscapesDoNotQuote(v);
    }
  }

  lemma EscapesDoNotQuote(v: string)
    requires !IsLiteral(v)
    ensures var e := EscapeAll(v); e != "" && e[0] != '"'
  {
    assert v != "";
    assert EscapeAll(v)[0] == Escape(v[0])[0];
  }

  lemma {:induction false} TokenEndAll(s: string)
    requires forall i :: 0 <= i < |s| ==> !IsWs(s[i]) && s[i] != '#'
    ensures TokenEnd(s) == |s|
  {
    if s != "" {
      TokenEndAll(s[1..]);
    }
  }

  lemma {:induction false} DigitsLead(n: nat)
    ensures |Strconv.Digits(n)| > 1 ==> Strconv.Digits(n)[0] != '0'
    ensures n > 0 ==> Strconv.Digits(n)[0] != '0'
  {
    if n >= 10 {
      DigitsLead(n / 10);
      assert Strconv.Digits(n)[0] == Strconv.Digits(n / 10)[0];
    }
  }

  lemma AtoiItoa64(n: int64)
    ensures Strconv.Atoi(Strconv.Itoa(n), 64) == Strconv.Number(n)
  {
    Pow63();
    Strconv.AtoiItoa(n, 64);
  }

  lemma ReadScalarItoa(n: int64)
    ensures ReadScalar(Strconv.Itoa(n)) == Some(Int(n))
  {
    var m: nat := if n < 0 then -(n as int) else n;
    var s, digits := Strconv.Itoa(n), Strconv.Digits(m);
    DigitsLead(m);
    AtoiItoa64(n);
    assert Strconv.IsDigit(digits[0]);
    assert s[0] != 't' && s[0] != 'f' && "true"[0] == 't' && "false"[0] == 'f';
    if n < 0 {
      assert s[1..] == digits;
    }
  }

  lemma ReadNumber(n: int64)
    ensures ReadValue(Strconv.Itoa(n)) == Some((Int(n), ""))
  {
    var s := Strconv.Itoa(n);
    ReadScalarItoa(n);
    assert forall i :: 0 <= i < |s| ==> s[i] == '-' || Strconv.IsDigit(s[i]);
    TokenEndAll(s);
    assert s[..|s|] == s && s[|s|..] == "" && s != "";
    assert s[0] != '\'' && s[0] != '"';
  }

  lemma Pow63()
    ensures Strconv.Pow2(63) == 0x8000_0000_0000_0000
  {
    assert Strconv.Pow2(16) == 65536;
    PowSplit(16, 16);
    PowSplit(32, 16);
    PowSplit(48, 15);
    assert Strconv.Pow2(15) == 32768;
  }

  lemma {:induction false} PowSplit(a: nat, b: nat)
    ensures Strconv.Pow2(a + b) == Strconv.Pow2(a) * Strconv.Pow2(b)
  {
    if b > 0 {
      PowSplit(a, b - 1);
      assert Strconv.Pow2(a + b) == 2 * (Strconv.Pow2(a) * Strconv.Pow2(b - 1));
    }
  }

  /** A value without quotes ends with its line. */
  lemma ReadWord(s: string, v: Value)
    requires s != "" && s[0] != '\'' && s[0] != '"' && ReadScalar(s) == Some(v)
    requires forall i :: 0 <= i < |s| ==> !IsWs(s[i]) && s[i] != '#'
    ensures ReadValue(s) == Some((v, ""))
  {
    TokenEndAll(s);
    assert s[..|s|] == s && s[|s|..] == "";
  }

  lemma ReadBool(b: bool)
    ensures ReadValue(if b then "true" else "false") == Some((Bool(b), ""))
  {
    var word := if b then "true" else "false";
    assert word[0] == if b then 't' else 'f';
    assert "true" != "false" by {
      assert |"true"| != |"false"|;
    }
    ReadWord(word, Bool(b));
  }

  lemma ReadBack(v: Value, dc: Dialect)
    ensures ReadValue(ValueText(v, dc)) == Some((RawOf(v, dc), ""))
  {
    match v
    case Str(s) => ReadTomlText(s);
    case Int(n) => ReadNumber(n);
    case Bool(b) => ReadBool(b);
    case Dur(ns) => ReadTomlText(dc.format(ns));
  }

  // ---- lines read back -----------------------------------------------------

  lemma {:induction false} KeySpanExact(a: string, b: string, dots: bool)
    requires forall i :: 0 <= i < |a| ==> IsBare(a[i]) || (dots && a[i] == '.')
    requires b == "" || (!IsBare(b[0]) && !(dots && b[0] == '.'))
    ensures KeySpan(a + b, dots) == |a|
  {
    if a == "" {
      assert a + b == b;
    } else {
      assert (a + b)[1..] == a[1..] + b && (a + b)[0] == a[0];
      KeySpanExact(a[1..], b, dots);
    }
  }

  lemma ValueTextStarts(v: Value, dc: Dialect)
    ensures var t := ValueText(v, dc); t != "" && !IsWs(t[0])
  {
    if v.Int? {
      var digits := Strconv.Digits(if v.i < 0 then -(v.i as int) else v.i);
      assert Strconv.IsDigit(digits[0]);
    }
  }

  /** What follows a key on its line, up to the value. */
  lemma AfterKey(text: string)
    requires text != "" && !IsWs(text[0])
    ensures var after := SkipWs(" = " + text);
            after != "" && after[0] == '=' && SkipWs(after[1..]) == text
  {
    var tail := "= " + text;
    assert (" = " + text)[1..] == tail && SkipWs(tail) == tail;
    assert tail[1..] == " " + text && (" " + text)[1..] == text;
    assert SkipWs(text) == text;
  }

  lemma SkipNothing(s: string)
    requires s != "" && !IsWs(s[0])
    ensures SkipWs(s) == s
  {
  }

  /** A key line reads back as that key and its value. */
  lemma ReadEntry(leaf: string, v: Value, dc: Dialect)
    requires IsBareName(leaf)
    ensures ReadLine(leaf + " = " + ValueText(v, dc)) == Some(KeyVal(leaf, RawOf(v, dc)))
  {
    var text := ValueText(v, dc);
    var line := leaf + (" = " + text);
    assert line == leaf + " = " + text;
    KeySpanExact(leaf, " = " + text, false);
    ValueTextStarts(v, dc);
    AfterKey(text);
    ReadBack(v, dc);
    assert line[0] == leaf[0] && IsBare(line[0]);
    SkipNothing(line);
    assert line[|leaf|..] == " = " + text && line[..|leaf|] == leaf;
  }

  lemma ReadHeading(t: string)
    requires IsDotted(t)
    ensures ReadLine("[" + t + "]") == Some(Header(t))
  {
    var line := "[" + t + "]";
    assert line[1..] == t + "]";
    KeySpanExact(t, "]", true);
    assert line[1..1 + |t|] == t && line[2 + |t|..] == "";
  }

  // ---- names ---------------------------------------------------------------

  /** A dotted key splits into a dotted table and a bare leaf, and only there. */
  lemma KeyParts(key: string)
    requires IsDotted(key)
    ensures IsBareName(LeafOf(key)) && Path(TableOf(key), LeafOf(key)) == key
    ensures TableOf(key) != "" ==> IsDotted(TableOf(key)) && Under(TableOf(key), key)
  {
    var i := LastDot(key);
    if i >= 0 {
      assert key == key[..i] + "." + key[i + 1..];
    }
  }

  ghost predicate Unnested(names: set<string>) {
    forall a, b :: a in names && b in names ==> !Under(a, b)
  }

  lemma UnderTransitive(a: string, b: string, c: string)
    requires Under(a, b) && Under(b, c)
    ensures Under(a, c)
  {
    assert c[..|a|] == c[..|b|][..|a|];
    assert c[|a|] == c[..|b|][|a|];
  }

  // ---- the document's state ------------------------------------------------

  /** Everything read so far belongs to the registered names. */
  ghost predicate Within(doc: Doc, names: set<string>) {
    && doc.values.Keys <= names
    && forall t :: t in doc.tables ==> exists k :: k in names && Under(t, k)
  }

  lemma NoConflict(doc: Doc, key: string, names: set<string>)
    requires Unnested(names) && Within(doc, names) && key in names
    ensures forall t :: t in doc.tables ==> t != key && !Under(key, t)
    ensures forall k :: k in doc.values.Keys ==> !Under(key, k)
  {
    forall t | t in doc.tables
      ensures t != key && !Under(key, t)
    {
      var k :| k in names && Under(t, k);
      if Under(key, t) {
        UnderTransitive(key, t, k);
      }
    }
  }

  lemma StepKey(doc: Doc, key: string, v: Value, names: set<string>)
    requires Unnested(names) && Within(doc, names)
    requires IsDotted(key) && key in names && key !in doc.values && doc.table == TableOf(key)
    ensures Step(doc, KeyVal(LeafOf(key), v)) == Some(doc.(values := doc.values[key := v]))
  {
    KeyParts(key);
    NoConflict(doc, key, names);
    assert Path(doc.table, LeafOf(key)) == key;
  }

  lemma StepHeader(doc: Doc, t: string, key: string, names: set<string>)
    requires Unnested(names) && Within(doc, names)
    requires key in names && Under(t, key) && t !in doc.tables
    ensures Step(doc, Header(t)) == Some(doc.(table := t, tables := doc.tables + {t}))
    ensures Within(doc.(table := t, tables := doc.tables + {t}), names)
  {
    forall k | k in doc.values.Keys
      ensures k != t && !Under(k, t)
    {
      if Under(k, t) {
        UnderTransitive(k, t, key);
      }
    }
  }

  // ---- comments ------------------------------------------------------------

  /** A usage text TOML can carry in a comment: its only forbidden characters
      are white space, which wrapping removes. */
  predicate CleanUsage(usage: string) {
    forall i :: 0 <= i < |usage| ==> IsSpace(usage[i]) || !IsForbidden(usage[i])
  }

  lemma {:induction false} WrapLines(words: seq<string>, i: nat, line: string)
    requires i <= |words| && line != "" && line[0] == '#' && Lacks(line, '\n')
    requires forall k, j :: 0 <= k < |words| && 0 <= j < |words[k]| ==> !IsSpace(words[k][j])
    ensures forall k :: 0 <= k < |Wrap(words, i, line)| ==>
              var l := Wrap(words, i, line)[k]; l != "" && l[0] == '#' && Lacks(l, '\n')
    decreases |words| - i
  {
    if i < |words| {
      WrapLines(words, i + 1, "#" + " " + words[i]);
      WrapLines(words, i + 1, line + " " + words[i]);
    }
  }

  lemma {:induction false} WrapClean(words: seq<string>, i: nat, line: string)
    requires i <= |words| && Printable(line)
    requires forall k, j :: 0 <= k < |words| && 0 <= j < |words[k]| ==> !IsForbidden(words[k][j])
    ensures forall k :: 0 <= k < |Wrap(words, i, line)| ==> Printable(Wrap(words, i, line)[k])
    decreases |words| - i
  {
    if i < |words| {
      WrapClean(words, i + 1, "#" + " " + words[i]);
      WrapClean(words, i + 1, line + " " + words[i]);
    }
  }

  /** Every line of a comment is blank or starts with '#', and holds no newline
      whatever the usage text says. */
  lemma CommentIsComment(usage: string)
    ensures forall k :: 0 <= k < |CommentLines(usage)| ==>
              var l := CommentLines(usage)[k]; (l == "" || l[0] == '#') && Lacks(l, '\n')
  {
    WrapLines(Fields(usage), 0, "#");
  }

  lemma CommentIsRemark(usage: string)
    requires CleanUsage(usage)
    ensures forall k :: 0 <= k < |CommentLines(usage)| ==> IsRemark(CommentLines(usage)[k])
  {
    var words := Fields(usage);
    forall k, j | 0 <= k < |words| && 0 <= j < |words[k]|
      ensures !IsForbidden(words[k][j])
    {
      assert words[k] in words && words[k][j] in usage;
    }
    WrapClean(words, 0, "#");
    WrapLines(words, 0, "#");
  }

  // ---- groups --------------------------------------------------------------

  ghost predicate Clean(index: map<string, Key>, values: seq<Provisioned>) {
    forall i :: 0 <= i < |values| ==> CleanUsage(UsageOf(index, values[i].key))
  }

  lemma ReadEntryLines(doc: Doc, index: map<string, Key>, v: Provisioned, dc: Dialect, names: set<string>)
    requires Unnested(names) && Within(doc, names)
    requires IsDotted(v.key) && v.key in names && v.key !in doc.values && doc.table == TableOf(v.key)
    requires CleanUsage(UsageOf(index, v.key))
    ensures var next := doc.(values := doc.values[v.key := RawOf(v.value, dc)]);
            ReadLines(doc, EntryLines(index, v, dc)) == Some(next) && Within(next, names)
  {
    var next := doc.(values := doc.values[v.key := RawOf(v.value, dc)]);
    assert Within(next, names);
    var comment := CommentLines(UsageOf(index, v.key));
    var entry := LeafOf(v.key) + " = " + ValueText(v.value, dc);
    CommentIsRemark(UsageOf(index, v.key));
    ReadRemarks(doc, comment);
    ReadAppend(doc, comment, [entry]);
    KeyParts(v.key);
    ReadEntry(LeafOf(v.key), v.value, dc);
    StepKey(doc, v.key, RawOf(v.value, dc), names);
    assert [entry][0] == entry && [entry][1..] == [];
  }

  /** Whether value `i` has been read once the groups in `done`, and the first
      `n` values of group `t`, have been. */
  predicate Emitted(values: seq<Provisioned>, i: nat, done: set<string>, t: string, n: nat)
    requires i < |values|
  {
    TableOf(values[i].key) in done || (TableOf(values[i].key) == t && i < n)
  }

  ghost predicate Carries(m: map<string, Value>, values: seq<Provisioned>, done: set<string>, t: string, n: nat, dc: Dialect) {
    && (forall i :: 0 <= i < |values| && Emitted(values, i, done, t, n) ==>
          values[i].key in m && m[values[i].key] == RawOf(values[i].value, dc))
    && (forall k :: k in m ==> exists i :: 0 <= i < |values| && values[i].key == k && Emitted(values, i, done, t, n))
  }

  ghost predicate Printed(index: map<string, Key>, values: seq<Provisioned>, names: set<string>) {
    && Unnested(names) && Clean(index, values)
    && (forall i :: 0 <= i < |values| ==> IsDotted(values[i].key) && values[i].key in names)
    && (forall i, j :: 0 <= i < j < |values| ==> values[i].key != values[j].key)
  }

  lemma CarriesNext(m: map<string, Value>, values: seq<Provisioned>, done: set<string>, t: string, n: nat, dc: Dialect)
    requires n < |values| && Carries(m, values, done, t, n, dc)
    requires forall i, j :: 0 <= i < j < |values| ==> values[i].key != values[j].key
    ensures TableOf(values[n].key) == t && t !in done ==>
              && values[n].key !in m
              && Carries(m[values[n].key := RawOf(values[n].value, dc)], values, done, t, n + 1, dc)
    ensures TableOf(values[n].key) != t ==> Carries(m, values, done, t, n + 1, dc)
  {
    var key := values[n].key;
    if TableOf(key) == t && t !in done {
      assert !Emitted(values, n, done, t, n);
      var m' := m[key := RawOf(values[n].value, dc)];
      forall k | k in m'
        ensures exists i :: 0 <= i < |values| && values[i].key == k && Emitted(values, i, done, t, n + 1)
      {
        if k == key {
          assert Emitted(values, n, done, t, n + 1);
        } else {
          var i :| 0 <= i < |values| && values[i].key == k && Emitted(values, i, done, t, n);
          assert Emitted(values, i, done, t, n + 1);
        }
      }
      forall i | 0 <= i < |values| && Emitted(values, i, done, t, n + 1)
        ensures values[i].key in m' && m'[values[i].key] == RawOf(values[i].value, dc)
      {
        if i != n {
          assert Emitted(values, i, done, t, n);
        }
      }
    } else if TableOf(key) != t {
      forall i | 0 <= i < |values|
        ensures Emitted(values, i, done, t, n + 1) == Emitted(values, i, done, t, n)
      {
      }
    }
  }

  lemma GroupSoFar(index: map<string, Key>, values: seq<Provisioned>, n: nat, t: string, dc: Dialect)
    requires 0 < n <= |values|
    ensures var v, earlier := values[n - 1], GroupLines(index, values[..n - 1], t, dc);
            GroupLines(index, values[..n], t, dc) == if TableOf(v.key) == t then earlier + EntryLines(index, v, dc) else earlier
  {
    assert values[..n][..n - 1] == values[..n - 1];
    GroupLast(index, values[..n], t, dc);
  }

  /** A group's lines are read one value at a time. */
  lemma GroupContinues(doc: Doc, index: map<string, Key>, values: seq<Provisioned>, n: nat, t: string, dc: Dialect)
    requires 0 < n <= |values| && ReadLines(doc, GroupLines(index, values[..n - 1], t, dc)).Some?
    ensures var v, before := values[n - 1], ReadLines(doc, GroupLines(index, values[..n - 1], t, dc)).value;
            ReadLines(doc, GroupLines(index, values[..n], t, dc)) ==
            if TableOf(v.key) == t then ReadLines(before, EntryLines(index, v, dc)) else Some(before)
  {
    var earlier := GroupLines(index, values[..n - 1], t, dc);
    GroupSoFar(index, values, n, t, dc);
    if TableOf(values[n - 1].key) == t {
      ReadAppend(doc, earlier, EntryLines(index, values[n - 1], dc));
    }
  }

  lemma {:induction false} ReadGroup(doc: Doc, index: map<string, Key>, values: seq<Provisioned>, n: nat, done: set<string>,
                                     dc: Dialect, names: set<string>)
    requires n <= |values| && Printed(index, values, names) && Within(doc, names) && doc.table !in done
    requires Carries(doc.values, values, done, doc.table, 0, dc)
    ensures var r := ReadLines(doc, GroupLines(index, values[..n], doc.table, dc));
            && r.Some? && r.value == doc.(values := r.value.values) && Within(r.value, names)
            && Carries(r.value.values, values, done, doc.table, n, dc)
  {
    if n > 0 {
      var v, t := values[n - 1], doc.table;
      ReadGroup(doc, index, values, n - 1, done, dc, names);
      var before := ReadLines(doc, GroupLines(index, values[..n - 1], t, dc)).value;
      CarriesNext(before.values, values, done, t, n - 1, dc);
      GroupContinues(doc, index, values, n, t, dc);
      if TableOf(v.key) == t {
        ReadEntryLines(before, index, v, dc, names);
      }
    }
  }

  /** A finished group is a done group. */
  lemma CarriesGroup(m: map<string, Value>, values: seq<Provisioned>, done: set<string>, t: string, t': string, dc: Dialect)
    requires Carries(m, values, done, t, |values|, dc)
    ensures Carries(m, values, done + {t}, t', 0, dc)
  {
    forall i | 0 <= i < |values|
      ensures Emitted(values, i, done + {t}, t', 0) == Emitted(values, i, done, t, |values|)
    {
    }
  }

  ghost function FirstTables(tables: seq<string>, m: nat): set<string>
    requires m <= |tables|
  {
    set k | 0 <= k < m :: tables[k]
  }

  lemma FirstTablesStep(tables: seq<string>, m: nat)
    requires 0 < m <= |tables| && forall k, l :: 0 <= k < l < |tables| ==> tables[k] != tables[l]
    ensures FirstTables(tables, m) == FirstTables(tables, m - 1) + {tables[m - 1]}
    ensures tables[m - 1] !in FirstTables(tables, m - 1)
  {
  }

  function Section(index: map<string, Key>, values: seq<Provisioned>, t: string, dc: Dialect): seq<string> {
    ["", "[" + t + "]"] + GroupLines(index, values, t, dc)
  }

  lemma SectionsSplit(doc: Doc, index: map<string, Key>, values: seq<Provisioned>, tables: seq<string>, m: nat, dc: Dialect)
    requires 0 < m <= |tables|
    requires ReadLines(doc, SectionLines(index, values, tables[..m - 1], dc)).Some?
    ensures ReadLines(doc, SectionLines(index, values, tables[..m], dc)) ==
            ReadLines(ReadLines(doc, SectionLines(index, values, tables[..m - 1], dc)).value, Section(index, values, tables[m - 1], dc))
  {
    var earlier := SectionLines(index, values, tables[..m - 1], dc);
    assert SectionLines(index, values, tables[..m], dc) == earlier + Section(index, values, tables[m - 1], dc) by {
      assert tables[..m][..m - 1] == tables[..m - 1];
    }
    ReadAppend(doc, earlier, Section(index, values, tables[m - 1], dc));
  }

  /** The document read so far holds the bare keys and these tables, whole. */
  ghost predicate ReadThrough(r: Option<Doc>, values: seq<Provisioned>, tables: set<string>, dc: Dialect, names: set<string>) {
    && r.Some? && r.value.tables == tables && Within(r.value, names)
    && Carries(r.value.values, values, {""} + tables, "", 0, dc)
  }

  lemma {:induction false} ReadSection(doc: Doc, index: map<string, Key>, values: seq<Provisioned>, t: string, dc: Dialect, names: set<string>)
    requires Printed(index, values, names) && NeedsTable(values, t) && t !in doc.tables
    requires ReadThrough(Some(doc), values, doc.tables, dc, names)
    ensures ReadThrough(ReadLines(doc, Section(index, values, t, dc)), values, doc.tables + {t}, dc, names)
  {
    var heading, group := ["", "[" + t + "]"], GroupLines(index, values, t, dc);
    ReadAppend(doc, heading, group);
    ReadSectionHeading(doc, values, t, names);
    ReadSectionGroup(doc, index, values, t, dc, names);
  }

  lemma ReadSectionGroup(doc: Doc, index: map<string, Key>, values: seq<Provisioned>, t: string, dc: Dialect, names: set<string>)
    requires Printed(index, values, names) && t != "" && t !in doc.tables
    requires ReadThrough(Some(doc), values, doc.tables, dc, names)
    requires Within(doc.(table := t, tables := doc.tables + {t}), names)
    ensures ReadThrough(ReadLines(doc.(table := t, tables := doc.tables + {t}), GroupLines(index, values, t, dc)),
                        values, doc.tables + {t}, dc, names)
  {
    var inside, done := doc.(table := t, tables := doc.tables + {t}), {""} + doc.tables;
    CarriesRetag(doc.values, values, done, t, dc);
    assert values[..|values|] == values;
    ReadGroup(inside, index, values, |values|, done, dc, names);
    CarriesGroup(ReadLines(inside, GroupLines(index, values, t, dc)).value.values, values, done, t, "", dc);
    assert done + {t} == {""} + (doc.tables + {t});
  }

  lemma {:induction false} ReadSections(doc: Doc, index: map<string, Key>, values: seq<Provisioned>, tables: seq<string>, m: nat,
                                        dc: Dialect, names: set<string>)
    requires m <= |tables| && Printed(index, values, names)
    requires forall k :: 0 <= k < |tables| ==> NeedsTable(values, tables[k])
    requires forall k, l :: 0 <= k < l < |tables| ==> tables[k] != tables[l]
    requires ReadThrough(Some(doc), values, {}, dc, names)
    ensures ReadThrough(ReadLines(doc, SectionLines(index, values, tables[..m], dc)), values, FirstTables(tables, m), dc, names)
  {
    if m == 0 {
      assert FirstTables(tables, 0) == {};
    } else {
      ReadSections(doc, index, values, tables, m - 1, dc, names);
      FirstTablesStep(tables, m);
      SectionsSplit(doc, index, values, tables, m, dc);
      ReadSection(ReadLines(doc, SectionLines(index, values, tables[..m - 1], dc)).value, index, values, tables[m - 1], dc, names);
    }
  }

  lemma CarriesRetag(m: map<string, Value>, values: seq<Provisioned>, done: set<string>, t: string, dc: Dialect)
    requires Carries(m, values, done, "", 0, dc)
    ensures Carries(m, values, done, t, 0, dc)
  {
    forall i | 0 <= i < |values|
      ensures Emitted(values, i, done, t, 0) == Emitted(values, i, done, "", 0)
    {
    }
  }

  lemma ReadSectionHeading(doc: Doc, values: seq<Provisioned>, t: string, names: set<string>)
    requires Unnested(names) && Within(doc, names) && NeedsTable(values, t) && t !in doc.tables
    requires forall i :: 0 <= i < |values| ==> IsDotted(values[i].key) && values[i].key in names
    ensures var inside := doc.(table := t, tables := doc.tables + {t});
            ReadLines(doc, ["", "[" + t + "]"]) == Some(inside) && Within(inside, names)
  {
    var j :| 0 <= j < |values| && TableOf(values[j].key) == t;
    KeyParts(values[j].key);
    ReadHeading(t);
    StepHeader(doc, t, values[j].key, names);
    var lines := ["", "[" + t + "]"];
    assert lines[1..] == ["[" + t + "]"] && lines[1..][1..] == [];
    assert ReadLine("") == Some(Blank);
    var inside := doc.(table := t, tables := doc.tables + {t});
    assert ReadLines(doc, lines[1..]) == ReadLines(inside, []);
  }

  // ---- the document as text ------------------------------------------------

  ghost predicate OneLiners(lines: seq<string>) {
    forall k :: 0 <= k < |lines| ==> Lacks(lines[k], '\n')
  }

  lemma {:induction false} EscapesLackNewline(v: string)
    ensures Lacks(EscapeAll(v), '\n')
  {
    if v != "" {
      EscapesLackNewline(v[1..]);
      assert Lacks(Escape(v[0]), '\n');
    }
  }

  lemma ValueLacksNewline(v: Value, dc: Dialect)
    ensures Lacks(ValueText(v, dc), '\n')
  {
    if v.Str? {
      EscapesLackNewline(v.s);
    } else if v.Dur? {
      EscapesLackNewline(dc.format(v.ns));
    } else if v.Int? {
      assert forall i :: 0 <= i < |ValueText(v, dc)| ==> ValueText(v, dc)[i] == '-' || Strconv.IsDigit(ValueText(v, dc)[i]);
    }
  }

  lemma OneLinersAppend(a: seq<string>, b: seq<string>)
    requires OneLiners(a) && OneLiners(b)
    ensures OneLiners(a + b)
  {
  }

  lemma EntryLacksNewline(leaf: string, text: string)
    requires IsBareName(leaf) && Lacks(text, '\n')
    ensures Lacks(leaf + " = " + text, '\n')
  {
  }

  lemma EntryOneLiners(index: map<string, Key>, v: Provisioned, dc: Dialect)
    requires IsDotted(v.key)
    ensures OneLiners(EntryLines(index, v, dc))
  {
    KeyParts(v.key);
    ValueLacksNewline(v.value, dc);
    EntryLacksNewline(LeafOf(v.key), ValueText(v.value, dc));
    CommentIsComment(UsageOf(index, v.key));
    OneLinersAppend(CommentLines(UsageOf(index, v.key)), [LeafOf(v.key) + " = " + ValueText(v.value, dc)]);
  }

  lemma {:induction false} GroupOneLiners(index: map<string, Key>, values: seq<Provisioned>, t: string, dc: Dialect)
    requires forall i :: 0 <= i < |values| ==> IsDotted(values[i].key)
    ensures OneLiners(GroupLines(index, values, t, dc))
  {
    if values != [] {
      GroupOneLiners(index, values[..|values| - 1], t, dc);
      EntryOneLiners(index, values[|values| - 1], dc);
    }
  }

  lemma HeadingLacksNewline(t: string)
    requires IsDotted(t)
    ensures OneLiners(["", "[" + t + "]"])
  {
  }

  lemma SectionOneLiners(index: map<string, Key>, values: seq<Provisioned>, t: string, dc: Dialect)
    requires forall i :: 0 <= i < |values| ==> IsDotted(values[i].key)
    requires NeedsTable(values, t)
    ensures OneLiners(Section(index, values, t, dc))
  {
    GroupOneLiners(index, values, t, dc);
    var j :| 0 <= j < |values| && TableOf(values[j].key) == t;
    KeyParts(values[j].key);
    HeadingLacksNewline(t);
    OneLinersAppend(["", "[" + t + "]"], GroupLines(index, values, t, dc));
  }

  lemma {:induction false} SectionsOneLiners(index: map<string, Key>, values: seq<Provisioned>, tables: seq<string>, dc: Dialect)
    requires forall i :: 0 <= i < |values| ==> IsDotted(values[i].key)
    requires forall k :: 0 <= k < |tables| ==> NeedsTable(values, tables[k])
    ensures OneLiners(SectionLines(index, values, tables, dc))
  {
    if tables != [] {
      SectionsOneLiners(index, values, tables[..|tables| - 1], dc);
      SectionOneLiners(index, values, tables[|tables| - 1], dc);
      assert SectionLines(index, values, tables, dc) ==
             SectionLines(index, values, tables[..|tables| - 1], dc) + Section(index, values, tables[|tables| - 1], dc);
      OneLinersAppend(SectionLines(index, values, tables[..|tables| - 1], dc), Section(index, values, tables[|tables| - 1], dc));
    }
  }

  lemma RemarksAreOneLiners(lines: Remarks)
    ensures OneLiners(lines)
  {
    assert forall k :: 0 <= k < |lines| ==> IsRemark(lines[k]);
  }

  lemma DocumentOneLiners(index: map<string, Key>, values: seq<Provisioned>, dc: Dialect)
    requires forall i :: 0 <= i < |values| ==> IsDotted(values[i].key)
    ensures OneLiners(DocumentLines(index, values, dc))
  {
    var group, sections := GroupLines(index, values, "", dc), SectionLines(index, values, TablesFrom(values, 0, []), dc);
    RemarksAreOneLiners(dc.header);
    GroupOneLiners(index, values, "", dc);
    OneLinersAppend(dc.header, group);
    AllSectionsOneLiners(index, values, dc);
    OneLinersAppend(dc.header + group, sections);
  }

  lemma AllSectionsOneLiners(index: map<string, Key>, values: seq<Provisioned>, dc: Dialect)
    requires forall i :: 0 <= i < |values| ==> IsDotted(values[i].key)
    ensures OneLiners(SectionLines(index, values, TablesFrom(values, 0, []), dc))
  {
    TablesComplete(values, 0, []);
    SectionsOneLiners(index, values, TablesFrom(values, 0, []), dc);
  }

  lemma UnmarshalLines(lines: seq<string>)
    requires OneLiners(lines)
    ensures Unmarshal(Unlines(lines)) == ReadLines(Doc("", {}, map[]), lines)
  {
    SplitUnlines(lines);
    ReadAppend(Doc("", {}, map[]), lines, [""]);
    match ReadLines(Doc("", {}, map[]), lines)
    case None =>
    case Some(d) => ReadRemarks(d, [""]);
  }

  /** The bare keys: every value outside any table, after the header. */
  lemma ReadTop(index: map<string, Key>, values: seq<Provisioned>, dc: Dialect, names: set<string>)
    requires Printed(index, values, names)
    ensures var r := ReadLines(Doc("", {}, map[]), dc.header + GroupLines(index, values, "", dc));
            ReadThrough(r, values, {}, dc, names)
  {
    var doc0, group := Doc("", {}, map[]), GroupLines(index, values, "", dc);
    ReadRemarks(doc0, dc.header);
    ReadAppend(doc0, dc.header, group);
    ReadGroup(doc0, index, values, |values|, {}, dc, names);
    assert values[..|values|] == values;
    CarriesGroup(ReadLines(doc0, group).value.values, values, {}, "", "", dc);
    assert {} + {""} == {""} + {};
  }

  /** The tables, after whatever lines brought the bare keys. */
  lemma ReadRest(top: seq<string>, index: map<string, Key>, values: seq<Provisioned>, tables: seq<string>,
                                    dc: Dialect, names: set<string>)
    requires Printed(index, values, names)
    requires forall k :: 0 <= k < |tables| ==> NeedsTable(values, tables[k])
    requires forall k, l :: 0 <= k < l < |tables| ==> tables[k] != tables[l]
    requires ReadThrough(ReadLines(Doc("", {}, map[]), top), values, {}, dc, names)
    ensures ReadThrough(ReadLines(Doc("", {}, map[]), top + SectionLines(index, values, tables, dc)), values, FirstTables(tables, |tables|), dc, names)
  {
    var doc0 := Doc("", {}, map[]);
    ReadAppend(doc0, top, SectionLines(index, values, tables, dc));
    assert tables[..|tables|] == tables;
    ReadSections(ReadLines(doc0, top).value, index, values, tables, |tables|, dc, names);
  }

  lemma ReadAllLines(index: map<string, Key>, values: seq<Provisioned>, dc: Dialect, names: set<string>)
    requires Printed(index, values, names)
    ensures var tables := TablesFrom(values, 0, []);
            ReadThrough(ReadLines(Doc("", {}, map[]), DocumentLines(index, values, dc)), values, FirstTables(tables, |tables|), dc, names)
  {
    ReadTop(index, values, dc, names);
    TablesComplete(values, 0, []);
    ReadRest(dc.header + GroupLines(index, values, "", dc), index, values, TablesFrom(values, 0, []), dc, names);
  }

  /** The whole document reads as exactly the provisioned values, each under its
      own dotted key, whatever order and tables they were given in. */
  lemma ReadDocument(index: map<string, Key>, values: seq<Provisioned>, dc: Dialect, names: set<string>)
    requires Printed(index, values, names)
    ensures var r := Unmarshal(Unlines(DocumentLines(index, values, dc)));
            && r.Some? && Within(r.value, names)
            && (forall i :: 0 <= i < |values| ==>
                  values[i].key in r.value.values && r.value.values[values[i].key] == RawOf(values[i].value, dc))
            && (forall k :: k in r.value.values ==> exists i :: 0 <= i < |values| && values[i].key == k)
  {
    DocumentOneLiners(index, values, dc);
    UnmarshalLines(DocumentLines(index, values, dc));
    ReadAllLines(index, values, dc, names);
    TablesComplete(values, 0, []);
    AllEmitted(values, TablesFrom(values, 0, []));
  }

  lemma AllEmitted(values: seq<Provisioned>, tables: seq<string>)
    requires forall j :: 0 <= j < |values| ==> TableOf(values[j].key) == "" || TableOf(values[j].key) in tables
    ensures forall i :: 0 <= i < |values| ==> Emitted(values, i, {""} + FirstTables(tables, |tables|), "", 0)
  {
  }

  // ---- a usage text TOML cannot carry --------------------------------------

  lemma {:induction false} ReadBroken(doc: Doc, lines: seq<string>, broken: string)
    requires broken in lines && ReadLine(broken).None?
    ensures ReadLines(doc, lines).None?
    decreases |lines|
  {
    if lines[0] != broken && ReadLine(lines[0]).Some? && Step(doc, ReadLine(lines[0]).value).Some? {
      assert broken in lines[1..];
      ReadBroken(Step(doc, ReadLine(lines[0]).value).value, lines[1..], broken);
    }
  }

  ghost predicate SomeHas(lines: seq<string>, c: char) {
    exists k :: 0 <= k < |lines| && c in lines[k]
  }

  lemma SomeHasCons(head: string, tail: seq<string>, c: char)
    ensures c in head || SomeHas(tail, c) ==> SomeHas([head] + tail, c)
  {
    if SomeHas(tail, c) {
      var k :| 0 <= k < |tail| && c in tail[k];
      assert c in ([head] + tail)[k + 1];
    } else if c in head {
      assert c in ([head] + tail)[0];
    }
  }

  /** No character but white space is lost when a usage text is cut into words. */
  lemma {:induction false} FieldsCover(usage: string, i: nat)
    requires i < |usage| && !IsSpace(usage[i])
    ensures SomeHas(Fields(usage), usage[i])
    decreases |usage|
  {
    var t := TrimLeft(usage);
    TrimLeftIsSuffix(usage);
    var at := i - (|usage| - |t|);
    var n := WordLength(t);
    assert t[at] == usage[i];
    CutAt(t, n, at);
    if at >= n {
      FieldsCover(t[n..], at - n);
    }
    SomeHasCons(t[..n], Fields(t[n..]), usage[i]);
  }

  lemma CutAt(t: string, n: nat, at: nat)
    requires at < |t| && n <= |t|
    ensures if at < n then t[at] in t[..n] else t[n..][at - n] == t[at]
  {
    assert at < n ==> t[..n][at] == t[at];
  }

  /** Nor when the words are wrapped into lines. */
  lemma {:induction false} WrapCover(words: seq<string>, i: nat, line: string, c: char)
    requires i <= |words| && (c in line || SomeHas(words[i..], c))
    ensures SomeHas(Wrap(words, i, line), c)
    decreases |words| - i
  {
    if i == |words| {
      assert c in Wrap(words, i, line)[0];
    } else {
      var next := if ByteLen(line) + 1 + ByteLen(words[i]) > COMMENT_WIDTH && line != "#" then "#" else line;
      if c !in line {
        var k :| 0 <= k < |words[i..]| && c in words[i..][k];
        if k > 0 {
          assert words[i + 1..][k - 1] == words[i..][k];
        } else {
          assert c in next + " " + words[i];
        }
      }
      if c in next + " " + words[i] || SomeHas(words[i + 1..], c) {
        WrapCover(words, i + 1, next + " " + words[i], c);
      }
      SomeHasCons(line, Wrap(words, i + 1, next + " " + words[i]), c);
    }
  }

  lemma HashLineBroken(line: string)
    requires line != "" && line[0] == '#' && !Printable(line)
    ensures ReadLine(line).None?
  {
    SkipNothing(line);
  }

  /** Such a usage leaves a comment line the reader refuses. */
  lemma DirtyComment(usage: string) returns (broken: string)
    requires !CleanUsage(usage)
    ensures broken in CommentLines(usage) && ReadLine(broken).None?
  {
    var i :| 0 <= i < |usage| && !IsSpace(usage[i]) && IsForbidden(usage[i]);
    var words := Fields(usage);
    FieldsCover(usage, i);
    assert words[0..] == words;
    WrapCover(words, 0, "#", usage[i]);
    var wrapped := Wrap(words, 0, "#");
    var l :| 0 <= l < |wrapped| && usage[i] in wrapped[l];
    broken := wrapped[l];
    assert ([""] + wrapped)[l + 1] == broken;
    WrapLines(words, 0, "#");
    HashLineBroken(broken);
  }

  /** The line stands at `k`. */
  predicate StandsAt(lines: seq<string>, line: string, k: nat) {
    k < |lines| && lines[k] == line
  }

  lemma StandsAppend(a: seq<string>, b: seq<string>, line: string, k: nat)
    ensures StandsAt(a, line, k) ==> StandsAt(a + b, line, k)
    ensures StandsAt(b, line, k) ==> StandsAt(a + b, line, |a| + k)
  {
  }

  lemma GroupGrows(index: map<string, Key>, values: seq<Provisioned>, t: string, dc: Dialect, line: string, j: nat)
    requires values != [] && StandsAt(GroupLines(index, values[..|values| - 1], t, dc), line, j)
    ensures StandsAt(GroupLines(index, values, t, dc), line, j)
  {
    var before := GroupLines(index, values[..|values| - 1], t, dc);
    assert before <= GroupLines(index, values, t, dc);
  }

  lemma GroupEnds(index: map<string, Key>, values: seq<Provisioned>, dc: Dialect, line: string, k: nat) returns (j: nat)
    requires values != [] && StandsAt(EntryLines(index, values[|values| - 1], dc), line, k)
    ensures StandsAt(GroupLines(index, values, TableOf(values[|values| - 1].key), dc), line, j)
  {
    var n := |values| - 1;
    var t := TableOf(values[n].key);
    StandsAppend(GroupLines(index, values[..n], t, dc), EntryLines(index, values[n], dc), line, k);
    j := |GroupLines(index, values[..n], t, dc)| + k;
  }

  /** What a group holds it keeps as values are added. */
  lemma {:induction false} GroupKeeps(index: map<string, Key>, values: seq<Provisioned>, n: nat, t: string, dc: Dialect, line: string, j: nat)
    requires n <= |values| && StandsAt(GroupLines(index, values[..n], t, dc), line, j)
    ensures StandsAt(GroupLines(index, values, t, dc), line, j)
  {
    if n == |values| {
      assert values[..n] == values;
    } else {
      var init := values[..|values| - 1];
      assert init[..n] == values[..n];
      GroupKeeps(index, init, n, t, dc, line, j);
      GroupGrows(index, values, t, dc, line, j);
    }
  }

  lemma {:induction false} SectionsHold(index: map<string, Key>, values: seq<Provisioned>, tables: seq<string>, m: nat, dc: Dialect, line: string, k: nat)
    returns (j: nat)
    requires m < |tables| && StandsAt(GroupLines(index, values, tables[m], dc), line, k)
    ensures StandsAt(SectionLines(index, values, tables, dc), line, j)
  {
    var n := |tables| - 1;
    var before := SectionLines(index, values, tables[..n], dc);
    assert SectionLines(index, values, tables, dc) == before + Section(index, values, tables[n], dc);
    if m < n {
      j := SectionsHold(index, values, tables[..n], m, dc, line, k);
      StandsAppend(before, Section(index, values, tables[n], dc), line, j);
    } else {
      StandsAppend(["", "[" + tables[n] + "]"], GroupLines(index, values, tables[n], dc), line, k);
      StandsAppend(before, Section(index, values, tables[n], dc), line, 2 + k);
      j := |before| + (2 + k);
    }
  }

  lemma Placed(header: seq<string>, top: seq<string>, rest: seq<string>, line: string, k: nat)
    ensures StandsAt(top, line, k) ==> StandsAt(header + top + rest, line, |header| + k)
    ensures StandsAt(rest, line, k) ==> StandsAt(header + top + rest, line, |header| + |top| + k)
  {
  }

  lemma TableAt(values: seq<Provisioned>, i: nat) returns (m: nat)
    requires i < |values| && TableOf(values[i].key) != ""
    ensures m < |TablesFrom(values, 0, [])| && TablesFrom(values, 0, [])[m] == TableOf(values[i].key)
  {
    TablesComplete(values, 0, []);
    m :| m < |TablesFrom(values, 0, [])| && TablesFrom(values, 0, [])[m] == TableOf(values[i].key);
  }

  lemma DocumentHolds(index: map<string, Key>, values: seq<Provisioned>, i: nat, dc: Dialect, line: string, k: nat)
    returns (j: nat)
    requires i < |values| && StandsAt(GroupLines(index, values, TableOf(values[i].key), dc), line, k)
    ensures StandsAt(DocumentLines(index, values, dc), line, j)
  {
    var tables := TablesFrom(values, 0, []);
    var top, rest := GroupLines(index, values, "", dc), SectionLines(index, values, tables, dc);
    if TableOf(values[i].key) == "" {
      Placed(dc.header, top, rest, line, k);
      j := |dc.header| + k;
    } else {
      var m := TableAt(values, i);
      j := SectionsHold(index, values, tables, m, dc, line, k);
      Placed(dc.header, top, rest, line, j);
      j := |dc.header| + |top| + j;
    }
  }

  /** The comment stands in its entry. */
  lemma DirtyEntry(index: map<string, Key>, v: Provisioned, dc: Dialect) returns (broken: string, k: nat)
    requires !CleanUsage(UsageOf(index, v.key))
    ensures StandsAt(EntryLines(index, v, dc), broken, k) && ReadLine(broken).None?
  {
    broken := DirtyComment(UsageOf(index, v.key));
    var comment := CommentLines(UsageOf(index, v.key));
    k :| k < |comment| && comment[k] == broken;
    StandsAppend(comment, [LeafOf(v.key) + " = " + ValueText(v.value, dc)], broken, k);
  }

  lemma DirtyLast(index: map<string, Key>, values: seq<Provisioned>, dc: Dialect) returns (broken: string, j: nat)
    requires values != [] && !CleanUsage(UsageOf(index, values[|values| - 1].key))
    ensures StandsAt(GroupLines(index, values, TableOf(values[|values| - 1].key), dc), broken, j) && ReadLine(broken).None?
  {
    var k;
    broken, k := DirtyEntry(index, values[|values| - 1], dc);
    j := GroupEnds(index, values, dc, broken, k);
  }

  lemma DirtyGroup(index: map<string, Key>, values: seq<Provisioned>, i: nat, dc: Dialect) returns (broken: string, j: nat)
    requires i < |values| && !CleanUsage(UsageOf(index, values[i].key))
    ensures StandsAt(GroupLines(index, values, TableOf(values[i].key), dc), broken, j) && ReadLine(broken).None?
  {
    assert values[..i + 1][i] == values[i];
    broken, j := DirtyLast(index, values[..i + 1], dc);
    GroupKeeps(index, values, i + 1, TableOf(values[i].key), dc, broken, j);
  }

  lemma DirtyDocument(index: map<string, Key>, values: seq<Provisioned>, dc: Dialect)
    requires forall i :: 0 <= i < |values| ==> IsDotted(values[i].key)
    requires !Clean(index, values)
    ensures Unmarshal(Unlines(DocumentLines(index, values, dc))).None?
  {
    var i :| 0 <= i < |values| && !CleanUsage(UsageOf(index, values[i].key));
    var broken, k := DirtyGroup(index, values, i, dc);
    var j := DocumentHolds(index, values, i, dc, broken, k);
    DocumentOneLiners(index, values, dc);
    BrokenText(DocumentLines(index, values, dc), broken, j);
  }

  lemma BrokenText(lines: seq<string>, broken: string, j: nat)
    requires OneLiners(lines) && StandsAt(lines, broken, j) && ReadLine(broken).None?
    ensures Unmarshal(Unlines(lines)).None?
  {
    UnmarshalLines(lines);
    assert broken in lines;
    ReadBroken(Doc("", {}, map[]), lines, broken);
  }

  // ---- the round trip ------------------------------------------------------

  /** A registration with bare key names, none naming another key's table. */
  ghost predicate WellNamed(spec: Spec) {
    && (forall i :: 0 <= i < |spec| ==> IsDotted(spec[i].name))
    && Unnested(NamesTo(spec, |spec|))
  }

  function Given(values: seq<Provisioned>, name: string): Option<Value> {
    if values == [] then None
    else if values[0].key == name then Some(values[0].value)
    else Given(values[1..], name)
  }

  /** What a service should see at a key: the provisioned value, or else the
      key's own default. */
  function Expected(values: seq<Provisioned>, key: Key, dc: Dialect): Option<Value> {
    match Given(values, key.name)
    case Some(v) => Some(v)
    case None => Coerce(key.typ, key.default, dc)
  }

  lemma {:induction false} GivenAt(values: seq<Provisioned>, name: string)
    ensures Given(values, name).None? <==> forall i :: 0 <= i < |values| ==> values[i].key != name
    ensures Given(values, name).Some? ==> exists i :: 0 <= i < |values| && values[i].key == name && Given(values, name) == Some(values[i].value)
  {
    if values != [] && values[0].key != name {
      GivenAt(values[1..], name);
      if Given(values[1..], name).Some? {
        var i :| 0 <= i < |values[1..]| && values[1..][i].key == name && Given(values[1..], name) == Some(values[1..][i].value);
        assert values[i + 1].key == name;
      }
    }
  }

  lemma CoerceRaw(t: Type, v: Value, dc: Dialect)
    requires Inverse(dc) && TypeFits(t, v)
    ensures Coerce(t, Some(RawOf(v, dc)), dc) == Some(v)
  {
  }

  lemma TypedIsExpected(spec: Spec, j: nat, index: map<string, Key>, values: seq<Provisioned>, doc: Doc, dc: Dialect)
    requires j < |spec| && Inverse(dc) && WellNamed(spec)
    requires spec[j].name in index && index[spec[j].name] == spec[j] && Renderable(index, values)
    requires Within(doc, NamesTo(spec, |spec|))
    requires forall i :: 0 <= i < |values| ==>
               values[i].key in doc.values && doc.values[values[i].key] == RawOf(values[i].value, dc)
    requires forall k :: k in doc.values ==> exists i :: 0 <= i < |values| && values[i].key == k
    ensures Typed(doc, spec[j], dc) == Expected(values, spec[j], dc)
  {
    var name, names := spec[j].name, NamesTo(spec, |spec|);
    assert name in names;
    GivenAt(values, name);
    if Given(values, name).Some? {
      var i :| 0 <= i < |values| && values[i].key == name && Given(values, name) == Some(values[i].value);
      CoerceRaw(spec[j].typ, values[i].value, dc);
    } else {
      assert name !in doc.values;
      NoConflict(doc, name, names);
      assert forall p :: p in doc.values.Keys ==> !Under(p, name);
    }
  }

  lemma RenderedDecides(spec: Spec, values: seq<Provisioned>, dc: Dialect)
    ensures Rendered(spec, values, dc).Success? <==>
              Unambiguous(spec, dc.fold) && Indexed(spec, dc.fold).Success? && Renderable(Indexed(spec, dc.fold).value, values)
    ensures Rendered(spec, values, dc).Success? ==>
              Rendered(spec, values, dc).value == Unlines(DocumentLines(Indexed(spec, dc.fold).value, values, dc))
  {
    IndexDecides(spec, dc.fold);
    if Indexed(spec, dc.fold).Success? {
      ProblemsFromDecide(Indexed(spec, dc.fold).value, values, 0, {});
    }
  }

  lemma RenderedIsPrinted(spec: Spec, values: seq<Provisioned>, dc: Dialect)
    requires WellNamed(spec) && Rendered(spec, values, dc).Success?
    ensures Indexed(spec, dc.fold).Success? && DistinctNames(spec) && Renderable(Indexed(spec, dc.fold).value, values)
    ensures forall j :: 0 <= j < |spec| ==> spec[j].name in Indexed(spec, dc.fold).value && Indexed(spec, dc.fold).value[spec[j].name] == spec[j]
    ensures forall i :: 0 <= i < |values| ==> IsDotted(values[i].key)
    ensures Clean(Indexed(spec, dc.fold).value, values) ==> Printed(Indexed(spec, dc.fold).value, values, NamesTo(spec, |spec|))
  {
    RenderedDecides(spec, values, dc);
    IndexDecides(spec, dc.fold);
    forall i | 0 <= i < |values|
      ensures IsDotted(values[i].key) && values[i].key in NamesTo(spec, |spec|)
    {
      assert values[i].key in NamesTo(spec, |spec|);
    }
    forall j | 0 <= j < |spec|
      ensures spec[j].name in Indexed(spec, dc.fold).value
    {
      assert spec[j].name in NamesTo(spec, |spec|);
    }
  }

  /** A rendered document parses exactly when every provisioned key's usage text
      is one a TOML comment can carry. */
  lemma RenderedParses(spec: Spec, values: seq<Provisioned>, dc: Dialect)
    requires WellNamed(spec) && Rendered(spec, values, dc).Success?
    ensures ResolvedBytes(spec, Rendered(spec, values, dc).value, dc) == Failure(DoesNotParse)
            <==> !Clean(Indexed(spec, dc.fold).value, values)
  {
    RenderedDecides(spec, values, dc);
    RenderedIsPrinted(spec, values, dc);
    if !Clean(Indexed(spec, dc.fold).value, values) {
      DirtyDocument(Indexed(spec, dc.fold).value, values, dc);
    } else {
      ReadDocument(Indexed(spec, dc.fold).value, values, dc, NamesTo(spec, |spec|));
      var doc := Unmarshal(Rendered(spec, values, dc).value).value;
      ResolutionNeverDoesNotParse(spec, TypedAll(spec, doc, dc), 0, map[], []);
    }
  }

  lemma {:induction false} ResolutionNeverDoesNotParse(spec: Spec, typed: seq<Option<Value>>, i: nat, values: map<string, Value>, errs: seq<string>)
    requires i <= |spec| == |typed|
    ensures Collect(spec, typed, i, values, errs) != Failure(DoesNotParse)
    decreases |spec| - i
  {
    if i < |spec| {
      if typed[i].Some? {
        ResolutionNeverDoesNotParse(spec, typed, i + 1, values[spec[i].name := typed[i].value], errs);
      } else {
        ResolutionNeverDoesNotParse(spec, typed, i + 1, values, errs + [spec[i].name]);
      }
    }
  }

  /** The renderer's promise. What it wrote resolves, if and only if every
      default the run left alone coerces, to the provisioned values plus those
      defaults, and to nothing else. */
  lemma RenderThenResolve(spec: Spec, values: seq<Provisioned>, dc: Dialect)
    requires Inverse(dc) && WellNamed(spec) && Rendered(spec, values, dc).Success?
    requires Clean(Indexed(spec, dc.fold).value, values)
    ensures var r := ResolvedBytes(spec, Rendered(spec, values, dc).value, dc);
            && (r.Success? <==> forall j :: 0 <= j < |spec| ==> Expected(values, spec[j], dc).Some?)
            && (r.Success? ==>
                  && r.value.Keys == NamesTo(spec, |spec|)
                  && forall j :: 0 <= j < |spec| ==> Expected(values, spec[j], dc) == Some(r.value[spec[j].name]))
  {
    RenderedDecides(spec, values, dc);
    RenderedIsPrinted(spec, values, dc);
    var index, names := Indexed(spec, dc.fold).value, NamesTo(spec, |spec|);
    ReadDocument(index, values, dc, names);
    var doc := Unmarshal(Rendered(spec, values, dc).value).value;
    ResolutionMeaning(spec, doc, dc);
    forall j | 0 <= j < |spec|
      ensures Typed(doc, spec[j], dc) == Expected(values, spec[j], dc)
    {
      TypedIsExpected(spec, j, index, values, doc, dc);
    }
  }

  /** In particular no provisioned value is lost or changed on the way. */
  lemma ProvisionedValuesSurvive(spec: Spec, values: seq<Provisioned>, dc: Dialect, i: nat)
    requires Inverse(dc) && WellNamed(spec) && Rendered(spec, values, dc).Success? && i < |values|
    requires ResolvedBytes(spec, Rendered(spec, values, dc).value, dc).Success?
    ensures var m := ResolvedBytes(spec, Rendered(spec, values, dc).value, dc).value;
            values[i].key in m && m[values[i].key] == values[i].value
  {
    RenderedParses(spec, values, dc);
    RenderThenResolve(spec, values, dc);
    RenderedIsPrinted(spec, values, dc);
    var key := values[i].key;
    assert key in NamesTo(spec, |spec|);
    var j :| 0 <= j < |spec| && spec[j].name == key;
    GivenAt(values, key);
    var k :| 0 <= k < |values| && values[k].key == key && Given(values, key) == Some(values[k].value);
    assert values[if k < i then k else i].key == values[if k < i then i else k].key;
  }
}
