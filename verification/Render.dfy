/** The config printer and the resolution of what it printed
    (internal/core/config/render.go, with resolve and defaults of loader.go). */
module Render {
  import opened Wrappers
  import opened Text
  import opened ConfigKey
  import opened Toml
  import Strconv

  datatype Provisioned = Provisioned(key: string, value: Value)

  const COMMENT_WIDTH: nat := 76

  // ---- keys and tables -----------------------------------------------------

  function LastDot(key: string): (i: int)
    ensures -1 <= i < |key|
    ensures i >= 0 ==> key[i] == '.'
    ensures forall j :: i < j < |key| ==> key[j] != '.'
  {
    if key == "" then -1
    else if key[|key| - 1] == '.' then |key| - 1
    else LastDot(key[..|key| - 1])
  }

  function TableOf(key: string): string {
    var i := LastDot(key);
    if i < 0 then "" else key[..i]
  }

  function LeafOf(key: string): string {
    key[LastDot(key) + 1..]
  }

  function TablesFrom(values: seq<Provisioned>, i: nat, out: seq<string>): seq<string>
    requires i <= |values|
    decreases |values| - i
  {
    if i == |values| then out
    else
      var t := TableOf(values[i].key);
      TablesFrom(values, i + 1, if t != "" && t !in out then out + [t] else out)
  }

  /** tablesOf: the tables the values need, in first-seen order. */
  method TablesOf(values: seq<Provisioned>) returns (out: seq<string>)
    ensures out == TablesFrom(values, 0, [])
  {
    out := [];
    for i := 0 to |values|
      invariant TablesFrom(values, 0, []) == TablesFrom(values, i, out)
    {
      var t := TableOf(values[i].key);
      if t != "" && t !in out {
        out := out + [t];
      }
    }
  }

  ghost predicate NeedsTable(values: seq<Provisioned>, t: string) {
    t != "" && exists j :: 0 <= j < |values| && TableOf(values[j].key) == t
  }

  lemma {:induction false} TablesComplete(values: seq<Provisioned>, i: nat, out: seq<string>)
    requires i <= |values|
    requires forall k, l :: 0 <= k < l < |out| ==> out[k] != out[l]
    requires forall k :: 0 <= k < |out| ==> NeedsTable(values, out[k])
    requires forall j :: 0 <= j < i ==> TableOf(values[j].key) == "" || TableOf(values[j].key) in out
    ensures var ts := TablesFrom(values, i, out);
            && (forall k, l :: 0 <= k < l < |ts| ==> ts[k] != ts[l])
            && (forall k :: 0 <= k < |ts| ==> NeedsTable(values, ts[k]))
            && (forall j :: 0 <= j < |values| ==> TableOf(values[j].key) == "" || TableOf(values[j].key) in ts)
    decreases |values| - i
  {
    if i < |values| {
      var t := TableOf(values[i].key);
      if t != "" && t !in out {
        assert NeedsTable(values, t);
        TablesComplete(values, i + 1, out + [t]);
      } else {
        TablesComplete(values, i + 1, out);
      }
    }
  }

  // ---- values --------------------------------------------------------------

  /** isControl: what tomlString escapes. Tab is included. */
  predicate IsControl(c: char) {
    c < '\U{20}' || '\U{7F}' <= c <= '\U{9F}'
  }

  function Escape(c: char): string {
    match c
    case '"' => "\\\""
    case '\\' => "\\\\"
    case '\U{08}' => "\\b"
    case '\t' => "\\t"
    case '\n' => "\\n"
    case '\U{0C}' => "\\f"
    case '\r' => "\\r"
    case _ => if IsControl(c) then "\\u" + Hex4(c as int) else [c]
  }

  function EscapeAll(v: string): string {
    if v == "" then "" else Escape(v[0]) + EscapeAll(v[1..])
  }

  predicate IsLiteral(v: string) {
    forall i :: 0 <= i < |v| ==> v[i] != '\'' && !IsControl(v[i])
  }

  function TomlText(v: string): string {
    if IsLiteral(v) then "'" + v + "'" else "\"" + EscapeAll(v) + "\""
  }

  lemma {:induction false} EscapeSnoc(v: string, c: char)
    ensures EscapeAll(v + [c]) == EscapeAll(v) + Escape(c)
  {
    if v == "" {
      assert ("" + [c])[1..] == "";
    } else {
      assert (v + [c])[1..] == v[1..] + [c];
      EscapeSnoc(v[1..], c);
    }
  }

  /** tomlString: a literal string wherever one can carry the value, else a
      basic string with TOML's escapes. */
  method TomlString(v: string) returns (b: string)
    ensures b == TomlText(v)
  {
    if IsLiteral(v) {
      return "'" + v + "'";
    }
    b := "\"";
    for i := 0 to |v|
      invariant b == "\"" + EscapeAll(v[..i])
    {
      b := b + Escape(v[i]);
      EscapeSnoc(v[..i], v[i]);
      assert v[..i + 1] == v[..i] + [v[i]];
    }
    assert v[..|v|] == v;
    b := b + "\"";
  }

  /** renderValue of a value whose Go type is the key's. */
  function ValueText(v: Value, dc: Dialect): string {
    match v
    case Str(s) => TomlText(s)
    case Int(n) => Strconv.Itoa(n)
    case Bool(b) => if b then "true" else "false"
    case Dur(ns) => TomlText(dc.format(ns))
  }

  /** What reading that text back yields: a duration comes back as a string. */
  function RawOf(v: Value, dc: Dialect): Value {
    if v.Dur? then Str(dc.format(v.ns)) else v
  }

  function ProblemsFrom(index: map<string, Key>, values: seq<Provisioned>, i: nat, seen: set<string>): seq<Problem>
    requires i <= |values|
    decreases |values| - i
  {
    if i == |values| then []
    else
      var key := values[i].key;
      if key !in index then [Unregistered(key)] + ProblemsFrom(index, values, i + 1, seen)
      else if key in seen then [ProvidedTwice(key)] + ProblemsFrom(index, values, i + 1, seen)
      else
        (if TypeFits(index[key].typ, values[i].value) then [] else [WrongType(key)])
        + ProblemsFrom(index, values, i + 1, seen + {key})
  }

  /** checkProvisioned: every value that could not be written, all at once. */
  method CheckProvisioned(index: map<string, Key>, values: seq<Provisioned>) returns (errs: seq<Problem>)
    ensures errs == ProblemsFrom(index, values, 0, {})
  {
    errs := [];
    var seen: set<string> := {};
    for i := 0 to |values|
      invariant errs + ProblemsFrom(index, values, i, seen) == ProblemsFrom(index, values, 0, {})
    {
      var key := values[i].key;
      var problem: seq<Problem> := [];
      ghost var before := ProblemsFrom(index, values, i, seen);
      if key !in index {
        problem := [Unregistered(key)];
      } else if key in seen {
        problem := [ProvidedTwice(key)];
      } else {
        seen := seen + {key};
        if !TypeFits(index[key].typ, values[i].value) {
          problem := [WrongType(key)];
        }
      }
      assert before == problem + ProblemsFrom(index, values, i + 1, seen);
      Associate(errs, problem, ProblemsFrom(index, values, i + 1, seen));
      errs := errs + problem;
    }
  }

  /** Every value is registered, of its key's type, and given once. */
  ghost predicate Renderable(index: map<string, Key>, values: seq<Provisioned>) {
    && (forall i :: 0 <= i < |values| ==> values[i].key in index && TypeFits(index[values[i].key].typ, values[i].value))
    && (forall i, j :: 0 <= i < j < |values| ==> values[i].key != values[j].key)
  }

  lemma {:induction false} ProblemsFromDecide(index: map<string, Key>, values: seq<Provisioned>, i: nat, seen: set<string>)
    requires i <= |values|
    requires forall k :: k in seen <==> exists j :: 0 <= j < i && values[j].key == k
    requires Renderable(index, values[..i])
    ensures ProblemsFrom(index, values, i, seen) == [] <==> Renderable(index, values)
    decreases |values| - i
  {
    if i == |values| {
      assert values[..i] == values;
    } else {
      var key := values[i].key;
      if key in index && key !in seen && TypeFits(index[key].typ, values[i].value) {
        assert values[..i + 1] == values[..i] + [values[i]];
        forall j | 0 <= j < i
          ensures values[j].key != key
        {
          assert values[j].key in seen;
        }
        ProblemsFromDecide(index, values, i + 1, seen + {key});
      } else if key in seen {
        var j :| 0 <= j < i && values[j].key == key;
      }
    }
  }

  // ---- comments ------------------------------------------------------------

  function ByteLen(s: string): nat {
    if s == "" then 0
    else
      (if s[0] < '\U{80}' then 1 else if s[0] < '\U{800}' then 2 else if s[0] < '\U{10000}' then 3 else 4)
      + ByteLen(s[1..])
  }

  /** The comment's lines from word `i` on, `line` being the one under way. */
  function Wrap(words: seq<string>, i: nat, line: string): seq<string>
    requires i <= |words|
    decreases |words| - i
  {
    if i == |words| then [line]
    else if ByteLen(line) + 1 + ByteLen(words[i]) > COMMENT_WIDTH && line != "#" then
      [line] + Wrap(words, i + 1, "#" + " " + words[i])
    else Wrap(words, i + 1, line + " " + words[i])
  }

  function CommentLines(usage: string): seq<string> {
    if usage == "" then [""] else [""] + Wrap(Fields(usage), 0, "#")
  }

  lemma WrapBreak(lines: seq<string>, words: seq<string>, i: nat, line: string)
    requires i < |words| && line != "#" && ByteLen(line) + 1 + ByteLen(words[i]) > COMMENT_WIDTH
    ensures lines + Wrap(words, i, line) == lines + [line] + Wrap(words, i + 1, "#" + " " + words[i])
  {
  }

  method Comment(usage: string) returns (b: string)
    ensures b == Unlines(CommentLines(usage))
  {
    ghost var lines := [""];
    b := "\n";
    if usage == "" {
      return;
    }
    var line := "#";
    var words := Fields(usage);
    for i := 0 to |words|
      invariant b == Unlines(lines) && CommentLines(usage) == lines + Wrap(words, i, line)
    {
      if ByteLen(line) + 1 + ByteLen(words[i]) > COMMENT_WIDTH && line != "#" {
        UnlinesSnoc(lines, line);
        WrapBreak(lines, words, i, line);
        lines := lines + [line];
        b := b + line + "\n";
        line := "#";
      }
      line := line + " " + words[i];
    }
    UnlinesSnoc(lines, line);
    b := b + line + "\n";
  }

  // ---- the document --------------------------------------------------------

  /** What a lookup in the index yields: the zero Key for a name it lacks. */
  function UsageOf(index: map<string, Key>, key: string): string {
    if key in index then index[key].usage else ""
  }

  function EntryLines(index: map<string, Key>, v: Provisioned, dc: Dialect): seq<string> {
    CommentLines(UsageOf(index, v.key)) + [LeafOf(v.key) + " = " + ValueText(v.value, dc)]
  }

  function GroupLines(index: map<string, Key>, values: seq<Provisioned>, table: string, dc: Dialect): seq<string> {
    if values == [] then []
    else
      var v := values[|values| - 1];
      GroupLines(index, values[..|values| - 1], table, dc) + if TableOf(v.key) == table then EntryLines(index, v, dc) else []
  }

  function SectionLines(index: map<string, Key>, values: seq<Provisioned>, tables: seq<string>, dc: Dialect): seq<string> {
    if tables == [] then []
    else
      SectionLines(index, values, tables[..|tables| - 1], dc)
      + (["", "[" + tables[|tables| - 1] + "]"] + GroupLines(index, values, tables[|tables| - 1], dc))
  }

  function DocumentLines(index: map<string, Key>, values: seq<Provisioned>, dc: Dialect): seq<string> {
    dc.header + GroupLines(index, values, "", dc) + SectionLines(index, values, TablesFrom(values, 0, []), dc)
  }

  lemma EntryText(lines: seq<string>, index: map<string, Key>, v: Provisioned, dc: Dialect)
    ensures Unlines(lines + EntryLines(index, v, dc)) ==
            Unlines(lines) + Unlines(CommentLines(UsageOf(index, v.key))) + (LeafOf(v.key) + " = " + ValueText(v.value, dc)) + "\n"
  {
    var comment := CommentLines(UsageOf(index, v.key));
    var entry := LeafOf(v.key) + " = " + ValueText(v.value, dc);
    UnlinesAppend(lines, comment);
    UnlinesSnoc(lines + comment, entry);
    assert lines + (comment + [entry]) == lines + comment + [entry];
  }

  /** renderGroup, for values checkProvisioned has passed. */
  method RenderGroup(b: string, ghost before: seq<string>, index: map<string, Key>,
                     values: seq<Provisioned>, table: string, dc: Dialect)
    returns (b': string)
    requires b == Unlines(before)
    ensures b' == Unlines(before + GroupLines(index, values, table, dc))
  {
    b' := b;
    GroupStart(before, index, values, table, dc);
    for i := 0 to |values|
      invariant b' == Unlines(before + GroupLines(index, values[..i], table, dc))
    {
      var v := values[i];
      GroupSnoc(before, index, values, i, table, dc);
      if TableOf(v.key) == table {
        EntryText(before + GroupLines(index, values[..i], table, dc), index, v, dc);
        var comment := Comment(UsageOf(index, v.key));
        b' := b' + comment + (LeafOf(v.key) + " = " + ValueText(v.value, dc)) + "\n";
      }
    }
    assert values[..|values|] == values;
  }

  lemma GroupStart(before: seq<string>, index: map<string, Key>, values: seq<Provisioned>, table: string, dc: Dialect)
    ensures before + GroupLines(index, values[..0], table, dc) == before
  {
  }

  lemma GroupSnoc(before: seq<string>, index: map<string, Key>, values: seq<Provisioned>, i: nat, table: string, dc: Dialect)
    requires i < |values|
    ensures TableOf(values[i].key) == table ==>
              before + GroupLines(index, values[..i + 1], table, dc) ==
              before + GroupLines(index, values[..i], table, dc) + EntryLines(index, values[i], dc)
    ensures TableOf(values[i].key) != table ==>
              before + GroupLines(index, values[..i + 1], table, dc) == before + GroupLines(index, values[..i], table, dc)
  {
    GroupLast(index, values[..i + 1], table, dc);
    assert values[..i + 1][..i] == values[..i];
    Associate(before, GroupLines(index, values[..i], table, dc), EntryLines(index, values[i], dc));
  }

  lemma GroupLast(index: map<string, Key>, values: seq<Provisioned>, table: string, dc: Dialect)
    requires values != []
    ensures var v, earlier := values[|values| - 1], GroupLines(index, values[..|values| - 1], table, dc);
            GroupLines(index, values, table, dc) == if TableOf(v.key) == table then earlier + EntryLines(index, v, dc) else earlier
  {
  }

  function Rendered(spec: Spec, values: seq<Provisioned>, dc: Dialect): Result<string, ConfigError> {
    var index :- Indexed(spec, dc.fold);
    var problems := ProblemsFrom(index, values, 0, {});
    if problems != [] then Failure(CannotRender(problems))
    else Success(Unlines(DocumentLines(index, values, dc)))
  }

  lemma HeadingText(lines: seq<string>, t: string)
    ensures Unlines(lines + ["", "[" + t + "]"]) == Unlines(lines) + ("\n" + "[" + t + "]" + "\n")
  {
    UnlinesSnoc(lines, "");
    UnlinesSnoc(lines + [""], "[" + t + "]");
    assert lines + ["", "[" + t + "]"] == lines + [""] + ["[" + t + "]"];
  }

  method RenderConfig(spec: Spec, values: seq<Provisioned>, dc: Dialect) returns (r: Result<string, ConfigError>)
    ensures r == Rendered(spec, values, dc)
  {
    var index :- Index(spec, dc.fold);
    var errs := CheckProvisioned(index, values);
    if errs != [] {
      return Failure(CannotRender(errs));
    }
    var b := Unlines(dc.header);
    b := RenderGroup(b, dc.header, index, values, "", dc);
    ghost var top := dc.header + GroupLines(index, values, "", dc);
    assert top + [] == top;
    var tables := TablesOf(values);
    for i := 0 to |tables|
      invariant b == Unlines(top + SectionLines(index, values, tables[..i], dc))
    {
      var t := tables[i];
      ghost var lines := top + SectionLines(index, values, tables[..i], dc);
      HeadingText(lines, t);
      b := b + ("\n" + "[" + t + "]" + "\n");
      b := RenderGroup(b, lines + ["", "[" + t + "]"], index, values, t, dc);
      SectionSnoc(top, index, values, tables, i, dc);
    }
    assert tables[..|tables|] == tables;
    r := Success(b);
  }

  lemma SectionSnoc(top: seq<string>, index: map<string, Key>, values: seq<Provisioned>, tables: seq<string>, i: nat, dc: Dialect)
    requires i < |tables|
    ensures top + SectionLines(index, values, tables[..i + 1], dc) ==
            top + SectionLines(index, values, tables[..i], dc) + ["", "[" + tables[i] + "]"] + GroupLines(index, values, tables[i], dc)
  {
    assert tables[..i + 1][..i] == tables[..i];
  }
}
