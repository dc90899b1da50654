/** Evaluating If-None-Match (internal/core/etag/etag.go, after sections 8.8.3.2
    and 13.1.2 of RFC 9110). */
module Etag {
  import opened Wrappers
  import opened Text

  const QUOTE: char := '"'

  // ---- one entity-tag ------------------------------------------------------------------

  /** etagc. */
  predicate TagChar(c: char) {
    c == '!' || '\U{23}' <= c <= '~'
  }

  predicate Quoted(v: string) {
    |v| >= 2 && v[0] == QUOTE && v[|v| - 1] == QUOTE && forall i :: 1 <= i < |v| - 1 ==> TagChar(v[i])
  }

  predicate HasWeakMarker(v: string) {
    |v| >= 2 && (v[0] == 'W' || v[0] == 'w') && v[1] == '/'
  }

  /** opaqueTag: the quoted tag, or the empty string for anything else. */
  function OpaqueTag(value: string): (r: string)
    ensures r == "" || Quoted(r)
  {
    var v := TrimSpace(value);
    var w := if HasWeakMarker(v) then v[2..] else v;
    if Quoted(w) then w else ""
  }

  // ---- a list of them --------------------------------------------------------------------

  /** An odd number of quotes. */
  predicate Open(s: string) {
    s != "" && (Open(s[..|s| - 1]) != (s[|s| - 1] == QUOTE))
  }

  /** The pieces between the commas outside quotes, from inside or outside one. */
  function Pieces(s: string, inQuotes: bool): (pieces: seq<string>)
    ensures |pieces| > 0
  {
    if s == "" then [""]
    else if s[0] == ',' && !inQuotes then [""] + Pieces(s[1..], false)
    else
      var rest := Pieces(s[1..], inQuotes != (s[0] == QUOTE));
      [[s[0]] + rest[0]] + rest[1..]
  }

  function SplitTags(header: string): (pieces: seq<string>)
    ensures |pieces| > 0
  {
    if Open(header) then SplitOn(header, ',') else Pieces(header, false)
  }

  predicate Lists(header: string, want: string) {
    exists i :: 0 <= i < |SplitTags(header)| && OpaqueTag(SplitTags(header)[i]) == want
  }

  predicate MatchesTag(ifNoneMatch: string, etag: string) {
    var header, want := TrimSpace(ifNoneMatch), OpaqueTag(etag);
    header != "" && (header == "*" || (want != "" && Lists(header, want)))
  }

  function Cons(c: char, p: seq<string>): seq<string>
    requires |p| > 0
  {
    [[c] + p[0]] + p[1..]
  }

  /** Two runs of pieces joined where they meet. */
  function Weld(p: seq<string>, r: seq<string>): seq<string>
    requires |p| > 0 && |r| > 0
  {
    p[..|p| - 1] + [p[|p| - 1] + r[0]] + r[1..]
  }

  lemma WeldCons(c: char, p: seq<string>, r: seq<string>)
    requires |p| > 0 && |r| > 0
    ensures Weld(Cons(c, p), r) == Cons(c, Weld(p, r))
  {
    if |p| == 1 {
      assert Cons(c, p) == [[c] + p[0]] && Weld(p, r) == [p[0] + r[0]] + r[1..];
      assert [c] + p[0] + r[0] == [c] + (p[0] + r[0]);
    } else {
      assert Cons(c, p)[..|p| - 1] == [[c] + p[0]] + p[1..|p| - 1];
    }
  }

  lemma WeldEmpty(p: seq<string>, r: seq<string>)
    requires |p| > 0 && |r| > 0
    ensures Weld([""], r) == r && Weld([""] + p, r) == [""] + Weld(p, r)
  {
    assert "" + r[0] == r[0];
    assert ([""] + p)[..|p|] == [""] + p[..|p| - 1];
  }

  /** Pieces of a concatenation. */
  lemma {:induction false} PiecesConcat(a: string, b: string, q: bool)
    ensures Pieces(a + b, q) == Weld(Pieces(a, q), Pieces(b, q != Open(a)))
  {
    var r := Pieces(b, q != Open(a));
    if a == "" {
      assert a + b == b;
      WeldEmpty([""], r);
    } else {
      assert (a + b)[1..] == a[1..] + b;
      OpenCons(a);
      var q' := q != (a[0] == QUOTE);
      PiecesConcat(a[1..], b, q');
      if a[0] == ',' && !q {
        WeldEmpty(Pieces(a[1..], false), r);
      } else {
        WeldCons(a[0], Pieces(a[1..], q'), r);
      }
    }
  }

  lemma {:induction false} PiecesSnoc(s: string, c: char, q: bool)
    ensures var p := Pieces(s, q);
            Pieces(s + [c], q) == if c == ',' && q == Open(s) then p + [""] else p[..|p| - 1] + [p[|p| - 1] + [c]]
  {
    PiecesConcat(s, [c], q);
    var p := Pieces(s, q);
    var n := |p| - 1;
    assert [c][1..] == "" && [c] + "" == [c] && p[n] + "" == p[n] && p == p[..n] + [p[n]];
    if c == ',' && q == Open(s) {
      assert Pieces([c], q != Open(s)) == ["", ""];
    } else {
      assert Pieces([c], q != Open(s)) == [[c]];
      assert Weld(p, [[c]]) == p[..n] + [p[n] + [c]];
    }
  }

  lemma {:induction false} OpenCons(s: string)
    requires s != ""
    ensures Open(s) == (Open(s[1..]) != (s[0] == QUOTE))
  {
    if |s| > 1 {
      OpenCons(s[..|s| - 1]);
      assert s[..|s| - 1][1..] == s[1..][..|s| - 2];
    }
  }

  lemma SplitStep(s: string, start: nat, i: nat, tags: seq<string>)
    requires start <= i < |s| && Pieces(s[..i], false) == tags + [s[start..i]]
    ensures Open(s[..i + 1]) == (Open(s[..i]) != (s[i] == QUOTE))
    ensures Pieces(s[..i + 1], false) ==
            if s[i] == ',' && !Open(s[..i]) then tags + [s[start..i]] + [s[i + 1..i + 1]] else tags + [s[start..i + 1]]
  {
    assert s[..i + 1] == s[..i] + [s[i]] && s[..i + 1][..i] == s[..i];
    PiecesSnoc(s[..i], s[i], false);
    var p := tags + [s[start..i]];
    assert p[..|p| - 1] == tags && s[start..i] + [s[i]] == s[start..i + 1] && s[i + 1..i + 1] == "";
  }

  /** splitTags: one pass; a header whose quotes do not pair up is split on
      every comma instead. */
  method Split(header: string) returns (tags: seq<string>)
    ensures tags == SplitTags(header)
  {
    tags := [];
    var start, inQuotes := 0, false;
    for i := 0 to |header|
      invariant 0 <= start <= i && inQuotes == Open(header[..i])
      invariant Pieces(header[..i], false) == tags + [header[start..i]]
    {
      SplitStep(header, start, i, tags);
      if header[i] == QUOTE {
        inQuotes := !inQuotes;
      } else if header[i] == ',' && !inQuotes {
        tags := tags + [header[start..i]];
        start := i + 1;
      }
    }
    assert header[..|header|] == header && header[start..|header|] == header[start..];
    if inQuotes {
      return SplitOn(header, ',');
    }
    tags := tags + [header[start..]];
  }

  /** Matches. */
  method Matches(ifNoneMatch: string, etag: string) returns (matched: bool)
    ensures matched == MatchesTag(ifNoneMatch, etag)
  {
    var header := TrimSpace(ifNoneMatch);
    if header == "" {
      return false;
    }
    if header == "*" {
      return true;
    }
    var want := OpaqueTag(etag);
    if want == "" {
      return false;
    }
    var tags := Split(header);
    for i := 0 to |tags|
      invariant forall j :: 0 <= j < i ==> OpaqueTag(tags[j]) != want
    {
      if OpaqueTag(tags[i]) == want {
        return true;
      }
    }
    matched := false;
  }

  // ---- every header ----------------------------------------------------------------------

  lemma {:induction false} PiecesRejoin(s: string, q: bool)
    ensures Join(Pieces(s, q), ",") == s
  {
    if s != "" {
      if s[0] == ',' && !q {
        PiecesRejoin(s[1..], false);
        assert Pieces(s, q)[1..] == Pieces(s[1..], false);
      } else {
        var rest := Pieces(s[1..], q != (s[0] == QUOTE));
        PiecesRejoin(s[1..], q != (s[0] == QUOTE));
        assert Pieces(s, q)[1..] == rest[1..];
      }
    }
  }

  /** The pieces, rejoined, are the header: splitting loses nothing. */
  lemma SplitRejoins(header: string)
    ensures Join(SplitTags(header), ",") == header
  {
    if Open(header) {
      JoinSplit(header, ',');
    } else {
      PiecesRejoin(header, false);
    }
  }

  ghost predicate Occurs(x: string, s: string) {
    exists i: nat :: OccursAt(x, s, i)
  }

  ghost predicate OccursAt(x: string, s: string, i: nat) {
    i + |x| <= |s| && s[i..i + |x|] == x
  }

  lemma OccursWithin(x: string, s: string, before: string, after: string)
    requires Occurs(x, s)
    ensures Occurs(x, before + s + after)
  {
    var i: nat :| OccursAt(x, s, i);
    var t := before + s + after;
    assert t[|before| + i..|before| + i + |x|] == s[i..i + |x|];
    assert OccursAt(x, t, |before| + i);
  }

  lemma {:induction false} PieceOccurs(x: string, pieces: seq<string>, i: nat)
    requires i < |pieces| && Occurs(x, pieces[i])
    ensures Occurs(x, Join(pieces, ","))
  {
    if |pieces| > 1 {
      var rest := Join(pieces[1..], ",");
      if i == 0 {
        OccursWithin(x, pieces[0], "", "," + rest);
        assert "" + pieces[0] + ("," + rest) == Join(pieces, ",");
      } else {
        PieceOccurs(x, pieces[1..], i - 1);
        OccursWithin(x, rest, pieces[0] + ",", "");
        assert pieces[0] + "," + rest + "" == Join(pieces, ",");
      }
    }
  }

  lemma TrimSplits(s: string) returns (before: string, after: string)
    ensures s == before + TrimSpace(s) + after
  {
    var left := TrimLeft(s);
    TrimLeftIsSuffix(s);
    before, after := s[..|s| - |left|], left[|TrimRight(left)|..];
    assert left == TrimSpace(s) + after;
    assert s == before + left;
  }

  lemma OpaqueOccurs(value: string)
    ensures OpaqueTag(value) != "" ==> Occurs(OpaqueTag(value), value)
  {
    var w := OpaqueTag(value);
    if w != "" {
      var v := TrimSpace(value);
      var before, after := TrimSplits(value);
      assert OccursAt(w, v, |v| - |w|);
      OccursWithin(w, v, before, after);
    }
  }

  /** No header matches by accident: it is the wildcard, or the opaque tag
      itself, quotes and all, occurs in it. */
  lemma MatchMeansPresent(ifNoneMatch: string, etag: string)
    requires MatchesTag(ifNoneMatch, etag)
    ensures TrimSpace(ifNoneMatch) == "*" || (OpaqueTag(etag) != "" && Occurs(OpaqueTag(etag), ifNoneMatch))
  {
    var header, want := TrimSpace(ifNoneMatch), OpaqueTag(etag);
    if header != "*" {
      var pieces := SplitTags(header);
      var i :| 0 <= i < |pieces| && OpaqueTag(pieces[i]) == want;
      OpaqueOccurs(pieces[i]);
      PieceOccurs(want, pieces, i);
      SplitRejoins(header);
      var before, after := TrimSplits(ifNoneMatch);
      OccursWithin(want, header, before, after);
    }
  }

  // ---- a well-formed list --------------------------------------------------------------------

  /** An element of a list as section 5.6.1 of RFC 9110 has recipients read it:
      an entity-tag with optional white space around it, or nothing but that. */
  datatype Element = Blank(space: string) | Tag(before: string, weak: bool, text: string, after: string)

  predicate White(s: string) {
    forall i :: 0 <= i < |s| ==> s[i] == ' ' || s[i] == '\t'
  }

  predicate ValidElement(e: Element) {
    match e
    case Blank(space) => White(space)
    case Tag(before, _, text, after) => White(before) && White(after) && forall i :: 0 <= i < |text| ==> TagChar(text[i])
  }

  function QuotedText(text: string): string {
    [QUOTE] + text + [QUOTE]
  }

  function RenderElement(e: Element): string {
    match e
    case Blank(space) => space
    case Tag(before, weak, text, after) => before + ((if weak then "W/" else "") + QuotedText(text)) + after
  }

  function RenderList(list: seq<Element>): (r: seq<string>)
    ensures |r| == |list| && forall i :: 0 <= i < |list| ==> r[i] == RenderElement(list[i])
  {
    seq(|list|, i requires 0 <= i < |list| => RenderElement(list[i]))
  }

  /** The weak comparison: the opaque tags are the same. */
  predicate WeaklyEqual(e: Element, etag: Element) {
    e.Tag? && etag.Tag? && e.text == etag.text
  }

  lemma {:induction false} OpenConcat(a: string, b: string)
    ensures Open(a + b) == (Open(a) != Open(b))
  {
    if a == "" {
      assert a + b == b;
    } else {
      assert (a + b)[1..] == a[1..] + b;
      OpenCons(a);
      OpenCons(a + b);
      OpenConcat(a[1..], b);
    }
  }

  /** No quote in it, and no comma unless we are inside one already. */
  lemma {:induction false} OnePiece(s: string, q: bool)
    requires forall i :: 0 <= i < |s| ==> s[i] != QUOTE && (q || s[i] != ',')
    ensures Pieces(s, q) == [s] && !Open(s)
  {
    if s != "" {
      OpenCons(s);
      OnePiece(s[1..], q);
      assert [s[0]] + s[1..] == s;
    }
  }

  ghost predicate Whole(s: string) {
    Pieces(s, false) == [s] && !Open(s)
  }

  lemma WholeConcat(a: string, b: string)
    requires Whole(a) && Whole(b)
    ensures Whole(a + b)
  {
    PiecesConcat(a, b, false);
    OpenConcat(a, b);
  }

  lemma QuotedIsWhole(text: string)
    requires forall i :: 0 <= i < |text| ==> TagChar(text[i])
    ensures Whole(QuotedText(text))
  {
    OnePiece(text, true);
    PiecesConcat([QUOTE], text, false);
    OpenConcat([QUOTE], text);
    assert Open([QUOTE]);
    PiecesSnoc([QUOTE] + text, QUOTE, false);
    assert ([QUOTE] + text + [QUOTE])[..|text| + 1] == [QUOTE] + text;
    assert Pieces([QUOTE], false) == [[QUOTE]];
  }

  lemma ElementIsWhole(e: Element)
    requires ValidElement(e)
    ensures Whole(RenderElement(e))
  {
    match e
    case Blank(space) =>
      OnePiece(space, false);
    case Tag(before, weak, text, after) =>
      OnePiece(before, false);
      OnePiece(after, false);
      OnePiece("W/", false);
      OnePiece("", false);
      QuotedIsWhole(text);
      WholeConcat(if weak then "W/" else "", QuotedText(text));
      WholeConcat(before, (if weak then "W/" else "") + QuotedText(text));
      WholeConcat(before + ((if weak then "W/" else "") + QuotedText(text)), after);
  }

  lemma {:induction false} WholeThenRest(a: string, rest: string)
    requires Whole(a)
    ensures Pieces(a + "," + rest, false) == [a] + Pieces(rest, false) && Open(a + "," + rest) == Open(rest)
  {
    var b := "," + rest;
    assert a + "," + rest == a + b && b[1..] == rest;
    PiecesConcat(a, b, false);
    OpenConcat(a, b);
    OpenCons(b);
    assert Pieces(b, false) == [""] + Pieces(rest, false);
    assert a + "" == a;
  }

  /** Commas inside quotes and all, a joined list splits into its elements. */
  lemma {:induction false} SplitsIntoElements(pieces: seq<string>)
    requires |pieces| > 0 && forall i :: 0 <= i < |pieces| ==> Whole(pieces[i])
    ensures Pieces(Join(pieces, ","), false) == pieces && !Open(Join(pieces, ","))
  {
    if |pieces| == 1 {
      assert pieces == [pieces[0]];
    } else {
      SplitsIntoElements(pieces[1..]);
      WholeThenRest(pieces[0], Join(pieces[1..], ","));
    }
  }

  lemma {:induction false} TrimWhite(before: string, v: string, after: string)
    requires White(before) && White(after) && v != "" && !IsSpace(v[0]) && !IsSpace(v[|v| - 1])
    ensures TrimSpace(before + v + after) == v
  {
    var s := before + v + after;
    if before != "" {
      assert s[1..] == before[1..] + v + after;
      TrimWhite(before[1..], v, after);
    } else {
      assert s == v + after && TrimLeft(s) == s;
      TrimWhiteRight(v, after);
    }
  }

  lemma {:induction false} TrimWhiteRight(v: string, after: string)
    requires White(after) && v != "" && !IsSpace(v[|v| - 1])
    ensures TrimRight(v + after) == v
  {
    if after == "" {
      assert v + after == v;
    } else {
      assert (v + after)[..|v + after| - 1] == v + after[..|after| - 1];
      TrimWhiteRight(v, after[..|after| - 1]);
    }
  }

  lemma {:induction false} TrimBlank(s: string)
    requires White(s)
    ensures TrimSpace(s) == ""
  {
    if s != "" {
      TrimBlank(s[1..]);
    }
  }

  lemma OpaqueOfElement(e: Element)
    requires ValidElement(e)
    ensures OpaqueTag(RenderElement(e)) == if e.Tag? then QuotedText(e.text) else ""
  {
    match e
    case Blank(space) =>
      TrimBlank(space);
    case Tag(before, weak, text, after) =>
      var v := (if weak then "W/" else "") + QuotedText(text);
      assert Quoted(QuotedText(text));
      assert v[|v| - 1] == QUOTE;
      TrimWhite(before, v, after);
      if weak {
        assert v[2..] == QuotedText(text);
      }
  }

  lemma QuotedTextInjective(a: string, b: string)
    ensures QuotedText(a) == QuotedText(b) <==> a == b
  {
    assert QuotedText(a)[1..|a| + 1] == a && QuotedText(b)[1..|b| + 1] == b;
    assert |QuotedText(a)| == |a| + 2 && |QuotedText(b)| == |b| + 2;
  }

  // ---- trimming the whole header changes nothing ------------------------------------------------

  lemma TrimCons(c: char, s: string)
    requires IsSpace(c)
    ensures TrimSpace([c] + s) == TrimSpace(s)
  {
    assert ([c] + s)[1..] == s;
  }

  lemma {:induction false} TrimSnoc(s: string, c: char)
    requires IsSpace(c)
    ensures TrimSpace(s + [c]) == TrimSpace(s)
  {
    if s != "" && IsSpace(s[0]) {
      assert (s + [c])[1..] == s[1..] + [c];
      TrimSnoc(s[1..], c);
    } else if s == "" {
      assert s + [c] == [c] && [c][1..] == "";
    } else {
      assert TrimLeft(s + [c]) == s + [c] && (s + [c])[..|s|] == s;
    }
  }

  /** What a balanced header lists. */
  predicate PiecesList(s: string, want: string) {
    exists i :: 0 <= i < |Pieces(s, false)| && OpaqueTag(Pieces(s, false)[i]) == want
  }

  lemma DropFirstSpace(c: char, s: string, want: string)
    requires IsSpace(c)
    ensures PiecesList([c] + s, want) <==> PiecesList(s, want)
    ensures Open([c] + s) == Open(s)
  {
    var p, r := Pieces([c] + s, false), Pieces(s, false);
    assert ([c] + s)[1..] == s;
    OpenCons([c] + s);
    assert p == [[c] + r[0]] + r[1..];
    TrimCons(c, r[0]);
    assert forall i :: 0 <= i < |r| ==> OpaqueTag(p[i]) == OpaqueTag(r[i]);
  }

  lemma DropLastSpace(s: string, c: char, want: string)
    requires IsSpace(c)
    ensures PiecesList(s + [c], want) <==> PiecesList(s, want)
    ensures Open(s + [c]) == Open(s)
  {
    var r := Pieces(s, false);
    var p := r[..|r| - 1] + [r[|r| - 1] + [c]];
    PiecesSnoc(s, c, false);
    assert (s + [c])[..|s|] == s;
    TrimSnoc(r[|r| - 1], c);
    SameTags(p, r, want);
  }

  lemma SameTags(p: seq<string>, r: seq<string>, want: string)
    requires |p| == |r| > 0 && p[..|p| - 1] == r[..|r| - 1] && TrimSpace(p[|p| - 1]) == TrimSpace(r[|r| - 1])
    ensures (exists i :: 0 <= i < |p| && OpaqueTag(p[i]) == want) <==> exists i :: 0 <= i < |r| && OpaqueTag(r[i]) == want
  {
    forall i | 0 <= i < |p|
      ensures OpaqueTag(p[i]) == OpaqueTag(r[i])
    {
      if i < |p| - 1 {
        assert p[i] == p[..|p| - 1][i] == r[..|r| - 1][i];
      }
    }
  }

  lemma {:induction false} TrimLeftKeeps(s: string, want: string)
    ensures PiecesList(TrimLeft(s), want) <==> PiecesList(s, want)
    ensures Open(TrimLeft(s)) == Open(s)
  {
    if s != "" && IsSpace(s[0]) {
      DropFirstSpace(s[0], s[1..], want);
      assert [s[0]] + s[1..] == s;
      TrimLeftKeeps(s[1..], want);
    }
  }

  lemma {:induction false} TrimRightKeeps(s: string, want: string)
    ensures PiecesList(TrimRight(s), want) <==> PiecesList(s, want)
    ensures Open(TrimRight(s)) == Open(s)
  {
    if s != "" && IsSpace(s[|s| - 1]) {
      var init := s[..|s| - 1];
      DropLastSpace(init, s[|s| - 1], want);
      assert init + [s[|s| - 1]] == s;
      TrimRightKeeps(init, want);
    }
  }

  ghost predicate ListsTag(list: seq<Element>, text: string) {
    exists i :: 0 <= i < |list| && list[i].Tag? && list[i].text == text
  }

  lemma TrimmedLists(list: seq<Element>, text: string)
    requires |list| > 0 && forall i :: 0 <= i < |list| ==> ValidElement(list[i])
    ensures var header := TrimSpace(Join(RenderList(list), ","));
            !Open(header) && (PiecesList(header, QuotedText(text)) <==> ListsTag(list, text))
  {
    var pieces := RenderList(list);
    var raw := Join(pieces, ",");
    forall i | 0 <= i < |list|
      ensures Whole(pieces[i])
      ensures OpaqueTag(pieces[i]) == QuotedText(text) <==> list[i].Tag? && list[i].text == text
    {
      ElementIsWhole(list[i]);
      OpaqueOfElement(list[i]);
      if list[i].Tag? {
        QuotedTextInjective(list[i].text, text);
      }
    }
    SplitsIntoElements(pieces);
    TrimLeftKeeps(raw, QuotedText(text));
    TrimRightKeeps(TrimLeft(raw), QuotedText(text));
  }

  lemma {:induction false} BlanksHoldNoStar(list: seq<Element>)
    requires |list| > 0 && forall i :: 0 <= i < |list| ==> list[i].Blank? && ValidElement(list[i])
    ensures forall c :: c in Join(RenderList(list), ",") ==> c != '*'
  {
    var pieces := RenderList(list);
    if |list| > 1 {
      BlanksHoldNoStar(list[1..]);
      assert pieces[1..] == RenderList(list[1..]);
    }
    assert forall c :: c in pieces[0] ==> c != '*';
  }

  /** A list that is empty or a lone star once trimmed holds no tag, and none is
      a lone star. */
  lemma NoStray(list: seq<Element>, text: string)
    requires |list| > 0 && forall i :: 0 <= i < |list| ==> ValidElement(list[i])
    ensures var header := TrimSpace(Join(RenderList(list), ","));
            header != "*" && (header == "" ==> !ListsTag(list, text))
  {
    var raw := Join(RenderList(list), ",");
    var header := TrimSpace(raw);
    TrimmedLists(list, text);
    if header == "*" {
      forall i | 0 <= i < |list|
        ensures list[i].Blank?
      {
        if list[i].Tag? {
          TrimmedLists(list, list[i].text);
          assert ListsTag(list, list[i].text);
          StarIsNoTag(QuotedText(list[i].text));
        }
      }
      StarStays(raw);
      BlanksHoldNoStar(list);
    }
  }

  lemma StarStays(raw: string)
    requires TrimSpace(raw) == "*"
    ensures '*' in raw
  {
    var before, after := TrimSplits(raw);
    assert raw[|before|] == '*';
  }

  lemma StarIsNoTag(want: string)
    requires want != ""
    ensures !PiecesList("*", want) && !PiecesList("", want)
  {
    OnePiece("*", false);
    assert TrimSpace("*") == "*" && TrimSpace("") == "";
  }

  /** For every header that is a list of entity-tags, commas inside quotes
      included, If-None-Match is met exactly when a listed tag is weakly equal to
      the one at hand. */
  lemma ListMatchesIff(list: seq<Element>, etag: Element)
    requires |list| > 0 && ValidElement(etag) && etag.Tag? && forall i :: 0 <= i < |list| ==> ValidElement(list[i])
    ensures MatchesTag(Join(RenderList(list), ","), RenderElement(etag)) <==>
              exists i :: 0 <= i < |list| && WeaklyEqual(list[i], etag)
  {
    OpaqueOfElement(etag);
    TrimmedLists(list, etag.text);
    NoStray(list, etag.text);
    ListsIsPieces(TrimSpace(Join(RenderList(list), ",")), QuotedText(etag.text));
    ListsTagMeans(list, etag);
  }

  lemma ListsIsPieces(header: string, want: string)
    requires !Open(header)
    ensures Lists(header, want) <==> PiecesList(header, want)
  {
    var tags := SplitTags(header);
    assert tags == Pieces(header, false);
    assert Lists(header, want) <==> exists i :: 0 <= i < |tags| && OpaqueTag(tags[i]) == want;
  }

  lemma ListsTagMeans(list: seq<Element>, etag: Element)
    requires etag.Tag?
    ensures ListsTag(list, etag.text) <==> exists i :: 0 <= i < |list| && WeaklyEqual(list[i], etag)
  {
    if ListsTag(list, etag.text) {
      var i :| 0 <= i < |list| && list[i].Tag? && list[i].text == etag.text;
      assert WeaklyEqual(list[i], etag);
    }
  }
}
