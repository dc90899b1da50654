/** The buffering writer behind conditional reads (internal/core/etag/handler.go),
    against what the same handler would have sent without it. */
module Conditional {
  import opened Wrappers
  import Etag

  const MAX_TAGGED_BYTES: nat := 4194304

  // ---- the real writer -------------------------------------------------------------------

  /** What net/http has sent: informational statuses, the final one with the tag
      the headers held at that moment, and the body. */
  datatype Wire = Wire(head: bool, header: Option<string>, interim: seq<nat>, status: Option<nat>, tag: Option<string>, body: string)

  predicate Informational(code: nat) {
    100 <= code <= 199 && code != 101
  }

  predicate Bodyless(w: Wire, code: nat) {
    w.head || 100 <= code <= 199 || code == 204 || code == 304
  }

  function SendStatus(w: Wire, code: nat): Wire {
    if w.status.Some? then w
    else if Informational(code) then w.(interim := w.interim + [code])
    else w.(status := Some(code), tag := w.header)
  }

  function SendBody(w: Wire, bytes: string): Wire {
    var v := SendStatus(w, 200);
    if Bodyless(v, v.status.value) then v else v.(body := v.body + bytes)
  }

  lemma FirstBody(w: Wire, bytes: string)
    ensures w.body == "" ==> SendBody(w, bytes).body == if Bodyless(w, SendStatus(w, 200).status.value) then "" else bytes
  {
    assert "" + bytes == bytes;
  }

  /** The server completes a response its handler never began. */
  function Completed(w: Wire): Wire {
    SendStatus(w, 200)
  }

  // ---- a handler ---------------------------------------------------------------------------

  /** Everything a handler does to its writer: header changes go straight through. */
  datatype Op = Header(tag: Option<string>) | Status(code: nat) | Body(bytes: string)

  function Sent(w: Wire, ops: seq<Op>): Wire {
    var n := |ops|;
    if n == 0 then w
    else
      var before := Sent(w, ops[..n - 1]);
      match ops[n - 1]
      case Header(tag) => before.(header := tag)
      case Status(code) => SendStatus(before, code)
      case Body(bytes) => SendBody(before, bytes)
  }

  function BytesOf(ops: seq<Op>): string {
    var n := |ops|;
    if n == 0 then "" else BytesOf(ops[..n - 1]) + if ops[n - 1].Body? then ops[n - 1].bytes else ""
  }

  /** The status the handler began with: 200 when it wrote a body first. */
  function FirstStatus(ops: seq<Op>): Option<nat> {
    var n := |ops|;
    if n == 0 then None
    else
      var before := FirstStatus(ops[..n - 1]);
      if before.Some? then before
      else
        match ops[n - 1]
        case Header(_) => None
        case Status(code) => Some(code)
        case Body(_) => Some(200)
  }

  /** The first status that is not informational; a body before any makes it 200. */
  function FinalStatus(ops: seq<Op>): Option<nat> {
    var n := |ops|;
    if n == 0 then None
    else
      var before := FinalStatus(ops[..n - 1]);
      if before.Some? then before
      else
        match ops[n - 1]
        case Header(_) => None
        case Status(code) => if Informational(code) then None else Some(code)
        case Body(_) => Some(200)
  }

  /** The informational statuses before it. */
  function Interims(ops: seq<Op>): seq<nat> {
    var n := |ops|;
    if n == 0 then []
    else if FinalStatus(ops[..n - 1]).None? && ops[n - 1].Status? && Informational(ops[n - 1].code) then
      Interims(ops[..n - 1]) + [ops[n - 1].code]
    else Interims(ops[..n - 1])
  }

  /** Nothing has been sent. */
  predicate Untouched(w: Wire) {
    w.status.None? && w.interim == [] && w.body == "" && w.tag.None?
  }

  /** What a handler's writes come to: its informational statuses, its final one,
      and every byte unless that one or the method carries none. */
  lemma {:induction false} SentMeans(w: Wire, ops: seq<Op>)
    requires Untouched(w)
    ensures var direct := Sent(w, ops);
            && direct.head == w.head && direct.status == FinalStatus(ops) && direct.interim == Interims(ops)
            && (FinalStatus(ops).None? ==> BytesOf(ops) == "")
            && direct.body == if FinalStatus(ops).Some? && !Bodyless(w, FinalStatus(ops).value) then BytesOf(ops) else ""
  {
    if ops != [] {
      var n := |ops| - 1;
      SentMeans(w, ops[..n]);
      if ops[n].Body? {
        FirstBody(Sent(w, ops[..n]), ops[n].bytes);
        assert "" + ops[n].bytes == ops[n].bytes;
      }
    }
  }

  /** The tag in the headers when the running size of the body first passed the
      limit: the handler's own, if it had set one. */
  function TagAtOverflow(w: Wire, ops: seq<Op>): Option<string> {
    var n := |ops|;
    if n == 0 then None
    else if |BytesOf(ops[..n - 1])| > MAX_TAGGED_BYTES then TagAtOverflow(w, ops[..n - 1])
    else Sent(w, ops[..n - 1]).header
  }

  lemma {:induction false} Snoc(w: Wire, ops: seq<Op>, op: Op)
    ensures var all, before := ops + [op], Sent(w, ops);
            && Sent(w, all) == (match op
                                case Header(tag) => before.(header := tag)
                                case Status(code) => SendStatus(before, code)
                                case Body(bytes) => SendBody(before, bytes))
            && BytesOf(all) == BytesOf(ops) + (if op.Body? then op.bytes else "")
            && (|BytesOf(ops)| > MAX_TAGGED_BYTES ==> TagAtOverflow(w, all) == TagAtOverflow(w, ops))
            && (|BytesOf(ops)| <= MAX_TAGGED_BYTES ==> TagAtOverflow(w, all) == before.header)
            && FirstStatus(all) == (if FirstStatus(ops).Some? || op.Header? then FirstStatus(ops)
                                    else if op.Status? then Some(op.code) else Some(200))
  {
    assert (ops + [op])[..|ops|] == ops;
  }

  /** What a response is to the client, its tag apart. */
  predicate SameButTag(a: Wire, b: Wire) {
    a.interim == b.interim && a.status == b.status && a.body == b.body
  }

  // ---- the wrapper -------------------------------------------------------------------------

  /** Buffering has left the real writer alone, which by now would have sent this. */
  ghost predicate Buffers(w: Wire, ops: seq<Op>, wrote: bool, status: nat, body: string) {
    var direct := Sent(w, ops);
    && body == BytesOf(ops)
    && (!wrote ==> direct == w.(header := direct.header) && body == "")
    && (wrote && !Informational(status) ==>
          && direct.status == Some(status) && direct.interim == []
          && direct.body == if Bodyless(direct, status) then "" else body)
  }

  /** Streaming has made the real writer what it would have been, but for the tag. */
  ghost predicate Streams(w: Wire, ops: seq<Op>, status: nat, wire: Wire) {
    && wire.status.Some? && wire.tag == TagAtOverflow(w, ops)
    && if Informational(status) then
         wire.status == Some(200) && wire.interim == [status] && wire.body == if wire.head then "" else BytesOf(ops)
       else wire == Sent(w, ops).(tag := wire.tag) && wire.status == Some(status)
  }

  /** The switch: the status, the buffer, then the bytes that did not fit. */
  lemma Switches(w: Wire, ops: seq<Op>, wrote: bool, status: nat, body: string, wire: Wire, bytes: string)
    requires Untouched(w)
    requires Buffers(w, ops, wrote, status, body) && wire == w.(header := wire.header) && wire.header == Sent(w, ops).header
    requires |body| <= MAX_TAGGED_BYTES && (!wrote ==> status == 200) && Sent(w, ops).head == w.head
    ensures Streams(w, ops + [Body(bytes)], status, SendBody(SendBody(SendStatus(wire, status), body), bytes))
  {
    Snoc(w, ops, Body(bytes));
    FirstBody(SendStatus(wire, status), body);
    FirstBody(Sent(w, ops), bytes);
  }

  /** A write that fits. */
  lemma StillBuffers(w: Wire, ops: seq<Op>, wrote: bool, status: nat, body: string, bytes: string)
    requires Untouched(w) && Buffers(w, ops, wrote, status, body) && (!wrote ==> status == 200)
    requires Sent(w, ops).head == w.head
    ensures Buffers(w, ops + [Body(bytes)], true, status, body + bytes)
    ensures Sent(w, ops + [Body(bytes)]).head == w.head && Sent(w, ops + [Body(bytes)]).header == Sent(w, ops).header
  {
    Snoc(w, ops, Body(bytes));
    FirstBody(Sent(w, ops), bytes);
  }

  /** A write once streaming. */
  lemma StillStreams(w: Wire, ops: seq<Op>, status: nat, wire: Wire, bytes: string)
    requires |BytesOf(ops)| > MAX_TAGGED_BYTES && Streams(w, ops, status, wire)
    ensures Streams(w, ops + [Body(bytes)], status, SendBody(wire, bytes))
  {
    Snoc(w, ops, Body(bytes));
  }

  class CaptureWriter {
    var wire: Wire
    var status: nat
    var body: string
    var wrote: bool
    var overflowed: bool

    /** What the handler has done so far, and the writer it was handed. */
    ghost var ops: seq<Op>
    ghost const handed: Wire

    ghost predicate Valid()
      reads this
    {
      && Untouched(handed)
      && |body| <= MAX_TAGGED_BYTES
      && wire.header == Sent(handed, ops).header && wire.head == Sent(handed, ops).head == handed.head
      && (wrote <==> FirstStatus(ops).Some?) && status == (if wrote then FirstStatus(ops).value else 200)
      && (overflowed <==> |BytesOf(ops)| > MAX_TAGGED_BYTES)
      && if overflowed then wrote && Streams(handed, ops, status, wire)
         else Buffers(handed, ops, wrote, status, body) && wire == handed.(header := wire.header)
    }

    constructor (w: Wire)
      requires Untouched(w)
      ensures Valid() && ops == [] && handed == w
    {
      wire, status, body, wrote, overflowed := w, 200, "", false, false;
      ops, handed := [], w;
    }

    method SetHeader(tag: Option<string>)
      requires Valid()
      modifies this
      ensures Valid() && ops == old(ops) + [Header(tag)]
    {
      wire := wire.(header := tag);
      Snoc(handed, ops, Header(tag));
      ops := ops + [Header(tag)];
    }

    method WriteHeader(code: nat)
      requires Valid()
      modifies this
      ensures Valid() && ops == old(ops) + [Status(code)]
    {
      Snoc(handed, ops, Status(code));
      ops := ops + [Status(code)];
      if wrote {
        return;
      }
      wrote := true;
      status := code;
    }

    method Write(bytes: string)
      requires Valid()
      modifies this
      ensures Valid() && ops == old(ops) + [Body(bytes)]
    {
      if overflowed {
        Snoc(handed, ops, Body(bytes));
        StillStreams(handed, ops, status, wire, bytes);
        wire := SendBody(wire, bytes);
        ops := ops + [Body(bytes)];
      } else if |body| + |bytes| <= MAX_TAGGED_BYTES {
        Snoc(handed, ops, Body(bytes));
        StillBuffers(handed, ops, wrote, status, body, bytes);
        wrote := true;
        body := body + bytes;
        ops := ops + [Body(bytes)];
      } else {
        Overflow(bytes);
      }
    }

    /** Past the limit: commit the status, flush the buffer, stream from here on. */
    method Overflow(bytes: string)
      requires Valid() && !overflowed && |body| + |bytes| > MAX_TAGGED_BYTES
      modifies this
      ensures Valid() && ops == old(ops) + [Body(bytes)]
    {
      Snoc(handed, ops, Body(bytes));
      Switches(handed, ops, wrote, status, body, wire, bytes);
      wrote := true;
      overflowed := true;
      wire := SendStatus(wire, status);
      wire := SendBody(wire, body);
      body := "";
      wire := SendBody(wire, bytes);
      ops := ops + [Body(bytes)];
    }

    /** What Conditional does once the handler has returned. */
    method Conclude(ifNoneMatch: string, compute: string -> string) returns (out: Wire)
      requires Valid()
      ensures Concluded(handed, ops, ifNoneMatch, compute, out)
    {
      out := wire;
      if overflowed {
        return;
      }
      FirstBody(SendStatus(out.(header := None), status), body);
      if status != 200 {
        out := SendStatus(out.(header := None), status);
        out := SendBody(out, body);
        return;
      }
      var tag := compute(body);
      out := out.(header := Some(tag));
      var matched := Etag.Matches(ifNoneMatch, tag);
      if matched {
        out := SendStatus(out, 304);
        return;
      }
      out := SendStatus(out, status);
      FirstBody(out, body);
      out := SendBody(out, body);
    }
  }

  /** What the client receives when the first status was informational. */
  ghost predicate AfterHint(w: Wire, ops: seq<Op>, code: nat, out: Wire) {
    && out.interim == [code] && out.status == Some(200) && out.body == (if w.head then "" else BytesOf(ops))
    && out.tag == if |BytesOf(ops)| > MAX_TAGGED_BYTES then TagAtOverflow(w, ops) else None
  }

  /** What the client receives, given what the handler alone would have sent. */
  ghost predicate Concluded(w: Wire, ops: seq<Op>, ifNoneMatch: string, compute: string -> string, out: Wire) {
    var direct, first, bytes := Completed(Sent(w, ops)), FirstStatus(ops), BytesOf(ops);
    var tag := compute(bytes);
    if first.Some? && Informational(first.value) then AfterHint(w, ops, first.value, out)
    else if |bytes| > MAX_TAGGED_BYTES then SameButTag(out, direct) && out.tag == TagAtOverflow(w, ops)
    else if direct.status != Some(200) then SameButTag(out, direct) && out.tag.None?
    else if Etag.MatchesTag(ifNoneMatch, tag) then
      out.status == Some(304) && out.body == "" && out.tag == Some(tag) && out.interim == direct.interim
    else SameButTag(out, direct) && out.tag == Some(tag)
  }

  /** Conditional, around a handler on a GET or HEAD whose client stays. What
      the client receives is what the handler sent, first status and every byte
      in order, across the switch to streaming too; except that a 200 held whole
      gets the tag of its bytes, and is answered by a bare 304 exactly when the
      client already has that tag. Other statuses lose whatever tag they had. */
  method Serve(w: Wire, ops: seq<Op>, ifNoneMatch: string, compute: string -> string) returns (out: Wire)
    requires Untouched(w)
    ensures Concluded(w, ops, ifNoneMatch, compute, out)
  {
    var c := new CaptureWriter(w);
    for i := 0 to |ops|
      invariant c.Valid() && c.ops == ops[..i] && c.handed == w && fresh(c)
    {
      assert ops[..i + 1] == ops[..i] + [ops[i]];
      match ops[i]
      case Header(tag) => c.SetHeader(tag);
      case Status(code) => c.WriteHeader(code);
      case Body(bytes) => c.Write(bytes);
    }
    assert ops[..|ops|] == ops;
    out := c.Conclude(ifNoneMatch, compute);
  }

  /** The status the handler alone would have sent is the first it named exactly
      when that was not informational. */
  lemma FirstStatusIsFinal(w: Wire, ops: seq<Op>)
    requires Untouched(w) && FirstStatus(ops).Some?
    ensures Completed(Sent(w, ops)).status == FirstStatus(ops) <==> !Informational(FirstStatus(ops).value)
  {
    SentMeans(w, ops);
    FirstOrFinal(ops);
  }

  lemma {:induction false} FirstOrFinal(ops: seq<Op>)
    ensures FirstStatus(ops).None? ==> FinalStatus(ops).None?
    ensures FirstStatus(ops).Some? && !Informational(FirstStatus(ops).value) ==> FinalStatus(ops) == FirstStatus(ops)
    ensures FinalStatus(ops).Some? ==> !Informational(FinalStatus(ops).value)
  {
    if ops != [] {
      FirstOrFinal(ops[..|ops| - 1]);
    }
  }

  /** After an informational first status the wrapper answers 200 whatever the
      handler said next, with that one informational status before it: so the
      client sees no difference exactly when the handler's final status was 200
      and it named no second informational one. */
  lemma InformationalIsInvisibleIff(w: Wire, ops: seq<Op>, out: Wire)
    requires Untouched(w) && FirstStatus(ops).Some? && Informational(FirstStatus(ops).value)
    requires AfterHint(w, ops, FirstStatus(ops).value, out)
    ensures SameButTag(out, Completed(Sent(w, ops))) <==>
              && (FinalStatus(ops).None? || FinalStatus(ops) == Some(200))
              && Interims(ops) == [FirstStatus(ops).value]
  {
    SentMeans(w, ops);
  }

  /** Early hints before an error: the client is told 200. */
  lemma HintsHideError(w: Wire, bytes: string, out: Wire)
    requires Untouched(w) && AfterHint(w, [Status(103), Status(404), Body(bytes)], 103, out)
    ensures FirstStatus([Status(103), Status(404), Body(bytes)]) == Some(103)
    ensures out.status == Some(200) && Completed(Sent(w, [Status(103), Status(404), Body(bytes)])).status == Some(404)
  {
    var ops := [Status(103), Status(404), Body(bytes)];
    var one, two := [Status(103)], [Status(103), Status(404)];
    assert one[..0] == [] && FirstStatus(one) == Some(103) && FinalStatus(one) == None;
    assert two[..1] == one && FirstStatus(two) == Some(103) && FinalStatus(two) == Some(404);
    assert ops[..2] == two;
    SentMeans(w, ops);
  }
}
