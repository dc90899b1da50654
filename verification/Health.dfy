/** The cached health evaluation (internal/core/health/health.go, component.go):
    how often probes run, what the overall status is, and which transitions are
    reported. */
module Health {
  import opened Wrappers

  type Status = string

  const HEALTHY: Status := "healthy"
  const UNHEALTHY: Status := "unhealthy"
  const UNAVAILABLE: Status := "unavailable"

  /** Anything outside the vocabulary is worst of all. */
  function Rank(s: Status): nat {
    if s == HEALTHY then 0 else if s == UNHEALTHY then 1 else if s == UNAVAILABLE then 2 else 3
  }

  ghost predicate WorstOf(components: seq<Status>, worst: Status) {
    && (worst == HEALTHY || worst in components)
    && forall i :: 0 <= i < |components| ==> Rank(components[i]) <= Rank(worst)
  }

  /** overallStatus. */
  method OverallStatus(components: seq<Status>) returns (worst: Status)
    ensures worst == Overall(components)
  {
    worst := HEALTHY;
    for i := 0 to |components|
      invariant worst == Overall(components[..i])
    {
      assert components[..i + 1][..i] == components[..i];
      if Rank(components[i]) > Rank(worst) {
        worst := components[i];
      }
    }
    assert components[..|components|] == components;
  }

  /** The worst among the components, and never better than healthy. */
  lemma {:induction false} OverallIsWorst(components: seq<Status>)
    ensures WorstOf(components, Overall(components))
  {
    if components != [] {
      var n := |components| - 1;
      OverallIsWorst(components[..n]);
      assert forall i :: 0 <= i < n ==> components[..n][i] == components[i];
      assert components[n] in components;
    }
  }

  function Overall(components: seq<Status>): Status {
    var n := |components|;
    if n == 0 then HEALTHY
    else
      var worst := Overall(components[..n - 1]);
      if Rank(components[n - 1]) > Rank(worst) then components[n - 1] else worst
  }

  /** httpStatus. */
  function HttpStatus(s: Status): nat {
    if s == HEALTHY || s == UNHEALTHY then 200 else 503
  }

  /** One component outside {healthy, unhealthy} takes the whole adapter out of
      rotation, an empty result included; nothing else does. */
  lemma {:induction false} OneBadComponentFailsSafe(components: seq<Status>)
    ensures HttpStatus(Overall(components)) == 200 <==> forall i :: 0 <= i < |components| ==> HttpStatus(components[i]) == 200
  {
    if components != [] {
      var n := |components| - 1;
      OneBadComponentFailsSafe(components[..n]);
      assert forall i :: 0 <= i < n ==> components[..n][i] == components[i];
    }
  }

  // ---- transitions --------------------------------------------------------------------------

  /** What the handler emits over a history of overall statuses. */
  function Emitted(history: seq<Status>): seq<(Status, Status)> {
    var n := |history|;
    if n <= 1 then []
    else
      Emitted(history[..n - 1])
      + if history[n - 2] != "" && history[n - 1] != history[n - 2] then [(history[n - 2], history[n - 1])] else []
  }

  /** The history with repetitions dropped. */
  function Changes(history: seq<Status>): (r: seq<Status>)
    ensures history != [] ==> r != [] && r[|r| - 1] == history[|history| - 1]
  {
    var n := |history|;
    if n == 0 then []
    else
      var r := Changes(history[..n - 1]);
      if n > 1 && history[n - 1] == history[n - 2] then r else r + [history[n - 1]]
  }

  /** Each change, from and to. */
  function Links(changes: seq<Status>): (r: seq<(Status, Status)>)
    ensures |r| == if changes == [] then 0 else |changes| - 1
  {
    if |changes| <= 1 then [] else Links(changes[..|changes| - 1]) + [(changes[|changes| - 2], changes[|changes| - 1])]
  }

  ghost predicate EmptyThenOther(changes: seq<Status>) {
    exists i :: 0 <= i < |changes| - 1 && changes[i] == ""
  }

  lemma {:induction false} EmittedAtMost(history: seq<Status>)
    ensures |Emitted(history)| <= |Links(Changes(history))|
  {
    var n := |history|;
    if n > 1 {
      EmittedAtMost(history[..n - 1]);
      ChangesStep(history);
    }
  }

  lemma ChangesStep(history: seq<Status>)
    requires |history| > 1
    ensures var n := |history|;
            var r := Changes(history[..n - 1]);
            && r != [] && r[|r| - 1] == history[n - 2]
            && Links(Changes(history)) == Links(r) + (if history[n - 1] == history[n - 2] then [] else [(history[n - 2], history[n - 1])])
  {
    var n := |history|;
    var r := Changes(history[..n - 1]);
    assert history[..n - 1][n - 2] == history[n - 2];
    if history[n - 1] != history[n - 2] {
      assert (r + [history[n - 1]])[..|r|] == r;
    }
  }

  /** The transitions emitted are the links of the de-duplicated history, so each
      starts where the one before it ended and none is reported on the first
      evaluation, exactly when no empty status is followed by another one. */
  lemma {:induction false} EmittedIsChainIff(history: seq<Status>)
    ensures Emitted(history) == Links(Changes(history)) <==> !EmptyThenOther(Changes(history))
  {
    var n := |history|;
    if n > 1 {
      var r := Changes(history[..n - 1]);
      EmittedIsChainIff(history[..n - 1]);
      EmittedAtMost(history[..n - 1]);
      ChangesStep(history);
      var c := Changes(history);
      if history[n - 1] == history[n - 2] {
        assert c == r;
      } else {
        assert c == r + [history[n - 1]];
        assert EmptyThenOther(c) <==> EmptyThenOther(r) || history[n - 2] == "" by {
          assert c[|r| - 1] == history[n - 2];
          assert forall i :: 0 <= i < |r| ==> c[i] == r[i];
          if EmptyThenOther(r) {
            var i :| 0 <= i < |r| - 1 && r[i] == "";
            assert c[i] == "";
          }
        }
        if Emitted(history) == Links(c) {
          assert |Emitted(history)| == |Emitted(history[..n - 1])| + if history[n - 2] != "" then 1 else 0;
          assert Emitted(history)[..|Links(r)|] == Links(c)[..|Links(r)|] == Links(r);
        }
      }
    }
  }

  /** A chain: each change begins where the last one ended. */
  lemma {:induction false} LinksChain(changes: seq<Status>, i: nat)
    requires i + 1 < |changes|
    ensures Links(changes)[i] == (changes[i], changes[i + 1])
  {
    var n := |changes| - 1;
    if i + 1 < n {
      LinksChain(changes[..n], i);
    }
  }

  // ---- the handler ----------------------------------------------------------------------------

  /** One request: the clock at the check, when the probes would start, the
      clock after them, and what they would answer. */
  datatype Request = Request(checkAt: int, startAt: int, doneAt: int, results: seq<Status>)

  /** A clock that does not go back while a request is served. */
  ghost predicate Monotone(requests: seq<Request>) {
    forall i :: 0 <= i < |requests| ==> requests[i].checkAt <= requests[i].startAt <= requests[i].doneAt
  }

  /** Whose probes answer request `i`: its own when there are none yet, or the
      last ones ended a TTL before it, and else those. */
  ghost function Source(requests: seq<Request>, ttl: nat, i: nat): (k: nat)
    requires i < |requests|
    ensures k <= i
    ensures k == i || requests[i].checkAt - requests[k].doneAt < ttl
  {
    if i == 0 then 0
    else
      var last := Source(requests, ttl, i - 1);
      if requests[i].checkAt - requests[last].doneAt >= ttl then i else last
  }

  /** When the first `n` requests start probes. */
  ghost function ProbeStarts(requests: seq<Request>, ttl: nat, n: nat): seq<int>
    requires n <= |requests|
  {
    if n == 0 then []
    else ProbeStarts(requests, ttl, n - 1) + if Source(requests, ttl, n - 1) == n - 1 then [requests[n - 1].startAt] else []
  }

  class Handler {
    const ttl: nat
    var components: Option<seq<Status>>
    var checkedAt: int
    var last: Status

    /** Everything emitted, every overall status, every probe run's start. */
    var events: seq<(Status, Status)>
    ghost var history: seq<Status>
    ghost var starts: seq<int>

    ghost predicate Valid()
      reads this
    {
      && events == Emitted(history)
      && last == (if history == [] then "" else history[|history| - 1])
      && (components.Some? <==> starts != []) && (history == [] ==> starts == [])
      && (starts != [] ==> starts[|starts| - 1] <= checkedAt)
      && forall i :: 0 < i < |starts| ==> starts[i - 1] + ttl <= starts[i]
    }

    constructor (ttl: nat)
      ensures Valid() && this.ttl == ttl && history == [] && starts == []
    {
      this.ttl := ttl;
      components, checkedAt, last, events := None, 0, "", [];
      history, starts := [], [];
    }

    /** refresh. */
    method Refresh(q: Request) returns (overall: Status, from: Status, changed: bool)
      requires Valid() && q.checkAt <= q.startAt <= q.doneAt
      modifies this`components, this`checkedAt, this`last, this`history, this`starts
      ensures history == old(history) + [overall] && last == overall
      ensures from == old(last) && changed == (from != "" && overall != from)
      ensures components.Some? && overall == Overall(components.value)
      ensures if old(components).None? || q.checkAt - old(checkedAt) >= ttl
              then components == Some(q.results) && starts == old(starts) + [q.startAt] && checkedAt == q.doneAt
              else components == old(components) && starts == old(starts) && checkedAt == old(checkedAt)
    {
      if components.None? || q.checkAt - checkedAt >= ttl {
        components := Some(q.results);
        starts := starts + [q.startAt];
        checkedAt := q.doneAt;
      }
      overall := OverallStatus(components.value);
      from := last;
      changed := last != "" && overall != last;
      last := overall;
      history := history + [overall];
    }

    /** evaluate: what a request is answered with, and the event if the overall
        status changed. */
    method Evaluate(q: Request) returns (overall: Status)
      requires Valid() && q.checkAt <= q.startAt <= q.doneAt
      modifies this
      ensures Valid()
      ensures history == old(history) + [overall] && components.Some? && overall == Overall(components.value)
      ensures if old(components).None? || q.checkAt - old(checkedAt) >= ttl
              then components == Some(q.results) && starts == old(starts) + [q.startAt] && checkedAt == q.doneAt
              else components == old(components) && starts == old(starts) && checkedAt == old(checkedAt)
    {
      var from, changed;
      overall, from, changed := Refresh(q);
      assert history[..|history| - 1] == old(history);
      if changed {
        events := events + [(from, overall)];
      }
    }

    /** The cache as the first `n` requests leave it. */
    ghost predicate Fed(requests: seq<Request>, n: nat)
      requires n <= |requests|
      reads this
    {
      && starts == ProbeStarts(requests, ttl, n)
      && if n == 0 then components.None?
         else var k := Source(requests, ttl, n - 1); components == Some(requests[k].results) && checkedAt == requests[k].doneAt
    }

    /** The next request. */
    method ServeNext(requests: seq<Request>, n: nat) returns (status: Status)
      requires Valid() && n < |requests| && Monotone(requests) && Fed(requests, n)
      modifies this
      ensures Valid() && history == old(history) + [status] && Fed(requests, n + 1)
      ensures status == Overall(requests[Source(requests, ttl, n)].results)
    {
      status := Evaluate(requests[n]);
    }

    /** Any run of requests: each is answered by the probes of the last request
        that had to make them, these start at least a TTL apart, and the
        transitions are the changes exactly when no empty status is followed by
        another; each then starts where the one before it ended. */
    method Serve(requests: seq<Request>) returns (statuses: seq<Status>)
      requires Valid() && history == [] && Monotone(requests)
      modifies this
      ensures Valid() && history == statuses && |statuses| == |requests|
      ensures Answers(requests, ttl, statuses) && starts == ProbeStarts(requests, ttl, |requests|)
      ensures forall i :: 0 < i < |starts| ==> starts[i] - starts[i - 1] >= ttl
      ensures events == Emitted(statuses)
      ensures !EmptyThenOther(Changes(statuses)) <==> events == Links(Changes(statuses))
      ensures !EmptyThenOther(Changes(statuses)) ==> Chained(events)
    {
      statuses := [];
      for i := 0 to |requests|
        invariant Valid() && Fed(requests, i) && history == statuses && |statuses| == i
        invariant Answers(requests, ttl, statuses)
      {
        var status := ServeNext(requests, i);
        AnswersSnoc(requests, ttl, statuses, status);
        statuses := statuses + [status];
      }
      EmittedChains(statuses);
    }
  }

  /** Each status is that of the probes that answered its request. */
  ghost predicate Answers(requests: seq<Request>, ttl: nat, statuses: seq<Status>) {
    |statuses| <= |requests|
    && forall i :: 0 <= i < |statuses| ==> statuses[i] == Overall(requests[Source(requests, ttl, i)].results)
  }

  lemma AnswersSnoc(requests: seq<Request>, ttl: nat, statuses: seq<Status>, status: Status)
    requires Answers(requests, ttl, statuses) && |statuses| < |requests|
    requires status == Overall(requests[Source(requests, ttl, |statuses|)].results)
    ensures Answers(requests, ttl, statuses + [status])
  {
  }

  ghost predicate Chained(events: seq<(Status, Status)>) {
    forall i :: 0 < i < |events| ==> events[i].0 == events[i - 1].1
  }

  lemma EmittedChains(history: seq<Status>)
    ensures !EmptyThenOther(Changes(history)) <==> Emitted(history) == Links(Changes(history))
    ensures !EmptyThenOther(Changes(history)) ==> Chained(Emitted(history))
  {
    EmittedIsChainIff(history);
    LinksAreChained(Changes(history));
  }

  lemma LinksAreChained(changes: seq<Status>)
    ensures Chained(Links(changes))
  {
    forall i | 0 < i < |Links(changes)|
      ensures Links(changes)[i].0 == Links(changes)[i - 1].1
    {
      LinksChain(changes, i - 1);
      LinksChain(changes, i);
    }
  }
}
