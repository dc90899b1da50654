/** The controller's runs in time. A select takes any arm that is ready, in any
    order; time passes only while none is. From that alone follow that Run
    returns once a stop or a closing has been received, and by when. */
module ControllerTime {
  import opened Wrappers
  import opened Controller
  import opened ControllerRuns

  // ---- the world around a run ----------------------------------------------------------

  /** A request on its way, or the closing of the channel. */
  datatype Arrival = Arrival(at: nat, cmd: Option<Command>)

  datatype Return = Return(at: nat, err: Option<string>)

  /** What the run will meet: when serve signals ready and when it returns, if
      ever, and everything sent on the request channel, in order. */
  datatype World = World(readyAt: Option<nat>, serve: Option<Return>, inbox: seq<Arrival>)

  datatype Timed = Timed(at: nat, event: Event)

  /** A run under way: the clock, the session, the requests received so far, the
      event its timers were started on, when the ticker is due next, and what
      has been received when. */
  datatype Moment = Moment(now: nat, s: Session, received: nat, from: nat, tick: nat, log: seq<Timed>)

  predicate Bounded(p: Phase) {
    p.Draining? || p.Abandoning?
  }

  predicate Listening(p: Phase) {
    p.Starting? || p.Serving? || p.Draining?
  }

  /** When the backstop is due: a deadline after the event it was started on. */
  function Due(c: Config, m: Moment): nat {
    if m.from < |m.log| then m.log[m.from].at + Deadline(c) else 0
  }

  /** The arms of the current select that are ready. */
  predicate Arm(c: Config, w: World, m: Moment, e: Event) {
    match e
    case Ready => m.s.phase.Starting? && w.readyAt.Some? && w.readyAt.value <= m.now
    case Result(err) => !m.s.phase.Done? && w.serve.Some? && w.serve.value.at <= m.now && err == w.serve.value.err
    case Request(cmd) =>
      Listening(m.s.phase) && m.received < |w.inbox| && w.inbox[m.received].at <= m.now && w.inbox[m.received].cmd == Some(cmd)
    case Closed =>
      Listening(m.s.phase) && m.received < |w.inbox| && w.inbox[m.received].at <= m.now && w.inbox[m.received].cmd.None?
    case Tick => m.s.phase.Draining? && m.tick <= m.now
    case Backstop => Bounded(m.s.phase) && Due(c, m) <= m.now
  }

  datatype Move = Idle | Take(e: Event)

  ghost predicate Allowed(c: Config, w: World, m: Moment, move: Move) {
    match move
    case Idle => !m.s.phase.Done? && forall e :: !Arm(c, w, m, e)
    case Take(e) => Arm(c, w, m, e)
  }

  /** Entering a phase starts its timers; a tick sets the ticker's next. */
  function Moved(c: Config, m: Moment, move: Move): Moment {
    match move
    case Idle => m.(now := m.now + 1)
    case Take(e) =>
      var t := Step(c, m.s, e);
      var entered := t.phase != m.s.phase;
      Moment(
        m.now, t,
        if e.Request? || e.Closed? then m.received + 1 else m.received,
        if entered then |m.log| else m.from,
        if e.Tick? then m.tick + c.checkpointEvery else if entered then m.now + c.checkpointEvery else m.tick,
        m.log + [Timed(m.now, e)])
  }

  function At(c: Config, moves: seq<Move>): Moment {
    if moves == [] then Moment(0, Began(c), 0, 0, 0, [])
    else Moved(c, At(c, moves[..|moves| - 1]), moves[|moves| - 1])
  }

  ghost predicate Legal(c: Config, w: World, moves: seq<Move>) {
    forall k :: 0 <= k < |moves| ==> Allowed(c, w, At(c, moves[..k]), moves[k])
  }

  function EventsOf(log: seq<Timed>): (events: seq<Event>)
    ensures |events| == |log| && forall i :: 0 <= i < |log| ==> events[i] == log[i].event
  {
    seq(|log|, i requires 0 <= i < |log| => log[i].event)
  }

  // ---- what every moment of a run satisfies ----------------------------------------------

  /** The event the current bound runs from: the first closing of the channel,
      or before that the first stop. */
  ghost predicate BoundFrom(events: seq<Event>, j: int) {
    && 0 <= j < |events|
    && (forall i :: 0 <= i < j ==> !events[i].Closed?)
    && if events[j].Closed? then true
       else IsStop(events[j]) && (forall i :: 0 <= i < j ==> !IsCut(events[i])) && forall i :: j < i < |events| ==> !events[i].Closed?
  }

  /** `n` times `d`, one at a time. */
  function Times(n: nat, d: nat): nat {
    if n == 0 then 0 else Times(n - 1, d) + d
  }

  lemma {:induction false} TimesIsProduct(n: nat, d: nat)
    ensures Times(n, d) == n * d
  {
    if n > 0 {
      TimesIsProduct(n - 1, d);
      assert n * d == (n - 1) * d + d;
    }
  }

  ghost predicate Tells(c: Config, m: Moment) {
    m.s == After(c, EventsOf(m.log))
  }

  /** The timers of a bounded phase: the backstop still ahead, or due this very
      moment, and the ticker one period past the last tick. */
  ghost predicate Timers(c: Config, m: Moment) {
    Bounded(m.s.phase) ==>
      && BoundFrom(EventsOf(m.log), m.from) && (m.s.phase.Abandoning? ==> m.log[m.from].event.Closed?)
      && m.log[m.from].at <= m.now <= Due(c, m)
      && (m.s.phase.Draining? ==>
            && m.tick == m.log[m.from].at + Times(TicksSinceCut(EventsOf(m.log)), c.checkpointEvery) + c.checkpointEvery
            && m.log[m.from].at + Times(TicksSinceCut(EventsOf(m.log)), c.checkpointEvery) <= m.now)
  }

  ghost predicate Sound(c: Config, w: World, m: Moment) {
    && Tells(c, m) && Timers(c, m) && m.received <= |w.inbox|
    && (!m.s.phase.Done? && w.serve.Some? ==> m.now <= w.serve.value.at)
  }

  lemma TellsMore(c: Config, m: Moment, e: Event)
    requires Tells(c, m)
    ensures EventsOf(m.log + [Timed(m.now, e)]) == EventsOf(m.log) + [e]
    ensures Tells(c, Moved(c, m, Take(e)))
  {
    var events := EventsOf(m.log) + [e];
    AfterSnoc(c, events, |m.log|);
    assert events[..|m.log|] == EventsOf(m.log) && events[..|m.log| + 1] == events;
  }

  lemma BoundKept(events: seq<Event>, e: Event, j: nat)
    requires BoundFrom(events, j) && (e.Closed? ==> events[j].Closed?)
    ensures BoundFrom(events + [e], j)
  {
    var all := events + [e];
    assert forall i :: 0 <= i < |events| ==> all[i] == events[i];
  }

  lemma {:induction false} NotAbandoned(c: Config, events: seq<Event>)
    requires !After(c, events).phase.Abandoning? && !After(c, events).phase.Done?
    ensures forall i :: 0 <= i < |events| ==> !events[i].Closed?
  {
    if events != [] {
      var n := |events| - 1;
      NotAbandoned(c, events[..n]);
      forall i | 0 <= i < |events|
        ensures !events[i].Closed?
      {
        assert i < n ==> events[i] == events[..n][i];
      }
    }
  }

  /** A phase is entered on the event its bound runs from. */
  lemma BoundStarts(c: Config, events: seq<Event>, e: Event)
    requires var s, t := After(c, events), Step(c, After(c, events), e);
             t.phase != s.phase && Bounded(t.phase)
    ensures BoundFrom(events + [e], |events|) && (Step(c, After(c, events), e).phase.Abandoning? ==> e.Closed?)
  {
    AfterIsConsistent(c, events);
    StoppedMeansCut(c, events);
    NotAbandoned(c, events);
    var all := events + [e];
    assert forall i :: 0 <= i < |events| ==> all[i] == events[i];
  }

  lemma TicksSnoc(events: seq<Event>, e: Event)
    ensures TicksSinceCut(events + [e]) == TicksSinceCut(events) + if e.Tick? && CutSeen(events) then 1 else 0
  {
    assert (events + [e])[..|events|] == events;
  }

  lemma IdleIsSound(c: Config, w: World, m: Moment)
    requires Sound(c, w, m) && Allowed(c, w, m, Idle)
    ensures Sound(c, w, Moved(c, m, Idle))
  {
    assert !Arm(c, w, m, Backstop);
    if w.serve.Some? {
      assert !Arm(c, w, m, Result(w.serve.value.err));
    }
  }

  lemma EnteringIsTimed(c: Config, w: World, m: Moment, e: Event)
    requires Sound(c, w, m) && Arm(c, w, m, e)
    requires Step(c, m.s, e).phase != m.s.phase
    ensures Timers(c, Moved(c, m, Take(e)))
  {
    var next := Moved(c, m, Take(e));
    if Bounded(next.s.phase) {
      TellsMore(c, m, e);
      BoundStarts(c, EventsOf(m.log), e);
      if next.s.phase.Draining? {
        AfterIsConsistent(c, EventsOf(m.log));
        StoppedMeansCut(c, EventsOf(m.log));
        NoTicksYet(EventsOf(m.log));
        TicksSnoc(EventsOf(m.log), e);
      }
    }
  }

  lemma StayingIsTimed(c: Config, w: World, m: Moment, e: Event)
    requires Sound(c, w, m) && Arm(c, w, m, e)
    requires Step(c, m.s, e).phase == m.s.phase
    ensures Timers(c, Moved(c, m, Take(e)))
  {
    if Bounded(m.s.phase) {
      TellsMore(c, m, e);
      BoundKept(EventsOf(m.log), e, m.from);
      TicksSnoc(EventsOf(m.log), e);
      AfterIsConsistent(c, EventsOf(m.log));
      StoppedMeansCut(c, EventsOf(m.log));
    }
  }

  lemma TakingIsSound(c: Config, w: World, m: Moment, e: Event)
    requires Sound(c, w, m) && Arm(c, w, m, e)
    ensures Sound(c, w, Moved(c, m, Take(e)))
  {
    TellsMore(c, m, e);
    if Step(c, m.s, e).phase == m.s.phase {
      StayingIsTimed(c, w, m, e);
    } else {
      EnteringIsTimed(c, w, m, e);
    }
  }

  lemma {:induction false} LegalIsSound(c: Config, w: World, moves: seq<Move>)
    requires Legal(c, w, moves)
    ensures Sound(c, w, At(c, moves))
  {
    if moves != [] {
      var n := |moves| - 1;
      LegalPrefix(c, w, moves, n);
      LegalIsSound(c, w, moves[..n]);
      match moves[n]
      case Idle => IdleIsSound(c, w, At(c, moves[..n]));
      case Take(e) => TakingIsSound(c, w, At(c, moves[..n]), e);
    }
  }

  lemma LegalPrefix(c: Config, w: World, moves: seq<Move>, n: nat)
    requires Legal(c, w, moves) && n <= |moves|
    ensures Legal(c, w, moves[..n])
  {
    forall k | 0 <= k < n
      ensures Allowed(c, w, At(c, moves[..n][..k]), moves[..n][k])
    {
      assert moves[..n][..k] == moves[..k];
    }
  }

  // ---- and what follows ---------------------------------------------------------------------

  /** Until Run is over it can always go on: an arm is ready, or time passes. */
  lemma NeverStuck(c: Config, w: World, m: Moment)
    requires !m.s.phase.Done?
    ensures exists move :: Allowed(c, w, m, move)
  {
    if forall e :: !Arm(c, w, m, e) {
      assert Allowed(c, w, m, Idle);
    } else {
      var e :| Arm(c, w, m, e);
      assert Allowed(c, w, m, Take(e));
    }
  }

  /** At most how many moves a bounded phase has left. */
  function Left(c: Config, w: World, m: Moment): nat
    requires m.received <= |w.inbox|
  {
    if !Bounded(m.s.phase) then 0
    else
      1 + (if m.now <= Due(c, m) then Due(c, m) - m.now else 0)
      + (if m.s.phase.Draining? && m.tick <= Due(c, m) then Due(c, m) + 1 - m.tick else 0)
      + Times(|w.inbox| - m.received, Deadline(c) + 1)
  }

  lemma IdleCounts(c: Config, w: World, m: Moment)
    requires Sound(c, w, m) && Bounded(m.s.phase) && Allowed(c, w, m, Idle)
    ensures Left(c, w, Moved(c, m, Idle)) < Left(c, w, m)
  {
    assert !Arm(c, w, m, Backstop);
  }

  lemma TakingCounts(c: Config, w: World, m: Moment, e: Event)
    requires Sound(c, w, m) && Bounded(m.s.phase) && Arm(c, w, m, e) && c.checkpointEvery > 0
    ensures var next := Moved(c, m, Take(e));
            && next.received <= |w.inbox| && Left(c, w, next) < Left(c, w, m)
            && (Bounded(next.s.phase) || next.s.phase.Done?)
  {
    AfterIsConsistent(c, EventsOf(m.log));
    var next := Moved(c, m, Take(e));
    assert next.log[m.from] == m.log[m.from];
    if e.Request? || e.Closed? {
      assert Times(|w.inbox| - m.received, Deadline(c) + 1) == Times(|w.inbox| - next.received, Deadline(c) + 1) + Deadline(c) + 1;
    }
  }

  /** Still under way, with at most `n` moves to go. */
  ghost predicate Within(c: Config, w: World, m: Moment, n: int) {
    && m.received <= |w.inbox|
    && (m.s.phase.Done? || Bounded(m.s.phase)) && Left(c, w, m) <= n
  }

  lemma MoveCounts(c: Config, w: World, m: Moment, move: Move, n: int)
    requires Sound(c, w, m) && Allowed(c, w, m, move) && c.checkpointEvery > 0 && Within(c, w, m, n)
    ensures Within(c, w, Moved(c, m, move), n - 1)
  {
    match move
    case Idle => IdleCounts(c, w, m);
    case Take(e) => TakingCounts(c, w, m, e);
  }

  /** However the arms that are ready are chosen among, a run that has received a
      stop or a closing makes no more than so many moves, and is over when it has
      made them; as it is never stuck before it is over, it returns. */
  lemma {:induction false} RunReturns(c: Config, w: World, moves: seq<Move>, k: nat, m: Moment)
    requires c.checkpointEvery > 0 && k <= |moves| && Legal(c, w, moves) && m == At(c, moves[..k]) && Bounded(m.s.phase)
    ensures m.received <= |w.inbox| && Within(c, w, At(c, moves), Left(c, w, m) - (|moves| - k))
    ensures |moves| - k == Left(c, w, m) ==> At(c, moves).s.phase.Done?
  {
    LegalPrefix(c, w, moves, k);
    LegalIsSound(c, w, moves[..k]);
    if |moves| == k {
      assert moves[..k] == moves;
    } else {
      var n := |moves| - 1;
      LastMove(c, w, moves, n);
      assert moves[..n][..k] == moves[..k];
      RunReturns(c, w, moves[..n], k, m);
      MoveCounts(c, w, At(c, moves[..n]), moves[n], Left(c, w, m) - (n - k));
    }
  }

  lemma LastMove(c: Config, w: World, moves: seq<Move>, n: nat)
    requires Legal(c, w, moves) && n == |moves| - 1
    ensures Legal(c, w, moves[..n]) && Sound(c, w, At(c, moves[..n])) && Allowed(c, w, At(c, moves[..n]), moves[n])
    ensures At(c, moves) == Moved(c, At(c, moves[..n]), moves[n])
  {
    LegalPrefix(c, w, moves, n);
    LegalIsSound(c, w, moves[..n]);
  }

  /** A stop or a closing received, Run returns within the drain deadline of the
      stop, or of the closing if that came later: nothing is received after it,
      and no time passes. */
  lemma NothingOutlivesDeadline(c: Config, w: World, moves: seq<Move>)
    requires Legal(c, w, moves) && CutSeen(EventsOf(At(c, moves).log)) && !At(c, moves).s.phase.Done?
    ensures var m := At(c, moves); BoundFrom(EventsOf(m.log), m.from) && m.now <= m.log[m.from].at + Deadline(c)
  {
    var m := At(c, moves);
    LegalIsSound(c, w, moves);
    StoppedMeansCut(c, EventsOf(m.log));
    AfterIsConsistent(c, EventsOf(m.log));
  }

  /** The move that ends such a run comes within the deadline, and brings serve's
      own result whenever serve comes back within the drain budget. */
  lemma StopIsBounded(c: Config, w: World, moves: seq<Move>, e: Event)
    requires var m := At(c, moves);
             && Legal(c, w, moves + [Take(e)]) && CutSeen(EventsOf(m.log))
             && !m.s.phase.Done? && Moved(c, m, Take(e)).s.phase.Done?
    ensures var m := At(c, moves);
            && BoundFrom(EventsOf(m.log), m.from) && m.now <= m.log[m.from].at + Deadline(c)
            && (c.drainMargin > 0 && w.serve.Some? && w.serve.value.at <= m.log[m.from].at + c.drainBudget ==>
                  e == Result(w.serve.value.err))
            && (e.Result? || (e.Backstop? && m.now == m.log[m.from].at + Deadline(c)))
  {
    var n := |moves|;
    assert (moves + [Take(e)])[..n] == moves;
    LegalPrefix(c, w, moves + [Take(e)], n);
    assert Allowed(c, w, At(c, moves), (moves + [Take(e)])[n]);
    NothingOutlivesDeadline(c, w, moves);
    LegalIsSound(c, w, moves);
    StoppedMeansCut(c, EventsOf(At(c, moves).log));
    AfterIsConsistent(c, EventsOf(At(c, moves).log));
  }

  /** The counter does not wrap while the deadline holds fewer than 2^32 - 1
      ticks: every check point is then one above the one before it. */
  lemma {:induction false} CheckPointDoesNotWrap(c: Config, w: World, moves: seq<Move>)
    requires Legal(c, w, moves) && At(c, moves).s.phase.Draining?
    requires c.checkpointEvery > 0 && Deadline(c) / c.checkpointEvery < CHECKPOINTS - 1
    ensures At(c, moves).s.last.checkPoint == 1 + TicksSinceCut(EventsOf(At(c, moves).log))
  {
    var m := At(c, moves);
    var t := TicksSinceCut(EventsOf(m.log));
    LegalIsSound(c, w, moves);
    TimesIsProduct(t, c.checkpointEvery);
    AtMostQuotient(t, c.checkpointEvery, Deadline(c));
    CheckPointCountsTicks(c, EventsOf(m.log));
  }

  lemma AtMostQuotient(t: nat, d: nat, n: nat)
    requires d > 0 && t * d <= n
    ensures t <= n / d
  {
    var q := n / d;
    assert t >= q + 1 ==> t * d >= (q + 1) * d;
  }
}
