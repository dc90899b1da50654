/** What every run of the service controller reports and returns. */
module ControllerRuns {
  import opened Wrappers
  import opened Controller

  // ---- what has been received --------------------------------------------------------

  predicate IsStop(e: Event) {
    e == Request(Stop) || e == Request(PreShutdown)
  }

  predicate IsCut(e: Event) {
    IsStop(e) || e.Closed?
  }

  /** A stop was requested, or the request channel was closed. */
  ghost predicate CutSeen(events: seq<Event>) {
    exists k :: 0 <= k < |events| && IsCut(events[k])
  }

  lemma CutSnoc(events: seq<Event>, e: Event)
    ensures CutSeen(events + [e]) <==> CutSeen(events) || IsCut(e)
  {
    var all := events + [e];
    if CutSeen(events) {
      var k :| 0 <= k < |events| && IsCut(events[k]);
      assert IsCut(all[k]);
    }
    if IsCut(e) {
      assert IsCut(all[|events|]);
    }
  }

  // ---- the shape of a trace ------------------------------------------------------------

  function Rank(s: State): nat {
    match s
    case StartPending => 0
    case Running => 1
    case StopPending => 2
    case Stopped => 3
  }

  /** StartPending+ Running* StopPending* Stopped?, and Stopped once and last. */
  ghost predicate Shaped(reports: seq<Report>) {
    && |reports| > 0 && reports[0].state == StartPending
    && (forall i, j :: 0 <= i < j < |reports| ==> Rank(reports[i].state) <= Rank(reports[j].state))
    && (forall i :: 0 <= i < |reports| - 1 ==> reports[i].state != Stopped)
  }

  ghost predicate Consistent(c: Config, s: Session) {
    && Shaped(s.reports) && s.last == s.reports[|s.reports| - 1]
    && match s.phase
       case Starting => s.last == Report(StartPending, false, 1, c.startHint) && !s.stopped
       case Serving => s.last == Report(Running, true, 0, 0) && !s.stopped
       case Draining => s.last.state == StopPending && s.last.waitHint == Deadline(c) && s.stopped
       case Abandoning => s.last.state != Stopped && s.stopped
       case Done(_) => s.last == Report(Stopped, false, 0, 0)
  }

  lemma ShapedSnoc(reports: seq<Report>, r: Report)
    requires Shaped(reports)
    requires reports[|reports| - 1].state != Stopped && Rank(reports[|reports| - 1].state) <= Rank(r.state)
    ensures Shaped(reports + [r])
  {
    forall i | 0 <= i < |reports|
      ensures Rank(reports[i].state) <= Rank(reports[|reports| - 1].state)
    {
    }
  }

  lemma StepIsConsistent(c: Config, s: Session, e: Event)
    requires Consistent(c, s)
    ensures Consistent(c, Step(c, s, e))
  {
    var t := Step(c, s, e);
    if |t.reports| > |s.reports| {
      ShapedSnoc(s.reports, t.last);
    }
  }

  lemma {:induction false} AfterIsConsistent(c: Config, events: seq<Event>)
    ensures Consistent(c, After(c, events))
  {
    if events != [] {
      AfterIsConsistent(c, events[..|events| - 1]);
      StepIsConsistent(c, After(c, events[..|events| - 1]), events[|events| - 1]);
    }
  }

  /** Whatever arrives in whatever order, the reports have the shape the service
      manager requires, and Stopped has been reported exactly when Run is over. */
  lemma TraceHasShape(c: Config, events: seq<Event>)
    ensures var s := After(c, events);
            && Shaped(s.reports)
            && (s.phase.Done? <==> s.reports[|s.reports| - 1].state == Stopped)
  {
    AfterIsConsistent(c, events);
  }

  /** The session knows of a stop exactly when one, or the closed channel, was received. */
  lemma {:induction false} StoppedMeansCut(c: Config, events: seq<Event>)
    requires !After(c, events).phase.Done?
    ensures After(c, events).stopped <==> CutSeen(events)
  {
    if events != [] {
      var n := |events| - 1;
      StoppedMeansCut(c, events[..n]);
      AfterIsConsistent(c, events[..n]);
      CutSnoc(events[..n], events[n]);
      assert events[..n] + [events[n]] == events;
    }
  }

  /** The step that first reports Running. */
  lemma RunningAppears(c: Config, s: Session, e: Event, i: nat)
    requires Consistent(c, s) && i < |Step(c, s, e).reports| && Step(c, s, e).reports[i].state == Running
    requires forall j :: 0 <= j < |s.reports| ==> s.reports[j].state != Running
    ensures e == Ready && s.phase.Starting?
  {
    assert s.last.state != Running;
  }

  /** Running is reported only once serve has signalled that it is ready, with
      no stop, closed channel or result before that. */
  lemma {:induction false} RunningMeansReady(c: Config, events: seq<Event>, i: nat) returns (k: nat)
    requires i < |After(c, events).reports| && After(c, events).reports[i].state == Running
    ensures k < |events| && events[k] == Ready
    ensures forall j :: 0 <= j < k ==> !IsCut(events[j]) && !events[j].Result?
  {
    var n := |events| - 1;
    var before := After(c, events[..n]);
    AfterIsConsistent(c, events[..n]);
    if exists j :: 0 <= j < |before.reports| && before.reports[j].state == Running {
      var j :| 0 <= j < |before.reports| && before.reports[j].state == Running;
      k := RunningMeansReady(c, events[..n], j);
    } else {
      RunningAppears(c, before, events[n], i);
      k := n;
      StartingMeansNothing(c, events[..n]);
    }
  }

  lemma {:induction false} StartingMeansNothing(c: Config, events: seq<Event>)
    requires After(c, events).phase.Starting?
    ensures forall j :: 0 <= j < |events| ==> !IsCut(events[j]) && !events[j].Result? && events[j] != Ready
  {
    if events != [] {
      var n := |events| - 1;
      AfterIsConsistent(c, events[..n]);
      StartingMeansNothing(c, events[..n]);
      forall j | 0 <= j < |events|
        ensures !IsCut(events[j]) && !events[j].Result? && events[j] != Ready
      {
        assert j < n ==> events[j] == events[..n][j];
      }
    }
  }

  /** After a stop or a closed channel nothing received makes Running be reported. */
  lemma NoRunningAfterCut(c: Config, events: seq<Event>, e: Event)
    requires CutSeen(events)
    ensures var s, t := After(c, events), After(c, events + [e]);
            t.reports == s.reports || (t.reports == s.reports + [t.last] && t.last.state != Running)
  {
    assert (events + [e])[..|events|] == events;
    AfterIsConsistent(c, events);
    if !After(c, events).phase.Done? {
      StoppedMeansCut(c, events);
    }
  }

  // ---- the exit ---------------------------------------------------------------------------

  /** The event that ended a run. */
  ghost predicate EndsAt(c: Config, events: seq<Event>, k: int) {
    0 <= k < |events| && !After(c, events[..k]).phase.Done? && After(c, events[..k + 1]).phase.Done?
  }

  lemma {:induction false} EndExists(c: Config, events: seq<Event>) returns (k: nat)
    requires After(c, events).phase.Done?
    ensures EndsAt(c, events, k)
  {
    k := |events| - 1;
    if After(c, events[..k]).phase.Done? {
      var init := events[..k];
      var j := EndExists(c, init);
      assert init[..j] == events[..j] && init[..j + 1] == events[..j + 1];
      k := j;
    } else {
      assert events[..k + 1] == events;
    }
  }

  /** The exit code is non-zero exactly when Run returns an error and neither a
      stop nor a closed channel came first. The error is serve's own, or the
      overrun when the backstop ended the run. */
  lemma ExitCode(c: Config, events: seq<Event>) returns (k: nat)
    requires After(c, events).phase.Done?
    ensures EndsAt(c, events, k)
    ensures var x := After(c, events).phase.exit;
            && (x.failed <==> x.err.Some? && !CutSeen(events[..k]))
            && (if events[k].Result? then x.err == ServeResult(events[k].err) else events[k].Backstop? && x.err == Some(ServeOverran))
            && (events[k].Backstop? ==> CutSeen(events[..k]) && !x.failed)
  {
    k := EndExists(c, events);
    AfterSnoc(c, events, k);
    DoneStays(c, events, k + 1);
    StoppedMeansCut(c, events[..k]);
    AfterIsConsistent(c, events[..k]);
  }

  // ---- check points -----------------------------------------------------------------------

  /** Ticks received since the stop. */
  ghost function TicksSinceCut(events: seq<Event>): nat {
    var n := |events|;
    if n == 0 then 0
    else TicksSinceCut(events[..n - 1]) + if events[n - 1].Tick? && CutSeen(events[..n - 1]) then 1 else 0
  }

  lemma {:induction false} NoTicksYet(events: seq<Event>)
    requires !CutSeen(events)
    ensures TicksSinceCut(events) == 0
  {
    if events != [] {
      var n := |events| - 1;
      CutSnoc(events[..n], events[n]);
      assert events[..n] + [events[n]] == events;
      NoTicksYet(events[..n]);
    }
  }

  lemma OneMoreTick(t: nat)
    ensures ((1 + t) % CHECKPOINTS + 1) % CHECKPOINTS == (1 + (t + 1)) % CHECKPOINTS
  {
  }

  function StillPending(c: Config, t: nat): Report {
    Report(StopPending, false, (1 + t) % CHECKPOINTS, Deadline(c))
  }

  /** One event of the draining phase, and what the count of ticks makes of it. */
  lemma DrainStep(c: Config, s: Session, e: Event, t: nat)
    requires s.phase.Draining? && s.stopped && s.last == StillPending(c, t) && Step(c, s, e).phase.Draining?
    ensures Step(c, s, e).last == StillPending(c, if e.Tick? then t + 1 else t)
  {
    OneMoreTick(t);
  }

  /** While draining the check point is one more than the ticks since the stop,
      in a 32-bit counter; an interrogation repeats it and leaves it alone. */
  lemma {:induction false} CheckPointCountsTicks(c: Config, events: seq<Event>)
    requires After(c, events).phase.Draining?
    ensures After(c, events).last == StillPending(c, TicksSinceCut(events))
  {
    var n := |events| - 1;
    var before := After(c, events[..n]);
    AfterIsConsistent(c, events[..n]);
    StoppedMeansCut(c, events[..n]);
    if before.phase.Draining? {
      CheckPointCountsTicks(c, events[..n]);
      DrainStep(c, before, events[n], TicksSinceCut(events[..n]));
    } else {
      NoTicksYet(events[..n]);
    }
  }
}
