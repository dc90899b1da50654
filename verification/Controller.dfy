/** The service controller (internal/core/winsvc/controller.go): the sequence of
    status reports around a serve function, as a state machine over what its
    selects receive. An event a select has no arm for is left where it is. */
module Controller {
  import opened Wrappers

  datatype State = StartPending | Running | StopPending | Stopped

  datatype Command = Interrogate | Stop | PreShutdown | Other

  const CHECKPOINTS: nat := 0x1_0000_0000

  /** A status report; the check point is an unsigned 32-bit counter. Durations
      are in a unit of the reader's choice. */
  datatype Report = Report(state: State, accepts: bool, checkPoint: nat, waitHint: nat)

  datatype Error = ServeFailed(message: string) | ServeOverran

  /** What Run returns: the exit code's sign and the error. */
  datatype Exit = Exit(failed: bool, err: Option<Error>)

  datatype Config = Config(startHint: nat, drainBudget: nat, drainMargin: nat, checkpointEvery: nat)

  function Deadline(c: Config): nat {
    c.drainBudget + c.drainMargin
  }

  /** What a select can receive. Result carries what serve returned. */
  datatype Event = Ready | Result(err: Option<string>) | Request(cmd: Command) | Closed | Tick | Backstop

  // ---- the machine as a function --------------------------------------------------

  datatype Phase = Starting | Serving | Draining | Abandoning | Done(exit: Exit)

  datatype Session = Session(phase: Phase, last: Report, stopped: bool, reports: seq<Report>)

  function Reported(s: Session, r: Report): Session {
    s.(last := r, reports := s.reports + [r])
  }

  function Began(c: Config): Session {
    var first := Report(StartPending, false, 1, c.startHint);
    Session(Starting, first, false, [first])
  }

  /** finish. */
  function Finished(s: Session, err: Option<Error>): Session {
    Reported(s, Report(Stopped, false, 0, 0)).(phase := Done(Exit(err.Some? && !s.stopped, err)))
  }

  function ServeResult(err: Option<string>): Option<Error> {
    if err.Some? then Some(ServeFailed(err.value)) else None
  }

  /** control, and the phase it leads to. */
  function Controlled(c: Config, s: Session, cmd: Command): Session {
    match cmd
    case Interrogate => Reported(s, s.last)
    case Other => s
    case _ =>
      if s.stopped then s
      else Reported(s, Report(StopPending, false, 1, Deadline(c))).(stopped := true, phase := Draining)
  }

  function Step(c: Config, s: Session, e: Event): Session {
    if s.phase.Done? then s
    else
      match e
      case Result(err) => Finished(s, ServeResult(err))
      case Ready => if s.phase.Starting? then Reported(s, Report(Running, true, 0, 0)).(phase := Serving) else s
      case Request(cmd) => if s.phase.Abandoning? then s else Controlled(c, s, cmd)
      case Closed => if s.phase.Abandoning? then s else s.(stopped := true, phase := Abandoning)
      case Tick =>
        if s.phase.Draining? then Reported(s, s.last.(checkPoint := (s.last.checkPoint + 1) % CHECKPOINTS)) else s
      case Backstop => if s.phase.Draining? || s.phase.Abandoning? then Finished(s, Some(ServeOverran)) else s
  }

  function After(c: Config, events: seq<Event>): Session {
    var n := |events|;
    if n == 0 then Began(c) else Step(c, After(c, events[..n - 1]), events[n - 1])
  }

  lemma AfterSnoc(c: Config, events: seq<Event>, k: nat)
    requires k < |events|
    ensures After(c, events[..k + 1]) == Step(c, After(c, events[..k]), events[k])
  {
    assert events[..k + 1][..k] == events[..k];
  }

  // ---- the machine ------------------------------------------------------------------

  /** How a phase ends: the next one, the end of the run, or still waiting when
      the events have run out. */
  datatype Next = Onward | Ended(exit: Exit) | Waiting

  class Controller {
    const c: Config
    const events: seq<Event>
    var pos: nat
    var last: Report
    var stopped: bool
    var reports: seq<Report>

    ghost predicate At(phase: Phase)
      reads this
    {
      pos <= |events| && After(c, events[..pos]) == Session(phase, last, stopped, reports)
    }

    constructor (c: Config, events: seq<Event>)
      ensures this.c == c && this.events == events && At(Starting)
    {
      this.c, this.events := c, events;
      pos, stopped := 0, false;
      last := Report(StartPending, false, 1, c.startHint);
      reports := [Report(StartPending, false, 1, c.startHint)];
    }

    method ReportStatus(r: Report)
      modifies this`last, this`reports
      ensures last == r && reports == old(reports) + [r]
    {
      last := r;
      reports := reports + [r];
    }

    /** What the select receives next, and the session it is received in. */
    method Receive() returns (e: Event, ghost s: Session)
      requires pos < |events|
      modifies this`pos
      ensures pos == old(pos) + 1 && e == events[old(pos)] && s == After(c, events[..old(pos)])
      ensures After(c, events[..pos]) == Step(c, s, e)
    {
      s := After(c, events[..pos]);
      AfterSnoc(c, events, pos);
      e := events[pos];
      pos := pos + 1;
    }

    /** control: reports whether the drain has begun. */
    method Control(cmd: Command, ghost s: Session) returns (draining: bool)
      requires s == Session(s.phase, last, stopped, reports) && !s.phase.Abandoning? && !s.phase.Done?
      requires s.phase.Draining? <==> stopped
      modifies this`last, this`reports, this`stopped
      ensures Controlled(c, s, cmd) == Session(if stopped then Draining else s.phase, last, stopped, reports)
      ensures !old(stopped) ==> draining == stopped
    {
      match cmd
      case Interrogate =>
        ReportStatus(last);
        draining := false;
      case Stop =>
        draining := BeginDrain();
      case PreShutdown =>
        draining := BeginDrain();
      case Other =>
        draining := stopped;
    }

    method BeginDrain() returns (draining: bool)
      modifies this`last, this`reports, this`stopped
      ensures draining && stopped
      ensures if old(stopped) then last == old(last) && reports == old(reports)
              else last == Report(StopPending, false, 1, Deadline(c)) && reports == old(reports) + [last]
    {
      if !stopped {
        stopped := true;
        ReportStatus(Report(StopPending, false, 1, Deadline(c)));
      }
      draining := true;
    }

    method Finish(err: Option<Error>, ghost s: Session) returns (exit: Exit)
      requires s == Session(s.phase, last, stopped, reports)
      modifies this`last, this`reports
      ensures Finished(s, err) == Session(Done(exit), last, stopped, reports)
    {
      ReportStatus(Report(Stopped, false, 0, 0));
      exit := if err.Some? && !stopped then Exit(true, err) else Exit(false, err);
    }

    method StartingPhase() returns (next: Next)
      requires At(Starting) && !stopped
      modifies this
      ensures next.Onward? ==> At(if stopped then Draining else Serving)
      ensures next.Ended? ==> At(Done(next.exit))
      ensures next.Waiting? ==> pos == |events| && (At(Starting) || At(Abandoning))
    {
      while pos < |events|
        invariant At(Starting) && !stopped
        decreases |events| - pos
      {
        var e, s := Receive();
        match e {
          case Ready =>
            ReportStatus(Report(Running, true, 0, 0));
            return Onward;
          case Result(err) =>
            var exit := Finish(ServeResult(err), s);
            return Ended(exit);
          case Closed =>
            next := Abandon();
            return;
          case Request(cmd) =>
            var draining := Control(cmd, s);
            if draining {
              return Onward;
            }
          case _ =>
        }
      }
      next := Waiting;
    }

    method ServingPhase() returns (next: Next)
      requires At(Serving) && !stopped
      modifies this
      ensures next.Onward? ==> At(Draining) && stopped
      ensures next.Ended? ==> At(Done(next.exit))
      ensures next.Waiting? ==> pos == |events| && (At(Serving) || At(Abandoning))
    {
      while pos < |events|
        invariant At(Serving) && !stopped
        decreases |events| - pos
      {
        var e, s := Receive();
        match e {
          case Result(err) =>
            var exit := Finish(ServeResult(err), s);
            return Ended(exit);
          case Closed =>
            next := Abandon();
            return;
          case Request(cmd) =>
            var draining := Control(cmd, s);
            if draining {
              return Onward;
            }
          case _ =>
        }
      }
      next := Waiting;
    }

    method DrainingPhase() returns (next: Next)
      requires At(Draining) && stopped
      modifies this
      ensures !next.Onward?
      ensures next.Ended? ==> At(Done(next.exit))
      ensures next.Waiting? ==> pos == |events| && (At(Draining) || At(Abandoning))
    {
      while pos < |events|
        invariant At(Draining) && stopped
        decreases |events| - pos
      {
        var e, s := Receive();
        match e {
          case Result(err) =>
            var exit := Finish(ServeResult(err), s);
            return Ended(exit);
          case Tick =>
            ReportStatus(last.(checkPoint := (last.checkPoint + 1) % CHECKPOINTS));
          case Backstop =>
            var exit := Finish(Some(ServeOverran), s);
            return Ended(exit);
          case Closed =>
            next := Abandon();
            return;
          case Request(cmd) =>
            var _ := Control(cmd, s);
          case _ =>
        }
      }
      next := Waiting;
    }

    /** abandon: the closed channel has just been received. */
    method Abandon() returns (next: Next)
      requires pos <= |events| && After(c, events[..pos]) == Session(Abandoning, last, true, reports)
      modifies this
      ensures !next.Onward?
      ensures next.Ended? ==> At(Done(next.exit))
      ensures next.Waiting? ==> pos == |events| && At(Abandoning)
    {
      stopped := true;
      while pos < |events|
        invariant At(Abandoning) && stopped
        decreases |events| - pos
      {
        var e, s := Receive();
        match e {
          case Result(err) =>
            var exit := Finish(ServeResult(err), s);
            return Ended(exit);
          case Backstop =>
            var exit := Finish(Some(ServeOverran), s);
            return Ended(exit);
          case _ =>
        }
      }
      next := Waiting;
    }

    /** Run: the three phases in order, the running one skipped when a stop came
        first. Its reports and its exit are the machine's. */
    method Run() returns (exit: Option<Exit>)
      requires At(Starting) && pos == 0 && !stopped
      modifies this
      ensures var s := After(c, events);
              && reports == s.reports
              && exit == if s.phase.Done? then Some(s.phase.exit) else None
    {
      var next := StartingPhase();
      if next.Onward? && !stopped {
        next := ServingPhase();
      }
      if next.Onward? {
        next := DrainingPhase();
      }
      assert events[..|events|] == events;
      if next.Ended? {
        DoneStays(c, events, pos);
        return Some(next.exit);
      }
      exit := None;
    }
  }

  lemma {:induction false} DoneStays(c: Config, events: seq<Event>, k: nat)
    requires k <= |events| && After(c, events[..k]).phase.Done?
    ensures After(c, events) == After(c, events[..k])
    decreases |events| - k
  {
    if k < |events| {
      AfterSnoc(c, events, k);
      DoneStays(c, events, k + 1);
    } else {
      assert events[..k] == events;
    }
  }
}
