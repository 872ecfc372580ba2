/** Runs that show what the conditions of the lifecycle theorems shut out. */
module Episodes {
  import opened Results
  import opened DriverStates
  import opened GoalLifecycle
  import opened Exclusion
  import opened Counting
  import opened Progress
  import opened Traces

  // --- building runs ---

  /** The run can be taken with its reports in order, and without collisions. */
  ghost predicate Disciplines(steps: seq<Step>) { DisciplinedRun(START, steps) }

  /** The run can be taken with its reports in order, and every script is read to its close first. */
  ghost predicate Closes(steps: seq<Step>) { InOrderRun(START, steps) && AlwaysClosesFirst(START, steps) }

  lemma {:induction false} RunsOn(s: System, a: seq<Step>, x: Step)
    requires Run(s, a).Some? && Enabled(Run(s, a).value, x)
    ensures var s' := Run(s, a).value;
            && (DisciplinedRun(s, a) && Disciplined(s', x) ==> DisciplinedRun(s, a + [x]))
            && (InOrderRun(s, a) && InOrder(s', x) ==> InOrderRun(s, a + [x]))
            && (AlwaysClosesFirst(s, a) && ClosesFirst(s', x) ==> AlwaysClosesFirst(s, a + [x]))
    decreases |a|
  {
    hide Enabled, Apply, Disciplined, InOrder, ClosesFirst;
    if a == [] {
      assert (a + [x])[0] == x && (a + [x])[1..] == [];
    } else {
      RunsOn(Apply(s, a[0]), a[1..], x);
      assert (a + [x])[0] == a[0] && (a + [x])[1..] == a[1..] + [x];
    }
  }

  lemma Next(steps: seq<Step>, s: System, x: Step) returns (longer: seq<Step>, s': System)
    requires Run(START, steps) == Some(s) && Enabled(s, x)
    ensures longer == steps + [x] && s' == Apply(s, x) && Run(START, longer) == Some(s')
    ensures Disciplines(steps) && Disciplined(s, x) ==> Disciplines(longer)
    ensures Closes(steps) && InOrder(s, x) && ClosesFirst(s, x) ==> Closes(longer)
  {
    hide Enabled, Apply, Disciplined, InOrder, ClosesFirst, DisciplinedRun, InOrderRun, AlwaysClosesFirst;
    longer, s' := steps + [x], Apply(s, x);
    RunOn(START, steps, [x]);
    RunsOn(START, steps, x);
    assert [x][1..] == [];
  }

  // --- a goal that runs ---

  const FIRST := Ticket(0, 0)
  const UP := FRESH.(connected := true, safetyMode := 1)

  /** One handler spawned for `c`, and nothing of it installed yet. */
  function Spawned(c: RobotCommand): System {
    System(UP.(cancelSender := Some(0), resumeSender := Some(0), activeCommand := Some(c)), Idle, [NewHandler(c)], map[], {}, Listening,
           false, Ready, Books(1, 0, 1, []), UNEVENTFUL)
  }

  lemma SpawnedReached(c: RobotCommand) returns (steps: seq<Step>)
    ensures Run(START, steps) == Some(Spawned(c)) && Disciplines(steps) && Closes(steps)
  {
    hide Run, Disciplines, Closes;
    var s := START;
    steps := [];
    EmptyRun();
    steps, s := Next(steps, s, OfReader(Link(true)));
    steps, s := Next(steps, s, OfReader(Frame(1)));
    assert s == START.(shared := UP);
    steps, s := Next(steps, s, OfDesk(Consume(c)));
    steps, s := Next(steps, s, OfDesk(Check(true)));
    steps, s := Next(steps, s, OfDesk(WriteExecuting));
    assert s.desk == Announced(c);
    steps, s := Next(steps, s, OfDesk(Spawn));
    assert s.handlers == [NewHandler(c)] && s.history.displaced == {};
  }

  lemma EmptyRun()
    ensures Run(START, []) == Some(START) && Disciplines([]) && Closes([])
  {
  }

  /** The script of the first attempt is connected, and its handler waits. */
  function Running(c: RobotCommand): System {
    System(Spawned(c).shared.(goalId := Some(0), goalSender := Some(FIRST), feedbackSender := Some(FIRST)), Idle,
           [NewHandler(c).(pc := Waiting, standing := Holding)], map[FIRST := Held], {FIRST}, Serving(FIRST, 0),
           false, Ready, Books(1, 0, 1, []), UNEVENTFUL)
  }

  lemma RunningReached(c: RobotCommand) returns (steps: seq<Step>)
    ensures Run(START, steps) == Some(Running(c))
    ensures Disciplines(steps)
  {
    hide Run, Disciplines, Closes;
    steps := SpawnedReached(c);
    var s := Spawned(c);
    steps, s := Next(steps, s, OfHandler(0, Install));
    steps, s := Next(steps, s, OfHandler(0, Written));
    steps, s := Next(steps, s, OfSocket(Accept(FIRST)));
    steps, s := Next(steps, s, OfSocket(Greeted(true)));
    assert s.server == Serving(FIRST, 0) && s.shaken == {FIRST};
    steps, s := Next(steps, s, OfHandler(0, Shaken));
    assert s.shared == Running(c).shared && s.handlers == Running(c).handlers;
  }

  // --- two goals at once ---

  /** A second request passes admission while the first is accepted but not installed. */
  lemma AdmittedBeforeInstallation(c: RobotCommand, d: RobotCommand) returns (steps: seq<Step>)
    ensures Run(START, steps).Some? && !Alone(Run(START, steps).value)
    ensures Run(START, steps).value.desk == Admitted(d) && Run(START, steps).value.handlers[0].standing == NotInstalled
  {
    hide Run, Disciplines, Closes;
    steps := SpawnedReached(c);
    var s := Spawned(c);
    steps, s := Next(steps, s, OfDesk(Consume(d)));
    steps, s := Next(steps, s, OfDesk(Check(true)));
    assert s.handlers[0].Live();
  }

  /**
   A second request passes admission after the first goal's socket closed and before its handler tore down.
   The teardown then drops the second goal's verdict sender and clears its guard, while its script runs.
   */
  lemma TornDownByPredecessor(c: RobotCommand, d: RobotCommand) returns (steps: seq<Step>)
    ensures Run(START, steps).Some? && |Run(START, steps).value.handlers| == 2
    ensures var s := Run(START, steps).value;
            s.handlers[1].pc == Handshaking && s.handlers[1].Exposed() && VerdictOf(s, Ticket(1, 0)) == Dropped
  {
    hide Run, Disciplines, Closes;
    var s;
    steps, s := Overtaken(c, d);
    steps, s := Next(steps, s, OfHandler(1, Install));
    steps, s := Next(steps, s, OfHandler(1, Written));
    assert s.handlers[0].pc == TearingDown(Reported(false)) && s.shared.goalSender == Some(Ticket(1, 0));
    steps, s := Next(steps, s, OfHandler(0, TearDown));
  }

  lemma Overtaken(c: RobotCommand, d: RobotCommand) returns (steps: seq<Step>, s: System)
    ensures Run(START, steps) == Some(s)
    ensures s.shared.goalSender == None && s.verdicts == map[FIRST := Sent(false)]
    ensures s.handlers == [NewHandler(c).(pc := TearingDown(Reported(false)), standing := Cleared), NewHandler(d)]
    ensures s.server == Listening && s.history.cancels == {} && s.shared.cancelSender == Some(1)
  {
    hide Run, Disciplines, Closes;
    steps := RunningReached(c);
    s := Running(c);
    steps, s := Next(steps, s, OfSocket(Read(Closed)));
    steps, s := Next(steps, s, OfHandler(0, SeeVerdict));
    steps, s := Next(steps, s, OfHandler(0, Publish));
    assert s.handlers == [NewHandler(c).(pc := TearingDown(Reported(false)), standing := Cleared)];
    steps, s := Next(steps, s, OfDesk(Consume(d)));
    steps, s := Next(steps, s, OfDesk(Check(true)));
    steps, s := Next(steps, s, OfDesk(WriteExecuting));
    assert s.desk == Announced(d);
    steps, s := Next(steps, s, OfDesk(Spawn));
  }

  /** Nobody asks for the second goal to be cancelled, and it ends cancelled and is written as succeeded. */
  lemma CancelledUnasked(c: RobotCommand, d: RobotCommand) returns (steps: seq<Step>)
    ensures Run(START, steps).Some? && |Run(START, steps).value.handlers| == 2
    ensures var s := Run(START, steps).value;
            s.history.cancels == {} && s.handlers[1].pc == TearingDown(Cancelled(true)) && Terminal(1, true) in s.books.terminals
  {
    hide Run, Disciplines, Closes;
    var s;
    steps, s := Unasked(c, d);
    steps, s := Next(steps, s, OfHandler(1, Publish));
    assert s.books.terminals[|s.books.terminals| - 1] == Terminal(1, true);
  }

  lemma Unasked(c: RobotCommand, d: RobotCommand) returns (steps: seq<Step>, s: System)
    ensures Run(START, steps) == Some(s) && |s.handlers| == 2
    ensures s.handlers[1].pc == Publishing(Cancelled(true)) && s.history.cancels == {}
  {
    hide Run, Disciplines, Closes;
    steps, s := SenderDropped(c, d);
    steps, s := Next(steps, s, OfHandler(1, SeeCancel));
    assert s.handlers[1].pc == Cancelling && s.history.cancels == {};
    steps, s := Next(steps, s, OfHandler(1, StopAnswered(true)));
  }

  lemma SenderDropped(c: RobotCommand, d: RobotCommand) returns (steps: seq<Step>, s: System)
    ensures Run(START, steps) == Some(s) && |s.handlers| == 2
    ensures s.handlers[1].pc == Waiting && CancelArrives(s, 1) && s.history.cancels == {}
    ensures VerdictOf(s, Current(s, 1)) == Dropped && s.handlers[1].accepted == d
  {
    hide Run, Disciplines, Closes;
    steps, s := OvertakerWaits(c, d);
    steps, s := Next(steps, s, OfHandler(0, TearDown));
  }

  lemma OvertakerWaits(c: RobotCommand, d: RobotCommand) returns (steps: seq<Step>, s: System)
    ensures Run(START, steps) == Some(s) && |s.handlers| == 2
    ensures s.handlers[0].pc == TearingDown(Reported(false)) && s.handlers[1].pc == Waiting && s.history.cancels == {}
    ensures s.shared.goalSender == Some(SUCCESSOR) && Current(s, 1) == SUCCESSOR && s.handlers[1].accepted == d
  {
    hide Run, Disciplines, Closes;
    steps, s := OvertakerGreeted(c, d);
    steps, s := Next(steps, s, OfHandler(1, Shaken));
  }

  lemma OvertakerGreeted(c: RobotCommand, d: RobotCommand) returns (steps: seq<Step>, s: System)
    ensures Run(START, steps) == Some(s) && |s.handlers| == 2 && s.history.cancels == {}
    ensures s.handlers[0].pc == TearingDown(Reported(false)) && s.handlers[1].pc == Handshaking && Current(s, 1) in s.shaken
    ensures s.shared.goalSender == Some(SUCCESSOR) && Current(s, 1) == SUCCESSOR && s.handlers[1].accepted == d
  {
    hide Run, Disciplines, Closes;
    steps, s := OvertakerInstalled(c, d);
    steps, s := Next(steps, s, OfSocket(Accept(SUCCESSOR)));
    steps, s := Next(steps, s, OfSocket(Greeted(true)));
    assert SUCCESSOR in s.shaken && Current(s, 1) == SUCCESSOR;
  }

  lemma OvertakerInstalled(c: RobotCommand, d: RobotCommand) returns (steps: seq<Step>, s: System)
    ensures Run(START, steps) == Some(s) && |s.handlers| == 2 && s.server == Listening && SUCCESSOR in s.verdicts
    ensures s.handlers[0].pc == TearingDown(Reported(false)) && s.handlers[1].pc == Handshaking && Current(s, 1) == SUCCESSOR
    ensures s.shared.Expecting() && s.shared.handshakeSender == Some(SUCCESSOR) && s.history.cancels == {}
    ensures s.shared.goalSender == Some(SUCCESSOR) && s.handlers[1].accepted == d
  {
    hide Run, Disciplines, Closes;
    steps, s := Overtaken(c, d);
    steps, s := Next(steps, s, OfHandler(1, Install));
    steps, s := Next(steps, s, OfHandler(1, Written));
  }

  const SUCCESSOR := Ticket(1, 0)

  // --- a waypoint skipped ---

  /** Two goals are spawned, neither of them installed. */
  lemma Doubled(c: RobotCommand, d: RobotCommand) returns (steps: seq<Step>, s: System)
    ensures Run(START, steps) == Some(s) && s.handlers == [NewHandler(c), NewHandler(d)]
    ensures s.server == Listening && s.shared.resumeSender == Some(1) && s.dashboard == Ready && s.shared.waypointsCompleted == 0
    ensures s.history.reports == {} && s.verdicts == map[] && s.shared.goalSender == None
    ensures Closes(steps)
  {
    hide Run, Disciplines, Closes;
    steps := SpawnedReached(c);
    s := Spawned(c);
    steps, s := Next(steps, s, OfDesk(Consume(d)));
    steps, s := Next(steps, s, OfDesk(Check(true)));
    steps, s := Next(steps, s, OfDesk(WriteExecuting));
    assert s.desk == Announced(d);
    steps, s := Next(steps, s, OfDesk(Spawn));
  }

  /** The second script is served, reports two waypoints and closes. */
  lemma SecondReports(c: RobotCommand, d: RobotCommand) returns (steps: seq<Step>, s: System)
    ensures Run(START, steps) == Some(s) && |s.handlers| == 2 && s.handlers[0] == NewHandler(c)
    ensures s.server == Listening && s.shared.resumeSender == Some(1) && s.dashboard == Ready && s.shared.waypointsCompleted == 2
    ensures s.history.reports == {Report(SUCCESSOR, 0), Report(SUCCESSOR, 1)}
    ensures Closes(steps)
  {
    hide Run, Disciplines, Closes;
    steps, s := SecondServed(c, d);
    steps, s := Next(steps, s, OfSocket(Read(WaypointReached(0))));
    steps, s := Next(steps, s, OfSocket(Read(WaypointReached(1))));
    assert s.history.reports == {Report(SUCCESSOR, 0), Report(SUCCESSOR, 1)} && s.handlers[0] == NewHandler(c);
    steps, s := Next(steps, s, OfSocket(Read(Closed)));
  }

  lemma SecondServed(c: RobotCommand, d: RobotCommand) returns (steps: seq<Step>, s: System)
    ensures Run(START, steps) == Some(s) && |s.handlers| == 2 && s.handlers[0] == NewHandler(c)
    ensures s.server == Serving(SUCCESSOR, 0) && s.shared.resumeSender == Some(1) && s.dashboard == Ready
    ensures s.history.reports == {}
    ensures Closes(steps)
  {
    hide Run, Disciplines, Closes;
    steps, s := Doubled(c, d);
    steps, s := Next(steps, s, OfHandler(1, Install));
    assert s.shared.handshakeSender == Some(SUCCESSOR) && s.handlers[0] == NewHandler(c);
    steps, s := Next(steps, s, OfSocket(Accept(SUCCESSOR)));
    steps, s := Next(steps, s, OfSocket(Greeted(true)));
  }

  /** The first goal is installed after that, and waits on a script that has reported nothing. */
  lemma FirstWaits(c: RobotCommand, d: RobotCommand) returns (steps: seq<Step>, s: System)
    ensures Run(START, steps) == Some(s) && |s.handlers| == 2 && s.handlers[0] == NewHandler(c).(pc := Waiting, standing := Holding)
    ensures s.server == Serving(FIRST, 0) && ResumeArrives(s, 0) && s.shared.waypointsCompleted == 2
    ensures s.history.reports == {Report(SUCCESSOR, 0), Report(SUCCESSOR, 1)}
    ensures Closes(steps)
  {
    hide Run, Disciplines, Closes;
    steps, s := SecondReports(c, d);
    steps, s := Next(steps, s, OfHandler(0, Install));
    steps, s := Next(steps, s, OfHandler(0, Written));
    assert s.shared.handshakeSender == Some(FIRST) && s.handlers[0] == NewHandler(c).(pc := Handshaking, standing := Holding);
    steps, s := Next(steps, s, OfSocket(Accept(FIRST)));
    steps, s := Next(steps, s, OfSocket(Greeted(true)));
    assert FIRST in s.shaken && Current(s, 0) == FIRST;
    steps, s := Next(steps, s, OfHandler(0, Shaken));
  }

  /**
   Two goals collide. The second's script reports two waypoints and closes; the first goal, whose resume
   channel the second's admission has closed, takes them for its own and drops two that nobody reached. Every
   script here is read to its close before progress is reset.
   */
  lemma CollisionSkips(c: RobotCommand, d: RobotCommand) returns (steps: seq<Step>)
    requires !EndsWith(c.commandType, "_relative") && |c.waypoints| == 3
    ensures Run(START, steps).Some? && |Run(START, steps).value.handlers| == 2
    ensures var s := Run(START, steps).value;
            s.server == Listening && s.handlers[0].accepted == c && s.handlers[0].Offset() == 2
            && !Reached(s, 0, 0) && !Reached(s, 0, 1)
    ensures Closes(steps)
  {
    hide Run, Disciplines, Closes, EndsWith, Enabled, Apply;
    var s;
    steps, s := FirstWaits(c, d);
    steps, s := FirstClaims(steps, s);
    steps, s := FirstResets(steps, s);
  }

  lemma FirstClaims(steps: seq<Step>, s: System) returns (longer: seq<Step>, s': System)
    requires Run(START, steps) == Some(s) && |s.handlers| == 2 && s.handlers[0].pc == Waiting && ResumeArrives(s, 0)
    requires !EndsWith(s.handlers[0].command.commandType, "_relative")
    requires 2 == s.shared.waypointsCompleted < |s.handlers[0].command.waypoints|
    ensures Run(START, longer) == Some(s') && |s'.handlers| == 2 && s'.server == s.server && s'.history == s.history
    ensures s'.handlers[0] == s.handlers[0].(pc := s'.handlers[0].pc, resumeSignalled := false, standing := Claimed)
    ensures s'.handlers[0].pc.Killing? && s'.handlers[0].pc.dropped == 2
    ensures Closes(steps) ==> Closes(longer)
  {
    hide Run, Disciplines, Closes, EndsWith;
    longer, s' := Next(steps, s, OfHandler(0, SeeResume(true)));
    assert s'.handlers[0].pc.Claiming? && s'.handlers[0].pc.dropped == 2;
    longer, s' := Next(longer, s', OfHandler(0, Claim));
  }

  lemma FirstResets(steps: seq<Step>, s: System) returns (longer: seq<Step>, s': System)
    requires Run(START, steps) == Some(s) && |s.handlers| == 2 && s.handlers[0].pc.Killing? && s.handlers[0].pc.dropped == 2
    requires s.server.Serving? && s.handlers[0].offsets == [0]
    ensures Run(START, longer) == Some(s') && |s'.handlers| == 2 && s'.server == Listening
    ensures s'.handlers[0].offsets == [0, 2] && s'.handlers[0].accepted == s.handlers[0].accepted
    ensures s'.history.reports == s.history.reports
    ensures Closes(steps) ==> Closes(longer)
  {
    hide Run, Disciplines, Closes;
    longer, s' := FirstDrains(steps, s);
    longer, s' := Next(longer, s', OfHandler(0, Reset));
  }

  lemma FirstDrains(steps: seq<Step>, s: System) returns (longer: seq<Step>, s': System)
    requires Run(START, steps) == Some(s) && |s.handlers| == 2 && s.handlers[0].pc.Killing? && s.server.Serving?
    ensures Run(START, longer) == Some(s') && |s'.handlers| == 2 && s'.server == Listening
    ensures s'.handlers[0].pc.Resetting? && s'.handlers[0].pc.dropped == s.handlers[0].pc.dropped
    ensures s'.handlers[0].offsets == s.handlers[0].offsets && s'.handlers[0].accepted == s.handlers[0].accepted
    ensures s'.history == s.history
    ensures Closes(steps) ==> Closes(longer)
  {
    hide Run, Disciplines, Closes, Settled;
    var pc := s.handlers[0].pc;
    longer, s' := Next(steps, s, OfHandler(0, StopReturns));
    assert s'.handlers[0] == s.handlers[0].(pc := Draining(pc.next, pc.dropped));
    longer, s' := FirstCloses(longer, s');
    longer, s' := Next(longer, s', OfHandler(0, DrainTimesOut));
  }

  lemma FirstCloses(steps: seq<Step>, s: System) returns (longer: seq<Step>, s': System)
    requires Run(START, steps) == Some(s) && |s.handlers| == 2 && s.server.Serving?
    ensures Run(START, longer) == Some(s') && |s'.handlers| == 2 && s'.server == Listening && s'.history == s.history
    ensures s'.handlers[0] == s.handlers[0].(standing := s'.handlers[0].standing)
    ensures Closes(steps) ==> Closes(longer)
  {
    hide Run, Disciplines, Closes, Settled;
    longer, s' := Next(steps, s, OfSocket(Read(Closed)));
  }

  /** The dashboard fails to resume by `play` and signals the goal. */
  lemma TellsToResume(steps: seq<Step>, s: System) returns (longer: seq<Step>, s': System)
    requires Run(START, steps) == Some(s) && s.dashboard == Ready && |s.handlers| == 1 && s.handlers[0].Live()
    requires s.shared.resumeSender == Some(0) && !s.shared.motionPaused
    ensures Run(START, longer) == Some(s')
    ensures s' == s.(handlers := [s.handlers[0].(resumeSignalled := true)], history := s.history.Signalled(0))
    ensures Disciplines(steps) ==> Disciplines(longer)
  {
    hide Run, Disciplines, Closes;
    longer, s' := Next(steps, s, OfDashboard(Paused));
    longer, s' := Next(longer, s', OfDashboard(ResumeBegins));
    longer, s' := Next(longer, s', OfDashboard(Unlatched));
    assert s'.dashboard == Signalling(Some(0)) && s'.shared == s.shared;
    longer, s' := Next(longer, s', OfDashboard(Signal));
  }

  /** The goal re-issues itself, and the killed script's verdict does not come in time. */
  lemma Reissued(steps: seq<Step>, s: System) returns (longer: seq<Step>, s': System)
    requires Run(START, steps) == Some(s) && |s.handlers| == 1
    requires s.handlers[0].pc == Waiting && s.handlers[0].resumeSignalled
    requires !EndsWith(s.handlers[0].command.commandType, "_relative") && s.shared.waypointsCompleted < |s.handlers[0].command.waypoints|
    ensures Run(START, longer) == Some(s')
    ensures var me, n := s.handlers[0], s.shared.waypointsCompleted;
            && s'.handlers == [me.(pc := Activating, attempt := me.attempt + 1, resumeSignalled := false, standing := Claimed,
                                   command := me.command.(waypoints := me.command.waypoints[n..]),
                                   offsets := me.offsets + [me.Offset() + n])]
            && s' == s.(shared := s.shared.Claimed().ProgressReset(), handlers := s'.handlers, history := s.history.Uncounted())
    ensures Disciplines(steps) ==> Disciplines(longer)
  {
    hide Run, Disciplines, Closes, EndsWith;
    longer, s' := ResumeSeen(steps, s);
    longer, s' := Killed(longer, s');
    longer, s' := Next(longer, s', OfHandler(0, Reset));
  }

  lemma Killed(steps: seq<Step>, s: System) returns (longer: seq<Step>, s': System)
    requires Run(START, steps) == Some(s) && |s.handlers| == 1 && s.handlers[0].pc.Claiming?
    ensures Run(START, longer) == Some(s')
    ensures var me := s.handlers[0];
            s' == s.(shared := s.shared.Claimed(), handlers := [me.(pc := Resetting(me.pc.next, me.pc.dropped), standing := Claimed)])
    ensures Disciplines(steps) ==> Disciplines(longer)
  {
    hide Run, Disciplines, Closes;
    longer, s' := ClaimMade(steps, s);
    longer, s' := Next(longer, s', OfHandler(0, StopReturns));
    longer, s' := Next(longer, s', OfHandler(0, DrainTimesOut));
  }

  lemma ClaimMade(steps: seq<Step>, s: System) returns (longer: seq<Step>, s': System)
    requires Run(START, steps) == Some(s) && |s.handlers| == 1 && s.handlers[0].pc.Claiming?
    ensures Run(START, longer) == Some(s')
    ensures var me := s.handlers[0];
            s' == s.(shared := s.shared.Claimed(), handlers := [me.(pc := Killing(me.pc.next, me.pc.dropped), standing := Claimed)])
    ensures Disciplines(steps) ==> Disciplines(longer)
  {
    hide Run, Disciplines, Closes;
    longer, s' := Next(steps, s, OfHandler(0, Claim));
  }

  lemma ResumeSeen(steps: seq<Step>, s: System) returns (longer: seq<Step>, s': System)
    requires Run(START, steps) == Some(s) && |s.handlers| == 1
    requires s.handlers[0].pc == Waiting && s.handlers[0].resumeSignalled
    requires !EndsWith(s.handlers[0].command.commandType, "_relative") && s.shared.waypointsCompleted < |s.handlers[0].command.waypoints|
    ensures Run(START, longer) == Some(s')
    ensures var me, n := s.handlers[0], s.shared.waypointsCompleted;
            s' == s.(handlers := [me.(pc := Claiming(me.command.(waypoints := me.command.waypoints[n..]), n), resumeSignalled := false)])
    ensures Disciplines(steps) ==> Disciplines(longer)
  {
    hide Run, Disciplines, Closes, EndsWith;
    longer, s' := Next(steps, s, OfHandler(0, SeeResume(true)));
  }

  const SECOND := Ticket(0, 1)

  /** The old script reports once more and closes after progress was reset; the second attempt then starts. */
  lemma ReportedLate(steps: seq<Step>, s: System) returns (longer: seq<Step>, s': System)
    requires Run(START, steps) == Some(s) && |s.handlers| == 1 && s.handlers[0].pc == Activating && s.handlers[0].attempt == 1
    requires s.server == Serving(FIRST, 1) && s.history.reports == {Report(FIRST, 0)}
    ensures Run(START, longer) == Some(s') && |s'.handlers| == 1
    ensures s'.handlers[0] == s.handlers[0].(pc := Connecting, standing := s'.handlers[0].standing)
    ensures s'.history.reports == {Report(FIRST, 0), Report(FIRST, 1)}
    ensures s'.server == Listening && s'.dashboard == s.dashboard
    ensures s'.shared.waypointsCompleted == 2
    ensures s'.shared.resumeSender == s.shared.resumeSender && s'.shared.motionPaused == s.shared.motionPaused
    ensures Disciplines(steps) ==> Disciplines(longer)
  {
    hide Run, Disciplines, Closes;
    longer, s' := Next(steps, s, OfSocket(Read(WaypointReached(1))));
    assert s'.history.reports == {Report(FIRST, 0), Report(FIRST, 1)};
    longer, s' := Next(longer, s', OfSocket(Read(Closed)));
    longer, s' := Next(longer, s', OfHandler(0, Activate));
  }

  lemma SecondRunning(steps: seq<Step>, s: System) returns (longer: seq<Step>, s': System)
    requires Run(START, steps) == Some(s) && |s.handlers| == 1 && s.handlers[0].pc == Connecting && s.handlers[0].attempt == 1
    requires s.server == Listening
    ensures Run(START, longer) == Some(s') && |s'.handlers| == 1
    ensures s'.handlers[0] == s.handlers[0].(pc := Waiting, standing := Holding) && s'.server == Serving(SECOND, 0)
    ensures s'.dashboard == s.dashboard && s'.shared.waypointsCompleted == s.shared.waypointsCompleted && s'.history == s.history
    ensures s'.shared.resumeSender == s.shared.resumeSender && s'.shared.motionPaused == s.shared.motionPaused
    ensures Disciplines(steps) ==> Disciplines(longer)
  {
    hide Run, Disciplines, Closes;
    longer, s' := SecondInstalled(steps, s);
    longer, s' := Next(longer, s', OfSocket(Accept(SECOND)));
    longer, s' := Next(longer, s', OfSocket(Greeted(true)));
    longer, s' := Next(longer, s', OfHandler(0, Shaken));
  }

  lemma SecondInstalled(steps: seq<Step>, s: System) returns (longer: seq<Step>, s': System)
    requires Run(START, steps) == Some(s) && |s.handlers| == 1 && s.handlers[0].pc == Connecting && s.handlers[0].attempt == 1
    ensures Run(START, longer) == Some(s') && s'.server == s.server && s'.dashboard == s.dashboard && s'.history == s.history
    ensures s'.handlers == [s.handlers[0].(pc := Handshaking, standing := Holding)]
    ensures s'.shared == s.shared.AttemptInstalled(SECOND) && SECOND in s'.verdicts
    ensures Disciplines(steps) ==> Disciplines(longer)
  {
    hide Run, Disciplines, Closes;
    longer, s' := Next(steps, s, OfHandler(0, Install));
    longer, s' := Next(longer, s', OfHandler(0, Written));
  }

  /**
   When the drain times out, a report of the old script that arrives after progress was reset is counted for
   the next attempt: of five waypoints the third is dropped without ever having been reached.
   */
  lemma LateReportSkips(c: RobotCommand) returns (steps: seq<Step>)
    requires !EndsWith(c.commandType, "_relative") && |c.waypoints| == 5
    ensures Run(START, steps).Some? && |Run(START, steps).value.handlers| == 1
    ensures var s := Run(START, steps).value;
            var me := s.handlers[0];
            me.accepted == c && me.Offset() == 3 && me.command.waypoints == c.waypoints[3..] && !Reached(s, 0, 2)
    ensures Disciplines(steps) && !AlwaysCountsOwn(START, steps)
  {
    hide Run, Disciplines, Closes, EndsWith, Enabled, Apply;
    var s;
    steps, s := FirstReported(c);
    steps, s := TellsToResume(steps, s);
    steps, s := Reissued(steps, s);
    steps, s := ReportedLate(steps, s);
    steps, s := SecondRunning(steps, s);
    steps, s := TellsToResume(steps, s);
    steps, s := Reissued(steps, s);
    assert c.waypoints[1..][2..] == c.waypoints[3..];
    assert s.handlers[0].offsets[0] == 0;
    NotSkipFree(steps, 0, 2);
  }

  /** A run that dropped a waypoint nobody reached is not one that only counts a goal's own reports. */
  lemma NotSkipFree(steps: seq<Step>, h: nat, k: nat)
    requires Disciplines(steps) && Run(START, steps).Some? && h < |Run(START, steps).value.handlers|
    requires k < Run(START, steps).value.handlers[h].Offset() && !Reached(Run(START, steps).value, h, k)
    ensures !AlwaysCountsOwn(START, steps)
  {
    hide Run, Reached, AlwaysCountsOwn, DisciplinedRun;
    if AlwaysCountsOwn(START, steps) {
      NothingSkipped(steps, h);
    }
  }

  lemma FirstReported(c: RobotCommand) returns (steps: seq<Step>, s: System)
    ensures Run(START, steps) == Some(s)
    ensures s.server == Serving(FIRST, 1) && s.dashboard == Ready && s.shared == Running(c).shared.(waypointsCompleted := 1)
    ensures s.handlers == [NewHandler(c).(pc := Waiting, standing := Holding)]
    ensures s.history.reports == {Report(FIRST, 0)}
    ensures Disciplines(steps)
  {
    hide Run, Disciplines, Closes;
    steps := RunningReached(c);
    s := Running(c);
    steps, s := Next(steps, s, OfSocket(Read(WaypointReached(0))));
    assert s.history.reports == {Report(FIRST, 0)};
  }
}
