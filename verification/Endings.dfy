/** The ways in which a goal can end, and that each of them happens. */
module Endings {
  import opened Results
  import opened DriverStates
  import opened GoalLifecycle
  import opened Resumption
  import opened Accounting
  import opened Records
  import opened Episodes

  predicate Relative(c: RobotCommand) { EndsWith(c.commandType, "_relative") }

  /** Only what a resume does depends on the command. */
  predicate Possible(c: RobotCommand, e: Ending) {
    match e
    case NotRendered => !Relative(c)
    case Refused(RelativeMove(kind)) => Relative(c) && kind == c.commandType
    case Refused(AllReached(kind, count)) => !Relative(c) && kind == c.commandType && 1 <= count <= |c.waypoints|
    case _ => true
  }

  /** In this run a goal with this command comes to this end. */
  ghost predicate ComesTo(steps: seq<Step>, h: nat, c: RobotCommand, e: Ending) {
    Run(START, steps).Some? && h < |Run(START, steps).value.handlers| &&
    var me := Run(START, steps).value.handlers[h]; me.accepted == c && me.pc == Finished(e)
  }

  // --- no other ending ---

  predicate EndsLawfully(me: Handler) { EndingAt(me.pc).Some? ==> Possible(me.command, EndingAt(me.pc).value) }

  ghost predicate AllEndLawfully(hs: seq<Handler>) { forall h :: 0 <= h < |hs| ==> EndsLawfully(hs[h]) }

  lemma RefusedLawfully(command: RobotCommand, completed: nat)
    ensures RemainingCommand(command, completed).Err? ==> Possible(command, Refused(RemainingCommand(command, completed).error))
    ensures RemainingCommand(command, completed).Ok? ==> !Relative(command)
  {
  }

  lemma LocalLawful(s: System, h: nat, a: HandlerStep)
    requires HandlerEnabled(s, h, a) && a.Local()
    ensures EndsLawfully(LocalApply(s, h, a).handlers[h])
  {
    hide CancelArrives, ResumeArrives, VerdictOf, RemainingCommand, Relative;
    RefusedLawfully(s.handlers[h].command, s.shared.waypointsCompleted);
  }

  lemma SharedLawful(s: System, h: nat, a: HandlerStep)
    requires HandlerEnabled(s, h, a) && !a.Local() && EndsLawfully(s.handlers[h])
    ensures EndsLawfully(SharedApply(s, h, a).handlers[h])
  {
    hide Possible, RecordAfter, VerdictsAfter, BooksAfter, HistoryAfter;
  }

  lemma OwnLawful(s: System, h: nat, a: HandlerStep)
    requires HandlerEnabled(s, h, a) && EndsLawfully(s.handlers[h])
    ensures EndsLawfully(HandlerApply(s, h, a).handlers[h])
  {
    hide EndsLawfully, LocalApply, SharedApply;
    if a.Local() {
      LocalLawful(s, h, a);
    } else {
      SharedLawful(s, h, a);
    }
  }

  lemma Newcomers(s: System, step: Step)
    requires Enabled(s, step)
    ensures var hs := Apply(s, step).handlers;
            |s.handlers| <= |hs| && forall h :: |s.handlers| <= h < |hs| ==> EndsLawfully(hs[h])
  {
    hide LocalNext, RecordAfter, VerdictsAfter, BooksAfter, HistoryAfter, Settled, Shared.Admission, Possible;
  }

  lemma StepLawful(s: System, step: Step)
    requires AllEndLawfully(s.handlers) && Enabled(s, step)
    ensures AllEndLawfully(Apply(s, step).handlers)
  {
    hide Apply, Enabled, EndsLawfully;
    Newcomers(s, step);
    forall h | 0 <= h < |s.handlers| ensures EndsLawfully(Apply(s, step).handlers[h]) {
      EachLawful(s, step, h);
    }
  }

  lemma EachLawful(s: System, step: Step, h: nat)
    requires Enabled(s, step) && h < |s.handlers| && EndsLawfully(s.handlers[h])
    ensures h < |Apply(s, step).handlers| && EndsLawfully(Apply(s, step).handlers[h])
  {
    hide HandlerApply, HandlerEnabled, DeskApply, SocketApply, ReaderApply, DashboardApply, Possible;
    Newcomers(s, step);
    if step.OfHandler? && step.h == h {
      hide EndsLawfully;
      OwnLawful(s, h, step.own);
    } else {
      OthersLeaveIt(s, step, h);
    }
  }

  lemma {:induction false} RunLawful(s: System, steps: seq<Step>)
    requires AllEndLawfully(s.handlers) && Run(s, steps).Some?
    ensures AllEndLawfully(Run(s, steps).value.handlers)
    decreases |steps|
  {
    hide AllEndLawfully, Enabled, Apply;
    if steps != [] {
      StepLawful(s, steps[0]);
      RunLawful(Apply(s, steps[0]), steps[1..]);
    }
  }

  /** What is left of a command can end in no way that the whole cannot. */
  lemma OnlyPossible(steps: seq<Step>, h: nat, c: RobotCommand, e: Ending)
    requires ComesTo(steps, h, c, e)
    ensures Possible(c, e)
  {
    hide Run;
    RunLawful(START, steps);
    ReissuesKeepTheRest(steps, h);
    assert EndsLawfully(Run(START, steps).value.handlers[h]);
  }

  // --- every one of them ---

  lemma Finishes(steps: seq<Step>, s: System, h: nat, c: RobotCommand, e: Ending) returns (longer: seq<Step>)
    requires Run(START, steps) == Some(s) && h < |s.handlers| && s.handlers[h].accepted == c && s.handlers[h].pc == Publishing(e)
    ensures ComesTo(longer, h, c, e)
  {
    hide Run, Disciplines, Closes;
    var s';
    longer, s' := Next(steps, s, OfHandler(h, Publish));
    assert s'.handlers[h] == s.handlers[h].(pc := TearingDown(e));
    longer, s' := Next(longer, s', OfHandler(h, TearDown));
  }

  lemma EndsUnconnected(c: RobotCommand) returns (steps: seq<Step>)
    ensures ComesTo(steps, 0, c, NoConnection)
  {
    hide Run, Disciplines, Closes, ComesTo;
    steps := SpawnedReached(c);
    var s := Spawned(c);
    steps, s := Next(steps, s, OfHandler(0, ConnectFails));
    steps := Finishes(steps, s, 0, c, NoConnection);
  }

  lemma Installs(c: RobotCommand) returns (steps: seq<Step>, s: System)
    ensures Run(START, steps) == Some(s) && s.handlers == [NewHandler(c).(pc := Writing, standing := Holding)]
  {
    hide Run, Disciplines, Closes;
    steps := SpawnedReached(c);
    s := Spawned(c);
    steps, s := Next(steps, s, OfHandler(0, Install));
  }

  /** Before the script has shaken hands. */
  lemma EndsUnserved(c: RobotCommand, e: Ending) returns (steps: seq<Step>)
    requires e.WriteFailed? || e.NoHandshake?
    ensures ComesTo(steps, 0, c, e)
  {
    hide Run, Disciplines, Closes, ComesTo;
    var s;
    steps, s := Installs(c);
    if e.WriteFailed? {
      steps, s := Next(steps, s, OfHandler(0, WriteFails));
    } else {
      steps, s := Next(steps, s, OfHandler(0, Written));
      steps, s := Next(steps, s, OfHandler(0, NotShaken));
    }
    steps := Finishes(steps, s, 0, c, e);
  }

  /** On what its script says. */
  lemma EndsReported(c: RobotCommand, ok: bool) returns (steps: seq<Step>)
    ensures ComesTo(steps, 0, c, Reported(ok))
  {
    hide Run, Disciplines, Closes, ComesTo;
    steps := RunningReached(c);
    var s := Running(c);
    steps, s := Next(steps, s, OfSocket(Read(if ok then OkLine else ErrorLine)));
    assert VerdictOf(s, FIRST) == Sent(ok) && s.handlers == Running(c).handlers;
    steps, s := Next(steps, s, OfHandler(0, SeeVerdict));
    steps := Finishes(steps, s, 0, c, Reported(ok));
  }

  /** On a cancel, whatever the dashboard makes of the stop. */
  lemma EndsCancelled(c: RobotCommand, e: Ending) returns (steps: seq<Step>)
    requires e.Cancelled? || e.CancelUnanswered?
    ensures ComesTo(steps, 0, c, e)
  {
    hide Run, Disciplines, Closes, ComesTo;
    steps := RunningReached(c);
    var s := Running(c);
    steps, s := Next(steps, s, OfDesk(Cancel));
    steps, s := Next(steps, s, OfHandler(0, SeeCancel));
    assert s.handlers == [NewHandler(c).(pc := Cancelling, standing := Holding)];
    steps, s := Next(steps, s, OfHandler(0, if e.Cancelled? then StopAnswered(e.answer) else StopUnanswered));
    steps := Finishes(steps, s, 0, c, e);
  }

  /** On a resume of the first attempt that comes to nothing. */
  lemma EndsUnresumed(c: RobotCommand, e: Ending) returns (steps: seq<Step>)
    requires Possible(c, e) && (e.NotRendered? || (e.Refused? && e.reason.RelativeMove?))
    ensures ComesTo(steps, 0, c, e)
  {
    hide Run, Disciplines, Closes, ComesTo;
    steps := RunningReached(c);
    var s := Running(c);
    steps, s := TellsToResume(steps, s);
    assert s.handlers == [Running(c).handlers[0].(resumeSignalled := true)] && s.shared == Running(c).shared;
    steps, s := Next(steps, s, OfHandler(0, SeeResume(false)));
    steps := Finishes(steps, s, 0, c, e);
  }

  /** On a sender that another goal's teardown dropped. */
  lemma EndsAbandoned(c: RobotCommand) returns (steps: seq<Step>)
    ensures ComesTo(steps, 1, c, Abandoned)
  {
    hide Run, Disciplines, Closes, ComesTo;
    var s;
    steps, s := SenderDropped(c, c);
    steps, s := Next(steps, s, OfHandler(1, SeeVerdict));
    steps := Finishes(steps, s, 1, c, Abandoned);
  }

  /** The script being served has come to the end of its first `n` waypoints. */
  lemma ReportsUpTo(steps: seq<Step>, s: System, n: nat) returns (longer: seq<Step>, s': System)
    requires Run(START, steps) == Some(s) && s.server.Serving? && s.shared.waypointsCompleted == 0
    ensures Run(START, longer) == Some(s') && s'.server.Serving?
    ensures s'.shared == s.shared.(waypointsCompleted := n) && s'.handlers == s.handlers && s'.dashboard == s.dashboard
  {
    hide Run, Disciplines, Closes;
    longer, s' := steps, s;
    if n > 0 {
      longer, s' := Next(steps, s, OfSocket(Read(WaypointReached(n - 1))));
    }
  }

  /** The old script closes, and the second attempt runs. */
  lemma RunsAgain(steps: seq<Step>, s: System) returns (longer: seq<Step>, s': System)
    requires Run(START, steps) == Some(s) && |s.handlers| == 1 && s.handlers[0].pc == Activating && s.handlers[0].attempt == 1
    requires s.server.Serving? && s.dashboard == Ready && s.shared.resumeSender == Some(0) && !s.shared.motionPaused
    ensures Run(START, longer) == Some(s') && |s'.handlers| == 1 && s'.server.Serving? && s'.dashboard == Ready
    ensures s'.handlers[0] == s.handlers[0].(pc := Waiting, standing := Holding)
    ensures s'.shared.waypointsCompleted == s.shared.waypointsCompleted && s'.shared.resumeSender == Some(0) && !s'.shared.motionPaused
  {
    hide Run, Disciplines, Closes, Settled;
    longer, s' := Next(steps, s, OfSocket(Read(Closed)));
    assert s'.handlers[0] == s.handlers[0].(standing := s'.handlers[0].standing);
    longer, s' := Next(longer, s', OfHandler(0, Activate));
    longer, s' := SecondRunning(longer, s');
  }

  /** A goal re-issued with its last waypoints, which its second attempt reaches before it is resumed again. */
  lemma EndsAllReached(c: RobotCommand, count: nat) returns (steps: seq<Step>)
    requires !Relative(c) && 1 <= count <= |c.waypoints|
    ensures ComesTo(steps, 0, c, Refused(AllReached(c.commandType, count)))
  {
    hide Run, Disciplines, Closes, ComesTo, EndsWith;
    var s;
    steps, s := WaitsAgain(c, count);
    steps, s := ReportsUpTo(steps, s, count);
    steps, s := TellsToResume(steps, s);
    steps, s := RefusesToGoOn(steps, s, c.commandType, count);
    steps := Finishes(steps, s, 0, c, Refused(AllReached(c.commandType, count)));
  }

  lemma WaitsAgain(c: RobotCommand, count: nat) returns (steps: seq<Step>, s: System)
    requires !Relative(c) && 1 <= count <= |c.waypoints|
    ensures Run(START, steps) == Some(s) && |s.handlers| == 1 && s.server.Serving? && s.dashboard == Ready
    ensures s.shared.waypointsCompleted == 0 && s.shared.resumeSender == Some(0) && !s.shared.motionPaused
    ensures var me := s.handlers[0];
            me.pc == Waiting && me.accepted == c && me.command.commandType == c.commandType && |me.command.waypoints| == count
  {
    hide Run, Disciplines, Closes, EndsWith;
    steps := RunningReached(c);
    s := Running(c);
    steps, s := ReportsUpTo(steps, s, |c.waypoints| - count);
    steps, s := TellsToResume(steps, s);
    steps, s := Reissued(steps, s);
    steps, s := RunsAgain(steps, s);
  }

  lemma RefusesToGoOn(steps: seq<Step>, s: System, kind: string, count: nat) returns (longer: seq<Step>, s': System)
    requires Run(START, steps) == Some(s) && |s.handlers| == 1
    requires var me := s.handlers[0];
             && me.pc == Waiting && me.resumeSignalled && me.command.commandType == kind && !EndsWith(kind, "_relative")
             && |me.command.waypoints| == count == s.shared.waypointsCompleted && count > 0
    ensures Run(START, longer) == Some(s') && |s'.handlers| == 1
    ensures s'.handlers[0].accepted == s.handlers[0].accepted && s'.handlers[0].pc == Publishing(Refused(AllReached(kind, count)))
  {
    hide Run, Disciplines, Closes, EndsWith;
    longer, s' := Next(steps, s, OfHandler(0, SeeResume(true)));
  }

  lemma EveryPossible(c: RobotCommand, e: Ending) returns (steps: seq<Step>, h: nat)
    requires Possible(c, e)
    ensures ComesTo(steps, h, c, e)
  {
    hide ComesTo, EndsWith;
    h := if e.Abandoned? then 1 else 0;
    if e.NoConnection? {
      steps := EndsUnconnected(c);
    } else if e.WriteFailed? || e.NoHandshake? {
      steps := EndsUnserved(c, e);
    } else if e.Reported? {
      steps := EndsReported(c, e.ok);
    } else if e.Abandoned? {
      steps := EndsAbandoned(c);
    } else if e.Cancelled? || e.CancelUnanswered? {
      steps := EndsCancelled(c, e);
    } else if e.NotRendered? || e.reason.RelativeMove? {
      steps := EndsUnresumed(c, e);
    } else {
      steps := EndsAllReached(c, e.reason.count);
    }
  }

  /**
   A goal can come to an end if and only if it is one of these: a resume is not rendered only for a command that
   is not relative; it is refused as relative exactly for those that are; and it is refused because all is reached
   for any number of waypoints that can be left of a command. All other endings can befall any command.
   */
  lemma EndingIff(c: RobotCommand, e: Ending)
    ensures (exists steps, h :: ComesTo(steps, h, c, e)) <==> Possible(c, e)
  {
    hide ComesTo, Possible;
    if steps, h :| ComesTo(steps, h, c, e) {
      OnlyPossible(steps, h, c, e);
    }
    if Possible(c, e) {
      var steps, h := EveryPossible(c, e);
    }
  }
}
