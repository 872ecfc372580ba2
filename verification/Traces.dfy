/** What the shared record says, read off the steps of a run, and when a request passes admission. */
module Traces {
  import opened Results
  import opened DriverStates
  import opened GoalLifecycle
  import opened Exclusion

  // --- runs, step by step ---

  lemma {:induction false} RunOn(s: System, a: seq<Step>, b: seq<Step>)
    requires Run(s, a).Some?
    ensures Run(s, a + b) == Run(Run(s, a).value, b)
    decreases |a|
  {
    hide Enabled, Apply;
    if a == [] {
      assert a + b == b;
    } else {
      RunOn(Apply(s, a[0]), a[1..], b);
      assert (a + b)[0] == a[0] && (a + b)[1..] == a[1..] + b;
    }
  }

  /** A run is its steps but the last, and then the last. */
  lemma RunLast(steps: seq<Step>)
    requires steps != [] && Run(START, steps).Some?
    ensures var n := |steps| - 1;
            && Run(START, steps[..n]).Some? && Enabled(Run(START, steps[..n]).value, steps[n])
            && Run(START, steps) == Some(Apply(Run(START, steps[..n]).value, steps[n]))
  {
    hide Enabled, Apply;
    var n := |steps| - 1;
    assert steps == steps[..n] + [steps[n]];
    RunPrefix(START, steps[..n], [steps[n]]);
    RunOn(START, steps[..n], [steps[n]]);
    assert [steps[n]][1..] == [];
  }

  lemma {:induction false} RunPrefix(s: System, a: seq<Step>, b: seq<Step>)
    requires Run(s, a + b).Some?
    ensures Run(s, a).Some?
    decreases |a|
  {
    hide Enabled, Apply;
    if a != [] {
      assert (a + b)[0] == a[0] && (a + b)[1..] == a[1..] + b;
      RunPrefix(Apply(s, a[0]), a[1..], b);
    }
  }

  // --- the record, by what happened last ---

  /** Ends a hold: a resume that worked, one that did not, or the end of the goal that was held. */
  predicate Releases(step: Step) {
    step == OfDashboard(Played) || step == OfDashboard(Unlatched) || (step.OfHandler? && step.own.TearDown?)
  }

  /** The motion is held: paused, and not released since. */
  function Held(steps: seq<Step>): bool {
    steps != [] &&
    var last := steps[|steps| - 1];
    last == OfDashboard(Paused) || (!Releases(last) && Held(steps[..|steps| - 1]))
  }

  /** The safety mode of the last frame. */
  function LastMode(steps: seq<Step>): int {
    if steps == [] then 0
    else
      match steps[|steps| - 1]
      case OfReader(Frame(mode)) => mode
      case _ => LastMode(steps[..|steps| - 1])
  }

  function LinkUp(steps: seq<Step>): bool {
    steps != [] &&
    match steps[|steps| - 1]
    case OfReader(Link(up)) => up
    case _ => LinkUp(steps[..|steps| - 1])
  }

  /** The last frame had a mode that ends the motion, and the goal in flight has not been aborted for it yet. */
  function AbortDue(steps: seq<Step>): bool {
    steps != [] &&
    match steps[|steps| - 1]
    case OfReader(Frame(mode)) => mode == 3 || 5 <= mode <= 9
    case OfReader(Abort) => false
    case _ => AbortDue(steps[..|steps| - 1])
  }

  ghost predicate Traced(s: System, steps: seq<Step>) {
    && s.shared.motionPaused == Held(steps) && s.shared.safetyMode == LastMode(steps) && s.shared.connected == LinkUp(steps)
    && s.aborting == AbortDue(steps)
  }

  ghost predicate SameRecord(s: System, s': System) {
    && s'.shared.motionPaused == s.shared.motionPaused && s'.shared.safetyMode == s.shared.safetyMode
    && s'.shared.connected == s.shared.connected && s'.aborting == s.aborting
  }

  lemma HandlerRecord(s: System, h: nat, a: HandlerStep)
    requires HandlerEnabled(s, h, a)
    ensures var s' := HandlerApply(s, h, a);
            SameRecord(if a.TearDown? then s.(shared := s.shared.Latched(false)) else s, s')
  {
    hide LocalNext, HandlersAfter, VerdictsAfter, BooksAfter, HistoryAfter;
  }

  lemma SocketRecord(s: System, x: SocketStep)
    requires SocketEnabled(s, x)
    ensures SameRecord(s, SocketApply(s, x))
  {
    hide Settled;
  }

  /** What one more step makes of it. */
  lemma OneMore(steps: seq<Step>, step: Step)
    ensures var more := steps + [step];
            && Held(more) == (step == OfDashboard(Paused) || (!Releases(step) && Held(steps)))
            && LastMode(more) == (if step.OfReader? && step.reader.Frame? then step.reader.mode else LastMode(steps))
            && LinkUp(more) == (if step.OfReader? && step.reader.Link? then step.reader.up else LinkUp(steps))
            && AbortDue(more)
               == (if step.OfReader? && step.reader.Frame? then step.reader.mode == 3 || 5 <= step.reader.mode <= 9
                   else step != OfReader(Abort) && AbortDue(steps))
  {
    var more := steps + [step];
    assert more[..|more| - 1] == steps && more[|more| - 1] == step;
  }

  lemma DeskRecord(s: System, d: DeskStep)
    requires DeskEnabled(s, d)
    ensures SameRecord(s, DeskApply(s, d))
  {
    hide Shared.Admission;
  }

  lemma FrameTraced(s: System, s': System, steps: seq<Step>, step: Step)
    requires Traced(s, steps) && SameRecord(s, s')
    requires !step.OfReader? && !Releases(step) && step != OfDashboard(Paused)
    ensures Traced(s', steps + [step])
  {
    hide Held, LastMode, LinkUp, AbortDue;
    OneMore(steps, step);
  }

  lemma ReaderTraced(s: System, steps: seq<Step>, r: ReaderStep)
    requires Traced(s, steps) && ReaderEnabled(s, r)
    ensures Traced(ReaderApply(s, r), steps + [OfReader(r)])
  {
    hide Settled;
    hide Held, LastMode, LinkUp, AbortDue;
    OneMore(steps, OfReader(r));
  }

  lemma DashboardTraced(s: System, steps: seq<Step>, d: DashboardStep)
    requires Traced(s, steps) && DashboardEnabled(s, d)
    ensures Traced(DashboardApply(s, d), steps + [OfDashboard(d)])
  {
    hide Held, LastMode, LinkUp, AbortDue;
    OneMore(steps, OfDashboard(d));
  }

  lemma TearDownTraced(s: System, steps: seq<Step>, h: nat)
    requires Traced(s, steps) && HandlerEnabled(s, h, TearDown)
    ensures Traced(HandlerApply(s, h, TearDown), steps + [OfHandler(h, TearDown)])
  {
    hide HandlerApply, Held, LastMode, LinkUp, AbortDue;
    HandlerRecord(s, h, TearDown);
    OneMore(steps, OfHandler(h, TearDown));
  }

  lemma StepTraced(s: System, steps: seq<Step>, step: Step)
    requires Traced(s, steps) && Enabled(s, step)
    ensures Traced(Apply(s, step), steps + [step])
  {
    hide Traced, SameRecord, DeskApply, HandlerApply, SocketApply, ReaderApply, DashboardApply;
    match step {
      case OfDesk(d) => DeskRecord(s, d); FrameTraced(s, DeskApply(s, d), steps, step);
      case OfHandler(h, a) =>
        if a.TearDown? {
          TearDownTraced(s, steps, h);
        } else {
          HandlerRecord(s, h, a);
          FrameTraced(s, HandlerApply(s, h, a), steps, step);
        }
      case OfSocket(x) => SocketRecord(s, x); FrameTraced(s, SocketApply(s, x), steps, step);
      case OfReader(r) => ReaderTraced(s, steps, r);
      case OfDashboard(d) => DashboardTraced(s, steps, d);
    }
  }

  /** In every reachable state the hold, the mode, the link and a pending abort are as the steps taken say. */
  lemma {:induction false} RecordFollowsSteps(steps: seq<Step>)
    requires Run(START, steps).Some?
    ensures Traced(Run(START, steps).value, steps)
    decreases |steps|
  {
    hide Traced, Enabled, Apply, Run;
    if steps == [] {
      NothingTraced();
    } else {
      var n := |steps| - 1;
      RunLast(steps);
      RecordFollowsSteps(steps[..n]);
      StepTraced(Run(START, steps[..n]).value, steps[..n], steps[n]);
      assert steps == steps[..n] + [steps[n]];
    }
  }

  lemma NothingTraced()
    ensures Run(START, []) == Some(START) && Traced(START, [])
  {
  }

  // --- admission ---

  /**
   Whatever has happened, a request passes admission if and only if the driver knows its own address, the link
   is up, motion is not held, the last frame was normal or reduced, and every live handler is exposed.
   */
  lemma AdmittedIff(steps: seq<Step>, addressKnown: bool)
    requires Run(START, steps).Some? && Enabled(Run(START, steps).value, OfDesk(Check(addressKnown)))
    ensures var s := Run(START, steps).value;
            Apply(s, OfDesk(Check(addressKnown))).desk.Admitted?
            <==> && addressKnown && LinkUp(steps) && !Held(steps) && (LastMode(steps) == 1 || LastMode(steps) == 2)
                 && forall h :: 0 <= h < |s.handlers| && s.handlers[h].Live() ==> s.handlers[h].Exposed()
  {
    hide Run, Held, LinkUp, LastMode, AbortDue;
    RecordFollowsSteps(steps);
    GuardSeesUnlessExposed(steps);
  }

  /** A resume can begin if and only if motion is held and no other resume is under way. */
  lemma ResumableIff(steps: seq<Step>)
    requires Run(START, steps).Some?
    ensures var s := Run(START, steps).value; Enabled(s, OfDashboard(ResumeBegins)) <==> Held(steps) && s.dashboard == Ready
  {
    hide Run, Held, LinkUp, LastMode, AbortDue;
    RecordFollowsSteps(steps);
  }

  /** Once a frame has ended the motion the reader does nothing before the abort it owes, and it aborts only then. */
  lemma AbortsFirst(steps: seq<Step>, r: ReaderStep)
    requires Run(START, steps).Some?
    ensures Enabled(Run(START, steps).value, OfReader(r)) <==> (r.Abort? <==> AbortDue(steps))
  {
    hide Run, Held, LinkUp, LastMode, AbortDue;
    RecordFollowsSteps(steps);
  }

  /** A hold lasts until it is released. */
  lemma {:induction false} HoldLasts(steps: seq<Step>, i: nat)
    requires i < |steps| && steps[i] == OfDashboard(Paused) && forall j :: i < j < |steps| ==> !Releases(steps[j])
    ensures Held(steps)
    decreases |steps|
  {
    if i + 1 < |steps| {
      HoldLasts(steps[..|steps| - 1], i);
    }
  }

  /** From a pause to the next release no request passes admission. */
  lemma HoldRefuses(steps: seq<Step>, i: nat, addressKnown: bool)
    requires Run(START, steps).Some? && Enabled(Run(START, steps).value, OfDesk(Check(addressKnown)))
    requires i < |steps| && steps[i] == OfDashboard(Paused) && forall j :: i < j < |steps| ==> !Releases(steps[j])
    ensures Apply(Run(START, steps).value, OfDesk(Check(addressKnown))).desk == Refusing
  {
    hide Run, Held, LinkUp, LastMode, AbortDue;
    HoldLasts(steps, i);
    RecordFollowsSteps(steps);
  }
}
