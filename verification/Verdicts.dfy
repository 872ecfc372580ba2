/** Every attempt gets at most one verdict, and no handler is left waiting for one that cannot come. */
module Verdicts {
  import opened Results
  import opened DriverStates
  import opened GoalLifecycle

  // --- senders are linear ---

  /** A verdict is outstanding exactly while its sender is in the shared slot. */
  ghost predicate SlotExact(s: System) {
    forall t :: t in s.verdicts && s.verdicts[t] == Held <==> s.shared.goalSender == Some(t)
  }

  /** Only attempts that were installed have a verdict, and those that listen for one were. */
  ghost predicate AttemptsExact(s: System) {
    && (forall t :: t in s.verdicts ==> t.handler < |s.handlers| && t.attempt <= s.handlers[t.handler].attempt)
    && (forall h :: 0 <= h < |s.handlers| ==>
          && (s.handlers[h].pc.Listening() ==> Current(s, h) in s.verdicts)
          && (s.handlers[h].pc.Connecting? || s.handlers[h].pc.Activating? ==> Current(s, h) !in s.verdicts))
  }

  ghost predicate Linear(s: System) { SlotExact(s) && AttemptsExact(s) }

  /** Verdicts only ever become settled. */
  ghost predicate Settles(s: System, s': System) {
    forall t :: t in s.verdicts ==> t in s'.verdicts && (s.verdicts[t] != Held ==> s'.verdicts[t] == s.verdicts[t])
  }

  lemma StartLinear()
    ensures Linear(START)
  {
  }

  /** Handlers that listen on the same attempt as before, or no longer. */
  ghost predicate SameAttempts(hs: seq<Handler>, hs': seq<Handler>) {
    && |hs'| == |hs|
    && forall i :: 0 <= i < |hs| ==>
         && hs'[i].attempt == hs[i].attempt
         && (hs'[i].pc.Listening() ==> hs[i].pc.Listening())
         && (hs'[i].pc.Connecting? || hs'[i].pc.Activating? ==> hs[i].pc.Connecting? || hs[i].pc.Activating?)
  }

  /** The slot is left alone, or emptied with its verdict settled. */
  ghost predicate SlotEmptied(s: System, s': System) {
    || (s'.shared.goalSender == s.shared.goalSender && s'.verdicts == s.verdicts)
    || (s'.shared.goalSender == None && exists v :: v != Held && s'.verdicts == Settled(s, v))
  }

  lemma FrameLinear(s: System, s': System)
    requires Linear(s) && SameAttempts(s.handlers, s'.handlers) && SlotEmptied(s, s')
    ensures Linear(s') && Settles(s, s')
  {
    forall h | 0 <= h < |s.handlers| ensures Current(s', h) == Current(s, h) {
    }
  }

  lemma SpawnLinear(s: System, s': System, command: RobotCommand)
    requires Linear(s) && s'.handlers == s.handlers + [NewHandler(command)]
    requires s'.verdicts == s.verdicts && s'.shared.goalSender == s.shared.goalSender
    ensures Linear(s') && Settles(s, s')
  {
    forall h | 0 <= h < |s.handlers| ensures Current(s', h) == Current(s, h) {
    }
    assert Current(s', |s.handlers|).handler == |s.handlers|;
  }

  lemma InstallLinear(s: System, s': System, h: nat)
    requires Linear(s) && h < |s.handlers| && s.handlers[h].pc.Connecting?
    requires |s'.handlers| == |s.handlers| && s'.handlers[h].pc == Writing
    requires forall i :: 0 <= i < |s.handlers| ==> s'.handlers[i].attempt == s.handlers[i].attempt
    requires forall i :: 0 <= i < |s.handlers| && i != h ==> s'.handlers[i].pc == s.handlers[i].pc
    requires s'.shared.goalSender == Some(Current(s, h)) && s'.verdicts == Settled(s, Dropped)[Current(s, h) := Held]
    ensures Linear(s') && Settles(s, s')
  {
    forall i | 0 <= i < |s.handlers| ensures Current(s', i) == Current(s, i) {
    }
  }

  lemma ResetLinear(s: System, s': System, h: nat)
    requires Linear(s) && h < |s.handlers|
    requires |s'.handlers| == |s.handlers| && s'.handlers[h].pc == Activating && s'.handlers[h].attempt == s.handlers[h].attempt + 1
    requires forall i :: 0 <= i < |s.handlers| && i != h ==> s'.handlers[i] == s.handlers[i]
    requires s'.shared.goalSender == s.shared.goalSender && s'.verdicts == s.verdicts
    ensures Linear(s') && Settles(s, s')
  {
    forall i | 0 <= i < |s.handlers| && i != h ensures Current(s', i) == Current(s, i) {
    }
    assert Current(s', h).attempt > s.handlers[h].attempt;
  }

  lemma DeskLinear(s: System, d: DeskStep)
    requires Linear(s) && DeskEnabled(s, d)
    ensures Linear(DeskApply(s, d)) && Settles(s, DeskApply(s, d))
  {
    hide Linear, Settles;
    if d.Spawn? {
      SpawnLinear(s, DeskApply(s, d), s.desk.command);
    } else {
      FrameLinear(s, DeskApply(s, d));
    }
  }

  lemma HandlerLinear(s: System, h: nat, a: HandlerStep)
    requires Linear(s) && HandlerEnabled(s, h, a)
    ensures Linear(HandlerApply(s, h, a)) && Settles(s, HandlerApply(s, h, a))
  {
    hide Linear, Settles, LocalApply, SharedApply;
    if a.Local() {
      LocalListens(s, h, a);
      LocalFrame(s, h, a);
      FrameLinear(s, HandlerApply(s, h, a));
    } else {
      SharedLinear(s, h, a);
    }
  }

  lemma LocalFrame(s: System, h: nat, a: HandlerStep)
    requires HandlerEnabled(s, h, a) && a.Local()
    ensures var s' := LocalApply(s, h, a); SameAttempts(s.handlers, s'.handlers) && SlotEmptied(s, s')
  {
    hide LocalNext;
    LocalListens(s, h, a);
  }

  lemma SharedLinear(s: System, h: nat, a: HandlerStep)
    requires Linear(s) && HandlerEnabled(s, h, a) && !a.Local()
    ensures Linear(SharedApply(s, h, a)) && Settles(s, SharedApply(s, h, a))
  {
    hide Linear, Settles;
    if a.Install? {
      InstallLinear(s, SharedApply(s, h, a), h);
    } else if a.Reset? {
      ResetLinear(s, SharedApply(s, h, a), h);
    } else {
      SharedFrame(s, h, a);
      FrameLinear(s, SharedApply(s, h, a));
    }
  }

  lemma SharedFrame(s: System, h: nat, a: HandlerStep)
    requires HandlerEnabled(s, h, a) && !a.Local() && !a.Install? && !a.Reset?
    ensures var s' := SharedApply(s, h, a); SameAttempts(s.handlers, s'.handlers) && SlotEmptied(s, s')
  {
    hide BooksAfter, HistoryAfter, Settled;
  }

  lemma LocalListens(s: System, h: nat, a: HandlerStep)
    requires HandlerEnabled(s, h, a) && a.Local()
    ensures var pc := LocalNext(s, h, a);
            && (pc.Listening() ==> s.handlers[h].pc.Listening())
            && (pc.Connecting? || pc.Activating? ==> pc == s.handlers[h].pc)
  {
    hide RemainingCommand, CancelArrives, ResumeArrives, VerdictOf;
  }

  lemma SocketLinear(s: System, x: SocketStep)
    requires Linear(s) && SocketEnabled(s, x)
    ensures Linear(SocketApply(s, x)) && Settles(s, SocketApply(s, x))
  {
    hide Linear, Settles;
    match x {
      case Read(line) => ReadLinear(s, line);
      case _ => FrameLinear(s, SocketApply(s, x));
    }
  }

  lemma ReadLinear(s: System, line: Line)
    requires Linear(s) && s.server.Serving?
    ensures Linear(ReadApply(s, line)) && Settles(s, ReadApply(s, line))
  {
    hide Linear, Settles, Settled;
    FrameLinear(s, ReadApply(s, line));
  }

  lemma ReaderLinear(s: System, r: ReaderStep)
    requires Linear(s) && ReaderEnabled(s, r)
    ensures Linear(ReaderApply(s, r)) && Settles(s, ReaderApply(s, r))
  {
    hide Linear, Settles;
    FrameLinear(s, ReaderApply(s, r));
  }

  lemma DashboardLinear(s: System, d: DashboardStep)
    requires Linear(s) && DashboardEnabled(s, d)
    ensures Linear(DashboardApply(s, d)) && Settles(s, DashboardApply(s, d))
  {
    hide Linear, Settles;
    FrameLinear(s, DashboardApply(s, d));
  }

  lemma StepLinear(s: System, step: Step)
    requires Linear(s) && Enabled(s, step)
    ensures Linear(Apply(s, step)) && Settles(s, Apply(s, step))
  {
    hide Linear, Settles, DeskApply, HandlerApply, SocketApply, ReaderApply, DashboardApply;
    match step {
      case OfDesk(d) => DeskLinear(s, d);
      case OfHandler(h, a) => HandlerLinear(s, h, a);
      case OfSocket(x) => SocketLinear(s, x);
      case OfReader(r) => ReaderLinear(s, r);
      case OfDashboard(d) => DashboardLinear(s, d);
    }
  }

  /** Along any run an attempt's first verdict is its only one. */
  lemma {:induction false} FirstVerdictWins(s: System, steps: seq<Step>)
    requires Linear(s) && Run(s, steps).Some?
    ensures Linear(Run(s, steps).value) && Settles(s, Run(s, steps).value)
    decreases |steps|
  {
    hide Linear, Enabled, Apply;
    if steps != [] {
      StepLinear(s, steps[0]);
      FirstVerdictWins(Apply(s, steps[0]), steps[1..]);
    }
  }

  // --- nobody is stranded ---

  /** A live handler has a step of its own to take. */
  ghost predicate CanMove(s: System, h: nat) { exists a :: HandlerEnabled(s, h, a) }

  /**
   In every reachable state a handler that cannot move waits on a verdict whose sender is still in the shared
   slot, with no cancel and no resume on the way; every other live handler can move.
   */
  lemma StrandedIff(steps: seq<Step>, h: nat)
    requires Run(START, steps).Some? && h < |Run(START, steps).value.handlers|
    ensures var s := Run(START, steps).value;
            s.handlers[h].Live() ==>
              (!CanMove(s, h) <==>
                s.handlers[h].pc.Waiting? && s.shared.goalSender == Some(Current(s, h)) && !CancelArrives(s, h) && !ResumeArrives(s, h))
  {
    hide Run;
    StartLinear();
    FirstVerdictWins(START, steps);
    var s := Run(START, steps).value;
    var pc := s.handlers[h].pc;
    var settled := VerdictOf(s, Current(s, h)) != Held;
    if pc.Waiting? {
      assert settled <==> s.shared.goalSender != Some(Current(s, h));
      WaitingMoves(s, h);
    } else if s.handlers[h].Live() {
      Moves(s, h);
    }
  }

  /**
   In every reachable state a handler can end on its verdict if and only if it waits or cancels and its sender has
   left the slot; and what ends a drain before its time is the same.
   */
  lemma HeardIff(steps: seq<Step>, h: nat)
    requires Run(START, steps).Some? && h < |Run(START, steps).value.handlers|
    ensures var s := Run(START, steps).value;
            var pc, gone := s.handlers[h].pc, s.shared.goalSender != Some(Current(s, h));
            && (Enabled(s, OfHandler(h, SeeVerdict)) <==> (pc.Waiting? || pc.Cancelling?) && gone)
            && (Enabled(s, OfHandler(h, Drained)) <==> pc.Draining? && gone)
  {
    hide Run;
    StartLinear();
    FirstVerdictWins(START, steps);
  }

  lemma WaitingMoves(s: System, h: nat)
    requires h < |s.handlers| && s.handlers[h].pc.Waiting?
    ensures CanMove(s, h) <==> VerdictOf(s, Current(s, h)) != Held || CancelArrives(s, h) || ResumeArrives(s, h)
  {
    if VerdictOf(s, Current(s, h)) != Held {
      assert HandlerEnabled(s, h, SeeVerdict);
    } else if CancelArrives(s, h) {
      assert HandlerEnabled(s, h, SeeCancel);
    } else if ResumeArrives(s, h) {
      assert HandlerEnabled(s, h, SeeResume(true));
    }
  }

  lemma Moves(s: System, h: nat)
    requires h < |s.handlers| && s.handlers[h].Live() && !s.handlers[h].pc.Waiting?
    ensures CanMove(s, h)
  {
    var a := match s.handlers[h].pc {
      case Connecting => Install
      case Writing => Written
      case Handshaking => NotShaken
      case Cancelling => StopUnanswered
      case Claiming(_, _) => Claim
      case Killing(_, _) => StopReturns
      case Draining(_, _) => DrainTimesOut
      case Resetting(_, _) => Reset
      case Activating => Activate
      case Publishing(_) => Publish
      case _ => TearDown
    };
    assert HandlerEnabled(s, h, a);
  }

  /** The steps that fail whatever goal is in flight. */
  predicate Fails(step: Step) { step == OfSocket(Read(Closed)) || step == OfReader(Abort) }

  /** After the script socket closes, or a safety stop aborts, the slot is empty and every live handler can move. */
  lemma NobodyStranded(steps: seq<Step>, step: Step)
    requires Run(START, steps).Some? && Enabled(Run(START, steps).value, step) && Fails(step)
    ensures var s' := Apply(Run(START, steps).value, step);
            && s'.shared.goalSender == None
            && (forall t :: t in s'.verdicts ==> s'.verdicts[t] != Held)
            && forall h :: 0 <= h < |s'.handlers| && s'.handlers[h].Live() ==> CanMove(s', h)
  {
    hide Run;
    StartLinear();
    FirstVerdictWins(START, steps);
    var s := Run(START, steps).value;
    StepLinear(s, step);
    var s' := Apply(s, step);
    forall h | 0 <= h < |s'.handlers| && s'.handlers[h].Live() ensures CanMove(s', h) {
      if s'.handlers[h].pc.Waiting? {
        WaitingMoves(s', h);
        assert Current(s', h) in s'.verdicts;
      } else {
        Moves(s', h);
      }
    }
  }

  /** What each step does to the verdicts. */
  function VerdictsBy(s: System, step: Step): map<Ticket, Verdict>
    requires Enabled(s, step)
  {
    match step
    case OfHandler(h, Install) => Settled(s, Dropped)[Current(s, h) := Held]
    case OfHandler(_, TearDown) => Settled(s, Dropped)
    case OfSocket(Read(OkLine)) => Settled(s, Sent(true))
    case OfSocket(Read(ErrorLine)) => Settled(s, Sent(false))
    case OfSocket(Read(Closed)) => Settled(s, Sent(false))
    case OfReader(Abort) => Settled(s, Sent(false))
    case _ => s.verdicts
  }

  lemma HandlerVerdicts(s: System, h: nat, a: HandlerStep)
    requires HandlerEnabled(s, h, a)
    ensures HandlerApply(s, h, a).verdicts == VerdictsBy(s, OfHandler(h, a))
  {
    hide LocalNext, Settled;
  }

  lemma SocketVerdicts(s: System, x: SocketStep)
    requires SocketEnabled(s, x)
    ensures SocketApply(s, x).verdicts == VerdictsBy(s, OfSocket(x))
  {
    hide Settled, AfterLine;
  }

  lemma VerdictsChange(s: System, step: Step)
    requires Enabled(s, step)
    ensures Apply(s, step).verdicts == VerdictsBy(s, step)
  {
    hide HandlerApply, SocketApply, Settled, HandlerEnabled, SocketEnabled;
    match step {
      case OfHandler(h, a) => HandlerVerdicts(s, h, a);
      case OfSocket(x) => SocketVerdicts(s, x);
      case _ =>
    }
  }

  /** A true verdict comes from an `ok` line of the script and from nothing else. */
  lemma TrueVerdictIsOk(s: System, step: Step, t: Ticket)
    requires Enabled(s, step)
    ensures VerdictOf(s, t) != Sent(true) && VerdictOf(Apply(s, step), t) == Sent(true)
       <==> step == OfSocket(Read(OkLine)) && s.shared.goalSender == Some(t) && VerdictOf(s, t) != Sent(true)
  {
    hide Apply, Enabled;
    VerdictsChange(s, step);
  }
}
