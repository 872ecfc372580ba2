/** When the admission test keeps goals apart, and exactly when it does not. */
module Exclusion {
  import opened DriverStates
  import opened GoalLifecycle

  // --- what the admission test sees ---

  ghost predicate Someone(hs: seq<Handler>, standing: Standing) { exists h :: 0 <= h < |hs| && hs[h].standing == standing }

  /** The shared guard stands for a handler that holds its id or claims a re-issue, and only live handlers do. */
  ghost predicate GuardExact(s: System) {
    && (s.shared.reissuing <==> Someone(s.handlers, Claimed))
    && (Someone(s.handlers, Holding) ==> s.shared.goalId.Some?)
    && (s.shared.goalId.Some? ==> Someone(s.handlers, Holding) || Someone(s.handlers, Claimed))
    && (forall h :: 0 <= h < |s.handlers| ==> (s.handlers[h].standing == Gone <==> s.handlers[h].pc.Finished?))
  }

  ghost predicate SameStandings(hs: seq<Handler>, hs': seq<Handler>) {
    |hs'| == |hs| && forall i :: 0 <= i < |hs| ==> hs'[i].standing == hs[i].standing && (hs'[i].pc.Finished? <==> hs[i].pc.Finished?)
  }

  /** A step that changes nobody's standing. */
  ghost predicate Quiet(s: System, s': System) {
    s'.shared.goalId == s.shared.goalId && s'.shared.reissuing == s.shared.reissuing && SameStandings(s.handlers, s'.handlers)
  }

  lemma SomeoneSame(hs: seq<Handler>, hs': seq<Handler>, standing: Standing)
    requires SameStandings(hs, hs')
    ensures Someone(hs, standing) <==> Someone(hs', standing)
  {
    if h :| 0 <= h < |hs| && hs[h].standing == standing {
      assert hs'[h].standing == standing;
    }
  }

  lemma QuietGuard(s: System, s': System)
    requires GuardExact(s) && Quiet(s, s')
    ensures GuardExact(s')
  {
    hide Someone;
    SomeoneSame(s.handlers, s'.handlers, Holding);
    SomeoneSame(s.handlers, s'.handlers, Claimed);
  }

  lemma SpawnGuard(s: System, s': System, command: RobotCommand)
    requires GuardExact(s) && s'.handlers == s.handlers + [NewHandler(command)]
    requires s'.shared.goalId == s.shared.goalId && s'.shared.reissuing == s.shared.reissuing
    ensures GuardExact(s')
  {
    forall standing | standing == Holding || standing == Claimed
      ensures Someone(s.handlers, standing) <==> Someone(s'.handlers, standing)
    {
      if h :| 0 <= h < |s.handlers| && s.handlers[h].standing == standing {
        assert s'.handlers[h].standing == standing;
      }
    }
  }

  /** The handlers after one of them took a new standing, the others overruled or left alone. */
  ghost predicate Takes(hs: seq<Handler>, hs': seq<Handler>, h: nat, standing: Standing, overrules: bool) {
    && h < |hs| == |hs'|
    && hs'[h].standing == standing
    && (hs'[h].pc.Finished? <==> standing == Gone)
    && forall i :: 0 <= i < |hs| && i != h ==>
         && hs'[i].standing == (if overrules then Overrule(hs[i].standing) else hs[i].standing)
         && (hs'[i].pc.Finished? <==> hs[i].pc.Finished?)
  }

  lemma TakesGuard(s: System, s': System, h: nat, standing: Standing, overrules: bool)
    requires GuardExact(s) && Takes(s.handlers, s'.handlers, h, standing, overrules)
    requires
      || (overrules && standing == Holding && s'.shared.goalId.Some? && !s'.shared.reissuing)
      || (overrules && standing == Gone && s'.shared.goalId.None? && !s'.shared.reissuing)
      || (!overrules && standing == Claimed && s'.shared.goalId == s.shared.goalId && s'.shared.reissuing)
    ensures GuardExact(s')
  {
    assert s'.handlers[h].standing == standing;
    if s'.shared.goalId.Some? && standing == Claimed {
      assert Someone(s'.handlers, Claimed);
    }
    if !overrules && Someone(s'.handlers, Holding) {
      var i :| 0 <= i < |s'.handlers| && s'.handlers[i].standing == Holding;
      assert s.handlers[i].standing == Holding;
    }
  }

  lemma ClearGuard(s: System, s': System)
    requires GuardExact(s) && s'.handlers == MapStanding(s.handlers, Clear)
    requires s'.shared.goalId.None? && s'.shared.reissuing == s.shared.reissuing
    ensures GuardExact(s')
  {
    if h :| 0 <= h < |s.handlers| && s.handlers[h].standing == Claimed {
      assert s'.handlers[h].standing == Claimed;
    }
  }

  lemma StepGuard(s: System, step: Step)
    requires GuardExact(s) && Enabled(s, step)
    ensures GuardExact(Apply(s, step))
  {
    hide GuardExact, DeskApply, HandlerApply, SocketApply, ReaderApply, DashboardApply;
    match step {
      case OfDesk(d) => DeskGuard(s, d);
      case OfHandler(h, a) => HandlerGuard(s, h, a);
      case OfSocket(x) => SocketGuard(s, x);
      case OfReader(r) => ReaderGuard(s, r);
      case OfDashboard(d) => DashboardQuiet(s, d); QuietGuard(s, DashboardApply(s, d));
    }
  }

  lemma DeskGuard(s: System, d: DeskStep)
    requires GuardExact(s) && DeskEnabled(s, d)
    ensures GuardExact(DeskApply(s, d))
  {
    hide GuardExact, Shared.Admission;
    if d.Spawn? {
      SpawnGuard(s, DeskApply(s, d), s.desk.command);
    } else {
      QuietGuard(s, DeskApply(s, d));
    }
  }

  lemma SocketGuard(s: System, x: SocketStep)
    requires GuardExact(s) && SocketEnabled(s, x)
    ensures GuardExact(SocketApply(s, x))
  {
    hide GuardExact, Settled;
    if x == Read(Closed) {
      ClearGuard(s, SocketApply(s, x));
    } else {
      SocketQuiet(s, x);
      QuietGuard(s, SocketApply(s, x));
    }
  }

  lemma ReaderGuard(s: System, r: ReaderStep)
    requires GuardExact(s) && ReaderEnabled(s, r)
    ensures GuardExact(ReaderApply(s, r))
  {
    hide GuardExact, Settled;
    if r.Abort? {
      ClearGuard(s, ReaderApply(s, r));
    } else {
      QuietGuard(s, ReaderApply(s, r));
    }
  }

  lemma DashboardQuiet(s: System, d: DashboardStep)
    requires DashboardEnabled(s, d)
    ensures Quiet(s, DashboardApply(s, d))
  {
  }

  lemma SocketQuiet(s: System, x: SocketStep)
    requires SocketEnabled(s, x) && x != Read(Closed)
    ensures Quiet(s, SocketApply(s, x))
  {
    hide ReadApply;
    if x.Read? {
      ReadQuiet(s, x.line);
    }
  }

  lemma ReadQuiet(s: System, line: Line)
    requires s.server.Serving? && line != Closed
    ensures Quiet(s, ReadApply(s, line))
  {
    hide Settled;
  }

  lemma HandlerGuard(s: System, h: nat, a: HandlerStep)
    requires GuardExact(s) && HandlerEnabled(s, h, a)
    ensures GuardExact(HandlerApply(s, h, a))
  {
    hide GuardExact, LocalApply, SharedApply;
    if a.Local() {
      LocalQuiet(s, h, a);
      QuietGuard(s, LocalApply(s, h, a));
    } else {
      SharedGuard(s, h, a);
    }
  }

  lemma LocalQuiet(s: System, h: nat, a: HandlerStep)
    requires HandlerEnabled(s, h, a) && a.Local()
    ensures Quiet(s, LocalApply(s, h, a))
  {
    hide LocalNext;
    LocalUnfinished(s, h, a);
  }

  lemma SharedGuard(s: System, h: nat, a: HandlerStep)
    requires GuardExact(s) && HandlerEnabled(s, h, a) && !a.Local()
    ensures GuardExact(SharedApply(s, h, a))
  {
    hide GuardExact, VerdictsAfter, BooksAfter, HistoryAfter;
    var s' := SharedApply(s, h, a);
    if a.Install? {
      TakesGuard(s, s', h, Holding, true);
    } else if a.TearDown? {
      TakesGuard(s, s', h, Gone, true);
    } else if a.Claim? {
      TakesGuard(s, s', h, Claimed, false);
    } else {
      QuietGuard(s, s');
    }
  }

  lemma LocalUnfinished(s: System, h: nat, a: HandlerStep)
    requires HandlerEnabled(s, h, a) && a.Local()
    ensures s.handlers[h].Live() && !LocalNext(s, h, a).Finished?
  {
    hide RemainingCommand, CancelArrives, ResumeArrives, VerdictOf;
  }

  lemma {:induction false} RunGuard(s: System, steps: seq<Step>)
    requires GuardExact(s) && Run(s, steps).Some?
    ensures GuardExact(Run(s, steps).value)
    decreases |steps|
  {
    hide GuardExact, Enabled, Apply;
    if steps != [] {
      StepGuard(s, steps[0]);
      RunGuard(Apply(s, steps[0]), steps[1..]);
    }
  }

  /** In every reachable state the goal test passes exactly when every live handler is exposed to it. */
  lemma GuardSeesUnlessExposed(steps: seq<Step>)
    requires Run(START, steps).Some?
    ensures var s := Run(START, steps).value;
            !s.shared.Guarded() <==> forall h :: 0 <= h < |s.handlers| && s.handlers[h].Live() ==> s.handlers[h].Exposed()
  {
    hide Run;
    RunGuard(START, steps);
    GuardMeaning(Run(START, steps).value);
  }

  lemma GuardMeaning(s: System)
    requires GuardExact(s)
    ensures !s.shared.Guarded() <==> forall h :: 0 <= h < |s.handlers| && s.handlers[h].Live() ==> s.handlers[h].Exposed()
  {
    if h :| 0 <= h < |s.handlers| && s.handlers[h].Live() && !s.handlers[h].Exposed() {
      assert s.handlers[h].standing == Holding || s.handlers[h].standing == Claimed;
    }
    if s.shared.Guarded() {
      var h :| 0 <= h < |s.handlers| && (s.handlers[h].standing == Holding || s.handlers[h].standing == Claimed);
      assert s.handlers[h].Live() && !s.handlers[h].Exposed();
    }
  }

  // --- mutual exclusion ---

  /** At most one goal is in the driver's hands, from admission to the end of its handler. */
  ghost predicate Alone(s: System) {
    && (forall h, k :: 0 <= h < k < |s.handlers| ==> !(s.handlers[h].Live() && s.handlers[k].Live()))
    && (s.desk.Pending() ==> forall h :: 0 <= h < |s.handlers| ==> !s.handlers[h].Live())
  }

  ghost predicate AlwaysAlone(s: System, steps: seq<Step>)
    decreases |steps|
  {
    Alone(s) && (steps != [] && Enabled(s, steps[0]) ==> AlwaysAlone(Apply(s, steps[0]), steps[1..]))
  }

  /** A request passes admission while the handler of another is exposed. */
  ghost predicate Collides(s: System, step: Step) {
    && step.OfDesk? && step.desk.Check? && s.shared.Admission(step.desk.addressKnown).None?
    && exists h :: 0 <= h < |s.handlers| && s.handlers[h].Exposed()
  }

  ghost predicate NeverCollides(s: System, steps: seq<Step>)
    decreases |steps|
  {
    steps != [] && Enabled(s, steps[0]) ==> !Collides(s, steps[0]) && NeverCollides(Apply(s, steps[0]), steps[1..])
  }

  /** No handler comes alive but by Spawn, and nothing becomes pending but by Check. */
  lemma LivesShrink(s: System, step: Step)
    requires Enabled(s, step)
    ensures var s' := Apply(s, step);
            && |s'.handlers| == |s.handlers| + (if step == OfDesk(Spawn) then 1 else 0)
            && (forall h :: 0 <= h < |s.handlers| && s'.handlers[h].Live() ==> s.handlers[h].Live())
            && (s'.desk.Pending() <==>
                  || (step.OfDesk? && step.desk.Check? && s.shared.Admission(step.desk.addressKnown).None?)
                  || (s.desk.Pending() && step != OfDesk(Spawn)))
            && (step == OfDesk(Spawn) ==> s.desk.Pending())
  {
    hide LocalNext, Settled, Shared.Admission, HandlerApply, SocketApply;
    match step {
      case OfHandler(h, a) => HandlerLives(s, h, a);
      case OfSocket(x) => SocketLives(s, x);
      case _ =>
    }
  }

  lemma HandlerLives(s: System, h: nat, a: HandlerStep)
    requires HandlerEnabled(s, h, a)
    ensures var s' := HandlerApply(s, h, a);
            && |s'.handlers| == |s.handlers| && s'.desk == s.desk
            && (forall i :: 0 <= i < |s.handlers| && s'.handlers[i].Live() ==> s.handlers[i].Live())
  {
    hide LocalNext, Settled;
    if a.Local() {
      LocalUnfinished(s, h, a);
    }
  }

  lemma SocketLives(s: System, x: SocketStep)
    requires SocketEnabled(s, x)
    ensures var s' := SocketApply(s, x);
            && |s'.handlers| == |s.handlers| && s'.desk == s.desk
            && (forall i :: 0 <= i < |s.handlers| && s'.handlers[i].Live() ==> s.handlers[i].Live())
  {
    hide Settled;
  }

  lemma StepAlone(s: System, step: Step)
    requires GuardExact(s) && Alone(s) && Enabled(s, step)
    ensures Alone(Apply(s, step)) <==> !Collides(s, step)
  {
    hide GuardExact, Enabled, Apply, Shared.Admission;
    LivesShrink(s, step);
    if step.OfDesk? && step.desk.Check? && s.shared.Admission(step.desk.addressKnown).None? {
      AdmittedUnguarded(s, step.desk.addressKnown);
      GuardMeaning(s);
      CheckKeepsHandlers(s, step.desk.addressKnown);
    }
  }

  lemma AdmittedUnguarded(s: System, addressKnown: bool)
    requires s.shared.Admission(addressKnown).None?
    ensures !s.shared.Guarded()
  {
  }

  lemma CheckKeepsHandlers(s: System, addressKnown: bool)
    requires Enabled(s, OfDesk(Check(addressKnown)))
    ensures Apply(s, OfDesk(Check(addressKnown))).handlers == s.handlers
  {
  }

  lemma {:induction false} AloneIff(s: System, steps: seq<Step>)
    requires GuardExact(s) && Alone(s)
    ensures AlwaysAlone(s, steps) <==> NeverCollides(s, steps)
    decreases |steps|
  {
    hide GuardExact, Alone, Collides, Enabled, Apply;
    if steps != [] && Enabled(s, steps[0]) {
      StepAlone(s, steps[0]);
      StepGuard(s, steps[0]);
      if !Collides(s, steps[0]) {
        AloneIff(Apply(s, steps[0]), steps[1..]);
      } else {
        assert !AlwaysAlone(Apply(s, steps[0]), steps[1..]);
      }
    }
  }

  /**
   A run keeps at most one goal in hand throughout if and only if no request passes admission while a handler
   is accepted but not installed, or has had its id cleared and is not torn down.
   */
  lemma ExclusionIff(steps: seq<Step>)
    ensures AlwaysAlone(START, steps) <==> NeverCollides(START, steps)
  {
    AloneIff(START, steps);
  }

  // --- the gap of a re-issue ---

  /** The old script is being stopped, or the new one is not installed yet. */
  predicate InGap(h: Handler) {
    h.pc.Killing? || h.pc.Draining? || h.pc.Resetting? || h.pc.Activating? || (h.pc.Connecting? && h.attempt > 0)
  }

  /** A handler alone is never overruled, and claims the goal all through the gap. */
  ghost predicate Keeps(h: Handler) { h.Live() ==> h.standing != Overruled && (InGap(h) ==> h.standing == Claimed) }

  ghost predicate AllKeep(hs: seq<Handler>) { forall i :: 0 <= i < |hs| ==> Keeps(hs[i]) }

  /** No handler enters the gap, and none loses a claim. */
  ghost predicate NoNewGap(hs: seq<Handler>, hs': seq<Handler>) {
    && |hs'| == |hs|
    && forall i :: 0 <= i < |hs| ==>
         && (hs'[i].Live() ==> hs[i].Live())
         && (InGap(hs'[i]) ==> InGap(hs[i]))
         && (hs'[i].standing == hs[i].standing || hs'[i].standing == Cleared == Clear(hs[i].standing))
  }

  lemma FrameKeeps(hs: seq<Handler>, hs': seq<Handler>)
    requires AllKeep(hs) && NoNewGap(hs, hs')
    ensures AllKeep(hs')
  {
    forall i | 0 <= i < |hs| ensures Keeps(hs'[i]) {
      assert Keeps(hs[i]);
    }
  }

  lemma SharedKeepsGap(s: System, h: nat, a: HandlerStep)
    requires Alone(s) && AllKeep(s.handlers) && HandlerEnabled(s, h, a) && !a.Local()
    ensures AllKeep(SharedApply(s, h, a).handlers)
  {
    hide RecordAfter, VerdictsAfter, BooksAfter, HistoryAfter;
    var hs' := SharedApply(s, h, a).handlers;
    forall i | 0 <= i < |s.handlers| ensures Keeps(hs'[i]) {
      assert Keeps(s.handlers[i]);
      assert i == h || i < h || h < i;
    }
  }

  lemma LocalNoNewGap(s: System, h: nat, a: HandlerStep)
    requires HandlerEnabled(s, h, a) && a.Local()
    ensures NoNewGap(s.handlers, LocalApply(s, h, a).handlers)
  {
    hide LocalNext;
    LocalUnfinished(s, h, a);
    LocalGap(s, h, a);
  }

  lemma LocalGap(s: System, h: nat, a: HandlerStep)
    requires HandlerEnabled(s, h, a) && a.Local()
    ensures InGap(s.handlers[h].(pc := LocalNext(s, h, a))) ==> InGap(s.handlers[h])
  {
    hide RemainingCommand, CancelArrives, ResumeArrives, VerdictOf;
  }

  lemma HandlerKeepsGap(s: System, h: nat, a: HandlerStep)
    requires Alone(s) && AllKeep(s.handlers) && HandlerEnabled(s, h, a)
    ensures AllKeep(HandlerApply(s, h, a).handlers)
  {
    hide LocalApply, SharedApply, AllKeep;
    if a.Local() {
      LocalNoNewGap(s, h, a);
      FrameKeeps(s.handlers, LocalApply(s, h, a).handlers);
    } else {
      SharedKeepsGap(s, h, a);
    }
  }

  lemma SocketNoNewGap(s: System, x: SocketStep)
    requires SocketEnabled(s, x)
    ensures NoNewGap(s.handlers, SocketApply(s, x).handlers)
  {
    hide Settled;
  }

  lemma StepKeepsGap(s: System, step: Step)
    requires Alone(s) && AllKeep(s.handlers) && Enabled(s, step)
    ensures AllKeep(Apply(s, step).handlers)
  {
    hide Alone, HandlerApply, SocketApply, Settled;
    match step {
      case OfDesk(d) =>
      case OfHandler(h, a) => HandlerKeepsGap(s, h, a);
      case OfSocket(x) => SocketNoNewGap(s, x); FrameKeeps(s.handlers, SocketApply(s, x).handlers);
      case OfReader(r) => FrameKeeps(s.handlers, Apply(s, step).handlers);
      case OfDashboard(d) => FrameKeeps(s.handlers, Apply(s, step).handlers);
    }
  }

  lemma {:induction false} RunKeepsGap(s: System, steps: seq<Step>)
    requires GuardExact(s) && Alone(s) && AllKeep(s.handlers) && NeverCollides(s, steps) && Run(s, steps).Some?
    ensures GuardExact(Run(s, steps).value) && AllKeep(Run(s, steps).value.handlers)
    decreases |steps|
  {
    hide GuardExact, Alone, AllKeep, Collides, Enabled, Apply;
    if steps != [] {
      StepGuard(s, steps[0]);
      StepAlone(s, steps[0]);
      StepKeepsGap(s, steps[0]);
      RunKeepsGap(Apply(s, steps[0]), steps[1..]);
    }
  }

  /** While no admission has collided, admission is refused at every point of the gap of a re-issue. */
  lemma GapRefuses(steps: seq<Step>, h: nat, addressKnown: bool)
    requires NeverCollides(START, steps) && Run(START, steps).Some?
    requires h < |Run(START, steps).value.handlers| && InGap(Run(START, steps).value.handlers[h])
    ensures Run(START, steps).value.shared.Admission(addressKnown).Some?
  {
    hide Run, NeverCollides;
    RunKeepsGap(START, steps);
    var s := Run(START, steps).value;
    assert Keeps(s.handlers[h]);
  }
}
