/** What cancels and re-issues a goal: requests, and after a collision other goals. */
module Causes {
  import opened Results
  import opened DriverStates
  import opened GoalLifecycle
  import opened Exclusion
  import opened Resumption
  import opened Accounting

  /** The handler acts on a cancel, or ended on one. */
  predicate Stopping(pc: Pc) {
    pc.Cancelling? || (EndingAt(pc).Some? && (EndingAt(pc).value.Cancelled? || EndingAt(pc).value.CancelUnanswered?))
  }

  function One(b: bool): nat { if b then 1 else 0 }

  /** The re-issues a handler has made, is making, or has been told to make. */
  function Reissuing(h: Handler): nat { h.attempt + One(Carries(h.pc)) + One(h.resumeSignalled) }

  /** The senders of the one live handler are in their slots until somebody takes them. */
  ghost predicate SendersExact(s: System) {
    forall h :: 0 <= h < |s.handlers| && s.handlers[h].Live() ==>
      && (s.shared.cancelSender == Some(h) || h in s.history.cancels)
      && s.shared.resumeSender == Some(h)
  }

  ghost predicate CausesExact(s: System) {
    forall h :: 0 <= h < |s.handlers| ==>
      (Stopping(s.handlers[h].pc) ==> h in s.history.cancels) && Reissuing(s.handlers[h]) <= s.history.signals[h]
  }

  /** No handler newly stops or re-issues, and no sender is lost unseen. */
  ghost predicate NoNewCause(s: System, s': System) {
    && |s'.handlers| == |s.handlers|
    && s.history.cancels <= s'.history.cancels && s'.history.signals == s.history.signals
    && (s'.shared.cancelSender == s.shared.cancelSender
        || (s.shared.cancelSender.Some? && s.shared.cancelSender.value in s'.history.cancels))
    && s'.shared.resumeSender == s.shared.resumeSender
    && forall h :: 0 <= h < |s.handlers| ==> NoMoreCause(s.handlers[h], s'.handlers[h])
  }

  ghost predicate NoMoreCause(me: Handler, me': Handler) {
    (me'.Live() ==> me.Live()) && (Stopping(me'.pc) ==> Stopping(me.pc)) && Reissuing(me') <= Reissuing(me)
  }

  lemma FrameCauses(s: System, s': System)
    requires SendersExact(s) && CausesExact(s) && NoNewCause(s, s')
    ensures SendersExact(s') && CausesExact(s')
  {
    hide Stopping, Reissuing;
  }

  lemma SpawnCauses(s: System)
    requires SendersExact(s) && CausesExact(s) && Alone(s) && DeskEnabled(s, Spawn)
    ensures SendersExact(DeskApply(s, Spawn)) && CausesExact(DeskApply(s, Spawn))
  {
  }

  lemma TearDownCauses(s: System, h: nat)
    requires CausesExact(s) && Alone(s) && HandlerEnabled(s, h, TearDown)
    ensures SendersExact(SharedApply(s, h, TearDown)) && CausesExact(SharedApply(s, h, TearDown))
  {
    hide VerdictsAfter, BooksAfter;
    forall i | 0 <= i < |s.handlers| && s.handlers[i].Live() ensures i == h {
      assert i < h || h < i || i == h;
    }
  }

  lemma SignalCauses(s: System)
    requires SendersExact(s) && CausesExact(s) && s.dashboard.Signalling?
    ensures SendersExact(SignalApply(s)) && CausesExact(SignalApply(s))
  {
    hide Stopping;
  }

  lemma SeeCancelCauses(s: System, h: nat)
    requires SendersExact(s) && CausesExact(s) && HandlerEnabled(s, h, SeeCancel)
    ensures SendersExact(LocalApply(s, h, SeeCancel)) && CausesExact(LocalApply(s, h, SeeCancel))
  {
  }

  lemma SeeResumeCauses(s: System, h: nat, renders: bool)
    requires SendersExact(s) && CausesExact(s) && HandlerEnabled(s, h, SeeResume(renders))
    ensures NoNewCause(s, LocalApply(s, h, SeeResume(renders)))
  {
    hide RemainingCommand;
    assert s.handlers[h].resumeSignalled;
  }

  lemma LocalStops(s: System, h: nat, a: HandlerStep)
    requires HandlerEnabled(s, h, a) && a.Local() && !a.SeeCancel? && !a.SeeResume?
    ensures var pc, pc' := s.handlers[h].pc, LocalNext(s, h, a);
            (Stopping(pc') ==> Stopping(pc)) && (Carries(pc') ==> Carries(pc)) && !pc.Finished?
  {
    hide CancelArrives, ResumeArrives, VerdictOf;
  }

  lemma LocalNoNewCause(s: System, h: nat, a: HandlerStep)
    requires HandlerEnabled(s, h, a) && a.Local() && !a.SeeCancel? && !a.SeeResume?
    ensures NoNewCause(s, LocalApply(s, h, a))
  {
    hide LocalNext, Stopping, Carries;
    LocalStops(s, h, a);
  }

  lemma SharedMoves(s: System, h: nat, a: HandlerStep)
    requires HandlerEnabled(s, h, a) && !a.Local() && !a.TearDown?
    ensures var hs' := HandlersAfter(s, h, a);
            |hs'| == |s.handlers| && forall i :: 0 <= i < |hs'| ==> NoMoreCause(s.handlers[i], hs'[i])
  {
  }

  lemma SharedNoNewCause(s: System, h: nat, a: HandlerStep)
    requires HandlerEnabled(s, h, a) && !a.Local() && !a.TearDown?
    ensures NoNewCause(s, SharedApply(s, h, a))
  {
    hide VerdictsAfter, BooksAfter, HandlersAfter, Stopping, Reissuing;
    SharedMoves(s, h, a);
  }

  lemma HandlerCauses(s: System, h: nat, a: HandlerStep)
    requires SendersExact(s) && CausesExact(s) && Alone(s) && HandlerEnabled(s, h, a)
    ensures SendersExact(HandlerApply(s, h, a)) && CausesExact(HandlerApply(s, h, a))
  {
    hide SendersExact, CausesExact, Alone, NoNewCause, LocalApply, SharedApply;
    if a.SeeCancel? {
      SeeCancelCauses(s, h);
    } else if a.SeeResume? {
      SeeResumeCauses(s, h, a.renders);
      FrameCauses(s, LocalApply(s, h, a));
    } else if a.TearDown? {
      TearDownCauses(s, h);
    } else if a.Local() {
      LocalNoNewCause(s, h, a);
      FrameCauses(s, LocalApply(s, h, a));
    } else {
      SharedNoNewCause(s, h, a);
      FrameCauses(s, SharedApply(s, h, a));
    }
  }

  lemma SocketNoNewCause(s: System, x: SocketStep)
    requires SocketEnabled(s, x)
    ensures NoNewCause(s, SocketApply(s, x))
  {
    hide Settled, Stopping;
  }

  lemma OtherNoNewCause(s: System, step: Step)
    requires Enabled(s, step) && !step.OfHandler? && !step.OfSocket? && step != OfDesk(Spawn) && step != OfDashboard(Signal)
    ensures NoNewCause(s, Apply(s, step))
  {
    hide Settled, Stopping, HandlerApply, SocketApply;
  }

  lemma StepCauses(s: System, step: Step)
    requires SendersExact(s) && CausesExact(s) && Alone(s) && Enabled(s, step)
    ensures SendersExact(Apply(s, step)) && CausesExact(Apply(s, step))
  {
    hide SendersExact, CausesExact, Alone, NoNewCause, HandlerApply, SocketApply, DeskApply, ReaderApply;
    if step.OfHandler? {
      HandlerCauses(s, step.h, step.own);
    } else if step.OfSocket? {
      SocketNoNewCause(s, step.socket);
      FrameCauses(s, Apply(s, step));
    } else if step == OfDesk(Spawn) {
      SpawnCauses(s);
    } else if step == OfDashboard(Signal) {
      SignalCauses(s);
    } else {
      OtherNoNewCause(s, step);
      FrameCauses(s, Apply(s, step));
    }
  }

  lemma {:induction false} RunCauses(s: System, steps: seq<Step>)
    requires GuardExact(s) && Alone(s) && SendersExact(s) && CausesExact(s)
    requires NeverCollides(s, steps) && Run(s, steps).Some?
    ensures CausesExact(Run(s, steps).value)
    decreases |steps|
  {
    hide GuardExact, Alone, SendersExact, CausesExact, Collides, Enabled, Apply;
    if steps != [] {
      StepGuard(s, steps[0]);
      StepAlone(s, steps[0]);
      StepCauses(s, steps[0]);
      RunCauses(Apply(s, steps[0]), steps[1..]);
    }
  }

  /**
   In a run without collisions a handler stops its script, and ends on a cancel, only after a cancel request
   took the handler's own sender; and it re-issues its goal no more often than the dashboard signalled it.
   */
  lemma OnlyOnRequest(steps: seq<Step>, h: nat)
    requires NeverCollides(START, steps) && Run(START, steps).Some? && h < |Run(START, steps).value.handlers|
    ensures var s := Run(START, steps).value;
            && (Stopping(s.handlers[h].pc) ==> h in s.history.cancels)
            && s.handlers[h].attempt <= s.history.signals[h]
  {
    hide Run, NeverCollides;
    RunCauses(START, steps);
  }

  // --- with collisions ---

  /** A sender in its slot is that of a live handler exactly when nobody displaced it, or cancelled it. */
  ghost predicate SlotKept(s: System) {
    && (forall h :: h in s.history.cancels || h in s.history.displaced ==> h < |s.handlers|)
    && (s.shared.cancelSender.Some? ==> s.shared.cancelSender.value < |s.handlers|)
    && (s.shared.resumeSender.Some? ==> s.shared.resumeSender.value < |s.handlers|)
    && forall h :: 0 <= h < |s.handlers| && s.handlers[h].Live() ==>
         && (s.shared.cancelSender == Some(h) <==> h !in s.history.cancels && h !in s.history.displaced)
         && (s.shared.resumeSender == Some(h) <==> h !in s.history.displaced)
  }

  ghost predicate SameSlot(s: System, s': System) {
    && |s'.handlers| == |s.handlers| && s'.shared.cancelSender == s.shared.cancelSender
    && s'.shared.resumeSender == s.shared.resumeSender
    && s'.history.cancels == s.history.cancels && s'.history.displaced == s.history.displaced
    && forall h :: 0 <= h < |s.handlers| && s'.handlers[h].Live() ==> s.handlers[h].Live()
  }

  lemma FrameSlot(s: System, s': System)
    requires SlotKept(s) && SameSlot(s, s')
    ensures SlotKept(s')
  {
  }

  lemma DeskSlot(s: System, d: DeskStep)
    requires SlotKept(s) && DeskEnabled(s, d)
    ensures SlotKept(DeskApply(s, d))
  {
    if !d.Spawn? && !d.Cancel? {
      FrameSlot(s, DeskApply(s, d));
    }
  }

  lemma HandlerSlot(s: System, h: nat, a: HandlerStep)
    requires SlotKept(s) && HandlerEnabled(s, h, a)
    ensures SlotKept(HandlerApply(s, h, a))
  {
    hide SlotKept, SameSlot, LocalApply, SharedApply;
    if a.TearDown? {
      TearDownSlot(s, h);
    } else {
      HandlerSameSlot(s, h, a);
      FrameSlot(s, HandlerApply(s, h, a));
    }
  }

  lemma TearDownSlot(s: System, h: nat)
    requires SlotKept(s) && HandlerEnabled(s, h, TearDown)
    ensures SlotKept(SharedApply(s, h, TearDown))
  {
    hide VerdictsAfter, BooksAfter;
  }

  lemma HandlerSameSlot(s: System, h: nat, a: HandlerStep)
    requires HandlerEnabled(s, h, a) && !a.TearDown?
    ensures SameSlot(s, HandlerApply(s, h, a))
  {
    hide LocalNext, VerdictsAfter, BooksAfter;
    if a.Local() {
      LocalUnfinished(s, h, a);
    }
  }

  lemma SocketSameSlot(s: System, x: SocketStep)
    requires SocketEnabled(s, x)
    ensures SameSlot(s, SocketApply(s, x))
  {
    hide ReadApply;
    if x.Read? {
      ReadSameSlot(s, x.line);
    }
  }

  lemma ReadSameSlot(s: System, line: Line)
    requires s.server.Serving?
    ensures SameSlot(s, ReadApply(s, line))
  {
    hide Settled;
  }

  lemma StepSlot(s: System, step: Step)
    requires SlotKept(s) && Enabled(s, step)
    ensures SlotKept(Apply(s, step))
  {
    hide SlotKept, DeskApply, HandlerApply, SocketApply, Settled;
    match step {
      case OfDesk(d) => DeskSlot(s, d);
      case OfHandler(h, a) => HandlerSlot(s, h, a);
      case OfSocket(x) => SocketSameSlot(s, x); FrameSlot(s, Apply(s, step));
      case OfReader(r) => FrameSlot(s, Apply(s, step));
      case OfDashboard(d) => FrameSlot(s, Apply(s, step));
    }
  }

  lemma {:induction false} RunSlot(s: System, steps: seq<Step>)
    requires SlotKept(s) && Run(s, steps).Some?
    ensures SlotKept(Run(s, steps).value)
    decreases |steps|
  {
    hide SlotKept, Enabled, Apply;
    if steps != [] {
      StepSlot(s, steps[0]);
      RunSlot(Apply(s, steps[0]), steps[1..]);
    }
  }

  /**
   In every reachable state a cancel reaches a live handler if and only if a cancel request took its sender, or
   it was live when another handler was spawned or torn down.
   */
  lemma CancelArrivesIff(steps: seq<Step>, h: nat)
    requires Run(START, steps).Some? && h < |Run(START, steps).value.handlers|
    ensures var s := Run(START, steps).value;
            s.handlers[h].Live() ==> (CancelArrives(s, h) <==> h in s.history.cancels || h in s.history.displaced)
  {
    hide Run;
    RunSlot(START, steps);
  }

  // --- resumes ---

  /**
   In every reachable state a resume reaches a live handler if and only if the dashboard signalled it, or another
   handler was spawned or torn down while it was live and no resume under way still has its sender.
   */
  lemma ResumeArrivesIff(steps: seq<Step>, h: nat)
    requires Run(START, steps).Some? && h < |Run(START, steps).value.handlers| && Run(START, steps).value.handlers[h].Live()
    ensures var s := Run(START, steps).value;
            ResumeArrives(s, h)
            <==> || s.handlers[h].resumeSignalled
                 || (h in s.history.displaced && s.dashboard != Resuming(Some(h)) && s.dashboard != Signalling(Some(h)))
  {
    hide Run;
    RunSlot(START, steps);
  }

  /** A step that ends a resume. */
  predicate EndsResume(step: Step) {
    step == OfDashboard(Played) || step == OfDashboard(ResumeFails) || step == OfDashboard(Signal)
  }

  lemma StepKeepsSender(s: System, step: Step)
    requires Enabled(s, step) && !s.dashboard.Ready? && !EndsResume(step)
    ensures var d := Apply(s, step).dashboard; !d.Ready? && d.sender == s.dashboard.sender
  {
    hide LocalNext, RecordAfter, HandlersAfter, VerdictsAfter, BooksAfter, HistoryAfter, Settled;
  }

  lemma {:induction false} RunKeepsSender(s: System, steps: seq<Step>)
    requires Run(s, steps).Some? && !s.dashboard.Ready? && forall i :: 0 <= i < |steps| ==> !EndsResume(steps[i])
    ensures var d := Run(s, steps).value.dashboard; !d.Ready? && d.sender == s.dashboard.sender
    decreases |steps|
  {
    hide Enabled, Apply, EndsResume;
    if steps != [] {
      StepKeepsSender(s, steps[0]);
      RunKeepsSender(Apply(s, steps[0]), steps[1..]);
    }
  }

  /** A resume tells to re-issue itself whoever's sender it found when it began, whatever was installed since, and nobody else. */
  lemma SignalsWhomItFound(s: System, during: seq<Step>, h: nat)
    requires Enabled(s, OfDashboard(ResumeBegins)) && Run(Apply(s, OfDashboard(ResumeBegins)), during).Some?
    requires forall i :: 0 <= i < |during| ==> !EndsResume(during[i])
    requires var e := Run(Apply(s, OfDashboard(ResumeBegins)), during).value; Enabled(e, OfDashboard(Signal)) && h < |e.handlers|
    ensures var e := Run(Apply(s, OfDashboard(ResumeBegins)), during).value;
            Apply(e, OfDashboard(Signal)).handlers[h].resumeSignalled
            <==> e.handlers[h].resumeSignalled || (s.shared.resumeSender == Some(h) && e.handlers[h].Live())
  {
    hide Run, EndsResume;
    RunKeepsSender(Apply(s, OfDashboard(ResumeBegins)), during);
  }
}
