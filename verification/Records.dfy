/** Whose goal the shared record describes, and whose script a handler waits on. */
module Records {
  import opened Results
  import opened DriverStates
  import opened GoalLifecycle
  import opened Exclusion
  import opened Resumption

  // --- the live goal ---

  predicate OfGoal(sender: Option<Ticket>, h: nat) { sender.Some? ==> sender.value.handler == h }

  /** Every field that names a goal names this one, and the command kept for a resume is the one being run. */
  ghost predicate Describes(r: Shared, h: nat, me: Handler) {
    && (r.goalId.Some? ==> r.goalId == Some(h)) && (r.feedbackSender.Some? <==> r.goalId.Some?)
    && OfGoal(r.goalSender, h) && OfGoal(r.handshakeSender, h) && OfGoal(r.feedbackSender, h)
    && (r.cancelSender.Some? ==> r.cancelSender == Some(h)) && r.resumeSender == Some(h)
    && (me.pc.Activating? || r.activeCommand == Some(me.command))
  }

  /** No field names a goal. */
  ghost predicate Vacant(r: Shared) {
    && r.goalId.None? && r.goalSender.None? && r.handshakeSender.None? && r.feedbackSender.None?
    && r.cancelSender.None? && r.resumeSender.None? && r.activeCommand.None?
  }

  ghost predicate NoneLive(hs: seq<Handler>) { forall h :: 0 <= h < |hs| ==> !hs[h].Live() }

  ghost predicate RecordExact(s: System) {
    && (forall h :: 0 <= h < |s.handlers| && s.handlers[h].Live() ==> Describes(s.shared, h, s.handlers[h]))
    && (NoneLive(s.handlers) ==> Vacant(s.shared))
  }

  /** The record loses some of its senders, and no handler changes its command or comes alive. */
  ghost predicate Loses(s: System, s': System) {
    && |s'.handlers| == |s.handlers|
    && (forall h :: 0 <= h < |s.handlers| ==>
          && (s'.handlers[h].Live() <==> s.handlers[h].Live())
          && s'.handlers[h].command == s.handlers[h].command
          && (s.handlers[h].pc.Activating? ==> s'.handlers[h].pc.Activating?))
    && var r, r' := s.shared, s'.shared;
       && ((r'.goalId == r.goalId && r'.feedbackSender == r.feedbackSender) || (r'.goalId.None? && r'.feedbackSender.None?))
       && (r'.goalSender == r.goalSender || r'.goalSender.None?)
       && (r'.handshakeSender == r.handshakeSender || r'.handshakeSender.None?)
       && (r'.cancelSender == r.cancelSender || r'.cancelSender.None?)
       && r'.resumeSender == r.resumeSender && r'.activeCommand == r.activeCommand
  }

  lemma FrameRecord(s: System, s': System)
    requires RecordExact(s) && Loses(s, s')
    ensures RecordExact(s')
  {
    forall h | 0 <= h < |s'.handlers| && s'.handlers[h].Live() ensures Describes(s'.shared, h, s'.handlers[h]) {
      assert Describes(s.shared, h, s.handlers[h]);
    }
    if NoneLive(s'.handlers) {
      assert NoneLive(s.handlers);
    }
  }

  lemma DeskRecords(s: System, d: DeskStep)
    requires RecordExact(s) && Alone(s) && DeskEnabled(s, d)
    ensures RecordExact(DeskApply(s, d))
  {
    if d.Spawn? {
      var s', n := DeskApply(s, d), |s.handlers|;
      assert NoneLive(s.handlers);
      assert s'.handlers[n].Live();
    } else {
      FrameRecord(s, DeskApply(s, d));
    }
  }

  lemma Only(s: System, h: nat)
    requires Alone(s) && h < |s.handlers| && s.handlers[h].Live()
    ensures forall i :: 0 <= i < |s.handlers| && s.handlers[i].Live() ==> i == h
  {
    forall i | 0 <= i < |s.handlers| && s.handlers[i].Live() ensures i == h {
      assert i < h || h < i || i == h;
    }
  }

  lemma InstallRecords(s: System, h: nat)
    requires RecordExact(s) && Alone(s) && HandlerEnabled(s, h, Install)
    ensures RecordExact(SharedApply(s, h, Install))
  {
    hide VerdictsAfter, BooksAfter, HistoryAfter;
    Only(s, h);
    var s' := SharedApply(s, h, Install);
    assert Describes(s.shared, h, s.handlers[h]) && s'.handlers[h].Live();
  }

  lemma CommandRecords(s: System, h: nat, a: HandlerStep)
    requires RecordExact(s) && Alone(s) && HandlerEnabled(s, h, a) && (a.Reset? || a.Activate? || a.TearDown?)
    ensures RecordExact(SharedApply(s, h, a))
  {
    hide VerdictsAfter, BooksAfter, HistoryAfter;
    Only(s, h);
    var s' := SharedApply(s, h, a);
    assert Describes(s.shared, h, s.handlers[h]);
    if !a.TearDown? {
      assert s'.handlers[h].Live();
    }
  }

  lemma LocalLoses(s: System, h: nat, a: HandlerStep)
    requires HandlerEnabled(s, h, a) && a.Local()
    ensures Loses(s, LocalApply(s, h, a))
  {
    hide LocalNext;
    LocalUnfinished(s, h, a);
    LocalElsewhere(s, h, a);
  }

  lemma LocalElsewhere(s: System, h: nat, a: HandlerStep)
    requires HandlerEnabled(s, h, a) && a.Local()
    ensures !s.handlers[h].pc.Activating?
  {
  }

  lemma SharedLoses(s: System, h: nat, a: HandlerStep)
    requires HandlerEnabled(s, h, a) && (a.Claim? || a.Publish?)
    ensures Loses(s, SharedApply(s, h, a))
  {
    hide VerdictsAfter, BooksAfter, HistoryAfter;
  }

  lemma HandlerRecords(s: System, h: nat, a: HandlerStep)
    requires RecordExact(s) && Alone(s) && HandlerEnabled(s, h, a)
    ensures RecordExact(HandlerApply(s, h, a))
  {
    hide RecordExact, Alone, LocalApply, SharedApply, Loses;
    if a.Local() {
      LocalLoses(s, h, a);
      FrameRecord(s, LocalApply(s, h, a));
    } else if a.Install? {
      InstallRecords(s, h);
    } else if a.Claim? || a.Publish? {
      SharedLoses(s, h, a);
      FrameRecord(s, SharedApply(s, h, a));
    } else {
      CommandRecords(s, h, a);
    }
  }

  lemma SocketLoses(s: System, x: SocketStep)
    requires SocketEnabled(s, x)
    ensures Loses(s, SocketApply(s, x))
  {
    hide ReadApply;
    if x.Read? {
      ReadLoses(s, x.line);
    }
  }

  lemma ReadLoses(s: System, line: Line)
    requires s.server.Serving?
    ensures Loses(s, ReadApply(s, line))
  {
    hide Settled;
    if line.Closed? {
      ClosedLoses(s);
    }
  }

  lemma ClosedLoses(s: System)
    requires s.server.Serving?
    ensures Loses(s, ReadApply(s, Closed))
  {
    hide Settled;
  }

  lemma StepRecords(s: System, step: Step)
    requires RecordExact(s) && Alone(s) && Enabled(s, step)
    ensures RecordExact(Apply(s, step))
  {
    hide RecordExact, Alone, Loses, DeskApply, HandlerApply, SocketApply, ReaderApply, DashboardApply;
    match step {
      case OfDesk(d) => DeskRecords(s, d);
      case OfHandler(h, a) => HandlerRecords(s, h, a);
      case OfSocket(x) => SocketLoses(s, x); FrameRecord(s, SocketApply(s, x));
      case OfReader(r) => ReaderLoses(s, r); FrameRecord(s, ReaderApply(s, r));
      case OfDashboard(d) => DashboardLoses(s, d); FrameRecord(s, DashboardApply(s, d));
    }
  }

  lemma ReaderLoses(s: System, r: ReaderStep)
    requires ReaderEnabled(s, r)
    ensures Loses(s, ReaderApply(s, r))
  {
    hide Settled;
  }

  lemma DashboardLoses(s: System, d: DashboardStep)
    requires DashboardEnabled(s, d)
    ensures Loses(s, DashboardApply(s, d))
  {
  }

  lemma {:induction false} RunRecords(s: System, steps: seq<Step>)
    requires GuardExact(s) && Alone(s) && RecordExact(s) && NeverCollides(s, steps) && Run(s, steps).Some?
    ensures RecordExact(Run(s, steps).value)
    decreases |steps|
  {
    hide GuardExact, Alone, RecordExact, Collides, Enabled, Apply;
    if steps != [] {
      StepGuard(s, steps[0]);
      StepAlone(s, steps[0]);
      StepRecords(s, steps[0]);
      RunRecords(Apply(s, steps[0]), steps[1..]);
    }
  }

  /**
   In a run without collisions the record describes the live goal and no other: whatever id or sender it holds
   is that goal's, and the command kept for a resume is what the goal still runs. Without a live goal it is empty.
   */
  lemma RecordIsOfLiveGoal(steps: seq<Step>)
    requires NeverCollides(START, steps) && Run(START, steps).Some?
    ensures RecordExact(Run(START, steps).value)
  {
    hide Run, NeverCollides;
    RunRecords(START, steps);
  }

  // --- the others ---

  /** Nothing of a handler but its standing changes. */
  predicate Stays(me: Handler, me': Handler) { me' == me.(standing := me'.standing) }

  lemma OtherHandlersStay(s: System, i: nat, a: HandlerStep, h: nat)
    requires HandlerEnabled(s, i, a) && h < |s.handlers| && h != i
    ensures Stays(s.handlers[h], HandlerApply(s, i, a).handlers[h])
  {
    hide LocalNext, RecordAfter, VerdictsAfter, BooksAfter, HistoryAfter;
  }

  lemma SocketStays(s: System, x: SocketStep, h: nat)
    requires SocketEnabled(s, x) && h < |s.handlers|
    ensures Stays(s.handlers[h], SocketApply(s, x).handlers[h])
  {
    hide Settled, AfterLine;
  }

  /**
   Other tasks change nothing of a handler but its standing, and whether it is told to re-issue itself: only a
   dashboard that has its sender tells it, and only while it is live.
   */
  lemma OthersLeaveIt(s: System, step: Step, h: nat)
    requires Enabled(s, step) && h < |s.handlers| && !(step.OfHandler? && step.h == h)
    ensures var me, me' := s.handlers[h], Apply(s, step).handlers[h];
            && me' == me.(standing := me'.standing, resumeSignalled := me'.resumeSignalled)
            && (me'.resumeSignalled
                <==> me.resumeSignalled || (step == OfDashboard(Signal) && s.dashboard == Signalling(Some(h)) && me.Live()))
  {
    hide HandlerApply, SocketApply, Settled, Shared.Admission, HandlerEnabled, SocketEnabled;
    if step.OfHandler? {
      OtherHandlersStay(s, step.h, step.own, h);
    } else if step.OfSocket? {
      SocketStays(s, step.socket, h);
    }
  }

  // --- handshakes ---

  predicate PastHandshake(pc: Pc) { pc.Waiting? || pc.Cancelling? || Carries(pc) }

  /** A handler that waits, or acts on what it waited for, waits on a script that shook hands. */
  ghost predicate AllShaken(s: System) {
    forall h :: 0 <= h < |s.handlers| && PastHandshake(s.handlers[h].pc) ==> Current(s, h) in s.shaken
  }

  ghost predicate NoFurther(s: System, s': System) {
    && |s.handlers| <= |s'.handlers| && s.shaken <= s'.shaken
    && (forall h :: |s.handlers| <= h < |s'.handlers| ==> !PastHandshake(s'.handlers[h].pc))
    && (forall h :: 0 <= h < |s.handlers| && PastHandshake(s'.handlers[h].pc) ==>
          PastHandshake(s.handlers[h].pc) && s'.handlers[h].attempt == s.handlers[h].attempt)
  }

  lemma FrameShaken(s: System, s': System)
    requires AllShaken(s) && NoFurther(s, s')
    ensures AllShaken(s')
  {
    forall h | 0 <= h < |s'.handlers| && PastHandshake(s'.handlers[h].pc) ensures Current(s', h) in s'.shaken {
      assert Current(s', h) == Current(s, h);
    }
  }

  lemma LocalShaken(s: System, h: nat, a: HandlerStep)
    requires AllShaken(s) && HandlerEnabled(s, h, a) && a.Local()
    ensures AllShaken(LocalApply(s, h, a))
  {
    hide LocalNext;
    LocalPast(s, h, a);
    var s' := LocalApply(s, h, a);
    forall i | 0 <= i < |s.handlers| ensures Current(s', i) == Current(s, i) {
    }
  }

  lemma LocalPast(s: System, h: nat, a: HandlerStep)
    requires HandlerEnabled(s, h, a) && a.Local()
    ensures PastHandshake(LocalNext(s, h, a)) ==> PastHandshake(s.handlers[h].pc) || Current(s, h) in s.shaken
  {
    hide RemainingCommand, CancelArrives, ResumeArrives, VerdictOf;
  }

  lemma SharedNoFurther(s: System, h: nat, a: HandlerStep)
    requires HandlerEnabled(s, h, a) && !a.Local()
    ensures NoFurther(s, SharedApply(s, h, a))
  {
    hide RecordAfter, VerdictsAfter, BooksAfter, HistoryAfter;
  }

  lemma SocketNoFurther(s: System, x: SocketStep)
    requires SocketEnabled(s, x)
    ensures NoFurther(s, SocketApply(s, x))
  {
    hide Settled;
  }

  lemma StepShaken(s: System, step: Step)
    requires AllShaken(s) && Enabled(s, step)
    ensures AllShaken(Apply(s, step))
  {
    hide AllShaken, LocalApply, SharedApply, SocketApply, Settled;
    if step.OfHandler? && step.own.Local() {
      LocalShaken(s, step.h, step.own);
    } else if step.OfHandler? {
      SharedNoFurther(s, step.h, step.own);
      FrameShaken(s, Apply(s, step));
    } else if step.OfSocket? {
      SocketNoFurther(s, step.socket);
      FrameShaken(s, Apply(s, step));
    } else {
      FrameShaken(s, Apply(s, step));
    }
  }

  lemma {:induction false} RunShaken(s: System, steps: seq<Step>)
    requires AllShaken(s) && Run(s, steps).Some?
    ensures AllShaken(Run(s, steps).value)
    decreases |steps|
  {
    hide AllShaken, Enabled, Apply;
    if steps != [] {
      StepShaken(s, steps[0]);
      RunShaken(Apply(s, steps[0]), steps[1..]);
    }
  }

  /** In every reachable state a handler that waits, cancels or resumes does so on a script of its current attempt that shook hands. */
  lemma HandshakeFirst(steps: seq<Step>, h: nat)
    requires Run(START, steps).Some? && h < |Run(START, steps).value.handlers|
    ensures var s := Run(START, steps).value; PastHandshake(s.handlers[h].pc) ==> Current(s, h) in s.shaken
  {
    hide Run;
    RunShaken(START, steps);
  }

  /** A script has shaken hands only once the socket server heard its goal id back on the sender of its attempt. */
  lemma ShakenIff(s: System, step: Step, t: Ticket)
    requires Enabled(s, step) && t !in s.shaken
    ensures t in Apply(s, step).shaken <==> step == OfSocket(Greeted(true)) && s.server == Greeting(s.server.dialler, t)
  {
    hide LocalNext, RecordAfter, HandlersAfter, VerdictsAfter, BooksAfter, Settled;
  }
}
