/** Whose reports the progress count stands for, and what a resume drops on the strength of it. */
module Counting {
  import opened Results
  import opened DriverStates
  import opened GoalLifecycle
  import opened Verdicts
  import opened Exclusion
  import opened Resumption

  // --- the discipline ---

  /** On each connection the script reports its waypoints in order. */
  predicate InOrder(s: System, step: Step) {
    step.OfSocket? && step.socket.Read? && step.socket.line.WaypointReached? && s.server.Serving?
    ==> step.socket.line.index == s.server.reported
  }

  /** Scripts report in order, and no admission collides. */
  ghost predicate Disciplined(s: System, step: Step) { InOrder(s, step) && !Collides(s, step) }

  ghost predicate DisciplinedRun(s: System, steps: seq<Step>)
    decreases |steps|
  {
    steps != [] ==> Enabled(s, steps[0]) && Disciplined(s, steps[0]) && DisciplinedRun(Apply(s, steps[0]), steps[1..])
  }

  // --- the handshake being awaited ---

  predicate MayGreet(pc: Pc) { pc.Writing? || pc.Handshaking? || pc.Publishing? || pc.TearingDown? }

  /** A handshake sender in its slot is unused, and is of the current attempt of a handler that may still need it. */
  ghost predicate Awaited(s: System) {
    && (forall t :: t in s.shaken ==> t in s.verdicts && s.shared.handshakeSender != Some(t))
    && (s.server.Greeting? ==> s.server.slot in s.verdicts && s.shared.handshakeSender != Some(s.server.slot))
    && (s.shared.handshakeSender.Some? ==>
          var t := s.shared.handshakeSender.value;
          t in s.verdicts && t.handler < |s.handlers| && MayGreet(s.handlers[t.handler].pc) && t == Current(s, t.handler))
  }

  // --- the progress count ---

  ghost predicate Silent(s: System, t: Ticket) { forall r :: r in s.history.reports ==> r.script != t }

  /** The script has reported the first `n` waypoints of its list. */
  ghost predicate HasReported(s: System, t: Ticket, n: nat) { forall j :: 0 <= j < n ==> Report(t, j) in s.history.reports }

  /** Only scripts of installed attempts are served, and one that is still to be greeted has not reported. */
  ghost predicate ScriptsExact(s: System) {
    && (forall r :: r in s.history.reports ==> r.script in s.verdicts)
    && (!s.server.Listening? ==> s.server.dialler in s.verdicts)
    && (s.shared.handshakeSender.Some? ==>
          var t := s.shared.handshakeSender.value; Silent(s, t) && (!s.server.Listening? ==> s.server.dialler != t))
  }

  /** The count is zero until some script's report moves it, and then that script has reported that far. */
  ghost predicate CountExact(s: System) {
    && (s.server.Serving? ==> HasReported(s, s.server.dialler, s.server.reported))
    && (s.history.counted.None? <==> s.shared.waypointsCompleted == 0)
    && (s.history.counted.Some? ==> HasReported(s, s.history.counted.value, s.shared.waypointsCompleted))
  }

  /** While another script is served, or holds the count, the current script of a live handler has reported nothing. */
  ghost predicate OthersFirst(s: System) {
    forall h :: 0 <= h < |s.handlers| && s.handlers[h].Live() ==>
      && (!s.server.Listening? && s.server.dialler != Current(s, h) ==> Silent(s, Current(s, h)))
      && (!CountsOwn(s, h) ==> Silent(s, Current(s, h)))
  }

  /** No counted report came from another attempt. */
  predicate CountsOwn(s: System, h: nat)
    requires h < |s.handlers|
  {
    s.history.counted.None? || s.history.counted == Some(Current(s, h))
  }

  ghost predicate Counted(s: System) { ScriptsExact(s) && CountExact(s) && OthersFirst(s) }

  ghost predicate Sound(s: System) { GuardExact(s) && Alone(s) && Linear(s) && AllCut(s.handlers) && Awaited(s) && Counted(s) }

  // --- steps keep to the handshake being awaited ---

  /** Nobody changes attempt or comes alive, and whoever may greet the awaited script keeps the right to. */
  ghost predicate SamePlaces(s: System, s': System) {
    && |s'.handlers| == |s.handlers|
    && forall h :: 0 <= h < |s.handlers| ==>
         var pc, pc' := s.handlers[h].pc, s'.handlers[h].pc;
         && s'.handlers[h].attempt == s.handlers[h].attempt
         && (!pc'.Finished? ==> !pc.Finished?)
         && (MayGreet(pc) && s'.shared.handshakeSender == Some(Current(s, h)) ==> MayGreet(pc'))
  }

  /** No script is newly awaited, served or counted. */
  ghost predicate NoNewScript(s: System, s': System) {
    && SamePlaces(s, s') && s.verdicts.Keys <= s'.verdicts.Keys && s'.shaken == s.shaken
    && s'.history.reports == s.history.reports
    && (s'.shared.handshakeSender == s.shared.handshakeSender || s'.shared.handshakeSender == None)
    && (s'.server == s.server || s'.server.Listening?)
    && ((s'.history.counted == s.history.counted && s'.shared.waypointsCompleted == s.shared.waypointsCompleted)
        || (s'.history.counted == None && s'.shared.waypointsCompleted == 0))
  }

  lemma FrameAwaited(s: System, s': System)
    requires Awaited(s) && NoNewScript(s, s')
    ensures Awaited(s')
  {
    forall h | 0 <= h < |s.handlers| ensures Current(s', h) == Current(s, h) {
    }
    if s'.shared.handshakeSender.Some? {
      var t := s'.shared.handshakeSender.value;
      assert t in s.verdicts.Keys && MayGreet(s.handlers[t.handler].pc) && t == Current(s, t.handler);
    }
    if s'.server.Greeting? {
      assert s'.server.slot in s.verdicts.Keys;
    }
    forall t | t in s'.shaken ensures t in s'.verdicts {
      assert t in s.verdicts.Keys;
    }
  }

  lemma FrameCounted(s: System, s': System)
    requires Counted(s) && NoNewScript(s, s')
    ensures Counted(s')
  {
    forall h | 0 <= h < |s.handlers| ensures Current(s', h) == Current(s, h) {
    }
    forall r | r in s'.history.reports ensures r.script in s'.verdicts {
      assert r.script in s.verdicts.Keys;
    }
    if !s'.server.Listening? {
      assert s.server.dialler in s.verdicts.Keys;
    }
  }

  lemma KeysKept(s: System, s': System)
    requires Settles(s, s')
    ensures s.verdicts.Keys <= s'.verdicts.Keys
  {
  }

  // --- steps that bring in a script ---

  lemma Unissued(s: System, t: Ticket)
    requires ScriptsExact(s) && t !in s.verdicts
    ensures Silent(s, t)
  {
  }

  lemma SpawnCounted(s: System)
    requires Awaited(s) && Counted(s) && Linear(s) && DeskEnabled(s, Spawn)
    ensures Awaited(DeskApply(s, Spawn)) && Counted(DeskApply(s, Spawn))
  {
    var s', n := DeskApply(s, Spawn), |s.handlers|;
    forall h | 0 <= h < n ensures Current(s', h) == Current(s, h) {
    }
    assert Current(s', n) == Ticket(n, 0) && Ticket(n, 0) !in s.verdicts;
    Unissued(s, Ticket(n, 0));
  }

  lemma InstallAwaited(s: System, h: nat)
    requires Awaited(s) && Linear(s) && HandlerEnabled(s, h, Install)
    ensures Awaited(SharedApply(s, h, Install))
  {
    hide BooksAfter;
    var s', mine := SharedApply(s, h, Install), Current(s, h);
    assert mine !in s.verdicts;
    forall i | 0 <= i < |s.handlers| ensures Current(s', i) == Current(s, i) {
    }
  }

  lemma InstallCounted(s: System, h: nat)
    requires Counted(s) && Linear(s) && HandlerEnabled(s, h, Install)
    ensures Counted(SharedApply(s, h, Install))
  {
    hide BooksAfter, VerdictsAfter, SlotExact, ScriptsExact;
    var s' := SharedApply(s, h, Install);
    forall i | 0 <= i < |s.handlers| ensures Current(s', i) == Current(s, i) {
    }
    InstallScripts(s, h);
  }

  lemma InstallScripts(s: System, h: nat)
    requires ScriptsExact(s) && Linear(s) && HandlerEnabled(s, h, Install)
    ensures ScriptsExact(SharedApply(s, h, Install))
  {
    hide BooksAfter, HandlersAfter, SlotExact;
    var s', mine := SharedApply(s, h, Install), Current(s, h);
    assert mine !in s.verdicts;
    Unissued(s, mine);
    assert s.verdicts.Keys <= s'.verdicts.Keys;
    forall r | r in s'.history.reports ensures r.script in s'.verdicts {
      assert r.script in s.verdicts.Keys;
    }
  }

  lemma ResetAwaited(s: System, h: nat)
    requires Awaited(s) && HandlerEnabled(s, h, Reset)
    ensures Awaited(SharedApply(s, h, Reset))
  {
    hide BooksAfter;
    var s' := SharedApply(s, h, Reset);
    forall i | 0 <= i < |s.handlers| && i != h ensures Current(s', i) == Current(s, i) {
    }
  }

  lemma ResetCounted(s: System, h: nat)
    requires Counted(s) && Linear(s) && HandlerEnabled(s, h, Reset)
    ensures Counted(SharedApply(s, h, Reset))
  {
    hide BooksAfter, SlotExact;
    var s' := SharedApply(s, h, Reset);
    forall i | 0 <= i < |s.handlers| && i != h ensures Current(s', i) == Current(s, i) {
    }
    assert Current(s', h) !in s.verdicts;
    Unissued(s, Current(s', h));
  }

  /** The only handshake that can be answered is that of the one live handler, whose script has not reported. */
  lemma AcceptCounted(s: System, dialler: Ticket)
    requires Awaited(s) && Counted(s) && Alone(s) && SocketEnabled(s, Accept(dialler))
    ensures Awaited(SocketApply(s, Accept(dialler))) && Counted(SocketApply(s, Accept(dialler)))
  {
    var s' := SocketApply(s, Accept(dialler));
    forall h | 0 <= h < |s.handlers| ensures Current(s', h) == Current(s, h) {
    }
    if s.shared.Expecting() {
      var owner := s.shared.handshakeSender.value.handler;
      assert s.handlers[owner].Live();
      forall h | 0 <= h < |s.handlers| && s.handlers[h].Live() ensures h == owner {
        assert h < owner || owner < h || h == owner;
      }
    }
  }

  lemma GreetedCounted(s: System, ok: bool)
    requires Awaited(s) && Counted(s) && s.server.Greeting?
    ensures Awaited(SocketApply(s, Greeted(ok))) && Counted(SocketApply(s, Greeted(ok)))
  {
    var s' := SocketApply(s, Greeted(ok));
    forall h | 0 <= h < |s.handlers| ensures Current(s', h) == Current(s, h) {
    }
  }

  lemma ReportCounted(s: System, index: nat)
    requires Awaited(s) && Counted(s) && s.server.Serving? && index == s.server.reported
    ensures Awaited(ReadApply(s, WaypointReached(index))) && Counted(ReadApply(s, WaypointReached(index)))
  {
    var s', t := ReadApply(s, WaypointReached(index)), s.server.dialler;
    assert s'.history.reports == s.history.reports + {Report(t, index)};
    forall h | 0 <= h < |s.handlers| ensures Current(s', h) == Current(s, h) {
    }
    assert HasReported(s', t, index + 1);
  }

  // --- every step ---

  lemma LocalGreets(s: System, h: nat, a: HandlerStep)
    requires HandlerEnabled(s, h, a) && a.Local()
    ensures !LocalNext(s, h, a).Finished? && (MayGreet(s.handlers[h].pc) && !a.Shaken? ==> MayGreet(LocalNext(s, h, a)))
  {
    hide RemainingCommand, CancelArrives, ResumeArrives, VerdictOf;
  }

  lemma LocalNoNewScript(s: System, h: nat, a: HandlerStep)
    requires Awaited(s) && HandlerEnabled(s, h, a) && a.Local()
    ensures NoNewScript(s, LocalApply(s, h, a))
  {
    hide LocalNext;
    LocalGreets(s, h, a);
    LocalUnfinished(s, h, a);
  }

  lemma SharedNoNewScript(s: System, h: nat, a: HandlerStep)
    requires Linear(s) && HandlerEnabled(s, h, a) && !a.Local() && !a.Install? && !a.Reset?
    ensures NoNewScript(s, SharedApply(s, h, a))
  {
    hide Linear, Settles, VerdictsAfter, BooksAfter;
    SharedLinear(s, h, a);
    KeysKept(s, SharedApply(s, h, a));
  }

  lemma HandlerCounted(s: System, h: nat, a: HandlerStep)
    requires Awaited(s) && Counted(s) && Linear(s) && HandlerEnabled(s, h, a)
    ensures Awaited(HandlerApply(s, h, a)) && Counted(HandlerApply(s, h, a))
  {
    hide Awaited, Counted, Linear, LocalApply, SharedApply, NoNewScript;
    if a.Local() {
      LocalNoNewScript(s, h, a);
      FrameAwaited(s, LocalApply(s, h, a));
      FrameCounted(s, LocalApply(s, h, a));
    } else if a.Install? {
      InstallAwaited(s, h);
      InstallCounted(s, h);
    } else if a.Reset? {
      ResetAwaited(s, h);
      ResetCounted(s, h);
    } else {
      SharedNoNewScript(s, h, a);
      FrameAwaited(s, SharedApply(s, h, a));
      FrameCounted(s, SharedApply(s, h, a));
    }
  }

  lemma ReadNoNewScript(s: System, line: Line)
    requires Linear(s) && s.server.Serving? && !line.WaypointReached?
    ensures NoNewScript(s, ReadApply(s, line))
  {
    hide Linear, Settles, Settled;
    ReadLinear(s, line);
    KeysKept(s, ReadApply(s, line));
  }

  lemma SocketCounted(s: System, x: SocketStep)
    requires Awaited(s) && Counted(s) && Alone(s) && Linear(s) && SocketEnabled(s, x) && Disciplined(s, OfSocket(x))
    ensures Awaited(SocketApply(s, x)) && Counted(SocketApply(s, x))
  {
    hide Collides, Awaited, Counted, Alone, Linear, ReadApply, NoNewScript;
    match x {
      case Accept(dialler) => AcceptCounted(s, dialler);
      case Greeted(ok) => GreetedCounted(s, ok);
      case Read(line) =>
        if line.WaypointReached? {
          ReportCounted(s, line.index);
        } else {
          ReadNoNewScript(s, line);
          FrameAwaited(s, ReadApply(s, line));
          FrameCounted(s, ReadApply(s, line));
        }
    }
  }

  lemma OtherNoNewScript(s: System, step: Step)
    requires Linear(s) && Enabled(s, step) && !step.OfHandler? && !step.OfSocket? && step != OfDesk(Spawn)
    ensures NoNewScript(s, Apply(s, step))
  {
    hide Linear, Settles, Settled, HandlerApply, SocketApply;
    StepLinear(s, step);
    KeysKept(s, Apply(s, step));
  }

  lemma StepCounted(s: System, step: Step)
    requires Sound(s) && Enabled(s, step) && Disciplined(s, step)
    ensures Awaited(Apply(s, step)) && Counted(Apply(s, step))
  {
    hide GuardExact, Alone, Linear, AllCut, Awaited, Counted, NoNewScript, Disciplined, HandlerApply, SocketApply, DeskApply,
         ReaderApply, DashboardApply;
    if step.OfHandler? {
      HandlerCounted(s, step.h, step.own);
    } else if step.OfSocket? {
      SocketCounted(s, step.socket);
    } else if step == OfDesk(Spawn) {
      SpawnCounted(s);
    } else {
      OtherNoNewScript(s, step);
      FrameAwaited(s, Apply(s, step));
      FrameCounted(s, Apply(s, step));
    }
  }

  lemma StepSound(s: System, step: Step)
    requires Sound(s) && Enabled(s, step) && Disciplined(s, step)
    ensures Sound(Apply(s, step))
  {
    StepGuard(s, step);
    StepAlone(s, step);
    StepLinear(s, step);
    StepCut(s, step);
    StepCounted(s, step);
    hide GuardExact, Alone, Linear, AllCut, Awaited, Counted, Enabled, Apply, Collides;
  }

  lemma StartSound()
    ensures Sound(START)
  {
  }

  lemma {:induction false} RunSound(s: System, steps: seq<Step>)
    requires Sound(s) && DisciplinedRun(s, steps)
    ensures Run(s, steps).Some? && Sound(Run(s, steps).value)
    decreases |steps|
  {
    hide Sound, Enabled, Apply, Disciplined;
    if steps != [] {
      StepSound(s, steps[0]);
      RunSound(Apply(s, steps[0]), steps[1..]);
    }
  }

  // --- what a resume drops ---

  /** The step sees a resume and goes on to re-issue what is left of a trajectory. */
  predicate Reissues(s: System, step: Step) {
    && step.OfHandler? && step.own.SeeResume? && HandlerEnabled(s, step.h, step.own)
    && LocalNext(s, step.h, step.own).Claiming? && s.handlers[step.h].command.waypoints != []
  }

  /** It drops only waypoints that the script of its own attempt has reported. */
  ghost predicate DropsOwn(s: System, step: Step)
    requires Reissues(s, step)
  {
    HasReported(s, Current(s, step.h), LocalNext(s, step.h, step.own).dropped)
  }

  lemma DropsOwnIff(s: System, step: Step)
    requires Counted(s) && Reissues(s, step)
    ensures DropsOwn(s, step) <==> CountsOwn(s, step.h)
  {
    hide ResumeArrives, RemainingCommand, ScriptsExact;
    var h := step.h;
    var n := s.shared.waypointsCompleted;
    ReissueDrops(s, step);
    LocalUnfinished(s, h, step.own);
    if !CountsOwn(s, h) {
      assert n > 0 && Silent(s, Current(s, h));
      assert Report(Current(s, h), 0) !in s.history.reports;
    }
  }

  lemma ReissueDrops(s: System, step: Step)
    requires Reissues(s, step)
    ensures LocalNext(s, step.h, step.own).dropped == s.shared.waypointsCompleted
  {
    hide ResumeArrives, RemainingCommand;
  }

  /** Every re-issue of the run drops only what its own attempt's script has reported. */
  ghost predicate AlwaysDropsOwn(s: System, steps: seq<Step>)
    decreases |steps|
  {
    steps != [] && Enabled(s, steps[0]) ==>
      (Reissues(s, steps[0]) ==> DropsOwn(s, steps[0])) && AlwaysDropsOwn(Apply(s, steps[0]), steps[1..])
  }

  /** No re-issue of the run reads a count that another attempt's script has moved. */
  ghost predicate AlwaysCountsOwn(s: System, steps: seq<Step>)
    decreases |steps|
  {
    steps != [] && Enabled(s, steps[0]) ==>
      (Reissues(s, steps[0]) ==> CountsOwn(s, steps[0].h)) && AlwaysCountsOwn(Apply(s, steps[0]), steps[1..])
  }

  lemma {:induction false} RunDropsOwnIff(s: System, steps: seq<Step>)
    requires Sound(s) && DisciplinedRun(s, steps)
    ensures AlwaysDropsOwn(s, steps) <==> AlwaysCountsOwn(s, steps)
    decreases |steps|
  {
    hide GuardExact, Alone, Linear, AllCut, Awaited, Counted, Enabled, Apply, Disciplined, Reissues, DropsOwn, CountsOwn;
    if steps != [] {
      if Reissues(s, steps[0]) {
        DropsOwnIff(s, steps[0]);
      }
      StepSound(s, steps[0]);
      RunDropsOwnIff(Apply(s, steps[0]), steps[1..]);
    }
  }

  /**
   In a run without collisions whose scripts report in order, the re-issues drop only waypoints that the
   script of their own attempt has reported if and only if none of them reads a count that holds a report of
   another attempt.
   */
  lemma ResumeDropsOwnIff(steps: seq<Step>)
    requires DisciplinedRun(START, steps)
    ensures AlwaysDropsOwn(START, steps) <==> AlwaysCountsOwn(START, steps)
  {
    StartSound();
    RunDropsOwnIff(START, steps);
  }
}
