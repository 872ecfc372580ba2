/** Exactly when no waypoint is skipped, and a discipline that sees to it. */
module Progress {
  import opened Results
  import opened DriverStates
  import opened GoalLifecycle
  import opened Verdicts
  import opened Exclusion
  import opened Resumption
  import opened Counting

  // --- what was dropped was reached ---

  /** Some script of the handler reported waypoint `k` of the accepted command. */
  ghost predicate Reached(s: System, h: nat, k: nat)
    requires h < |s.handlers|
  {
    exists r :: r in s.history.reports && Stands(s.handlers[h], h, r, k)
  }

  /** The report is of the handler's script, and its index stands for waypoint `k` of the accepted command. */
  predicate Stands(me: Handler, h: nat, r: Report, k: nat) {
    r.script.handler == h && r.script.attempt < |me.offsets| && me.offsets[r.script.attempt] + r.index == k
  }

  ghost predicate ReachedUpTo(s: System, h: nat, n: nat)
    requires h < |s.handlers|
  {
    forall k :: 0 <= k < n ==> Reached(s, h, k)
  }

  /** Reports come without gaps, on the connection being served and in what has been heard before. */
  ghost predicate Gapless(s: System) {
    && (forall r, j :: r in s.history.reports && 0 <= j < r.index ==> Report(r.script, j) in s.history.reports)
    && (s.server.Serving? ==> HasReported(s, s.server.dialler, s.server.reported))
  }

  /** What was dropped was reached, and so is what is being dropped. */
  ghost predicate Credited(s: System, h: nat)
    requires h < |s.handlers|
  {
    var me := s.handlers[h];
    && (forall a :: 0 <= a < |me.offsets| ==> me.offsets[a] <= me.Offset())
    && ReachedUpTo(s, h, me.Offset())
    && (Carries(me.pc) ==> ReachedUpTo(s, h, me.Offset() + me.pc.dropped))
  }

  ghost predicate AllCredited(s: System) { forall h :: 0 <= h < |s.handlers| ==> Credited(s, h) }

  ghost predicate MoreReported(s: System, s': System) { s.history.reports <= s'.history.reports }

  lemma ReachedMore(s: System, s': System, h: nat, n: nat)
    requires h < |s.handlers| && h < |s'.handlers| && ReachedUpTo(s, h, n) && MoreReported(s, s')
    requires s.handlers[h].offsets <= s'.handlers[h].offsets
    ensures ReachedUpTo(s', h, n)
  {
    forall k | 0 <= k < n ensures Reached(s', h, k) {
      assert Reached(s, h, k);
      var r :| r in s.history.reports && Stands(s.handlers[h], h, r, k);
      assert Stands(s'.handlers[h], h, r, k);
    }
  }

  lemma FrameCredited(s: System, s': System)
    requires AllCredited(s) && SameCommands(s.handlers, s'.handlers) && MoreReported(s, s')
    ensures AllCredited(s')
  {
    hide ReachedUpTo;
    forall h | 0 <= h < |s'.handlers| ensures Credited(s', h) {
      var me := s.handlers[h];
      assert Credited(s, h) && SameCommand(me, s'.handlers[h]);
      ReachedMore(s, s', h, me.Offset());
      if Carries(me.pc) {
        ReachedMore(s, s', h, me.Offset() + me.pc.dropped);
      }
    }
  }

  lemma SpawnCredited(s: System)
    requires AllCredited(s) && DeskEnabled(s, Spawn)
    ensures AllCredited(DeskApply(s, Spawn))
  {
    var s' := DeskApply(s, Spawn);
    forall h | 0 <= h < |s.handlers| ensures Credited(s', h) {
      assert Credited(s, h);
      ReachedMore(s, s', h, s.handlers[h].Offset());
      if Carries(s.handlers[h].pc) {
        ReachedMore(s, s', h, s.handlers[h].Offset() + s.handlers[h].pc.dropped);
      }
    }
  }

  lemma ResetCredited(s: System, h: nat)
    requires AllCredited(s) && HandlerEnabled(s, h, Reset)
    ensures AllCredited(SharedApply(s, h, Reset))
  {
    hide RecordAfter, VerdictsAfter, BooksAfter, ReachedUpTo;
    var s' := SharedApply(s, h, Reset);
    assert s'.handlers[h].Offset() == s.handlers[h].Offset() + s.handlers[h].pc.dropped;
    forall i | 0 <= i < |s.handlers| ensures Credited(s', i) {
      assert Credited(s, i);
      ReachedMore(s, s', i, s'.handlers[i].Offset());
      if Carries(s'.handlers[i].pc) {
        ReachedMore(s, s', i, s'.handlers[i].Offset() + s'.handlers[i].pc.dropped);
      }
    }
  }

  // --- what a resume skips ---

  /** Every waypoint the re-issue drops was reached. */
  ghost predicate DropsReached(s: System, step: Step)
    requires Reissues(s, step)
  {
    var o := s.handlers[step.h].Offset();
    forall k :: o <= k < o + LocalNext(s, step.h, step.own).dropped ==> Reached(s, step.h, k)
  }

  /** The last waypoint the re-issue drops, if it drops any, was reached. */
  ghost predicate LastReached(s: System, step: Step)
    requires Reissues(s, step)
  {
    var n := LocalNext(s, step.h, step.own).dropped;
    n > 0 ==> Reached(s, step.h, s.handlers[step.h].Offset() + n - 1)
  }

  /** A waypoint is not reached before those ahead of it. */
  lemma ReachedDownward(s: System, h: nat, k: nat)
    requires h < |s.handlers| && Gapless(s) && Credited(s, h) && Reached(s, h, k)
    ensures ReachedUpTo(s, h, k + 1)
  {
    var me := s.handlers[h];
    var r :| r in s.history.reports && Stands(me, h, r, k);
    var base := me.offsets[r.script.attempt];
    forall i | 0 <= i <= k ensures Reached(s, h, i) {
      if i >= base {
        var q := Report(r.script, i - base);
        assert q in s.history.reports && Stands(me, h, q, i);
      }
    }
  }

  lemma DropsReachedIff(s: System, step: Step)
    requires Gapless(s) && AllCredited(s) && Reissues(s, step)
    ensures DropsReached(s, step) <==> LastReached(s, step)
  {
    hide Gapless, LocalNext;
    var n := LocalNext(s, step.h, step.own).dropped;
    assert Credited(s, step.h);
    if n > 0 && LastReached(s, step) {
      ReachedDownward(s, step.h, s.handlers[step.h].Offset() + n - 1);
    }
  }

  // --- steps keep the credit ---

  lemma ResumeCredited(s: System, h: nat, renders: bool)
    requires AllCredited(s) && HandlerEnabled(s, h, SeeResume(renders))
    requires var step := OfHandler(h, SeeResume(renders)); Reissues(s, step) ==> DropsReached(s, step)
    ensures AllCredited(LocalApply(s, h, SeeResume(renders)))
  {
    hide LocalNext, Reissues;
    var s' := LocalApply(s, h, SeeResume(renders));
    ResumeDrops(s, h, renders);
    forall i | 0 <= i < |s.handlers| ensures Credited(s', i) {
      assert Credited(s, i);
      ReachedMore(s, s', i, s.handlers[i].Offset());
      if i == h && Carries(s'.handlers[h].pc) {
        ReachedMore(s, s', h, s.handlers[h].Offset() + s'.handlers[h].pc.dropped);
      } else if Carries(s.handlers[i].pc) {
        ReachedMore(s, s', i, s.handlers[i].Offset() + s.handlers[i].pc.dropped);
      }
    }
  }

  lemma ResumeDrops(s: System, h: nat, renders: bool)
    requires HandlerEnabled(s, h, SeeResume(renders))
    ensures var pc := LocalNext(s, h, SeeResume(renders));
            Carries(pc) ==> pc.Claiming? && (pc.dropped == 0 || Reissues(s, OfHandler(h, SeeResume(renders))))
  {
    hide ResumeArrives, RemainingCommand;
  }

  lemma HandlerCredited(s: System, h: nat, a: HandlerStep)
    requires AllCredited(s) && HandlerEnabled(s, h, a)
    requires Reissues(s, OfHandler(h, a)) ==> DropsReached(s, OfHandler(h, a))
    ensures AllCredited(HandlerApply(s, h, a))
  {
    hide AllCredited, LocalApply, SharedApply;
    match a {
      case SeeResume(renders) => ResumeCredited(s, h, renders);
      case Reset => ResetCredited(s, h);
      case _ => HandlerSameCommands(s, h, a); SameReports(s, h, a); FrameCredited(s, HandlerApply(s, h, a));
    }
  }

  lemma SameReports(s: System, h: nat, a: HandlerStep)
    requires HandlerEnabled(s, h, a)
    ensures HandlerApply(s, h, a).history.reports == s.history.reports && HandlerApply(s, h, a).server == s.server
  {
    hide LocalNext, RecordAfter, HandlersAfter, VerdictsAfter, BooksAfter;
  }

  lemma SocketGapless(s: System, x: SocketStep)
    requires Gapless(s) && SocketEnabled(s, x) && InOrder(s, OfSocket(x))
    ensures Gapless(SocketApply(s, x)) && MoreReported(s, SocketApply(s, x))
  {
    hide Settled;
  }

  lemma StepCredited(s: System, step: Step)
    requires Gapless(s) && AllCredited(s) && Enabled(s, step) && InOrder(s, step)
    requires Reissues(s, step) ==> DropsReached(s, step)
    ensures Gapless(Apply(s, step)) && AllCredited(Apply(s, step))
  {
    hide AllCredited, InOrder, HandlerApply, SocketApply, Settled;
    if step.OfHandler? {
      SameReports(s, step.h, step.own);
      HandlerCredited(s, step.h, step.own);
    } else if step.OfSocket? {
      SocketSameCommands(s, step.socket);
      SocketGapless(s, step.socket);
      FrameCredited(s, Apply(s, step));
    } else if step == OfDesk(Spawn) {
      SpawnCredited(s);
    } else {
      FrameCredited(s, Apply(s, step));
    }
  }

  // --- whole runs ---

  ghost predicate InOrderRun(s: System, steps: seq<Step>)
    decreases |steps|
  {
    steps != [] ==> Enabled(s, steps[0]) && InOrder(s, steps[0]) && InOrderRun(Apply(s, steps[0]), steps[1..])
  }

  /** No re-issue of the run skips a waypoint. */
  ghost predicate NeverSkips(s: System, steps: seq<Step>)
    decreases |steps|
  {
    steps != [] && Enabled(s, steps[0]) ==>
      (Reissues(s, steps[0]) ==> DropsReached(s, steps[0])) && NeverSkips(Apply(s, steps[0]), steps[1..])
  }

  ghost predicate AlwaysLastReached(s: System, steps: seq<Step>)
    decreases |steps|
  {
    steps != [] && Enabled(s, steps[0]) ==>
      (Reissues(s, steps[0]) ==> LastReached(s, steps[0])) && AlwaysLastReached(Apply(s, steps[0]), steps[1..])
  }

  lemma {:induction false} RunSkipsIff(s: System, steps: seq<Step>)
    requires Gapless(s) && AllCredited(s) && InOrderRun(s, steps)
    ensures NeverSkips(s, steps) <==> AlwaysLastReached(s, steps)
    decreases |steps|
  {
    hide Gapless, AllCredited, Enabled, Apply, InOrder, Reissues, DropsReached, LastReached;
    if steps != [] {
      if Reissues(s, steps[0]) {
        DropsReachedIff(s, steps[0]);
      }
      if !Reissues(s, steps[0]) || DropsReached(s, steps[0]) {
        StepCredited(s, steps[0]);
        RunSkipsIff(Apply(s, steps[0]), steps[1..]);
      }
    }
  }

  /**
   Where scripts report in order, and with any number of goals at once, no resume skips a waypoint if and only
   if of every re-issue the last waypoint it drops was reached.
   */
  lemma SkipsNothingIff(steps: seq<Step>)
    requires InOrderRun(START, steps)
    ensures NeverSkips(START, steps) <==> AlwaysLastReached(START, steps)
  {
    RunSkipsIff(START, steps);
  }

  lemma {:induction false} RunCredited(s: System, steps: seq<Step>)
    requires Gapless(s) && AllCredited(s) && InOrderRun(s, steps) && NeverSkips(s, steps)
    ensures Run(s, steps).Some? && AllCredited(Run(s, steps).value)
    decreases |steps|
  {
    hide Gapless, AllCredited, Enabled, Apply, InOrder, Reissues, DropsReached;
    if steps != [] {
      StepCredited(s, steps[0]);
      RunCredited(Apply(s, steps[0]), steps[1..]);
    }
  }

  /** What a script reported extends what was reached by just as much. */
  lemma OwnAreReached(s: System, step: Step)
    requires AllCut(s.handlers) && Reissues(s, step) && DropsOwn(s, step)
    ensures DropsReached(s, step)
  {
    hide LocalNext, ResumeArrives;
    var me, h := s.handlers[step.h], step.h;
    assert WellCut(me);
    forall k | me.Offset() <= k < me.Offset() + LocalNext(s, h, step.own).dropped ensures Reached(s, h, k) {
      var r := Report(Current(s, h), k - me.Offset());
      assert r in s.history.reports && Stands(me, h, r, k);
    }
  }

  lemma {:induction false} RunOwnSkipsNothing(s: System, steps: seq<Step>)
    requires Sound(s) && DisciplinedRun(s, steps) && AlwaysCountsOwn(s, steps)
    ensures InOrderRun(s, steps) && NeverSkips(s, steps)
    decreases |steps|
  {
    hide GuardExact, Alone, Linear, AllCut, Awaited, Counted, Enabled, Apply, InOrder, Collides, Reissues;
    hide CountsOwn, DropsOwn, DropsReached;
    if steps != [] {
      if Reissues(s, steps[0]) {
        DropsOwnIff(s, steps[0]);
        OwnAreReached(s, steps[0]);
      }
      StepSound(s, steps[0]);
      RunOwnSkipsNothing(Apply(s, steps[0]), steps[1..]);
    }
  }

  /**
   In a run without collisions whose scripts report in order, as long as no re-issue reads a count that holds
   another attempt's report, no waypoint is ever skipped: whatever was dropped from a goal was reached.
   */
  lemma NothingSkipped(steps: seq<Step>, h: nat)
    requires DisciplinedRun(START, steps) && AlwaysCountsOwn(START, steps)
    ensures NeverSkips(START, steps) && Run(START, steps).Some?
    ensures var s := Run(START, steps).value; h < |s.handlers| ==> ReachedUpTo(s, h, s.handlers[h].Offset())
  {
    hide Run, ReachedUpTo;
    StartSound();
    RunOwnSkipsNothing(START, steps);
    RunCredited(START, steps);
    var s := Run(START, steps).value;
    assert h < |s.handlers| ==> Credited(s, h);
  }

  // --- closing first ---

  /**
   Progress is only reset, and a handler only spawned, once the script being served has been read to its
   close; and only the script of the installed attempt dials.
   */
  ghost predicate ClosesFirst(s: System, step: Step) {
    && (step == OfDesk(Spawn) ==> s.server.Listening?)
    && (step.OfHandler? && step.own.Reset? ==> s.server.Listening?)
    && (step.OfSocket? && step.socket.Accept? && s.shared.Expecting() ==> s.shared.handshakeSender == Some(step.socket.dialler))
  }

  ghost predicate AlwaysClosesFirst(s: System, steps: seq<Step>)
    decreases |steps|
  {
    steps != [] && Enabled(s, steps[0]) ==> ClosesFirst(s, steps[0]) && AlwaysClosesFirst(Apply(s, steps[0]), steps[1..])
  }

  /** The script being served, and the one that moved the count, is the current one of the live handler. */
  ghost predicate OwnOnly(s: System) {
    forall h :: 0 <= h < |s.handlers| && s.handlers[h].Live() ==>
      (!s.server.Listening? ==> s.server.dialler == Current(s, h)) && CountsOwn(s, h)
  }

  lemma FrameOwn(s: System, s': System)
    requires OwnOnly(s) && NoNewScript(s, s')
    ensures OwnOnly(s')
  {
    forall h | 0 <= h < |s.handlers| ensures Current(s', h) == Current(s, h) {
    }
  }

  lemma HandlerOwn(s: System, h: nat, a: HandlerStep)
    requires OwnOnly(s) && Awaited(s) && Linear(s) && HandlerEnabled(s, h, a) && ClosesFirst(s, OfHandler(h, a))
    ensures OwnOnly(HandlerApply(s, h, a))
  {
    hide Awaited, Linear, LocalApply, SharedApply, NoNewScript, OwnOnly;
    if a.Local() {
      LocalNoNewScript(s, h, a);
      FrameOwn(s, LocalApply(s, h, a));
    } else if a.Install? {
      InstallOwn(s, h);
    } else if a.Reset? {
      ResetOwn(s, h);
    } else {
      SharedNoNewScript(s, h, a);
      FrameOwn(s, SharedApply(s, h, a));
    }
  }

  lemma InstallOwn(s: System, h: nat)
    requires OwnOnly(s) && HandlerEnabled(s, h, Install)
    ensures OwnOnly(SharedApply(s, h, Install))
  {
    hide VerdictsAfter, BooksAfter, RecordAfter;
    var s' := SharedApply(s, h, Install);
    forall i | 0 <= i < |s.handlers| ensures Current(s', i) == Current(s, i) {
    }
  }

  lemma ResetOwn(s: System, h: nat)
    requires HandlerEnabled(s, h, Reset) && s.server.Listening?
    ensures OwnOnly(SharedApply(s, h, Reset))
  {
    hide VerdictsAfter, BooksAfter, RecordAfter, HandlersAfter;
  }

  lemma SocketOwn(s: System, x: SocketStep)
    requires OwnOnly(s) && Awaited(s) && Alone(s) && Linear(s) && SocketEnabled(s, x) && ClosesFirst(s, OfSocket(x))
    ensures OwnOnly(SocketApply(s, x))
  {
    hide OwnOnly, NoNewScript, Alone, Awaited, Linear, ReadApply;
    match x {
      case Accept(dialler) => AcceptOwn(s, dialler);
      case Greeted(ok) => GreetedOwn(s, ok);
      case Read(line) =>
        if line.WaypointReached? {
          ReportOwn(s, line.index);
        } else {
          ReadNoNewScript(s, line);
          FrameOwn(s, ReadApply(s, line));
        }
    }
  }

  lemma AcceptOwn(s: System, dialler: Ticket)
    requires OwnOnly(s) && Awaited(s) && Alone(s) && SocketEnabled(s, Accept(dialler)) && ClosesFirst(s, OfSocket(Accept(dialler)))
    ensures OwnOnly(SocketApply(s, Accept(dialler)))
  {
    var s' := SocketApply(s, Accept(dialler));
    forall h | 0 <= h < |s.handlers| ensures Current(s', h) == Current(s, h) {
    }
    if s.shared.Expecting() {
      assert s.handlers[dialler.handler].Live();
      forall h | 0 <= h < |s.handlers| && s.handlers[h].Live() ensures h == dialler.handler {
        assert h < dialler.handler || dialler.handler < h || h == dialler.handler;
      }
    }
  }

  lemma GreetedOwn(s: System, ok: bool)
    requires OwnOnly(s) && s.server.Greeting?
    ensures OwnOnly(SocketApply(s, Greeted(ok)))
  {
    var s' := SocketApply(s, Greeted(ok));
    forall h | 0 <= h < |s.handlers| ensures Current(s', h) == Current(s, h) {
    }
  }

  lemma ReportOwn(s: System, index: nat)
    requires OwnOnly(s) && s.server.Serving?
    ensures OwnOnly(ReadApply(s, WaypointReached(index)))
  {
    var s' := ReadApply(s, WaypointReached(index));
    forall h | 0 <= h < |s.handlers| ensures Current(s', h) == Current(s, h) {
    }
  }

  lemma StepOwn(s: System, step: Step)
    requires OwnOnly(s) && Sound(s) && Enabled(s, step) && ClosesFirst(s, step)
    ensures OwnOnly(Apply(s, step))
  {
    hide GuardExact, Alone, Linear, AllCut, Awaited, Counted, OwnOnly, NoNewScript, ClosesFirst, HandlerApply, SocketApply,
         ReaderApply, DashboardApply;
    if step.OfHandler? {
      HandlerOwn(s, step.h, step.own);
    } else if step.OfSocket? {
      SocketOwn(s, step.socket);
    } else if step == OfDesk(Spawn) {
      SpawnOwn(s);
    } else {
      OtherNoNewScript(s, step);
      FrameOwn(s, Apply(s, step));
    }
  }

  lemma SpawnOwn(s: System)
    requires DeskEnabled(s, Spawn) && ClosesFirst(s, OfDesk(Spawn))
    ensures OwnOnly(DeskApply(s, Spawn))
  {
  }

  lemma ReissuesLive(s: System, step: Step)
    requires OwnOnly(s) && Reissues(s, step)
    ensures CountsOwn(s, step.h)
  {
    LocalUnfinished(s, step.h, step.own);
  }

  lemma {:induction false} RunOwn(s: System, steps: seq<Step>)
    requires Sound(s) && OwnOnly(s) && DisciplinedRun(s, steps) && AlwaysClosesFirst(s, steps)
    ensures AlwaysCountsOwn(s, steps)
    decreases |steps|
  {
    hide Sound, OwnOnly, Enabled, Apply, Disciplined, ClosesFirst, Reissues, CountsOwn;
    if steps != [] {
      if Reissues(s, steps[0]) {
        ReissuesLive(s, steps[0]);
      }
      StepSound(s, steps[0]);
      StepOwn(s, steps[0]);
      RunOwn(Apply(s, steps[0]), steps[1..]);
    }
  }

  /** When every script is read to its close before progress is reset, no re-issue reads another's reports. */
  lemma ClosingFirstSuffices(steps: seq<Step>)
    requires DisciplinedRun(START, steps) && AlwaysClosesFirst(START, steps)
    ensures AlwaysCountsOwn(START, steps)
  {
    StartSound();
    RunOwn(START, steps);
  }
}
