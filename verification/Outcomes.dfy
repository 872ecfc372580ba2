/** What is published for a goal, read off the steps its handler took. */
module Outcomes {
  import opened Results
  import opened DriverStates
  import opened GoalLifecycle
  import opened Traces
  import opened Accounting

  /** The dashboard answered the handler's stop, one way or the other. */
  predicate Answered(steps: seq<Step>, h: nat) {
    OfHandler(h, StopAnswered(true)) in steps || OfHandler(h, StopAnswered(false)) in steps
  }

  predicate Unanswered(steps: seq<Step>, h: nat) { OfHandler(h, StopUnanswered) in steps }

  /** The handler ended on the verdict of its attempt. */
  predicate HeardOut(steps: seq<Step>, h: nat) { OfHandler(h, SeeVerdict) in steps }

  /** The ending tells whether the handler's stop was answered, or was not, or its verdict came first. */
  ghost predicate EndsAs(e: Option<Ending>, steps: seq<Step>, h: nat) {
    && (Answered(steps, h) <==> e.Some? && e.value.Cancelled?)
    && (Unanswered(steps, h) <==> e == Some(CancelUnanswered))
    && (HeardOut(steps, h) <==> Quotes(e))
    && (OfHandler(h, ConnectFails) in steps <==> e == Some(NoConnection))
    && (OfHandler(h, WriteFails) in steps <==> e == Some(WriteFailed))
    && (OfHandler(h, NotShaken) in steps <==> e == Some(NoHandshake))
    && (e == Some(NotRendered) ==> OfHandler(h, SeeResume(false)) in steps)
  }

  ghost predicate EndingsTraced(s: System, steps: seq<Step>) {
    && (forall h :: 0 <= h < |s.handlers| ==> EndsAs(EndingAt(s.handlers[h].pc), steps, h))
    && (forall h: nat, a :: OfHandler(h, a) in steps ==> h < |s.handlers|)
  }

  /** Nobody reaches an ending, or another one. */
  ghost predicate SameEnds(hs: seq<Handler>, hs': seq<Handler>) {
    |hs'| == |hs| && forall h :: 0 <= h < |hs| ==> EndingAt(hs'[h].pc) == EndingAt(hs[h].pc)
  }

  /** Steps that no ending is told by. */
  predicate Untold(step: Step) {
    step.OfHandler? ==> !step.own.Local()
  }

  lemma FrameEnds(s: System, s': System, steps: seq<Step>, step: Step)
    requires EndingsTraced(s, steps) && SameEnds(s.handlers, s'.handlers) && Untold(step)
    requires step.OfHandler? ==> step.h < |s.handlers|
    ensures EndingsTraced(s', steps + [step])
  {
    hide EndingAt, Quotes;
    forall h | 0 <= h < |s.handlers| ensures EndsAs(EndingAt(s'.handlers[h].pc), steps + [step], h) {
      assert EndsAs(EndingAt(s.handlers[h].pc), steps, h);
    }
  }

  lemma SpawnEnds(s: System, steps: seq<Step>)
    requires EndingsTraced(s, steps) && DeskEnabled(s, Spawn)
    ensures EndingsTraced(DeskApply(s, Spawn), steps + [OfDesk(Spawn)])
  {
    var s', more, n := DeskApply(s, Spawn), steps + [OfDesk(Spawn)], |s.handlers|;
    forall h | 0 <= h < |s'.handlers| ensures EndsAs(EndingAt(s'.handlers[h].pc), more, h) {
      if h < n {
        assert EndsAs(EndingAt(s.handlers[h].pc), steps, h);
      }
    }
  }

  /** A local move ends its handler only as its name says, and only once. */
  lemma LocalEnds(s: System, h: nat, a: HandlerStep)
    requires HandlerEnabled(s, h, a) && a.Local()
    ensures var e := EndingAt(LocalNext(s, h, a));
            && EndingAt(s.handlers[h].pc).None?
            && (e.Some? && e.value.Cancelled? <==> a.StopAnswered?)
            && (e == Some(CancelUnanswered) <==> a.StopUnanswered?)
            && (Quotes(e) <==> a.SeeVerdict?)
            && (e == Some(NoConnection) <==> a.ConnectFails?)
            && (e == Some(WriteFailed) <==> a.WriteFails?)
            && (e == Some(NoHandshake) <==> a.NotShaken?)
            && (e == Some(NotRendered) ==> a == SeeResume(false))
  {
    hide RemainingCommand, CancelArrives, ResumeArrives, VerdictOf;
  }

  lemma LocalTraced(s: System, steps: seq<Step>, h: nat, a: HandlerStep)
    requires EndingsTraced(s, steps) && HandlerEnabled(s, h, a) && a.Local()
    ensures EndingsTraced(LocalApply(s, h, a), steps + [OfHandler(h, a)])
  {
    hide LocalNext, EndingAt, Quotes;
    var s', more := LocalApply(s, h, a), steps + [OfHandler(h, a)];
    LocalEnds(s, h, a);
    forall i | 0 <= i < |s.handlers| ensures EndsAs(EndingAt(s'.handlers[i].pc), more, i) {
      assert EndsAs(EndingAt(s.handlers[i].pc), steps, i);
      if i == h {
        NotYet(steps, h, s.handlers[h].pc);
        assert EndingAt(s'.handlers[h].pc) == EndingAt(LocalNext(s, h, a));
      }
    }
  }

  lemma NotYet(steps: seq<Step>, h: nat, pc: Pc)
    requires EndsAs(EndingAt(pc), steps, h) && EndingAt(pc).None?
    ensures !Answered(steps, h) && !Unanswered(steps, h) && !HeardOut(steps, h)
    ensures OfHandler(h, ConnectFails) !in steps && OfHandler(h, WriteFails) !in steps && OfHandler(h, NotShaken) !in steps
  {
  }

  lemma SharedEnds(s: System, h: nat, a: HandlerStep)
    requires HandlerEnabled(s, h, a) && !a.Local()
    ensures SameEnds(s.handlers, SharedApply(s, h, a).handlers)
  {
    hide RecordAfter, VerdictsAfter, BooksAfter, HistoryAfter;
  }

  lemma SocketEnds(s: System, x: SocketStep)
    requires SocketEnabled(s, x)
    ensures SameEnds(s.handlers, SocketApply(s, x).handlers)
  {
    hide Settled;
  }

  lemma StepEnds(s: System, steps: seq<Step>, step: Step)
    requires EndingsTraced(s, steps) && Enabled(s, step)
    ensures EndingsTraced(Apply(s, step), steps + [step])
  {
    hide EndingsTraced, LocalApply, SharedApply, SocketApply, Settled;
    if step.OfHandler? && step.own.Local() {
      LocalTraced(s, steps, step.h, step.own);
    } else if step.OfHandler? {
      SharedEnds(s, step.h, step.own);
      FrameEnds(s, Apply(s, step), steps, step);
    } else if step.OfSocket? {
      SocketEnds(s, step.socket);
      FrameEnds(s, Apply(s, step), steps, step);
    } else if step == OfDesk(Spawn) {
      SpawnEnds(s, steps);
    } else {
      FrameEnds(s, Apply(s, step), steps, step);
    }
  }

  lemma {:induction false} RunEnds(steps: seq<Step>)
    requires Run(START, steps).Some?
    ensures EndingsTraced(Run(START, steps).value, steps)
    decreases |steps|
  {
    hide EndingsTraced, Enabled, Apply, Run;
    if steps == [] {
      NothingEnded();
    } else {
      var n := |steps| - 1;
      RunLast(steps);
      RunEnds(steps[..n]);
      StepEnds(Run(START, steps[..n]).value, steps[..n], steps[n]);
      assert steps == steps[..n] + [steps[n]];
    }
  }

  lemma NothingEnded()
    ensures Run(START, []) == Some(START) && EndingsTraced(START, [])
  {
  }

  /**
   The one terminal state of a request is `succeeded` if and only if the dashboard answered the handler's stop,
   or the handler ended on its attempt's verdict and that was `true`. A stop that nobody answered is `failed`.
   */
  lemma OutcomeIff(steps: seq<Step>, h: nat)
    requires Run(START, steps).Some? && h < |Run(START, steps).value.handlers|
    ensures var s := Run(START, steps).value;
            var log := s.books.terminals;
            var succeeds := Answered(steps, h) || (HeardOut(steps, h) && VerdictOf(s, Current(s, h)) == Sent(true));
            && (Terminal(h, true) in log <==> s.handlers[h].pc.Published() && succeeds)
            && (Terminal(h, false) in log <==> s.handlers[h].pc.Published() && !succeeds)
            && (Unanswered(steps, h) && s.handlers[h].pc.Published() ==> Terminal(h, false) in log)
  {
    hide Run, EndingAt, CountsBalance;
    StartBalanced();
    RunBalanced(START, steps);
    RunEnds(steps);
    var s := Run(START, steps).value;
    var e := EndingAt(s.handlers[h].pc);
    assert EndsAs(e, steps, h);
    if s.handlers[h].pc.Published() {
      assert Recorded(s.books.terminals, h);
      Ended(s.handlers[h].pc);
    }
  }

  lemma Ended(pc: Pc)
    requires pc.Published()
    ensures EndingAt(pc).Some?
  {
  }
}
