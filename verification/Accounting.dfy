/** Every consumed trigger is answered once, and every accepted request ends in one terminal state. */
module Accounting {
  import opened Results
  import opened DriverStates
  import opened GoalLifecycle
  import opened Verdicts

  function Unpublished(hs: seq<Handler>): nat {
    if hs == [] then 0
    else Unpublished(hs[..|hs| - 1]) + (if hs[|hs| - 1].pc.Published() then 0 else 1)
  }

  /** A trigger has been consumed and nothing has been written for it yet. */
  function InFlight(d: Desk): nat { if d.Preparing? || d.Refusing? || d.Admitted? then 1 else 0 }

  function Unspawned(d: Desk): nat { if d.Announced? then 1 else 0 }

  ghost predicate CountsBalance(s: System) {
    && s.books.consumed == s.books.refused + s.books.executing + InFlight(s.desk)
    && s.books.executing == |s.handlers| + Unspawned(s.desk)
    && |s.handlers| == |s.books.terminals| + Unpublished(s.handlers)
  }

  function EndingAt(pc: Pc): Option<Ending> {
    match pc
    case Publishing(e) => Some(e)
    case TearingDown(e) => Some(e)
    case Finished(e) => Some(e)
    case _ => None
  }

  ghost predicate Recorded(log: seq<Terminal>, h: nat) { exists i :: 0 <= i < |log| && log[i].handler == h }

  /** The log has one entry for each handler that has published, in the sense of its ending, and no other. */
  ghost predicate LogExact(hs: seq<Handler>, log: seq<Terminal>) {
    && (forall i, j :: 0 <= i < j < |log| ==> log[i].handler != log[j].handler)
    && (forall i :: 0 <= i < |log| ==>
          && log[i].handler < |hs| && hs[log[i].handler].pc.Published()
          && log[i].succeeded == EndingAt(hs[log[i].handler].pc).value.Succeeds())
    && (forall h :: 0 <= h < |hs| && hs[h].pc.Published() ==> Recorded(log, h))
  }

  /** The ending quotes a verdict, or the lack of one. */
  predicate Quotes(e: Option<Ending>) { e.Some? && (e.value.Reported? || e.value.Abandoned?) }

  /** An ending that quotes a verdict quotes the one its attempt got. */
  ghost predicate EndingsExact(s: System) {
    forall h :: 0 <= h < |s.handlers| ==>
      var e := EndingAt(s.handlers[h].pc);
      Quotes(e) ==> Current(s, h) in s.verdicts && s.verdicts[Current(s, h)] == if e.value.Reported? then Sent(e.value.ok) else Dropped
  }

  ghost predicate Balanced(s: System) { CountsBalance(s) && LogExact(s.handlers, s.books.terminals) && EndingsExact(s) && Linear(s) }

  // --- counting ---

  lemma {:induction false} CountSame(hs: seq<Handler>, hs': seq<Handler>)
    requires |hs| == |hs'| && forall i :: 0 <= i < |hs| ==> hs[i].pc.Published() == hs'[i].pc.Published()
    ensures Unpublished(hs) == Unpublished(hs')
  {
    if hs != [] {
      CountSame(hs[..|hs| - 1], hs'[..|hs'| - 1]);
    }
  }

  lemma {:induction false} CountPublish(hs: seq<Handler>, h: nat, x: Handler)
    requires h < |hs| && !hs[h].pc.Published() && x.pc.Published()
    ensures Unpublished(hs) == Unpublished(hs[h := x]) + 1
  {
    var n := |hs| - 1;
    if h == n {
      assert hs[h := x][..n] == hs[..n];
    } else {
      CountPublish(hs[..n], h, x);
      assert hs[h := x][..n] == hs[..n][h := x];
    }
  }

  lemma CountSpawn(hs: seq<Handler>, x: Handler)
    requires !x.pc.Published()
    ensures Unpublished(hs + [x]) == Unpublished(hs) + 1
  {
    assert (hs + [x])[..|hs|] == hs;
  }

  // --- steps that publish nothing ---

  /** The same handlers have published, in the same sense. */
  ghost predicate SamePublished(hs: seq<Handler>, hs': seq<Handler>) {
    && |hs'| == |hs|
    && forall i :: 0 <= i < |hs| ==>
         && hs'[i].pc.Published() == hs[i].pc.Published()
         && (hs[i].pc.Published() ==> EndingAt(hs'[i].pc) == EndingAt(hs[i].pc))
  }

  lemma FrameCounts(s: System, s': System)
    requires CountsBalance(s) && LogExact(s.handlers, s.books.terminals) && SamePublished(s.handlers, s'.handlers)
    requires s'.books.terminals == s.books.terminals
    requires s'.books.consumed == s'.books.refused + s'.books.executing + InFlight(s'.desk)
    requires s'.books.executing == |s'.handlers| + Unspawned(s'.desk)
    ensures CountsBalance(s') && LogExact(s'.handlers, s'.books.terminals)
  {
    CountSame(s.handlers, s'.handlers);
  }

  lemma DeskCounts(s: System, d: DeskStep)
    requires CountsBalance(s) && LogExact(s.handlers, s.books.terminals) && DeskEnabled(s, d)
    ensures CountsBalance(DeskApply(s, d)) && LogExact(DeskApply(s, d).handlers, DeskApply(s, d).books.terminals)
  {
    if d.Spawn? {
      CountSpawn(s.handlers, NewHandler(s.desk.command));
    } else {
      FrameCounts(s, DeskApply(s, d));
    }
  }

  lemma LocalPublished(s: System, h: nat, a: HandlerStep)
    requires HandlerEnabled(s, h, a) && a.Local()
    ensures !s.handlers[h].pc.Published() && !LocalNext(s, h, a).Published()
  {
    hide RemainingCommand, CancelArrives, ResumeArrives, VerdictOf;
  }

  lemma PublishCounts(s: System, h: nat)
    requires CountsBalance(s) && LogExact(s.handlers, s.books.terminals) && HandlerEnabled(s, h, Publish)
    ensures var s' := HandlerApply(s, h, Publish); CountsBalance(s') && LogExact(s'.handlers, s'.books.terminals)
  {
    hide LogExact;
    var s' := HandlerApply(s, h, Publish);
    CountPublish(s.handlers, h, s'.handlers[h]);
    LogPublishes(s.handlers, s.books.terminals, h, s.handlers[h].pc.ending, s'.handlers[h]);
  }

  lemma LogPublishes(hs: seq<Handler>, log: seq<Terminal>, h: nat, ending: Ending, x: Handler)
    requires LogExact(hs, log) && h < |hs| && !hs[h].pc.Published() && x.pc == TearingDown(ending)
    ensures LogExact(hs[h := x], log + [Terminal(h, ending.Succeeds())])
  {
    var hs', log' := hs[h := x], log + [Terminal(h, ending.Succeeds())];
    assert log'[|log|].handler == h;
    forall k | 0 <= k < |hs| && k != h && hs[k].pc.Published() ensures Recorded(log', k) {
      assert Recorded(log, k);
      var i :| 0 <= i < |log| && log[i].handler == k;
      assert log'[i].handler == k;
    }
  }

  lemma HandlerCounts(s: System, h: nat, a: HandlerStep)
    requires CountsBalance(s) && LogExact(s.handlers, s.books.terminals) && HandlerEnabled(s, h, a)
    ensures var s' := HandlerApply(s, h, a); CountsBalance(s') && LogExact(s'.handlers, s'.books.terminals)
  {
    hide HandlerApply, CountsBalance, LogExact;
    if a.Publish? {
      PublishCounts(s, h);
    } else {
      HandlerPublished(s, h, a);
      BooksKept(s, HandlerApply(s, h, a));
    }
  }

  lemma HandlerPublished(s: System, h: nat, a: HandlerStep)
    requires HandlerEnabled(s, h, a) && !a.Publish?
    ensures var s' := HandlerApply(s, h, a); SamePublished(s.handlers, s'.handlers) && s'.books == s.books && s'.desk == s.desk
  {
    hide LocalApply, SharedApply;
    if a.Local() {
      LocalUnpublished(s, h, a);
    } else {
      SharedPublished(s, h, a);
    }
  }

  lemma LocalUnpublished(s: System, h: nat, a: HandlerStep)
    requires HandlerEnabled(s, h, a) && a.Local()
    ensures var s' := LocalApply(s, h, a); SamePublished(s.handlers, s'.handlers) && s'.books == s.books && s'.desk == s.desk
  {
    hide LocalNext;
    LocalPublished(s, h, a);
  }

  lemma SharedPublished(s: System, h: nat, a: HandlerStep)
    requires HandlerEnabled(s, h, a) && !a.Local() && !a.Publish?
    ensures var s' := SharedApply(s, h, a); SamePublished(s.handlers, s'.handlers) && s'.books == s.books && s'.desk == s.desk
  {
    hide VerdictsAfter, RecordAfter, HistoryAfter;
  }

  lemma BooksKept(s: System, s': System)
    requires CountsBalance(s) && LogExact(s.handlers, s.books.terminals) && SamePublished(s.handlers, s'.handlers)
    requires s'.books == s.books && s'.desk == s.desk
    ensures CountsBalance(s') && LogExact(s'.handlers, s'.books.terminals)
  {
    FrameCounts(s, s');
  }

  lemma SocketPublished(s: System, x: SocketStep)
    requires SocketEnabled(s, x)
    ensures var s' := SocketApply(s, x); SamePublished(s.handlers, s'.handlers) && s'.books == s.books && s'.desk == s.desk
  {
    hide Settled;
  }

  lemma StepCounts(s: System, step: Step)
    requires CountsBalance(s) && LogExact(s.handlers, s.books.terminals) && Enabled(s, step)
    ensures var s' := Apply(s, step); CountsBalance(s') && LogExact(s'.handlers, s'.books.terminals)
  {
    hide CountsBalance, LogExact, DeskApply, HandlerApply, SocketApply, Settled;
    match step {
      case OfDesk(d) => DeskCounts(s, d);
      case OfHandler(h, a) => HandlerCounts(s, h, a);
      case OfSocket(x) => SocketPublished(s, x); BooksKept(s, SocketApply(s, x));
      case OfReader(r) => BooksKept(s, Apply(s, step));
      case OfDashboard(d) => BooksKept(s, Apply(s, step));
    }
  }

  // --- endings quote verdicts ---

  /** Handlers on the same attempts, none ending with a verdict it had not ended with. */
  ghost predicate SameEndings(s: System, s': System) {
    && |s.handlers| <= |s'.handlers|
    && (forall h :: 0 <= h < |s.handlers| ==>
          var e' := EndingAt(s'.handlers[h].pc);
          Quotes(e') ==> EndingAt(s.handlers[h].pc) == e' && s'.handlers[h].attempt == s.handlers[h].attempt)
    && (forall h :: |s.handlers| <= h < |s'.handlers| ==> EndingAt(s'.handlers[h].pc).None?)
  }

  lemma FrameEndings(s: System, s': System)
    requires EndingsExact(s) && SameEndings(s, s') && Settles(s, s')
    ensures EndingsExact(s')
  {
    forall h | 0 <= h < |s'.handlers| && Quotes(EndingAt(s'.handlers[h].pc))
      ensures var e := EndingAt(s'.handlers[h].pc).value;
              Current(s', h) in s'.verdicts && s'.verdicts[Current(s', h)] == if e.Reported? then Sent(e.ok) else Dropped
    {
      assert h < |s.handlers|;
      assert Current(s', h) == Current(s, h);
    }
  }

  lemma LocalEnding(s: System, h: nat, a: HandlerStep)
    requires HandlerEnabled(s, h, a) && a.Local()
    ensures var e := EndingAt(LocalNext(s, h, a));
            Quotes(e) ==> a == SeeVerdict && VerdictOf(s, Current(s, h)) == if e.value.Reported? then Sent(e.value.ok) else Dropped
  {
    hide RemainingCommand, CancelArrives, ResumeArrives, VerdictOf;
  }

  lemma SeeVerdictEndings(s: System, h: nat)
    requires EndingsExact(s) && HandlerEnabled(s, h, SeeVerdict)
    ensures EndingsExact(HandlerApply(s, h, SeeVerdict))
  {
    var s' := HandlerApply(s, h, SeeVerdict);
    forall i | 0 <= i < |s.handlers| ensures Current(s', i) == Current(s, i) {
    }
  }

  lemma HandlerEndings(s: System, h: nat, a: HandlerStep)
    requires EndingsExact(s) && Linear(s) && HandlerEnabled(s, h, a)
    ensures EndingsExact(HandlerApply(s, h, a))
  {
    hide EndingsExact, Linear, Settles, LocalNext;
    if a.SeeVerdict? {
      SeeVerdictEndings(s, h);
    } else {
      HandlerLinear(s, h, a);
      OtherEndings(s, h, a);
      FrameEndings(s, HandlerApply(s, h, a));
    }
  }

  lemma OtherEndings(s: System, h: nat, a: HandlerStep)
    requires HandlerEnabled(s, h, a) && !a.SeeVerdict?
    ensures SameEndings(s, HandlerApply(s, h, a))
  {
    hide LocalApply, SharedApply;
    if a.Local() {
      LocalEndings(s, h, a);
    } else {
      SharedEndings(s, h, a);
    }
  }

  lemma LocalEndings(s: System, h: nat, a: HandlerStep)
    requires HandlerEnabled(s, h, a) && a.Local() && !a.SeeVerdict?
    ensures SameEndings(s, LocalApply(s, h, a))
  {
    hide LocalNext;
    LocalEnding(s, h, a);
  }

  lemma SharedEndings(s: System, h: nat, a: HandlerStep)
    requires HandlerEnabled(s, h, a) && !a.Local()
    ensures SameEndings(s, SharedApply(s, h, a))
  {
    hide VerdictsAfter, RecordAfter, BooksAfter, HistoryAfter;
  }

  lemma SocketEndings(s: System, x: SocketStep)
    requires SocketEnabled(s, x)
    ensures SameEndings(s, SocketApply(s, x))
  {
    hide Settled;
  }

  lemma StepEndings(s: System, step: Step)
    requires EndingsExact(s) && Linear(s) && Enabled(s, step)
    ensures EndingsExact(Apply(s, step))
  {
    hide EndingsExact, Linear, Settles, HandlerApply, SocketApply, Settled;
    StepLinear(s, step);
    match step {
      case OfDesk(d) => FrameEndings(s, Apply(s, step));
      case OfHandler(h, a) => HandlerEndings(s, h, a);
      case OfSocket(x) => SocketEndings(s, x); FrameEndings(s, Apply(s, step));
      case OfReader(r) => FrameEndings(s, Apply(s, step));
      case OfDashboard(d) => FrameEndings(s, Apply(s, step));
    }
  }

  // --- whole runs ---

  lemma {:induction false} RunBalanced(s: System, steps: seq<Step>)
    requires Balanced(s) && Run(s, steps).Some?
    ensures Balanced(Run(s, steps).value)
    decreases |steps|
  {
    hide CountsBalance, LogExact, EndingsExact, Linear, Enabled, Apply;
    if steps != [] {
      StepCounts(s, steps[0]);
      StepEndings(s, steps[0]);
      StepLinear(s, steps[0]);
      RunBalanced(Apply(s, steps[0]), steps[1..]);
    }
  }

  /**
   In every reachable state: each consumed trigger has been refused, or written as executing, or is still in
   flight, exactly one of these; each executing write has one handler, or is about to; and the handlers are
   those still to publish and one for each terminal write.
   */
  lemma RequestsAccounted(steps: seq<Step>)
    requires Run(START, steps).Some?
    ensures var s := Run(START, steps).value;
            && s.books.consumed == s.books.refused + s.books.executing + InFlight(s.desk)
            && s.books.executing == |s.handlers| + Unspawned(s.desk)
            && |s.handlers| == |s.books.terminals| + Unpublished(s.handlers)
  {
    hide Run;
    StartBalanced();
    RunBalanced(START, steps);
  }

  lemma StartBalanced()
    ensures Balanced(START)
  {
  }

  /**
   A handler writes one terminal state. It is `succeeded` exactly when the handler ended on an answered
   cancel, whatever the answer was, or on the verdict `true` that its last attempt got.
   */
  lemma OneTerminalState(steps: seq<Step>, h: nat)
    requires Run(START, steps).Some? && h < |Run(START, steps).value.handlers|
    ensures var s := Run(START, steps).value;
            var log, e := s.books.terminals, EndingAt(s.handlers[h].pc);
            && (forall i, j :: 0 <= i < j < |log| ==> log[i].handler != log[j].handler)
            && (s.handlers[h].pc.Published() <==> Recorded(log, h))
            && (forall i :: 0 <= i < |log| && log[i].handler == h ==>
                  e.Some? && (log[i].succeeded <==> e.value.Cancelled? || e.value == Reported(true)))
            && (e == Some(Reported(true)) ==> VerdictOf(s, Current(s, h)) == Sent(true))
  {
    hide Run;
    StartBalanced();
    RunBalanced(START, steps);
  }
}
