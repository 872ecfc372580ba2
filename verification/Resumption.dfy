/** However often a goal is re-issued, what it still runs is the end of what was accepted. */
module Resumption {
  import opened DriverStates
  import opened GoalLifecycle

  predicate Carries(pc: Pc) { pc.Claiming? || pc.Killing? || pc.Draining? || pc.Resetting? }

  /** `next` is what is left of `command` after `dropped` waypoints, and is worth sending. */
  ghost predicate Cut(command: RobotCommand, next: RobotCommand, dropped: nat) {
    && next.commandType == command.commandType
    && !EndsWith(command.commandType, "_relative")
    && dropped <= |command.waypoints| && next.waypoints == command.waypoints[dropped..]
    && (command.waypoints != [] ==> next.waypoints != [])
  }

  /** The command of a handler is the accepted one cut at its offset, and so is what it is about to send. */
  ghost predicate WellCut(h: Handler) {
    && |h.offsets| == h.attempt + 1 && h.offsets[0] == 0
    && h.Offset() <= |h.accepted.waypoints|
    && h.command.commandType == h.accepted.commandType
    && h.command.waypoints == h.accepted.waypoints[h.Offset()..]
    && (h.accepted.waypoints != [] ==> h.command.waypoints != [])
    && (h.attempt > 0 ==> !EndsWith(h.accepted.commandType, "_relative"))
    && (Carries(h.pc) ==> Cut(h.command, h.pc.next, h.pc.dropped))
  }

  ghost predicate AllCut(hs: seq<Handler>) { forall i :: 0 <= i < |hs| ==> WellCut(hs[i]) }

  /** Nothing about the command changed, and nothing new is carried. */
  ghost predicate SameCommand(a: Handler, b: Handler) {
    && b.attempt == a.attempt && b.accepted == a.accepted && b.command == a.command && b.offsets == a.offsets
    && (Carries(b.pc) ==> Carries(a.pc) && b.pc.next == a.pc.next && b.pc.dropped == a.pc.dropped)
  }

  ghost predicate SameCommands(hs: seq<Handler>, hs': seq<Handler>) {
    |hs'| == |hs| && forall i :: 0 <= i < |hs| ==> SameCommand(hs[i], hs'[i])
  }

  lemma SameKeepsCut(hs: seq<Handler>, hs': seq<Handler>)
    requires AllCut(hs) && SameCommands(hs, hs')
    ensures AllCut(hs')
  {
    forall i | 0 <= i < |hs| ensures WellCut(hs'[i]) {
      assert SameCommand(hs[i], hs'[i]) && WellCut(hs[i]);
    }
  }

  lemma LocalSameCommand(s: System, h: nat, a: HandlerStep)
    requires HandlerEnabled(s, h, a) && a.Local()
    ensures var pc := LocalNext(s, h, a);
            Carries(pc) ==>
              || (a.SeeResume? && !Carries(s.handlers[h].pc))
              || (Carries(s.handlers[h].pc) && pc.next == s.handlers[h].pc.next && pc.dropped == s.handlers[h].pc.dropped)
  {
    hide RemainingCommand, CancelArrives, ResumeArrives, VerdictOf;
  }

  /** The cut of a resume comes out of RemainingCommand. */
  lemma ResumeCuts(s: System, h: nat, renders: bool)
    requires HandlerEnabled(s, h, SeeResume(renders))
    ensures var pc, command := LocalNext(s, h, SeeResume(renders)), s.handlers[h].command;
            Carries(pc) ==> Cut(command, pc.next, pc.dropped) && pc.dropped <= s.shared.waypointsCompleted
  {
    hide CancelArrives, ResumeArrives, VerdictOf, EndsWith;
    var command, completed := s.handlers[h].command, s.shared.waypointsCompleted;
    var r := RemainingCommand(command, completed);
    if r.Ok? && command.waypoints != [] {
      assert command.waypoints[completed..] == r.value.waypoints;
    }
  }

  lemma ResetCut(h: Handler, h': Handler)
    requires WellCut(h) && h.pc.Resetting?
    requires h' == h.(pc := Activating, attempt := h.attempt + 1, command := h.pc.next, offsets := h.offsets + [h.Offset() + h.pc.dropped])
    ensures WellCut(h')
  {
    hide EndsWith;
    Suffixes(h.accepted.waypoints, h.Offset(), h.pc.dropped);
  }

  lemma Suffixes(ws: seq<Waypoint>, n: nat, m: nat)
    requires n + m <= |ws|
    ensures ws[n..][m..] == ws[n + m..]
  {
  }

  lemma HandlerCut(s: System, h: nat, a: HandlerStep)
    requires AllCut(s.handlers) && HandlerEnabled(s, h, a)
    ensures AllCut(HandlerApply(s, h, a).handlers)
  {
    hide LocalNext, AllCut, LocalApply, SharedApply;
    match a {
      case SeeResume(renders) => ResumeCut(s, h, renders);
      case Reset => ResetKeepsCut(s, h);
      case _ => HandlerSameCommands(s, h, a); SameKeepsCut(s.handlers, HandlerApply(s, h, a).handlers);
    }
  }

  lemma ResumeCut(s: System, h: nat, renders: bool)
    requires AllCut(s.handlers) && HandlerEnabled(s, h, SeeResume(renders))
    ensures AllCut(LocalApply(s, h, SeeResume(renders)).handlers)
  {
    hide LocalNext, WellCut;
    ResumeCuts(s, h, renders);
    ResumedCut(s.handlers[h], LocalApply(s, h, SeeResume(renders)).handlers[h]);
  }

  lemma ResetKeepsCut(s: System, h: nat)
    requires AllCut(s.handlers) && HandlerEnabled(s, h, Reset)
    ensures AllCut(SharedApply(s, h, Reset).handlers)
  {
    hide WellCut;
    ResetCut(s.handlers[h], SharedApply(s, h, Reset).handlers[h]);
  }

  lemma HandlerSameCommands(s: System, h: nat, a: HandlerStep)
    requires HandlerEnabled(s, h, a) && !a.SeeResume? && !a.Reset?
    ensures SameCommands(s.handlers, HandlerApply(s, h, a).handlers)
  {
    hide LocalApply, SharedApply;
    if a.Local() {
      LocalSameCommands(s, h, a);
    } else {
      SharedSameCommands(s, h, a);
    }
  }

  lemma LocalSameCommands(s: System, h: nat, a: HandlerStep)
    requires HandlerEnabled(s, h, a) && a.Local() && !a.SeeResume?
    ensures SameCommands(s.handlers, LocalApply(s, h, a).handlers)
  {
    hide LocalNext;
    LocalSameCommand(s, h, a);
  }

  lemma SharedSameCommands(s: System, h: nat, a: HandlerStep)
    requires HandlerEnabled(s, h, a) && !a.Local() && !a.Reset?
    ensures SameCommands(s.handlers, SharedApply(s, h, a).handlers)
  {
    hide VerdictsAfter, RecordAfter, BooksAfter, HistoryAfter;
  }

  lemma ResumedCut(h: Handler, h': Handler)
    requires WellCut(h) && h' == h.(pc := h'.pc, resumeSignalled := h'.resumeSignalled)
    requires Carries(h'.pc) ==> Cut(h.command, h'.pc.next, h'.pc.dropped)
    ensures WellCut(h')
  {
  }

  lemma StepCut(s: System, step: Step)
    requires AllCut(s.handlers) && Enabled(s, step)
    ensures AllCut(Apply(s, step).handlers)
  {
    hide AllCut, HandlerApply, SocketApply, Settled;
    var s' := Apply(s, step);
    match step {
      case OfDesk(d) => if d.Spawn? { SpawnCut(s.handlers, s.desk.command); }
      case OfHandler(h, a) => HandlerCut(s, h, a);
      case OfSocket(x) => SocketSameCommands(s, x); SameKeepsCut(s.handlers, s'.handlers);
      case _ => SameKeepsCut(s.handlers, s'.handlers);
    }
  }

  lemma SocketSameCommands(s: System, x: SocketStep)
    requires SocketEnabled(s, x)
    ensures SameCommands(s.handlers, SocketApply(s, x).handlers)
  {
    hide Settled;
  }

  lemma SpawnCut(hs: seq<Handler>, command: RobotCommand)
    requires AllCut(hs)
    ensures AllCut(hs + [NewHandler(command)])
  {
    assert command.waypoints[0..] == command.waypoints;
  }

  lemma {:induction false} RunCut(s: System, steps: seq<Step>)
    requires AllCut(s.handlers) && Run(s, steps).Some?
    ensures AllCut(Run(s, steps).value.handlers)
    decreases |steps|
  {
    hide AllCut, Enabled, Apply;
    if steps != [] {
      StepCut(s, steps[0]);
      RunCut(Apply(s, steps[0]), steps[1..]);
    }
  }

  /**
   Through any number of re-issues, under any interleaving: a handler's waypoints are the accepted ones from
   its offset on, a trajectory never becomes empty, and a relative move is never re-issued.
   */
  lemma ReissuesKeepTheRest(steps: seq<Step>, h: nat)
    requires Run(START, steps).Some? && h < |Run(START, steps).value.handlers|
    ensures var me := Run(START, steps).value.handlers[h];
            && me.Offset() <= |me.accepted.waypoints|
            && me.command.commandType == me.accepted.commandType
            && me.command.waypoints == me.accepted.waypoints[me.Offset()..]
            && (me.accepted.waypoints != [] ==> me.command.waypoints != [])
            && (me.attempt > 0 ==> !EndsWith(me.accepted.commandType, "_relative"))
  {
    hide Run;
    RunCut(START, steps);
    assert WellCut(Run(START, steps).value.handlers[h]);
  }
}
