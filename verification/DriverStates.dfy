/**
 The record every task of the driver shares, and the blocks of code that run under its lock.

 Each block is given twice: as a function on the value of the record, which the protocol model steps by, and
 as a method of the class that holds it.
 */
module DriverStates {
  import opened Results

  // --- motion commands ---

  datatype Waypoint = Waypoint(target: string, blendRadius: real)

  datatype RobotCommand = RobotCommand(commandType: string, waypoints: seq<Waypoint>)

  datatype ResumeRefusal =
    | RelativeMove(commandType: string)
    | AllReached(commandType: string, count: nat)

  predicate EndsWith(s: string, suffix: string) { |suffix| <= |s| && s[|s| - |suffix|..] == suffix }

  /**
   What a resume sends in place of a command: for a trajectory a non-empty rest that joins up with what is
   dropped, for a single move the move itself.
   */
  function RemainingCommand(command: RobotCommand, completed: nat): (r: Result<RobotCommand, ResumeRefusal>)
    ensures r.Err? <==> EndsWith(command.commandType, "_relative") || 0 < |command.waypoints| <= completed
    ensures r.Ok? && command.waypoints != [] ==>
              && r.value.waypoints != [] && completed < |command.waypoints|
              && command.waypoints == command.waypoints[..completed] + r.value.waypoints
    ensures r.Ok? ==> r.value.commandType == command.commandType && (command.waypoints == [] ==> r.value == command)
    ensures r.Err? ==> r.error.commandType == command.commandType
    ensures (r.Err? && r.error.RelativeMove?) <==> EndsWith(command.commandType, "_relative")
    ensures r.Err? && r.error.AllReached? ==> r.error.count == |command.waypoints|
  {
    if EndsWith(command.commandType, "_relative") then Err(RelativeMove(command.commandType))
    else if command.waypoints == [] then Ok(command)
    else if completed >= |command.waypoints| then Err(AllReached(command.commandType, |command.waypoints|))
    else Ok(command.(waypoints := command.waypoints[completed..]))
  }

  // --- safety modes ---

  datatype SafetyMode =
    | Unknown | Normal | Reduced | ProtectiveStop | Recovery | SafeguardStop
    | SystemEmergencyStop | RobotEmergencyStop | Violation | Fault
  {
    /** No mode both accepts and aborts goals; recovery and the unknown modes do neither. */
    static function FromRt(mode: int): (m: SafetyMode)
      ensures m.AcceptsGoal() <==> mode == 1 || mode == 2
      ensures m.AbortsGoal() <==> mode == 3 || 5 <= mode <= 9
    {
      match mode
      case 1 => Normal
      case 2 => Reduced
      case 3 => ProtectiveStop
      case 4 => Recovery
      case 5 => SafeguardStop
      case 6 => SystemEmergencyStop
      case 7 => RobotEmergencyStop
      case 8 => Violation
      case 9 => Fault
      case _ => Unknown
    }

    /** No goal in flight can complete any more. */
    predicate AbortsGoal() {
      ProtectiveStop? || SafeguardStop? || SystemEmergencyStop? || RobotEmergencyStop? || Violation? || Fault?
    }

    predicate AcceptsGoal() { Normal? || Reduced? }
  }

  // --- the shared record ---

  /** The channels of one attempt: the handler that made them, and which of its attempts it was. */
  datatype Ticket = Ticket(handler: nat, attempt: nat)

  /**
   The fields the goal lifecycle reads and writes. A goal id, a cancel sender and a resume sender are named by
   the number of the handler they belong to; the other senders by the attempt.
   */
  datatype Shared = Shared(
    connected: bool,
    safetyMode: int,
    goalId: Option<nat>,
    goalSender: Option<Ticket>,
    handshakeSender: Option<Ticket>,
    feedbackSender: Option<Ticket>,
    cancelSender: Option<nat>,
    resumeSender: Option<nat>,
    motionPaused: bool,
    activeCommand: Option<RobotCommand>,
    waypointsCompleted: nat,
    reissuing: bool)
  {
    /** A goal is live as far as the admission test can tell. */
    predicate Guarded() { goalId.Some? || reissuing }

    /** A new goal is admitted on a connected, unheld robot in a normal or reduced mode with no goal in its record. */
    function Admission(addressKnown: bool): (r: Option<Rejection>)
      ensures r.None? <==>
              addressKnown && connected && !motionPaused && (safetyMode == 1 || safetyMode == 2) && goalId.None? && !reissuing
      ensures r == Some(NotConnected) <==> !addressKnown || !connected
      ensures r == Some(MotionPaused) <==> addressKnown && connected && motionPaused
      ensures r.Some? && r.value.UnsafeMode? <==> addressKnown && connected && !motionPaused && safetyMode != 1 && safetyMode != 2
      ensures r == Some(AlreadyRunning) ==> goalId.Some? || reissuing
    {
      if !addressKnown || !connected then Some(NotConnected)
      else if motionPaused then Some(MotionPaused)
      else if !SafetyMode.FromRt(safetyMode).AcceptsGoal() then Some(UnsafeMode(SafetyMode.FromRt(safetyMode)))
      else if Guarded() then Some(AlreadyRunning)
      else None
    }

    function SendersInstalled(handler: nat, command: RobotCommand): Shared {
      this.(cancelSender := Some(handler), resumeSender := Some(handler), activeCommand := Some(command), waypointsCompleted := 0)
    }

    function CancelTaken(): Shared { this.(cancelSender := None) }

    function AttemptInstalled(ticket: Ticket): Shared {
      this.(goalId := Some(ticket.handler), goalSender := Some(ticket), handshakeSender := Some(ticket),
            feedbackSender := Some(ticket), reissuing := false)
    }

    /** What a new script connection needs to be served. */
    predicate Expecting() { handshakeSender.Some? && goalId.Some? && feedbackSender.Some? }

    function HandshakeTaken(): Shared { this.(handshakeSender := None) }

    function VerdictTaken(): Shared { this.(goalSender := None) }

    function Reported(index: nat): Shared { this.(waypointsCompleted := index + 1) }

    /** The script socket closed, or a safety stop ended the motion. */
    function GoalCleared(): Shared { this.(goalSender := None, feedbackSender := None, goalId := None) }

    function Claimed(): Shared { this.(reissuing := true) }

    function ProgressReset(): Shared { this.(waypointsCompleted := 0) }

    function Activated(command: RobotCommand): Shared { this.(activeCommand := Some(command)) }

    /** Once a goal is torn down only the robot itself can stand in the way of the next. */
    function TornDown(): (s: Shared)
      ensures s == FRESH.(connected := connected, safetyMode := safetyMode)
      ensures s.Admission(true).None? <==> connected && SafetyMode.FromRt(safetyMode).AcceptsGoal()
    {
      this.(goalId := None, goalSender := None, handshakeSender := None, feedbackSender := None, cancelSender := None,
            resumeSender := None, activeCommand := None, waypointsCompleted := 0, reissuing := false, motionPaused := false)
    }

    function Latched(paused: bool): Shared { this.(motionPaused := paused) }

    function ModeRead(mode: int): Shared { this.(safetyMode := mode) }

    function Linked(up: bool): Shared { this.(connected := up) }
  }

  const FRESH := Shared(false, 0, None, None, None, None, None, None, false, None, 0, false)

  datatype Rejection = NotConnected | MotionPaused | UnsafeMode(mode: SafetyMode) | AlreadyRunning

  datatype ResumeOutcome = NotPaused | SocketLost | Resumed | Signalled(handler: nat) | NoLiveGoal

  /** A line of the script socket, or its end. */
  datatype Line = OkLine | ErrorLine | WaypointReached(index: nat) | Feedback | Closed

  class DriverState {
    var connected: bool
    var safetyMode: int
    var goalId: Option<nat>
    var goalSender: Option<Ticket>
    var handshakeSender: Option<Ticket>
    var feedbackSender: Option<Ticket>
    var cancelSender: Option<nat>
    var resumeSender: Option<nat>
    var motionPaused: bool
    var activeCommand: Option<RobotCommand>
    var waypointsCompleted: nat
    var reissuing: bool

    function View(): Shared
      reads this
    {
      Shared(connected, safetyMode, goalId, goalSender, handshakeSender, feedbackSender, cancelSender, resumeSender,
             motionPaused, activeCommand, waypointsCompleted, reissuing)
    }

    constructor ()
      ensures View() == FRESH
    {
      connected, safetyMode, goalId, goalSender := false, 0, None, None;
      handshakeSender, feedbackSender, cancelSender, resumeSender := None, None, None, None;
      motionPaused, activeCommand, waypointsCompleted, reissuing := false, None, 0, false;
    }

    // --- the command server ---

    method Admit(addressKnown: bool) returns (rejection: Option<Rejection>)
      ensures rejection == View().Admission(addressKnown)
    {
      if !addressKnown || !connected {
        return Some(NotConnected);
      }
      if motionPaused {
        return Some(MotionPaused);
      }
      var mode := SafetyMode.FromRt(safetyMode);
      if !mode.AcceptsGoal() {
        return Some(UnsafeMode(mode));
      }
      rejection := if goalId.Some? || reissuing then Some(AlreadyRunning) else None;
    }

    method InstallSenders(handler: nat, command: RobotCommand)
      modifies this
      ensures View() == old(View()).SendersInstalled(handler, command)
    {
      cancelSender := Some(handler);
      resumeSender := Some(handler);
      activeCommand := Some(command);
      waypointsCompleted := 0;
    }

    method TakeCancel() returns (sender: Option<nat>)
      modifies this
      ensures View() == old(View()).CancelTaken() && sender == old(cancelSender)
    {
      sender := cancelSender;
      cancelSender := None;
    }

    // --- the goal handler ---

    method InstallAttempt(ticket: Ticket)
      modifies this
      ensures View() == old(View()).AttemptInstalled(ticket)
      ensures View().Expecting() && goalId == Some(ticket.handler) && goalSender == Some(ticket) && View().Admission(true).Some?
    {
      goalId := Some(ticket.handler);
      goalSender := Some(ticket);
      handshakeSender := Some(ticket);
      feedbackSender := Some(ticket);
      reissuing := false;
    }

    method Claim()
      modifies this
      ensures View() == old(View()).Claimed()
    {
      reissuing := true;
    }

    method ResetProgress()
      modifies this
      ensures View() == old(View()).ProgressReset()
    {
      waypointsCompleted := 0;
    }

    method Activate(command: RobotCommand)
      modifies this
      ensures View() == old(View()).Activated(command)
    {
      activeCommand := Some(command);
    }

    /** One resume with no other task in between: what the handler reads, decides on and writes. */
    method Reissue(command: RobotCommand, renders: bool) returns (next: Option<RobotCommand>)
      modifies this
      ensures var rest := RemainingCommand(command, old(waypointsCompleted));
              next == if rest.Ok? && renders then Some(rest.value) else None
      ensures next.None? ==> View() == old(View())
      ensures next.Some? ==> View() == old(View()).Claimed().ProgressReset().Activated(next.value) && View().Guarded()
    {
      var rest := RemainingCommand(command, waypointsCompleted);
      if rest.Err? || !renders {
        return None;
      }
      Claim();
      ResetProgress();
      Activate(rest.value);
      next := Some(rest.value);
    }

    method TearDown()
      modifies this
      ensures View() == old(View()).TornDown()
    {
      goalId, goalSender, handshakeSender, feedbackSender, cancelSender, resumeSender := None, None, None, None, None, None;
      activeCommand, waypointsCompleted, reissuing, motionPaused := None, 0, false, false;
    }

    // --- the socket server ---

    /** Takes the handshake sender for a new connection, or drops the connection. */
    method Accept() returns (ticket: Option<Ticket>)
      modifies this
      ensures ticket.Some? <==> old(handshakeSender).Some? && old(goalId).Some? && old(feedbackSender).Some?
      ensures old(View()).Expecting() ==> ticket == old(handshakeSender) && View() == old(View()).HandshakeTaken()
      ensures !old(View()).Expecting() ==> ticket == None && View() == old(View())
    {
      if handshakeSender.None? || goalId.None? || feedbackSender.None? {
        return None;
      }
      ticket := handshakeSender;
      handshakeSender := None;
    }

    /** Handles one line; `resolved` is the attempt whose goal it settled, if any, and the verdict it got. */
    method Serve(line: Line) returns (resolved: Option<(Ticket, bool)>)
      modifies this
      ensures resolved == SettledBy(old(View()), line)
      ensures View() == AfterLine(old(View()), line)
    {
      resolved := None;
      match line {
        case OkLine =>
          if goalSender.Some? {
            resolved := Some((goalSender.value, true));
            goalSender := None;
          }
        case ErrorLine =>
          if goalSender.Some? {
            resolved := Some((goalSender.value, false));
            goalSender := None;
          }
        case WaypointReached(index) =>
          waypointsCompleted := index + 1;
        case Feedback =>
        case Closed =>
          if goalSender.Some? {
            resolved := Some((goalSender.value, false));
            goalSender := None;
          }
          feedbackSender := None;
          goalId := None;
      }
    }

    /** Serves one connection to its close, with no other task in between. */
    method ServeConnection(lines: seq<Line>) returns (settled: seq<(Ticket, bool)>)
      modifies this
      ensures Served(View(), settled) == ServedAfter(old(View()), lines)
    {
      hide DriverState.View, AfterLine, SettledBy;
      settled := [];
      var i := 0;
      ghost var rest := ServedAfter(View(), lines);
      assert lines[0..] == lines && [] + rest.settled == rest.settled;
      while i < |lines|
        invariant 0 <= i <= |lines|
        invariant rest == ServedAfter(View(), lines[i..])
        invariant ServedAfter(old(View()), lines) == Served(rest.record, settled + rest.settled)
      {
        var line := lines[i];
        assert lines[i..][0] == line && lines[i..][1..] == lines[i + 1..];
        var resolved := Serve(line);
        ghost var before := settled;
        if resolved.Some? {
          settled := settled + [resolved.value];
        }
        if line.Closed? {
          assert settled == before + rest.settled;
          return;
        }
        rest := ServedAfter(View(), lines[i + 1..]);
        assert before + (ListOf(resolved) + rest.settled) == settled + rest.settled;
        i := i + 1;
      }
      assert settled + [] == settled;
    }

    // --- the realtime reader ---

    method ReadMode(mode: int)
      modifies this
      ensures View() == old(View()).ModeRead(mode)
    {
      safetyMode := mode;
    }

    /** Fails the goal in flight, which a safety stop has ended. */
    method Abort() returns (resolved: Option<(Ticket, bool)>)
      modifies this
      ensures resolved == SettledBy(old(View()), Closed)
      ensures View() == old(View()).GoalCleared()
    {
      resolved := None;
      if goalSender.Some? {
        resolved := Some((goalSender.value, false));
        goalSender := None;
      }
      feedbackSender := None;
      goalId := None;
    }

    /** One frame with no other task in between: a goal in flight fails exactly when the mode aborts goals. */
    method Frame(mode: int) returns (resolved: Option<(Ticket, bool)>)
      modifies this
      ensures resolved == if SafetyMode.FromRt(mode).AbortsGoal() then SettledBy(old(View()), Closed) else None
      ensures View() == var s := old(View()).ModeRead(mode); if SafetyMode.FromRt(mode).AbortsGoal() then s.GoalCleared() else s
    {
      ReadMode(mode);
      resolved := None;
      if SafetyMode.FromRt(mode).AbortsGoal() {
        resolved := Abort();
      }
    }

    // --- the dashboard ---

    method Latch(paused: bool)
      modifies this
      ensures View() == old(View()).Latched(paused)
    {
      motionPaused := paused;
    }

    /**
     Holds the motion once the controller has acknowledged the pause, confirmed or not; but not when the socket
     is lost on the command or on a poll for the confirmation.
     */
    method PauseMotion(reply: Option<bool>, polled: bool)
      modifies this
      ensures View() == if reply == Some(true) && polled then old(View()).Latched(true) else old(View())
    {
      if reply.None? || !reply.value || !polled {
        return;
      }
      Latch(true);
    }

    /**
     Releases a hold whether `play` resumed the motion or not, and in the latter case tells which goal to
     re-issue. Only a lost socket leaves the hold.
     */
    method ResumeMotion(played: Option<bool>) returns (outcome: ResumeOutcome)
      modifies this
      ensures View() == if played.Some? then old(View()).Latched(false) else old(View())
      ensures outcome ==
              if !old(motionPaused) then NotPaused
              else if played.None? then SocketLost
              else if played.value then Resumed
              else if old(resumeSender).Some? then Signalled(old(resumeSender).value)
              else NoLiveGoal
    {
      if !motionPaused {
        return NotPaused;
      }
      var sender := resumeSender;
      if played.None? {
        return SocketLost;
      }
      Latch(false);
      if played.value {
        return Resumed;
      }
      outcome := if sender.Some? then Signalled(sender.value) else NoLiveGoal;
    }

  }

  /** The goal a line settles: only one whose sender is still in its place. */
  function SettledBy(s: Shared, line: Line): Option<(Ticket, bool)> {
    if s.goalSender.None? || line.WaypointReached? || line.Feedback? then None
    else Some((s.goalSender.value, line.OkLine?))
  }

  function AfterLine(s: Shared, line: Line): Shared {
    match line
    case OkLine => s.VerdictTaken()
    case ErrorLine => s.VerdictTaken()
    case WaypointReached(index) => s.Reported(index)
    case Feedback => s
    case Closed => s.GoalCleared()
  }

  function ListOf(o: Option<(Ticket, bool)>): seq<(Ticket, bool)> { if o.Some? then [o.value] else [] }

  /** The record after a connection, and the goals that were settled on it. */
  datatype Served = Served(record: Shared, settled: seq<(Ticket, bool)>)

  function ServedAfter(s: Shared, lines: seq<Line>): Served
    decreases |lines|
  {
    if lines == [] then Served(s, [])
    else if lines[0].Closed? then Served(AfterLine(s, Closed), ListOf(SettledBy(s, Closed)))
    else
      var rest := ServedAfter(AfterLine(s, lines[0]), lines[1..]);
      Served(rest.record, ListOf(SettledBy(s, lines[0])) + rest.settled)
  }

  predicate Decides(line: Line) { line.OkLine? || line.ErrorLine? || line.Closed? }

  /** The number of lines before the first that decides the goal. */
  function Undecided(lines: seq<Line>): (k: nat)
    ensures k <= |lines| && (forall i :: 0 <= i < k ==> !Decides(lines[i])) && (k < |lines| ==> Decides(lines[k]))
  {
    if lines == [] || Decides(lines[0]) then 0 else 1 + Undecided(lines[1..])
  }

  /** On one connection the first deciding line settles the goal that is installed, and no later line settles any. */
  lemma {:induction false} FirstLineSettles(s: Shared, lines: seq<Line>)
    ensures var r, k := ServedAfter(s, lines), Undecided(lines);
            && r.settled == (if s.goalSender.Some? && k < |lines| then [(s.goalSender.value, lines[k].OkLine?)] else [])
            && (k < |lines| ==> r.record.goalSender == None)
            && (s.goalSender == None ==> r.record.goalSender == None)
            && (Closed in lines ==> r.record.goalId == None && r.record.goalSender == None && r.record.feedbackSender == None)
    decreases |lines|
  {
    if lines != [] && !lines[0].Closed? {
      FirstLineSettles(AfterLine(s, lines[0]), lines[1..]);
    }
  }
}
