/**
 The goal lifecycle as a state machine.

 The command server, any number of goal handlers, the socket server, the realtime reader and the dashboard
 task run concurrently on one shared record. A step is one locked block, or one local move between two of
 them; steps of different tasks interleave freely. Timeouts, peers and replies are free choices.
 */
module GoalLifecycle {
  import opened Results
  import opened DriverStates

  // --- the command server ---

  /** What the command server is doing with the trigger it has consumed. */
  datatype Desk =
    | Idle
    | Preparing(command: RobotCommand)
    | Refusing
    | Admitted(command: RobotCommand)
    | Announced(command: RobotCommand)
  {
    /** A goal has passed admission and its handler has not been spawned yet. */
    predicate Pending() { Admitted? || Announced? }
  }

  // --- handlers ---

  /** Where the sender of an attempt's verdict has gone. */
  datatype Verdict = Held | Sent(ok: bool) | Dropped

  /** Why a handler left its loop. */
  datatype Ending =
    | NoConnection | WriteFailed | NoHandshake
    | Reported(ok: bool) | Abandoned
    | Cancelled(answer: bool) | CancelUnanswered
    | Refused(reason: ResumeRefusal) | NotRendered
  {
    /** The state published for the request: `succeeded`, or else `failed`. */
    predicate Succeeds() { this == Reported(true) || Cancelled? }
  }

  function EndingOf(v: Verdict): Ending { if v.Sent? then Reported(v.ok) else Abandoned }

  datatype Pc =
    | Connecting
    | Writing
    | Handshaking
    | Waiting
    | Cancelling
    | Claiming(next: RobotCommand, dropped: nat)
    | Killing(next: RobotCommand, dropped: nat)
    | Draining(next: RobotCommand, dropped: nat)
    | Resetting(next: RobotCommand, dropped: nat)
    | Activating
    | Publishing(ending: Ending)
    | TearingDown(ending: Ending)
    | Finished(ending: Ending)
  {
    predicate Published() { TearingDown? || Finished? }

    /** The attempt's channels are in use: installed, and its verdict not consumed. */
    predicate Listening() { Writing? || Handshaking? || Waiting? || Cancelling? || Claiming? || Killing? || Draining? }
  }

  /** How the shared record protects a handler's goal from being overtaken, and since when it does not. */
  datatype Standing =
    | NotInstalled  // accepted, and its id not installed yet
    | Holding       // its id is installed
    | Claimed       // `reissuing` is set on its behalf
    | Cleared       // its id was cleared under it
    | Overruled     // another handler installed over it or tore its fields down
    | Gone

  datatype Handler = Handler(
    pc: Pc,
    attempt: nat,
    accepted: RobotCommand,
    command: RobotCommand,
    offsets: seq<nat>,       // per attempt, how many accepted waypoints were dropped before it
    resumeSignalled: bool,
    standing: Standing)
  {
    predicate Live() { !pc.Finished? }

    /** Live, and invisible to the admission test. */
    predicate Exposed() { Live() && (standing.NotInstalled? || standing.Cleared? || standing.Overruled?) }

    function Offset(): nat { if offsets == [] then 0 else offsets[|offsets| - 1] }
  }

  function NewHandler(command: RobotCommand): Handler {
    Handler(Connecting, 0, command, command, [0], false, NotInstalled)
  }

  function MapStanding(hs: seq<Handler>, f: Standing -> Standing): (out: seq<Handler>)
    ensures |out| == |hs| && forall i :: 0 <= i < |hs| ==> out[i] == hs[i].(standing := f(hs[i].standing))
  {
    seq(|hs|, i requires 0 <= i < |hs| => hs[i].(standing := f(hs[i].standing)))
  }

  function Clear(s: Standing): Standing { if s == Holding then Cleared else s }

  function Overrule(s: Standing): Standing { if s == Holding || s == Claimed then Overruled else s }

  // --- the other tasks ---

  /** The socket server serves one connection at a time; `dialler` is the attempt whose script dialled. */
  datatype Server = Listening | Greeting(dialler: Ticket, slot: Ticket) | Serving(dialler: Ticket, reported: nat)

  /** A dashboard resume holds a copy of the resume sender until it is done with it. */
  datatype Dashboard = Ready | Resuming(sender: Option<nat>) | Signalling(sender: Option<nat>)
  {
    predicate Keeps(h: nat) { !Ready? && sender == Some(h) }
  }

  /** One terminal state written for a handler's request. */
  datatype Terminal = Terminal(handler: nat, succeeded: bool)

  /** What has been written to the request's state so far. */
  datatype Books = Books(consumed: nat, refused: nat, executing: nat, terminals: seq<Terminal>)

  /** The script of an attempt said that it reached the waypoint at this index of its own list. */
  datatype Report = Report(script: Ticket, index: nat)

  /** What has happened so far, for statements about it: no task reads this, and no step depends on it. */
  datatype History = History(
    reports: set<Report>,
    counted: Option<Ticket>,  // whose report the progress count stands at, if it has moved since it was last reset
    cancels: set<nat>,        // the handlers whose own sender a cancel request took
    displaced: set<nat>,      // the handlers that were live when another was spawned or torn down
    signals: multiset<nat>)   // how often the dashboard has told each handler to re-issue itself
  {
    function Reported(r: Report): History { this.(reports := reports + {r}, counted := Some(r.script)) }

    function Uncounted(): History { this.(counted := None) }

    function CancelSent(sender: Option<nat>): History { if sender.Some? then this.(cancels := cancels + {sender.value}) else this }

    function Displaced(hs: set<nat>): History { this.(displaced := displaced + hs) }

    function Signalled(h: nat): History { this.(signals := signals + multiset{h}) }
  }

  datatype System = System(
    shared: Shared,
    desk: Desk,
    handlers: seq<Handler>,
    verdicts: map<Ticket, Verdict>,
    shaken: set<Ticket>,
    server: Server,
    aborting: bool,
    dashboard: Dashboard,
    books: Books,
    history: History)

  const UNEVENTFUL := History({}, None, {}, {}, multiset{})
  const START := System(FRESH, Idle, [], map[], {}, Listening, false, Ready, Books(0, 0, 0, []), UNEVENTFUL)

  function LiveHandlers(hs: seq<Handler>): set<nat> { set h | 0 <= h < |hs| && hs[h].Live() }

  /** The ticket of a handler's current attempt. */
  function Current(s: System, h: nat): Ticket
    requires h < |s.handlers|
  {
    Ticket(h, s.handlers[h].attempt)
  }

  function VerdictOf(s: System, t: Ticket): Verdict { if t in s.verdicts then s.verdicts[t] else Held }

  /** Whoever takes the sender out of the slot sends on it, or drops it by overwriting the slot. */
  function Settled(s: System, v: Verdict): map<Ticket, Verdict> {
    if s.shared.goalSender.Some? then s.verdicts[s.shared.goalSender.value := v] else s.verdicts
  }

  // --- steps ---

  datatype DeskStep =
    | Consume(command: RobotCommand)      // a trigger in state `initial`
    | RefuseEarly                         // missing keys, unknown type, no transform, no plan, no script
    | Check(addressKnown: bool)
    | WriteRefusal
    | WriteExecuting
    | Spawn
    | Cancel                              // a cancel request

  datatype HandlerStep =
    | ConnectFails | Install | WriteFails | Written | Shaken | NotShaken
    | SeeVerdict | SeeCancel | SeeResume(renders: bool)
    | StopAnswered(answer: bool) | StopUnanswered
    | Claim | StopReturns | Drained | DrainTimesOut | Reset | Activate
    | Publish | TearDown
  {
    /** Moves that touch nothing but the handler itself. */
    predicate Local() { !Install? && !Claim? && !Reset? && !Activate? && !Publish? && !TearDown? }
  }

  datatype SocketStep = Accept(dialler: Ticket) | Greeted(ok: bool) | Read(line: Line)

  datatype ReaderStep = Frame(mode: int) | Abort | Link(up: bool)

  datatype DashboardStep = Paused | ResumeBegins | Played | ResumeFails | Unlatched | Signal

  datatype Step =
    | OfDesk(desk: DeskStep)
    | OfHandler(h: nat, own: HandlerStep)
    | OfSocket(socket: SocketStep)
    | OfReader(reader: ReaderStep)
    | OfDashboard(dashboard: DashboardStep)

  // --- the command server ---

  predicate DeskEnabled(s: System, d: DeskStep) {
    match d
    case Consume(_) => s.desk.Idle?
    case RefuseEarly => s.desk.Preparing?
    case Check(_) => s.desk.Preparing?
    case WriteRefusal => s.desk.Refusing?
    case WriteExecuting => s.desk.Admitted?
    case Spawn => s.desk.Announced?
    case Cancel => s.desk.Idle?
  }

  function DeskApply(s: System, d: DeskStep): System
    requires DeskEnabled(s, d)
  {
    match d
    case Consume(command) => s.(desk := Preparing(command), books := s.books.(consumed := s.books.consumed + 1))
    case RefuseEarly => s.(desk := Idle, books := s.books.(refused := s.books.refused + 1))
    case Check(addressKnown) =>
      s.(desk := if s.shared.Admission(addressKnown).None? then Admitted(s.desk.command) else Refusing)
    case WriteRefusal => s.(desk := Idle, books := s.books.(refused := s.books.refused + 1))
    case WriteExecuting => s.(desk := Announced(s.desk.command), books := s.books.(executing := s.books.executing + 1))
    case Spawn =>
      s.(desk := Idle, shared := s.shared.SendersInstalled(|s.handlers|, s.desk.command),
         handlers := s.handlers + [NewHandler(s.desk.command)],
         history := s.history.Uncounted().Displaced(LiveHandlers(s.handlers)))
    case Cancel => s.(shared := s.shared.CancelTaken(), history := s.history.CancelSent(s.shared.cancelSender))
  }

  // --- handlers ---

  /** A cancel arrives as a message, or as the end of the channel when its sender is dropped. */
  predicate CancelArrives(s: System, h: nat) { s.shared.cancelSender != Some(h) }

  predicate ResumeArrives(s: System, h: nat)
    requires h < |s.handlers|
  {
    s.handlers[h].resumeSignalled || (s.shared.resumeSender != Some(h) && !s.dashboard.Keeps(h))
  }

  predicate HandlerEnabled(s: System, h: nat, a: HandlerStep) {
    h < |s.handlers| &&
    var pc, settled := s.handlers[h].pc, VerdictOf(s, Current(s, h)) != Held;
    match a
    case ConnectFails => pc.Connecting?
    case Install => pc.Connecting?
    case WriteFails => pc.Writing?
    case Written => pc.Writing?
    case Shaken => pc.Handshaking? && Current(s, h) in s.shaken
    case NotShaken => pc.Handshaking?
    case SeeVerdict => (pc.Waiting? || pc.Cancelling?) && settled
    case SeeCancel => pc.Waiting? && CancelArrives(s, h)
    case SeeResume(_) => pc.Waiting? && ResumeArrives(s, h)
    case StopAnswered(_) => pc.Cancelling?
    case StopUnanswered => pc.Cancelling?
    case Claim => pc.Claiming?
    case StopReturns => pc.Killing?
    case Drained => pc.Draining? && settled
    case DrainTimesOut => pc.Draining?
    case Reset => pc.Resetting?
    case Activate => pc.Activating?
    case Publish => pc.Publishing?
    case TearDown => pc.TearingDown?
  }

  /** Where a local move takes a handler. */
  function LocalNext(s: System, h: nat, a: HandlerStep): Pc
    requires HandlerEnabled(s, h, a) && a.Local()
  {
    var me := s.handlers[h];
    match a
    case ConnectFails => Publishing(NoConnection)
    case WriteFails => Publishing(WriteFailed)
    case Written => Handshaking
    case Shaken => Waiting
    case NotShaken => Publishing(NoHandshake)
    case SeeVerdict => Publishing(EndingOf(VerdictOf(s, Current(s, h))))
    case SeeCancel => Cancelling
    case SeeResume(renders) =>
      (match RemainingCommand(me.command, s.shared.waypointsCompleted)
       case Err(reason) => Publishing(Refused(reason))
       case Ok(next) =>
         if !renders then Publishing(NotRendered)
         else Claiming(next, if me.command.waypoints == [] then 0 else s.shared.waypointsCompleted))
    case StopAnswered(answer) => Publishing(Cancelled(answer))
    case StopUnanswered => Publishing(CancelUnanswered)
    case StopReturns => Draining(me.pc.next, me.pc.dropped)
    case Drained => Resetting(me.pc.next, me.pc.dropped)
    case DrainTimesOut => Resetting(me.pc.next, me.pc.dropped)
  }

  function LocalApply(s: System, h: nat, a: HandlerStep): System
    requires HandlerEnabled(s, h, a) && a.Local()
  {
    var me := s.handlers[h];
    s.(handlers := s.handlers[h := me.(pc := LocalNext(s, h, a), resumeSignalled := me.resumeSignalled && !a.SeeResume?)])
  }

  // A move under the lock, by what it does to each part of the system.

  function RecordAfter(s: System, h: nat, a: HandlerStep): Shared
    requires HandlerEnabled(s, h, a) && !a.Local()
  {
    match a
    case Install => s.shared.AttemptInstalled(Current(s, h))
    case Claim => s.shared.Claimed()
    case Reset => s.shared.ProgressReset()
    case Activate => s.shared.Activated(s.handlers[h].command)
    case Publish => s.shared
    case TearDown => s.shared.TornDown()
  }

  function HandlersAfter(s: System, h: nat, a: HandlerStep): seq<Handler>
    requires HandlerEnabled(s, h, a) && !a.Local()
  {
    var me := s.handlers[h];
    match a
    case Install => MapStanding(s.handlers, Overrule)[h := me.(pc := Writing, standing := Holding)]
    case Claim => s.handlers[h := me.(pc := Killing(me.pc.next, me.pc.dropped), standing := Claimed)]
    case Reset =>
      s.handlers[h := me.(pc := Activating, attempt := me.attempt + 1, command := me.pc.next,
                          offsets := me.offsets + [me.Offset() + me.pc.dropped])]
    case Activate => s.handlers[h := me.(pc := Connecting)]
    case Publish => s.handlers[h := me.(pc := TearingDown(me.pc.ending))]
    case TearDown => MapStanding(s.handlers, Overrule)[h := me.(pc := Finished(me.pc.ending), standing := Gone)]
  }

  function VerdictsAfter(s: System, h: nat, a: HandlerStep): map<Ticket, Verdict>
    requires HandlerEnabled(s, h, a) && !a.Local()
  {
    match a
    case Install => Settled(s, Dropped)[Current(s, h) := Held]
    case TearDown => Settled(s, Dropped)
    case _ => s.verdicts
  }

  function BooksAfter(s: System, h: nat, a: HandlerStep): Books
    requires HandlerEnabled(s, h, a) && !a.Local()
  {
    if a.Publish? then s.books.(terminals := s.books.terminals + [Terminal(h, s.handlers[h].pc.ending.Succeeds())]) else s.books
  }

  function HistoryAfter(s: System, h: nat, a: HandlerStep): History
    requires HandlerEnabled(s, h, a) && !a.Local()
  {
    if a.TearDown? then s.history.Uncounted().Displaced(LiveHandlers(s.handlers) - {h})
    else if a.Reset? then s.history.Uncounted()
    else s.history
  }

  function SharedApply(s: System, h: nat, a: HandlerStep): System
    requires HandlerEnabled(s, h, a) && !a.Local()
  {
    s.(shared := RecordAfter(s, h, a), handlers := HandlersAfter(s, h, a), verdicts := VerdictsAfter(s, h, a),
       books := BooksAfter(s, h, a), history := HistoryAfter(s, h, a))
  }

  function HandlerApply(s: System, h: nat, a: HandlerStep): System
    requires HandlerEnabled(s, h, a)
  {
    if a.Local() then LocalApply(s, h, a) else SharedApply(s, h, a)
  }

  // --- the socket server ---

  predicate SocketEnabled(s: System, x: SocketStep) {
    match x
    case Accept(dialler) => s.server.Listening? && dialler in s.verdicts
    case Greeted(_) => s.server.Greeting?
    case Read(_) => s.server.Serving?
  }

  function ReadApply(s: System, line: Line): System
    requires s.server.Serving?
  {
    var next := s.(shared := AfterLine(s.shared, line));
    match line
    case OkLine => next.(verdicts := Settled(s, Sent(true)))
    case ErrorLine => next.(verdicts := Settled(s, Sent(false)))
    case WaypointReached(index) =>
      next.(server := Serving(s.server.dialler, s.server.reported + 1), history := s.history.Reported(Report(s.server.dialler, index)))
    case Feedback => next
    case Closed => next.(verdicts := Settled(s, Sent(false)), handlers := MapStanding(s.handlers, Clear), server := Listening)
  }

  function SocketApply(s: System, x: SocketStep): System
    requires SocketEnabled(s, x)
  {
    match x
    case Accept(dialler) =>
      if s.shared.Expecting() then s.(shared := s.shared.HandshakeTaken(), server := Greeting(dialler, s.shared.handshakeSender.value))
      else s
    case Greeted(ok) =>
      s.(shaken := if ok then s.shaken + {s.server.slot} else s.shaken, server := Serving(s.server.dialler, 0))
    case Read(line) => ReadApply(s, line)
  }

  // --- the realtime reader and the dashboard ---

  predicate ReaderEnabled(s: System, r: ReaderStep) {
    match r
    case Frame(_) => !s.aborting
    case Abort => s.aborting
    case Link(_) => !s.aborting
  }

  function ReaderApply(s: System, r: ReaderStep): System
    requires ReaderEnabled(s, r)
  {
    match r
    case Frame(mode) => s.(shared := s.shared.ModeRead(mode), aborting := SafetyMode.FromRt(mode).AbortsGoal())
    case Abort =>
      s.(shared := s.shared.GoalCleared(), verdicts := Settled(s, Sent(false)), handlers := MapStanding(s.handlers, Clear),
         aborting := false)
    case Link(up) => s.(shared := s.shared.Linked(up))
  }

  predicate DashboardEnabled(s: System, d: DashboardStep) {
    match d
    case Paused => s.dashboard.Ready?
    case ResumeBegins => s.dashboard.Ready? && s.shared.motionPaused
    case Played => s.dashboard.Resuming?
    case ResumeFails => s.dashboard.Resuming?
    case Unlatched => s.dashboard.Resuming?
    case Signal => s.dashboard.Signalling?
  }

  /** The live handler that a signal reaches. */
  function Addressee(s: System): Option<nat>
    requires s.dashboard.Signalling?
  {
    match s.dashboard.sender
    case Some(h) => if h < |s.handlers| && s.handlers[h].Live() then Some(h) else None
    case None => None
  }

  function SignalApply(s: System): System
    requires s.dashboard.Signalling?
  {
    match Addressee(s)
    case Some(h) =>
      s.(handlers := s.handlers[h := s.handlers[h].(resumeSignalled := true)], history := s.history.Signalled(h), dashboard := Ready)
    case None => s.(dashboard := Ready)
  }

  function DashboardApply(s: System, d: DashboardStep): System
    requires DashboardEnabled(s, d)
  {
    match d
    case Paused => s.(shared := s.shared.Latched(true))
    case ResumeBegins => s.(dashboard := Resuming(s.shared.resumeSender))
    case Played => s.(shared := s.shared.Latched(false), dashboard := Ready)
    case ResumeFails => s.(dashboard := Ready)
    case Unlatched => s.(shared := s.shared.Latched(false), dashboard := Signalling(s.dashboard.sender))
    case Signal => SignalApply(s)
  }

  // --- runs ---

  predicate Enabled(s: System, step: Step) {
    match step
    case OfDesk(d) => DeskEnabled(s, d)
    case OfHandler(h, a) => HandlerEnabled(s, h, a)
    case OfSocket(x) => SocketEnabled(s, x)
    case OfReader(r) => ReaderEnabled(s, r)
    case OfDashboard(d) => DashboardEnabled(s, d)
  }

  function Apply(s: System, step: Step): System
    requires Enabled(s, step)
  {
    match step
    case OfDesk(d) => DeskApply(s, d)
    case OfHandler(h, a) => HandlerApply(s, h, a)
    case OfSocket(x) => SocketApply(s, x)
    case OfReader(r) => ReaderApply(s, r)
    case OfDashboard(d) => DashboardApply(s, d)
  }

  /** Where a run leads, or none if one of its steps cannot be taken. */
  function Run(s: System, steps: seq<Step>): Option<System>
    decreases |steps|
  {
    if steps == [] then Some(s)
    else if Enabled(s, steps[0]) then Run(Apply(s, steps[0]), steps[1..])
    else None
  }
}
