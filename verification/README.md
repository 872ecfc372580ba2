# Verification of the UR driver: trajectory planner and goal lifecycle

This project models two parts of a driver for Universal Robots arms and proves properties of them.

**The trajectory planner** turns waypoints into a commandable chain of `movej` and `movel` moves: forward and
closed-form inverse kinematics, whole-turn shifts and the choice of the nearest configuration, per-segment
speeds at the joint limits, corner blends, and a duration estimate. Numbers are reals. The trigonometric
functions and the square root are a record `Trig` of functions; statements that need trigonometry require
`t.Lawful()`, which asks for the Pythagorean identity, the sum formulas, injectivity modulo whole turns, and that `acos`,
`atan2` and `sqrt` invert what they should, `acos` within half a turn. The round trip of pose literals asks in addition that the six numbers at hand are
written in a form that reads back. What else a statement asks for is about its own inputs.

**The goal lifecycle** is the protocol by which a command server, any number of goal handlers, a socket server,
a realtime reader and a dashboard task share one locked record. `DriverStates` gives the record as a class whose
methods are the locked blocks, each proved equal to a function on the record's value, and some runs of blocks with no other
task in between; `GoalLifecycle` is a state machine whose steps are those functions, interleaved freely. It also keeps a
`History` that no step depends on, for statements about what happened before. The theorems are about all of its runs. Goal ids are
taken to be distinct and a handler is named by its number in order of acceptance; a sender is named by its handler and attempt.

Two smaller parts complete it: the length-prefixed realtime frames and the pose literals of URScript.

Reading order: `Trigonometry`, `Poses`, `Kinematics`, `Isolation` (the equation the solver works from),
`IkBranches` (the solver), `BranchProofs` (soundness), `Completeness`, `Fabrication`, `Turns`, `Resolution`; then `Timing`,
`Trapezoid`, `Path`, `Plan`, `PlanProofs`, `ScalingProofs`; then `DriverStates`, `GoalLifecycle`, `Verdicts`,
`Exclusion`, `Traces`, `Resumption`, `Counting`, `Progress`, `Accounting`, `Outcomes`, `Records`, `Causes`, `Episodes`,
`Endings`; and `RealtimeFrames`, `PoseLiteral`.

## Findings

Five claims one might read off the code or its comments do not hold as they stand. Each is settled by an exact
condition and a run or an input that shows the failure.

- *A pose gives back the configuration it was computed from.* It does exactly when the wrist is away from its
  singularity or the last joint's roll is a whole number of turns (`Resolution.PoseRoundTrip`). The comment at
  `src/trajectory/kinematics.rs:209-211` says the roll of a straight wrist is reseeded from the preferred
  configuration; the code keeps it at zero (`Resolution.StraightWristForgetsRoll`). For the same reason the
  first sample of a straight segment, where the branch test is skipped, need not be the configuration the arm
  stands in (`Path.StartsWhereItStands`).
- *Every listed branch reaches its target.* It does exactly when the elbow cosine needed no clamping and the
  wrist is away from its singularity or has a zero roll (`BranchProofs.BranchReachesIff`). The comment at
  `src/trajectory/kinematics.rs:139-149` presents the clamp as a repair of rounding; over the reals it makes up a branch that
  misses its target, for every arm (`Fabrication.ClampingFabricates`).
- *At most one goal is in hand.* A run keeps it exactly when no request passes admission while a handler is
  accepted but not installed, or has had its goal id cleared and is not torn down (`Exclusion.ExclusionIff`);
  `Episodes.AdmittedBeforeInstallation` and `Episodes.TornDownByPredecessor` are runs through the two windows.
- *A resume never skips a waypoint.* Where every script reports its waypoints in order, it holds exactly when of each re-issue
  the last waypoint it drops was reached (`Progress.SkipsNothingIff`). If no admission collides as well, the re-issues drop only
  what the script of their own attempt reported exactly when none of them reads a progress count that holds another attempt's
  report (`Counting.ResumeDropsOwnIff`), and then nothing is skipped (`Progress.NothingSkipped`). A discipline that sees to it:
  on top of both conditions, progress is reset and handlers are spawned only after the script being served was read to its
  close, and only the installed attempt's script dials (`Progress.ClosingFirstSuffices`). The comment at
  `src/driver/handle_request.rs:237-240` calls a drain that times out harmless but for an abort; `Episodes.LateReportSkips`
  is a run in which it makes the resumed goal drop a waypoint that was never reached. `Episodes.CollisionSkips` is one in which
  two goals collide, every script is read to its close, and a goal still drops two waypoints that nobody reached.
- *A goal is cancelled because somebody asked for it.* A cancel reaches a live handler exactly when a cancel request took its
  sender, or another handler was spawned or torn down while it was live (`Causes.CancelArrivesIff`). In a run without collisions a handler stops its script only after a cancel
  request took its own sender, and re-issues no more often than it was signalled (`Causes.OnlyOnRequest`). The handler takes the
  end of its cancel channel for a cancel (`src/driver/handle_request.rs:140`), so after a collision another goal's teardown
  cancels it: `Episodes.CancelledUnasked` is a run in which it is then written as succeeded.

## Model

| member | source | states |
|---|---|---|
| Kinematics.DhTransformIsProduct | src/trajectory/kinematics.rs:83-96 | the link matrix is the product Rz(theta) Tz(d) Tx(a) Rx(alpha) |
| Kinematics.ForwardKinematics | src/trajectory/kinematics.rs:103-110 | the loop computes the product of the six links, base first |
| Completeness.FlangeRigid | src/trajectory/kinematics.rs:103-110 | the flange pose is always a rigid transform |
| Isolation.ReachesIffFits | src/trajectory/kinematics.rs:163-171 | the flange is at a rigid target if and only if the wrist angles see the shoulder axis where the target has it, the wrist centre is at the shoulder offset, and joints 2 to 4 solve the planar problem of `T14` |
| BranchProofs.WrapExact | src/trajectory/kinematics.rs:127-134 | the wrapped angle is in (-pi, pi] and differs by whole turns |
| IkBranches.InverseKinematics | src/trajectory/kinematics.rs:172-262 | the three nested loops list the branches of every shoulder, wrist and elbow angle in order, dropping those out of reach |
| BranchProofs.ShoulderExact | src/trajectory/kinematics.rs:181-190 | the base angles listed are, up to whole turns, exactly those that put the wrist centre at the shoulder offset, and none when it is inside the cylinder |
| BranchProofs.BendCosineExact | src/trajectory/kinematics.rs:195-204 | over the reals the wrist-bend cosine of a listed shoulder angle is a cosine, so neither the drop nor the clamp ever applies to it |
| BranchProofs.ArcPairExact | src/trajectory/kinematics.rs:202-204 | the pair listed for a cosine is exactly the directions with that cosine |
| BranchProofs.ElbowsWithinReach | src/trajectory/kinematics.rs:139-149 | the elbow is dropped if and only if the law of cosines asks for a cosine more than 1e-9 outside [-1, 1] |
| BranchProofs.RollExact | src/trajectory/kinematics.rs:207-216 | away from the singularity the roll computed is, up to whole turns, the only one that fits the target's axes |
| BranchProofs.StraightWrist | src/trajectory/kinematics.rs:207-212 | when the sine of theta5 is exactly zero, roll zero fits |
| BranchProofs.LiftExact | src/trajectory/kinematics.rs:244-247 | the two-link angle computed is, up to whole turns, the only one that spans the planar offset once the reach matches |
| BranchProofs.BranchReachesIff | src/trajectory/kinematics.rs:172-262 | soundness, exactly: a listed branch of a rigid target has the target as its flange pose if and only if its elbow cosine was within [-1, 1] before clamping and its wrist is away from the singularity or at zero roll |
| Completeness.RecoveredIff | src/trajectory/kinematics.rs:172-262 | completeness, exactly: solving the flange pose of a configuration lists it, up to whole turns, if and only if its wrist is away from the singularity or its roll is whole turns |
| Completeness.AtMostEight | src/trajectory/kinematics.rs:154-155 | at most eight branches are listed |
| Fabrication.ClampingFabricates | src/trajectory/kinematics.rs:139-149 | for every arm there is a target and a listed branch whose wrist is regular and whose elbow cosine was out of range before it was clamped, and the branch misses the target |
| Turns.ExpandTurns | src/trajectory/kinematics.rs:286-306 | the recursion over one shared buffer appends exactly the specified shifts and leaves the buffer's prefix as it was |
| Turns.TurnsExact | src/trajectory/kinematics.rs:285-306 | for a wrapped solution and limits within one turn either way, a vector is output if and only if it is inside the limits and congruent to the solution by any whole turns |
| Turns.TurnsOnce | src/trajectory/kinematics.rs:285-306 | no shift is output twice |
| Turns.InverseKinematicsFiltered | src/trajectory/kinematics.rs:272-283 | the loop expands every branch in order |
| Turns.FilteredExact | src/trajectory/kinematics.rs:264-283 | a configuration is in the filtered list if and only if it is inside the limits and agrees with some branch up to whole turns |
| Turns.ZeroDistance | src/trajectory/kinematics.rs:313-323 | the weighted distance is zero only between equal configurations |
| Turns.DistanceExact | src/trajectory/kinematics.rs:308-323 | the weighted distance is the least number that bounds four times the moves of joints 1 and 2, three times that of joint 3, and those of joints 4 to 6 |
| Turns.SelectNearestExact | src/trajectory/kinematics.rs:330-336 | none exactly for an empty list, else the first member that no other member beats |
| LimitsModel.Limits.FirstViolation | src/trajectory/limits.rs:119-129 | the first joint outside its limits, and none exactly when every joint is inside |
| LimitsModel.ScaleLimits | src/trajectory/limits.rs:103-111 | velocity and acceleration limits are multiplied by the effective scales; position limits are untouched |
| LimitsModel.ScaledExact | src/trajectory/limits.rs:103-111 | joint by joint: a scale in (0, 1] multiplies the limit, any other leaves it as it is |
| Resolution.ResolvePoseExact | src/trajectory/path.rs:88-105 | resolving succeeds if and only if some legal configuration agrees with a branch; the answer is one, and none is nearer the seed; the error tells unreachable from outside the limits |
| Resolution.CheckExact | src/trajectory/path.rs:107-123 | a given configuration is accepted as it is exactly when every joint is inside; else the error quotes the first joint outside, its value and its limits |
| Resolution.WideLimitsSuffice | src/trajectory/path.rs:95-103 | when the limits take in (-pi, pi] of every joint, a pose with any branch is always resolved |
| Resolution.PoseRoundTrip | src/trajectory/path.rs:88-105 | for every legal configuration, resolving its own pose seeded with itself gives exactly it back if and only if its wrist is away from the singularity or its roll is whole turns |
| Resolution.StraightWristForgetsRoll | src/trajectory/kinematics.rs:208-212 | an input on which the round trip fails |
| Resolution.ResolvedReaches | src/trajectory/path.rs:88-105 | what is resolved is a listed branch and reaches the pose exactly when that branch does |
| Timing.ComputeJointSegmentSpeed | src/trajectory/timing.rs:67-95 | the two loops compute the largest travel and the running minima, first joint winning ties |
| Timing.GreatestJointSpeed | src/trajectory/timing.rs:48-95 | a lead speed is feasible for every moving joint if and only if it is at most the one returned, likewise for acceleration; the limiting joint is the first exactly on its limit; none exactly when nothing moves |
| Timing.AtLeastOneLimit | src/trajectory/timing.rs:61-64 | the lead speed is at least the limiting joint's own limit |
| Timing.ComputeCartesianSpeedCap | src/trajectory/timing.rs:111-141 | the loops over samples and joints compute the running cap |
| Timing.GreatestToolSpeed | src/trajectory/timing.rs:97-141 | a tool speed is within the ceiling and sustainable by every joint at every sample if and only if it is at most the cap; below the ceiling some sample holds a joint exactly at its limit; acceleration shrinks by the same factor |
| Trapezoid.PeakForm | src/trajectory/timing.rs:165-190 | for positive distance, speed and ramp, both branches of the estimate are p/a + d/p with p the achievable peak |
| Trapezoid.BranchesMeet | src/trajectory/timing.rs:170-176 | the branches agree where v squared is a times d |
| Trapezoid.ZeroDuration | src/trajectory/timing.rs:165-169 | the estimate is zero when there is no distance, speed or ramp |
| Trapezoid.FastestProfile | src/trajectory/timing.rs:160-190 | the estimate is attained by a profile that covers exactly the distance at the achievable peak, and no rest-to-rest trapezoid within the speed and ramp is faster |
| Trapezoid.FasterLimits | src/trajectory/timing.rs:165-177 | the estimate is non-increasing in the speed and in the ramp |
| Path.ComputeJointDelta | src/trajectory/path.rs:128-134 | the array is filled with the per-joint differences |
| Path.ChordExact | src/trajectory/path.rs:142-145 | the chord is the Euclidean distance between two tool positions |
| Path.CornerExact | src/trajectory/path.rs:136-153 | a corner is missing exactly when a segment beside it is at most 1e-12 long; otherwise the deflection is in [0, pi] and the two lengths times its cosine are the inner product of the way in and the way out, so the clamp never applies |
| Path.OneTurning | src/trajectory/path.rs:136-153 | that product law has one solution in [0, pi], so it determines the deflection |
| Path.ComputeBlendRadius | src/trajectory/path.rs:170-195 | narrowing one radius by the three bounds in turn computes the specified blend |
| Path.GreatestBlend | src/trajectory/path.rs:155-195 | the blend is zero or a radius of at least 1 mm within 0.4 of both chords, the deviation budget and the request, and every such radius is at most the blend |
| Path.SampleLinearSegment | src/trajectory/path.rs:210-269 | the sampling loop, with its early exits, computes the specified rates |
| Path.WalkExact | src/trajectory/path.rs:230-268 | sampling succeeds with a list exactly when every sample of it was taken from the one before |
| Path.SegmentFollowed | src/trajectory/path.rs:197-269 | rates are returned if and only if there are samples, one for each rate: 2 to the maximum of them, parameters from 0 to 1, spacing at most the step unless the cap is hit, each the nearest legal answer for its pose to the one before, neighbours at most pi apart in weighted distance and so at most pi/4 in the first two joints, and each rate the unit rate at its own sample; otherwise some sample has no legal answer, jumps or has no rates, and those before it were fine |
| Path.StartsWhereItStands | src/trajectory/path.rs:242-245 | the first sample, exempt from the branch test, is the arm's own configuration if and only if its roll is recoverable |
| Plan.ForModel | src/trajectory/kinematics.rs:49-63 | every row of the model table meets what the derivation needs of the lengths |
| Plan.FrameChangeExact | src/trajectory/frames.rs:90-117 | a pose told in base_link stays as it is when that is the UR base, and otherwise has x and y of its position and axes negated |
| Plan.FrameChangeUndoesItself | src/trajectory/frames.rs:90-117 | converting from base_link to the UR base twice changes nothing |
| Plan.ResolveAll | src/trajectory/plan.rs:214-231 | the seeded resolve loop computes the specified configurations or the first error |
| Plan.TimeSegments | src/trajectory/plan.rs:240-293 | the speed loop emits one waypoint a segment and sums the estimates, or stops at the first error |
| Plan.BlendCorners | src/trajectory/plan.rs:295-321 | the blend loop overwrites exactly the radii of inner corners |
| Plan.MakePlan | src/trajectory/plan.rs:188-331 | planning runs the checks, limits and three loops in order |
| PlanProofs.ConfigurationsExact | src/trajectory/plan.rs:214-231 | the resolve loop succeeds if and only if every target by itself has a legal answer, whatever the seeds; each choice is nearest its seed; a failure names the first target without one |
| PlanProofs.ArmExact | src/trajectory/plan.rs:188-210 | what a request is planned with: the lengths and scaled limits of its model, accelerations overridden when given; or the first of unknown model, no waypoints, more than 400, no limits |
| PlanProofs.PlanResolves | src/trajectory/plan.rs:188-231 | every stop of a plan is inside the limits and is the nearest acceptable answer to its target, a joint target unchanged, a pose target read in the UR base, with x and y negated exactly if told in a base_link that is not that base; planning fails to resolve exactly when some target has none; the plan names its model and limits |
| PlanProofs.SpeedsExact | src/trajectory/plan.rs:240-293 | the speed loop succeeds with a list exactly when each segment by itself has that speed; a failure is that of the first segment that has none |
| PlanProofs.PlanSpeedsAreGreatest | src/trajectory/plan.rs:240-293 | in a plan every joint move leads at the greatest speed and acceleration all joints can follow; every straight move runs at the greatest tool speed within the ceiling that all joints can sustain at the unit rates of every sample of a list that follows the segment at 5 mm and at most 2000 samples; each waypoint carries the configuration and kind of move asked for |
| PlanProofs.BlendsAreGreatest | src/trajectory/plan.rs:295-321 | along a whole plan each blend is the greatest radius its corner can run, or zero where none can: at least 1 mm, within 0.4 of both chords, the deviation budget and the request, at the one angle by which the path turns, short of 170 degrees; no blend without a corner, and the last is zero |
| PlanProofs.BlendsNeverOverlap | src/trajectory/plan.rs:295-321 | adjacent blends together take at most 0.8 of the chord between them |
| PlanProofs.PlanFails | src/trajectory/plan.rs:188-331 | a plan fails for want of an arm, or at the first target without an answer, or, all targets resolved, at the first move without a speed: no joint moves, or the straight line has a sample that cannot be taken |
| PlanProofs.DurationExact | src/trajectory/plan.rs:264-275 | the estimate is the sum over the waypoints of the least rest-to-rest time over the largest joint move or the straight distance, at that waypoint's speed and acceleration, and zero where one of these is |
| ScalingProofs.JointSpeedScales | src/trajectory/limits.rs:141-172 | the speed of a joint segment is its unscaled speed times the effective scale, with the same limiting joint |
| ScalingProofs.ScalingOnlyRetimes | src/trajectory/plan.rs:188-331 | two requests that differ only in scaling fail with the same error or succeed with the same stops, blends and kinds of move; joint moves are in the exact ratio of the effective scales; lower scales, with positive limits and ceiling, make no move faster and the estimate no shorter |
| DriverStates.RemainingCommand | src/driver/handle_request.rs:340-372 | refused as relative exactly for relative moves, and as all reached exactly for other trajectories all reached, quoting type and count; otherwise the rest is non-empty and joins up with what was dropped |
| DriverStates.SafetyMode.FromRt | src/core/dashboard_types.rs:145-194 | modes 1 and 2 accept goals, 3 and 5 to 9 abort them, no others do either |
| DriverStates.DriverState.Admit | src/interfaces/command_server.rs:565-591 | equals `Admission`, whose contract is written over the fields: admitted if and only if the address is known, connected, not held, mode 1 or 2, no id and no claim; and which refusal takes precedence |
| DriverStates.DriverState.TakeCancel | src/interfaces/command_server.rs:133-146 | a cancel request takes the sender it finds, so it is used once |
| DriverStates.DriverState.Reissue | src/driver/handle_request.rs:195-256 | one resume with no other task in between: the record is unchanged when it is refused or not rendered; otherwise the rest is active, the count is zero and the goal stays guarded |
| DriverStates.DriverState.Frame | src/driver/realtime_reader.rs:92-122 | one realtime frame: the goal in flight fails exactly when the mode aborts goals |
| DriverStates.DriverState.ResumeMotion | src/driver/dashboard.rs:403-469 | a resume ends the hold whether `play` worked or not, unless the socket is lost; the live goal is signalled exactly when motion was held and `play` answered and did not resume it |
| DriverStates.DriverState.PauseMotion | src/driver/dashboard.rs:354-393 | motion is held exactly when the pause is acknowledged and no poll for its confirmation loses the socket |
| DriverStates.DriverState.InstallSenders | src/interfaces/command_server.rs:619-625 | the new record in full |
| DriverStates.DriverState.InstallAttempt | src/driver/handle_request.rs:85-93 | installation takes the goal id and the three senders and ends the claim in one block |
| DriverStates.DriverState.TearDown | src/driver/handle_request.rs:294-308 | teardown clears every field of the goal, whoever owns it by then |
| DriverStates.Shared.TornDown | src/driver/handle_request.rs:303-308 | after teardown admission depends on the connection and the safety mode alone: no hold, id or claim outlives its goal |
| DriverStates.DriverState.Accept | src/driver/socket_server.rs:53-65 | takes the handshake sender, or leaves the record alone when a part is missing |
| DriverStates.DriverState.Serve | src/driver/socket_server.rs:86-150 | what each line does to the record and which goal it settles |
| DriverStates.DriverState.ServeConnection | src/driver/socket_server.rs:86-150 | the line loop up to the close computes the specified record and settled goals |
| DriverStates.FirstLineSettles | src/driver/socket_server.rs:86-150 | on one connection the first ok, error or close settles the installed goal and no later line settles any; after the close id, verdict sender and feedback sender are gone |
| DriverStates.DriverState.Abort | src/driver/realtime_reader.rs:110-122 | a safety stop fails the goal whose sender is installed and clears it |
| Verdicts.FirstVerdictWins | src/driver/socket_server.rs:88-139 | over any run an attempt's settled verdict never changes, and a verdict is outstanding exactly while its sender is in the shared slot |
| Verdicts.StrandedIff | src/driver/handle_request.rs:128-168 | in every reachable state a live handler has no step of its own if and only if it waits on a verdict whose sender is in the slot with no cancel and no resume on the way |
| Verdicts.HeardIff | src/driver/handle_request.rs:128-182 | in every reachable state a handler can end on its verdict if and only if it waits or cancels and its sender has left the slot; likewise for a drain |
| Verdicts.NobodyStranded | src/driver/socket_server.rs:125-147 | after the script socket closes or a safety stop aborts, no verdict is outstanding and every live handler can move |
| Verdicts.TrueVerdictIsOk | src/driver/socket_server.rs:88-94 | a verdict becomes true exactly when an ok line finds its sender in the slot |
| Exclusion.GuardSeesUnlessExposed | src/interfaces/command_server.rs:582-588 | in every reachable state the goal test passes if and only if every live handler is not installed, cleared or overruled |
| Exclusion.ExclusionIff | src/interfaces/command_server.rs:565-625 | a run keeps at most one goal in hand if and only if no request passes admission while a live handler is exposed |
| Exclusion.GapRefuses | src/driver/handle_request.rs:226-256 | while no admission has collided, every point of the gap of a re-issue refuses admission |
| Traces.RecordFollowsSteps | src/interfaces/command_server.rs:565-591 | in every reachable state the hold, the safety mode, the link and a pending abort are what the steps so far say |
| Traces.AdmittedIff | src/interfaces/command_server.rs:565-591 | in every run a request passes admission if and only if the address is known, the link is up, motion was not held since its last release, the last frame was mode 1 or 2, and every live handler is exposed |
| Traces.HoldRefuses | src/interfaces/command_server.rs:572-576 | from a pause to the next resume or teardown no request passes admission |
| Traces.ResumableIff | src/driver/dashboard.rs:403-415 | a resume can begin if and only if motion is held and no other is under way |
| Traces.AbortsFirst | src/driver/realtime_reader.rs:106-122 | after a frame in an aborting mode the reader does nothing before the abort, and it aborts only then |
| Resumption.ReissuesKeepTheRest | src/driver/handle_request.rs:205-256 | under any interleaving and any number of re-issues, the waypoints are the accepted ones from the offset on, never empty for a trajectory, and relative moves are never re-issued |
| Counting.ResumeDropsOwnIff | src/driver/handle_request.rs:205-256 | in every run without collisions whose scripts report in order, the re-issues drop only waypoints reported by the script of their own attempt if and only if none of them reads a progress count that holds another attempt's report |
| Progress.SkipsNothingIff | src/driver/socket_server.rs:108-119 | in every run whose scripts report in order, whatever collides, every waypoint dropped by a re-issue was reached if and only if of every re-issue the last waypoint dropped was reached |
| Progress.NothingSkipped | src/driver/handle_request.rs:205-256 | in a run without collisions, with reports in order and no re-issue reading another attempt's report, no re-issue skips a waypoint and all that was dropped from any goal was reached |
| Progress.ClosingFirstSuffices | src/driver/handle_request.rs:237-256 | when moreover scripts are read to their close before a reset or a spawn and only the installed attempt's script dials, no re-issue reads another attempt's report |
| Accounting.RequestsAccounted | src/interfaces/command_server.rs:157-655 | in every reachable state triggers consumed = refusals + executing writes + at most one in flight, executing writes = handlers + at most one unspawned, handlers = terminal writes + handlers yet to publish |
| Accounting.OneTerminalState | src/driver/handle_request.rs:261-292 | a handler writes exactly one terminal state, when it publishes; it is succeeded if and only if its ending is an answered cancel or a true verdict, which its last attempt did get |
| Outcomes.OutcomeIff | src/driver/handle_request.rs:128-292 | over the steps of any run: the terminal state written for a handler is succeeded if and only if the dashboard answered its stop, or it ended on its verdict and that was true; a stop nobody answered is written as failed |
| Records.RecordIsOfLiveGoal | src/driver/handle_request.rs:85-308 | in every run without collisions every id and sender in the record is that of the one live goal, the command kept for a resume is what it still runs, and without a live goal none is left |
| Records.HandshakeFirst | src/driver/handle_request.rs:114-123 | in every reachable state a handler that waits, cancels or resumes does so on an attempt whose script shook hands |
| Records.ShakenIff | src/driver/socket_server.rs:70-80 | an attempt shakes hands exactly when the goal id is read back on the connection that took its handshake sender |
| Records.OthersLeaveIt | src/driver/handle_request.rs:72-308 | no other task changes a handler's place, attempt or command; it is told to re-issue itself only by a dashboard that has its sender, and only while it is live |
| Episodes.AdmittedBeforeInstallation | src/driver/handle_request.rs:72-93 | a run that admits a second goal before the first has installed its id |
| Episodes.TornDownByPredecessor | src/driver/handle_request.rs:277-308 | a run in which the teardown of one goal drops the verdict sender of the next |
| Causes.CancelArrivesIff | src/driver/handle_request.rs:140 | in every reachable state a cancel reaches a live handler if and only if a cancel request took its sender or another handler was spawned or torn down while it was live |
| Causes.ResumeArrivesIff | src/driver/handle_request.rs:141 | in every reachable state a resume reaches a live handler if and only if it was signalled, or another handler was spawned or torn down while it was live and no resume under way has its sender |
| Causes.SignalsWhomItFound | src/driver/dashboard.rs:403-462 | whatever happens during a resume, it signals the goal whose sender it found when it began, if still live, and no other |
| Causes.OnlyOnRequest | src/driver/handle_request.rs:140-141 | in every run without collisions a handler stops its script, or ends on a cancel, only after a cancel request took its own sender, and it re-issues at most as often as the dashboard signalled it |
| Episodes.CancelledUnasked | src/driver/handle_request.rs:140-182 | a run without any cancel request in which a goal ends cancelled and is written as succeeded |
| Episodes.CollisionSkips | src/driver/handle_request.rs:141-256 | a run with its reports in order, every script read to its close before a reset or spawn and only installed scripts dialling, in which two goals collide and one drops two waypoints that none of its scripts reported |
| Episodes.LateReportSkips | src/driver/handle_request.rs:237-256 | a run without collisions and with its reports in order in which a late report after a drain timeout drops a waypoint never reached; so the condition on the count cannot be left out |
| Endings.EndingIff | src/driver/handle_request.rs:72-292 | for every command and every ending: some run brings a goal with that command to that ending if and only if the ending is one the command admits |
| RealtimeFrames.DecodeInvertsEncode | src/driver/realtime_reader.rs:140 | big-endian lengths read back |
| RealtimeFrames.EncodeInvertsDecode | src/driver/realtime_reader.rs:140 | every four bytes are the encoding of the length they decode to |
| RealtimeFrames.Stream.ReadFrame | src/driver/realtime_reader.rs:130-163 | one read, with its three errors and the skipped sizes |
| RealtimeFrames.Stream.ReadAll | src/driver/realtime_reader.rs:45-65 | the reader's loop on one connection |
| RealtimeFrames.OnlyFramesAreRead | src/driver/realtime_reader.rs:130-163 | a read succeeds if and only if a whole frame comes next, and takes exactly that frame |
| RealtimeFrames.FailuresExact | src/driver/realtime_reader.rs:130-163 | a read fails for want of four bytes, else on a length outside 5 to 8192, else for want of the body, and in no other case |
| RealtimeFrames.FramesReadBack | src/driver/realtime_reader.rs:126-163 | a stream of whole frames gives exactly its understood bodies and ends on a frame boundary |
| RealtimeFrames.StaysInStep | src/driver/realtime_reader.rs:126-163 | on any run of frames the reader returns exactly the understood bodies in order and goes on at the frame boundary, whatever follows |
| PoseLiteral.ParsePoseString | src/trajectory/frames.rs:142-168 | the parsing loop with its four errors, in the order the code finds them |
| PoseLiteral.AcceptedIff | src/trajectory/frames.rs:137-168 | a literal gives six numbers if and only if its bracketed body splits at commas into six parts that read as them |
| PoseLiteral.ReadExactly | src/trajectory/frames.rs:142-168 | six numbers are read if and only if the string is six comma-free parts between brackets, with or without the p and any white space, and each part reads as its number |
| PoseLiteral.RefusedExactly | src/trajectory/frames.rs:142-168 | a string is no literal exactly when it has no such parts; otherwise a refusal is for the first part that is no number, for a seventh part, or for too few, in that order |
| PoseLiteral.VariantsReadBack | src/trajectory/frames.rs:137-168 | a pose whose six numbers can be written and read back, with any white space around its components and brackets, with or without the p, parses to exactly those numbers |
| PoseLiteral.LiteralReadsBack | src/trajectory/frames.rs:171-174 | so does the literal that is written for it |

## Left out

- Floating point: rounding, NaN and infinities; every number is a real, so the 1e-9 reach tolerance admits only what the clamp then falsifies, which `BranchReachesIff` makes explicit.
- Rotations are matrices rather than unit quaternions, and the pose of a rotation vector is a given function of the six numbers.
- The Jacobian, its inverse and spherical interpolation: the unit rates and the pose part of the way along a segment are given functions.
- `RAMP_TIME_S` acceleration estimates, URDF reading and per-model files: limits are looked up by a given function and may be any; the results that need it ask that they lie within one turn either way.
- Path.SampleLinearSegment: asks for a positive step and room for two samples, which the constants of its only caller give it.
- The members on inverse kinematics ask that d4 is positive, d6 is not zero and the two link lengths are not zero and differ in size; `Plan.ForModel` shows that every supported model meets this.
- Which of several equally near configurations is taken follows the order in which the solver lists its branches; that order is as the loops give it and nothing more is said of it.
- Warnings of a plan: they do not influence it.
- Planning inside the command server, template rendering, Redis, TCP, logging and configuration.
- Triggers consumed while the request is not in state `initial`: nothing is written for them.
- The two failure counters: they are read and written by several tasks without a lock, so no exact count holds.
- Time: a timeout is a step that may be taken at any moment, so nothing is said about how long a handler waits on a script that neither reports nor closes.
- Feedback lines: they are read and dropped, and a full feedback channel does not hold the socket server up.
- Connections to the socket server from anything but a script the driver has sent.
- A failed write of the goal id to a script connection, which ends the socket server's task and restarts the driver.
- Protective-stop reset and the other dashboard commands; a dashboard reply to `stop` is any reply or none.
- DriverStates.DriverState.ServeConnection: one connection served with no other task in between; the interleaved account is the state machine's.
- Progress.NothingSkipped: one way only; a re-issue that reads another attempt's report may still drop only what was reached, which `Progress.SkipsNothingIff` decides exactly.
- Progress.ClosingFirstSuffices: one way only; a run may close late and have no report arrive in between.
