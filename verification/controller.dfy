/**
 * Game/AI/AIController.cs: an agent's pipeline state, its current target and
 * its `waiting` flag. Positions are replaced by oracles: `near` is the set of
 * station points within InteractionDistance of the agent, and a position jump
 * of more than 1.0 per frame is a boolean. The completion of a wait interval
 * (WaitAtLocation's WaitForSeconds) is an explicit event.
 */
module AIControl {
  import opened Wrappers

  /** The four station points an agent can be sent to. */
  datatype Station = RawPoint | ProcessingPoint | ProcessedPoint | TrashPoint

  datatype AIState =
    | GoingToRawStorage | WaitingAtRawStorage
    | GoingToProcessingStorage | WaitingAtProcessingStorage
    | GoingToProcessedStorage | WaitingAtProcessedStorage
    | GoingToTrashStorage | WaitingAtTrashStorage

  predicate IsGoingTo(s: AIState) {
    s.GoingToRawStorage? || s.GoingToProcessingStorage? || s.GoingToProcessedStorage? || s.GoingToTrashStorage?
  }

  /** The station a state travels to or waits at. */
  function StationOf(s: AIState): Station {
    match s
    case GoingToRawStorage | WaitingAtRawStorage => RawPoint
    case GoingToProcessingStorage | WaitingAtProcessingStorage => ProcessingPoint
    case GoingToProcessedStorage | WaitingAtProcessedStorage => ProcessedPoint
    case GoingToTrashStorage | WaitingAtTrashStorage => TrashPoint
  }

  datatype Controller = Controller(state: AIState, target: Option<Station>, waiting: bool)

  /** Initialize (Awake): heading for raw storage, no target yet, not waiting. */
  function InitialController(): (c: Controller)
    ensures c.state == GoingToRawStorage && !c.waiting && c.target.None?
  {
    Controller(GoingToRawStorage, None, false)
  }

  /** ForceStopWaiting: clears `waiting` (and cancels the wait) when waiting, otherwise does nothing. */
  function ForceStopWaiting(c: Controller): (r: Controller)
    ensures !r.waiting
    ensures r.state == c.state && r.target == c.target
    ensures !c.waiting ==> r == c
  {
    if c.waiting then c.(waiting := false) else c
  }

  /** SetTarget: a null target is ignored. */
  function SetTarget(c: Controller, target: Option<Station>): (r: Controller)
    ensures target.None? ==> r == c
    ensures target.Some? ==> r.target == target
    ensures r.state == c.state && r.waiting == c.waiting
  {
    if target.None? then c else c.(target := target)
  }

  /** SetState: the new state, with any wait cancelled. */
  function SetState(c: Controller, s: AIState): (r: Controller)
    ensures r.state == s && !r.waiting && r.target == c.target
  {
    ForceStopWaiting(c.(state := s))
  }

  /** HasReachedDestination: false without a target, otherwise whether the target is within reach. */
  predicate HasReachedDestination(c: Controller, near: set<Station>) {
    c.target.Some? && c.target.value in near
  }

  /** CheckTargetReached (every frame): arriving at the target starts the idle wait. */
  function CheckTargetReached(c: Controller, near: set<Station>): (r: Controller)
    ensures r.waiting <==> c.waiting || (c.target.Some? && c.target.value in near)
    ensures r.state == c.state && r.target == c.target
  {
    if c.target.Some? && !c.waiting && HasReachedDestination(c, near) then c.(waiting := true) else c
  }

  /** CheckPositionChanged (every frame): a jump of more than 1.0 cancels the wait. */
  function CheckPositionChanged(c: Controller, jumped: bool): (r: Controller)
    ensures jumped ==> !r.waiting
    ensures !jumped ==> r == c
    ensures r.state == c.state && r.target == c.target
  {
    if jumped then ForceStopWaiting(c) else c
  }

  /** Update: the per-frame checks in source order. */
  function FrameUpdate(c: Controller, near: set<Station>, jumped: bool): (r: Controller)
    ensures r.state == c.state && r.target == c.target
    ensures r.waiting <==> !jumped && (c.waiting || HasReachedDestination(c, near))
  {
    CheckPositionChanged(CheckTargetReached(c, near), jumped)
  }

  /** A WaitAtLocation interval runs to completion. */
  function WaitElapsed(c: Controller): (r: Controller)
    ensures !r.waiting && r.state == c.state && r.target == c.target
  {
    c.(waiting := false)
  }

  // ---------------------------------------------------------------------------
  // Properties
  // ---------------------------------------------------------------------------

  /** ForceStopWaiting twice is ForceStopWaiting once. */
  lemma ForceStopWaitingIdempotent(c: Controller)
    ensures ForceStopWaiting(ForceStopWaiting(c)) == ForceStopWaiting(c)
  {
  }

  /** Without a target nothing is ever reached and no wait starts. */
  lemma NoTargetNoArrival(c: Controller, near: set<Station>)
    requires c.target.None?
    ensures !HasReachedDestination(c, near)
    ensures CheckTargetReached(c, near) == c
  {
  }

  /** A wait starts only when a target is set, the agent was not waiting, and the target is reached. */
  lemma WaitStartsOnlyOnArrival(c: Controller, near: set<Station>)
    requires !c.waiting && CheckTargetReached(c, near).waiting
    ensures c.target.Some? && HasReachedDestination(c, near)
  {
  }
}
