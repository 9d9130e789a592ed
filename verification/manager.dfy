/**
 * Game/AI/AIManager.cs: the orchestrator. Every 0.5 s it visits each
 * registered agent in registration order, runs the handler of the agent's
 * state, then runs stuck detection. Time is counted in half-second ticks, so
 * the source's float timers (always multiples of 0.5) are exact integers here:
 * 0.5 s = 1, 5 s = 10, 15 s = 30.
 *
 * Per agent, the source keeps parallel dictionaries; here they are one
 * Bookkeeping record carried with the agent. Inputs observed during a tick are
 * the agent's inventory count, the stations within reach, whether the agent
 * moved less than MinProgressDistance since the last check, and the item count
 * of the storage found at the processed point (None when none is found).
 */
module AIManagement {
  import opened Wrappers
  import opened AIControl

  const TickInterval: int := 1            // 0.5 s
  const StuckCheckDuration: int := 10     // 5 s
  const MaxWaitTimeAtStorage: int := 30   // 15 s
  const WaitTimeAfterTransfer: int := 1   // 0.5 s
  const MaxInventoryCapacity: int := 50

  /**
   * Per-agent bookkeeping: stuck timer, inventory count on arrival (baseline),
   * cycle item target, wait timer and last observed progress delta.
   */
  datatype Bookkeeping = Bookkeeping(stuckTimer: int, baseline: int, cycle: int, waitTimer: int, lastDelta: int)

  datatype Worker = Worker(id: nat, ctl: Controller, book: Bookkeeping)

  /** What a tick observes of one agent. */
  datatype Observation = Observation(count: int, near: set<Station>, stalled: bool)

  /** A handler's result; `restartWait` is the handler starting another WaitAtLocation(2 s). */
  datatype Handled = Handled(worker: Worker, restartWait: bool)

  /** The bookkeeping RegisterAI creates: everything zero. */
  const FreshBook: Bookkeeping := Bookkeeping(0, 0, 0, 0, 0)

  function Ids(roster: seq<Worker>): set<nat> {
    set i | 0 <= i < |roster| :: roster[i].id
  }

  ghost predicate DistinctIds(roster: seq<Worker>) {
    forall i, j | 0 <= i < j < |roster| :: roster[i].id != roster[j].id
  }

  /** RegisterAI: an agent already in the roster is ignored; otherwise it is appended with fresh bookkeeping. */
  function RegisterAI(roster: seq<Worker>, id: nat, ctl: Controller): (r: seq<Worker>)
    ensures id in Ids(roster) ==> r == roster
    ensures id !in Ids(roster) ==> r == roster + [Worker(id, ctl, FreshBook)]
    ensures DistinctIds(roster) ==> DistinctIds(r)
    ensures Ids(r) == Ids(roster) + {id}
  {
    if id in Ids(roster) then roster
    else
      var r := roster + [Worker(id, ctl, FreshBook)];
      assert r[|roster|].id == id;
      assert forall i | 0 <= i < |roster| :: r[i] == roster[i];
      assert Ids(r) == Ids(roster) + {id} by {
        forall x | x in Ids(roster) ensures x in Ids(r) {
          var i :| 0 <= i < |roster| && roster[i].id == x;
          assert r[i].id == x;
        }
      }
      r
  }

  // ---------------------------------------------------------------------------
  // The state cycle
  // ---------------------------------------------------------------------------

  /** The waiting state reached on arriving in a GoingTo state. */
  function ArrivalState(s: AIState): AIState
    requires IsGoingTo(s)
  {
    match s
    case GoingToRawStorage => WaitingAtRawStorage
    case GoingToProcessingStorage => WaitingAtProcessingStorage
    case GoingToProcessedStorage => WaitingAtProcessedStorage
    case GoingToTrashStorage => WaitingAtTrashStorage
  }

  /** The GoingTo state a waiting state normally advances to. */
  function AdvanceState(s: AIState): AIState
    requires !IsGoingTo(s)
  {
    match s
    case WaitingAtRawStorage => GoingToProcessingStorage
    case WaitingAtProcessingStorage => GoingToProcessedStorage
    case WaitingAtProcessedStorage => GoingToTrashStorage
    case WaitingAtTrashStorage => GoingToRawStorage
  }

  /**
   * The progress a waiting state measures from the inventory count: items
   * gained at raw, items handed off at processing and trash, items held at
   * processed.
   */
  function ProgressDelta(s: AIState, baseline: int, count: int): int {
    match s
    case WaitingAtRawStorage => count - baseline
    case WaitingAtProcessedStorage => count
    case _ => baseline - count
  }

  /** SetNextState: change state (which cancels any wait) and clear the wait timer. */
  function SetNextState(w: Worker, next: AIState): (r: Worker)
    ensures r.ctl.state == next && !r.ctl.waiting && r.ctl.target == w.ctl.target
    ensures r.book == w.book.(waitTimer := 0) && r.id == w.id
  {
    w.(ctl := SetState(w.ctl, next), book := w.book.(waitTimer := 0))
  }

  /** The wait-timer bookkeeping shared by the four waiting handlers. */
  function ObserveDelta(book: Bookkeeping, waiting: bool, delta: int): (r: Bookkeeping)
    ensures r.lastDelta == delta
    ensures delta != book.lastDelta ==> r.waitTimer == 0
    ensures delta == book.lastDelta ==> r.waitTimer == book.waitTimer + (if waiting then TickInterval else 0)
    ensures r.stuckTimer == book.stuckTimer && r.baseline == book.baseline && r.cycle == book.cycle
  {
    var timed := if waiting then book.(waitTimer := book.waitTimer + TickInterval) else book;
    if delta != book.lastDelta then timed.(lastDelta := delta, waitTimer := 0) else timed
  }

  // ---------------------------------------------------------------------------
  // Handlers
  // ---------------------------------------------------------------------------

  /**
   * The four GoingTo handlers (identical up to the station): re-assert the
   * target and, once it is reached and the agent is waiting, switch to the
   * waiting state with the inventory count as baseline and delta zero.
   */
  function HandleGoingTo(w: Worker, obs: Observation, s: AIState): (r: Handled)
    requires IsGoingTo(s)
    ensures w.ctl.state != s ==> r == Handled(w, false)
    ensures !r.restartWait && r.worker.id == w.id
    ensures w.ctl.state == s ==>
              r.worker.ctl.target == Some(StationOf(s))
              && (r.worker.ctl.state == ArrivalState(s) <==> StationOf(s) in obs.near && w.ctl.waiting)
              && (r.worker.ctl.state != ArrivalState(s) ==>
                    r.worker.ctl.state == s && r.worker.book == w.book && r.worker.ctl.waiting == w.ctl.waiting)
              && (r.worker.ctl.state == ArrivalState(s) ==>
                    r.worker.book == w.book.(baseline := obs.count, lastDelta := 0, waitTimer := 0)
                    && !r.worker.ctl.waiting)
  {
    if w.ctl.state != s then Handled(w, false)
    else
      var aimed := w.(ctl := SetTarget(w.ctl, Some(StationOf(s))));
      if HasReachedDestination(aimed.ctl, obs.near) && aimed.ctl.waiting then
        var arrived := SetNextState(aimed, ArrivalState(s));
        Handled(arrived.(book := arrived.book.(baseline := obs.count, lastDelta := 0)), false)
      else Handled(aimed, false)
  }

  /** HandleWaitingAtRawStorage. */
  function HandleWaitingAtRaw(w: Worker, obs: Observation): (r: Handled)
    ensures w.ctl.state != WaitingAtRawStorage ==> r == Handled(w, false)
    ensures r.worker.id == w.id && r.worker.book.baseline == w.book.baseline
  {
    if w.ctl.state != WaitingAtRawStorage then Handled(w, false)
    else
      var collected := obs.count - w.book.baseline;
      var book := ObserveDelta(w.book, w.ctl.waiting, collected);
      if obs.count >= MaxInventoryCapacity
         || (collected > 0 && book.waitTimer >= WaitTimeAfterTransfer && w.ctl.waiting) then
        Handled(SetNextState(w.(book := book.(cycle := collected)), GoingToProcessingStorage), false)
      else if book.waitTimer >= MaxWaitTimeAtStorage then
        Handled(SetNextState(w.(book := book.(cycle := if collected > 1 then collected else 1)),
                             GoingToProcessingStorage), false)
      else
        Handled(w.(book := book), w.ctl.waiting && collected <= 0)
  }

  /** HandleWaitingAtProcessingStorage; `processed` is the processed storage's count, if one is found. */
  function HandleWaitingAtProcessing(w: Worker, obs: Observation, processed: Option<int>): (r: Handled)
    ensures w.ctl.state != WaitingAtProcessingStorage ==> r == Handled(w, false)
    ensures r.worker.id == w.id && r.worker.book.baseline == w.book.baseline
    ensures r.worker.book.cycle == w.book.cycle
  {
    if w.ctl.state != WaitingAtProcessingStorage then Handled(w, false)
    else
      var handed := w.book.baseline - obs.count;
      var book := ObserveDelta(w.book, w.ctl.waiting, handed);
      if processed.Some? && processed.value <= 0 && w.book.baseline <= 0 then
        Handled(SetNextState(w.(book := book), GoingToRawStorage), false)
      else if obs.count <= 0
              || (handed >= w.book.cycle && book.waitTimer >= WaitTimeAfterTransfer && !w.ctl.waiting) then
        Handled(SetNextState(w.(book := book), GoingToProcessedStorage), false)
      else if book.waitTimer >= MaxWaitTimeAtStorage then
        Handled(SetNextState(w.(book := book), GoingToProcessedStorage), false)
      else
        Handled(w.(book := book), w.ctl.waiting && handed < w.book.cycle)
  }

  /** HandleWaitingAtProcessedStorage. */
  function HandleWaitingAtProcessed(w: Worker, obs: Observation, processed: Option<int>): (r: Handled)
    ensures w.ctl.state != WaitingAtProcessedStorage ==> r == Handled(w, false)
    ensures r.worker.id == w.id && r.worker.book.baseline == w.book.baseline
  {
    if w.ctl.state != WaitingAtProcessedStorage then Handled(w, false)
    else
      var collected := obs.count;
      var book := ObserveDelta(w.book, w.ctl.waiting, collected);
      if processed.Some? && processed.value <= 0 && collected <= 0 then
        Handled(SetNextState(w.(book := book), GoingToRawStorage), false)
      else if collected > 0 && collected < w.book.cycle && processed.Some? && processed.value <= 0 then
        Handled(SetNextState(w.(book := book.(cycle := collected)), GoingToTrashStorage), false)
      else if obs.count >= MaxInventoryCapacity
              || (collected >= w.book.cycle && book.waitTimer >= WaitTimeAfterTransfer && w.ctl.waiting) then
        Handled(SetNextState(w.(book := book), GoingToTrashStorage), false)
      else if book.waitTimer >= MaxWaitTimeAtStorage then
        Handled(SetNextState(w.(book := book), GoingToTrashStorage), false)
      else
        Handled(w.(book := book), w.ctl.waiting && collected < w.book.cycle)
  }

  /** HandleWaitingAtTrashStorage. */
  function HandleWaitingAtTrash(w: Worker, obs: Observation): (r: Handled)
    ensures w.ctl.state != WaitingAtTrashStorage ==> r == Handled(w, false)
    ensures r.worker.id == w.id && r.worker.book.baseline == w.book.baseline
    ensures r.worker.book.cycle == w.book.cycle
  {
    if w.ctl.state != WaitingAtTrashStorage then Handled(w, false)
    else
      var disposed := w.book.baseline - obs.count;
      var book := ObserveDelta(w.book, w.ctl.waiting, disposed);
      if obs.count <= 0
         || (disposed >= w.book.cycle && book.waitTimer >= WaitTimeAfterTransfer && w.ctl.waiting) then
        Handled(SetNextState(w.(book := book), GoingToRawStorage), false)
      else if book.waitTimer >= MaxWaitTimeAtStorage then
        Handled(SetNextState(w.(book := book), GoingToRawStorage), false)
      else
        Handled(w.(book := book), w.ctl.waiting && disposed < w.book.cycle)
  }

  /** UpdateAIState: dispatch on the agent's state. */
  function UpdateAIState(w: Worker, obs: Observation, processed: Option<int>): (r: Handled)
    ensures r.worker.id == w.id
  {
    match w.ctl.state
    case GoingToRawStorage => HandleGoingTo(w, obs, GoingToRawStorage)
    case WaitingAtRawStorage => HandleWaitingAtRaw(w, obs)
    case GoingToProcessingStorage => HandleGoingTo(w, obs, GoingToProcessingStorage)
    case WaitingAtProcessingStorage => HandleWaitingAtProcessing(w, obs, processed)
    case GoingToProcessedStorage => HandleGoingTo(w, obs, GoingToProcessedStorage)
    case WaitingAtProcessedStorage => HandleWaitingAtProcessed(w, obs, processed)
    case GoingToTrashStorage => HandleGoingTo(w, obs, GoingToTrashStorage)
    case WaitingAtTrashStorage => HandleWaitingAtTrash(w, obs)
  }

  // ---------------------------------------------------------------------------
  // Stuck detection
  // ---------------------------------------------------------------------------

  /** ForceResetState: re-issue the same GoingTo state with its station as target. */
  function ForceResetState(w: Worker): (r: Worker)
    requires IsGoingTo(w.ctl.state)
    ensures r.ctl == Controller(w.ctl.state, Some(StationOf(w.ctl.state)), false)
    ensures r.book == w.book && r.id == w.id
  {
    w.(ctl := SetTarget(SetState(w.ctl, w.ctl.state), Some(StationOf(w.ctl.state))))
  }

  /** CheckIfStuck; `stalled` is "moved less than MinProgressDistance since the last check". */
  function CheckIfStuck(w: Worker, stalled: bool): (r: Worker)
    ensures r.ctl.state == w.ctl.state && r.id == w.id
    ensures r.book == w.book.(stuckTimer := r.book.stuckTimer)
    ensures w.ctl.waiting || !IsGoingTo(w.ctl.state) || !stalled ==> r.book.stuckTimer == 0 && r.ctl == w.ctl
    ensures !w.ctl.waiting && IsGoingTo(w.ctl.state) && stalled ==>
              if w.book.stuckTimer + TickInterval >= StuckCheckDuration
              then r.book.stuckTimer == 0 && r.ctl == Controller(w.ctl.state, Some(StationOf(w.ctl.state)), false)
              else r.book.stuckTimer == w.book.stuckTimer + TickInterval && r.ctl == w.ctl
  {
    if w.ctl.waiting then w.(book := w.book.(stuckTimer := 0))
    else if IsGoingTo(w.ctl.state) then
      if stalled then
        var timer := w.book.stuckTimer + TickInterval;
        if timer >= StuckCheckDuration then
          var reset := ForceResetState(w);
          reset.(book := reset.book.(stuckTimer := 0))
        else w.(book := w.book.(stuckTimer := timer))
      else w.(book := w.book.(stuckTimer := 0))
    else w.(book := w.book.(stuckTimer := 0))
  }

  /** One agent's share of a tick: its state handler, then stuck detection. */
  function TickWorker(w: Worker, obs: Observation, processed: Option<int>): (r: Handled)
    ensures r.worker.id == w.id
  {
    var handled := UpdateAIState(w, obs, processed);
    Handled(CheckIfStuck(handled.worker, obs.stalled), handled.restartWait)
  }

  // ---------------------------------------------------------------------------
  // Invariants
  // ---------------------------------------------------------------------------

  /**
   * Timers stay in range: the wait timer below 15 s and zero while travelling,
   * the stuck timer below 5 s.
   */
  ghost predicate WorkerInv(w: Worker) {
    && 0 <= w.book.waitTimer < MaxWaitTimeAtStorage
    && 0 <= w.book.stuckTimer < StuckCheckDuration
    && (IsGoingTo(w.ctl.state) ==> w.book.waitTimer == 0)
  }

  lemma FreshWorkerInv(id: nat, ctl: Controller)
    ensures WorkerInv(Worker(id, ctl, FreshBook))
  {
  }

  lemma UpdateKeepsWorkerInv(w: Worker, obs: Observation, processed: Option<int>)
    requires WorkerInv(w)
    ensures WorkerInv(UpdateAIState(w, obs, processed).worker)
  {
  }

  lemma TickWorkerKeepsWorkerInv(w: Worker, obs: Observation, processed: Option<int>)
    requires WorkerInv(w)
    ensures WorkerInv(TickWorker(w, obs, processed).worker)
  {
    UpdateKeepsWorkerInv(w, obs, processed);
  }

  /** The agent's own per-frame updates and wait completions never touch state or bookkeeping. */
  lemma ControllerEventsKeepWorkerInv(w: Worker, near: set<Station>, jumped: bool)
    requires WorkerInv(w)
    ensures WorkerInv(w.(ctl := FrameUpdate(w.ctl, near, jumped)))
    ensures WorkerInv(w.(ctl := WaitElapsed(w.ctl)))
  {
  }

  // ---------------------------------------------------------------------------
  // The tick loop
  // ---------------------------------------------------------------------------

  /**
   * One pass of ManageAI: every registered agent is visited exactly once, in
   * registration order; the roster's identities and the timer invariant are kept.
   */
  method Tick(roster: seq<Worker>, obs: seq<Observation>, processed: Option<int>)
    returns (next: seq<Worker>, restarts: seq<bool>)
    requires |obs| == |roster|
    ensures |next| == |roster| && |restarts| == |roster|
    ensures forall i | 0 <= i < |roster| ::
              next[i] == TickWorker(roster[i], obs[i], processed).worker
              && restarts[i] == TickWorker(roster[i], obs[i], processed).restartWait
    ensures forall i | 0 <= i < |roster| :: next[i].id == roster[i].id
    ensures (forall i | 0 <= i < |roster| :: WorkerInv(roster[i])) ==> forall i | 0 <= i < |next| :: WorkerInv(next[i])
  {
    next := [];
    restarts := [];
    var k := 0;
    while k < |roster|
      invariant 0 <= k <= |roster|
      invariant |next| == k && |restarts| == k
      invariant forall i | 0 <= i < k ::
                  next[i] == TickWorker(roster[i], obs[i], processed).worker
                  && restarts[i] == TickWorker(roster[i], obs[i], processed).restartWait
    {
      var h := TickWorker(roster[k], obs[k], processed);
      next := next + [h.worker];
      restarts := restarts + [h.restartWait];
      k := k + 1;
    }
    if forall i | 0 <= i < |roster| :: WorkerInv(roster[i]) {
      forall i | 0 <= i < |next|
        ensures WorkerInv(next[i])
      {
        TickWorkerKeepsWorkerInv(roster[i], obs[i], processed);
      }
    }
  }

  // ---------------------------------------------------------------------------
  // Transition properties
  // ---------------------------------------------------------------------------

  /** Each handler is a no-op for an agent in another state. */
  lemma HandlersAreGuarded(w: Worker, obs: Observation, processed: Option<int>, s: AIState)
    requires IsGoingTo(s) && w.ctl.state != s
    ensures HandleGoingTo(w, obs, s) == Handled(w, false)
    ensures w.ctl.state != WaitingAtRawStorage ==> HandleWaitingAtRaw(w, obs) == Handled(w, false)
    ensures w.ctl.state != WaitingAtProcessingStorage ==> HandleWaitingAtProcessing(w, obs, processed) == Handled(w, false)
    ensures w.ctl.state != WaitingAtProcessedStorage ==> HandleWaitingAtProcessed(w, obs, processed) == Handled(w, false)
    ensures w.ctl.state != WaitingAtTrashStorage ==> HandleWaitingAtTrash(w, obs) == Handled(w, false)
  {
  }

  /**
   * Leaving raw storage: on a full inventory or settled progress the cycle
   * target is the number gained; on the 15 s timeout it is max(1, gained).
   */
  lemma RawExitSetsCycle(w: Worker, obs: Observation, processed: Option<int>)
    requires w.ctl.state == WaitingAtRawStorage
    ensures var r := UpdateAIState(w, obs, processed).worker;
            var gained := obs.count - w.book.baseline;
            var book := ObserveDelta(w.book, w.ctl.waiting, gained);
            && (r.ctl.state == GoingToProcessingStorage <==>
                  obs.count >= MaxInventoryCapacity
                  || (gained > 0 && book.waitTimer >= WaitTimeAfterTransfer && w.ctl.waiting)
                  || book.waitTimer >= MaxWaitTimeAtStorage)
            && (r.ctl.state != GoingToProcessingStorage ==> r.ctl.state == WaitingAtRawStorage && r.book.cycle == w.book.cycle)
            && (obs.count >= MaxInventoryCapacity || (gained > 0 && book.waitTimer >= WaitTimeAfterTransfer && w.ctl.waiting)
                ==> r.book.cycle == gained)
            && (!(obs.count >= MaxInventoryCapacity || (gained > 0 && book.waitTimer >= WaitTimeAfterTransfer && w.ctl.waiting))
                && book.waitTimer >= MaxWaitTimeAtStorage
                ==> r.book.cycle == (if gained > 1 then gained else 1))
    ensures UpdateAIState(w, obs, processed).restartWait <==>
              UpdateAIState(w, obs, processed).worker.ctl.state == WaitingAtRawStorage
              && w.ctl.waiting && obs.count - w.book.baseline <= 0
  {
  }

  /**
   * Leaving processing storage (unless the empty-processed short cut applies):
   * on an empty inventory, on settled progress with the agent NOT waiting, or
   * after 15 s. Staying re-arms the 2 s wait while short of the target.
   */
  lemma ProcessingExit(w: Worker, obs: Observation, processed: Option<int>)
    requires w.ctl.state == WaitingAtProcessingStorage
    requires !(processed.Some? && processed.value <= 0 && w.book.baseline <= 0)
    ensures var h := UpdateAIState(w, obs, processed);
            var handed := w.book.baseline - obs.count;
            var book := ObserveDelta(w.book, w.ctl.waiting, handed);
            && (h.worker.ctl.state == GoingToProcessedStorage <==>
                  obs.count <= 0
                  || (handed >= w.book.cycle && book.waitTimer >= WaitTimeAfterTransfer && !w.ctl.waiting)
                  || book.waitTimer >= MaxWaitTimeAtStorage)
            && (h.worker.ctl.state != GoingToProcessedStorage ==> h.worker.ctl.state == WaitingAtProcessingStorage)
            && (h.restartWait <==>
                  h.worker.ctl.state == WaitingAtProcessingStorage && w.ctl.waiting && handed < w.book.cycle)
  {
  }

  /**
   * Leaving processed storage: back to raw when both the processed storage and
   * the inventory are empty; otherwise to trash on a partial batch, a full
   * inventory, settled progress while waiting, or after 15 s.
   */
  lemma ProcessedExit(w: Worker, obs: Observation, processed: Option<int>)
    requires w.ctl.state == WaitingAtProcessedStorage
    ensures var h := UpdateAIState(w, obs, processed);
            var empty := processed.Some? && processed.value <= 0;
            var book := ObserveDelta(w.book, w.ctl.waiting, obs.count);
            && (h.worker.ctl.state == GoingToRawStorage <==> empty && obs.count <= 0)
            && (h.worker.ctl.state == GoingToTrashStorage <==>
                  !(empty && obs.count <= 0)
                  && ((empty && 0 < obs.count < w.book.cycle)
                      || obs.count >= MaxInventoryCapacity
                      || (obs.count >= w.book.cycle && book.waitTimer >= WaitTimeAfterTransfer && w.ctl.waiting)
                      || book.waitTimer >= MaxWaitTimeAtStorage))
            && (h.worker.ctl.state != GoingToRawStorage && h.worker.ctl.state != GoingToTrashStorage ==>
                  h.worker.ctl.state == WaitingAtProcessedStorage)
            && (h.restartWait <==>
                  h.worker.ctl.state == WaitingAtProcessedStorage && w.ctl.waiting && obs.count < w.book.cycle)
  {
  }

  /**
   * Leaving trash storage for raw: on an empty inventory, on settled progress
   * while waiting, or after 15 s. Staying re-arms the 2 s wait while short of
   * the target.
   */
  lemma TrashExit(w: Worker, obs: Observation, processed: Option<int>)
    requires w.ctl.state == WaitingAtTrashStorage
    ensures var h := UpdateAIState(w, obs, processed);
            var disposed := w.book.baseline - obs.count;
            var book := ObserveDelta(w.book, w.ctl.waiting, disposed);
            && (h.worker.ctl.state == GoingToRawStorage <==>
                  obs.count <= 0
                  || (disposed >= w.book.cycle && book.waitTimer >= WaitTimeAfterTransfer && w.ctl.waiting)
                  || book.waitTimer >= MaxWaitTimeAtStorage)
            && (h.worker.ctl.state != GoingToRawStorage ==> h.worker.ctl.state == WaitingAtTrashStorage)
            && (h.restartWait <==>
                  h.worker.ctl.state == WaitingAtTrashStorage && w.ctl.waiting && disposed < w.book.cycle)
  {
  }

  /**
   * The cycle target changes only when leaving raw storage, or by the
   * processed partial-batch rule (0 < collected < target with the processed
   * storage empty), which shrinks it to the number collected.
   */
  lemma CycleTargetChangesOnlyAtRawExitOrPartialBatch(w: Worker, obs: Observation, processed: Option<int>)
    requires UpdateAIState(w, obs, processed).worker.book.cycle != w.book.cycle
    ensures var r := UpdateAIState(w, obs, processed).worker;
            || (w.ctl.state == WaitingAtRawStorage && r.ctl.state == GoingToProcessingStorage)
            || (w.ctl.state == WaitingAtProcessedStorage && r.ctl.state == GoingToTrashStorage
                && processed.Some? && processed.value <= 0
                && 0 < obs.count < w.book.cycle && r.book.cycle == obs.count)
  {
  }

  /**
   * Short cut back to raw storage: with an empty processed storage, an agent
   * that arrived at processing with nothing, or holds nothing at processed,
   * heads straight back to raw storage.
   */
  lemma EmptyProcessedShortCut(w: Worker, obs: Observation, n: int)
    requires n <= 0
    requires (w.ctl.state == WaitingAtProcessingStorage && w.book.baseline <= 0)
             || (w.ctl.state == WaitingAtProcessedStorage && obs.count <= 0)
    ensures var r := UpdateAIState(w, obs, Some(n)).worker;
            r.ctl.state == GoingToRawStorage && !r.ctl.waiting && r.book.waitTimer == 0
            && r.book.cycle == w.book.cycle
  {
  }

  /**
   * Progress rule: an agent that has moved items and whose delta has stopped
   * changing advances on the next tick, once its wait timer is running.
   * Raw, processed and trash require the agent to be waiting; processing, as
   * written in the source, requires it NOT to be waiting.
   */
  lemma SettledProgressAdvances(w: Worker, obs: Observation, processed: Option<int>)
    requires !IsGoingTo(w.ctl.state) && w.book.waitTimer >= 0
    requires ProgressDelta(w.ctl.state, w.book.baseline, obs.count) == w.book.lastDelta
    requires w.ctl.state == WaitingAtRawStorage ==> w.ctl.waiting && obs.count - w.book.baseline > 0
    requires w.ctl.state == WaitingAtProcessingStorage ==>
               !w.ctl.waiting && w.book.waitTimer >= WaitTimeAfterTransfer && w.book.baseline - obs.count >= w.book.cycle
    requires w.ctl.state == WaitingAtProcessedStorage ==> w.ctl.waiting && obs.count >= w.book.cycle
    requires w.ctl.state == WaitingAtTrashStorage ==> w.ctl.waiting && w.book.baseline - obs.count >= w.book.cycle
    ensures IsGoingTo(UpdateAIState(w, obs, processed).worker.ctl.state)
  {
  }

  /** While the delta keeps changing (and the inventory is not full), an agent never leaves raw storage. */
  lemma ChangingDeltaHoldsAgentAtRaw(w: Worker, obs: Observation, processed: Option<int>)
    requires w.ctl.state == WaitingAtRawStorage && obs.count < MaxInventoryCapacity
    requires obs.count - w.book.baseline != w.book.lastDelta
    ensures var r := UpdateAIState(w, obs, processed).worker;
            r.ctl.state == WaitingAtRawStorage && r.book.waitTimer == 0 && r.book.lastDelta == obs.count - w.book.baseline
  {
  }

  /** The processing timeout advances without touching the cycle target (no max(1, …) there). */
  lemma ProcessingTimeoutKeepsCycle(w: Worker, obs: Observation, processed: Option<int>)
    requires w.ctl.state == WaitingAtProcessingStorage && WorkerInv(w)
    requires w.ctl.waiting && w.book.waitTimer == MaxWaitTimeAtStorage - 1
    requires w.book.baseline - obs.count == w.book.lastDelta
    ensures var r := UpdateAIState(w, obs, processed).worker;
            IsGoingTo(r.ctl.state) && r.book.cycle == w.book.cycle
  {
  }

  /** Stuck detection never changes the pipeline state, and zeroes the timer when not travelling or waiting. */
  lemma StuckDetectionKeepsState(w: Worker, stalled: bool)
    ensures CheckIfStuck(w, stalled).ctl.state == w.ctl.state
    ensures w.ctl.waiting || !IsGoingTo(w.ctl.state) ==> CheckIfStuck(w, stalled).book.stuckTimer == 0
    ensures CheckIfStuck(w, stalled).book.stuckTimer < StuckCheckDuration
  {
  }

  /** An agent stalled on its way for the full 5 s is re-sent to its station within that tick. */
  lemma StalledAgentIsRetargeted(w: Worker, obs: Observation, processed: Option<int>)
    requires IsGoingTo(w.ctl.state) && !w.ctl.waiting && obs.stalled
    requires w.book.stuckTimer == StuckCheckDuration - 1
    ensures var r := TickWorker(w, obs, processed).worker;
            r.ctl == Controller(w.ctl.state, Some(StationOf(w.ctl.state)), false) && r.book.stuckTimer == 0
  {
  }

  // ---------------------------------------------------------------------------
  // Liveness of waiting
  // ---------------------------------------------------------------------------

  /** Runs the state handler up to `n` times on the same observation, stopping once the state changes. */
  function HandleUntilStateChanges(w: Worker, obs: Observation, processed: Option<int>, n: nat): Worker
    decreases n
  {
    if n == 0 then w
    else
      var w' := UpdateAIState(w, obs, processed).worker;
      if w'.ctl.state != w.ctl.state then w' else HandleUntilStateChanges(w', obs, processed, n - 1)
  }

  /**
   * One tick with unchanged progress at a waiting station: the agent either
   * leaves or stays waiting with the wait timer one tick further.
   */
  lemma WaitingTickAdvancesTimer(w: Worker, obs: Observation, processed: Option<int>)
    requires !IsGoingTo(w.ctl.state) && w.ctl.waiting && WorkerInv(w)
    requires ProgressDelta(w.ctl.state, w.book.baseline, obs.count) == w.book.lastDelta
    ensures var r := UpdateAIState(w, obs, processed).worker;
            r.ctl.state != w.ctl.state
            || (r.ctl.waiting && r.book.waitTimer == w.book.waitTimer + TickInterval
                && r.book.baseline == w.book.baseline && r.book.lastDelta == w.book.lastDelta && WorkerInv(r))
  {
  }

  /**
   * Forced advancement, under stated premises: the agent is still waiting at
   * every tick (no WaitAtLocation ends between ticks, no frame cancels the
   * wait) and every tick sees the same counts. Then it leaves the station
   * within the remaining 15 s of its wait timer. The source gives no bound
   * without these premises: the wait timer only advances on ticks that see
   * the agent waiting, and a wait that ends is not always restarted.
   */
  lemma {:induction false} WaitingWithoutProgressLeaves(w: Worker, obs: Observation, processed: Option<int>, n: nat)
    requires !IsGoingTo(w.ctl.state) && w.ctl.waiting && WorkerInv(w)
    requires ProgressDelta(w.ctl.state, w.book.baseline, obs.count) == w.book.lastDelta
    requires n >= MaxWaitTimeAtStorage - w.book.waitTimer
    ensures HandleUntilStateChanges(w, obs, processed, n).ctl.state != w.ctl.state
    decreases n
  {
    var w' := UpdateAIState(w, obs, processed).worker;
    WaitingTickAdvancesTimer(w, obs, processed);
    if w'.ctl.state == w.ctl.state {
      WaitingWithoutProgressLeaves(w', obs, processed, n - 1);
    }
  }
}
