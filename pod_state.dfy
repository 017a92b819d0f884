/** The pod-state reconciliation engine of `src/runpod_state.rs`: the value
    types, the persisted aggregate `RunPodState`, and `reconcile`, which
    folds a remote observation into the state, lets the auto-terminate policy
    override the target, and picks the one next action from an exhaustive
    decision table.

    The pure part is given as functions over `StateRecord`, the plain value
    that the aggregate holds and that the store persists; the class
    `RunPodState` performs the same steps by assigning its fields, and each of
    its methods is proved to leave the fields as the functions say. */
module PodState {
  import opened Wrappers
  import opened Ints
  import Text

  /** `STATE_FORMAT_VERSION` */
  const STATE_FORMAT_VERSION: U32 := 1

  /** The remote `desiredStatus` of a pod. */
  datatype PodDesiredStatus = Running | Exited | Terminated {
    /** `is_terminal`: only `Terminated` means the pod no longer exists. */
    predicate IsTerminal() {
      this == PodDesiredStatus.Terminated
    }
  }

  /** What the local owner wants; `Running` is the default. */
  datatype TargetStatus = Running | Exited | Terminated

  /** The identifier the remote service assigned. */
  datatype PodId = PodId(raw: string)

  /** The last confirmed remote read, replaced wholesale on each `Found`. */
  datatype RemotePodSnapshot = RemotePodSnapshot(
    id: PodId,
    name: string,
    desiredStatus: PodDesiredStatus,
    observedAtMs: U64)

  /** The outcome of one probe; `Unknown` carries no information. */
  datatype RemoteObservation = Found(snapshot: RemotePodSnapshot) | NotFound | Unknown

  datatype PlannedAction =
    | Noop
    | CreatePod(name: string)
    | StartPod(id: PodId)
    | StopPod(id: PodId)
    | TerminatePod(id: PodId)
  {
    /** The pod the action operates on, for the three actions that name one. */
    predicate NamesPod() {
      StartPod? || StopPod? || TerminatePod?
    }
  }

  datatype StatePolicy = StatePolicy(
    reuseExitedPod: bool,
    autoTerminateAfterExitedMs: Option<U64>)

  /** `StatePolicy::default`: reuse exited pods, never auto-terminate. */
  const DEFAULT_POLICY: StatePolicy := StatePolicy(true, None)

  /** The fields of `RunPodState`, as one value. */
  datatype StateRecord = StateRecord(
    formatVersion: U32,
    podName: string,
    podId: Option<PodId>,
    target: TargetStatus,
    lastRemote: Option<RemotePodSnapshot>,
    lastUpdatedMs: U64,
    policy: StatePolicy)

  /** `RunPodState::new`. */
  function NewRecord(podName: string, nowMs: U64): StateRecord {
    StateRecord(STATE_FORMAT_VERSION, podName, None, TargetStatus.Running, None, nowMs, DEFAULT_POLICY)
  }

  // ---------------------------------------------------------------------
  // reconcile, phase by phase
  // ---------------------------------------------------------------------

  /** The state after phase 1 and the effective remote status of this round. */
  datatype Assimilation = Assimilation(state: StateRecord, status: Option<PodDesiredStatus>)

  /** Phase 1: fold the observation into the state. */
  function Assimilate(s: StateRecord, o: RemoteObservation): Assimilation {
    match o
    case Found(snapshot) =>
      Assimilation(s.(podId := Some(snapshot.id), lastRemote := Some(snapshot)), Some(snapshot.desiredStatus))
    case NotFound =>
      Assimilation(s.(lastRemote := None), None)
    case Unknown =>
      Assimilation(s, if s.lastRemote.Some? then Some(s.lastRemote.value.desiredStatus) else None)
  }

  /** The auto-terminate condition of phase 2: a threshold is configured, the
      last snapshot says `Exited`, and at least that long has passed since it
      was observed (a clock that went backwards counts as no time). */
  predicate AutoTerminateDue(policy: StatePolicy, lastRemote: Option<RemotePodSnapshot>, nowMs: U64) {
    && policy.autoTerminateAfterExitedMs.Some?
    && lastRemote.Some?
    && lastRemote.value.desiredStatus == PodDesiredStatus.Exited
    && SaturatingSub(nowMs, lastRemote.value.observedAtMs) >= policy.autoTerminateAfterExitedMs.value
  }

  /** Phase 2: the policy may only force the target to `Terminated`. */
  function ApplyPolicy(s: StateRecord, nowMs: U64): StateRecord {
    if AutoTerminateDue(s.policy, s.lastRemote, nowMs) then s.(target := TargetStatus.Terminated) else s
  }

  /** The observed status is the one the target asks for. */
  predicate TargetMet(target: TargetStatus, st: PodDesiredStatus) {
    match target
    case Running => st == PodDesiredStatus.Running
    case Exited => st == PodDesiredStatus.Exited
    case Terminated => st == PodDesiredStatus.Terminated
  }

  /** Phase 3: the decision table of `reconcile`, case by case as the source's
      `match` has it, with no default case. The rows are characterised one by
      one, each as an if-and-only-if; every action that names a pod names the
      state's `pod_id`. */
  function Decide(
    target: TargetStatus,
    status: Option<PodDesiredStatus>,
    podId: Option<PodId>,
    podName: string,
    reuseExitedPod: bool): (a: PlannedAction)
    ensures a == Noop <==>
              (status.Some? && TargetMet(target, status.value))
              || (target == TargetStatus.Terminated && status.None?)
    ensures a.CreatePod? <==>
              (target != TargetStatus.Terminated && (status.None? || status == Some(PodDesiredStatus.Terminated)))
              || (status.Some? && status.value != PodDesiredStatus.Terminated
                  && !TargetMet(target, status.value) && podId.None?)
              || (target == TargetStatus.Running && status == Some(PodDesiredStatus.Exited)
                  && podId.Some? && !reuseExitedPod)
    ensures a.CreatePod? ==> a.name == podName
    ensures a.StartPod? <==>
              (target == TargetStatus.Running && status == Some(PodDesiredStatus.Exited)
               && podId.Some? && reuseExitedPod)
    ensures a.StopPod? <==>
              (target == TargetStatus.Exited && status == Some(PodDesiredStatus.Running) && podId.Some?)
    ensures a.TerminatePod? <==>
              (target == TargetStatus.Terminated && podId.Some?
               && (status == Some(PodDesiredStatus.Running) || status == Some(PodDesiredStatus.Exited)))
    ensures a.NamesPod() ==> podId == Some(a.id)
  {
    match (target, status, podId)
    // Noop
    case (Terminated, None, _) => Noop
    case (Terminated, Some(Terminated), _) => Noop
    case (Running, Some(Running), _) => Noop
    case (Exited, Some(Exited), _) => Noop
    // CreatePod
    case (Running, None, _) => CreatePod(podName)
    case (Running, Some(Terminated), _) => CreatePod(podName)
    case (Exited, None, _) => CreatePod(podName)
    case (Exited, Some(Terminated), _) => CreatePod(podName)
    case (_, Some(_), None) => CreatePod(podName)
    // StartPod or CreatePod
    case (Running, Some(Exited), Some(id)) => if reuseExitedPod then StartPod(id) else CreatePod(podName)
    // StopPod
    case (Exited, Some(Running), Some(id)) => StopPod(id)
    // TerminatePod
    case (Terminated, Some(Running), Some(id)) => TerminatePod(id)
    case (Terminated, Some(Exited), Some(id)) => TerminatePod(id)
  }

  /** The new state and the planned action of one `reconcile`. */
  datatype Reconciliation = Reconciliation(state: StateRecord, action: PlannedAction)

  /** `reconcile(observation, now_ms)` on the state value: stamp the time,
      assimilate, apply the policy, decide. */
  function ReconcileStep(s: StateRecord, o: RemoteObservation, nowMs: U64): Reconciliation {
    var a := Assimilate(s.(lastUpdatedMs := nowMs), o);
    var s' := ApplyPolicy(a.state, nowMs);
    Reconciliation(s', Decide(s'.target, a.status, s'.podId, s'.podName, s'.policy.reuseExitedPod))
  }

  // ---------------------------------------------------------------------
  // Properties of reconcile
  // ---------------------------------------------------------------------

  /** What phase 1 does with each kind of observation, and what it never
      touches. */
  lemma ReconcileAssimilates(s: StateRecord, o: RemoteObservation, nowMs: U64)
    ensures var r := ReconcileStep(s, o, nowMs).state;
            && r.lastUpdatedMs == nowMs
            && r.formatVersion == s.formatVersion
            && r.podName == s.podName
            && r.policy == s.policy
            && match o
               case Found(snap) =>
                 r.podId == Some(snap.id) && r.lastRemote == Some(snap)
                 && Assimilate(s.(lastUpdatedMs := nowMs), o).status == Some(snap.desiredStatus)
               case NotFound =>
                 r.podId == s.podId && r.lastRemote.None?
                 && Assimilate(s.(lastUpdatedMs := nowMs), o).status.None?
               case Unknown =>
                 r.podId == s.podId && r.lastRemote == s.lastRemote
                 && Assimilate(s.(lastUpdatedMs := nowMs), o).status
                    == (if s.lastRemote.Some? then Some(s.lastRemote.value.desiredStatus) else None)
  {
  }

  /** The policy only ever rewrites the target to `Terminated`, and does so
      exactly when the auto-terminate condition holds for the snapshot left
      by phase 1. */
  lemma ReconcilePolicyOverride(s: StateRecord, o: RemoteObservation, nowMs: U64)
    ensures var r := ReconcileStep(s, o, nowMs).state;
            && (r.target == s.target || r.target == TargetStatus.Terminated)
            && (AutoTerminateDue(s.policy, r.lastRemote, nowMs) ==> r.target == TargetStatus.Terminated)
            && (!AutoTerminateDue(s.policy, r.lastRemote, nowMs) ==> r.target == s.target)
  {
  }

  /** A terminal status decides exactly as an absent one: `Terminated` and
      `NotFound` both read as "the pod is gone". */
  lemma TerminalStatusActsAsAbsent(
    target: TargetStatus, st: PodDesiredStatus, podId: Option<PodId>, podName: string, reuse: bool)
    requires st.IsTerminal()
    ensures Decide(target, Some(st), podId, podName, reuse) == Decide(target, None, podId, podName, reuse)
  {
  }

  /** Idempotence: reconciling the result again with the same observation at
      the same time changes nothing and plans the same action. */
  lemma ReconcileIdempotent(s: StateRecord, o: RemoteObservation, nowMs: U64)
    ensures var r := ReconcileStep(s, o, nowMs);
            ReconcileStep(r.state, o, nowMs) == r
  {
  }

  /** A transient failure never makes the engine recreate a pod it knows:
      with a pod id and a live last snapshot, `Unknown` keeps id and snapshot
      and plans `CreatePod` only when the table asks for a fresh pod instead
      of restarting an exited one. */
  lemma UnknownKeepsKnownPod(s: StateRecord, nowMs: U64)
    requires s.podId.Some? && s.lastRemote.Some?
    requires s.lastRemote.value.desiredStatus != PodDesiredStatus.Terminated
    ensures var r := ReconcileStep(s, Unknown, nowMs);
            && r.state.podId == s.podId
            && r.state.lastRemote == s.lastRemote
            && (r.action.CreatePod? ==>
                  && r.state.target == TargetStatus.Running
                  && s.lastRemote.value.desiredStatus == PodDesiredStatus.Exited
                  && !s.policy.reuseExitedPod)
  {
  }

  /** Steady state: a `Found` observation whose status equals the target
      plans nothing, unless the policy is due to reap an exited pod. */
  lemma SteadyStateIsNoop(s: StateRecord, snap: RemotePodSnapshot, nowMs: U64)
    requires (s.target == TargetStatus.Running && snap.desiredStatus == PodDesiredStatus.Running)
          || (s.target == TargetStatus.Exited && snap.desiredStatus == PodDesiredStatus.Exited
              && !AutoTerminateDue(s.policy, Some(snap), nowMs))
          || (s.target == TargetStatus.Terminated && snap.desiredStatus == PodDesiredStatus.Terminated)
    ensures ReconcileStep(s, Found(snap), nowMs).action == Noop
  {
  }

  /** The auto-terminate threshold, on an exited pod observed at 1000 with
      a threshold of 5000: at 5999 the exited pod is restarted, at 6001 the
      target becomes `Terminated` and the known pod is terminated. */
  lemma AutoTerminateThreshold(podName: string)
    ensures var p1 := PodId("p1");
            var s := StateRecord(
              STATE_FORMAT_VERSION, podName, Some(p1), TargetStatus.Running,
              Some(RemotePodSnapshot(p1, podName, PodDesiredStatus.Exited, 1000)),
              1000, StatePolicy(true, Some(5000)));
            && ReconcileStep(s, Unknown, 5999) == Reconciliation(s.(lastUpdatedMs := 5999), StartPod(p1))
            && ReconcileStep(s, Unknown, 6001)
               == Reconciliation(s.(lastUpdatedMs := 6001, target := TargetStatus.Terminated), TerminatePod(p1))
  {
  }

  // ---------------------------------------------------------------------
  // The state transitions outside reconcile, on values
  // ---------------------------------------------------------------------

  /** After `apply_terminated` with target `Terminated`, a `NotFound`
      observation plans nothing. */
  lemma TerminatedThenNotFoundIsNoop(s: StateRecord, t1: U64, t2: U64)
    requires s.target == TargetStatus.Terminated
    ensures ReconcileStep(s.(podId := None, lastRemote := None, lastUpdatedMs := t1), NotFound, t2).action == Noop
  {
  }

  // ---------------------------------------------------------------------
  // Stale ids and missing snapshots
  // ---------------------------------------------------------------------

  /** `NotFound` clears the snapshot but keeps the pod id, which is then
      stale: with a live target the planned `CreatePod` sits beside the id
      of the pod that is gone, until `apply_created` replaces it. */
  lemma NotFoundKeepsPodId(s: StateRecord, nowMs: U64)
    requires s.podId.Some?
    ensures ReconcileStep(s, NotFound, nowMs).state.podId == s.podId
    ensures ReconcileStep(s, NotFound, nowMs).state.lastRemote.None?
    ensures s.target != TargetStatus.Terminated ==>
              ReconcileStep(s, NotFound, nowMs).action == CreatePod(s.podName)
  {
  }

  /** Right after `apply_created` there is an id but no snapshot yet, so a
      transient `Unknown`, which the code means to leave local state alone,
      reads as "absent" and plans a second `CreatePod` for a pod that was
      just created. */
  lemma CreatedThenUnknownCreatesAgain(podName: string, t0: U64, t1: U64, t2: U64)
    ensures var s := NewRecord(podName, t0).(podId := Some(PodId("p1")), lastUpdatedMs := t1);
            ReconcileStep(s, Unknown, t2).action == CreatePod(podName)
  {
  }

  // ---------------------------------------------------------------------
  // The aggregate, updated in place
  // ---------------------------------------------------------------------

  /** `RunPodState`: the persisted aggregate; `reconcile`, `set_target`,
      `apply_created` and `apply_terminated` assign its fields. */
  class RunPodState {
    var formatVersion: U32
    var podName: string
    var podId: Option<PodId>
    var target: TargetStatus
    var lastRemote: Option<RemotePodSnapshot>
    var lastUpdatedMs: U64
    var policy: StatePolicy

    /** The fields as one value. */
    function Record(): StateRecord
      reads this
    {
      StateRecord(formatVersion, podName, podId, target, lastRemote, lastUpdatedMs, policy)
    }

    /** `RunPodState::new`: version 1, no id, target `Running`, no snapshot,
        the default policy. */
    constructor (podName: string, nowMs: U64)
      ensures Record() == NewRecord(podName, nowMs)
      ensures formatVersion == 1 && podId.None? && target == TargetStatus.Running && lastRemote.None?
      ensures policy.reuseExitedPod && policy.autoTerminateAfterExitedMs.None?
    {
      this.formatVersion := STATE_FORMAT_VERSION;
      this.podName := podName;
      this.podId := None;
      this.target := TargetStatus.Running;
      this.lastRemote := None;
      this.lastUpdatedMs := nowMs;
      this.policy := DEFAULT_POLICY;
    }

    /** An aggregate holding a given record, as deserialisation builds one. */
    constructor FromRecord(r: StateRecord)
      ensures Record() == r
    {
      formatVersion, podName, podId, target := r.formatVersion, r.podName, r.podId, r.target;
      lastRemote, lastUpdatedMs, policy := r.lastRemote, r.lastUpdatedMs, r.policy;
    }

    /** `set_target`: only the target and the timestamp change. */
    method SetTarget(t: TargetStatus, nowMs: U64)
      modifies this
      ensures Record() == old(Record()).(target := t, lastUpdatedMs := nowMs)
    {
      target := t;
      lastUpdatedMs := nowMs;
    }

    /** `apply_created`: only the id and the timestamp change; the snapshot
        waits for the next observation. */
    method ApplyCreated(id: PodId, nowMs: U64)
      modifies this
      ensures Record() == old(Record()).(podId := Some(id), lastUpdatedMs := nowMs)
    {
      podId := Some(id);
      lastUpdatedMs := nowMs;
    }

    /** `apply_terminated`: forgets the id and the snapshot. */
    method ApplyTerminated(nowMs: U64)
      modifies this
      ensures Record() == old(Record()).(podId := None, lastRemote := None, lastUpdatedMs := nowMs)
    {
      podId := None;
      lastRemote := None;
      lastUpdatedMs := nowMs;
    }

    /** `reconcile`: the three phases, assigning the fields as the source
        does; the result is `ReconcileStep` of the old state. */
    method Reconcile(observation: RemoteObservation, nowMs: U64) returns (action: PlannedAction)
      modifies this
      ensures Reconciliation(Record(), action) == ReconcileStep(old(Record()), observation, nowMs)
    {
      lastUpdatedMs := nowMs;

      // 1) assimilate the observation
      var remoteStatus: Option<PodDesiredStatus>;
      match observation {
        case Found(snapshot) =>
          podId := Some(snapshot.id);
          lastRemote := Some(snapshot);
          remoteStatus := Some(snapshot.desiredStatus);
        case NotFound =>
          lastRemote := None;
          remoteStatus := None;
        case Unknown =>
          remoteStatus := if lastRemote.Some? then Some(lastRemote.value.desiredStatus) else None;
      }

      // 2) apply the auto-terminate policy
      if policy.autoTerminateAfterExitedMs.Some? && lastRemote.Some?
         && lastRemote.value.desiredStatus == PodDesiredStatus.Exited
      {
        var elapsed := SaturatingSub(nowMs, lastRemote.value.observedAtMs);
        if elapsed >= policy.autoTerminateAfterExitedMs.value {
          target := TargetStatus.Terminated;
        }
      }

      // 3) decide
      action := Decide(target, remoteStatus, podId, podName, policy.reuseExitedPod);
    }
  }

  /** The end-to-end lifecycle: create, start, stop, terminate, forget,
      driven through the aggregate's methods. */
  method LifecycleScenario()
  {
    var st := new RunPodState("Halldyll-Agent", 0);
    var a := st.Reconcile(NotFound, 10);
    assert a == CreatePod("Halldyll-Agent");

    var p1 := PodId("p1");
    st.ApplyCreated(p1, 20);
    a := st.Reconcile(Found(RemotePodSnapshot(p1, "Halldyll-Agent", PodDesiredStatus.Exited, 30)), 30);
    assert a == StartPod(p1);

    st.SetTarget(TargetStatus.Exited, 40);
    a := st.Reconcile(Found(RemotePodSnapshot(p1, "Halldyll-Agent", PodDesiredStatus.Running, 50)), 50);
    assert a == StopPod(p1);

    st.SetTarget(TargetStatus.Terminated, 60);
    a := st.Reconcile(Found(RemotePodSnapshot(p1, "Halldyll-Agent", PodDesiredStatus.Running, 70)), 70);
    assert a == TerminatePod(p1);

    st.ApplyTerminated(80);
    a := st.Reconcile(NotFound, 90);
    assert a == Noop;
  }

  /** The auto-terminate scenario: exited at 1000, threshold 5000, an
      `Unknown` at 6001 forces the target to `Terminated` and plans the
      termination of the known pod. */
  method AutoTerminateScenario()
  {
    var p1 := PodId("p1");
    var r := StateRecord(
      STATE_FORMAT_VERSION, "Halldyll-Agent", Some(p1), TargetStatus.Running,
      Some(RemotePodSnapshot(p1, "Halldyll-Agent", PodDesiredStatus.Exited, 1000)),
      1000, StatePolicy(true, Some(5000)));
    var st := new RunPodState.FromRecord(r);
    var a := st.Reconcile(Unknown, 6001);
    assert st.target == TargetStatus.Terminated;
    assert a == TerminatePod(p1);
  }
}
