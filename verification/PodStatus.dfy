/**
 The kubelet's pod status: reconciling the spec, the status last reported and the runtime's records into
 container statuses, and reducing those to a pod phase.
 */
module PodStatus {
  import opened Common

  datatype Terminated = Terminated(exitCode: int, reason: string, message: string,
                                   startedAt: int, finishedAt: int, containerID: string)

  datatype Waiting = Waiting(reason: string, message: string)

  /** As in the API, a record of three optional members. */
  datatype ContainerState =
    ContainerState(waiting: Option<Waiting>, running: Option<int>, terminated: Option<Terminated>)

  datatype ContainerStatus = ContainerStatus(name: string, image: string, imageID: string, containerID: string,
                                             restartCount: int, state: ContainerState, lastState: ContainerState)

  datatype RuntimeState = Created | Running | Exited | Unknown

  /** `kubecontainer.Status`: one container the runtime knows of. */
  datatype Record = Record(name: string, id: string, image: string, imageID: string, state: RuntimeState, exitCode: int,
                           reason: string, message: string, createdAt: int, startedAt: int, finishedAt: int,
                           restartCount: int)

  datatype Container = Container(name: string, image: string)

  datatype RestartPolicy = Always | OnFailure | Never

  datatype Phase = PodPending | PodRunning | PodSucceeded | PodFailed | PodUnknown

  datatype Pod = Pod(containers: seq<Container>, initContainers: seq<Container>, restartPolicy: RestartPolicy,
                     deleting: bool, phase: Phase)

  /** A start failure remembered by the reason cache. */
  datatype StartFailure = StartFailure(err: string, message: string)

  const NO_STATE := ContainerState(None, None, None)

  /** Go's int32 conversion. */
  function Int32(x: int): (r: int)
    ensures -0x8000_0000 <= r < 0x8000_0000 && r % 0x1_0000_0000 == x % 0x1_0000_0000
  {
    (x + 0x8000_0000) % 0x1_0000_0000 - 0x8000_0000
  }

  // ---------- one container at a time ----------

  function LastNamed(containers: seq<Container>, name: string): Option<Container> {
    if containers == [] then None
    else if containers[|containers| - 1].name == name then Some(containers[|containers| - 1])
    else LastNamed(containers[..|containers| - 1], name)
  }

  /** The old status kept for a name: a later entry of the list replaces an earlier one. */
  function OldStatus(previous: seq<ContainerStatus>, name: string): Option<ContainerStatus> {
    if previous == [] then None
    else if previous[|previous| - 1].name == name then Some(previous[|previous| - 1])
    else OldStatus(previous[..|previous| - 1], name)
  }

  function Named(records: seq<Record>, name: string): seq<Record> {
    if records == [] then []
    else
      var last := records[|records| - 1];
      Named(records[..|records| - 1], name) + if last.name == name then [last] else []
  }

  function DefaultReason(hasInit: bool): string { if hasInit then "PodInitializing" else "ContainerCreating" }

  function Default(c: Container, old_: Option<ContainerStatus>, hasInit: bool): ContainerStatus {
    if old_.Some? && old_.value.state.terminated.Some? then old_.value
    else
      ContainerStatus(c.name, c.image, "", "", if old_.Some? then old_.value.restartCount else 0,
                      ContainerState(Some(Waiting(DefaultReason(hasInit), "")), None, None),
                      if old_.Some? then old_.value.lastState else NO_STATE)
  }

  const VANISHED_TERMINATION :=
    Terminated(137, "ContainerStatusUnknown",
               "The container could not be located when the pod was deleted.  The container used to be Running",
               0, 0, "")

  /** A container of a pod being deleted that was running and has no record any more is given a termination. */
  function InferTermination(s: ContainerStatus, old_: Option<ContainerStatus>, found: bool, deleting: bool,
                            hasInit: bool): ContainerStatus {
    if !found && old_.Some? && old_.value.state.terminated.None? && old_.value.state.running.Some? && deleting
       && s.state.waiting.Some? && s.state.waiting.value.reason == DefaultReason(hasInit)
       && s.lastState.terminated.None?
    then s.(lastState := s.lastState.(terminated := Some(VANISHED_TERMINATION)))
    else s
  }

  const UNKNOWN_TERMINATION :=
    Terminated(137, "ContainerStatusUnknown",
               "The container could not be located when the pod was terminated", 0, 0, "")

  /** `convertContainerStatus`. */
  function ConvertRecord(r: Record, old_: Option<ContainerStatus>): ContainerStatus {
    var s := ContainerStatus(r.name, r.image, r.imageID, r.id, Int32(r.restartCount), NO_STATE, NO_STATE);
    match r.state
    case Running => s.(state := NO_STATE.(running := Some(r.startedAt)))
    case Created => s.(state := Ended(r))
    case Exited => s.(state := Ended(r))
    case Unknown =>
      if old_.Some? && old_.value.state.running.Some? then
        s.(state := NO_STATE.(terminated := Some(UNKNOWN_TERMINATION)),
           restartCount := Int32(old_.value.restartCount + 1))
      else s.(state := NO_STATE.(waiting := Some(Waiting("", ""))))
  }

  function Ended(r: Record): ContainerState {
    NO_STATE.(terminated := Some(Terminated(Int32(r.exitCode), r.reason, r.message, r.startedAt, r.finishedAt, r.id)))
  }

  /** The newest record gives the status, the one before it the last termination state; older ones are ignored. */
  function FromRecords(s: ContainerStatus, mine: seq<Record>, old_: Option<ContainerStatus>): ContainerStatus {
    if mine == [] then s
    else if |mine| == 1 then ConvertRecord(mine[0], old_)
    else ConvertRecord(mine[0], old_).(lastState := ConvertRecord(mine[1], old_).state)
  }

  /** `ShouldContainerBeRestarted`. */
  predicate ShouldBeRestarted(pod: Pod, mine: seq<Record>) {
    if pod.deleting then false
    else if mine == [] then true
    else
      match mine[0].state
      case Running => false
      case Unknown => true
      case Created => true
      case Exited => !(pod.restartPolicy == Never || (pod.restartPolicy == OnFailure && mine[0].exitCode == 0))
  }

  /** A container that is to be restarted and failed to start is shown waiting for that reason. */
  function ShowStartFailure(s: ContainerStatus, pod: Pod, mine: seq<Record>, isInit: bool,
                            failure: Option<StartFailure>): ContainerStatus {
    if (isInit && mine != [] && mine[0].state == Exited && mine[0].exitCode == 0)
       || !ShouldBeRestarted(pod, mine) || failure.None?
    then s
    else
      s.(lastState := if s.state.terminated.Some? then s.state else s.lastState,
         state := NO_STATE.(waiting := Some(Waiting(failure.value.err, failure.value.message))))
  }

  function Failure(failures: map<string, StartFailure>, name: string): Option<StartFailure> {
    if name in failures then Some(failures[name]) else None
  }

  /** What convertToAPIContainerStatuses reports for one container; `records` come newest first. */
  function Reported(pod: Pod, records: seq<Record>, previous: seq<ContainerStatus>, c: Container, isInit: bool,
                    failures: map<string, StartFailure>): ContainerStatus {
    var old_, mine, hasInit := OldStatus(previous, c.name), Named(records, c.name), pod.initContainers != [];
    var s1 := InferTermination(Default(c, old_, hasInit), old_, mine != [], pod.deleting, hasInit);
    ShowStartFailure(FromRecords(s1, mine, old_), pod, mine, isInit, Failure(failures, c.name))
  }

  /** `podutil.GetContainerStatus`. */
  function Lookup(statuses: seq<ContainerStatus>, name: string): Option<ContainerStatus> {
    if statuses == [] then None
    else if statuses[0].name == name then Some(statuses[0])
    else Lookup(statuses[1..], name)
  }

  /** `statuses` reports each container of the list, and nothing else. */
  ghost predicate Reports(pod: Pod, records: seq<Record>, previous: seq<ContainerStatus>, containers: seq<Container>,
                          isInit: bool,
                          failures: map<string, StartFailure>, statuses: seq<ContainerStatus>) {
    forall name :: Lookup(statuses, name) ==
      var c := LastNamed(containers, name);
      if c.None? then None else Some(Reported(pod, records, previous, c.value, isInit, failures))
  }

  // ---------- the phase ----------

  datatype Kind = IsRunning | IsStopped(succeeded: bool) | IsWaiting | IsUnknown

  function KindOf(s: Option<ContainerStatus>): Kind {
    if s.None? then IsUnknown
    else if s.value.state.running.Some? then IsRunning
    else if s.value.state.terminated.Some? then IsStopped(s.value.state.terminated.value.exitCode == 0)
    else if s.value.state.waiting.Some? then if s.value.lastState.terminated.Some? then IsStopped(false) else IsWaiting
    else IsUnknown
  }

  datatype InitKind = InitPending | InitFailed | InitDone

  function InitKindOf(s: Option<ContainerStatus>): InitKind {
    if s.None? || s.value.state.running.Some? then InitPending
    else if s.value.state.terminated.Some? then
      if s.value.state.terminated.value.exitCode != 0 then InitFailed else InitDone
    else if s.value.state.waiting.Some? && s.value.lastState.terminated.Some? then
      if s.value.lastState.terminated.value.exitCode != 0 then InitFailed else InitDone
    else InitPending
  }

  ghost predicate SomeInit(pod: Pod, info: seq<ContainerStatus>, kind: InitKind) {
    exists c :: c in pod.initContainers && InitKindOf(Lookup(info, c.name)) == kind
  }

  ghost predicate SomeContainer(pod: Pod, info: seq<ContainerStatus>, kind: Kind) {
    exists c :: c in pod.containers && KindOf(Lookup(info, c.name)) == kind
  }

  /** The phase by what kinds of container there are, with no counting. */
  ghost function PhaseOf(pod: Pod, info: seq<ContainerStatus>): Phase {
    var running := SomeContainer(pod, info, IsRunning);
    var failed := SomeContainer(pod, info, IsStopped(false));
    var succeeded := SomeContainer(pod, info, IsStopped(true));
    if SomeInit(pod, info, InitFailed) && pod.restartPolicy == Never then PodFailed
    else if SomeInit(pod, info, InitPending) || SomeContainer(pod, info, IsWaiting) then PodPending
    else if SomeContainer(pod, info, IsUnknown) then PodPending
    else if running then PodRunning
    else if !failed && !succeeded then PodPending
    else if pod.restartPolicy == Always then PodRunning
    else if !failed then PodSucceeded
    else if pod.restartPolicy == Never then PodFailed
    else PodRunning
  }

  // ---------- the phase, told from the fields of the statuses ----------

  predicate RunsNow(s: Option<ContainerStatus>) { s.Some? && s.value.state.running.Some? }

  /** The container has terminated, or waits to be started again after it had. */
  predicate Over(s: Option<ContainerStatus>) {
    && s.Some? && s.value.state.running.None?
    && (s.value.state.terminated.Some? || (s.value.state.waiting.Some? && s.value.lastState.terminated.Some?))
  }

  /** An init container that waits to be started again is judged by what it last ended with. */
  predicate OverWell(s: Option<ContainerStatus>) {
    && Over(s)
    && if s.value.state.terminated.Some? then s.value.state.terminated.value.exitCode == 0
       else s.value.lastState.terminated.value.exitCode == 0
  }

  /** A container that waits to be started again counts as failed, whatever it ended with. */
  predicate EndedWell(s: Option<ContainerStatus>) {
    && s.Some? && s.value.state.running.None?
    && s.value.state.terminated.Some? && s.value.state.terminated.value.exitCode == 0
  }

  ghost predicate AllOver(containers: seq<Container>, info: seq<ContainerStatus>) {
    forall c :: c in containers ==> Over(Lookup(info, c.name))
  }

  ghost predicate AllOverWell(containers: seq<Container>, info: seq<ContainerStatus>) {
    forall c :: c in containers ==> OverWell(Lookup(info, c.name))
  }

  ghost predicate AllEndedWell(containers: seq<Container>, info: seq<ContainerStatus>) {
    forall c :: c in containers ==> EndedWell(Lookup(info, c.name))
  }

  lemma KindOnFields(s: Option<ContainerStatus>)
    ensures KindOf(s) == IsRunning <==> RunsNow(s)
    ensures KindOf(s).IsStopped? <==> Over(s)
    ensures KindOf(s) == IsStopped(true) <==> EndedWell(s)
    ensures InitKindOf(s) == InitPending <==> !Over(s)
    ensures InitKindOf(s) == InitDone <==> OverWell(s)
    ensures InitKindOf(s) == InitFailed <==> Over(s) && !OverWell(s)
  {}

  lemma InitOnFields(pod: Pod, info: seq<ContainerStatus>)
    ensures SomeInit(pod, info, InitPending) <==> !AllOver(pod.initContainers, info)
    ensures SomeInit(pod, info, InitFailed) <==>
            exists c :: c in pod.initContainers && Over(Lookup(info, c.name)) && !OverWell(Lookup(info, c.name))
    ensures !SomeInit(pod, info, InitPending) ==>
              (SomeInit(pod, info, InitFailed) <==> !AllOverWell(pod.initContainers, info))
  {
    forall c | c in pod.initContainers
      ensures InitKindOf(Lookup(info, c.name)) == InitPending <==> !Over(Lookup(info, c.name))
      ensures InitKindOf(Lookup(info, c.name)) == InitDone <==> OverWell(Lookup(info, c.name))
      ensures InitKindOf(Lookup(info, c.name)) == InitFailed <==>
              Over(Lookup(info, c.name)) && !OverWell(Lookup(info, c.name))
    {
      KindOnFields(Lookup(info, c.name));
    }
  }

  lemma ContainersOnFields(pod: Pod, info: seq<ContainerStatus>)
    ensures SomeContainer(pod, info, IsRunning) <==> exists c :: c in pod.containers && RunsNow(Lookup(info, c.name))
    ensures SomeContainer(pod, info, IsUnknown) || SomeContainer(pod, info, IsWaiting) <==>
            exists c :: c in pod.containers && !RunsNow(Lookup(info, c.name)) && !Over(Lookup(info, c.name))
    ensures SomeContainer(pod, info, IsStopped(true)) <==>
            exists c :: c in pod.containers && EndedWell(Lookup(info, c.name))
    ensures SomeContainer(pod, info, IsStopped(false)) <==>
            exists c :: c in pod.containers && Over(Lookup(info, c.name)) && !EndedWell(Lookup(info, c.name))
  {
    forall c | c in pod.containers
      ensures var s := Lookup(info, c.name);
        && (KindOf(s) == IsRunning <==> RunsNow(s))
        && (KindOf(s) == IsUnknown || KindOf(s) == IsWaiting <==> !RunsNow(s) && !Over(s))
        && (KindOf(s) == IsStopped(true) <==> EndedWell(s))
        && (KindOf(s) == IsStopped(false) <==> Over(s) && !EndedWell(s))
    {
      KindOnFields(Lookup(info, c.name));
    }
  }

  /** Each phase by the fields of the statuses and the restart policy alone; what is none of these is Pending. */
  lemma PhaseOnFields(pod: Pod, info: seq<ContainerStatus>)
    ensures PhaseOf(pod, info) == PodFailed <==>
            && pod.restartPolicy == Never
            && (|| (exists c ::
                      c in pod.initContainers && Over(Lookup(info, c.name)) && !OverWell(Lookup(info, c.name)))
                || (&& AllOver(pod.initContainers, info) && pod.containers != [] && AllOver(pod.containers, info)
                    && !AllEndedWell(pod.containers, info)))
    ensures PhaseOf(pod, info) == PodSucceeded <==>
            && AllOver(pod.initContainers, info) && pod.containers != [] && AllEndedWell(pod.containers, info)
            && pod.restartPolicy != Always
            && (pod.restartPolicy == Never ==> AllOverWell(pod.initContainers, info))
    ensures PhaseOf(pod, info) == PodRunning <==>
            && AllOver(pod.initContainers, info)
            && (pod.restartPolicy == Never ==> AllOverWell(pod.initContainers, info))
            && (forall c :: c in pod.containers ==> RunsNow(Lookup(info, c.name)) || Over(Lookup(info, c.name)))
            && (|| (exists c :: c in pod.containers && RunsNow(Lookup(info, c.name)))
                || (pod.containers != [] && pod.restartPolicy == Always)
                || (pod.restartPolicy == OnFailure && !AllEndedWell(pod.containers, info)))
    ensures PhaseOf(pod, info) != PodUnknown
  {
    InitOnFields(pod, info);
    ContainersOnFields(pod, info);
    if pod.containers != [] {
      assert pod.containers[0] in pod.containers;
    }
  }

  method GetPhase(pod: Pod, info: seq<ContainerStatus>) returns (phase: Phase)
    ensures phase == PhaseOf(pod, info)
    ensures phase == PodFailed <==>
            && pod.restartPolicy == Never
            && (|| (exists c ::
                      c in pod.initContainers && Over(Lookup(info, c.name)) && !OverWell(Lookup(info, c.name)))
                || (&& AllOver(pod.initContainers, info) && pod.containers != [] && AllOver(pod.containers, info)
                    && !AllEndedWell(pod.containers, info)))
    ensures phase == PodSucceeded <==>
            && AllOver(pod.initContainers, info) && pod.containers != [] && AllEndedWell(pod.containers, info)
            && pod.restartPolicy != Always
            && (pod.restartPolicy == Never ==> AllOverWell(pod.initContainers, info))
    ensures phase == PodRunning <==>
            && AllOver(pod.initContainers, info)
            && (pod.restartPolicy == Never ==> AllOverWell(pod.initContainers, info))
            && (forall c :: c in pod.containers ==> RunsNow(Lookup(info, c.name)) || Over(Lookup(info, c.name)))
            && (|| (exists c :: c in pod.containers && RunsNow(Lookup(info, c.name)))
                || (pod.containers != [] && pod.restartPolicy == Always)
                || (pod.restartPolicy == OnFailure && !AllEndedWell(pod.containers, info)))
    ensures phase != PodUnknown
  {
    PhaseOnFields(pod, info);
    var pendingInitialization, failedInitialization := 0, 0;
    for i := 0 to |pod.initContainers|
      invariant pendingInitialization >= 0 && failedInitialization >= 0
      invariant pendingInitialization > 0 <==>
                exists j :: 0 <= j < i && InitKindOf(Lookup(info, pod.initContainers[j].name)) == InitPending
      invariant failedInitialization > 0 <==>
                exists j :: 0 <= j < i && InitKindOf(Lookup(info, pod.initContainers[j].name)) == InitFailed
    {
      match InitKindOf(Lookup(info, pod.initContainers[i].name))
      case InitPending => pendingInitialization := pendingInitialization + 1;
      case InitFailed => failedInitialization := failedInitialization + 1;
      case InitDone =>
    }
    var unknown, running, waiting, stopped, succeeded := CountKinds(pod, info);
    if failedInitialization > 0 && pod.restartPolicy == Never { return PodFailed; }
    if pendingInitialization > 0 || waiting > 0 { return PodPending; }
    if running > 0 && unknown == 0 { return PodRunning; }
    if running == 0 && stopped > 0 && unknown == 0 {
      if pod.restartPolicy == Always { return PodRunning; }
      if stopped == succeeded { return PodSucceeded; }
      if pod.restartPolicy == Never { return PodFailed; }
      return PodRunning;
    }
    return PodPending;
  }

  /** The second loop of getPhase, with what its counters say about the containers. */
  method CountKinds(pod: Pod, info: seq<ContainerStatus>)
    returns (unknown: nat, running: nat, waiting: nat, stopped: nat, succeeded: nat)
    ensures unknown > 0 <==> SomeContainer(pod, info, IsUnknown)
    ensures running > 0 <==> SomeContainer(pod, info, IsRunning)
    ensures waiting > 0 <==> SomeContainer(pod, info, IsWaiting)
    ensures stopped > 0 <==> SomeContainer(pod, info, IsStopped(true)) || SomeContainer(pod, info, IsStopped(false))
    ensures stopped == succeeded <==> !SomeContainer(pod, info, IsStopped(false))
  {
    unknown, running, waiting, stopped, succeeded := 0, 0, 0, 0, 0;
    var cs := pod.containers;
    for i := 0 to |cs|
      invariant succeeded <= stopped
      invariant unknown > 0 <==> exists j :: 0 <= j < i && KindOf(Lookup(info, cs[j].name)) == IsUnknown
      invariant running > 0 <==> exists j :: 0 <= j < i && KindOf(Lookup(info, cs[j].name)) == IsRunning
      invariant waiting > 0 <==> exists j :: 0 <= j < i && KindOf(Lookup(info, cs[j].name)) == IsWaiting
      invariant succeeded > 0 <==> exists j :: 0 <= j < i && KindOf(Lookup(info, cs[j].name)) == IsStopped(true)
      invariant stopped > succeeded <==> exists j :: 0 <= j < i && KindOf(Lookup(info, cs[j].name)) == IsStopped(false)
    {
      match KindOf(Lookup(info, cs[i].name))
      case IsUnknown => unknown := unknown + 1;
      case IsRunning => running := running + 1;
      case IsWaiting => waiting := waiting + 1;
      case IsStopped(ok) =>
        stopped := stopped + 1;
        if ok { succeeded := succeeded + 1; }
    }
  }

  // ---------- generateAPIPodStatus ----------

  /** The phase reported: eviction first, then the phase of the containers, which may not leave a terminal phase. */
  ghost function FinalPhase(pod: Pod, info: seq<ContainerStatus>, evicted: bool): Phase {
    if evicted then PodFailed
    else if Terminal(pod.phase) then pod.phase
    else PhaseOf(pod, info)
  }

  predicate WasRunning(previous: seq<ContainerStatus>, c: Container) {
    var o := OldStatus(previous, c.name);
    o.Some? && o.value.state.running.Some? && o.value.state.terminated.None?
  }

  ghost predicate AllWereRunning(pod: Pod, previous: seq<ContainerStatus>) {
    forall c :: c in pod.containers ==> WasRunning(previous, c)
  }

  /** The container has no runtime record left and no earlier termination on file. */
  predicate LostTrack(previous: seq<ContainerStatus>, records: seq<Record>, c: Container) {
    var o := OldStatus(previous, c.name);
    Named(records, c.name) == [] && o.Some? && o.value.lastState.terminated.None?
  }

  /**
   A container last reported running stays running or stopped, unless the pod is not being deleted and all trace of
   it is lost.
   */
  lemma KindOfRunningContainer(pod: Pod, records: seq<Record>, previous: seq<ContainerStatus>, c: Container,
                               failures: map<string, StartFailure>)
    requires WasRunning(previous, c)
    ensures var kind := KindOf(Some(Reported(pod, records, previous, c, false, failures)));
      && kind != IsUnknown
      && (kind == IsWaiting <==> !pod.deleting && LostTrack(previous, records, c))
  {}

  lemma {:induction false} LastNamedIsNamed(containers: seq<Container>, c: Container)
    requires c in containers
    ensures LastNamed(containers, c.name).Some? && LastNamed(containers, c.name).value.name == c.name
    ensures LastNamed(containers, c.name).value in containers
  {
    var n := |containers| - 1;
    if containers[n].name != c.name {
      assert c in containers[..n];
      LastNamedIsNamed(containers[..n], c);
    }
  }

  /** The status `info` has under the container's name is the one reported for a container of that name. */
  ghost predicate Covered(pod: Pod, records: seq<Record>, previous: seq<ContainerStatus>,
                          failures: map<string, StartFailure>, info: seq<ContainerStatus>, c: Container) {
    var d := LastNamed(pod.containers, c.name);
    d.Some? && Lookup(info, c.name) == Some(Reported(pod, records, previous, d.value, false, failures))
  }

  ghost predicate Covers(pod: Pod, records: seq<Record>, previous: seq<ContainerStatus>,
                         failures: map<string, StartFailure>, info: seq<ContainerStatus>) {
    forall c :: c in pod.containers ==> Covered(pod, records, previous, failures, info, c)
  }

  lemma ReportsCover(pod: Pod, records: seq<Record>, previous: seq<ContainerStatus>,
                     failures: map<string, StartFailure>, info: seq<ContainerStatus>)
    requires Reports(pod, records, previous, pod.containers, false, failures, info)
    ensures Covers(pod, records, previous, failures, info)
  {
    forall c | c in pod.containers ensures Covered(pod, records, previous, failures, info, c) {
      LastNamedIsNamed(pod.containers, c);
      var d := LastNamed(pod.containers, c.name).value;
      assert Lookup(info, c.name) == Some(Reported(pod, records, previous, d, false, failures));
    }
  }

  lemma KindOfCovered(pod: Pod, records: seq<Record>, previous: seq<ContainerStatus>,
                      failures: map<string, StartFailure>, info: seq<ContainerStatus>, c: Container)
    requires c in pod.containers && AllWereRunning(pod, previous) && Covered(pod, records, previous, failures, info, c)
    ensures var kind := KindOf(Lookup(info, c.name));
      kind != IsUnknown && (kind == IsWaiting <==> !pod.deleting && LostTrack(previous, records, c))
  {
    LastNamedIsNamed(pod.containers, c);
    KindOfRunningContainer(pod, records, previous, LastNamed(pod.containers, c.name).value, failures);
  }

  /**
   With containers, none of them of unknown kind, only pending initialization and waiting containers make a pod
   Pending.
   */
  lemma PendingByKinds(pod: Pod, info: seq<ContainerStatus>)
    requires pod.containers != [] && !SomeContainer(pod, info, IsUnknown)
    ensures PhaseOf(pod, info) == PodPending <==>
            && !(SomeInit(pod, info, InitFailed) && pod.restartPolicy == Never)
            && (SomeInit(pod, info, InitPending) || SomeContainer(pod, info, IsWaiting))
  {
    var c := pod.containers[0];
    var kind := KindOf(Lookup(info, c.name));
    assert c in pod.containers && SomeContainer(pod, info, kind);
    assert kind.IsRunning? || kind.IsWaiting? || kind.IsUnknown? || kind == IsStopped(true) || kind == IsStopped(false);
  }

  /**
   For a pod whose containers were all last reported running: unless a failed initialization makes it Failed, the phase
   is Pending exactly when initialization is pending, or the pod is not being deleted and some container lost its last
   record with no earlier termination on file.
   */
  lemma PendingIffTrackLost(pod: Pod, records: seq<Record>, previous: seq<ContainerStatus>,
                            failures: map<string, StartFailure>, info: seq<ContainerStatus>)
    requires pod.containers != [] && AllWereRunning(pod, previous) && Covers(pod, records, previous, failures, info)
    ensures PhaseOf(pod, info) == PodPending <==>
            && !(SomeInit(pod, info, InitFailed) && pod.restartPolicy == Never)
            && (SomeInit(pod, info, InitPending) ||
                (!pod.deleting && exists c :: c in pod.containers && LostTrack(previous, records, c)))
  {
    forall c | c in pod.containers
      ensures KindOf(Lookup(info, c.name)) != IsUnknown
      ensures KindOf(Lookup(info, c.name)) == IsWaiting <==> !pod.deleting && LostTrack(previous, records, c)
    {
      KindOfCovered(pod, records, previous, failures, info, c);
    }
    PendingByKinds(pod, info);
  }

  /**
   A pod being deleted does not go back to Pending, whichever records vanish, unless its initialization is reported
   pending.
   */
  lemma DeletedPodNeverPending(pod: Pod, records: seq<Record>, previous: seq<ContainerStatus>,
                               failures: map<string, StartFailure>,
                               info: seq<ContainerStatus>, evicted: bool)
    requires pod.deleting && pod.containers != [] && AllWereRunning(pod, previous)
    requires Covers(pod, records, previous, failures, info)
    ensures FinalPhase(pod, info, evicted) == PodPending ==> SomeInit(pod, info, InitPending)
  {
    PendingIffTrackLost(pod, records, previous, failures, info);
  }

  predicate Terminal(phase: Phase) { phase == PodFailed || phase == PodSucceeded }
}
