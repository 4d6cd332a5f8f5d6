/**
 The kubelet's pod workers: one goroutine and one single-slot channel per pod, an `isWorking` flag,
 and one slot for the update that arrived while the worker was busy. A worker can be forgotten, which
 closes its channel and frees its map entry, and a new one made for the same pod while the old
 goroutine is still in the middle of a sync.

 Every region the source runs under `podLock`, and every step a worker takes between two such regions,
 is one atomic step. A run is any sequence of enabled steps.
 */
module PodWorkers {
  import opened Common

  type UID = string

  datatype SyncPodType = SyncPodSync | SyncPodUpdate | SyncPodCreate | SyncPodKill

  /** The options of one `UpdatePod` call; `call` numbers the calls made for this pod. */
  datatype Update = Update(uid: UID, kind: SyncPodType, call: nat)

  /** Where a worker goroutine is inside `managePodLoop`. */
  datatype Phase =
    | Idle                    // at the head of the range loop
    | Fetching(update: Update)    // blocked in podCache.GetNewerThan
    | Syncing(update: Update)     // inside syncPodFn
    | WrappingUp(update: Update)  // sync over, checkForUpdates not yet run
    | Exited

  /** A channel together with the goroutine that ranges over it. */
  datatype Worker = Worker(uid: UID, buffer: seq<Update>, closed: bool, phase: Phase)

  datatype Processed = Processed(update: Update, synced: bool)

  /** What became of the calls made for one pod; history only, no step reads it. */
  datatype PodLog = PodLog(issued: seq<Update>, processed: seq<Processed>,
                           superseded: seq<Update>, refused: seq<Update>, dropped: seq<Update>)

  /** A send that the Go runtime would block, panic on, or block on forever. */
  datatype Fault = NoFault | SendWouldBlock | SendOnClosedChannel | SendOnMissingChannel

  datatype State = State(podUpdates: map<UID, nat>,        // channel by pod, an index into workers
                         isWorking: map<UID, bool>,
                         lastUndelivered: map<UID, Update>,
                         workers: seq<Worker>,             // every worker ever started
                         logs: map<UID, PodLog>,
                         fault: Fault)

  const BUFFER_SIZE := 1

  const INIT := State(map[], map[], map[], [], map[], NoFault)

  predicate Flag(isWorking: map<UID, bool>, uid: UID) { uid in isWorking && isWorking[uid] }

  predicate Working(s: State, uid: UID) { Flag(s.isWorking, uid) }

  function LogOf(s: State, uid: UID): PodLog {
    if uid in s.logs then s.logs[uid] else PodLog([], [], [], [], [])
  }

  // ---------- the steps ----------

  /** A channel send, with the three ways it can go wrong made visible. */
  function Send(s: State, channel: Option<nat>, u: Update): State {
    if channel.None? || channel.value >= |s.workers| then s.(fault := SendOnMissingChannel)
    else
      var w := s.workers[channel.value];
      if w.closed then s.(fault := SendOnClosedChannel)
      else if |w.buffer| >= BUFFER_SIZE then s.(fault := SendWouldBlock)
      else s.(workers := s.workers[channel.value := w.(buffer := w.buffer + [u])])
  }

  function Channel(s: State, uid: UID): Option<nat> {
    if uid in s.podUpdates then Some(s.podUpdates[uid]) else None
  }

  function EnsureWorker(s: State, uid: UID): State {
    if uid in s.podUpdates then s
    else s.(podUpdates := s.podUpdates[uid := |s.workers|],
            workers := s.workers + [Worker(uid, [], false, Idle)])
  }

  function NextUpdate(s: State, uid: UID, kind: SyncPodType): Update {
    Update(uid, kind, |LogOf(s, uid).issued|)
  }

  function Issue(s: State, u: Update): State {
    var l := LogOf(s, u.uid);
    s.(logs := s.logs[u.uid := l.(issued := l.issued + [u])])
  }

  predicate KillPending(s: State, uid: UID) {
    uid in s.lastUndelivered && s.lastUndelivered[uid].kind == SyncPodKill
  }

  /** Keeps `u` for later, or refuses it because a kill is already waiting. */
  function Postpone(s: State, u: Update): State {
    var l := LogOf(s, u.uid);
    if KillPending(s, u.uid) then s.(logs := s.logs[u.uid := l.(refused := l.refused + [u])])
    else if u.uid in s.lastUndelivered then
      s.(lastUndelivered := s.lastUndelivered[u.uid := u],
         logs := s.logs[u.uid := l.(superseded := l.superseded + [s.lastUndelivered[u.uid]])])
    else s.(lastUndelivered := s.lastUndelivered[u.uid := u])
  }

  function UpdatePod(s: State, uid: UID, kind: SyncPodType): State {
    var u := NextUpdate(s, uid, kind);
    var s1 := EnsureWorker(Issue(s, u), uid);
    if !Working(s1, uid) then Send(s1.(isWorking := s1.isWorking[uid := true]), Channel(s1, uid), u)
    else Postpone(s1, u)
  }

  function RemoveWorker(s: State, uid: UID): State {
    if uid in s.podUpdates && s.podUpdates[uid] < |s.workers| then
      var c := s.podUpdates[uid];
      var l := LogOf(s, uid);
      State(s.podUpdates - {uid}, s.isWorking, s.lastUndelivered - {uid},
            s.workers[c := s.workers[c].(closed := true)],
            if uid in s.lastUndelivered then s.logs[uid := l.(dropped := l.dropped + [s.lastUndelivered[uid]])]
            else s.logs,
            s.fault)
    else s
  }

  function RemoveWorkers(s: State, uids: seq<UID>): State {
    if uids == [] then s else RemoveWorker(RemoveWorkers(s, uids[..|uids| - 1]), uids[|uids| - 1])
  }

  function SetPhase(s: State, c: nat, phase: Phase): State
    requires c < |s.workers|
  {
    s.(workers := s.workers[c := s.workers[c].(phase := phase)])
  }

  function Record(s: State, p: Processed): State {
    var l := LogOf(s, p.update.uid);
    s.(logs := s.logs[p.update.uid := l.(processed := l.processed + [p])])
  }

  function Receive(s: State, c: nat): State
    requires c < |s.workers| && s.workers[c].buffer != []
  {
    var w := s.workers[c];
    s.(workers := s.workers[c := w.(buffer := w.buffer[1..], phase := Fetching(w.buffer[0]))])
  }

  function CheckForUpdates(s: State, uid: UID): State {
    if uid in s.lastUndelivered then
      Send(s, Channel(s, uid), s.lastUndelivered[uid]).(lastUndelivered := s.lastUndelivered - {uid})
    else s.(isWorking := s.isWorking[uid := false])
  }

  datatype Step =
    | CallUpdatePod(uid: UID, kind: SyncPodType)
    | CallForgetWorker(uid: UID)
    | CallForgetNonExisting(desired: set<UID>, order: seq<UID>)  // order: the map iteration that happened
    | WorkerReceive(worker: nat)
    | WorkerStartSync(worker: nat)
    | WorkerFetchFails(worker: nat)
    | WorkerSyncReturns(worker: nat)
    | WorkerCheckForUpdates(worker: nat)
    | WorkerExit(worker: nat)

  ghost predicate Enabled(s: State, step: Step) {
    match step
    case CallUpdatePod(_, _) => true
    case CallForgetWorker(_) => true
    case CallForgetNonExisting(desired, order) => Enumerates(order, s.podUpdates.Keys - desired)
    case WorkerReceive(c) => c < |s.workers| && s.workers[c].phase.Idle? && s.workers[c].buffer != []
    case WorkerStartSync(c) => c < |s.workers| && s.workers[c].phase.Fetching?
    case WorkerFetchFails(c) => c < |s.workers| && s.workers[c].phase.Fetching?
    case WorkerSyncReturns(c) => c < |s.workers| && s.workers[c].phase.Syncing?
    case WorkerCheckForUpdates(c) => c < |s.workers| && s.workers[c].phase.WrappingUp?
    case WorkerExit(c) =>
      c < |s.workers| && s.workers[c].phase.Idle? && s.workers[c].closed && s.workers[c].buffer == []
  }

  ghost function Next(s: State, step: Step): State
    requires Enabled(s, step)
  {
    match step
    case CallUpdatePod(uid, kind) => UpdatePod(s, uid, kind)
    case CallForgetWorker(uid) => RemoveWorker(s, uid)
    case CallForgetNonExisting(_, order) => RemoveWorkers(s, order)
    case WorkerReceive(c) => Receive(s, c)
    case WorkerStartSync(c) => SetPhase(s, c, Syncing(s.workers[c].phase.update))
    case WorkerFetchFails(c) =>
      var u := s.workers[c].phase.update;
      Record(SetPhase(s, c, WrappingUp(u)), Processed(u, false))
    case WorkerSyncReturns(c) =>
      var u := s.workers[c].phase.update;
      Record(SetPhase(s, c, WrappingUp(u)), Processed(u, true))
    case WorkerCheckForUpdates(c) =>
      CheckForUpdates(SetPhase(s, c, Idle), s.workers[c].phase.update.uid)
    case WorkerExit(c) => SetPhase(s, c, Exited)
  }

  /** `run` can be taken from `s`, step by step, and ends in `t`. */
  ghost predicate Reaches(s: State, run: seq<Step>, t: State)
    decreases |run|
  {
    if run == [] then t == s
    else Enabled(s, run[0]) && Reaches(Next(s, run[0]), run[1..], t)
  }

  // ---------- the token invariant ----------

  /** The worker holds its pod's token: a buffered update, or one it is still processing. */
  predicate Holds(w: Worker) {
    w.buffer != [] || w.phase.Fetching? || w.phase.Syncing? || w.phase.WrappingUp?
  }

  ghost predicate ChannelsMatch(podUpdates: map<UID, nat>, ws: seq<Worker>) {
    && (forall uid :: uid in podUpdates ==>
          && podUpdates[uid] < |ws|
          && ws[podUpdates[uid]].uid == uid
          && !ws[podUpdates[uid]].closed)
    && (forall c :: 0 <= c < |ws| && !ws[c].closed ==> ws[c].uid in podUpdates && podUpdates[ws[c].uid] == c)
  }

  predicate WorkerOk(w: Worker) {
    && |w.buffer| <= BUFFER_SIZE
    && (w.buffer != [] ==> w.phase.Idle? && w.buffer[0].uid == w.uid)
    && (w.phase.Fetching? || w.phase.Syncing? || w.phase.WrappingUp? ==> w.phase.update.uid == w.uid)
    && (w.phase.Exited? ==> w.closed)
  }

  ghost predicate WorkersOk(ws: seq<Worker>) {
    forall c :: 0 <= c < |ws| ==> WorkerOk(ws[c])
  }

  ghost predicate HolderOf(ws: seq<Worker>, uid: UID, c: int) {
    0 <= c < |ws| && ws[c].uid == uid && Holds(ws[c])
  }

  /** Never two tokens for one pod, whichever generations of worker hold them. */
  ghost predicate OneToken(ws: seq<Worker>) {
    forall uid, c, d :: HolderOf(ws, uid, c) && HolderOf(ws, uid, d) ==> c == d
  }

  ghost predicate TokenOut(ws: seq<Worker>, uid: UID) {
    exists c :: HolderOf(ws, uid, c)
  }

  ghost predicate FlagIsToken(isWorking: map<UID, bool>, ws: seq<Worker>) {
    forall uid :: Flag(isWorking, uid) <==> TokenOut(ws, uid)
  }

  ghost predicate PendingOk(s: State) {
    forall uid :: uid in s.lastUndelivered ==>
      uid in s.podUpdates && Working(s, uid) && s.lastUndelivered[uid].uid == uid
  }

  ghost predicate Inv(s: State) {
    && s.fault == NoFault
    && ChannelsMatch(s.podUpdates, s.workers)
    && WorkersOk(s.workers)
    && OneToken(s.workers)
    && FlagIsToken(s.isWorking, s.workers)
    && PendingOk(s)
  }

  /** Replacing one worker by another of the same pod changes no other pod's tokens. */
  lemma OtherTokens(ws: seq<Worker>, c: nat, w: Worker, uid: UID)
    requires c < |ws| && w.uid == ws[c].uid
    requires uid != w.uid || Holds(w) == Holds(ws[c])
    ensures TokenOut(ws[c := w], uid) <==> TokenOut(ws, uid)
  {
    var ws' := ws[c := w];
    if TokenOut(ws, uid) {
      var d :| HolderOf(ws, uid, d);
      assert HolderOf(ws', uid, d);
    }
    if TokenOut(ws', uid) {
      var d :| HolderOf(ws', uid, d);
      assert HolderOf(ws, uid, d);
    }
  }

  lemma NoNewToken(ws: seq<Worker>, c: nat, w: Worker)
    requires OneToken(ws) && c < |ws| && w.uid == ws[c].uid
    requires Holds(w) ==> Holds(ws[c])
    ensures OneToken(ws[c := w])
  {
    var ws' := ws[c := w];
    forall uid, d, e | HolderOf(ws', uid, d) && HolderOf(ws', uid, e) ensures d == e {
      assert HolderOf(ws, uid, d) && HolderOf(ws, uid, e);
    }
  }

  lemma EnsureWorkerKeepsInv(s: State, uid: UID)
    requires Inv(s)
    ensures Inv(EnsureWorker(s, uid)) && uid in EnsureWorker(s, uid).podUpdates
  {
    var t := EnsureWorker(s, uid);
    if uid !in s.podUpdates {
      forall v, c ensures HolderOf(t.workers, v, c) <==> HolderOf(s.workers, v, c) {}
    }
  }

  /** What the source's comment on the buffer size leaves implicit: whoever may send finds an open, empty channel. */
  lemma SendSucceeds(s: State, uid: UID, u: Update)
    requires ChannelsMatch(s.podUpdates, s.workers) && WorkersOk(s.workers) && s.fault == NoFault
    requires uid in s.podUpdates && !TokenOut(s.workers, uid)
    ensures var c := s.podUpdates[uid];
      && s.workers[c].buffer == [] && !Holds(s.workers[c]) && !s.workers[c].phase.Exited?
      && Send(s, Channel(s, uid), u) == s.(workers := s.workers[c := s.workers[c].(buffer := [u])])
  {
    var c := s.podUpdates[uid];
    assert !HolderOf(s.workers, uid, c);
    assert WorkerOk(s.workers[c]);
    assert s.workers[c].buffer + [u] == [u];
  }

  /** Placing the only token of `uid` in its channel. */
  lemma SendKeepsInv(s: State, uid: UID, u: Update)
    requires s.fault == NoFault && ChannelsMatch(s.podUpdates, s.workers) && WorkersOk(s.workers)
    requires OneToken(s.workers) && PendingOk(s)
    requires uid in s.podUpdates && u.uid == uid && Working(s, uid) && !TokenOut(s.workers, uid)
    requires forall v :: v != uid ==> (Working(s, v) <==> TokenOut(s.workers, v))
    ensures Inv(Send(s, Channel(s, uid), u))
  {
    SendSucceeds(s, uid, u);
    var c := s.podUpdates[uid];
    var w := s.workers[c].(buffer := [u]);
    var ws := s.workers[c := w];
    forall v ensures Working(s, v) <==> TokenOut(ws, v) {
      if v == uid {
        assert HolderOf(ws, uid, c);
      } else {
        OtherTokens(s.workers, c, w, v);
      }
    }
    forall v, d | HolderOf(ws, v, d) ensures d == c || HolderOf(s.workers, v, d) {}
  }

  lemma PostponeKeepsInv(s: State, u: Update)
    requires Inv(s) && u.uid in s.podUpdates && Working(s, u.uid)
    ensures Inv(Postpone(s, u))
  {}

  lemma StartKeepsInv(s: State, u: Update)
    requires Inv(s) && u.uid in s.podUpdates && !Working(s, u.uid)
    ensures Inv(Send(s.(isWorking := s.isWorking[u.uid := true]), Channel(s, u.uid), u))
  {
    SendKeepsInv(s.(isWorking := s.isWorking[u.uid := true]), u.uid, u);
  }

  lemma IssueKeepsInv(s: State, u: Update)
    requires Inv(s)
    ensures Inv(Issue(s, u))
  {}

  lemma UpdatePodKeepsInv(s: State, uid: UID, kind: SyncPodType)
    requires Inv(s)
    ensures Inv(UpdatePod(s, uid, kind))
  {
    var u := NextUpdate(s, uid, kind);
    var s0 := Issue(s, u);
    IssueKeepsInv(s, u);
    EnsureWorkerKeepsInv(s0, uid);
    if Working(EnsureWorker(s0, uid), uid) {
      PostponeKeepsInv(EnsureWorker(s0, uid), u);
    } else {
      StartKeepsInv(EnsureWorker(s0, uid), u);
    }
  }

  /** `removeWorker` leaves `isWorking` alone, so a token stranded in the closed channel stays accounted for. */
  lemma RemoveWorkerKeepsInv(s: State, uid: UID)
    requires Inv(s)
    ensures Inv(RemoveWorker(s, uid))
  {
    if uid in s.podUpdates {
      var c := s.podUpdates[uid];
      var w := s.workers[c].(closed := true);
      forall v ensures TokenOut(s.workers[c := w], v) <==> TokenOut(s.workers, v) {
        OtherTokens(s.workers, c, w, v);
      }
      NoNewToken(s.workers, c, w);
    }
  }

  lemma {:induction false} RemoveWorkersKeepsInv(s: State, uids: seq<UID>)
    requires Inv(s)
    ensures Inv(RemoveWorkers(s, uids))
  {
    if uids != [] {
      RemoveWorkersKeepsInv(s, uids[..|uids| - 1]);
      RemoveWorkerKeepsInv(RemoveWorkers(s, uids[..|uids| - 1]), uids[|uids| - 1]);
    }
  }

  /** A worker step that keeps the token where it is, or moves it from the buffer into the worker's hand. */
  lemma WorkerStepKeepsInv(s: State, c: nat, w: Worker)
    requires Inv(s) && c < |s.workers|
    requires WorkerOk(w) && w.uid == s.workers[c].uid && w.closed == s.workers[c].closed
    requires Holds(w) == Holds(s.workers[c])
    ensures Inv(s.(workers := s.workers[c := w]))
  {
    forall v ensures TokenOut(s.workers[c := w], v) <==> TokenOut(s.workers, v) {
      OtherTokens(s.workers, c, w, v);
    }
    NoNewToken(s.workers, c, w);
  }

  /** Once the worker has let go of it, the pod's token is nowhere, while the flag still says it is out. */
  lemma LettingGo(s: State, c: nat)
    requires Inv(s) && c < |s.workers| && s.workers[c].phase.WrappingUp?
    ensures var t := SetPhase(s, c, Idle);
      && ChannelsMatch(t.podUpdates, t.workers) && WorkersOk(t.workers) && OneToken(t.workers) && PendingOk(t)
      && !TokenOut(t.workers, s.workers[c].uid) && Working(t, s.workers[c].uid)
      && (forall v :: v != s.workers[c].uid ==> (Working(t, v) <==> TokenOut(t.workers, v)))
  {
    var uid := s.workers[c].uid;
    var w := s.workers[c].(phase := Idle);
    var ws := s.workers[c := w];
    assert WorkerOk(s.workers[c]);
    assert HolderOf(s.workers, uid, c);
    NoNewToken(s.workers, c, w);
    forall d ensures !HolderOf(ws, uid, d) {
      assert HolderOf(ws, uid, d) ==> HolderOf(s.workers, uid, d);
    }
    forall v | v != uid ensures TokenOut(ws, v) <==> TokenOut(s.workers, v) {
      OtherTokens(s.workers, c, w, v);
    }
  }

  /** The step that hands the pending update to the current generation's channel, or puts the flag down. */
  lemma CheckForUpdatesKeepsInv(s: State, c: nat)
    requires Inv(s) && c < |s.workers| && s.workers[c].phase.WrappingUp?
    ensures Inv(CheckForUpdates(SetPhase(s, c, Idle), s.workers[c].uid))
  {
    var uid := s.workers[c].uid;
    var t := SetPhase(s, c, Idle);
    LettingGo(s, c);
    if uid in s.lastUndelivered {
      var t' := t.(lastUndelivered := s.lastUndelivered - {uid});
      SendKeepsInv(t', uid, s.lastUndelivered[uid]);
      SendSucceeds(t, uid, s.lastUndelivered[uid]);
      SendSucceeds(t', uid, s.lastUndelivered[uid]);
    } else {
      var t' := CheckForUpdates(t, uid);
      assert forall v :: v != uid ==> Working(t', v) == Working(t, v);
    }
  }

  lemma StepKeepsInv(s: State, step: Step)
    requires Inv(s) && Enabled(s, step)
    ensures Inv(Next(s, step))
  {
    match step
    case CallUpdatePod(uid, kind) => UpdatePodKeepsInv(s, uid, kind);
    case CallForgetWorker(uid) => RemoveWorkerKeepsInv(s, uid);
    case CallForgetNonExisting(_, order) => RemoveWorkersKeepsInv(s, order);
    case WorkerReceive(c) =>
      assert WorkerOk(s.workers[c]);
      WorkerStepKeepsInv(s, c, Receive(s, c).workers[c]);
    case WorkerStartSync(c) =>
      assert WorkerOk(s.workers[c]);
      WorkerStepKeepsInv(s, c, s.workers[c].(phase := Syncing(s.workers[c].phase.update)));
    case WorkerFetchFails(c) =>
      assert WorkerOk(s.workers[c]);
      WorkerStepKeepsInv(s, c, s.workers[c].(phase := WrappingUp(s.workers[c].phase.update)));
    case WorkerSyncReturns(c) =>
      assert WorkerOk(s.workers[c]);
      WorkerStepKeepsInv(s, c, s.workers[c].(phase := WrappingUp(s.workers[c].phase.update)));
    case WorkerCheckForUpdates(c) =>
      assert WorkerOk(s.workers[c]);
      CheckForUpdatesKeepsInv(s, c);
    case WorkerExit(c) =>
      assert WorkerOk(s.workers[c]);
      WorkerStepKeepsInv(s, c, s.workers[c].(phase := Exited));
  }

  lemma {:induction false} RunKeepsInv(s: State, run: seq<Step>, t: State)
    requires Inv(s) && Reaches(s, run, t)
    ensures Inv(t)
    decreases |run|
  {
    if run != [] {
      StepKeepsInv(s, run[0]);
      RunKeepsInv(Next(s, run[0]), run[1..], t);
    }
  }
}
