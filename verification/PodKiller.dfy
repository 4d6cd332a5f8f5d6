/**
 The kubelet's pod killer: requests are marked in two maps and sent on a bounded channel, all under one
 lock; a receiver starts one goroutine per request, which kills the pod and then needs the lock to unmark
 it. A sender that finds the channel full blocks while it holds the lock.
 */
module PodKiller {
  import opened Common

  type UID = string

  datatype PodRef = PodRef(uid: UID, fullName: string)

  datatype PodPair = PodPair(apiPod: Option<PodRef>, runningPod: Option<PodRef>)

  datatype Killer = Killing(pair: PodPair) | Marking(pair: PodPair)

  datatype State = State(mirrorMap: map<UID, string>,      // mirrorPodTerminationMap
                         podMap: map<UID, string>,         // podTerminationMap
                         queue: seq<PodPair>,              // podKillingCh
                         blocked: Option<PodPair>,         // a sender waiting for room, holding the lock
                         killers: seq<Killer>)

  const CAPACITY := 50

  const INIT := State(map[], map[], [], None, [])

  /** Both callers pass the running pod, and an API pod only with the same UID. */
  predicate WellFormed(pair: PodPair) {
    pair.runningPod.Some? && (pair.apiPod.Some? ==> pair.apiPod.value.uid == pair.runningPod.value.uid)
  }

  function UidOf(pair: PodPair): UID { if pair.runningPod.Some? then pair.runningPod.value.uid else "" }

  function Mark(m: map<UID, string>, pod: Option<PodRef>): map<UID, string> {
    if pod.None? || pod.value.uid in m then m else m[pod.value.uid := pod.value.fullName]
  }

  predicate Marked(m: map<UID, string>, pod: Option<PodRef>) { pod.Some? && pod.value.uid in m }

  function Send(s: State, pair: PodPair): State {
    if |s.queue| < CAPACITY then s.(queue := s.queue + [pair]) else s.(blocked := Some(pair))
  }

  function KillPod(s: State, pair: PodPair): State {
    var t := s.(mirrorMap := Mark(s.mirrorMap, pair.apiPod), podMap := Mark(s.podMap, pair.runningPod));
    if Marked(s.mirrorMap, pair.apiPod) || Marked(s.podMap, pair.runningPod) then t else Send(t, pair)
  }

  function MarkPodTerminated(s: State, uid: UID): State {
    s.(mirrorMap := s.mirrorMap - {uid}, podMap := s.podMap - {uid})
  }

  function Without(ks: seq<Killer>, i: nat): seq<Killer>
    requires i < |ks|
  {
    ks[..i] + ks[i + 1..]
  }

  datatype Step = CallKillPod(pair: PodPair) | SenderUnblocks | Receive | KillReturns(i: nat) | Unmark(i: nat)

  /** The lock is free when no sender is blocked. */
  predicate Enabled(s: State, step: Step) {
    match step
    case CallKillPod(pair) => s.blocked.None? && WellFormed(pair)
    case SenderUnblocks => s.blocked.Some? && |s.queue| < CAPACITY
    case Receive => s.queue != []
    case KillReturns(i) => i < |s.killers| && s.killers[i].Killing?
    case Unmark(i) => s.blocked.None? && i < |s.killers| && s.killers[i].Marking?
  }

  function Next(s: State, step: Step): State
    requires Enabled(s, step)
  {
    match step
    case CallKillPod(pair) => KillPod(s, pair)
    case SenderUnblocks => s.(queue := s.queue + [s.blocked.value], blocked := None)
    case Receive => s.(queue := s.queue[1..], killers := s.killers + [Killing(s.queue[0])])
    case KillReturns(i) => s.(killers := s.killers[i := Marking(s.killers[i].pair)])
    case Unmark(i) => MarkPodTerminated(s, UidOf(s.killers[i].pair)).(killers := Without(s.killers, i))
  }

  predicate Internal(step: Step) { !step.CallKillPod? }

  ghost predicate Reaches(s: State, run: seq<Step>, t: State)
    decreases |run|
  {
    if run == [] then t == s else Enabled(s, run[0]) && Reaches(Next(s, run[0]), run[1..], t)
  }

  // ---------- one outstanding kill per marked pod ----------

  function One(pair: PodPair, uid: UID): nat { if UidOf(pair) == uid then 1 else 0 }

  function Queued(ps: seq<PodPair>, uid: UID): nat {
    if ps == [] then 0 else Queued(ps[..|ps| - 1], uid) + One(ps[|ps| - 1], uid)
  }

  function InHand(ks: seq<Killer>, uid: UID): nat {
    if ks == [] then 0 else InHand(ks[..|ks| - 1], uid) + One(ks[|ks| - 1].pair, uid)
  }

  /** The kills of a pod that are blocked in their send, queued, or being carried out. */
  function Outstanding(s: State, uid: UID): nat {
    Queued(s.queue, uid) + InHand(s.killers, uid) + if s.blocked.Some? then One(s.blocked.value, uid) else 0
  }

  lemma QueueAppend(ps: seq<PodPair>, p: PodPair, uid: UID)
    ensures Queued(ps + [p], uid) == Queued(ps, uid) + One(p, uid)
  {}

  lemma {:induction false} QueueHead(ps: seq<PodPair>, uid: UID)
    requires ps != []
    ensures Queued(ps, uid) == Queued(ps[1..], uid) + One(ps[0], uid)
  {
    if |ps| > 1 {
      var front := ps[..|ps| - 1];
      QueueHead(front, uid);
      assert front[1..] == ps[1..][..|ps| - 2];
    }
  }

  lemma KillerAppend(ks: seq<Killer>, k: Killer, uid: UID)
    ensures InHand(ks + [k], uid) == InHand(ks, uid) + One(k.pair, uid)
  {}

  lemma {:induction false} KillerAdvance(ks: seq<Killer>, i: nat, k: Killer, uid: UID)
    requires i < |ks| && k.pair == ks[i].pair
    ensures InHand(ks[i := k], uid) == InHand(ks, uid)
  {
    var n := |ks| - 1;
    if i < n {
      KillerAdvance(ks[..n], i, k, uid);
      assert ks[i := k][..n] == ks[..n][i := k];
    } else {
      assert ks[i := k][..n] == ks[..n];
    }
  }

  lemma {:induction false} KillerRemove(ks: seq<Killer>, i: nat, uid: UID)
    requires i < |ks|
    ensures InHand(ks, uid) == InHand(Without(ks, i), uid) + One(ks[i].pair, uid)
  {
    var n := |ks| - 1;
    if i < n {
      KillerRemove(ks[..n], i, uid);
      assert Without(ks, i) == Without(ks[..n], i) + [ks[n]];
      KillerAppend(Without(ks[..n], i), ks[n], uid);
    } else {
      assert Without(ks, i) == ks[..n];
    }
  }

  ghost predicate ExactlyOnce(s: State) {
    forall uid :: Outstanding(s, uid) == if uid in s.podMap then 1 else 0
  }

  ghost predicate Sound(s: State) {
    && s.mirrorMap.Keys <= s.podMap.Keys
    && |s.queue| <= CAPACITY
    && (s.blocked.Some? ==> WellFormed(s.blocked.value))
    && (forall i :: 0 <= i < |s.queue| ==> WellFormed(s.queue[i]))
    && (forall i :: 0 <= i < |s.killers| ==> WellFormed(s.killers[i].pair))
  }

  ghost predicate Inv(s: State) { ExactlyOnce(s) && Sound(s) }

  lemma KillPodKeepsInv(s: State, pair: PodPair)
    requires Inv(s) && s.blocked.None? && WellFormed(pair)
    ensures Inv(KillPod(s, pair))
  {
    var t := KillPod(s, pair);
    forall uid ensures Outstanding(t, uid) == if uid in t.podMap then 1 else 0 {
      assert Outstanding(s, uid) == if uid in s.podMap then 1 else 0;
      QueueAppend(s.queue, pair, uid);
    }
  }

  lemma InternalOutstanding(s: State, step: Step, uid: UID)
    requires Enabled(s, step) && Internal(step)
    ensures Outstanding(s, uid) ==
            Outstanding(Next(s, step), uid) + if step.Unmark? then One(s.killers[step.i].pair, uid) else 0
  {
    match step
    case SenderUnblocks => QueueAppend(s.queue, s.blocked.value, uid);
    case Receive =>
      QueueHead(s.queue, uid);
      KillerAppend(s.killers, Killing(s.queue[0]), uid);
    case KillReturns(i) => KillerAdvance(s.killers, i, Marking(s.killers[i].pair), uid);
    case Unmark(i) => KillerRemove(s.killers, i, uid);
  }

  lemma StepKeepsSound(s: State, step: Step)
    requires Sound(s) && Enabled(s, step) && Internal(step)
    ensures Sound(Next(s, step))
  {}

  lemma StepKeepsInv(s: State, step: Step)
    requires Inv(s) && Enabled(s, step)
    ensures Inv(Next(s, step))
  {
    if step.CallKillPod? {
      KillPodKeepsInv(s, step.pair);
    } else {
      StepKeepsSound(s, step);
      var t := Next(s, step);
      forall uid ensures Outstanding(t, uid) == if uid in t.podMap then 1 else 0 {
        InternalOutstanding(s, step, uid);
      }
    }
  }

  lemma {:induction false} RunKeepsInv(s: State, run: seq<Step>, t: State)
    requires Inv(s) && Reaches(s, run, t)
    ensures Inv(t)
    decreases |run|
  {
    if run != [] {
      StepKeepsInv(s, run[0]);
      RunKeepsInv(Next(s, run[0]), run[1..], t);
    }
  }

  /** In every run the marked pods are exactly those with an outstanding kill, and none has two. */
  lemma MarkedExactlyOnce(run: seq<Step>, t: State, uid: UID)
    requires Reaches(INIT, run, t)
    ensures Outstanding(t, uid) == if uid in t.podMap then 1 else 0
    ensures uid in t.mirrorMap ==> uid in t.podMap
    ensures |t.queue| <= 50
  {
    RunKeepsInv(INIT, run, t);
  }

  // ---------- the names under which pods are marked ----------

  /** A kill that is blocked in its send, queued, or being carried out. */
  predicate InProgress(s: State, pair: PodPair) {
    s.blocked == Some(pair) || pair in s.queue || Killing(pair) in s.killers || Marking(pair) in s.killers
  }

  lemma {:induction false} QueuedIff(ps: seq<PodPair>, uid: UID)
    ensures Queued(ps, uid) > 0 <==> exists pair :: pair in ps && UidOf(pair) == uid
  {
    if ps != [] {
      var n := |ps| - 1;
      QueuedIff(ps[..n], uid);
      assert ps == ps[..n] + [ps[n]];
    }
  }

  lemma {:induction false} InHandIff(ks: seq<Killer>, uid: UID)
    ensures InHand(ks, uid) > 0 <==> exists k :: k in ks && UidOf(k.pair) == uid
  {
    if ks != [] {
      var n := |ks| - 1;
      InHandIff(ks[..n], uid);
      assert ks == ks[..n] + [ks[n]];
    }
  }

  lemma OutstandingIff(s: State, uid: UID)
    ensures Outstanding(s, uid) > 0 <==> exists pair :: InProgress(s, pair) && UidOf(pair) == uid
  {
    QueuedIff(s.queue, uid);
    InHandIff(s.killers, uid);
    if pair :| InProgress(s, pair) && UidOf(pair) == uid {
      assert s.blocked != Some(pair) && pair !in s.queue ==> exists k :: k in s.killers && k.pair == pair;
    }
    if k :| k in s.killers && UidOf(k.pair) == uid {
      assert InProgress(s, k.pair);
    }
    if pair :| pair in s.queue && UidOf(pair) == uid {
      assert InProgress(s, pair);
    }
    if s.blocked.Some? && UidOf(s.blocked.value) == uid {
      assert InProgress(s, s.blocked.value);
    }
  }

  predicate NamedInMap(s: State, pair: PodPair) {
    pair.runningPod.Some? && pair.runningPod.value.uid in s.podMap
    && s.podMap[pair.runningPod.value.uid] == pair.runningPod.value.fullName
  }

  ghost predicate NamesInv(s: State) { forall pair :: InProgress(s, pair) ==> NamedInMap(s, pair) }

  lemma StillMarked(s: State, pair: PodPair)
    requires Inv(s) && InProgress(s, pair)
    ensures UidOf(pair) in s.podMap
  {
    OutstandingIff(s, UidOf(pair));
    assert Outstanding(s, UidOf(pair)) == if UidOf(pair) in s.podMap then 1 else 0;
  }

  lemma CallNames(s: State, new_: PodPair, pair: PodPair)
    requires NamesInv(s) && WellFormed(new_) && InProgress(KillPod(s, new_), pair)
    ensures NamedInMap(KillPod(s, new_), pair)
  {
    if InProgress(s, pair) {
      assert NamedInMap(s, pair);
    } else {
      assert pair == new_;
    }
  }

  lemma InternalProgress(s: State, step: Step, pair: PodPair)
    requires Enabled(s, step) && Internal(step) && InProgress(Next(s, step), pair)
    ensures InProgress(s, pair)
  {
    match step
    case SenderUnblocks =>
    case Receive =>
    case KillReturns(i) => assert s.killers[i] == Killing(s.killers[i].pair);
    case Unmark(i) =>
  }

  lemma StepKeepsNames(s: State, step: Step)
    requires Inv(s) && NamesInv(s) && Enabled(s, step)
    ensures NamesInv(Next(s, step))
  {
    var t := Next(s, step);
    StepKeepsInv(s, step);
    forall pair | InProgress(t, pair) ensures NamedInMap(t, pair) {
      StillMarked(t, pair);
      if step.CallKillPod? {
        CallNames(s, step.pair, pair);
      } else {
        InternalProgress(s, step, pair);
        assert NamedInMap(s, pair);
      }
    }
  }

  lemma {:induction false} RunKeepsNames(s: State, run: seq<Step>, t: State)
    requires Inv(s) && NamesInv(s) && Reaches(s, run, t)
    ensures NamesInv(t)
    decreases |run|
  {
    if run != [] {
      StepKeepsInv(s, run[0]);
      StepKeepsNames(s, run[0]);
      RunKeepsNames(Next(s, run[0]), run[1..], t);
    }
  }

  /** In every run a name is in the map of running pods exactly while a kill of a pod of that full name is underway. */
  lemma MarkedNames(run: seq<Step>, t: State, name: string)
    requires Reaches(INIT, run, t)
    ensures name in t.podMap.Values <==>
            exists pair :: InProgress(t, pair) && pair.runningPod.Some? && pair.runningPod.value.fullName == name
  {
    RunKeepsInv(INIT, run, t);
    RunKeepsNames(INIT, run, t);
    if name in t.podMap.Values {
      var uid :| uid in t.podMap && t.podMap[uid] == name;
      assert Outstanding(t, uid) == 1;
      OutstandingIff(t, uid);
      var pair :| InProgress(t, pair) && UidOf(pair) == uid;
      assert NamedInMap(t, pair);
    }
    if pair :| InProgress(t, pair) && pair.runningPod.Some? && pair.runningPod.value.fullName == name {
      assert NamedInMap(t, pair);
    }
  }

  /** A name in the map of API pods is the full name that some call gave for the UID. */
  lemma {:induction false} MirrorNames(s: State, run: seq<Step>, t: State, uid: UID)
    requires Reaches(s, run, t) && uid in t.mirrorMap
    ensures || (uid in s.mirrorMap && s.mirrorMap[uid] == t.mirrorMap[uid])
            || exists i :: 0 <= i < |run| && run[i].CallKillPod?
                 && run[i].pair.apiPod == Some(PodRef(uid, t.mirrorMap[uid]))
    decreases |run|
  {
    if run != [] {
      MirrorNames(Next(s, run[0]), run[1..], t, uid);
      if i :| 0 <= i < |run[1..]| && run[1..][i].CallKillPod?
              && run[1..][i].pair.apiPod == Some(PodRef(uid, t.mirrorMap[uid])) {
        assert run[i + 1] == run[1..][i];
      }
    }
  }

  // ---------- no deadlock, and the maps drain ----------

  function KillerWork(ks: seq<Killer>): nat {
    if ks == [] then 0 else KillerWork(ks[..|ks| - 1]) + if ks[|ks| - 1].Killing? then 2 else 1
  }

  /** The internal steps the outstanding kills still have to take. */
  function Work(s: State): nat {
    (if s.blocked.Some? then 4 else 0) + 3 * |s.queue| + KillerWork(s.killers)
  }

  lemma KillerWorkAppend(ks: seq<Killer>, k: Killer)
    ensures KillerWork(ks + [k]) == KillerWork(ks) + if k.Killing? then 2 else 1
  {}

  lemma {:induction false} KillerWorkAdvance(ks: seq<Killer>, i: nat)
    requires i < |ks| && ks[i].Killing?
    ensures KillerWork(ks[i := Marking(ks[i].pair)]) == KillerWork(ks) - 1
  {
    var n, ks' := |ks| - 1, ks[i := Marking(ks[i].pair)];
    if i < n {
      KillerWorkAdvance(ks[..n], i);
      assert ks'[..n] == ks[..n][i := Marking(ks[i].pair)];
    } else {
      assert ks'[..n] == ks[..n];
    }
  }

  lemma {:induction false} KillerWorkRemove(ks: seq<Killer>, i: nat)
    requires i < |ks| && ks[i].Marking?
    ensures KillerWork(Without(ks, i)) == KillerWork(ks) - 1
  {
    var n := |ks| - 1;
    if i < n {
      KillerWorkRemove(ks[..n], i);
      assert Without(ks, i) == Without(ks[..n], i) + [ks[n]];
      KillerWorkAppend(Without(ks[..n], i), ks[n]);
    } else {
      assert Without(ks, i) == ks[..n];
    }
  }

  lemma InternalStepWorks(s: State, step: Step)
    requires Enabled(s, step) && Internal(step)
    ensures Work(Next(s, step)) == Work(s) - 1
  {
    match step
    case SenderUnblocks =>
    case Receive => KillerWorkAppend(s.killers, Killing(s.queue[0]));
    case KillReturns(i) => KillerWorkAdvance(s.killers, i);
    case Unmark(i) => KillerWorkRemove(s.killers, i);
  }

  /**
   Although KillPod sends on a bounded channel while holding the lock, some internal step is always possible while a
   kill is outstanding.
   */
  lemma NeverDeadlocks(run: seq<Step>, t: State, uid: UID)
    requires Reaches(INIT, run, t) && uid in t.podMap
    ensures exists step :: Internal(step) && Enabled(t, step)
  {
    RunKeepsInv(INIT, run, t);
    assert Outstanding(t, uid) == 1;
    if t.queue != [] {
      assert Enabled(t, Receive) && Internal(Receive);
    } else if t.blocked.Some? {
      assert Enabled(t, SenderUnblocks) && Internal(SenderUnblocks);
    } else {
      assert t.killers != [];
      var step := if t.killers[0].Killing? then KillReturns(0) else Unmark(0);
      assert Enabled(t, step) && Internal(step);
    }
  }

  lemma {:induction false} InternalRunLength(s: State, run: seq<Step>, t: State)
    requires Reaches(s, run, t) && forall i :: 0 <= i < |run| ==> Internal(run[i])
    ensures Work(t) == Work(s) - |run|
    decreases |run|
  {
    if run != [] {
      InternalStepWorks(s, run[0]);
      forall i | 0 <= i < |run[1..]| ensures Internal(run[1..][i]) {
        assert run[1..][i] == run[i + 1];
      }
      InternalRunLength(Next(s, run[0]), run[1..], t);
    }
  }

  lemma NoMarksWithoutKills(s: State)
    requires Inv(s) && s.queue == [] && s.killers == [] && s.blocked.None?
    ensures s.podMap == map[] && s.mirrorMap == map[]
  {}

  lemma QuietMeansIdle(s: State)
    requires Sound(s) && forall step :: Internal(step) ==> !Enabled(s, step)
    ensures s.queue == [] && s.killers == [] && s.blocked.None?
  {
    assert !Enabled(s, Receive) && !Enabled(s, SenderUnblocks) && !Enabled(s, KillReturns(0)) && !Enabled(s, Unmark(0));
  }

  /**
   With no new requests, whichever steps are taken: there are at most `Work` of them, and when none is left
   both maps are empty.
   */
  lemma MapsDrain(before: seq<Step>, s: State, run: seq<Step>, t: State)
    requires Reaches(INIT, before, s) && Reaches(s, run, t)
    requires forall i :: 0 <= i < |run| ==> Internal(run[i])
    ensures |run| <= Work(s)
    ensures (forall step :: Internal(step) ==> !Enabled(t, step)) ==> t.podMap == map[] && t.mirrorMap == map[]
  {
    RunKeepsInv(INIT, before, s);
    RunKeepsInv(s, run, t);
    InternalRunLength(s, run, t);
    if forall step :: Internal(step) ==> !Enabled(t, step) {
      QuietMeansIdle(t);
      NoMarksWithoutKills(t);
    }
  }

  /**
   The calls' UIDs matter: an API pod with another UID than the running pod stays marked when its kill ends, since
   unmarking goes by the running pod, and is unmarked only when a later kill of its own UID ends.
   */
  lemma MismatchedPairLeavesAMark(pod: PodRef, other: PodRef)
    requires pod.uid != other.uid
    ensures var s := KillPod(INIT, PodPair(Some(other), Some(pod)));
      && Outstanding(s, pod.uid) == 1 && Outstanding(s, other.uid) == 0
      && MarkPodTerminated(s, pod.uid).podMap == map[]
      && MarkPodTerminated(s, pod.uid).mirrorMap == map[other.uid := other.fullName]
      && (forall uid ::
            other.uid in MarkPodTerminated(MarkPodTerminated(s, pod.uid), uid).mirrorMap <==> uid != other.uid)
  {
    var pair := PodPair(Some(other), Some(pod));
    assert [] + [pair] == [pair];
    QueueAppend([], pair, pod.uid);
    QueueAppend([], pair, other.uid);
  }
}
