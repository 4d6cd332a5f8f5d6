/** The `podWorkers` object: its maps, and the methods that change them under `podLock`. */
module PodWorkerPool {
  import opened Common
  import opened P = PodWorkers

  /** The channel of the pod is there, open and empty. */
  predicate ChannelReady(s: State, uid: UID) {
    uid in s.podUpdates && s.podUpdates[uid] < |s.workers|
    && !s.workers[s.podUpdates[uid]].closed && s.workers[s.podUpdates[uid]].buffer == []
  }

  lemma UpdatePodMaySend(s: State, uid: UID, kind: SyncPodType)
    requires Inv(s)
    ensures Inv(P.UpdatePod(s, uid, kind))
    ensures var s1 := EnsureWorker(Issue(s, NextUpdate(s, uid, kind)), uid);
      Working(s1, uid) || ChannelReady(s1, uid)
  {
    UpdatePodKeepsInv(s, uid, kind);
    var s0 := Issue(s, NextUpdate(s, uid, kind));
    IssueKeepsInv(s, NextUpdate(s, uid, kind));
    EnsureWorkerKeepsInv(s0, uid);
    if !Working(EnsureWorker(s0, uid), uid) {
      SendSucceeds(EnsureWorker(s0, uid), uid, NextUpdate(s, uid, kind));
    }
  }

  /** The step `wrapUp` ends with keeps the invariant, and a pending update finds the channel ready. */
  lemma CheckForUpdatesMaySend(s: State, c: nat)
    requires Inv(s) && c < |s.workers| && s.workers[c].phase.WrappingUp?
    ensures var t := P.CheckForUpdates(SetPhase(s, c, Idle), s.workers[c].uid);
      t == Next(s, WorkerCheckForUpdates(c)) && Inv(t)
    ensures s.workers[c].uid in s.lastUndelivered ==> ChannelReady(SetPhase(s, c, Idle), s.workers[c].uid)
  {
    StepKeepsInv(s, WorkerCheckForUpdates(c));
    LettingGo(s, c);
    assert WorkerOk(s.workers[c]);
    var uid := s.workers[c].uid;
    if uid in s.lastUndelivered {
      SendSucceeds(SetPhase(s, c, Idle), uid, s.lastUndelivered[uid]);
    }
  }

  lemma RemoveWorkersMore(s: State, order: seq<UID>, uid: UID)
    ensures RemoveWorkers(s, order + [uid]) == P.RemoveWorker(RemoveWorkers(s, order), uid)
  {}

  lemma EnumeratesMore(order: seq<UID>, all: set<UID>, todo: set<UID>, uid: UID)
    requires todo <= all && uid in all - todo && Enumerates(order, all - (todo + {uid}))
    ensures Enumerates(order + [uid], all - todo)
  {}

  class PodWorkerPool {
    var podUpdates: map<UID, nat>
    var isWorking: map<UID, bool>
    var lastUndelivered: map<UID, Update>
    var workers: seq<Worker>
    var logs: map<UID, PodLog>

    ghost function Abs(): State
      reads this
    {
      State(podUpdates, isWorking, lastUndelivered, workers, logs, NoFault)
    }

    ghost predicate Valid()
      reads this
    {
      Inv(Abs())
    }

    constructor ()
      ensures Valid() && Abs() == INIT
    {
      podUpdates, isWorking, lastUndelivered, workers, logs := map[], map[], map[], [], map[];
    }

    method Log(uid: UID) returns (l: PodLog)
      ensures l == LogOf(Abs(), uid)
    {
      if uid in logs { l := logs[uid]; } else { l := PodLog([], [], [], [], []); }
    }

    /** A channel send: its precondition is that the channel exists, is open and has room. */
    method SendOn(c: nat, u: Update)
      requires c < |workers| && !workers[c].closed && |workers[c].buffer| < BUFFER_SIZE
      modifies this`workers
      ensures workers == old(workers)[c := old(workers)[c].(buffer := old(workers)[c].buffer + [u])]
    {
      workers := workers[c := workers[c].(buffer := workers[c].buffer + [u])];
    }

    /**
     The body of `UpdatePod`: all it needs of the pool is that the channel is ready unless the pod is being worked
     on.
     */
    method Put(uid: UID, kind: SyncPodType)
      requires var s1 := EnsureWorker(Issue(Abs(), NextUpdate(Abs(), uid, kind)), uid);
        Working(s1, uid) || ChannelReady(s1, uid)
      modifies this
      ensures Abs() == P.UpdatePod(old(Abs()), uid, kind)
    {
      var l := Log(uid);
      var u := Update(uid, kind, |l.issued|);
      l := l.(issued := l.issued + [u]);
      logs := logs[uid := l];
      if uid !in podUpdates {
        podUpdates := podUpdates[uid := |workers|];
        workers := workers + [Worker(uid, [], false, Idle)];
      }
      if uid !in isWorking || !isWorking[uid] {
        isWorking := isWorking[uid := true];
        SendOn(podUpdates[uid], u);
      } else if uid !in lastUndelivered {
        lastUndelivered := lastUndelivered[uid := u];
      } else if lastUndelivered[uid].kind != SyncPodKill {
        logs := logs[uid := l.(superseded := l.superseded + [lastUndelivered[uid]])];
        lastUndelivered := lastUndelivered[uid := u];
      } else {
        logs := logs[uid := l.(refused := l.refused + [u])];
      }
    }

    method UpdatePod(uid: UID, kind: SyncPodType)
      requires Valid()
      modifies this
      ensures Valid() && Abs() == P.UpdatePod(old(Abs()), uid, kind)
    {
      UpdatePodMaySend(Abs(), uid, kind);
      Put(uid, kind);
    }

    method RemoveWorker(uid: UID)
      requires Valid()
      modifies this
      ensures Valid() && Abs() == P.RemoveWorker(old(Abs()), uid)
      ensures podUpdates == old(podUpdates) - {uid}
    {
      RemoveWorkerKeepsInv(Abs(), uid);
      if uid in podUpdates {
        var c := podUpdates[uid];
        workers := workers[c := workers[c].(closed := true)];
        podUpdates := podUpdates - {uid};
        if uid in lastUndelivered {
          var l := Log(uid);
          logs := logs[uid := l.(dropped := l.dropped + [lastUndelivered[uid]])];
        }
        lastUndelivered := lastUndelivered - {uid};
      }
    }

    method ForgetNonExistingPodWorkers(desired: set<UID>) returns (ghost order: seq<UID>)
      requires Valid()
      modifies this
      ensures Valid() && Enumerates(order, old(podUpdates).Keys - desired)
      ensures Abs() == RemoveWorkers(old(Abs()), order)
      ensures podUpdates.Keys == old(podUpdates).Keys * desired
    {
      order := [];
      ghost var surplus := podUpdates.Keys - desired;
      var todo := podUpdates.Keys - desired;
      while todo != {}
        invariant Valid() && Abs() == RemoveWorkers(old(Abs()), order)
        invariant todo <= surplus && Enumerates(order, surplus - todo)
        invariant podUpdates.Keys == old(podUpdates).Keys - (surplus - todo)
        decreases todo
      {
        var uid :| uid in todo;
        RemoveWorkersMore(old(Abs()), order, uid);
        RemoveWorker(uid);
        todo := todo - {uid};
        EnumeratesMore(order, surplus, todo, uid);
        order := order + [uid];
      }
    }

    method CheckForUpdates(uid: UID)
      requires uid in lastUndelivered ==> ChannelReady(Abs(), uid)
      modifies this
      ensures Abs() == P.CheckForUpdates(old(Abs()), uid)
    {
      if uid in lastUndelivered {
        SendOn(podUpdates[uid], lastUndelivered[uid]);
        lastUndelivered := lastUndelivered - {uid};
      } else {
        isWorking := isWorking[uid := false];
      }
    }

    /** Worker `c` ends `wrapUp` and goes back to the head of its loop. */
    method FinishUpdate(c: nat)
      requires Valid() && c < |workers| && workers[c].phase.WrappingUp?
      modifies this
      ensures Valid() && Abs() == Next(old(Abs()), WorkerCheckForUpdates(c))
    {
      CheckForUpdatesMaySend(Abs(), c);
      var uid := workers[c].uid;
      workers := workers[c := workers[c].(phase := Idle)];
      CheckForUpdates(uid);
    }
  }
}
