/** With no further calls the pod workers come to rest: every accepted update is worked off and no pod stays marked. */
module PodWorkerDrain {
  import opened Common
  import opened PodWorkers
  import opened PodWorkerHistory

  /** A step that a worker takes by itself, as opposed to a call from outside. */
  predicate ByWorker(step: Step) { !step.CallUpdatePod? && !step.CallForgetWorker? && !step.CallForgetNonExisting? }

  /** The steps a worker can still take for what it holds, its exit included. */
  function WorkOf(w: Worker): nat {
    4 * |w.buffer| +
    match w.phase
    case Idle => 1
    case Fetching(_) => 4
    case Syncing(_) => 3
    case WrappingUp(_) => 2
    case Exited => 0
  }

  function TotalWork(ws: seq<Worker>): nat {
    if ws == [] then 0 else TotalWork(ws[..|ws| - 1]) + WorkOf(ws[|ws| - 1])
  }

  /** A bound on the worker steps left: what the workers hold, and what is pending for them. */
  function Work(s: State): nat { TotalWork(s.workers) + 5 * |s.lastUndelivered| }

  lemma {:induction false} TotalWorkWith(ws: seq<Worker>, c: nat, w: Worker)
    requires c < |ws|
    ensures TotalWork(ws[c := w]) == TotalWork(ws) - WorkOf(ws[c]) + WorkOf(w)
  {
    var n := |ws| - 1;
    if c < n {
      TotalWorkWith(ws[..n], c, w);
      assert ws[c := w][..n] == ws[..n][c := w];
    } else {
      assert ws[c := w][..n] == ws[..n];
    }
  }

  /** Handing the pending update over costs less than it weighed. */
  lemma HandOverWorks(s: State, c: nat)
    requires Inv(s) && c < |s.workers| && s.workers[c].phase.WrappingUp?
    ensures Work(CheckForUpdates(SetPhase(s, c, Idle), s.workers[c].uid)) < Work(s)
  {
    var uid, t := s.workers[c].uid, SetPhase(s, c, Idle);
    LettingGo(s, c);
    TotalWorkWith(s.workers, c, t.workers[c]);
    if uid in s.lastUndelivered {
      var u := s.lastUndelivered[uid];
      SendSucceeds(t, uid, u);
      var d := t.podUpdates[uid];
      TotalWorkWith(t.workers, d, t.workers[d].(buffer := [u]));
      assert (s.lastUndelivered - {uid}).Keys == s.lastUndelivered.Keys - {uid};
      assert |s.lastUndelivered - {uid}| == |s.lastUndelivered| - 1;
    }
  }

  lemma WorkerStepWorks(s: State, step: Step)
    requires Inv(s) && Enabled(s, step) && ByWorker(step)
    ensures Work(Next(s, step)) < Work(s)
  {
    var c := step.worker;
    assert WorkerOk(s.workers[c]);
    if step.WorkerCheckForUpdates? {
      HandOverWorks(s, c);
    } else {
      TotalWorkWith(s.workers, c, Next(s, step).workers[c]);
    }
  }

  lemma {:induction false} WorkerRunWorks(s: State, run: seq<Step>, t: State)
    requires Inv(s) && Reaches(s, run, t) && forall i :: 0 <= i < |run| ==> ByWorker(run[i])
    ensures |run| + Work(t) <= Work(s)
    decreases |run|
  {
    if run != [] {
      assert ByWorker(run[0]);
      WorkerStepWorks(s, run[0]);
      StepKeepsInv(s, run[0]);
      forall i | 0 <= i < |run[1..]| ensures ByWorker(run[1..][i]) {
        assert run[1..][i] == run[i + 1];
      }
      WorkerRunWorks(Next(s, run[0]), run[1..], t);
    }
  }

  ghost predicate AtRest(s: State) {
    forall step :: ByWorker(step) ==> !Enabled(s, step)
  }

  lemma NobodyHoldsAtRest(s: State, c: nat)
    requires Inv(s) && AtRest(s) && c < |s.workers|
    ensures !Holds(s.workers[c])
  {
    assert WorkerOk(s.workers[c]);
    assert ByWorker(WorkerReceive(c)) && !Enabled(s, WorkerReceive(c));
    assert ByWorker(WorkerStartSync(c)) && !Enabled(s, WorkerStartSync(c));
    assert ByWorker(WorkerSyncReturns(c)) && !Enabled(s, WorkerSyncReturns(c));
    assert ByWorker(WorkerCheckForUpdates(c)) && !Enabled(s, WorkerCheckForUpdates(c));
  }

  lemma RestIsQuiet(s: State, uid: UID)
    requires Inv(s) && AtRest(s)
    ensures !Working(s, uid) && InFlight(s.workers, uid) == [] && Pending(s, uid) == []
  {
    forall c ensures !HolderOf(s.workers, uid, c) {
      if 0 <= c < |s.workers| {
        NobodyHoldsAtRest(s, c);
      }
    }
    NobodyHolds(s.workers, uid);
  }

  /**
   From any reachable state, without further calls: whichever steps the workers take there is a bound on their number,
   and when none is left no pod is marked as working and nothing is pending or in flight, so that every call made was
   synced, given up for a cache error, superseded, refused or dropped, exactly one of these.
   */
  lemma WorkersComeToRest(before: seq<Step>, s: State, run: seq<Step>, t: State, uid: UID, k: nat)
    requires Reaches(INIT, before, s) && Reaches(s, run, t) && forall i :: 0 <= i < |run| ==> ByWorker(run[i])
    ensures |run| <= Work(s)
    ensures AtRest(t) ==> !Working(t, uid) && uid !in t.lastUndelivered
    ensures AtRest(t) && k < |LogOf(t, uid).issued| ==>
              var l := LogOf(t, uid);
              var u := l.issued[k];
              multiset(Synced(t, uid))[u] + multiset(FetchFailed(t, uid))[u] + multiset(l.superseded)[u]
              + multiset(l.refused)[u] + multiset(l.dropped)[u] == 1
  {
    RunKeepsInv(INIT, before, s);
    RunKeepsInv(s, run, t);
    WorkerRunWorks(s, run, t);
    if AtRest(t) {
      RestIsQuiet(t, uid);
      if k < |LogOf(t, uid).issued| {
        Joined(INIT, before, s, run, t);
        EveryCallHasOneFate(before + run, t, uid, k);
      }
    }
  }

  lemma {:induction false} Joined(r: State, before: seq<Step>, s: State, run: seq<Step>, t: State)
    requires Reaches(r, before, s) && Reaches(s, run, t)
    ensures Reaches(r, before + run, t)
    decreases |before|
  {
    if before == [] {
      assert before + run == run;
    } else {
      assert (before + run)[1..] == before[1..] + run;
      Joined(Next(r, before[0]), before[1..], s, run, t);
    }
  }
}
