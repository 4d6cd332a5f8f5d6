/** The `podKillerWithChannel` object. Each method runs with the lock held, so it starts with no sender blocked. */
module PodKillerObject {
  import opened Common
  import opened K = PodKiller

  class PodKillerWithChannel {
    var mirrorPodTerminationMap: map<UID, string>
    var podTerminationMap: map<UID, string>
    var podKillingCh: seq<PodPair>
    var blocked: Option<PodPair>
    var killers: seq<Killer>

    ghost function Abs(): State
      reads this
    {
      State(mirrorPodTerminationMap, podTerminationMap, podKillingCh, blocked, killers)
    }

    constructor ()
      ensures Abs() == INIT && Inv(Abs())
    {
      mirrorPodTerminationMap, podTerminationMap, podKillingCh, blocked, killers := map[], map[], [], None, [];
    }

    method KillPod(pair: PodPair)
      requires blocked.None?
      modifies this
      ensures Abs() == K.KillPod(old(Abs()), pair)
      ensures old(Inv(Abs())) && WellFormed(pair) ==> Inv(Abs())
    {
      if Inv(Abs()) && WellFormed(pair) {
        KillPodKeepsInv(Abs(), pair);
      }
      var apiPodExists, runningPodExists := false, false;
      if pair.apiPod.Some? {
        var uid := pair.apiPod.value.uid;
        apiPodExists := uid in mirrorPodTerminationMap;
        if !apiPodExists {
          mirrorPodTerminationMap := mirrorPodTerminationMap[uid := pair.apiPod.value.fullName];
        }
      }
      if pair.runningPod.Some? {
        var uid := pair.runningPod.value.uid;
        runningPodExists := uid in podTerminationMap;
        if !runningPodExists {
          podTerminationMap := podTerminationMap[uid := pair.runningPod.value.fullName];
        }
      }
      if apiPodExists || runningPodExists { return; }
      if |podKillingCh| < CAPACITY {
        podKillingCh := podKillingCh + [pair];
      } else {
        blocked := Some(pair);
      }
    }

    /** The last action of the goroutine that killed `killers[i]`. */
    method MarkPodTerminated(i: nat)
      requires Inv(Abs()) && Enabled(Abs(), Unmark(i))
      modifies this
      ensures Inv(Abs()) && Abs() == Next(old(Abs()), Unmark(i))
    {
      StepKeepsInv(Abs(), Unmark(i));
      var uid := UidOf(killers[i].pair);
      mirrorPodTerminationMap := mirrorPodTerminationMap - {uid};
      podTerminationMap := podTerminationMap - {uid};
      killers := Without(killers, i);
    }

    /** True exactly while the pod has an outstanding kill. */
    method IsPodPendingTerminationByUID(uid: UID) returns (pending: bool)
      requires Inv(Abs())
      ensures pending <==> Outstanding(Abs(), uid) == 1
    {
      assert Outstanding(Abs(), uid) == if uid in podTerminationMap then 1 else 0;
      if uid in podTerminationMap { return true; }
      return uid in mirrorPodTerminationMap;
    }

    method IsPodPendingTerminationByPodName(fullName: string) returns (pending: bool)
      ensures pending <==> fullName in mirrorPodTerminationMap.Values || fullName in podTerminationMap.Values
    {
      pending := HasName(mirrorPodTerminationMap, fullName);
      if !pending {
        pending := HasName(podTerminationMap, fullName);
      }
    }

    static method HasName(m: map<UID, string>, name: string) returns (found: bool)
      ensures found <==> name in m.Values
    {
      var todo := m.Keys;
      while todo != {}
        invariant todo <= m.Keys && forall uid :: uid in m && uid !in todo ==> m[uid] != name
        decreases todo
      {
        var uid :| uid in todo;
        if m[uid] == name { return true; }
        todo := todo - {uid};
      }
      return false;
    }
  }
}
