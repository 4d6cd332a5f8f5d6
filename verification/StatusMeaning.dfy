/**
 What the container statuses and the phase say, told from the runtime's records, the statuses reported before and the
 start failures alone.
 */
module StatusMeaning {
  import opened Common
  import opened Ordering
  import opened PodStatus
  import opened StatusConversion

  // ---------- which of several of one name ----------

  /** The first status of a list counts, as for every reader of it. */
  lemma {:induction false} LookupIsFirst(l: seq<ContainerStatus>, name: string, i: nat)
    requires i < |l| && l[i].name == name && forall j :: 0 <= j < i ==> l[j].name != name
    ensures Lookup(l, name) == Some(l[i])
  {
    if i > 0 {
      LookupIsFirst(l[1..], name, i - 1);
    }
  }

  /** Of the statuses reported before, the last counts. */
  lemma {:induction false} OldStatusIsLast(previous: seq<ContainerStatus>, name: string, i: nat)
    requires i < |previous| && previous[i].name == name
    requires forall j :: i < j < |previous| ==> previous[j].name != name
    ensures OldStatus(previous, name) == Some(previous[i])
  {
    if i < |previous| - 1 {
      OldStatusIsLast(previous[..|previous| - 1], name, i);
    }
  }

  /** Of the containers of a spec, the last counts. */
  lemma {:induction false} LastNamedIsLast(containers: seq<Container>, name: string, i: nat)
    requires i < |containers| && containers[i].name == name
    requires forall j :: i < j < |containers| ==> containers[j].name != name
    ensures LastNamed(containers, name) == Some(containers[i])
  {
    if i < |containers| - 1 {
      LastNamedIsLast(containers[..|containers| - 1], name, i);
    }
  }

  // ---------- the newest records of a container ----------

  /** Of records that come newest first, `i` is the newest with the name. */
  ghost predicate Newest(records: seq<Record>, name: string, i: int) {
    0 <= i < |records| && records[i].name == name && forall j :: 0 <= j < i ==> records[j].name != name
  }

  ghost predicate SecondNewest(records: seq<Record>, name: string, i: int, k: int) {
    && Newest(records, name, i) && i < k < |records| && records[k].name == name
    && forall j :: i < j < k ==> records[j].name != name
  }

  lemma {:induction false} NamedConcat(a: seq<Record>, b: seq<Record>, name: string)
    ensures Named(a + b, name) == Named(a, name) + Named(b, name)
  {
    if b == [] {
      assert a + b == a;
    } else {
      var n := |b| - 1;
      NamedConcat(a, b[..n], name);
      assert (a + b)[..|a + b| - 1] == a + b[..n];
    }
  }

  lemma {:induction false} NamedNone(records: seq<Record>, name: string)
    requires forall r :: r in records ==> r.name != name
    ensures Named(records, name) == []
  {
    if records != [] {
      NamedNone(records[..|records| - 1], name);
    }
  }

  lemma NewestIsFirst(records: seq<Record>, name: string, i: nat)
    requires Newest(records, name, i)
    ensures Named(records, name) == [records[i]] + Named(records[i + 1..], name)
  {
    var front, rest := records[..i], records[i + 1..];
    assert records == front + [records[i]] + rest;
    NamedConcat(front + [records[i]], rest, name);
    NamedConcat(front, [records[i]], name);
    NamedNone(front, name);
    assert Named([records[i]], name) == [records[i]];
  }

  lemma SecondNewestIsNext(records: seq<Record>, name: string, i: nat, k: nat)
    requires SecondNewest(records, name, i, k)
    ensures |Named(records, name)| >= 2 && Named(records, name)[1] == records[k]
  {
    NewestIsFirst(records, name, i);
    var rest := records[i + 1..];
    assert rest[k - i - 1] == records[k];
    assert forall j :: 0 <= j < k - i - 1 ==> rest[j] == records[i + 1 + j];
    NewestIsFirst(rest, name, k - i - 1);
  }

  lemma {:induction false} FirstAfter(records: seq<Record>, name: string, i: nat, k: nat)
    requires Newest(records, name, i) && i < k < |records| && records[k].name == name
    ensures exists m :: SecondNewest(records, name, i, m)
    decreases k
  {
    if j: nat :| i < j < k && records[j].name == name {
      FirstAfter(records, name, i, j);
    } else {
      assert SecondNewest(records, name, i, k);
    }
  }

  lemma OnlyRecord(records: seq<Record>, name: string, i: nat)
    requires Newest(records, name, i) && forall k :: !SecondNewest(records, name, i, k)
    ensures Named(records, name) == [records[i]]
  {
    NewestIsFirst(records, name, i);
    var rest := records[i + 1..];
    forall m | 0 <= m < |rest| ensures rest[m].name != name {
      if rest[m].name == name {
        FirstAfter(records, name, i, i + 1 + m);
      }
    }
    NamedNone(rest, name);
  }

  // ---------- what a status says of its container ----------

  /** The container was last reported running. */
  predicate RanBefore(previous: seq<ContainerStatus>, name: string) {
    OldStatus(previous, name).Some? && OldStatus(previous, name).value.state.running.Some?
  }

  /** A container to be started, or started again, that the reason cache knows a start failure of. */
  predicate StartFailureShown(pod: Pod, newest: Option<Record>, isInit: bool, failures: map<string, StartFailure>,
                              name: string) {
    && name in failures && !pod.deleting
    && (|| newest.None? || newest.value.state == Unknown || newest.value.state == Created
        || (&& newest.value.state == Exited && !(isInit && newest.value.exitCode == 0)
            && (pod.restartPolicy == Always || (pod.restartPolicy == OnFailure && newest.value.exitCode != 0))))
  }

  /** The state is the one the record tells. */
  predicate Tells(st: ContainerState, r: Record, ranBefore: bool) {
    && (st.running.Some? <==> r.state == Running)
    && (r.state == Running ==> st.running.value == r.startedAt)
    && (st.waiting.Some? <==> r.state == Unknown && !ranBefore)
    && (st.terminated.Some? <==> r.state == Exited || r.state == Created || (r.state == Unknown && ranBefore))
    && (r.state == Exited || r.state == Created ==>
          var e := st.terminated.value;
          && e.exitCode == Int32(r.exitCode) && e.reason == r.reason && e.message == r.message
          && e.startedAt == r.startedAt && e.finishedAt == r.finishedAt && e.containerID == r.id)
    && (r.state == Unknown && ranBefore ==>
          st.terminated.value.exitCode == 137 && st.terminated.value.reason == "ContainerStatusUnknown")
  }

  lemma ConvertTells(r: Record, previous: seq<ContainerStatus>, name: string)
    ensures Tells(ConvertRecord(r, OldStatus(previous, name)).state, r, RanBefore(previous, name))
  {}

  lemma CountedFromNewest(pod: Pod, records: seq<Record>, previous: seq<ContainerStatus>, c: Container, isInit: bool,
                           failures: map<string, StartFailure>, i: nat)
    requires Newest(records, c.name, i)
    ensures var r, s := records[i], Reported(pod, records, previous, c, isInit, failures);
      && s.image == r.image && s.imageID == r.imageID && s.containerID == r.id
      && s.restartCount ==
         (if r.state == Unknown && RanBefore(previous, c.name)
          then Int32(OldStatus(previous, c.name).value.restartCount + 1) else Int32(r.restartCount))
  {
    NewestIsFirst(records, c.name, i);
    var mine := Named(records, c.name);
    var s := FromRecords(Default(c, None, false), mine, OldStatus(previous, c.name));
    var t := ConvertRecord(records[i], OldStatus(previous, c.name));
    assert s == t.(lastState := s.lastState);
    assert Reported(pod, records, previous, c, isInit, failures) ==
           ShowStartFailure(s, pod, mine, isInit, Failure(failures, c.name));
    ShownIffStartFailure(s, pod, mine, isInit, failures, c.name);
  }

  lemma ShownIffStartFailure(s: ContainerStatus, pod: Pod, mine: seq<Record>, isInit: bool,
                             failures: map<string, StartFailure>, name: string)
    requires mine != []
    ensures ShowStartFailure(s, pod, mine, isInit, Failure(failures, name)) ==
            if !StartFailureShown(pod, Some(mine[0]), isInit, failures, name) then s
            else s.(lastState := if s.state.terminated.Some? then s.state else s.lastState,
                    state := ContainerState(Some(Waiting(failures[name].err, failures[name].message)), None, None))
  {}

  lemma ReportedFromNewest(pod: Pod, records: seq<Record>, previous: seq<ContainerStatus>, c: Container, isInit: bool,
                           failures: map<string, StartFailure>, i: nat)
    requires Newest(records, c.name, i)
    ensures var r, s := records[i], Reported(pod, records, previous, c, isInit, failures);
      if StartFailureShown(pod, Some(r), isInit, failures, c.name)
      then s.state == ContainerState(Some(Waiting(failures[c.name].err, failures[c.name].message)), None, None)
           && (r.state != Unknown || RanBefore(previous, c.name) ==> Tells(s.lastState, r, RanBefore(previous, c.name)))
      else Tells(s.state, r, RanBefore(previous, c.name))
  {
    NewestIsFirst(records, c.name, i);
    ConvertTells(records[i], previous, c.name);
    var mine := Named(records, c.name);
    var s := FromRecords(Default(c, None, false), mine, OldStatus(previous, c.name));
    assert s.state == ConvertRecord(records[i], OldStatus(previous, c.name)).state;
    ShownIffStartFailure(s, pod, mine, isInit, failures, c.name);
  }

  lemma ReportedFromSecond(pod: Pod, records: seq<Record>, previous: seq<ContainerStatus>, c: Container, isInit: bool,
                           failures: map<string, StartFailure>, i: nat)
    requires Newest(records, c.name, i)
    requires !StartFailureShown(pod, Some(records[i]), isInit, failures, c.name)
             || (records[i].state == Unknown && !RanBefore(previous, c.name))
    ensures var s := Reported(pod, records, previous, c, isInit, failures);
      && (forall k :: SecondNewest(records, c.name, i, k) ==>
            Tells(s.lastState, records[k], RanBefore(previous, c.name)))
      && ((forall k :: !SecondNewest(records, c.name, i, k)) ==> s.lastState == ContainerState(None, None, None))
  {
    NewestIsFirst(records, c.name, i);
    ConvertTells(records[i], previous, c.name);
    var s := Reported(pod, records, previous, c, isInit, failures);
    if k :| SecondNewest(records, c.name, i, k) {
      forall m | SecondNewest(records, c.name, i, m)
        ensures Tells(s.lastState, records[m], RanBefore(previous, c.name))
      {
        SecondNewestIsNext(records, c.name, i, m);
        ConvertTells(records[m], previous, c.name);
      }
    } else {
      OnlyRecord(records, c.name, i);
    }
  }

  /**
   A container without records: an old termination is kept as it is; otherwise the container waits, with what the old
   status had of its past, and if it ran in a pod now being deleted it is given a termination with code 137.
   */
  lemma ReportedWithoutRecord(pod: Pod, records: seq<Record>, previous: seq<ContainerStatus>, c: Container,
                              isInit: bool, failures: map<string, StartFailure>)
    requires forall r :: r in records ==> r.name != c.name
    ensures var old_, s := OldStatus(previous, c.name), Reported(pod, records, previous, c, isInit, failures);
      if old_.Some? && old_.value.state.terminated.Some?
      then && s.image == old_.value.image && s.imageID == old_.value.imageID
           && s.containerID == old_.value.containerID && s.restartCount == old_.value.restartCount
           && (if StartFailureShown(pod, None, isInit, failures, c.name) then s.lastState == old_.value.state
               else s.state == old_.value.state && s.lastState == old_.value.lastState)
      else && s.image == c.image && s.imageID == "" && s.containerID == ""
           && s.restartCount == (if old_.Some? then old_.value.restartCount else 0)
           && (if pod.deleting && RanBefore(previous, c.name) && old_.value.lastState.terminated.None?
               then && s.lastState.terminated.Some? && s.lastState.terminated.value.exitCode == 137
                    && s.lastState.terminated.value.reason == "ContainerStatusUnknown"
               else s.lastState == if old_.Some? then old_.value.lastState else ContainerState(None, None, None))
           && (!StartFailureShown(pod, None, isInit, failures, c.name) ==>
                 s.state == ContainerState(Some(Waiting(if pod.initContainers != [] then "PodInitializing"
                                                        else "ContainerCreating", "")), None, None))
    ensures StartFailureShown(pod, None, isInit, failures, c.name) ==>
              Reported(pod, records, previous, c, isInit, failures).state ==
              ContainerState(Some(Waiting(failures[c.name].err, failures[c.name].message)), None, None)
  {
    NamedNone(records, c.name);
  }

  // ---------- what the list says ----------

  lemma ListedIsReported(pod: Pod, records: seq<Record>, previous: seq<ContainerStatus>, containers: seq<Container>,
                         isInit: bool, failures: map<string, StartFailure>, l: seq<ContainerStatus>,
                         s: ContainerStatus) returns (c: Container)
    requires Reports(pod, records, previous, containers, isInit, failures, l) && Lookup(l, s.name) == Some(s)
    ensures c in containers && c.name == s.name && s == Reported(pod, records, previous, c, isInit, failures)
  {
    MentionedMeansNamed(containers, s.name);
    c := LastNamed(containers, s.name).value;
    var d :| d in containers && d.name == s.name;
    LastNamedIsNamed(containers, d);
  }

  /**
   The status listed for a container is the one its newest record tells, unless a start failure is shown, and its last
   state the one the second newest tells.
   */
  lemma NewestRecordIsReported(pod: Pod, records: seq<Record>, previous: seq<ContainerStatus>,
                               containers: seq<Container>, isInit: bool, failures: map<string, StartFailure>,
                               l: seq<ContainerStatus>, s: ContainerStatus, i: nat)
    requires Reports(pod, records, previous, containers, isInit, failures, l) && Lookup(l, s.name) == Some(s)
    requires Newest(records, s.name, i)
    ensures var r, ranBefore := records[i], RanBefore(previous, s.name);
      && s.image == r.image && s.imageID == r.imageID && s.containerID == r.id
      && s.restartCount == (if r.state == Unknown && ranBefore
                            then Int32(OldStatus(previous, s.name).value.restartCount + 1) else Int32(r.restartCount))
    ensures var r, ranBefore := records[i], RanBefore(previous, s.name);
      !StartFailureShown(pod, Some(r), isInit, failures, s.name) ==>
        && (r.state == Exited || r.state == Created ==>
              s.state == ContainerState(None, None, Some(Terminated(Int32(r.exitCode), r.reason, r.message, r.startedAt,
                                                                    r.finishedAt, r.id))))
        && (r.state == Running ==> s.state == ContainerState(None, Some(r.startedAt), None))
        && (r.state == Unknown && ranBefore ==>
              && s.state.running.None? && s.state.waiting.None? && s.state.terminated.Some?
              && s.state.terminated.value.exitCode == 137
              && s.state.terminated.value.reason == "ContainerStatusUnknown")
        && (r.state == Unknown && !ranBefore ==>
              s.state.waiting.Some? && s.state.running.None? && s.state.terminated.None?)
        && (forall k :: SecondNewest(records, s.name, i, k) ==> Tells(s.lastState, records[k], ranBefore))
        && ((forall k :: !SecondNewest(records, s.name, i, k)) ==> s.lastState == ContainerState(None, None, None))
    ensures var r, ranBefore := records[i], RanBefore(previous, s.name);
      StartFailureShown(pod, Some(r), isInit, failures, s.name) ==>
        && s.state == ContainerState(Some(Waiting(failures[s.name].err, failures[s.name].message)), None, None)
        && (r.state == Exited || r.state == Created || ranBefore ==> Tells(s.lastState, r, ranBefore))
  {
    var c := ListedIsReported(pod, records, previous, containers, isInit, failures, l, s);
    CountedFromNewest(pod, records, previous, c, isInit, failures, i);
    ReportedFromNewest(pod, records, previous, c, isInit, failures, i);
    if !StartFailureShown(pod, Some(records[i]), isInit, failures, s.name) {
      ReportedFromSecond(pod, records, previous, c, isInit, failures, i);
    }
  }

  // ---------- the phase of a pod whose containers have exited ----------

  /** No record of the name is newer; of several created at one instant each is a newest. */
  ghost predicate NewestOf(records: seq<Record>, name: string, r: Record) {
    r in records && r.name == name && forall q :: q in records && q.name == name ==> q.createdAt <= r.createdAt
  }

  /** Every container has exited: it has records, and its newest is of an exit. */
  ghost predicate AllExited(pod: Pod, records: seq<Record>) {
    forall c :: c in pod.containers ==>
      (exists r :: NewestOf(records, c.name, r)) && forall r :: NewestOf(records, c.name, r) ==> r.state == Exited
  }

  /** The exit code is zero in the 32 bits that the API keeps of it. */
  predicate ExitZero(r: Record) { r.exitCode % 0x1_0000_0000 == 0 }

  lemma FirstOfName(records: seq<Record>, name: string, k: nat)
    requires k < |records| && records[k].name == name
    ensures exists i :: Newest(records, name, i)
    decreases k
  {
    if j: nat :| j < k && records[j].name == name {
      FirstOfName(records, name, j);
    } else {
      assert Newest(records, name, k);
    }
  }

  lemma NewestWhenSorted(records: seq<Record>, sorted: seq<Record>, name: string, r: Record) returns (i: nat)
    requires multiset(sorted) == multiset(records) && SortedBy(sorted, ByCreation()) && r in records && r.name == name
    ensures Newest(sorted, name, i) && NewestOf(records, name, sorted[i])
  {
    assert forall q :: q in records <==> q in multiset(records);
    assert forall q :: q in sorted <==> q in multiset(sorted);
    var k :| 0 <= k < |sorted| && sorted[k] == r;
    FirstOfName(sorted, name, k);
    i :| Newest(sorted, name, i);
    forall q | q in records && q.name == name ensures q.createdAt <= sorted[i].createdAt {
      var j :| 0 <= j < |sorted| && sorted[j] == q;
      assert j > i ==> !ByCreation()(sorted[j], sorted[i]);
    }
  }

  ghost predicate SortedForm(x: Inputs, sorted: seq<Record>, statuses: seq<ContainerStatus>) {
    && multiset(sorted) == multiset(x.records) && SortedBy(sorted, ByCreation())
    && Reports(x.pod, sorted, x.previous, x.pod.containers, false, x.failures, statuses)
  }

  lemma Int32Zero(x: int)
    ensures Int32(x) == 0 <==> x % 0x1_0000_0000 == 0
  {}

  lemma ExitedStatus(pod: Pod, records: seq<Record>, previous: seq<ContainerStatus>, containers: seq<Container>,
                     failures: map<string, StartFailure>, l: seq<ContainerStatus>, s: ContainerStatus, i: nat)
    requires Reports(pod, records, previous, containers, false, failures, l) && Lookup(l, s.name) == Some(s)
    requires Newest(records, s.name, i) && records[i].state == Exited
    ensures Over(Some(s)) && !RunsNow(Some(s))
    ensures EndedWell(Some(s)) ==> ExitZero(records[i])
    ensures pod.restartPolicy == Never && ExitZero(records[i]) ==> EndedWell(Some(s))
    ensures pod.restartPolicy == OnFailure && records[i].exitCode == 0 ==> EndedWell(Some(s))
  {
    Int32Zero(records[i].exitCode);
    NewestRecordIsReported(pod, records, previous, containers, false, failures, l, s, i);
  }

  lemma ListedFor(x: Inputs, sorted: seq<Record>, statuses: seq<ContainerStatus>, more: seq<ContainerStatus>,
                  c: Container) returns (s: ContainerStatus)
    requires SortedForm(x, sorted, statuses) && c in x.pod.containers
    ensures s.name == c.name && Lookup(statuses, c.name) == Some(s) && Lookup(statuses + more, c.name) == Some(s)
  {
    ReportsCover(x.pod, sorted, x.previous, x.failures, statuses);
    assert Covered(x.pod, sorted, x.previous, x.failures, statuses, c);
    s := Lookup(statuses, c.name).value;
    LookupFinds(statuses, c.name);
    LookupConcat(statuses, more, c.name);
  }

  lemma ExitedContainer(x: Inputs, sorted: seq<Record>, statuses: seq<ContainerStatus>, more: seq<ContainerStatus>,
                        c: Container) returns (r: Record)
    requires SortedForm(x, sorted, statuses) && c in x.pod.containers && AllExited(x.pod, x.records)
    ensures NewestOf(x.records, c.name, r)
    ensures var s := Lookup(statuses + more, c.name);
      && Over(s) && !RunsNow(s)
      && (EndedWell(s) ==> ExitZero(r))
      && (x.pod.restartPolicy == Never && ExitZero(r) ==> EndedWell(s))
      && (x.pod.restartPolicy == OnFailure && r.exitCode == 0 ==> EndedWell(s))
  {
    var q :| NewestOf(x.records, c.name, q);
    var i := NewestWhenSorted(x.records, sorted, c.name, q);
    r := sorted[i];
    var s := ListedFor(x, sorted, statuses, more, c);
    ExitedStatus(x.pod, sorted, x.previous, x.pod.containers, x.failures, statuses, s, i);
  }

  /**
   A pod without init containers, all of whose containers have exited, is Running under policy Always; otherwise it is
   Succeeded, unless some container's newest record has a non-zero code: then it is Failed under policy Never and
   Running under OnFailure.
   */
  lemma ExitedPodPhase(x: Inputs, phase: Phase, statuses: seq<ContainerStatus>, initStatuses: seq<ContainerStatus>)
    requires Generates(x, phase, statuses, initStatuses) && !x.evicted
    requires x.pod.phase != PodFailed && x.pod.phase != PodSucceeded
    requires x.pod.initContainers == [] && x.pod.containers != [] && AllExited(x.pod, x.records)
    ensures x.pod.restartPolicy == Always ==> phase == PodRunning
    ensures x.pod.restartPolicy == Never ==> phase == PodFailed || phase == PodSucceeded
    ensures x.pod.restartPolicy == OnFailure ==> phase == PodRunning || phase == PodSucceeded
    ensures phase == PodFailed ==>
              exists c, r :: c in x.pod.containers && NewestOf(x.records, c.name, r) && !ExitZero(r)
    ensures phase == PodSucceeded ==>
              forall c :: c in x.pod.containers ==> exists r :: NewestOf(x.records, c.name, r) && ExitZero(r)
    ensures x.pod.restartPolicy == OnFailure && phase == PodRunning ==>
              exists c, r :: c in x.pod.containers && NewestOf(x.records, c.name, r) && r.exitCode != 0
  {
    var sorted :| multiset(sorted) == multiset(x.records) && SortedBy(sorted, ByCreation())
      && Reports(x.pod, sorted, x.previous, x.pod.containers, false, x.failures, statuses);
    var info := statuses + initStatuses;
    PhaseOnFields(x.pod, info);
    forall c | c in x.pod.containers ensures Over(Lookup(info, c.name)) && !RunsNow(Lookup(info, c.name)) {
      var r := ExitedContainer(x, sorted, statuses, initStatuses, c);
    }
    if phase == PodFailed || (x.pod.restartPolicy == OnFailure && phase == PodRunning) {
      var c :| c in x.pod.containers && !EndedWell(Lookup(info, c.name));
      var r := ExitedContainer(x, sorted, statuses, initStatuses, c);
    }
    if phase == PodSucceeded {
      forall c | c in x.pod.containers ensures exists r :: NewestOf(x.records, c.name, r) && ExitZero(r) {
        var r := ExitedContainer(x, sorted, statuses, initStatuses, c);
      }
    }
  }

  /** The newest records of the container do not disagree on whether it failed. */
  ghost predicate OneVerdict(records: seq<Record>, name: string) {
    forall r, q :: NewestOf(records, name, r) && NewestOf(records, name, q) ==> (ExitZero(r) <==> ExitZero(q))
  }

  /** A pod that is never restarted has Failed exactly when some container's newest record has a non-zero code. */
  lemma NeverPodFailsIff(x: Inputs, phase: Phase, statuses: seq<ContainerStatus>, initStatuses: seq<ContainerStatus>)
    requires Generates(x, phase, statuses, initStatuses) && !x.evicted
    requires x.pod.phase != PodFailed && x.pod.phase != PodSucceeded
    requires x.pod.initContainers == [] && x.pod.containers != [] && AllExited(x.pod, x.records)
    requires x.pod.restartPolicy == Never && forall c :: c in x.pod.containers ==> OneVerdict(x.records, c.name)
    ensures phase == PodFailed <==>
            exists c, r :: c in x.pod.containers && NewestOf(x.records, c.name, r) && !ExitZero(r)
    ensures phase == PodSucceeded <==>
            forall c, r :: c in x.pod.containers && NewestOf(x.records, c.name, r) ==> ExitZero(r)
  {
    ExitedPodPhase(x, phase, statuses, initStatuses);
    if phase == PodSucceeded {
      forall c, r | c in x.pod.containers && NewestOf(x.records, c.name, r) ensures ExitZero(r) {
        var q :| NewestOf(x.records, c.name, q) && ExitZero(q);
        assert OneVerdict(x.records, c.name);
      }
    }
  }
}
