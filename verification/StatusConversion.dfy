/**
 `convertToAPIContainerStatuses`: five passes over a map of statuses, shown to do what `Reported` says of each
 container alone.
 */
module StatusConversion {
  import opened Common
  import opened Ordering
  import opened PodStatus

  type Statuses = map<string, ContainerStatus>

  function Get(m: Statuses, name: string): Option<ContainerStatus> { if name in m then Some(m[name]) else None }

  predicate Mentioned(containers: seq<Container>, name: string) {
    exists i :: 0 <= i < |containers| && containers[i].name == name
  }

  lemma {:induction false} MentionedMeansNamed(containers: seq<Container>, name: string)
    ensures Mentioned(containers, name) <==> LastNamed(containers, name).Some?
    ensures LastNamed(containers, name).Some? ==> LastNamed(containers, name).value.name == name
  {
    if containers != [] {
      MentionedMeansNamed(containers[..|containers| - 1], name);
    }
  }

  method OldStatuses(previous: seq<ContainerStatus>) returns (m: Statuses)
    ensures forall name :: Get(m, name) == OldStatus(previous, name)
  {
    m := map[];
    for i := 0 to |previous|
      invariant forall name :: Get(m, name) == OldStatus(previous[..i], name)
    {
      assert previous[..i + 1][..i] == previous[..i];
      m := m[previous[i].name := previous[i]];
    }
    assert previous[..|previous|] == previous;
  }

  ghost predicate Defaults(containers: seq<Container>, previous: seq<ContainerStatus>, hasInit: bool,
                           statuses: Statuses) {
    forall name :: Get(statuses, name) ==
      var c := LastNamed(containers, name);
      if c.None? then None else Some(Default(c.value, OldStatus(previous, name), hasInit))
  }

  method DefaultStatuses(containers: seq<Container>, olds: Statuses, hasInit: bool,
                         ghost previous: seq<ContainerStatus>) returns (statuses: Statuses)
    requires forall name :: Get(olds, name) == OldStatus(previous, name)
    ensures Defaults(containers, previous, hasInit, statuses)
  {
    statuses := map[];
    for i := 0 to |containers|
      invariant Defaults(containers[..i], previous, hasInit, statuses)
    {
      var c := containers[i];
      assert containers[..i + 1][..i] == containers[..i];
      assert Get(olds, c.name) == OldStatus(previous, c.name);
      statuses := statuses[c.name := Default(c, Get(olds, c.name), hasInit)];
    }
    assert containers[..|containers|] == containers;
  }

  method HasRecord(records: seq<Record>, name: string) returns (found: bool)
    ensures found <==> Named(records, name) != []
  {
    found := false;
    for i := 0 to |records|
      invariant !found && Named(records[..i], name) == []
    {
      assert records[..i + 1][..i] == records[..i];
      if records[i].name == name {
        NamedGrows(records, i + 1, name);
        return true;
      }
    }
    assert records[..|records|] == records;
  }

  lemma {:induction false} NamedGrows(records: seq<Record>, i: nat, name: string)
    requires i <= |records|
    ensures Named(records[..i], name) <= Named(records, name)
  {
    if i == |records| {
      assert records[..i] == records;
    } else {
      var front := records[..|records| - 1];
      NamedGrows(front, i, name);
      assert front[..i] == records[..i];
    }
  }

  /** FindContainerStatusByName finds the first of the records with the name. */
  lemma FirstNamed(records: seq<Record>, i: nat, name: string)
    requires i < |records| && records[i].name == name && Named(records[..i], name) == []
    ensures Named(records, name) != [] && Named(records, name)[0] == records[i]
  {
    assert records[..i + 1][..i] == records[..i];
    NamedGrows(records, i + 1, name);
  }

  method FindRecord(records: seq<Record>, name: string) returns (r: Option<Record>)
    ensures r == if Named(records, name) == [] then None else Some(Named(records, name)[0])
  {
    for i := 0 to |records|
      invariant Named(records[..i], name) == []
    {
      assert records[..i + 1][..i] == records[..i];
      if records[i].name == name {
        FirstNamed(records, i, name);
        return Some(records[i]);
      }
    }
    assert records[..|records|] == records;
    return None;
  }

  ghost predicate Inferred(pod: Pod, containers: seq<Container>, records: seq<Record>, olds: Statuses, base: Statuses,
                           statuses: Statuses) {
    && statuses.Keys == base.Keys
    && forall name :: name in base ==> statuses[name] == (if Mentioned(containers, name)
         then InferTermination(base[name], Get(olds, name), Named(records, name) != [], pod.deleting,
                               pod.initContainers != [])
         else base[name])
  }

  /** Second pass: infer a termination for containers that vanished. */
  method InferTerminations(pod: Pod, containers: seq<Container>, records: seq<Record>, olds: Statuses, base: Statuses)
    returns (statuses: Statuses)
    requires forall name :: Mentioned(containers, name) ==> name in base
    ensures Inferred(pod, containers, records, olds, base, statuses)
  {
    statuses := base;
    for i := 0 to |containers|
      invariant Inferred(pod, containers[..i], records, olds, base, statuses)
    {
      var name := containers[i].name;
      assert Mentioned(containers, name);
      var found := HasRecord(records, name);
      var s := InferTermination(statuses[name], Get(olds, name), found, pod.deleting, pod.initContainers != []);
      statuses := statuses[name := s];
      forall n ensures Mentioned(containers[..i + 1], n) <==> Mentioned(containers[..i], n) || n == name {
        MentionedMore(containers, i, n);
      }
    }
    assert containers[..|containers|] == containers;
  }

  lemma MentionedMore(containers: seq<Container>, i: nat, name: string)
    requires i < |containers|
    ensures Mentioned(containers[..i + 1], name) <==> Mentioned(containers[..i], name) || name == containers[i].name
  {}

  ghost predicate FromAll(records: seq<Record>, olds: Statuses, base: Statuses, statuses: Statuses) {
    && statuses.Keys == base.Keys
    && forall name :: name in base ==> statuses[name] == FromRecords(base[name], Named(records, name), Get(olds, name))
  }

  function SeenOf(seen: map<string, nat>, name: string): nat { if name in seen then seen[name] else 0 }

  ghost predicate CountsSeen(records: seq<Record>, base: Statuses, seen: map<string, nat>) {
    forall name :: name in base ==>
      SeenOf(seen, name) == if |Named(records, name)| >= 2 then 2 else |Named(records, name)|
  }

  /** What one more record does to a status: the first gives the state, the second the last state, the rest nothing. */
  function WithRecord(s: ContainerStatus, r: Record, old_: Option<ContainerStatus>, count: nat): ContainerStatus {
    if count >= 2 then s
    else if count == 0 then ConvertRecord(r, old_)
    else s.(lastState := ConvertRecord(r, old_).state)
  }

  lemma FromOneMore(before: seq<Record>, r: Record, old_: Option<ContainerStatus>, s: ContainerStatus, name: string,
                    count: nat)
    requires r.name == name ==> count == if |Named(before, name)| >= 2 then 2 else |Named(before, name)|
    ensures var was := FromRecords(s, Named(before, name), old_);
      FromRecords(s, Named(before + [r], name), old_) == if r.name == name then WithRecord(was, r, old_, count) else was
  {}

  function Updated(statuses: Statuses, r: Record, olds: Statuses, count: nat): Statuses {
    if r.name !in statuses then statuses
    else statuses[r.name := WithRecord(statuses[r.name], r, Get(olds, r.name), count)]
  }

  lemma FromAllMore(before: seq<Record>, r: Record, olds: Statuses, base: Statuses, statuses: Statuses, count: nat)
    requires FromAll(before, olds, base, statuses)
    requires r.name in base ==> count == if |Named(before, r.name)| >= 2 then 2 else |Named(before, r.name)|
    ensures FromAll(before + [r], olds, base, Updated(statuses, r, olds, count))
  {
    var after := Updated(statuses, r, olds, count);
    forall name | name in base
      ensures after[name] == FromRecords(base[name], Named(before + [r], name), Get(olds, name))
    {
      FromOneMore(before, r, Get(olds, name), base[name], name, count);
    }
  }

  lemma CountsSeenMore(before: seq<Record>, r: Record, base: Statuses, seen: map<string, nat>)
    requires CountsSeen(before, base, seen)
    ensures CountsSeen(before + [r], base,
              if r.name in base && SeenOf(seen, r.name) < 2 then seen[r.name := SeenOf(seen, r.name) + 1] else seen)
  {}

  /** The body of the third pass's loop, for one record. */
  method ApplyRecord(r: Record, olds: Statuses, statuses: Statuses, seen: map<string, nat>, ghost base: Statuses,
                     ghost before: seq<Record>)
    returns (statuses': Statuses, seen': map<string, nat>)
    requires FromAll(before, olds, base, statuses) && CountsSeen(before, base, seen)
    ensures FromAll(before + [r], olds, base, statuses') && CountsSeen(before + [r], base, seen')
  {
    FromAllMore(before, r, olds, base, statuses, SeenOf(seen, r.name));
    CountsSeenMore(before, r, base, seen);
    statuses', seen' := statuses, seen;
    if r.name in statuses {
      var count := SeenOf(seen, r.name);
      if count >= 2 {
        assert statuses == statuses[r.name := statuses[r.name]];
        return;
      }
      var converted := ConvertRecord(r, Get(olds, r.name));
      if count == 0 {
        statuses' := statuses[r.name := converted];
      } else {
        statuses' := statuses[r.name := statuses[r.name].(lastState := converted.state)];
      }
      seen' := seen[r.name := count + 1];
    }
  }

  /** Third pass: the two newest records of each container. */
  method ApplyRecords(records: seq<Record>, olds: Statuses, base: Statuses) returns (statuses: Statuses)
    ensures FromAll(records, olds, base, statuses)
  {
    statuses := base;
    var seen: map<string, nat> := map[];
    for i := 0 to |records|
      invariant FromAll(records[..i], olds, base, statuses) && CountsSeen(records[..i], base, seen)
    {
      statuses, seen := ApplyRecord(records[i], olds, statuses, seen, base, records[..i]);
      assert records[..i + 1] == records[..i] + [records[i]];
    }
    assert records[..|records|] == records;
  }

  ghost predicate Shown(pod: Pod, containers: seq<Container>, records: seq<Record>, isInit: bool,
                        failures: map<string, StartFailure>,
                        base: Statuses, statuses: Statuses) {
    && statuses.Keys == base.Keys
    && forall name :: name in base ==> statuses[name] == (if Mentioned(containers, name)
         then ShowStartFailure(base[name], pod, Named(records, name), isInit, Failure(failures, name))
         else base[name])
  }

  /** The body of the fourth pass's loop, for one container. */
  method ShowFailure(s: ContainerStatus, pod: Pod, name: string, records: seq<Record>, isInit: bool,
                     failures: map<string, StartFailure>)
    returns (s': ContainerStatus)
    ensures s' == ShowStartFailure(s, pod, Named(records, name), isInit, Failure(failures, name))
  {
    s' := s;
    var newest := FindRecord(records, name);
    if isInit && newest.Some? && newest.value.state == Exited && newest.value.exitCode == 0 { return; }
    var mine := if newest.Some? then [newest.value] else [];
    assert ShouldBeRestarted(pod, mine) == ShouldBeRestarted(pod, Named(records, name));
    if !ShouldBeRestarted(pod, mine) || name !in failures { return; }
    if s.state.terminated.Some? {
      s' := s'.(lastState := s.state);
    }
    s' := s'.(state := NO_STATE.(waiting := Some(Waiting(failures[name].err, failures[name].message))));
  }

  /** Fourth pass: containers that failed to start. A name listed twice is handled twice, with no further effect. */
  method ShowStartFailures(pod: Pod, containers: seq<Container>, records: seq<Record>, isInit: bool,
                           failures: map<string, StartFailure>, base: Statuses)
    returns (statuses: Statuses)
    requires forall name :: Mentioned(containers, name) ==> name in base
    ensures Shown(pod, containers, records, isInit, failures, base, statuses)
  {
    statuses := base;
    for i := 0 to |containers|
      invariant Shown(pod, containers[..i], records, isInit, failures, base, statuses)
    {
      var name := containers[i].name;
      assert Mentioned(containers, name);
      forall n ensures Mentioned(containers[..i + 1], n) <==> Mentioned(containers[..i], n) || n == name {
        MentionedMore(containers, i, n);
      }
      var s := ShowFailure(statuses[name], pod, name, records, isInit, failures);
      statuses := statuses[name := s];
    }
    assert containers[..|containers|] == containers;
  }

  function ByName(): (ContainerStatus, ContainerStatus) -> bool {
    (s: ContainerStatus, t: ContainerStatus) => StringLess(s.name, t.name)
  }

  lemma {:induction false} LookupFinds(l: seq<ContainerStatus>, name: string)
    ensures Lookup(l, name).Some? <==> exists s :: s in l && s.name == name
    ensures Lookup(l, name).Some? ==> Lookup(l, name).value in l && Lookup(l, name).value.name == name
  {
    if l != [] {
      LookupFinds(l[1..], name);
      assert l == [l[0]] + l[1..];
    }
  }

  ghost predicate Lists(l: seq<ContainerStatus>, m: Statuses) {
    forall s :: s in l <==> s.name in m && m[s.name] == s
  }

  lemma LookupInList(l: seq<ContainerStatus>, m: Statuses, name: string)
    requires Lists(l, m) && forall n :: n in m ==> m[n].name == n
    ensures Lookup(l, name) == Get(m, name)
  {
    LookupFinds(l, name);
    if name in m {
      assert m[name] in l;
    }
  }

  lemma ByNameIsWeakOrder()
    ensures WeakOrder(ByName())
  {
    var less := ByName();
    forall x, y, z ensures !(less(x, y) && less(y, x)) && (less(x, z) ==> less(x, y) || less(y, z)) {
      StringLessWeak(x.name, y.name, z.name);
    }
  }

  /** The statuses of init containers come one per container in spec order, the others once each, by increasing name. */
  ghost predicate Ordered(l: seq<ContainerStatus>, containers: seq<Container>, isInit: bool) {
    if isInit then |l| == |containers| && forall i :: 0 <= i < |l| ==> l[i].name == containers[i].name
    else forall i, j :: 0 <= i < j < |l| ==> StringLess(l[i].name, l[j].name)
  }

  method ListInit(m: Statuses, containers: seq<Container>) returns (l: seq<ContainerStatus>)
    requires forall n :: n in m ==> m[n].name == n && Mentioned(containers, n)
    requires forall i :: 0 <= i < |containers| ==> containers[i].name in m
    ensures Lists(l, m) && Ordered(l, containers, true)
  {
    l := [];
    for i := 0 to |containers|
      invariant |l| == i && forall j :: 0 <= j < i ==> l[j] == m[containers[j].name]
    {
      if containers[i].name in m {
        l := l + [m[containers[i].name]];
      }
    }
    forall s ensures s in l <==> s.name in m && m[s.name] == s {
      if s.name in m && m[s.name] == s {
        var i :| 0 <= i < |containers| && containers[i].name == s.name;
        assert l[i] == s;
      }
    }
  }

  /** Every status of the map once, in the order it happens to be visited. */
  method Collect(m: Statuses) returns (l: seq<ContainerStatus>)
    requires forall n :: n in m ==> m[n].name == n
    ensures Lists(l, m) && forall s :: multiset(l)[s] <= 1
  {
    l := [];
    var todo := m.Keys;
    while todo != {}
      invariant todo <= m.Keys && forall s :: s in l <==> s.name in m && s.name !in todo && m[s.name] == s
      invariant forall s :: multiset(l)[s] <= 1
      decreases todo
    {
      var n :| n in todo;
      assert m[n] !in l;
      l, todo := l + [m[n]], todo - {n};
    }
  }

  /** Last pass. */
  method ListStatuses(m: Statuses, containers: seq<Container>, isInit: bool) returns (l: seq<ContainerStatus>)
    requires forall n :: n in m ==> m[n].name == n && Mentioned(containers, n)
    requires forall i :: 0 <= i < |containers| ==> containers[i].name in m
    ensures Lists(l, m) && Ordered(l, containers, isInit)
  {
    if isInit {
      l := ListInit(m, containers);
      return;
    }
    var unsorted := Collect(m);
    l := Sort(unsorted, ByName());
    ByNameIsWeakOrder();
    SortSorts(unsorted, ByName());
    assert forall s :: s in l <==> s in multiset(l);
    assert forall s :: s in unsorted <==> s in multiset(unsorted);
    forall i, j | 0 <= i < j < |l| ensures StringLess(l[i].name, l[j].name) {
      OnceMeansOnePlace(l, i, j);
      assert l[i] in l && l[j] in l;
      StringLessTotal(l[i].name, l[j].name);
      assert !ByName()(l[j], l[i]);
    }
  }

  function ByCreation(): (Record, Record) -> bool {
    (r: Record, q: Record) => r.createdAt > q.createdAt
  }

  /** The name a container is reported under is its own. */
  lemma ReportedName(pod: Pod, records: seq<Record>, previous: seq<ContainerStatus>, c: Container, isInit: bool,
                     failures: map<string, StartFailure>)
    ensures Reported(pod, records, previous, c, isInit, failures).name == c.name
  {
    OldStatusName(previous, c.name);
    NamedNames(records, c.name);
  }

  lemma {:induction false} OldStatusName(previous: seq<ContainerStatus>, name: string)
    ensures OldStatus(previous, name).Some? ==> OldStatus(previous, name).value.name == name
  {
    if previous != [] {
      OldStatusName(previous[..|previous| - 1], name);
    }
  }

  lemma {:induction false} NamedNames(records: seq<Record>, name: string)
    ensures forall i :: 0 <= i < |Named(records, name)| ==> Named(records, name)[i].name == name
  {
    if records != [] {
      NamedNames(records[..|records| - 1], name);
    }
  }

  lemma ByCreationIsWeakOrder()
    ensures WeakOrder(ByCreation())
  {}

  /** The records are sorted in place, newest first, and each container is reported from what is known of it alone. */
  method ConvertToAPIContainerStatuses(pod: Pod, records: seq<Record>, previous: seq<ContainerStatus>,
                                       containers: seq<Container>, isInit: bool,
                                       failures: map<string, StartFailure>)
    returns (l: seq<ContainerStatus>, sorted: seq<Record>)
    ensures multiset(sorted) == multiset(records) && SortedBy(sorted, ByCreation())
    ensures forall i, j :: 0 <= i < j < |sorted| ==> sorted[i].createdAt >= sorted[j].createdAt
    ensures forall s :: s in l ==> Lookup(l, s.name) == Some(s)
    ensures Reports(pod, sorted, previous, containers, isInit, failures, l) && Ordered(l, containers, isInit)
  {
    var olds := OldStatuses(previous);
    sorted := Sort(records, ByCreation());
    ByCreationIsWeakOrder();
    SortSorts(records, ByCreation());
    var m1 := DefaultStatuses(containers, olds, pod.initContainers != [], previous);
    forall name ensures Mentioned(containers, name) <==> name in m1 {
      MentionedMeansNamed(containers, name);
      assert Get(m1, name).Some? <==> name in m1;
    }
    var m2 := InferTerminations(pod, containers, sorted, olds, m1);
    var m3 := ApplyRecords(sorted, olds, m2);
    var m4 := ShowStartFailures(pod, containers, sorted, isInit, failures, m3);
    forall name
      ensures Get(m4, name) == ReportedFor(pod, sorted, previous, containers, isInit, failures, name)
      ensures name in m4 ==> m4[name].name == name && Mentioned(containers, name)
    {
      PassesReport(pod, sorted, previous, containers, isInit, failures, olds, m1, m2, m3, m4, name);
    }
    assert forall i :: 0 <= i < |containers| ==> Mentioned(containers, containers[i].name);
    l := ListStatuses(m4, containers, isInit);
    forall name ensures Lookup(l, name) == ReportedFor(pod, sorted, previous, containers, isInit, failures, name) {
      LookupInList(l, m4, name);
    }
  }

  lemma PassesReport(pod: Pod, records: seq<Record>, previous: seq<ContainerStatus>, containers: seq<Container>,
                     isInit: bool,
                     failures: map<string, StartFailure>, olds: Statuses,
                     m1: Statuses, m2: Statuses, m3: Statuses, m4: Statuses, name: string)
    requires forall n :: Get(olds, n) == OldStatus(previous, n)
    requires Defaults(containers, previous, pod.initContainers != [], m1)
    requires Inferred(pod, containers, records, olds, m1, m2) && FromAll(records, olds, m2, m3)
    requires Shown(pod, containers, records, isInit, failures, m3, m4)
    ensures Get(m4, name) == ReportedFor(pod, records, previous, containers, isInit, failures, name)
    ensures name in m4 ==> m4[name].name == name && Mentioned(containers, name)
  {
    MentionedMeansNamed(containers, name);
    var c := LastNamed(containers, name);
    assert Get(olds, name) == OldStatus(previous, name);
    assert Get(m1, name) ==
           if c.None? then None else Some(Default(c.value, OldStatus(previous, name), pod.initContainers != []));
    if c.Some? {
      ReportedName(pod, records, previous, c.value, isInit, failures);
    }
  }

  ghost function ReportedFor(pod: Pod, records: seq<Record>, previous: seq<ContainerStatus>,
                             containers: seq<Container>, isInit: bool,
                             failures: map<string, StartFailure>, name: string): Option<ContainerStatus> {
    var c := LastNamed(containers, name);
    if c.None? then None else Some(Reported(pod, records, previous, c.value, isInit, failures))
  }

  lemma {:induction false} LookupConcat(l: seq<ContainerStatus>, m: seq<ContainerStatus>, name: string)
    ensures Lookup(l + m, name) == if Lookup(l, name).Some? then Lookup(l, name) else Lookup(m, name)
  {
    if l == [] {
      assert l + m == m;
    } else {
      assert (l + m)[1..] == l[1..] + m;
      LookupConcat(l[1..], m, name);
    }
  }

  lemma CoversMore(pod: Pod, records: seq<Record>, previous: seq<ContainerStatus>, failures: map<string, StartFailure>,
                   info: seq<ContainerStatus>, more: seq<ContainerStatus>)
    requires Covers(pod, records, previous, failures, info)
    ensures Covers(pod, records, previous, failures, info + more)
  {
    forall c | c in pod.containers ensures Covered(pod, records, previous, failures, info + more, c) {
      assert Covered(pod, records, previous, failures, info, c);
      LookupConcat(info, more, c.name);
    }
  }

  // ---------- generateAPIPodStatus ----------

  /** What one call works from: the pod with the phase last reported, the runtime's records and the earlier statuses. */
  datatype Inputs =
    Inputs(pod: Pod, records: seq<Record>, previous: seq<ContainerStatus>, previousInit: seq<ContainerStatus>,
           failures: map<string, StartFailure>, evicted: bool)

  /** `l` reports the containers from the records sorted newest first, in one of the orders the sort may leave. */
  ghost predicate Converts(x: Inputs, previous: seq<ContainerStatus>, containers: seq<Container>, isInit: bool,
                           l: seq<ContainerStatus>) {
    exists sorted :: multiset(sorted) == multiset(x.records) && SortedBy(sorted, ByCreation())
      && Reports(x.pod, sorted, previous, containers, isInit, x.failures, l)
  }

  /** The call may report this phase and these statuses. */
  ghost predicate Generates(x: Inputs, phase: Phase, statuses: seq<ContainerStatus>,
                            initStatuses: seq<ContainerStatus>) {
    && Converts(x, x.previous, x.pod.containers, false, statuses)
    && Converts(x, x.previousInit, x.pod.initContainers, true, initStatuses)
    && phase == FinalPhase(x.pod, statuses + initStatuses, x.evicted)
  }

  /**
   A pod being deleted, with all containers last reported running, is Pending only if one of its init containers is.
   */
  lemma DeletedPodStaysOut(x: Inputs, phase: Phase, statuses: seq<ContainerStatus>, initStatuses: seq<ContainerStatus>)
    requires Generates(x, phase, statuses, initStatuses)
    requires x.pod.deleting && x.pod.containers != [] && AllWereRunning(x.pod, x.previous) && phase == PodPending
    ensures SomeInit(x.pod, statuses + initStatuses, InitPending)
  {
    var sorted :| multiset(sorted) == multiset(x.records) && SortedBy(sorted, ByCreation())
      && Reports(x.pod, sorted, x.previous, x.pod.containers, false, x.failures, statuses);
    ReportsCover(x.pod, sorted, x.previous, x.failures, statuses);
    CoversMore(x.pod, sorted, x.previous, x.failures, statuses, initStatuses);
    DeletedPodNeverPending(x.pod, sorted, x.previous, x.failures, statuses + initStatuses, x.evicted);
  }

  /** The statuses and the phase of generateAPIPodStatus. */
  method GeneratePhase(x: Inputs)
    returns (phase: Phase, statuses: seq<ContainerStatus>, initStatuses: seq<ContainerStatus>)
    ensures Generates(x, phase, statuses, initStatuses)
    ensures phase == if x.evicted then PodFailed
                     else if x.pod.phase == PodFailed || x.pod.phase == PodSucceeded then x.pod.phase
                     else PhaseOf(x.pod, statuses + initStatuses)
    ensures Ordered(statuses, x.pod.containers, false) && Ordered(initStatuses, x.pod.initContainers, true)
  {
    var sorted, resorted;
    var pod := x.pod;
    statuses, sorted :=
      ConvertToAPIContainerStatuses(pod, x.records, x.previous, pod.containers, false, x.failures);
    initStatuses, resorted :=
      ConvertToAPIContainerStatuses(pod, sorted, x.previousInit, pod.initContainers, true, x.failures);
    if x.evicted { return PodFailed, statuses, initStatuses; }
    phase := GetPhase(x.pod, statuses + initStatuses);
    if x.pod.phase == PodFailed || x.pod.phase == PodSucceeded {
      phase := x.pod.phase;
    }
  }

  // ---------- the phase over a run of calls ----------

  ghost predicate CanReport(x: Inputs, phase: Phase) {
    exists statuses, initStatuses :: Generates(x, phase, statuses, initStatuses)
  }

  /** One call after the other, each fed the phase the one before reported; everything else is arbitrary. */
  datatype PhaseRun = Begin(phase: Phase) | Call(before: PhaseRun, inputs: Inputs, phase: Phase)

  ghost predicate Feeds(r: PhaseRun) {
    r.Call? ==> Feeds(r.before) && r.inputs.pod.phase == r.before.phase && CanReport(r.inputs, r.phase)
  }

  /** `r` goes on from `s`. */
  predicate Extends(s: PhaseRun, r: PhaseRun) { r == s || (r.Call? && Extends(s, r.before)) }

  predicate EvictedSince(s: PhaseRun, r: PhaseRun)
    requires Extends(s, r)
  {
    r != s && (r.inputs.evicted || EvictedSince(s, r.before))
  }

  /**
   Whatever records come and go, a terminal phase is never left for another, with one exception: from the first
   eviction on a pod that was reported Succeeded is reported Failed.
   */
  lemma {:induction false} TerminalPhaseIsFinal(s: PhaseRun, r: PhaseRun)
    requires Feeds(r) && Extends(s, r) && (s.phase == PodFailed || s.phase == PodSucceeded)
    ensures r.phase == if EvictedSince(s, r) then PodFailed else s.phase
  {
    if r != s {
      TerminalPhaseIsFinal(s, r.before);
      var statuses, initStatuses :| Generates(r.inputs, r.phase, statuses, initStatuses);
    }
  }

  /** The exception happens: a pod that was reported Succeeded and is then evicted is reported Failed. */
  lemma EvictionFailsSucceededPod(policy: RestartPolicy, deleting: bool)
    ensures var x := Inputs(Pod([], [], policy, deleting, PodSucceeded), [], [], [], map[], true);
      var r := Call(Begin(PodSucceeded), x, PodFailed);
      Feeds(r) && Extends(Begin(PodSucceeded), r)
  {
    var x := Inputs(Pod([], [], policy, deleting, PodSucceeded), [], [], [], map[], true);
    assert SortedBy(x.records, ByCreation());
    assert Reports(x.pod, x.records, x.previous, [], false, x.failures, []);
    assert Reports(x.pod, x.records, x.previousInit, [], true, x.failures, []);
    assert Converts(x, x.previous, x.pod.containers, false, []);
    assert Converts(x, x.previousInit, x.pod.initContainers, true, []);
    assert Generates(x, PodFailed, [], []);
    assert Feeds(Begin(PodSucceeded));
  }
}
