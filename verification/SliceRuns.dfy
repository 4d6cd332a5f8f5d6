/**
 Runs of the slice history machine: every history can happen, and a state can be continued by events and a sync of
 one's choice.
 */
module SliceRuns {
  import opened Common
  import opened Ordering
  import opened Patching
  import opened SliceBuild
  import opened SliceAgreement
  import opened SliceHistory
  import opened SliceCache

  lemma InfoExists(px: Proxy, slice: EndpointSlice, remove: bool) returns (info: SliceInfo)
    ensures InfoOf(px, slice, remove, info)
  {
    ByPortIsWeakOrder();
    SortSorts(slice.ports, ByPort());
    var endpoints := if remove then [] else ToInfos(px, slice.endpoints);
    ByAddressIsWeakOrder();
    SortSorts(endpoints, ByAddress());
    info := SliceInfo(Sort(slice.ports, ByPort()), Sort(endpoints, ByAddress()), remove);
  }

  lemma ReceiveExists(px: Proxy, s: State, slice: EndpointSlice, remove: bool) returns (t: State)
    ensures Step(px, s, SliceEvent(slice, remove), t)
  {
    t := s;
    if Accepted(slice) {
      var info := InfoExists(px, slice, remove);
      var service := ServiceOf(slice);
      t := s.(trackers := s.trackers[service := UpdatePending(TrackerOf(s.trackers, service), slice.name, info)]);
      assert Receives(px, s, slice, info, t);
    }
  }

  lemma BuildExists(px: Proxy, service: NamespacedName, infos: InfoByName)
    ensures exists em :: IsBuild(px, service, infos, em)
  {
    var order := EnumerationOf(infos.Keys);
    var em := BuildOf(px, service, infos, order);
    assert IsBuild(px, service, infos, em);
  }

  lemma ChangeExists(px: Proxy, service: NamespacedName, t: Tracker)
    ensures exists c :: ChangeOf(px, service, t, c)
  {
    BuildExists(px, service, t.applied);
    BuildExists(px, service, Overlay(t));
    var previous :| IsBuild(px, service, t.applied, previous);
    var current :| IsBuild(px, service, Overlay(t), current);
    assert ChangeOf(px, service, t, Change(previous, current));
  }

  /** A change of the service: the one given, if any. */
  ghost function Chosen(px: Proxy, service: NamespacedName, t: Tracker, given: Option<EndpointsChange>):
    (c: EndpointsChange)
    requires given.Some? ==> ChangeOf(px, service, t, given.value)
    ensures ChangeOf(px, service, t, c) && (given.Some? ==> c == given.value)
  {
    if given.Some? then given.value
    else
      ChangeExists(px, service, t);
      var c :| ChangeOf(px, service, t, c);
      c
  }

  /** A sync can happen in every state, with any change the service may have. */
  lemma SyncExists(px: Proxy, s: State, service: NamespacedName, given: Option<EndpointsChange>)
    returns (m: map<NamespacedName, EndpointsChange>, t: State)
    requires given.Some? ==> ChangeOf(px, service, TrackerOf(s.trackers, service), given.value)
    ensures Syncs(px, s, m, t)
    ensures given.Some? && service in m ==> m[service] == given.value
  {
    m := map r | r in s.trackers && s.trackers[r].pending != map[] ::
      Chosen(px, r, TrackerOf(s.trackers, r), if r == service then given else None);
    SplicedIsPatched(s.em, m);
    t := State(SliceHistory.Applied(s.trackers), Spliced(s.em, m));
  }

  /** Every history can happen. */
  lemma {:induction false} HistoryRuns(px: Proxy, h: History) returns (t: State)
    ensures Reaches(px, h, t)
  {
    match h
    case Start => t := INIT;
    case Then(before, e) =>
      var s := HistoryRuns(px, before);
      match e {
        case SliceEvent(slice, remove) => t := ReceiveExists(px, s, slice, remove);
        case Sync =>
          var m;
          m, t := SyncExists(px, s, NamespacedName("", ""), None);
          assert Syncs(px, s, m, t);
      }
      assert Step(px, s, e, t);
  }

  // ---------- continuations by slice events ----------

  ghost predicate Continues(px: Proxy, s: State, events: seq<Event>, u: State)
    decreases |events|
  {
    if events == [] then u == s
    else events[0].SliceEvent? && exists v :: Step(px, s, events[0], v) && Continues(px, v, events[1..], u)
  }

  function Extended(h: History, events: seq<Event>): History
    decreases |events|
  {
    if events == [] then h else Extended(Then(h, events[0]), events[1..])
  }

  lemma ReceiveKeeps(px: Proxy, s: State, e: Event, v: State, service: NamespacedName)
    requires e.SliceEvent? && Step(px, s, e, v)
    ensures v.em == s.em && TrackerOf(v.trackers, service).applied == TrackerOf(s.trackers, service).applied
  {}

  /** Slice events change neither the map nor what is applied. */
  lemma {:induction false} ContinuesKeeps(px: Proxy, h: History, s: State, events: seq<Event>, u: State,
                                          service: NamespacedName)
    requires Reaches(px, h, s) && Continues(px, s, events, u)
    ensures Reaches(px, Extended(h, events), u)
    ensures u.em == s.em && TrackerOf(u.trackers, service).applied == TrackerOf(s.trackers, service).applied
    decreases |events|
  {
    if events != [] {
      var v :| Step(px, s, events[0], v) && Continues(px, v, events[1..], u);
      assert Reaches(px, Then(h, events[0]), v);
      ReceiveKeeps(px, s, events[0], v, service);
      ContinuesKeeps(px, Then(h, events[0]), v, events[1..], u, service);
    }
  }

  lemma {:induction false} ReceivedIsOwn(h: History, service: NamespacedName, n: string)
    requires n in Received(h, service)
    ensures var slice := Received(h, service)[n]; Accepted(slice) && ServiceOf(slice) == service && slice.name == n
  {
    var e := h.event;
    if e.SliceEvent? && Accepted(e.slice) && ServiceOf(e.slice) == service && !e.remove && e.slice.name == n {
    } else {
      ReceivedIsOwn(h.before, service, n);
    }
  }

  /** All of a service's slices can go. */
  lemma {:induction false} RemoveAll(px: Proxy, h: History, s: State, service: NamespacedName)
    returns (events: seq<Event>, u: State)
    requires Reaches(px, h, s)
    ensures Continues(px, s, events, u) && Overlay(TrackerOf(u.trackers, service)) == map[]
    decreases |Received(h, service)|
  {
    var slices := Received(h, service);
    if slices == map[] {
      HistoryKeepsInv(px, h, s, service);
      events, u := [], s;
    } else {
      var n :| n in slices;
      ReceivedIsOwn(h, service, n);
      var e := SliceEvent(slices[n], true);
      var v := ReceiveExists(px, s, slices[n], true);
      assert Reaches(px, Then(h, e), v);
      assert Received(Then(h, e), service) == slices - {n};
      var rest;
      rest, u := RemoveAll(px, Then(h, e), v, service);
      events := [e] + rest;
      assert events[1..] == rest;
    }
  }
}
