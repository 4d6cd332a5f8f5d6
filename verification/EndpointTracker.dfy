/**
 kube-proxy's endpoint change tracker: in Endpoints mode `Update`, `checkoutChanges` and `checkoutTriggerTimes`, and in
 EndpointSlice mode `EndpointSliceUpdate` on top of the slice cache.
 */
module EndpointTracker {
  import opened Common
  import opened Patching
  import opened SliceBuild
  import opened SliceHistory
  import opened SliceCache
  import CT = ChangeTracking
  import OH = ObjectHistory

  datatype Address = Address(ip: string, nodeName: Option<string>)

  datatype Port = Port(name: string, protocol: Protocol, port: int)

  datatype Subset = Subset(ports: seq<Port>, addresses: seq<Address>)

  /** An Endpoints object; `trigger` is its last-change trigger time, when that is set and parses to a non-zero time. */
  datatype Endpoints = Endpoints(name: NamespacedName, subsets: seq<Subset>, trigger: Option<int>)

  // ---------- endpointsToEndpointsMap ----------

  predicate AddressUsable(px: Proxy, a: Address) { a.ip != "" && px.ipv6 == px.isIPv6(a.ip) }

  function AddressEndpoint(px: Proxy, port: int, a: Address): Endpoint {
    Endpoint(px.joinHostPort(a.ip, port), a.nodeName == Some(px.hostname), map[], {}, true, true, false)
  }

  function AddressVisits(px: Proxy, p: ServicePortName, port: int, addresses: seq<Address>): seq<Visit> {
    if addresses == [] then []
    else
      AddressVisits(px, p, port, addresses[..|addresses| - 1]) +
      var a := addresses[|addresses| - 1];
      if AddressUsable(px, a) then [Visit(p, AddressEndpoint(px, port, a))] else []
  }

  function SubsetVisits(px: Proxy, name: NamespacedName, ports: seq<Port>, addresses: seq<Address>): seq<Visit> {
    if ports == [] then []
    else
      SubsetVisits(px, name, ports[..|ports| - 1], addresses) +
      var q := ports[|ports| - 1];
      if q.port == 0 then [] else AddressVisits(px, ServicePortName(name, q.name, q.protocol), q.port, addresses)
  }

  function ObjectVisits(px: Proxy, name: NamespacedName, subsets: seq<Subset>): seq<Visit> {
    if subsets == [] then []
    else
      ObjectVisits(px, name, subsets[..|subsets| - 1]) +
      SubsetVisits(px, name, subsets[|subsets| - 1].ports, subsets[|subsets| - 1].addresses)
  }

  /** The endpoints visited for one port, in order. */
  function Listing(vs: seq<Visit>, p: ServicePortName): seq<Endpoint> {
    if vs == [] then []
    else Listing(vs[..|vs| - 1], p) + if vs[|vs| - 1].port == p then [vs[|vs| - 1].endpoint] else []
  }

  function Grouped(vs: seq<Visit>): EndpointsMap {
    map p | p in Ports(vs) :: Listing(vs, p)
  }

  function SnapshotOf(px: Proxy, e: Endpoints): CT.Snapshot<seq<Endpoint>> {
    Some(Grouped(ObjectVisits(px, e.name, e.subsets)))
  }

  function EndpointsKind(px: Proxy): OH.Kind<Endpoints, seq<Endpoint>> {
    OH.Kind((e: Endpoints) => e.name, (e: Endpoints) => SnapshotOf(px, e), (e: Endpoints) => e.trigger)
  }

  function ObjectMap(px: Proxy, endpoints: Option<Endpoints>): CT.Snapshot<seq<Endpoint>> {
    OH.SnapshotOf(EndpointsKind(px), endpoints)
  }

  /** Appending to the port's list, as the innermost loop does. */
  function Append(em: EndpointsMap, v: Visit): EndpointsMap {
    em[v.port := (if v.port in em then em[v.port] else []) + [v.endpoint]]
  }

  lemma {:induction false} NotVisited(vs: seq<Visit>, p: ServicePortName)
    requires p !in Ports(vs)
    ensures Listing(vs, p) == []
  {
    if vs != [] {
      assert vs[|vs| - 1].port in Ports(vs);
      NotVisited(vs[..|vs| - 1], p);
    }
  }

  lemma GroupedAppend(vs: seq<Visit>, v: Visit)
    ensures Grouped(vs + [v]) == Append(Grouped(vs), v)
  {
    var more := vs + [v];
    assert more[..|more| - 1] == vs;
    assert Ports(more) == Ports(vs) + {v.port} by {
      assert v in more;
      forall w | w in vs ensures w in more {}
    }
    if v.port !in Ports(vs) {
      NotVisited(vs, v.port);
      assert Listing(more, v.port) == [v.endpoint];
      assert Append(Grouped(vs), v)[v.port] == [v.endpoint];
    }
    var a, b := Grouped(more), Append(Grouped(vs), v);
    assert a.Keys == b.Keys;
    forall p | p in a ensures a[p] == b[p] {
      assert Listing(more, p) == Listing(vs, p) + if v.port == p then [v.endpoint] else [];
    }
  }

  method AddAddresses(px: Proxy, p: ServicePortName, port: int, addresses: seq<Address>, start: EndpointsMap,
                      ghost vs: seq<Visit>)
    returns (em: EndpointsMap)
    requires start == Grouped(vs)
    ensures em == Grouped(vs + AddressVisits(px, p, port, addresses))
  {
    em := start;
    assert vs + AddressVisits(px, p, port, addresses[..0]) == vs;
    for i := 0 to |addresses|
      invariant em == Grouped(vs + AddressVisits(px, p, port, addresses[..i]))
    {
      ghost var seen := vs + AddressVisits(px, p, port, addresses[..i]);
      assert addresses[..i + 1][..i] == addresses[..i];
      if AddressUsable(px, addresses[i]) {
        var v := Visit(p, AddressEndpoint(px, port, addresses[i]));
        GroupedAppend(seen, v);
        em := Append(em, v);
        assert vs + AddressVisits(px, p, port, addresses[..i + 1]) == seen + [v];
      } else {
        assert vs + AddressVisits(px, p, port, addresses[..i + 1]) == seen;
      }
    }
    assert addresses[..|addresses|] == addresses;
  }

  method AddSubset(px: Proxy, name: NamespacedName, s: Subset, start: EndpointsMap, ghost vs: seq<Visit>)
    returns (em: EndpointsMap)
    requires start == Grouped(vs)
    ensures em == Grouped(vs + SubsetVisits(px, name, s.ports, s.addresses))
  {
    em := start;
    assert vs + SubsetVisits(px, name, s.ports[..0], s.addresses) == vs;
    for i := 0 to |s.ports|
      invariant em == Grouped(vs + SubsetVisits(px, name, s.ports[..i], s.addresses))
    {
      ghost var seen := vs + SubsetVisits(px, name, s.ports[..i], s.addresses);
      assert s.ports[..i + 1][..i] == s.ports[..i];
      var q := s.ports[i];
      if q.port == 0 {
        assert vs + SubsetVisits(px, name, s.ports[..i + 1], s.addresses) == seen;
      } else {
        var p := ServicePortName(name, q.name, q.protocol);
        em := AddAddresses(px, p, q.port, s.addresses, em, seen);
        assert vs + SubsetVisits(px, name, s.ports[..i + 1], s.addresses) ==
               seen + AddressVisits(px, p, q.port, s.addresses);
      }
    }
    assert s.ports[..|s.ports|] == s.ports;
  }

  lemma ObjectVisitsMore(px: Proxy, name: NamespacedName, subsets: seq<Subset>, i: nat)
    requires i < |subsets|
    ensures ObjectVisits(px, name, subsets[..i + 1]) ==
            ObjectVisits(px, name, subsets[..i]) + SubsetVisits(px, name, subsets[i].ports, subsets[i].addresses)
  {
    assert subsets[..i + 1][..i] == subsets[..i];
  }

  method EndpointsToEndpointsMap(px: Proxy, endpoints: Option<Endpoints>) returns (m: CT.Snapshot<seq<Endpoint>>)
    ensures m == ObjectMap(px, endpoints)
  {
    if endpoints.None? { return None; }
    var e, em := endpoints.value, map[];
    for i := 0 to |e.subsets|
      invariant em == Grouped(ObjectVisits(px, e.name, e.subsets[..i]))
    {
      ObjectVisitsMore(px, e.name, e.subsets, i);
      em := AddSubset(px, e.name, e.subsets[i], em, ObjectVisits(px, e.name, e.subsets[..i]));
    }
    assert e.subsets[..|e.subsets|] == e.subsets;
    m := Some(em);
  }

  lemma {:induction false} AddressVisitsOwn(px: Proxy, p: ServicePortName, port: int, addresses: seq<Address>, v: Visit)
    requires v in AddressVisits(px, p, port, addresses)
    ensures v.port == p
  {
    if v in AddressVisits(px, p, port, addresses[..|addresses| - 1]) {
      AddressVisitsOwn(px, p, port, addresses[..|addresses| - 1], v);
    }
  }

  lemma {:induction false} SubsetVisitsOwn(px: Proxy, name: NamespacedName, ports: seq<Port>, addresses: seq<Address>,
                                           v: Visit)
    requires v in SubsetVisits(px, name, ports, addresses)
    ensures v.port.service == name
  {
    var front, q := ports[..|ports| - 1], ports[|ports| - 1];
    if v in SubsetVisits(px, name, front, addresses) {
      SubsetVisitsOwn(px, name, front, addresses, v);
    } else {
      AddressVisitsOwn(px, ServicePortName(name, q.name, q.protocol), q.port, addresses, v);
    }
  }

  lemma {:induction false} ObjectVisitsOwn(px: Proxy, name: NamespacedName, subsets: seq<Subset>, v: Visit)
    requires v in ObjectVisits(px, name, subsets)
    ensures v.port.service == name
  {
    var front, s := subsets[..|subsets| - 1], subsets[|subsets| - 1];
    if v in ObjectVisits(px, name, front) {
      ObjectVisitsOwn(px, name, front, v);
    } else {
      SubsetVisitsOwn(px, name, s.ports, s.addresses, v);
    }
  }

  /** An Endpoints object has ports of its own service only, as `ChangeTracking.Chained` asks. */
  lemma ObjectMapOwn(px: Proxy, e: Endpoints)
    ensures OwnPorts(CT.TableOf(ObjectMap(px, Some(e))), e.name)
  {
    var vs := ObjectVisits(px, e.name, e.subsets);
    forall p | p in Ports(vs) ensures p.service == e.name {
      var v :| v in vs && v.port == p;
      ObjectVisitsOwn(px, e.name, e.subsets, v);
    }
  }

  lemma EndpointsOwnPorts(px: Proxy)
    ensures OH.OwnKind(EndpointsKind(px))
  {
    forall e: Endpoints ensures OwnPorts(CT.TableOf(EndpointsKind(px).snapshot(e)), EndpointsKind(px).name(e)) {
      ObjectMapOwn(px, e);
    }
  }

  lemma ObjectRecordOwns(px: Proxy, items: CT.Items<seq<Endpoint>>, name: NamespacedName, previous: Option<Endpoints>,
                         current: Option<Endpoints>)
    requires CT.OwnItems(items)
    requires (previous.Some? ==> previous.value.name == name) && (current.Some? ==> current.value.name == name)
    ensures CT.OwnItems(CT.Record(items, name, ObjectMap(px, previous), ObjectMap(px, current)))
  {
    if previous.Some? { ObjectMapOwn(px, previous.value); }
    if current.Some? { ObjectMapOwn(px, current.value); }
    CT.RecordOwns(items, name, ObjectMap(px, previous), ObjectMap(px, current));
  }

  // ---------- the tracker object ----------

  /** `times` has, per object, the times of `start` and after them those of `cached`. */
  ghost predicate JoinedTimes(start: CT.Times, cached: CT.Times, times: CT.Times) {
    && times.Keys == start.Keys + cached.Keys
    && (forall n :: CT.TimesOf(times, n) == CT.TimesOf(start, n) + CT.TimesOf(cached, n))
  }

  /** The loop of checkoutTriggerTimes. */
  method JoinTimes(start: CT.Times, cached: CT.Times) returns (times: CT.Times)
    ensures JoinedTimes(start, cached, times)
  {
    times := start;
    var todo := cached.Keys;
    while todo != {}
      invariant todo <= cached.Keys && JoinedTimes(start, cached - todo, times)
      decreases todo
    {
      var k :| k in todo;
      if k !in times {
        times := times[k := cached[k]];
      } else {
        times := times[k := times[k] + cached[k]];
      }
      todo := todo - {k};
    }
    assert cached - {} == cached;
  }

  class EndpointChangeTracker {
    const px: Proxy
    var items: CT.Items<seq<Endpoint>>
    var lastChangeTriggerTimes: CT.Times

    ghost predicate Valid()
      reads this
    {
      CT.OwnItems(items)
    }

    constructor (px: Proxy)
      ensures Valid()
      ensures this.px == px && items == map[] && lastChangeTriggerTimes == map[]
    {
      this.px, items, lastChangeTriggerTimes := px, map[], map[];
    }

    /** One `Update` event of the shared bookkeeping; a deletion brings no trigger time. */
    method Update(previous: Option<Endpoints>, current: Option<Endpoints>) returns (pending: bool)
      requires Valid() && (previous.Some? && current.Some? ==> previous.value.name == current.value.name)
      modifies this
      ensures Valid()
      ensures previous.None? && current.None? ==>
                !pending && items == old(items) && lastChangeTriggerTimes == old(lastChangeTriggerTimes)
      ensures previous.Some? || current.Some? ==>
                var name := if current.Some? then current.value.name else previous.value.name;
                var time := if current.Some? then current.value.trigger else None;
                && items == CT.Record(old(items), name, ObjectMap(px, previous), ObjectMap(px, current))
                && lastChangeTriggerTimes == CT.RecordTime(old(items), old(lastChangeTriggerTimes), name,
                                                           ObjectMap(px, previous), ObjectMap(px, current), time)
                && pending == (items != map[])
    {
      if previous.None? && current.None? { return false; }
      var name := if current.Some? then current.value.name else previous.value.name;
      ObjectRecordOwns(px, items, name, previous, current);
      var change: CT.Delta<seq<Endpoint>>;
      if name in items {
        change := items[name];
      } else {
        var before := EndpointsToEndpointsMap(px, previous);
        change := CT.Delta(before, None);
      }
      if current.Some? && current.value.trigger.Some? {
        var times := if name in lastChangeTriggerTimes then lastChangeTriggerTimes[name] else [];
        lastChangeTriggerTimes := lastChangeTriggerTimes[name := times + [current.value.trigger.value]];
      }
      var after := EndpointsToEndpointsMap(px, current);
      change := change.(current := after);
      if change.previous == change.current {
        items := items - {name};
        lastChangeTriggerTimes := lastChangeTriggerTimes - {name};
      } else {
        items := items[name := change];
      }
      pending := items != map[];
    }

    /** Every pending change once, in the order the map happens to be visited, and none pending after. */
    method CheckoutChanges() returns (changes: seq<Change<seq<Endpoint>>>, ghost names: seq<NamespacedName>)
      modifies this
      ensures items == map[] && lastChangeTriggerTimes == old(lastChangeTriggerTimes)
      ensures Listed(changes, names, CT.Changes(old(items)))
    {
      changes, names := [], [];
      ghost var m: map<NamespacedName, Change<seq<Endpoint>>> := map[];
      var todo := items.Keys;
      while todo != {}
        invariant todo <= items.Keys && items == old(items) && lastChangeTriggerTimes == old(lastChangeTriggerTimes)
        invariant m == CT.Changes(items) - todo && Listed(changes, names, m)
        decreases todo
      {
        var n :| n in todo;
        ListedMore(changes, names, m, n, CT.ChangeOf(items[n]));
        changes, names, m := changes + [CT.ChangeOf(items[n])], names + [n], m[n := CT.ChangeOf(items[n])];
        todo := todo - {n};
      }
      assert CT.Changes(items) - {} == CT.Changes(items);
      items := map[];
    }

    method CheckoutTriggerTimes(start: CT.Times) returns (times: CT.Times)
      modifies this
      ensures lastChangeTriggerTimes == map[] && items == old(items)
      ensures JoinedTimes(start, old(lastChangeTriggerTimes), times)
    {
      times := JoinTimes(start, lastChangeTriggerTimes);
      lastChangeTriggerTimes := map[];
    }
  }

  // ---------- EndpointSlice mode ----------

  /** Times are cached only for services that have a pending slice. */
  ghost predicate TimesPending(ts: Trackers, times: CT.Times) {
    forall n :: n in times ==> TrackerOf(ts, n).pending != map[]
  }

  /** The tracker in EndpointSlice mode: the slice cache, and the trigger times of the changes it recorded. */
  class EndpointSliceTracker {
    const cache: EndpointSliceCache
    var lastChangeTriggerTimes: CT.Times

    ghost predicate Valid()
      reads this, cache
    {
      TimesPending(cache.trackerByServiceMap, lastChangeTriggerTimes)
    }

    constructor (px: Proxy)
      ensures Valid() && fresh(cache) && cache.px == px
      ensures cache.trackerByServiceMap == map[] && lastChangeTriggerTimes == map[]
    {
      cache := new EndpointSliceCache(px);
      lastChangeTriggerTimes := map[];
    }

    /** A slice that changes something is pending, and its time is kept unless it is a removal. */
    method EndpointSliceUpdate(slice: EndpointSlice, remove: bool) returns (changeNeeded: bool)
      requires Valid() && PortsComparable(slice.ports)
      modifies this, cache
      ensures Valid()
      ensures !Accepted(slice) ==> !changeNeeded && cache.trackerByServiceMap == old(cache.trackerByServiceMap)
      ensures Accepted(slice) ==>
                exists info :: Stores(cache.px, old(cache.trackerByServiceMap), slice, remove, info, changeNeeded,
                                      cache.trackerByServiceMap)
      ensures lastChangeTriggerTimes ==
                var times := old(lastChangeTriggerTimes);
                if changeNeeded && slice.trigger.Some? && !remove
                then times[ServiceOf(slice) := CT.TimesOf(times, ServiceOf(slice)) + [slice.trigger.value]]
                else times
    {
      if !Accepted(slice) { return false; }
      ghost var before := cache.trackerByServiceMap;
      changeNeeded := cache.UpdatePending(slice, remove);
      ghost var info :| Stores(cache.px, before, slice, remove, info, changeNeeded, cache.trackerByServiceMap);
      StoreKeepsPending(cache.px, before, slice, remove, info, changeNeeded, cache.trackerByServiceMap);
      if changeNeeded && slice.trigger.Some? && !remove {
        var service := ServiceOf(slice);
        var times := if service in lastChangeTriggerTimes then lastChangeTriggerTimes[service] else [];
        lastChangeTriggerTimes := lastChangeTriggerTimes[service := times + [slice.trigger.value]];
      }
    }
  }

  /** What is pending stays so, and a slice that changes something is. */
  lemma StoreKeepsPending(px: Proxy, before: Trackers, slice: EndpointSlice, remove: bool, info: SliceInfo,
                          changed: bool, after: Trackers)
    requires Accepted(slice) && Stores(px, before, slice, remove, info, changed, after)
    ensures forall n :: TrackerOf(before, n).pending != map[] ==> TrackerOf(after, n).pending != map[]
    ensures changed ==> TrackerOf(after, ServiceOf(slice)).pending != map[]
  {
    var service := ServiceOf(slice);
    assert Receives(px, State(before, map[]), slice, info, State(after, map[]));
    assert TrackerOf(after, service) == UpdatePending(TrackerOf(before, service), slice.name, info);
    if changed {
      assert slice.name in TrackerOf(after, service).pending;
    }
  }
}
