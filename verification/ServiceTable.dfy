/** kube-proxy's service tracker and service map: `ServiceChangeTracker.Update` and `ServiceMap.apply`. */
module ServiceTable {
  import opened Common
  import opened Patching
  import CT = ChangeTracking
  import OH = ObjectHistory

  datatype ServicePort = ServicePort(name: string, protocol: Protocol, port: int, nodePort: int)

  /**
   A Service object as the proxy reads it: `skip` is ShouldSkipService, `clusterIP` the address of the proxy's
   family ("" when there is none), `settings` the fields that every port of the service copies.
   */
  datatype Service =
    Service(name: NamespacedName, skip: bool, clusterIP: string, ports: seq<ServicePort>, settings: string)

  /** `BaseServiceInfo`. */
  datatype ServiceInfo = ServiceInfo(clusterIP: string, port: int, protocol: Protocol, nodePort: int, settings: string)

  type ServiceMap = Table<ServiceInfo>

  function PortName(s: Service, p: ServicePort): ServicePortName { ServicePortName(s.name, p.name, p.protocol) }

  function InfoOf(s: Service, p: ServicePort): ServiceInfo {
    ServiceInfo(s.clusterIP, p.port, p.protocol, p.nodePort, s.settings)
  }

  function PortsMap(s: Service, ports: seq<ServicePort>): ServiceMap {
    if ports == [] then map[]
    else PortsMap(s, ports[..|ports| - 1])[PortName(s, ports[|ports| - 1]) := InfoOf(s, ports[|ports| - 1])]
  }

  function SnapshotOf(s: Service): CT.Snapshot<ServiceInfo> {
    if s.skip || s.clusterIP == "" then None else Some(PortsMap(s, s.ports))
  }

  function MapOf(service: Option<Service>): CT.Snapshot<ServiceInfo> { OH.SnapshotOf(SERVICES, service) }

  const SERVICES: OH.Kind<Service, ServiceInfo> :=
    OH.Kind((s: Service) => s.name, (s: Service) => SnapshotOf(s), (_: Service) => None)

  type History = OH.History<Service>

  function LatestService(h: History, n: NamespacedName): Option<Service> { OH.Latest(SERVICES, h, n) }

  lemma {:induction false} PortsMapOwn(s: Service, ports: seq<ServicePort>)
    ensures OwnPorts(PortsMap(s, ports), s.name)
    ensures forall p :: p in PortsMap(s, ports) ==> PortsMap(s, ports)[p].protocol == p.protocol
  {
    if ports != [] {
      PortsMapOwn(s, ports[..|ports| - 1]);
    }
  }

  ghost predicate LastDeclares(ports: seq<ServicePort>, p: ServicePortName, i: int) {
    && 0 <= i < |ports| && ports[i].name == p.port && ports[i].protocol == p.protocol
    && forall j :: i < j < |ports| ==> ports[j].name != p.port || ports[j].protocol != p.protocol
  }

  /** The entry of a port declared by the service. */
  predicate EntryFor(s: Service, d: ServicePort, info: ServiceInfo) {
    && info.port == d.port && info.nodePort == d.nodePort && info.protocol == d.protocol
    && info.clusterIP == s.clusterIP && info.settings == s.settings
  }

  /** A service has exactly the ports it declares; of two declared under one name and protocol the later counts. */
  lemma {:induction false} PortsMapDeclares(s: Service, ports: seq<ServicePort>, p: ServicePortName)
    ensures p in PortsMap(s, ports) <==>
            p.service == s.name && exists d :: d in ports && d.name == p.port && d.protocol == p.protocol
    ensures p in PortsMap(s, ports) ==>
              exists i :: LastDeclares(ports, p, i) && EntryFor(s, ports[i], PortsMap(s, ports)[p])
  {
    if ports != [] {
      var n := |ports| - 1;
      var front := ports[..n];
      assert ports == front + [ports[n]];
      PortsMapDeclares(s, front, p);
      if PortName(s, ports[n]) == p {
        assert LastDeclares(ports, p, n);
      } else if p in PortsMap(s, front) {
        var i :| LastDeclares(front, p, i) && EntryFor(s, front[i], PortsMap(s, front)[p]);
        assert LastDeclares(ports, p, i);
      }
    }
  }

  /** A service that is skipped or has no cluster IP has no map at all, which is not the same as an empty one. */
  lemma SnapshotDeclares(s: Service, p: ServicePortName)
    ensures SnapshotOf(s).Some? <==> !s.skip && s.clusterIP != ""
    ensures p in CT.TableOf(SnapshotOf(s)) <==>
            && !s.skip && s.clusterIP != "" && p.service == s.name
            && exists d :: d in s.ports && d.name == p.port && d.protocol == p.protocol
    ensures p in CT.TableOf(SnapshotOf(s)) ==>
              exists i :: LastDeclares(s.ports, p, i) && EntryFor(s, s.ports[i], CT.TableOf(SnapshotOf(s))[p])
  {
    PortsMapDeclares(s, s.ports, p);
  }

  method ServiceToServiceMap(service: Option<Service>) returns (m: CT.Snapshot<ServiceInfo>)
    ensures m == MapOf(service)
    ensures m.Some? <==> service.Some? && !service.value.skip && service.value.clusterIP != ""
    ensures m.Some? ==>
              forall p :: p in m.value <==>
                && p.service == service.value.name
                && exists d :: d in service.value.ports && d.name == p.port && d.protocol == p.protocol
    ensures m.Some? ==>
              forall p :: p in m.value ==>
                exists i :: LastDeclares(service.value.ports, p, i)
                  && EntryFor(service.value, service.value.ports[i], m.value[p])
  {
    if service.None? || service.value.skip || service.value.clusterIP == "" { return None; }
    var s, ports := service.value, map[];
    for i := 0 to |s.ports|
      invariant ports == PortsMap(s, s.ports[..i])
    {
      assert s.ports[..i + 1][..i] == s.ports[..i];
      ports := ports[PortName(s, s.ports[i]) := InfoOf(s, s.ports[i])];
    }
    assert s.ports[..|s.ports|] == s.ports;
    forall p
      ensures p in ports <==>
              p.service == s.name && exists d :: d in s.ports && d.name == p.port && d.protocol == p.protocol
      ensures p in ports ==> exists i :: LastDeclares(s.ports, p, i) && EntryFor(s, s.ports[i], ports[p])
    {
      PortsMapDeclares(s, s.ports, p);
    }
    m := Some(ports);
  }

  /** The cluster IPs of those of the ports that the map has and that are UDP. */
  ghost function UDPIPs(sm: ServiceMap, ports: set<ServicePortName>): set<string> {
    set p | p in ports && p in sm && sm[p].protocol == UDP :: sm[p].clusterIP
  }

  /** The UDP cluster IPs of the ports a change takes out of the map. */
  ghost function StaleOf(sm: ServiceMap, c: Change<ServiceInfo>): set<string> {
    UDPIPs(sm, c.previous.Keys - c.current.Keys)
  }

  class ServiceChangeTracker {
    var items: CT.Items<ServiceInfo>

    ghost predicate Valid()
      reads this
    {
      CT.OwnItems(items)
    }

    constructor ()
      ensures Valid() && items == map[]
    {
      items := map[];
    }

    /** Callers pass two versions of one object, either of which may be missing. */
    method Update(previous: Option<Service>, current: Option<Service>) returns (pending: bool)
      requires Valid() && (previous.Some? && current.Some? ==> previous.value.name == current.value.name)
      modifies this
      ensures Valid()
      ensures previous.None? && current.None? ==> !pending && items == old(items)
      ensures previous.Some? || current.Some? ==>
                var name := if current.Some? then current.value.name else previous.value.name;
                items == CT.Record(old(items), name, MapOf(previous), MapOf(current)) && pending == (items != map[])
    {
      if previous.None? && current.None? { return false; }
      var name := if current.Some? then current.value.name else previous.value.name;
      var before := ServiceToServiceMap(previous);
      var after := ServiceToServiceMap(current);
      var change := if name in items then items[name].(current := after) else CT.Delta(before, after);
      if change.previous == change.current {
        items := items - {name};
      } else {
        items := items[name := change];
      }
      pending := items != map[];
    }
  }

  class ServiceTable {
    var serviceMap: ServiceMap

    constructor ()
      ensures serviceMap == map[]
    {
      serviceMap := map[];
    }

    method Merge(other: ServiceMap)
      modifies this
      ensures serviceMap == old(serviceMap) + other
    {
      var todo := other.Keys;
      while todo != {}
        invariant todo <= other.Keys && serviceMap == old(serviceMap) + (other - todo)
        decreases todo
      {
        var p :| p in todo;
        serviceMap, todo := serviceMap[p := other[p]], todo - {p};
      }
      assert other - {} == other;
    }

    /** Deletes the ports of `other`, and collects the cluster IPs of those that were UDP. */
    method Unmerge(other: ServiceMap, start: set<string>) returns (stale: set<string>)
      modifies this
      ensures serviceMap == old(serviceMap) - other.Keys
      ensures stale == start + UDPIPs(old(serviceMap), other.Keys)
    {
      stale := start;
      var todo := other.Keys;
      ghost var sm := serviceMap;
      while todo != {}
        invariant todo <= other.Keys && serviceMap == sm - (other.Keys - todo)
        invariant stale == start + UDPIPs(sm, other.Keys - todo)
        decreases todo
      {
        var p :| p in todo;
        todo := todo - {p};
        if p in serviceMap {
          if serviceMap[p].protocol == UDP {
            stale := stale + {serviceMap[p].clusterIP};
          }
          serviceMap := serviceMap - {p};
        }
      }
      assert other.Keys - {} == other.Keys;
    }

    /** merge(current), then unmerge what `filter` leaves of previous: the net effect is that of patching. */
    method ApplyChange(c: Change<ServiceInfo>, start: set<string>) returns (stale: set<string>)
      modifies this
      ensures serviceMap == Patch(old(serviceMap), c)
      ensures stale == start + StaleOf(old(serviceMap), c)
    {
      ghost var sm := serviceMap;
      Merge(c.current);
      var gone := c.previous - c.current.Keys;
      stale := Unmerge(gone, start);
      assert forall p :: p in gone && p in sm + c.current ==> p in sm && (sm + c.current)[p] == sm[p];
      assert UDPIPs(sm + c.current, gone.Keys) == StaleOf(sm, c);
      assert serviceMap == Patch(sm, c);
    }

    /** One sync of the service map: all pending changes, in whatever order the items are visited. */
    method Apply(tracker: ServiceChangeTracker) returns (udpStaleClusterIP: set<string>)
      requires tracker.Valid()
      modifies this, tracker
      ensures tracker.items == map[]
      ensures Patched(old(serviceMap), CT.Changes(old(tracker.items)), serviceMap)
      ensures Reported(old(serviceMap), old(tracker.items), old(tracker.items).Keys, udpStaleClusterIP)
    {
      var items := tracker.items;
      ghost var sm := serviceMap;
      udpStaleClusterIP := {};
      var todo := items.Keys;
      while todo != {}
        invariant todo <= items.Keys && tracker.items == items
        invariant PatchedFor(sm, CT.Changes(items), items.Keys - todo, serviceMap)
        invariant Reported(sm, items, items.Keys - todo, udpStaleClusterIP)
        decreases todo
      {
        var n :| n in todo;
        var change := CT.ChangeOf(items[n]);
        PatchOneMore(sm, CT.Changes(items), items.Keys - todo, serviceMap, n);
        assert Restrict(serviceMap, n) == Restrict(sm, n);
        SameStale(sm, serviceMap, change, n);
        ghost var done, before := items.Keys - todo, udpStaleClusterIP;
        udpStaleClusterIP := ApplyChange(change, udpStaleClusterIP);
        ReportedMore(sm, items, done, before, n);
        todo := todo - {n};
        assert items.Keys - todo == done + {n};
      }
      assert items.Keys - {} == items.Keys;
      tracker.items := map[];
    }
  }

  ghost predicate StaleFrom(sm: ServiceMap, items: CT.Items<ServiceInfo>, n: NamespacedName, ip: string) {
    n in items && ip in StaleOf(sm, CT.ChangeOf(items[n]))
  }

  /** `stale` holds the stale IPs of the changes in `done`. */
  ghost predicate Reported(sm: ServiceMap, items: CT.Items<ServiceInfo>, done: set<NamespacedName>,
                           stale: set<string>) {
    forall ip :: ip in stale <==> exists n :: n in done && StaleFrom(sm, items, n, ip)
  }

  lemma ReportedMore(sm: ServiceMap, items: CT.Items<ServiceInfo>, done: set<NamespacedName>, stale: set<string>,
                     n: NamespacedName)
    requires Reported(sm, items, done, stale) && n in items
    ensures Reported(sm, items, done + {n}, stale + StaleOf(sm, CT.ChangeOf(items[n])))
  {}

  lemma SameStale(sm: ServiceMap, sm': ServiceMap, c: Change<ServiceInfo>, n: NamespacedName)
    requires OwnChange(c, n) && Restrict(sm', n) == Restrict(sm, n)
    ensures StaleOf(sm', c) == StaleOf(sm, c)
  {
    forall p | p in c.previous ensures (p in sm <==> p in sm') && (p in sm ==> sm[p] == sm'[p]) {
      SameAtPort(sm, sm', p);
    }
  }

  // ---------- histories of Service objects ----------

  lemma ServicesOwnPorts()
    ensures OH.OwnKind(SERVICES)
  {
    forall s: Service ensures OwnPorts(CT.TableOf(SERVICES.snapshot(s)), SERVICES.name(s)) {
      PortsMapOwn(s, s.ports);
    }
  }

  /** `s` is the state of tracker and map after the history, and `t` the one after applying what is then pending. */
  ghost predicate Applies(h: History, s: CT.State<ServiceInfo>, t: CT.State<ServiceInfo>) {
    OH.Chained(SERVICES, h) && CT.Reaches(OH.Tracked(SERVICES, h), s) && CT.Step(s, CT.Checkout, t)
  }

  predicate Declared(h: History, p: ServicePortName) { p in CT.TableOf(MapOf(LatestService(h, p.service))) }

  /**
   After every apply the service map has exactly the ports that the services then existing declare, those that are
   skipped or have no cluster IP left aside, each with the numbers of its last declaration.
   */
  lemma ApplyMatchesServices(h: History, s: CT.State<ServiceInfo>, t: CT.State<ServiceInfo>, p: ServicePortName)
    requires Applies(h, s, t)
    ensures p in t.table <==> Declared(h, p)
    ensures p in t.table <==>
            var latest := LatestService(h, p.service);
            && latest.Some? && !latest.value.skip && latest.value.clusterIP != ""
            && exists d :: d in latest.value.ports && d.name == p.port && d.protocol == p.protocol
    ensures p in t.table ==>
              var latest := LatestService(h, p.service).value;
              exists i :: LastDeclares(latest.ports, p, i)
                && t.table[p].port == latest.ports[i].port && t.table[p].nodePort == latest.ports[i].nodePort
                && t.table[p].protocol == latest.ports[i].protocol
                && t.table[p].clusterIP == latest.clusterIP && t.table[p].settings == latest.settings
  {
    ServicesOwnPorts();
    assert CT.Reaches(CT.Then(OH.Tracked(SERVICES, h), CT.Checkout), t);
    OH.TableMatchesObjects(SERVICES, h, t, p);
    OH.TrackedLatest(SERVICES, h, p.service);
    if LatestService(h, p.service).Some? {
      SnapshotDeclares(LatestService(h, p.service).value, p);
    }
  }

  ghost predicate Vanished(before: ServiceMap, after: ServiceMap, p: ServicePortName, ip: string) {
    p in before && p !in after && before[p].protocol == UDP && before[p].clusterIP == ip
  }

  /** The stale cluster IPs of an apply are exactly those of the UDP ports in the map before it and not after it. */
  lemma StaleClusterIPsExact(h: History, s: CT.State<ServiceInfo>, t: CT.State<ServiceInfo>, stale: set<string>,
                             ip: string)
    requires Applies(h, s, t) && Reported(s.table, s.items, s.items.Keys, stale)
    ensures ip in stale <==> exists p :: Vanished(s.table, t.table, p, ip)
  {
    if ip in stale {
      var n :| n in s.items && StaleFrom(s.table, s.items, n, ip);
      var c := CT.ChangeOf(s.items[n]);
      var p :| p in c.previous.Keys - c.current.Keys && p in s.table
        && s.table[p].protocol == UDP && s.table[p].clusterIP == ip;
      AppliedAtPort(h, s, t, p, n);
      assert Vanished(s.table, t.table, p, ip);
    }
    if exists p :: Vanished(s.table, t.table, p, ip) {
      var p :| Vanished(s.table, t.table, p, ip);
      AppliedAtPort(h, s, t, p, p.service);
      assert StaleFrom(s.table, s.items, p.service, ip);
    }
  }

  lemma AppliedAtPort(h: History, s: CT.State<ServiceInfo>, t: CT.State<ServiceInfo>, p: ServicePortName,
                      n: NamespacedName)
    requires Applies(h, s, t)
    requires p.service == n || (n in s.items && p in CT.ChangeOf(s.items[n]).previous)
    ensures p.service == n
    ensures if n in s.items
            then var c := CT.ChangeOf(s.items[n]);
              (p in s.table <==> p in c.previous) && (p in t.table <==> p in c.current)
            else p in s.table <==> p in t.table
  {
    ServicesOwnPorts();
    OH.TrackedChained(SERVICES, h);
    var th := OH.Tracked(SERVICES, h);
    CT.HistoryKeepsInv(th, s, n);
    CT.LatestOwnsPorts(th, n);
    assert CT.Reaches(CT.Then(th, CT.Checkout), t);
    CT.HistoryKeepsInv(CT.Then(th, CT.Checkout), t, n);
    assert p in Restrict(s.table, n) <==> p in s.table;
    assert p in Restrict(t.table, n) <==> p in t.table;
  }

  // ---------- the documented set ----------

  predicate UDPAt(sm: ServiceMap, p: ServicePortName, ip: string) {
    p in sm && sm[p].protocol == UDP && sm[p].clusterIP == ip
  }

  ghost predicate HadUDP(sm: ServiceMap, ip: string) { exists p :: UDPAt(sm, p, ip) }

  predicate Holds(service: Option<Service>, ip: string) { MapOf(service).Some? && service.value.clusterIP == ip }

  /** Some service that exists has the IP. */
  ghost predicate Assigned(h: History, ip: string) { exists n :: Holds(LatestService(h, n), ip) }

  /** What the result is documented to hold: an IP that had UDP ports and is no longer assigned to a service. */
  ghost predicate Documented(h: History, sm: ServiceMap, ip: string) { HadUDP(sm, ip) && !Assigned(h, ip) }

  /** The IP is given up by services that keep all their UDP ports. */
  ghost predicate GivenUpQuietly(h: History, sm: ServiceMap, ip: string) {
    HadUDP(sm, ip) && (forall p :: UDPAt(sm, p, ip) ==> Declared(h, p)) && !Assigned(h, ip)
  }

  /** A UDP port at the IP goes while some service keeps the IP. */
  ghost predicate PortGoesIPStays(h: History, sm: ServiceMap, ip: string) {
    (exists p :: UDPAt(sm, p, ip) && !Declared(h, p)) && Assigned(h, ip)
  }

  /**
   The stale IPs are as documented except in two cases, which can be told before the call from the map and the
   services that exist: an IP given up by services that keep their ports is missed, and one that loses a UDP port
   while some service keeps it is reported all the same.
   */
  lemma StaleIPsAsDocumentedIff(h: History, s: CT.State<ServiceInfo>, t: CT.State<ServiceInfo>, stale: set<string>,
                                ip: string)
    requires Applies(h, s, t) && Reported(s.table, s.items, s.items.Keys, stale)
    ensures (ip in stale <==> Documented(h, s.table, ip)) <==>
            !GivenUpQuietly(h, s.table, ip) && !PortGoesIPStays(h, s.table, ip)
    ensures GivenUpQuietly(h, s.table, ip) ==> ip !in stale
    ensures PortGoesIPStays(h, s.table, ip) ==> ip in stale
  {
    StaleClusterIPsExact(h, s, t, stale, ip);
    forall p ensures Vanished(s.table, t.table, p, ip) <==> UDPAt(s.table, p, ip) && !Declared(h, p) {
      ApplyMatchesServices(h, s, t, p);
    }
  }

  // ---------- a service that moves, and one that drops a port ----------

  /** The service is created and synced, and then replaced by another version of itself. */
  function Replaced(s: Service, s': Service): History {
    OH.Then(OH.Then(OH.Then(OH.Start, OH.Update(None, Some(s))), OH.Checkout), OH.Update(Some(s), Some(s')))
  }

  lemma ReplacedLatest(s: Service, s': Service, n: NamespacedName)
    requires s.name == s'.name
    ensures OH.Chained(SERVICES, Replaced(s, s'))
    ensures LatestService(Replaced(s, s'), n) == if n == s.name then Some(s') else None
  {
    var created := OH.Then(OH.Start, OH.Update(None, Some(s)));
    var synced := OH.Then(created, OH.Checkout);
    assert LatestService(OH.Start, n) == None && LatestService(OH.Start, s.name) == None;
    assert LatestService(created, n) == if n == s.name then Some(s) else None;
    assert LatestService(created, s.name) == Some(s);
    assert LatestService(synced, n) == LatestService(created, n) && LatestService(synced, s.name) == Some(s);
    assert OH.Chained(SERVICES, created);
    assert OH.Chained(SERVICES, synced);
  }

  lemma ReplacedTracked(s: Service, s': Service)
    requires s.name == s'.name
    ensures OH.Tracked(SERVICES, Replaced(s, s')) ==
            CT.Then(CT.Then(CT.Then(CT.Start, CT.Update(s.name, None, SnapshotOf(s), None)), CT.Checkout),
                    CT.Update(s.name, SnapshotOf(s), SnapshotOf(s'), None))
  {
    var e, e' := OH.Update(None, Some(s)), OH.Update(Some(s), Some(s'));
    assert OH.Tracked(SERVICES, OH.Start) == CT.Start;
    assert OH.Tracked(SERVICES, OH.Then(OH.Start, e)) ==
           CT.Then(CT.Start, CT.Update(s.name, None, SnapshotOf(s), None));
  }

  /** The map holds the first version when the second is about to be applied. */
  lemma ReplacedTable(s: Service, s': Service, st: CT.State<ServiceInfo>)
    requires s.name == s'.name && CT.Reaches(OH.Tracked(SERVICES, Replaced(s, s')), st)
    ensures st.table == CT.TableOf(SnapshotOf(s))
  {
    var th := OH.Tracked(SERVICES, Replaced(s, s'));
    ServicesOwnPorts();
    ReplacedLatest(s, s', s.name);
    OH.TrackedChained(SERVICES, Replaced(s, s'));
    PortsMapOwn(s, s.ports);
    ReplacedTracked(s, s');
    forall p: ServicePortName
      ensures p in st.table <==> p in CT.TableOf(SnapshotOf(s))
      ensures p in st.table ==> st.table[p] == CT.TableOf(SnapshotOf(s))[p]
    {
      CT.HistoryKeepsInv(th, st, p.service);
      assert CT.Applied(th, p.service) == CT.Latest(th.before.before, p.service);
      assert CT.Latest(th.before.before.before, p.service) == None;
      assert p in Restrict(st.table, p.service) <==> p in st.table;
    }
  }

  lemma ReplacedRuns(s: Service, s': Service)
    returns (st: CT.State<ServiceInfo>, t: CT.State<ServiceInfo>, stale: set<string>)
    requires s.name == s'.name
    ensures Applies(Replaced(s, s'), st, t) && Reported(st.table, st.items, st.items.Keys, stale)
    ensures st.table == CT.TableOf(SnapshotOf(s))
  {
    ReplacedLatest(s, s', s.name);
    st := CT.HistoryRuns(OH.Tracked(SERVICES, Replaced(s, s')));
    ReplacedTable(s, s', st);
    SplicedIsPatched(st.table, CT.Changes(st.items));
    t := CT.State(map[], st.times, Spliced(st.table, CT.Changes(st.items)));
    stale := set n, ip | n in st.items && ip in StaleOf(st.table, CT.ChangeOf(st.items[n])) :: ip;
  }

  lemma {:induction false} SamePortsSameKeys(s: Service, s': Service, ports: seq<ServicePort>)
    requires s.name == s'.name
    ensures PortsMap(s, ports).Keys == PortsMap(s', ports).Keys
  {
    if ports != [] {
      SamePortsSameKeys(s, s', ports[..|ports| - 1]);
    }
  }

  lemma DeclaredUDP(s: Service, port: ServicePort)
    requires !s.skip && s.clusterIP != "" && port in s.ports && port.protocol == UDP
    ensures UDPAt(CT.TableOf(SnapshotOf(s)), PortName(s, port), s.clusterIP)
  {
    PortsMapOwn(s, s.ports);
    PortsMapDeclares(s, s.ports, PortName(s, port));
  }

  /** A service with a UDP port that moves to another IP: the next apply does not report the IP it left. */
  lemma MovedServiceIsNotReported(s: Service, port: ServicePort, ip: string)
    returns (st: CT.State<ServiceInfo>, t: CT.State<ServiceInfo>, stale: set<string>)
    requires !s.skip && s.clusterIP != "" && ip != "" && ip != s.clusterIP && port in s.ports && port.protocol == UDP
    ensures var h := Replaced(s, s.(clusterIP := ip));
      && Applies(h, st, t) && Reported(st.table, st.items, st.items.Keys, stale)
      && Documented(h, st.table, s.clusterIP) && s.clusterIP !in stale
  {
    var s' := s.(clusterIP := ip);
    var h := Replaced(s, s');
    st, t, stale := ReplacedRuns(s, s');
    DeclaredUDP(s, port);
    SamePortsSameKeys(s, s', s.ports);
    PortsMapOwn(s, s.ports);
    forall n ensures LatestService(h, n) == if n == s.name then Some(s') else None {
      ReplacedLatest(s, s', n);
    }
    forall p | UDPAt(st.table, p, s.clusterIP) ensures Declared(h, p) {
      assert p.service == s.name;
    }
    assert GivenUpQuietly(h, st.table, s.clusterIP);
    StaleIPsAsDocumentedIff(h, st, t, stale, s.clusterIP);
  }

  /** A service that drops a UDP port and keeps its IP: the next apply reports the IP although it is still assigned. */
  lemma DroppedPortIsReported(s: Service, port: ServicePort, ports: seq<ServicePort>)
    returns (st: CT.State<ServiceInfo>, t: CT.State<ServiceInfo>, stale: set<string>)
    requires !s.skip && s.clusterIP != "" && port in s.ports && port.protocol == UDP
    requires forall q :: q in ports ==> PortName(s, q) != PortName(s, port)
    ensures var h := Replaced(s, s.(ports := ports));
      && Applies(h, st, t) && Reported(st.table, st.items, st.items.Keys, stale)
      && Assigned(h, s.clusterIP) && s.clusterIP in stale
  {
    var s' := s.(ports := ports);
    var h := Replaced(s, s');
    st, t, stale := ReplacedRuns(s, s');
    DeclaredUDP(s, port);
    PortsMapDeclares(s', ports, PortName(s, port));
    ReplacedLatest(s, s', s.name);
    assert PortName(s, port) !in PortsMap(s', ports) by {
      assert forall q :: PortName(s', q) == PortName(s, q);
    }
    assert UDPAt(st.table, PortName(s, port), s.clusterIP) && !Declared(h, PortName(s, port));
    assert Holds(LatestService(h, s.name), s.clusterIP);
    StaleIPsAsDocumentedIff(h, st, t, stale, s.clusterIP);
  }
}
