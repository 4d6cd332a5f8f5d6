/** `EndpointsMap.Update`: one sync of the long-lived map, and the stale UDP connections it reports. */
module EndpointsTable {
  import opened Common
  import opened Patching
  import opened SliceBuild
  import opened SliceHistory
  import opened SliceCache
  import opened EndpointTracker
  import CT = ChangeTracking

  datatype ServiceEndpoint = ServiceEndpoint(endpoint: string, port: ServicePortName)

  function ListAt(em: EndpointsMap, p: ServicePortName): seq<Endpoint> { if p in em then em[p] else [] }

  /** `BaseEndpointInfo.Equal`. */
  predicate Same(e: Endpoint, f: Endpoint) { e.str == f.str && e.isLocal == f.isLocal }

  ghost predicate Gone(e: Endpoint, l: seq<Endpoint>) {
    forall f :: f in l ==> f.str != e.str || f.isLocal != e.isLocal
  }

  /** A UDP endpoint listed before and not, with the same locality, after. */
  ghost predicate StaleEndpoint(before: EndpointsMap, after: EndpointsMap, se: ServiceEndpoint) {
    && se.port.protocol == UDP
    && exists e :: e in ListAt(before, se.port) && e.str == se.endpoint && Gone(e, ListAt(after, se.port))
  }

  lemma StaleEndpointMeans(before: EndpointsMap, after: EndpointsMap, se: ServiceEndpoint)
    ensures StaleEndpoint(before, after, se) <==>
            && se.port.protocol == UDP
            && exists e :: e in ListAt(before, se.port) && e.str == se.endpoint
                 && forall f :: f in ListAt(after, se.port) ==> f.str != e.str || f.isLocal != e.isLocal
  {
    if e :| e in ListAt(before, se.port) && e.str == se.endpoint
            && forall f :: f in ListAt(after, se.port) ==> f.str != e.str || f.isLocal != e.isLocal {
      assert Gone(e, ListAt(after, se.port));
    }
  }

  /** A UDP service port that had no endpoint before and has one after. */
  ghost predicate StaleName(before: EndpointsMap, after: EndpointsMap, p: ServicePortName) {
    p.protocol == UDP && ListAt(before, p) == [] && ListAt(after, p) != []
  }

  ghost predicate StaleIn(l: seq<Endpoint>, now: seq<Endpoint>, str: string) {
    exists e :: e in l && e.str == str && Gone(e, now)
  }

  method IsGone(e: Endpoint, l: seq<Endpoint>) returns (gone: bool)
    ensures gone <==> Gone(e, l)
  {
    for i := 0 to |l|
      invariant Gone(e, l[..i])
    {
      if Same(l[i], e) { return false; }
    }
    assert l[..|l|] == l;
    return true;
  }

  /** The inner loop of detectStaleConnections, over the old endpoints of one UDP port. */
  method StaleOfPort(p: ServicePortName, was: seq<Endpoint>, now: seq<Endpoint>, start: seq<ServiceEndpoint>)
    returns (stale: seq<ServiceEndpoint>)
    ensures forall se :: se in stale <==> se in start || (se.port == p && StaleIn(was, now, se.endpoint))
  {
    stale := start;
    for i := 0 to |was|
      invariant forall se :: se in stale <==> se in start || (se.port == p && StaleIn(was[..i], now, se.endpoint))
    {
      var gone := IsGone(was[i], now);
      assert was[..i + 1] == was[..i] + [was[i]];
      ghost var before := stale;
      if gone {
        stale := stale + [ServiceEndpoint(was[i].str, p)];
      }
      forall str
        ensures StaleIn(was[..i + 1], now, str) <==> StaleIn(was[..i], now, str) || (gone && str == was[i].str)
      {
        if gone && str == was[i].str { assert was[i] in was[..i + 1]; }
        if StaleIn(was[..i], now, str) {
          var e :| e in was[..i] && e.str == str && Gone(e, now);
          assert e in was[..i + 1];
        }
      }
    }
    assert was[..|was|] == was;
  }

  method DetectStaleConnections(before: EndpointsMap, after: EndpointsMap, endpoints: seq<ServiceEndpoint>,
                                names: seq<ServicePortName>)
    returns (staleEndpoints: seq<ServiceEndpoint>, staleNames: seq<ServicePortName>)
    ensures forall se :: se in staleEndpoints <==> se in endpoints || StaleEndpoint(before, after, se)
    ensures forall p :: p in staleNames <==> p in names || StaleName(before, after, p)
    ensures forall se :: se in staleEndpoints <==>
              || se in endpoints
              || (&& se.port.protocol == UDP
                  && exists e :: e in ListAt(before, se.port) && e.str == se.endpoint
                       && forall f :: f in ListAt(after, se.port) ==> f.str != e.str || f.isLocal != e.isLocal)
    ensures forall p :: p in staleNames <==>
              p in names || (p.protocol == UDP && ListAt(before, p) == [] && ListAt(after, p) != [])
  {
    staleEndpoints, staleNames := endpoints, names;
    var todo := before.Keys;
    while todo != {}
      invariant todo <= before.Keys
      invariant forall se :: se in staleEndpoints <==>
                  se in endpoints || (se.port !in todo && StaleEndpoint(before, after, se))
      decreases todo
    {
      var p :| p in todo;
      if p.protocol == UDP {
        staleEndpoints := StaleOfPort(p, before[p], if p in after then after[p] else [], staleEndpoints);
      }
      todo := todo - {p};
    }
    todo := after.Keys;
    while todo != {}
      invariant todo <= after.Keys
      invariant forall p :: p in staleNames <==> p in names || (p !in todo && StaleName(before, after, p))
      decreases todo
    {
      var p :| p in todo;
      if p.protocol == UDP && after[p] != [] && (p !in before || before[p] == []) {
        staleNames := staleNames + [p];
      }
      todo := todo - {p};
    }
    forall se ensures se in staleEndpoints <==>
              || se in endpoints
              || (&& se.port.protocol == UDP
                  && exists e :: e in ListAt(before, se.port) && e.str == se.endpoint
                       && forall f :: f in ListAt(after, se.port) ==> f.str != e.str || f.isLocal != e.isLocal) {
      StaleEndpointMeans(before, after, se);
    }
  }

  lemma ChangeOwnsPorts(px: Proxy, service: NamespacedName, t: Tracker, c: EndpointsChange)
    requires ChangeOf(px, service, t, c)
    ensures OwnChange(c, service)
  {
    BuildsHaveSamePorts(px, service, t.applied, c.previous, c.previous);
    BuildsHaveSamePorts(px, service, Overlay(t), c.current, c.current);
  }

  /** The reports are those of the changes of the services in `done`. */
  ghost predicate Reported(m: map<NamespacedName, EndpointsChange>, done: set<NamespacedName>,
                           staleEndpoints: seq<ServiceEndpoint>, staleNames: seq<ServicePortName>) {
    && (forall se :: se in staleEndpoints <==> exists s :: s in done && EndpointReported(m, s, se))
    && (forall p :: p in staleNames <==> exists s :: s in done && NameReported(m, s, p))
  }

  ghost predicate EndpointReported(m: map<NamespacedName, EndpointsChange>, s: NamespacedName, se: ServiceEndpoint) {
    s in m && StaleEndpoint(m[s].previous, m[s].current, se)
  }

  ghost predicate NameReported(m: map<NamespacedName, EndpointsChange>, s: NamespacedName, p: ServicePortName) {
    s in m && StaleName(m[s].previous, m[s].current, p)
  }

  lemma ReportedMore(m: map<NamespacedName, EndpointsChange>, done: set<NamespacedName>, es: seq<ServiceEndpoint>,
                     ns: seq<ServicePortName>,
                     s: NamespacedName, es': seq<ServiceEndpoint>, ns': seq<ServicePortName>)
    requires Reported(m, done, es, ns) && s in m
    requires forall se :: se in es' <==> se in es || StaleEndpoint(m[s].previous, m[s].current, se)
    requires forall p :: p in ns' <==> p in ns || StaleName(m[s].previous, m[s].current, p)
    ensures Reported(m, done + {s}, es', ns')
  {}

  /** The map and the reports once the changes of the services in `done` have been applied. */
  ghost predicate AppliedFor(em: EndpointsMap, m: map<NamespacedName, EndpointsChange>, done: set<NamespacedName>,
                             em': EndpointsMap,
                             es: seq<ServiceEndpoint>, ns: seq<ServicePortName>) {
    PatchedFor(em, m, done, em') && Reported(m, done, es, ns)
  }

  lemma ApplyOneMore(em: EndpointsMap, m: map<NamespacedName, EndpointsChange>, done: set<NamespacedName>,
                     em': EndpointsMap,
                     es: seq<ServiceEndpoint>, ns: seq<ServicePortName>, s: NamespacedName,
                     es': seq<ServiceEndpoint>, ns': seq<ServicePortName>)
    requires AppliedFor(em, m, done, em', es, ns) && s in m && s !in done && OwnChange(m[s], s)
    requires forall se :: se in es' <==> se in es || StaleEndpoint(m[s].previous, m[s].current, se)
    requires forall p :: p in ns' <==> p in ns || StaleName(m[s].previous, m[s].current, p)
    ensures AppliedFor(em, m, done + {s}, Patch(em', m[s]), es', ns')
  {
    PatchOneMore(em, m, done, em', s);
    ReportedMore(m, done, es, ns, s, es', ns');
  }

  lemma ChangesOwnPorts(px: Proxy, ts: Trackers, m: map<NamespacedName, EndpointsChange>)
    requires ChangesOf(px, ts, m)
    ensures forall s :: s in m ==> OwnChange(m[s], s)
  {
    forall s | s in m ensures OwnChange(m[s], s) {
      ChangeOwnsPorts(px, s, TrackerOf(ts, s), m[s]);
    }
  }

  // ---------- getLocalReadyEndpointIPs ----------

  type IPsByService = map<NamespacedName, set<string>>

  function IPsOf(ips: IPsByService, n: NamespacedName): set<string> { if n in ips then ips[n] else {} }

  function LocalSet(px: Proxy, l: seq<Endpoint>): set<string> {
    set e | e in l && e.ready && e.isLocal :: px.ipPart(e.str)
  }

  predicate LocalReadyAt(px: Proxy, em: EndpointsMap, n: NamespacedName, ip: string, p: ServicePortName, e: Endpoint) {
    p in em && p.service == n && e in em[p] && e.ready && e.isLocal && px.ipPart(e.str) == ip
  }

  /** Some port of the service lists a local ready endpoint with the IP. */
  ghost predicate LocalReady(px: Proxy, em: EndpointsMap, n: NamespacedName, ip: string) {
    exists p, e :: LocalReadyAt(px, em, n, ip, p, e)
  }

  ghost predicate LocalAt(px: Proxy, em: EndpointsMap, n: NamespacedName, ips: set<string>) {
    forall ip :: ip in ips <==> LocalReady(px, em, n, ip)
  }

  /** `ips` has exactly the IPs of local ready endpoints, and no service without one. */
  ghost predicate LocalIPs(px: Proxy, em: EndpointsMap, ips: IPsByService) {
    (forall n :: LocalAt(px, em, n, IPsOf(ips, n))) && (forall n :: n in ips ==> ips[n] != {})
  }

  method AddLocal(px: Proxy, n: NamespacedName, l: seq<Endpoint>, start: IPsByService) returns (ips: IPsByService)
    requires forall m :: m in start ==> start[m] != {}
    ensures forall m :: IPsOf(ips, m) == IPsOf(start, m) + if m == n then LocalSet(px, l) else {}
    ensures forall m :: m in ips ==> ips[m] != {}
  {
    ips := start;
    for i := 0 to |l|
      invariant forall m :: IPsOf(ips, m) == IPsOf(start, m) + if m == n then LocalSet(px, l[..i]) else {}
      invariant forall m :: m in ips ==> ips[m] != {}
    {
      var e := l[i];
      assert l[..i + 1] == l[..i] + [e];
      assert LocalSet(px, l[..i + 1]) == LocalSet(px, l[..i]) + if e.ready && e.isLocal then {px.ipPart(e.str)} else {};
      if e.ready && e.isLocal {
        ips := ips[n := IPsOf(ips, n) + {px.ipPart(e.str)}];
      }
    }
    assert l[..|l|] == l;
  }

  lemma LocalMore(px: Proxy, em: EndpointsMap, todo: set<ServicePortName>, p: ServicePortName, n: NamespacedName,
                  ips: set<string>)
    requires p in em && p in todo && LocalAt(px, em - todo, n, ips)
    ensures LocalAt(px, em - (todo - {p}), n, ips + if p.service == n then LocalSet(px, em[p]) else {})
  {
    var less, more := em - todo, em - (todo - {p});
    forall ip ensures LocalReady(px, more, n, ip) <==>
                      LocalReady(px, less, n, ip) || (p.service == n && ip in LocalSet(px, em[p])) {
      if LocalReady(px, less, n, ip) {
        var q, e :| LocalReadyAt(px, less, n, ip, q, e);
        assert LocalReadyAt(px, more, n, ip, q, e);
      }
      if p.service == n && ip in LocalSet(px, em[p]) {
        var e :| e in em[p] && e.ready && e.isLocal && px.ipPart(e.str) == ip;
        assert LocalReadyAt(px, more, n, ip, p, e);
      }
      if LocalReady(px, more, n, ip) {
        var q, e :| LocalReadyAt(px, more, n, ip, q, e);
        assert q == p || LocalReadyAt(px, less, n, ip, q, e);
      }
    }
  }

  method GetLocalReadyEndpointIPs(px: Proxy, em: EndpointsMap) returns (ips: IPsByService)
    ensures LocalIPs(px, em, ips)
  {
    ips := map[];
    var todo := em.Keys;
    while todo != {}
      invariant todo <= em.Keys && LocalIPs(px, em - todo, ips)
      decreases todo
    {
      var p :| p in todo;
      ghost var before := ips;
      ips := AddLocal(px, p.service, em[p], ips);
      forall n ensures LocalAt(px, em - (todo - {p}), n, IPsOf(ips, n)) {
        LocalMore(px, em, todo, p, n, IPsOf(before, n));
      }
      todo := todo - {p};
    }
    assert em - {} == em;
  }

  method LocalSizes(px: Proxy, em: EndpointsMap) returns (sizes: map<NamespacedName, nat>)
    ensures exists ips :: LocalIPs(px, em, ips) && Counts(ips, sizes)
  {
    var ips := GetLocalReadyEndpointIPs(px, em);
    sizes := map n | n in ips :: |ips[n]|;
  }

  ghost predicate Counts(ips: IPsByService, sizes: map<NamespacedName, nat>) {
    sizes.Keys == ips.Keys && forall n :: n in ips ==> sizes[n] == |ips[n]|
  }

  class EndpointsTable {
    var endpointsMap: EndpointsMap

    constructor ()
      ensures endpointsMap == map[]
    {
      endpointsMap := map[];
    }

    method Merge(other: EndpointsMap)
      modifies this
      ensures endpointsMap == old(endpointsMap) + other
    {
      var todo := other.Keys;
      while todo != {}
        invariant todo <= other.Keys && endpointsMap == old(endpointsMap) + (other - todo)
        decreases todo
      {
        var p :| p in todo;
        endpointsMap := endpointsMap[p := other[p]];
        todo := todo - {p};
      }
      assert other - {} == other;
    }

    method Unmerge(other: EndpointsMap)
      modifies this
      ensures endpointsMap == old(endpointsMap) - other.Keys
    {
      var todo := other.Keys;
      while todo != {}
        invariant todo <= other.Keys && endpointsMap == old(endpointsMap) - (other.Keys - todo)
        decreases todo
      {
        var p :| p in todo;
        endpointsMap := endpointsMap - {p};
        todo := todo - {p};
      }
      assert other.Keys - {} == other.Keys;
    }

    method ApplyChange(c: EndpointsChange, endpoints: seq<ServiceEndpoint>, names: seq<ServicePortName>)
      returns (staleEndpoints: seq<ServiceEndpoint>, staleNames: seq<ServicePortName>)
      modifies this
      ensures endpointsMap == Patch(old(endpointsMap), c)
      ensures forall se :: se in staleEndpoints <==> se in endpoints || StaleEndpoint(c.previous, c.current, se)
      ensures forall p :: p in staleNames <==> p in names || StaleName(c.previous, c.current, p)
    {
      Unmerge(c.previous);
      Merge(c.current);
      staleEndpoints, staleNames := DetectStaleConnections(c.previous, c.current, endpoints, names);
    }

    /** `apply`, given the changes checked out: which service each belongs to is known to the proof only. */
    method Apply(changes: seq<EndpointsChange>, ghost names: seq<NamespacedName>,
                 ghost m: map<NamespacedName, EndpointsChange>)
      returns (staleEndpoints: seq<ServiceEndpoint>, staleNames: seq<ServicePortName>)
      requires Listed(changes, names, m) && forall s :: s in m ==> OwnChange(m[s], s)
      modifies this
      ensures AppliedFor(old(endpointsMap), m, m.Keys, endpointsMap, staleEndpoints, staleNames)
    {
      staleEndpoints, staleNames := [], [];
      ghost var em := endpointsMap;
      ghost var done: set<NamespacedName> := {};
      for i := 0 to |changes|
        invariant done <= m.Keys && forall k :: 0 <= k < |names| ==> (names[k] in done <==> k < i)
        invariant AppliedFor(em, m, done, endpointsMap, staleEndpoints, staleNames)
      {
        ghost var em', es, ns := endpointsMap, staleEndpoints, staleNames;
        staleEndpoints, staleNames := ApplyChange(changes[i], staleEndpoints, staleNames);
        ApplyOneMore(em, m, done, em', es, ns, names[i], staleEndpoints, staleNames);
        done := done + {names[i]};
      }
      assert done == m.Keys;
    }

    /**
     One sync: a step of the history machine, the stale connections of every change it applied, the local ready counts,
     and the cached trigger times, all of them of services that the sync changed.
     */
    method Update(tracker: EndpointSliceTracker)
      returns (staleEndpoints: seq<ServiceEndpoint>, staleNames: seq<ServicePortName>,
               localSizes: map<NamespacedName, nat>, times: CT.Times,
               ghost m: map<NamespacedName, EndpointsChange>)
      requires tracker.Valid()
      modifies this, tracker, tracker.cache
      ensures tracker.Valid() && tracker.lastChangeTriggerTimes == map[]
      ensures Syncs(tracker.cache.px, old(State(tracker.cache.trackerByServiceMap, endpointsMap)), m,
                    State(tracker.cache.trackerByServiceMap, endpointsMap))
      ensures Reported(m, m.Keys, staleEndpoints, staleNames)
      ensures exists ips :: LocalIPs(tracker.cache.px, endpointsMap, ips) && Counts(ips, localSizes)
      ensures JoinedTimes(map[], old(tracker.lastChangeTriggerTimes), times) && times.Keys <= m.Keys
    {
      var cache := tracker.cache;
      ghost var ts := cache.trackerByServiceMap;
      var changes; ghost var names;
      changes, names, m := cache.CheckoutChanges();
      ChangesOwnPorts(cache.px, ts, m);
      staleEndpoints, staleNames := Apply(changes, names, m);
      times := JoinTimes(map[], tracker.lastChangeTriggerTimes);
      tracker.lastChangeTriggerTimes := map[];
      localSizes := LocalSizes(cache.px, endpointsMap);
      assert forall n :: n in times ==> TrackerOf(ts, n).pending != map[];
    }

    /** The same sync in Endpoints mode: the two halves of `ChangeTracking`'s sync with nothing in between. */
    method UpdateFromEndpoints(tracker: EndpointChangeTracker)
      returns (staleEndpoints: seq<ServiceEndpoint>, staleNames: seq<ServicePortName>,
               localSizes: map<NamespacedName, nat>,
               times: CT.Times)
      requires tracker.Valid()
      modifies this, tracker
      ensures tracker.items == map[] && tracker.lastChangeTriggerTimes == map[]
      ensures var m := CT.Changes(old(tracker.items));
        Patched(old(endpointsMap), m, endpointsMap) && Reported(m, m.Keys, staleEndpoints, staleNames)
      ensures exists ips :: LocalIPs(tracker.px, endpointsMap, ips) && Counts(ips, localSizes)
      ensures JoinedTimes(map[], old(tracker.lastChangeTriggerTimes), times)
    {
      ghost var m := CT.Changes(tracker.items);
      var changes; ghost var names;
      CT.ChangesOwn(tracker.items);
      changes, names := tracker.CheckoutChanges();
      staleEndpoints, staleNames := Apply(changes, names, m);
      assert m == CT.Changes(old(tracker.items));
      times := tracker.CheckoutTriggerTimes(map[]);
      localSizes := LocalSizes(tracker.px, endpointsMap);
    }
  }
}
