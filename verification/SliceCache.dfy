/** The `EndpointSliceCache` and the long-lived endpoints map, as the objects the proxy changes in place. */
module SliceCache {
  import opened Common
  import opened Ordering
  import opened Patching
  import opened SliceBuild
  import opened SliceHistory

  // ---------- one build ----------

  type ByIP = map<string, Endpoint>

  function At(byIP: ByIP, ip: string): Option<Endpoint> { if ip in byIP then Some(byIP[ip]) else None }

  function Group(bySP: map<ServicePortName, ByIP>, p: ServicePortName): ByIP { if p in bySP then bySP[p] else map[] }

  /** `byIP` holds the winners for the port after the visits `vs`. */
  ghost predicate HoldsWinners(px: Proxy, vs: seq<Visit>, p: ServicePortName, byIP: ByIP) {
    forall ip :: At(byIP, ip) == Winner(px, vs, p, ip)
  }

  method AddEndpointsByIP(px: Proxy, portNumber: int, start: ByIP, endpoints: seq<EndpointInfo>,
                          ghost p: ServicePortName, ghost vs: seq<Visit>) returns (byIP: ByIP)
    requires HoldsWinners(px, vs, p, start)
    ensures HoldsWinners(px, vs + PortVisits(px, p, portNumber, endpoints), p, byIP)
  {
    byIP := start;
    assert vs + PortVisits(px, p, portNumber, endpoints[..0]) == vs;
    for i := 0 to |endpoints|
      invariant HoldsWinners(px, vs + PortVisits(px, p, portNumber, endpoints[..i]), p, byIP)
    {
      ghost var seen := vs + PortVisits(px, p, portNumber, endpoints[..i]);
      var e := endpoints[i];
      assert endpoints[..i + 1][..i] == endpoints[..i];
      if !Usable(px, e) {
        assert vs + PortVisits(px, p, portNumber, endpoints[..i + 1]) == seen;
        continue;
      }
      var endpoint := NewEndpoint(px, portNumber, e);
      ghost var more := seen + [Visit(p, endpoint)];
      assert vs + PortVisits(px, p, portNumber, endpoints[..i + 1]) == more;
      assert more[..|more| - 1] == seen;
      var ip := px.ipPart(endpoint.str);
      if ip !in byIP || endpoint.isLocal {
        byIP := byIP[ip := endpoint];
      }
    }
    assert endpoints[..|endpoints|] == endpoints;
  }

  lemma {:induction false} OtherPortUntouched(px: Proxy, vs: seq<Visit>, p: ServicePortName, portNumber: int,
                                              es: seq<EndpointInfo>, q: ServicePortName, ip: string)
    requires q != p
    ensures Winner(px, vs + PortVisits(px, p, portNumber, es), q, ip) == Winner(px, vs, q, ip)
  {
    if es == [] {
      assert vs + PortVisits(px, p, portNumber, es) == vs;
    } else {
      var front, e := es[..|es| - 1], es[|es| - 1];
      OtherPortUntouched(px, vs, p, portNumber, front, q, ip);
      var seen := vs + PortVisits(px, p, portNumber, front);
      if Usable(px, e) {
        var more := seen + [Visit(p, NewEndpoint(px, portNumber, e))];
        assert vs + PortVisits(px, p, portNumber, es) == more && more[..|more| - 1] == seen;
      } else {
        assert vs + PortVisits(px, p, portNumber, es) == seen;
      }
    }
  }

  ghost predicate GroupsHoldWinners(px: Proxy, vs: seq<Visit>, bySP: map<ServicePortName, ByIP>) {
    forall p :: HoldsWinners(px, vs, p, Group(bySP, p))
  }

  /** The ports of one slice, added to what earlier slices left. */
  method AddSlice(px: Proxy, service: NamespacedName, start: map<ServicePortName, ByIP>, info: SliceInfo,
                  ghost vs: seq<Visit>)
    returns (bySP: map<ServicePortName, ByIP>)
    requires GroupsHoldWinners(px, vs, start)
    ensures GroupsHoldWinners(px, vs + SliceVisits(px, service, info.ports, info.endpoints), bySP)
  {
    bySP := start;
    assert vs + SliceVisits(px, service, info.ports[..0], info.endpoints) == vs;
    for i := 0 to |info.ports|
      invariant GroupsHoldWinners(px, vs + SliceVisits(px, service, info.ports[..i], info.endpoints), bySP)
    {
      ghost var seen := vs + SliceVisits(px, service, info.ports[..i], info.endpoints);
      var port := info.ports[i];
      assert info.ports[..i + 1][..i] == info.ports[..i];
      if !PortUsable(port) {
        assert vs + SliceVisits(px, service, info.ports[..i + 1], info.endpoints) == seen;
        continue;
      }
      var p := PortName(service, port);
      ghost var more := seen + PortVisits(px, p, port.port.value, info.endpoints);
      assert vs + SliceVisits(px, service, info.ports[..i + 1], info.endpoints) == more;
      assert HoldsWinners(px, seen, p, Group(bySP, p));
      var byIP := AddEndpointsByIP(px, port.port.value, Group(bySP, p), info.endpoints, p, seen);
      ghost var before := bySP;
      bySP := bySP[p := byIP];
      forall q ensures HoldsWinners(px, more, q, Group(bySP, q)) {
        if q != p {
          assert HoldsWinners(px, seen, q, Group(before, q));
          forall ip ensures At(Group(bySP, q), ip) == Winner(px, more, q, ip) {
            OtherPortUntouched(px, seen, p, port.port.value, info.endpoints, q, ip);
          }
        }
      }
    }
    assert info.ports[..|info.ports|] == info.ports;
  }

  method EndpointInfoByServicePort(px: Proxy, service: NamespacedName, infos: InfoByName)
    returns (bySP: map<ServicePortName, ByIP>, ghost order: seq<string>)
    ensures Enumerates(order, infos.Keys)
    ensures GroupsHoldWinners(px, Visits(px, service, infos, order), bySP)
  {
    bySP, order := map[], [];
    var todo := infos.Keys;
    while todo != {}
      invariant todo <= infos.Keys && forall n :: n in order <==> n in infos.Keys - todo
      invariant forall i, j :: 0 <= i < j < |order| ==> order[i] != order[j]
      invariant GroupsHoldWinners(px, Visits(px, service, infos, order), bySP)
      decreases todo
    {
      var n :| n in todo;
      ghost var longer := order + [n];
      assert longer[..|longer| - 1] == order && n !in order;
      bySP := AddSlice(px, service, bySP, infos[n], Visits(px, service, infos, order));
      order, todo := longer, todo - {n};
    }
  }

  /** Every endpoint of the group once, in the order the map happens to be visited. */
  method Collect(px: Proxy, byIP: ByIP) returns (l: seq<Endpoint>)
    requires forall ip :: ip in byIP ==> px.ipPart(byIP[ip].str) == ip
    ensures forall e :: e in l <==> px.ipPart(e.str) in byIP && byIP[px.ipPart(e.str)] == e
    ensures forall e :: multiset(l)[e] <= 1
  {
    l := [];
    var todo := byIP.Keys;
    while todo != {}
      invariant todo <= byIP.Keys
      invariant forall e :: e in l <==> px.ipPart(e.str) in byIP.Keys - todo && byIP[px.ipPart(e.str)] == e
      invariant forall e :: multiset(l)[e] <= 1
      decreases todo
    {
      var ip :| ip in todo;
      assert byIP[ip] !in l;
      l, todo := l + [byIP[ip]], todo - {ip};
    }
  }

  lemma ByStringIsWeakOrder()
    ensures WeakOrder(ByString())
  {
    var less := ByString();
    forall x, y, z ensures !(less(x, y) && less(y, x)) && (less(x, z) ==> less(x, y) || less(y, z)) {
      StringLessWeak(x.str, y.str, z.str);
    }
  }

  /** One listing per IP, so no two listed strings are equal and the sort leaves no choice. */
  method SortedList(px: Proxy, byIP: ByIP) returns (l: seq<Endpoint>)
    requires forall ip :: ip in byIP ==> px.ipPart(byIP[ip].str) == ip
    ensures StrictlySorted(l)
    ensures forall e :: e in l <==> px.ipPart(e.str) in byIP && byIP[px.ipPart(e.str)] == e
  {
    var unsorted := Collect(px, byIP);
    l := Sort(unsorted, ByString());
    ByStringIsWeakOrder();
    SortSorts(unsorted, ByString());
    assert forall e :: e in l <==> e in multiset(l);
    assert forall e :: e in unsorted <==> e in multiset(unsorted);
    forall i, j | 0 <= i < j < |l| ensures StringLess(l[i].str, l[j].str) {
      OnceMeansOnePlace(l, i, j);
      assert l[i] in l && l[j] in l;
      StringLessTotal(l[i].str, l[j].str);
      assert !ByString()(l[j], l[i]);
    }
  }

  method EndpointsMapFromEndpointInfo(px: Proxy, bySP: map<ServicePortName, ByIP>, ghost vs: seq<Visit>)
    returns (em: EndpointsMap)
    requires GroupsHoldWinners(px, vs, bySP)
    ensures MapOf(px, vs, em)
  {
    em := map[];
    var todo := bySP.Keys;
    while todo != {}
      invariant todo <= bySP.Keys && em.Keys <= bySP.Keys - todo
      invariant forall p :: p in bySP.Keys - todo ==> (p in em <==> bySP[p] != map[])
      invariant forall p :: p in em ==> ListsWinners(px, vs, p, em[p])
      decreases todo
    {
      var p :| p in todo;
      assert HoldsWinners(px, vs, p, Group(bySP, p));
      if bySP[p] != map[] {
        forall ip | ip in bySP[p] ensures px.ipPart(bySP[p][ip].str) == ip {
          assert At(bySP[p], ip) == Winner(px, vs, p, ip);
          WinnerIsOffered(px, vs, p, ip);
        }
        var l := SortedList(px, bySP[p]);
        forall e ensures e in l <==> Winner(px, vs, p, px.ipPart(e.str)) == Some(e) {
          assert At(bySP[p], px.ipPart(e.str)) == Winner(px, vs, p, px.ipPart(e.str));
        }
        em := em[p := l];
      }
      todo := todo - {p};
    }
    forall p ensures p in em <==> p in Ports(vs) {
      assert HoldsWinners(px, vs, p, Group(bySP, p));
      PortHasWinner(px, vs, p, Group(bySP, p));
    }
  }

  lemma PortHasWinner(px: Proxy, vs: seq<Visit>, p: ServicePortName, byIP: ByIP)
    requires HoldsWinners(px, vs, p, byIP)
    ensures byIP != map[] <==> p in Ports(vs)
  {
    if p in Ports(vs) {
      var v :| v in vs && v.port == p;
      var ip := px.ipPart(v.endpoint.str);
      WinnerIsOffered(px, vs, p, ip);
      assert Offers(px, v, p, ip);
      assert At(byIP, ip).Some?;
    }
    if byIP != map[] {
      var ip :| ip in byIP;
      assert At(byIP, ip) == Winner(px, vs, p, ip);
      WinnerIsOffered(px, vs, p, ip);
    }
  }

  method GetEndpointsMap(px: Proxy, service: NamespacedName, infos: InfoByName) returns (em: EndpointsMap)
    ensures IsBuild(px, service, infos, em)
  {
    var bySP, order := EndpointInfoByServicePort(px, service, infos);
    em := EndpointsMapFromEndpointInfo(px, bySP, Visits(px, service, infos, order));
    assert BuildInOrder(px, service, infos, order, em);
  }

  // ---------- the cache object ----------

  lemma ByPortIsWeakOrder()
    ensures WeakOrder(ByPort())
  {}

  lemma ByAddressIsWeakOrder()
    ensures WeakOrder(ByAddress())
  {
    var less := ByAddress();
    forall x, y, z ensures !(less(x, y) && less(y, x)) && (less(x, z) ==> less(x, y) || less(y, z)) {
      StringLessWeak(JoinAddresses(x.addresses), JoinAddresses(y.addresses), JoinAddresses(z.addresses));
    }
  }

  method NewEndpointSliceInfo(px: Proxy, slice: EndpointSlice, remove: bool) returns (info: SliceInfo)
    requires PortsComparable(slice.ports)
    ensures InfoOf(px, slice, remove, info)
    ensures forall i, j :: 0 <= i < j < |info.ports| && info.ports[i].port.Some? && info.ports[j].port.Some? ==>
              info.ports[i].port.value <= info.ports[j].port.value
    ensures forall i, j :: 0 <= i < j < |info.endpoints| ==>
              !StringLess(JoinAddresses(info.endpoints[j].addresses), JoinAddresses(info.endpoints[i].addresses))
  {
    var ports := Sort(slice.ports, ByPort());
    ByPortIsWeakOrder();
    SortSorts(slice.ports, ByPort());
    var endpoints: seq<EndpointInfo> := [];
    if !remove {
      for i := 0 to |slice.endpoints|
        invariant endpoints == ToInfos(px, slice.endpoints[..i])
      {
        endpoints := endpoints + [ToInfo(px, slice.endpoints[i])];
      }
      assert slice.endpoints[..|slice.endpoints|] == slice.endpoints;
      ByAddressIsWeakOrder();
      SortSorts(endpoints, ByAddress());
      endpoints := Sort(endpoints, ByAddress());
    }
    info := SliceInfo(ports, endpoints, remove);
  }

  /** `changes` lists the changes of `m`, the one of service `names[i]` at place `i`. */
  ghost predicate Listed(changes: seq<EndpointsChange>, names: seq<NamespacedName>,
                         m: map<NamespacedName, EndpointsChange>) {
    && |names| == |changes|
    && (forall i, j :: 0 <= i < j < |names| ==> names[i] != names[j])
    && (forall i :: 0 <= i < |names| ==> names[i] in m && m[names[i]] == changes[i])
    && (forall n :: n in m ==> n in names)
  }

  lemma ListedMore(changes: seq<EndpointsChange>, names: seq<NamespacedName>, m: map<NamespacedName, EndpointsChange>,
                   n: NamespacedName, c: EndpointsChange)
    requires Listed(changes, names, m) && n !in m
    ensures Listed(changes + [c], names + [n], m[n := c])
  {
    assert n !in names;
  }

  /** updatePending kept `info` for the slice, or found that it changed nothing. */
  ghost predicate Stores(px: Proxy, before: Trackers, slice: EndpointSlice, remove: bool, info: SliceInfo,
                         changed: bool, after: Trackers)
    requires Accepted(slice)
  {
    && InfoOf(px, slice, remove, info)
    && changed == InfoChanged(TrackerOf(before, ServiceOf(slice)), slice.name, info)
    && forall em :: Receives(px, State(before, em), slice, info, State(after, em))
  }

  /** The inner loop of checkoutChanges: each pending slice replaces or deletes the applied one. */
  method ApplyPending(t: Tracker) returns (applied: InfoByName)
    ensures applied == Overlay(t)
  {
    applied := t.applied;
    var todo := t.pending.Keys;
    while todo != {}
      invariant todo <= t.pending.Keys
      invariant applied == Overlay(Tracker(t.applied, t.pending - todo))
      decreases todo
    {
      var name :| name in todo;
      if t.pending[name].remove {
        applied := applied - {name};
      } else {
        applied := applied[name := t.pending[name]];
      }
      todo := todo - {name};
    }
    assert t.pending - {} == t.pending;
  }

  /** The body of checkoutChanges for one service. */
  method CheckoutService(px: Proxy, service: NamespacedName, t: Tracker)
    returns (change: EndpointsChange, after: Tracker)
    ensures ChangeOf(px, service, t, change)
    ensures after == Tracker(Overlay(t), map[])
  {
    var previous := GetEndpointsMap(px, service, t.applied);
    var applied := ApplyPending(t);
    var current := GetEndpointsMap(px, service, applied);
    change, after := Change(previous, current), Tracker(applied, map[]);
  }

  ghost predicate Halfway(start: Trackers, todo: set<NamespacedName>, now: Trackers) {
    && now.Keys == start.Keys && todo <= start.Keys
    && forall s :: s in start ==> now[s] == if s in todo then start[s] else Tracker(Overlay(start[s]), map[])
  }

  ghost predicate HalfwayChanges(px: Proxy, start: Trackers, todo: set<NamespacedName>,
                                 m: map<NamespacedName, EndpointsChange>) {
    && (forall s :: s in m <==> s in start && s !in todo && start[s].pending != map[])
    && (forall s :: s in m ==> ChangeOf(px, s, TrackerOf(start, s), m[s]))
  }

  lemma HalfwayMore(start: Trackers, todo: set<NamespacedName>, now: Trackers, s: NamespacedName)
    requires Halfway(start, todo, now) && s in todo
    ensures Halfway(start, todo - {s}, now[s := Tracker(Overlay(start[s]), map[])])
  {}

  lemma HalfwayChangesMore(px: Proxy, start: Trackers, todo: set<NamespacedName>,
                           m: map<NamespacedName, EndpointsChange>, s: NamespacedName, c: EndpointsChange)
    requires HalfwayChanges(px, start, todo, m) && s in todo && s in start
    requires start[s].pending != map[] && ChangeOf(px, s, start[s], c)
    ensures HalfwayChanges(px, start, todo - {s}, m[s := c])
  {
    var m' := m[s := c];
    forall r | r in m' ensures ChangeOf(px, r, TrackerOf(start, r), m'[r]) {
      if r != s {
        assert ChangeOf(px, r, TrackerOf(start, r), m[r]);
      }
    }
  }

  lemma HalfwaySkip(px: Proxy, start: Trackers, todo: set<NamespacedName>, now: Trackers,
                    m: map<NamespacedName, EndpointsChange>, s: NamespacedName)
    requires Halfway(start, todo, now) && HalfwayChanges(px, start, todo, m) && s in todo && start[s].pending == map[]
    ensures Halfway(start, todo - {s}, now) && HalfwayChanges(px, start, todo - {s}, m)
  {}

  lemma HalfwayDone(px: Proxy, start: Trackers, now: Trackers, m: map<NamespacedName, EndpointsChange>)
    requires Halfway(start, {}, now) && HalfwayChanges(px, start, {}, m)
    ensures now == Applied(start) && ChangesOf(px, start, m)
  {}

  class EndpointSliceCache {
    const px: Proxy
    var trackerByServiceMap: Trackers

    constructor (px: Proxy)
      ensures this.px == px && trackerByServiceMap == map[]
    {
      this.px, trackerByServiceMap := px, map[];
    }

    method UpdatePending(slice: EndpointSlice, remove: bool) returns (changed: bool)
      requires PortsComparable(slice.ports)
      modifies this
      ensures !Accepted(slice) ==> !changed && trackerByServiceMap == old(trackerByServiceMap)
      ensures Accepted(slice) ==>
                exists info :: Stores(px, old(trackerByServiceMap), slice, remove, info, changed, trackerByServiceMap)
    {
      if !Accepted(slice) { return false; }
      var service := ServiceOf(slice);
      var info := NewEndpointSliceInfo(px, slice, remove);
      if service !in trackerByServiceMap {
        trackerByServiceMap := trackerByServiceMap[service := NEW_TRACKER];
      }
      var t := trackerByServiceMap[service];
      changed := InfoChanged(t, slice.name, info);
      if changed {
        trackerByServiceMap := trackerByServiceMap[service := t.(pending := t.pending[slice.name := info])];
      }
      assert Stores(px, old(trackerByServiceMap), slice, remove, info, changed, trackerByServiceMap);
    }

    method CheckoutChanges()
      returns (changes: seq<EndpointsChange>, ghost names: seq<NamespacedName>,
               ghost m: map<NamespacedName, EndpointsChange>)
      modifies this
      ensures trackerByServiceMap == Applied(old(trackerByServiceMap))
      ensures ChangesOf(px, old(trackerByServiceMap), m) && Listed(changes, names, m)
    {
      changes, names, m := [], [], map[];
      var todo := trackerByServiceMap.Keys;
      ghost var start := trackerByServiceMap;
      while todo != {}
        invariant Halfway(start, todo, trackerByServiceMap)
        invariant HalfwayChanges(px, start, todo, m)
        invariant Listed(changes, names, m)
        decreases todo
      {
        var service :| service in todo;
        var t := trackerByServiceMap[service];
        if t.pending == map[] {
          HalfwaySkip(px, start, todo, trackerByServiceMap, m, service);
        } else {
          var change, after := CheckoutService(px, service, t);
          HalfwayMore(start, todo, trackerByServiceMap, service);
          HalfwayChangesMore(px, start, todo, m, service, change);
          trackerByServiceMap := trackerByServiceMap[service := after];
          ListedMore(changes, names, m, service, change);
          changes, names, m := changes + [change], names + [service], m[service := change];
        }
        todo := todo - {service};
      }
      HalfwayDone(px, start, trackerByServiceMap, m);
    }
  }
}
