/**
 The slice cache and the endpoints map over a whole history: slice events pile up as pending changes, and
 each sync patches the long-lived map by taking away the old build of every changed service and adding a
 new one. After every sync the map is one that a build from scratch over the slices last received can give.
 */
module SliceHistory {
  import opened Common
  import opened Patching
  import opened SliceBuild

  /** `endpointSliceTracker`. */
  datatype Tracker = Tracker(applied: InfoByName, pending: InfoByName)

  type Trackers = map<NamespacedName, Tracker>

  const NEW_TRACKER := Tracker(map[], map[])

  function TrackerOf(ts: Trackers, service: NamespacedName): Tracker {
    if service in ts then ts[service] else NEW_TRACKER
  }

  // ---------- updatePending ----------

  const SUPPORTED_ADDRESS_TYPES: set<string> := {"IPv4", "IPv6"}

  /** The slice passes the address type test and endpointSliceCacheKeys finds both keys. */
  predicate Accepted(slice: EndpointSlice) {
    && slice.addressType in SUPPORTED_ADDRESS_TYPES
    && slice.serviceLabel.Some? && slice.serviceLabel.value != ""
    && slice.namespace != "" && slice.name != ""
  }

  function ServiceOf(slice: EndpointSlice): NamespacedName
    requires Accepted(slice)
  {
    NamespacedName(slice.namespace, slice.serviceLabel.value)
  }

  /** `esInfoChanged`. */
  predicate InfoChanged(t: Tracker, name: string, info: SliceInfo) {
    if name in t.pending then info != t.pending[name]
    else if name in t.applied then info != t.applied[name]
    else !info.remove
  }

  function UpdatePending(t: Tracker, name: string, info: SliceInfo): Tracker {
    if InfoChanged(t, name, info) then t.(pending := t.pending[name := info]) else t
  }

  // ---------- checkoutChanges and apply ----------

  /** The slices left once the pending ones have been applied. */
  function Overlay(t: Tracker): InfoByName {
    map n | n in t.applied.Keys + t.pending.Keys && !(n in t.pending && t.pending[n].remove) ::
      if n in t.pending then t.pending[n] else t.applied[n]
  }

  function Applied(ts: Trackers): Trackers {
    map service | service in ts :: Tracker(Overlay(ts[service]), map[])
  }

  type EndpointsChange = Change<seq<Endpoint>>

  ghost predicate ChangeOf(px: Proxy, service: NamespacedName, t: Tracker, c: EndpointsChange) {
    IsBuild(px, service, t.applied, c.previous) && IsBuild(px, service, Overlay(t), c.current)
  }

  ghost predicate ChangesOf(px: Proxy, ts: Trackers, changes: map<NamespacedName, EndpointsChange>) {
    && (forall service :: service in changes <==> service in ts && ts[service].pending != map[])
    && (forall service :: service in changes ==> ChangeOf(px, service, TrackerOf(ts, service), changes[service]))
  }

  // ---------- histories ----------

  datatype Event = SliceEvent(slice: EndpointSlice, remove: bool) | Sync

  datatype State = State(trackers: Trackers, em: EndpointsMap)

  const INIT := State(map[], map[])

  ghost predicate Receives(px: Proxy, s: State, slice: EndpointSlice, info: SliceInfo, t: State)
    requires Accepted(slice)
  {
    var service := ServiceOf(slice);
    t == s.(trackers := s.trackers[service := UpdatePending(TrackerOf(s.trackers, service), slice.name, info)])
  }

  ghost predicate Syncs(px: Proxy, s: State, changes: map<NamespacedName, EndpointsChange>, t: State) {
    ChangesOf(px, s.trackers, changes) && t.trackers == Applied(s.trackers) && Patched(s.em, changes, t.em)
  }

  ghost predicate Step(px: Proxy, s: State, e: Event, t: State) {
    match e
    case SliceEvent(slice, remove) =>
      if Accepted(slice) then exists info :: InfoOf(px, slice, remove, info) && Receives(px, s, slice, info, t)
      else t == s
    case Sync => exists changes :: Syncs(px, s, changes, t)
  }

  /** A history of events, the latest outermost. */
  datatype History = Start | Then(before: History, event: Event)

  ghost predicate Reaches(px: Proxy, h: History, t: State) {
    match h
    case Start => t == INIT
    case Then(before, e) => exists s :: Reaches(px, before, s) && Step(px, s, e, t)
  }

  /** The slice has an IP address type and a name, and its namespace and its label name the service. */
  predicate Concerns(slice: EndpointSlice, service: NamespacedName) {
    && (slice.addressType == "IPv4" || slice.addressType == "IPv6") && slice.name != ""
    && slice.namespace == service.namespace && slice.namespace != ""
    && slice.serviceLabel == Some(service.name) && service.name != ""
  }

  lemma ConcernsIff(slice: EndpointSlice, service: NamespacedName)
    ensures Concerns(slice, service) <==> Accepted(slice) && ServiceOf(slice) == service
  {}

  /** The slices a service currently has: per name, the last one received and not removed since. */
  function Received(h: History, service: NamespacedName): map<string, EndpointSlice> {
    match h
    case Start => map[]
    case Then(before, Sync) => Received(before, service)
    case Then(before, SliceEvent(slice, remove)) =>
      if !Concerns(slice, service) then Received(before, service)
      else if remove then Received(before, service) - {slice.name}
      else Received(before, service)[slice.name := slice]
  }

  /** `infos` holds a stored form of every slice in `slices`. */
  ghost predicate InfosOf(px: Proxy, slices: map<string, EndpointSlice>, infos: InfoByName) {
    && infos.Keys == slices.Keys
    && (forall n :: n in slices ==> InfoOf(px, slices[n], false, infos[n]))
  }

  /** The reference: a build from scratch over API objects. */
  ghost predicate IsFreshBuild(px: Proxy, service: NamespacedName, slices: map<string, EndpointSlice>,
                               em: EndpointsMap) {
    exists infos :: InfosOf(px, slices, infos) && IsBuild(px, service, infos, em)
  }

  ghost predicate NoRemoveApplied(t: Tracker) {
    forall n :: n in t.applied ==> !t.applied[n].remove
  }

  ghost predicate ServiceInv(px: Proxy, s: State, service: NamespacedName, slices: map<string, EndpointSlice>) {
    var t := TrackerOf(s.trackers, service);
    && NoRemoveApplied(t)
    && InfosOf(px, slices, Overlay(t))
    && IsBuild(px, service, t.applied, Restrict(s.em, service))
  }

  lemma EmptyBuild(px: Proxy, service: NamespacedName)
    ensures IsBuild(px, service, map[], map[])
  {
    assert BuildInOrder(px, service, map[], [], map[]);
  }

  /** Applied overlaid with pending is always the latest event, whether or not the event counted as a change. */
  lemma UpdatePendingOverlay(t: Tracker, name: string, info: SliceInfo)
    requires NoRemoveApplied(t)
    ensures Overlay(UpdatePending(t, name, info)) ==
            if info.remove then Overlay(t) - {name} else Overlay(t)[name := info]
  {}

  /**
   An event counts as a change exactly when it brings a slice the service does not have in this form, or takes away one
   it has; or when a removal still pending is repeated with other ports.
   */
  lemma ChangedIff(t: Tracker, name: string, info: SliceInfo)
    requires NoRemoveApplied(t)
    ensures InfoChanged(t, name, info) <==>
            if !info.remove then !(name in Overlay(t) && Overlay(t)[name] == info)
            else name in Overlay(t) || (name in t.pending && t.pending[name] != info)
    ensures !InfoChanged(t, name, info) ==> UpdatePending(t, name, info) == t
  {}

  lemma OverlayNothingPending(infos: InfoByName)
    ensures Overlay(Tracker(infos, map[])) == infos
  {}

  lemma TrackerAfterSync(ts: Trackers, service: NamespacedName)
    ensures TrackerOf(Applied(ts), service) == Tracker(Overlay(TrackerOf(ts, service)), map[])
  {}

  lemma OverlayIsReceived(px: Proxy, t: Tracker, slice: EndpointSlice, remove: bool, info: SliceInfo,
                          slices: map<string, EndpointSlice>)
    requires NoRemoveApplied(t) && InfosOf(px, slices, Overlay(t)) && InfoOf(px, slice, remove, info)
    ensures InfosOf(px, if remove then slices - {slice.name} else slices[slice.name := slice],
                    Overlay(UpdatePending(t, slice.name, info)))
  {
    UpdatePendingOverlay(t, slice.name, info);
  }

  lemma ReceiveKeepsInv(px: Proxy, s: State, slice: EndpointSlice, remove: bool, info: SliceInfo, t: State,
                        service: NamespacedName, slices: map<string, EndpointSlice>)
    requires Accepted(slice) && InfoOf(px, slice, remove, info) && Receives(px, s, slice, info, t)
    requires ServiceInv(px, s, service, slices)
    ensures ServiceInv(px, t, service,
              if ServiceOf(slice) != service then slices
              else if remove then slices - {slice.name} else slices[slice.name := slice])
  {
    if ServiceOf(slice) != service {
      assert TrackerOf(t.trackers, service) == TrackerOf(s.trackers, service);
    } else {
      OverlayIsReceived(px, TrackerOf(s.trackers, service), slice, remove, info, slices);
    }
  }

  /**
   Taking away a build of the old slices and adding one of the new leaves exactly the latter, whatever the two
   visiting orders.
   */
  lemma BuildReplaces(px: Proxy, service: NamespacedName, old_: InfoByName, new_: InfoByName, em: EndpointsMap,
                      c: EndpointsChange)
    requires IsBuild(px, service, old_, Restrict(em, service))
    requires IsBuild(px, service, old_, c.previous) && IsBuild(px, service, new_, c.current)
    ensures Restrict(em, service).Keys == c.previous.Keys
    ensures Restrict(Patch(em, c), service) == c.current
  {
    BuildsHaveSamePorts(px, service, old_, Restrict(em, service), c.previous);
    BuildsHaveSamePorts(px, service, new_, c.current, c.current);
    PatchReplaces(em, c, service);
  }

  lemma SyncedServiceIsBuild(px: Proxy, s: State, changes: map<NamespacedName, EndpointsChange>, t: State,
                             service: NamespacedName)
    requires Syncs(px, s, changes, t)
    requires IsBuild(px, service, TrackerOf(s.trackers, service).applied, Restrict(s.em, service))
    ensures IsBuild(px, service, Overlay(TrackerOf(s.trackers, service)), Restrict(t.em, service))
    ensures service in changes ==> Restrict(t.em, service) == changes[service].current
                                   && Restrict(s.em, service).Keys == changes[service].previous.Keys
    ensures service !in changes ==> Restrict(t.em, service) == Restrict(s.em, service)
  {
    var tracker := TrackerOf(s.trackers, service);
    assert Restrict(t.em, service) ==
      Restrict(if service in changes then Patch(s.em, changes[service]) else s.em, service);
    if service in changes {
      assert ChangeOf(px, service, tracker, changes[service]);
      BuildReplaces(px, service, tracker.applied, Overlay(tracker), s.em, changes[service]);
    } else {
      assert tracker == Tracker(tracker.applied, map[]);
      OverlayNothingPending(tracker.applied);
    }
  }

  lemma SyncKeepsInv(px: Proxy, s: State, changes: map<NamespacedName, EndpointsChange>, t: State,
                     service: NamespacedName, slices: map<string, EndpointSlice>)
    requires Syncs(px, s, changes, t) && ServiceInv(px, s, service, slices)
    ensures ServiceInv(px, t, service, slices)
    ensures TrackerOf(t.trackers, service).pending == map[]
  {
    SyncedServiceIsBuild(px, s, changes, t, service);
    TrackerAfterSync(s.trackers, service);
    OverlayNothingPending(Overlay(TrackerOf(s.trackers, service)));
  }

  lemma {:induction false} HistoryKeepsInv(px: Proxy, h: History, t: State, service: NamespacedName)
    requires Reaches(px, h, t)
    ensures ServiceInv(px, t, service, Received(h, service))
    ensures h.Then? && h.event.Sync? ==> TrackerOf(t.trackers, service).pending == map[]
  {
    match h
    case Start =>
      EmptyBuild(px, service);
      assert Restrict(t.em, service) == map[] && Overlay(NEW_TRACKER) == map[];
    case Then(before, e) =>
      var s :| Reaches(px, before, s) && Step(px, s, e, t);
      HistoryKeepsInv(px, before, s, service);
      match e {
        case Sync =>
          var changes :| Syncs(px, s, changes, t);
          SyncKeepsInv(px, s, changes, t, service, Received(before, service));
        case SliceEvent(slice, remove) =>
          ConcernsIff(slice, service);
          if Accepted(slice) {
            var info :| InfoOf(px, slice, remove, info) && Receives(px, s, slice, info, t);
            ReceiveKeepsInv(px, s, slice, remove, info, t, service, Received(before, service));
          }
      }
  }

  lemma MapIsAppliedBuild(px: Proxy, h: History, t: State, service: NamespacedName)
    requires Reaches(px, h, t)
    ensures IsBuild(px, service, TrackerOf(t.trackers, service).applied, Restrict(t.em, service))
  {
    HistoryKeepsInv(px, h, t, service);
  }

  /**
   Refinement: after any history ending in a sync, the part of the map that belongs to any service is what a
   build from scratch over the slices last received for it can give, with nothing left of removed slices.
   */
  lemma SyncMatchesFreshBuild(px: Proxy, before: History, t: State, service: NamespacedName)
    requires Reaches(px, Then(before, Sync), t)
    ensures IsFreshBuild(px, service, Received(before, service), Restrict(t.em, service))
  {
    HistoryKeepsInv(px, Then(before, Sync), t, service);
    OverlayNothingPending(TrackerOf(t.trackers, service).applied);
  }

  /**
   Over any history: whether an event is answered to have changed something. A slice the service does not have is a
   change, and so is the removal of one it has; a slice it has is one unless it is stored in the same form, and the
   removal of one it does not have only where a removal is pending that had other ports.
   */
  lemma ChangedIffNews(px: Proxy, h: History, s: State, slice: EndpointSlice, remove: bool, info: SliceInfo)
    requires Reaches(px, h, s) && Accepted(slice) && InfoOf(px, slice, remove, info)
    ensures var t, has := TrackerOf(s.trackers, ServiceOf(slice)), slice.name in Received(h, ServiceOf(slice));
      InfoChanged(t, slice.name, info) <==>
      if remove then has || (slice.name in t.pending && t.pending[slice.name] != info)
      else !has || slice.name !in Overlay(t) || Overlay(t)[slice.name] != info
  {
    var service := ServiceOf(slice);
    var t := TrackerOf(s.trackers, service);
    HistoryKeepsInv(px, h, s, service);
    ChangedIff(t, slice.name, info);
  }

  // ---------- the reference, in terms of API objects ----------

  /** The node name decides, or failing that the hostname label; a proxy without a hostname has nothing local. */
  ghost predicate OnThisNode(px: Proxy, se: SliceEndpoint) {
    && px.hostname != ""
    && (se.nodeName == Some(px.hostname) || (se.nodeName.None? && (LABEL_HOSTNAME, px.hostname) in se.topology.Items))
  }

  /**
   What an endpoint of a slice becomes under one of the slice's ports: unset conditions count as ready, serving and
   not terminating.
   */
  ghost predicate Becomes(px: Proxy, se: SliceEndpoint, number: int, e: Endpoint) {
    && se.addresses != [] && px.isIPv6(se.addresses[0]) == px.ipv6
    && e.str == px.joinHostPort(se.addresses[0], number)
    && (e.isLocal <==> OnThisNode(px, se))
    && e.topology == se.topology
    && (e.ready <==> se.ready != Some(false))
    && (e.serving <==> se.serving != Some(false))
    && (e.terminating <==> se.terminating == Some(true))
    && (forall z :: z in e.zoneHints <==> px.topologyHints && z in se.zones)
  }

  /** The slice `n` has a port with that name and a number, and an endpoint, that make `e` an endpoint of `p`. */
  ghost predicate Provides(px: Proxy, service: NamespacedName, slices: map<string, EndpointSlice>, p: ServicePortName,
                           e: Endpoint,
                           n: string, port: EndpointPort, se: SliceEndpoint) {
    && n in slices && port in slices[n].ports && se in slices[n].endpoints
    && port.name == Some(p.port) && port.port.Some? && port.port.value != 0
    && p == ServicePortName(service, p.port, port.protocol) && Becomes(px, se, port.port.value, e)
  }

  ghost predicate Offered(px: Proxy, service: NamespacedName, slices: map<string, EndpointSlice>, p: ServicePortName,
                          e: Endpoint) {
    exists n, port, se :: Provides(px, service, slices, p, e, n, port, se)
  }

  lemma {:induction false} PortVisitMembers(px: Proxy, p: ServicePortName, number: int, es: seq<EndpointInfo>, v: Visit)
    ensures v in PortVisits(px, p, number, es) <==>
            v.port == p && exists x :: x in es && Usable(px, x) && v.endpoint == NewEndpoint(px, number, x)
  {
    if es != [] {
      var front, x := es[..|es| - 1], es[|es| - 1];
      assert es == front + [x];
      PortVisitMembers(px, p, number, front, v);
    }
  }

  ghost predicate FromPort(px: Proxy, service: NamespacedName, port: EndpointPort, es: seq<EndpointInfo>, v: Visit) {
    PortUsable(port) && v in PortVisits(px, PortName(service, port), port.port.value, es)
  }

  lemma {:induction false} SliceVisitMembers(px: Proxy, service: NamespacedName, ports: seq<EndpointPort>,
                                             es: seq<EndpointInfo>, v: Visit)
    ensures v in SliceVisits(px, service, ports, es) <==>
            exists port :: port in ports && FromPort(px, service, port, es, v)
  {
    if ports != [] {
      var front, port := ports[..|ports| - 1], ports[|ports| - 1];
      assert ports == front + [port];
      SliceVisitMembers(px, service, front, es, v);
      if v in SliceVisits(px, service, ports, es) && v !in SliceVisits(px, service, front, es) {
        assert FromPort(px, service, port, es, v);
      }
    }
  }

  lemma ToInfosMembers(px: Proxy, slice: EndpointSlice, info: SliceInfo)
    requires InfoOf(px, slice, false, info)
    ensures forall port :: port in info.ports <==> port in slice.ports
    ensures forall x :: x in info.endpoints <==> exists se :: se in slice.endpoints && ToInfo(px, se) == x
  {
    assert forall port :: port in info.ports <==> port in multiset(info.ports);
    assert forall port :: port in slice.ports <==> port in multiset(slice.ports);
    assert forall x :: x in info.endpoints <==> x in multiset(info.endpoints);
    var all := ToInfos(px, slice.endpoints);
    assert forall x :: x in all <==> x in multiset(all);
    forall se | se in slice.endpoints ensures ToInfo(px, se) in all {
      var i :| 0 <= i < |slice.endpoints| && slice.endpoints[i] == se;
      assert all[i] == ToInfo(px, se);
    }
  }

  lemma BecomesIsNew(px: Proxy, se: SliceEndpoint, number: int, e: Endpoint)
    ensures Becomes(px, se, number, e) <==> Usable(px, ToInfo(px, se)) && e == NewEndpoint(px, number, ToInfo(px, se))
  {
    if Becomes(px, se, number, e) {
      assert e.zoneHints == ToInfo(px, se).zoneHints;
    }
  }

  lemma RecordedIsOffered(px: Proxy, service: NamespacedName, slices: map<string, EndpointSlice>, infos: InfoByName,
                          p: ServicePortName, e: Endpoint)
    requires InfosOf(px, slices, infos)
    ensures Recorded(px, service, infos, Visit(p, e)) <==> Offered(px, service, slices, p, e)
  {
    var v := Visit(p, e);
    if Recorded(px, service, infos, v) {
      var n :| n in infos && v in SliceVisits(px, service, infos[n].ports, infos[n].endpoints);
      RecordedOffers(px, service, slices, infos, p, e, n);
    }
    if Offered(px, service, slices, p, e) {
      var n, port, se :| Provides(px, service, slices, p, e, n, port, se);
      ProvidedIsRecorded(px, service, slices, infos, p, e, n, port, se);
    }
  }

  lemma ProvidedIsRecorded(px: Proxy, service: NamespacedName, slices: map<string, EndpointSlice>, infos: InfoByName,
                           p: ServicePortName, e: Endpoint,
                           n: string, port: EndpointPort, se: SliceEndpoint)
    requires InfosOf(px, slices, infos) && Provides(px, service, slices, p, e, n, port, se)
    ensures Recorded(px, service, infos, Visit(p, e))
  {
    var v := Visit(p, e);
    ToInfosMembers(px, slices[n], infos[n]);
    BecomesIsNew(px, se, port.port.value, e);
    assert ToInfo(px, se) in infos[n].endpoints;
    PortVisitMembers(px, p, port.port.value, infos[n].endpoints, v);
    assert FromPort(px, service, port, infos[n].endpoints, v);
    SliceVisitMembers(px, service, infos[n].ports, infos[n].endpoints, v);
  }

  lemma RecordedOffers(px: Proxy, service: NamespacedName, slices: map<string, EndpointSlice>, infos: InfoByName,
                       p: ServicePortName, e: Endpoint, n: string)
    requires InfosOf(px, slices, infos) && n in infos
    requires Visit(p, e) in SliceVisits(px, service, infos[n].ports, infos[n].endpoints)
    ensures Offered(px, service, slices, p, e)
  {
    var v := Visit(p, e);
    ToInfosMembers(px, slices[n], infos[n]);
    SliceVisitMembers(px, service, infos[n].ports, infos[n].endpoints, v);
    var port :| port in infos[n].ports && FromPort(px, service, port, infos[n].endpoints, v);
    PortVisitMembers(px, PortName(service, port), port.port.value, infos[n].endpoints, v);
    var x :| x in infos[n].endpoints && Usable(px, x) && e == NewEndpoint(px, port.port.value, x);
    var se :| se in slices[n].endpoints && ToInfo(px, se) == x;
    BecomesIsNew(px, se, port.port.value, e);
    assert Provides(px, service, slices, p, e, n, port, se);
  }

  /**
   What a build from scratch lists, told from the API objects alone: under each service port exactly the IPs its
   slices offer there, each once and with an endpoint some slice offers, local exactly when some offer of that IP is,
   and the list sorted by string. Only which of several offers is kept is left to the visiting order.
   */
  lemma FreshBuildListsOffers(px: Proxy, service: NamespacedName, slices: map<string, EndpointSlice>,
                              em: EndpointsMap, p: ServicePortName, ip: string)
    requires IsFreshBuild(px, service, slices, em)
    ensures (p in em && exists e :: e in em[p] && px.ipPart(e.str) == ip) <==>
            exists e :: Offered(px, service, slices, p, e) && px.ipPart(e.str) == ip
    ensures p in em ==> em[p] != [] && StrictlySorted(em[p])
    ensures p in em ==> forall e :: e in em[p] && px.ipPart(e.str) == ip ==>
              && Offered(px, service, slices, p, e)
              && (forall f :: f in em[p] && px.ipPart(f.str) == ip ==> f == e)
              && (e.isLocal <==> exists f :: Offered(px, service, slices, p, f) && px.ipPart(f.str) == ip && f.isLocal)
  {
    var infos :| InfosOf(px, slices, infos) && IsBuild(px, service, infos, em);
    BuildKeepsEveryIP(px, service, infos, em, p, ip);
    BuildsHaveSamePorts(px, service, infos, em, em);
    forall e ensures Recorded(px, service, infos, Visit(p, e)) <==> Offered(px, service, slices, p, e) {
      RecordedIsOffered(px, service, slices, infos, p, e);
    }
    assert forall v :: Offers(px, v, p, ip) ==> v == Visit(p, v.endpoint);
    assert forall e: Endpoint :: px.ipPart(e.str) == ip ==> Offers(px, Visit(p, e), p, ip);
  }
}
