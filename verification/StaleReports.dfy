/**
 When the stale UDP connections a sync reports are the ones the map lost: always for service names, in Endpoints mode
 always for endpoints, and in EndpointSlice mode for endpoints exactly on the ports whose strings are settled.
 */
module StaleReports {
  import opened Common
  import opened Patching
  import opened SliceBuild
  import opened SliceAgreement
  import opened SliceHistory
  import opened SliceRuns
  import opened EndpointsTable
  import CT = ChangeTracking
  import OH = ObjectHistory
  import ET = EndpointTracker
  import EL = EndpointListing

  // ---------- the reports describe the map ----------

  /** Only the change of the port's own service can report it. */
  lemma ReportedByOwner(px: Proxy, s: State, m: map<NamespacedName, EndpointsChange>, t: State, owner: NamespacedName,
                        se: ServiceEndpoint, p: ServicePortName)
    requires Syncs(px, s, m, t)
    ensures EndpointReported(m, owner, se) ==> owner == se.port.service
    ensures NameReported(m, owner, p) ==> owner == p.service
  {
    if owner in m {
      ChangeOwnsPorts(px, owner, TrackerOf(s.trackers, owner), m[owner]);
    }
  }

  /** After a sync the lists of a changed service are its new build's, and the ports it had are its old build's. */
  lemma SyncAtPort(px: Proxy, h: History, s: State, m: map<NamespacedName, EndpointsChange>, t: State,
                   p: ServicePortName)
    requires Reaches(px, h, s) && Syncs(px, s, m, t)
    ensures p.service !in m ==> ListAt(t.em, p) == ListAt(s.em, p)
    ensures p.service in m ==>
              var c := m[p.service];
              ListAt(t.em, p) == ListAt(c.current, p) && (ListAt(s.em, p) == [] <==> ListAt(c.previous, p) == [])
  {
    var service := p.service;
    MapIsAppliedBuild(px, h, s, service);
    SyncedServiceIsBuild(px, s, m, t, service);
    if service in m {
      var c, applied := m[service], TrackerOf(s.trackers, service).applied;
      ChangeOwnsPorts(px, service, TrackerOf(s.trackers, service), c);
      RestrictOwn(c.current, service);
      SameAtPort(t.em, c.current, p);
      BuildsHaveSamePorts(px, service, applied, Restrict(s.em, service), c.previous);
      BuildsHaveSamePorts(px, service, applied, c.previous, Restrict(s.em, service));
      assert ListAt(s.em, p) == ListAt(Restrict(s.em, service), p);
    } else {
      SameAtPort(t.em, s.em, p);
    }
  }

  lemma NameReportedIsOwners(px: Proxy, s: State, m: map<NamespacedName, EndpointsChange>, t: State,
                             es: seq<ServiceEndpoint>, ns: seq<ServicePortName>, p: ServicePortName)
    requires Syncs(px, s, m, t) && Reported(m, m.Keys, es, ns)
    ensures p in ns <==> NameReported(m, p.service, p)
  {
    forall owner ensures NameReported(m, owner, p) ==> owner == p.service {
      ReportedByOwner(px, s, m, t, owner, ServiceEndpoint("", p), p);
    }
  }

  /** The stale service names reported are exactly the UDP ports whose list in the map went from empty to non-empty. */
  lemma StaleNamesExact(px: Proxy, h: History, s: State, m: map<NamespacedName, EndpointsChange>, t: State,
                        es: seq<ServiceEndpoint>, ns: seq<ServicePortName>, p: ServicePortName)
    requires Reaches(px, h, s) && Syncs(px, s, m, t) && Reported(m, m.Keys, es, ns)
    ensures p in ns <==> p.protocol == UDP && ListAt(s.em, p) == [] && ListAt(t.em, p) != []
  {
    SyncAtPort(px, h, s, m, t, p);
    NameReportedIsOwners(px, s, m, t, es, ns, p);
  }

  // ---------- when the stale endpoints reported are the ones the map lost ----------

  /** All the slices that could decide what is kept for the IP keep the same endpoint string. */
  ghost predicate StringSettled(px: Proxy, service: NamespacedName, infos: InfoByName, p: ServicePortName, ip: string) {
    forall m, n :: Decides(px, service, infos, m, p, ip) && Decides(px, service, infos, n, p, ip) ==>
      SliceWinner(px, service, infos[m], p, ip).value.str == SliceWinner(px, service, infos[n], p, ip).value.str
  }

  ghost predicate StringsSettled(px: Proxy, service: NamespacedName, infos: InfoByName, p: ServicePortName) {
    forall ip :: StringSettled(px, service, infos, p, ip)
  }

  lemma SettledListsShareStrings(px: Proxy, service: NamespacedName, infos: InfoByName, em: EndpointsMap,
                                 em': EndpointsMap, p: ServicePortName, e: Endpoint)
    returns (f: Endpoint)
    requires IsBuild(px, service, infos, em) && IsBuild(px, service, infos, em')
    requires StringsSettled(px, service, infos, p)
    requires e in ListAt(em, p)
    ensures f in ListAt(em', p) && Same(e, f)
  {
    var ip := px.ipPart(e.str);
    BuildKeepsEveryIP(px, service, infos, em, p, ip);
    BuildKeepsEveryIP(px, service, infos, em', p, ip);
    f :| f in em'[p] && px.ipPart(f.str) == ip;
    var m := ListedIsDeciders(px, service, infos, em, p, e);
    var n := ListedIsDeciders(px, service, infos, em', p, f);
    assert StringSettled(px, service, infos, p, ip);
  }

  lemma SettledReports(px: Proxy, service: NamespacedName, infos: InfoByName, em: EndpointsMap, em': EndpointsMap,
                       current: EndpointsMap, se: ServiceEndpoint)
    requires IsBuild(px, service, infos, em) && IsBuild(px, service, infos, em')
    requires StringsSettled(px, service, infos, se.port)
    requires StaleEndpoint(em, current, se)
    ensures StaleEndpoint(em', current, se)
  {
    var e :| e in ListAt(em, se.port) && e.str == se.endpoint && Gone(e, ListAt(current, se.port));
    var f := SettledListsShareStrings(px, service, infos, em, em', se.port, e);
    assert Gone(f, ListAt(current, se.port));
  }

  lemma ReportedIsOwners(px: Proxy, s: State, m: map<NamespacedName, EndpointsChange>, t: State,
                         es: seq<ServiceEndpoint>, ns: seq<ServicePortName>, se: ServiceEndpoint)
    requires Syncs(px, s, m, t) && Reported(m, m.Keys, es, ns)
    ensures se in es <==> EndpointReported(m, se.port.service, se)
  {
    forall owner ensures EndpointReported(m, owner, se) ==> owner == se.port.service {
      ReportedByOwner(px, s, m, t, owner, se, se.port);
    }
  }

  lemma StaleAtPort(before: EndpointsMap, after: EndpointsMap, before': EndpointsMap, after': EndpointsMap,
                    se: ServiceEndpoint)
    requires ListAt(before, se.port) == ListAt(before', se.port) && ListAt(after, se.port) == ListAt(after', se.port)
    ensures StaleEndpoint(before, after, se) <==> StaleEndpoint(before', after', se)
  {}

  lemma NothingStale(em: EndpointsMap, after: EndpointsMap, se: ServiceEndpoint)
    requires ListAt(em, se.port) == ListAt(after, se.port)
    ensures !StaleEndpoint(em, after, se)
  {}

  lemma SettledReportsExact(px: Proxy, h: History, s: State, m: map<NamespacedName, EndpointsChange>, t: State,
                            es: seq<ServiceEndpoint>, ns: seq<ServicePortName>, se: ServiceEndpoint)
    requires Reaches(px, h, s) && Syncs(px, s, m, t) && Reported(m, m.Keys, es, ns)
    requires StringsSettled(px, se.port.service, TrackerOf(s.trackers, se.port.service).applied, se.port)
    ensures se in es <==> StaleEndpoint(s.em, t.em, se)
  {
    var service := se.port.service;
    var applied := TrackerOf(s.trackers, service).applied;
    SyncAtPort(px, h, s, m, t, se.port);
    ReportedIsOwners(px, s, m, t, es, ns, se);
    if service in m {
      var c, own := m[service], Restrict(s.em, service);
      MapIsAppliedBuild(px, h, s, service);
      assert ChangeOf(px, service, TrackerOf(s.trackers, service), c);
      if StaleEndpoint(c.previous, c.current, se) {
        SettledReports(px, service, applied, c.previous, own, c.current, se);
      }
      if StaleEndpoint(own, c.current, se) {
        SettledReports(px, service, applied, own, c.previous, c.current, se);
      }
      StaleAtPort(own, c.current, s.em, t.em, se);
    } else {
      NothingStale(s.em, t.em, se);
    }
  }

  /**
   Over any history: a sync reports exactly the endpoints the map lost, on every port whose strings are settled among
   the applied slices.
   */
  lemma StaleEndpointsExact(px: Proxy, h: History, s: State, m: map<NamespacedName, EndpointsChange>, t: State,
                            es: seq<ServiceEndpoint>, ns: seq<ServicePortName>, se: ServiceEndpoint)
    requires Reaches(px, h, s) && Syncs(px, s, m, t) && Reported(m, m.Keys, es, ns)
    requires StringsSettled(px, se.port.service, TrackerOf(s.trackers, se.port.service).applied, se.port)
    ensures se in es <==>
            && se.port.protocol == UDP
            && exists e :: e in ListAt(s.em, se.port) && e.str == se.endpoint
                 && forall f :: f in ListAt(t.em, se.port) ==> f.str != e.str || f.isLocal != e.isLocal
  {
    SettledReportsExact(px, h, s, m, t, es, ns, se);
    StaleEndpointMeans(s.em, t.em, se);
  }

  // ---------- on other ports some sync reports wrongly ----------

  /** After the events and the sync, the report on one string of the port differs from what the map lost. */
  ghost predicate Misreports(px: Proxy, s: State, p: ServicePortName, events: seq<Event>, u: State,
                             m: map<NamespacedName, EndpointsChange>, t: State,
                             es: seq<ServiceEndpoint>, ns: seq<ServicePortName>, str: string) {
    var se := ServiceEndpoint(str, p);
    && Continues(px, s, events, u) && Syncs(px, u, m, t) && Reported(m, m.Keys, es, ns)
    && !(se in es <==> StaleEndpoint(u.em, t.em, se))
  }

  /**
   However the state is continued by slice events and a sync, the sync reports exactly what the map loses on the
   port.
   */
  ghost predicate AlwaysExact(px: Proxy, s: State, p: ServicePortName) {
    forall events, u, m, t, es, ns, str :: !Misreports(px, s, p, events, u, m, t, es, ns, str)
  }

  lemma ListOf<T(!new)>(items: set<T>) returns (l: seq<T>)
    ensures forall x :: x in l <==> x in items
  {
    l := [];
    var todo := items;
    while todo != {}
      invariant todo <= items && forall x :: x in l <==> x in items - todo
      decreases todo
    {
      var x :| x in todo;
      l, todo := l + [x], todo - {x};
    }
  }

  lemma ReportExists(m: map<NamespacedName, EndpointsChange>)
    returns (es: seq<ServiceEndpoint>, ns: seq<ServicePortName>)
    ensures Reported(m, m.Keys, es, ns)
  {
    var ends := set r, p, e | r in m && p in m[r].previous && e in m[r].previous[p]
                              && EndpointReported(m, r, ServiceEndpoint(e.str, p)) :: ServiceEndpoint(e.str, p);
    es := ListOf(ends);
    forall se ensures se in es <==> exists r :: r in m.Keys && EndpointReported(m, r, se) {
      if r :| r in m && EndpointReported(m, r, se) {
        var e :| e in ListAt(m[r].previous, se.port) && e.str == se.endpoint;
        assert se == ServiceEndpoint(e.str, se.port) && se in ends;
      }
    }
    var names := set r, p | r in m && p in m[r].current && NameReported(m, r, p) :: p;
    ns := ListOf(names);
    forall p ensures p in ns <==> exists r :: r in m.Keys && NameReported(m, r, p) {
      if r :| r in m && NameReported(m, r, p) {
        assert p in names;
      }
    }
  }

  /** Of two deciders whose strings differ, one is not the one the map took its endpoint from. */
  lemma UnusedDecider(px: Proxy, service: NamespacedName, infos: InfoByName, em: EndpointsMap, p: ServicePortName,
                      ip: string)
    returns (n: string)
    requires IsBuild(px, service, infos, em) && !StringSettled(px, service, infos, p, ip)
    ensures Decides(px, service, infos, n, p, ip)
    ensures var w := SliceWinner(px, service, infos[n], p, ip).value;
      px.ipPart(w.str) == ip && forall e :: e in ListAt(em, p) ==> e.str != w.str
  {
    var a, b :| Decides(px, service, infos, a, p, ip) && Decides(px, service, infos, b, p, ip)
      && SliceWinner(px, service, infos[a], p, ip).value.str != SliceWinner(px, service, infos[b], p, ip).value.str;
    WinnerIsOffered(px, SliceVisits(px, service, infos[a].ports, infos[a].endpoints), p, ip);
    WinnerIsOffered(px, SliceVisits(px, service, infos[b].ports, infos[b].endpoints), p, ip);
    var v, w := SliceWinner(px, service, infos[a], p, ip).value, SliceWinner(px, service, infos[b], p, ip).value;
    n := a;
    if e :| e in ListAt(em, p) && e.str == v.str {
      n := b;
      forall f | f in ListAt(em, p) ensures f.str != w.str {
        if f.str == w.str {
          OnePerIP(px, service, infos, em, p, e, f);
          assert false;
        }
      }
    }
  }

  /**
   The map and a change of the same slices can be at odds: the change would report a string that the map does not
   list.
   */
  lemma UnsettledChange(px: Proxy, service: NamespacedName, infos: InfoByName, em: EndpointsMap, p: ServicePortName)
    returns (previous: EndpointsMap, str: string)
    requires IsBuild(px, service, infos, em) && !StringsSettled(px, service, infos, p) && p.protocol == UDP
    ensures IsBuild(px, service, infos, previous) && StaleEndpoint(previous, map[], ServiceEndpoint(str, p))
    ensures infos != map[] && forall e :: e in ListAt(em, p) ==> e.str != str
  {
    var ip :| !StringSettled(px, service, infos, p, ip);
    var n := UnusedDecider(px, service, infos, em, p, ip);
    previous := DeciderCanBeListed(px, service, infos, n, p, ip);
    var w := SliceWinner(px, service, infos[n], p, ip).value;
    str := w.str;
    assert w in ListAt(previous, p) && Gone(w, ListAt(map[], p));
  }

  lemma RemovalsArePending(t: Tracker)
    requires t.applied != map[] && Overlay(t) == map[]
    ensures t.pending != map[]
  {
    var n :| n in t.applied;
    assert n !in Overlay(t);
  }

  /** Whoever has a UDP port that is not settled can see a sync report an endpoint that the map did not have. */
  lemma UnsettledMisreports(px: Proxy, h: History, s: State, p: ServicePortName)
    returns (events: seq<Event>, u: State, m: map<NamespacedName, EndpointsChange>, t: State,
             es: seq<ServiceEndpoint>, ns: seq<ServicePortName>, str: string)
    requires Reaches(px, h, s) && p.protocol == UDP
    requires !StringsSettled(px, p.service, TrackerOf(s.trackers, p.service).applied, p)
    ensures Misreports(px, s, p, events, u, m, t, es, ns, str)
    ensures ServiceEndpoint(str, p) in es && forall e :: e in ListAt(u.em, p) ==> e.str != str
  {
    var service := p.service;
    var applied := TrackerOf(s.trackers, service).applied;
    events, u := RemoveAll(px, h, s, service);
    ContinuesKeeps(px, h, s, events, u, service);
    MapIsAppliedBuild(px, Extended(h, events), u, service);
    var previous;
    previous, str := UnsettledChange(px, service, applied, Restrict(u.em, service), p);
    assert ListAt(u.em, p) == ListAt(Restrict(u.em, service), p);
    m, t, es, ns := SyncReporting(px, u, service, previous, ServiceEndpoint(str, p));
  }

  /** A service all of whose slices go can be synced with any build of the old ones as the previous state. */
  lemma SyncReporting(px: Proxy, u: State, service: NamespacedName, previous: EndpointsMap, se: ServiceEndpoint)
    returns (m: map<NamespacedName, EndpointsChange>, t: State, es: seq<ServiceEndpoint>, ns: seq<ServicePortName>)
    requires var tracker := TrackerOf(u.trackers, service);
      tracker.applied != map[] && Overlay(tracker) == map[] && IsBuild(px, service, tracker.applied, previous)
    requires StaleEndpoint(previous, map[], se)
    ensures Syncs(px, u, m, t) && Reported(m, m.Keys, es, ns) && se in es
  {
    EmptyBuild(px, service);
    RemovalsArePending(TrackerOf(u.trackers, service));
    m, t := SyncExists(px, u, service, Some(Change(previous, map[])));
    es, ns := ReportExists(m);
    assert service in m && EndpointReported(m, service, se);
  }

  /**
   From any reachable state, whatever slice events follow, the next sync reports exactly the endpoints the map loses
   on a UDP port if and only if no two applied slices that could decide an IP of the port disagree on its string.
   */
  lemma AlwaysExactIff(px: Proxy, h: History, s: State, p: ServicePortName)
    requires Reaches(px, h, s) && p.protocol == UDP
    ensures AlwaysExact(px, s, p) <==> StringsSettled(px, p.service, TrackerOf(s.trackers, p.service).applied, p)
  {
    if StringsSettled(px, p.service, TrackerOf(s.trackers, p.service).applied, p) {
      forall events, u, m, t, es, ns, str ensures !Misreports(px, s, p, events, u, m, t, es, ns, str) {
        if Continues(px, s, events, u) && Syncs(px, u, m, t) && Reported(m, m.Keys, es, ns) {
          ContinuesKeeps(px, h, s, events, u, p.service);
          SettledReportsExact(px, Extended(h, events), u, m, t, es, ns, ServiceEndpoint(str, p));
        }
      }
    } else {
      var events, u, m, t, es, ns, str := UnsettledMisreports(px, h, s, p);
    }
  }

  // ---------- a history that misreports ----------

  // Two slices that offer one IP under one UDP port, with different port numbers.
  const ONE_IP := Proxy("", false, false, (_: string) => false,
                        (_: string, p: int) => if p == 1 then "ip:1" else "ip:2", (_: string) => "ip")
  const DNS := NamespacedName("ns", "dns")
  const DNS_PORT := ServicePortName(DNS, "dns", UDP)

  function DnsSlice(name: string, number: int): EndpointSlice {
    EndpointSlice("ns", name, Some("dns"), "IPv4", [EndpointPort(Some("dns"), Some(number), UDP)],
                  [SliceEndpoint(["ip"], None, map[], [], None, None, None)], None)
  }

  function DnsEndpoint(number: int): Endpoint {
    Endpoint(if number == 1 then "ip:1" else "ip:2", false, map[], {}, true, true, false)
  }

  lemma OneElement<T>(xs: seq<T>, x: T)
    requires multiset(xs) == multiset{x}
    ensures xs == [x]
  {
    assert |xs| == |multiset(xs)| == 1;
    assert xs[0] in multiset(xs);
  }

  lemma DnsInfo(name: string, number: int, info: SliceInfo)
    requires InfoOf(ONE_IP, DnsSlice(name, number), false, info) && number != 0
    ensures SliceWinner(ONE_IP, DNS, info, DNS_PORT, "ip") == Some(DnsEndpoint(number))
  {
    var slice := DnsSlice(name, number);
    var es := ToInfos(ONE_IP, slice.endpoints);
    assert es == [ToInfo(ONE_IP, slice.endpoints[0])];
    OneElement(info.ports, slice.ports[0]);
    OneElement(info.endpoints, es[0]);
    DnsVisits(number);
    var vs := [Visit(DNS_PORT, DnsEndpoint(number))];
    assert SliceVisits(ONE_IP, DNS, info.ports, info.endpoints) == vs;
    assert Winner(ONE_IP, vs[..|vs| - 1], DNS_PORT, "ip") == None;
    assert Offers(ONE_IP, vs[|vs| - 1], DNS_PORT, "ip");
    assert Winner(ONE_IP, vs, DNS_PORT, "ip") == Some(DnsEndpoint(number));
  }

  lemma DnsVisits(number: int)
    requires number != 0
    ensures var slice := DnsSlice("", number);
      SliceVisits(ONE_IP, DNS, slice.ports, ToInfos(ONE_IP, slice.endpoints)) == [Visit(DNS_PORT, DnsEndpoint(number))]
  {
    var slice := DnsSlice("", number);
    var es := ToInfos(ONE_IP, slice.endpoints);
    assert slice.ports[..0] == [] && es[..0] == [];
    assert PortVisits(ONE_IP, DNS_PORT, number, es) == [Visit(DNS_PORT, DnsEndpoint(number))];
  }

  const DNS_HISTORY :=
    Then(Then(Then(Start, SliceEvent(DnsSlice("a", 1), false)), SliceEvent(DnsSlice("b", 2), false)), Sync)

  lemma DnsReceived()
    ensures Received(DNS_HISTORY, DNS) == map["a" := DnsSlice("a", 1), "b" := DnsSlice("b", 2)]
  {
    var h1 := Then(Start, SliceEvent(DnsSlice("a", 1), false));
    assert Received(Start, DNS) == map[];
    assert Accepted(DnsSlice("a", 1)) && Accepted(DnsSlice("b", 2));
    assert Received(h1, DNS) == map["a" := DnsSlice("a", 1)];
  }

  /** Both slices arrive and are synced, then both go: the next sync can report the endpoint the map did not have. */
  lemma RepeatedIPMisreports()
    returns (s: State, events: seq<Event>, u: State, m: map<NamespacedName, EndpointsChange>, t: State,
             es: seq<ServiceEndpoint>, ns: seq<ServicePortName>, str: string)
    ensures Reaches(ONE_IP, DNS_HISTORY, s)
    ensures Continues(ONE_IP, s, events, u) && Syncs(ONE_IP, u, m, t) && Reported(m, m.Keys, es, ns)
    ensures ServiceEndpoint(str, DNS_PORT) in es && forall e :: e in ListAt(u.em, DNS_PORT) ==> e.str != str
  {
    s := HistoryRuns(ONE_IP, DNS_HISTORY);
    DnsUnsettled(s);
    events, u, m, t, es, ns, str := UnsettledMisreports(ONE_IP, DNS_HISTORY, s, DNS_PORT);
  }

  lemma DnsUnsettled(s: State)
    requires Reaches(ONE_IP, DNS_HISTORY, s)
    ensures !StringsSettled(ONE_IP, DNS, TrackerOf(s.trackers, DNS).applied, DNS_PORT)
  {
    HistoryKeepsInv(ONE_IP, DNS_HISTORY, s, DNS);
    DnsReceived();
    var tracker := TrackerOf(s.trackers, DNS);
    OverlayNothingPending(tracker.applied);
    assert tracker == Tracker(tracker.applied, map[]);
    DnsDeciders(tracker.applied);
  }

  lemma TwoDeciders(px: Proxy, service: NamespacedName, infos: InfoByName, a: string, b: string,
                    p: ServicePortName, ip: string, v: Endpoint, w: Endpoint)
    requires infos.Keys == {a, b} && !v.isLocal && !w.isLocal && v.str != w.str
    requires SliceWinner(px, service, infos[a], p, ip) == Some(v)
    requires SliceWinner(px, service, infos[b], p, ip) == Some(w)
    ensures !StringSettled(px, service, infos, p, ip)
  {
    assert forall n :: n in infos ==> !OffersLocal(px, service, infos[n], p, ip);
    assert Decides(px, service, infos, a, p, ip) && Decides(px, service, infos, b, p, ip);
  }

  lemma DnsDeciders(infos: InfoByName)
    requires InfosOf(ONE_IP, map["a" := DnsSlice("a", 1), "b" := DnsSlice("b", 2)], infos)
    ensures !StringSettled(ONE_IP, DNS, infos, DNS_PORT, "ip")
  {
    DnsInfo("a", 1, infos["a"]);
    DnsInfo("b", 2, infos["b"]);
    TwoDeciders(ONE_IP, DNS, infos, "a", "b", DNS_PORT, "ip", DnsEndpoint(1), DnsEndpoint(2));
  }

  // ---------- Endpoints mode ----------

  type EndpointsHistory = OH.History<ET.Endpoints>

  /** `s` is the state after the history of Endpoints objects, and `t` the one after its pending changes are applied. */
  ghost predicate EndpointsSync(px: Proxy, h: EndpointsHistory, s: CT.State<seq<Endpoint>>,
                                t: CT.State<seq<Endpoint>>) {
    var kind := ET.EndpointsKind(px);
    OH.Chained(kind, h) && CT.Reaches(OH.Tracked(kind, h), s) && CT.Step(s, CT.Checkout, t)
  }

  /**
   After every sync the endpoints map is the union of the maps of the Endpoints objects that exist: it lists under a
   port one endpoint for every address of every subset of the service's object that serves the port, in their order.
   */
  lemma SyncMatchesEndpoints(px: Proxy, h: EndpointsHistory, s: CT.State<seq<Endpoint>>, t: CT.State<seq<Endpoint>>,
                             p: ServicePortName)
    requires EndpointsSync(px, h, s, t)
    ensures ListAt(t.table, p) == ListAt(CT.TableOf(ET.ObjectMap(px, OH.Latest(ET.EndpointsKind(px), h, p.service))), p)
    ensures var latest := OH.Latest(ET.EndpointsKind(px), h, p.service);
      if latest.None? then p !in t.table
      else (p in t.table <==> ListAt(t.table, p) != []) && EL.Lists(px, latest.value, p, ListAt(t.table, p))
  {
    var kind := ET.EndpointsKind(px);
    if OH.Latest(kind, h, p.service).Some? {
      EL.ObjectMapLists(px, OH.Latest(kind, h, p.service).value, p);
    }
    ET.EndpointsOwnPorts(px);
    assert CT.Reaches(CT.Then(OH.Tracked(kind, h), CT.Checkout), t);
    OH.TableMatchesObjects(kind, h, t, p);
  }

  /**
   A pending change holds the lists of its own service before and after, and a service without one keeps its lists.
   */
  lemma ChangeAtPort(px: Proxy, h: EndpointsHistory, s: CT.State<seq<Endpoint>>, t: CT.State<seq<Endpoint>>,
                     p: ServicePortName)
    requires EndpointsSync(px, h, s, t)
    ensures var n := p.service;
      if n in s.items
      then var c := CT.ChangeOf(s.items[n]);
        ListAt(s.table, p) == ListAt(c.previous, p) && ListAt(t.table, p) == ListAt(c.current, p)
      else ListAt(s.table, p) == ListAt(t.table, p)
  {
    var kind := ET.EndpointsKind(px);
    var th := OH.Tracked(kind, h);
    ET.EndpointsOwnPorts(px);
    OH.TrackedChained(kind, h);
    CT.HistoryKeepsInv(th, s, p.service);
    assert CT.Reaches(CT.Then(th, CT.Checkout), t);
    CT.HistoryKeepsInv(CT.Then(th, CT.Checkout), t, p.service);
    assert ListAt(s.table, p) == ListAt(Restrict(s.table, p.service), p);
    assert ListAt(t.table, p) == ListAt(Restrict(t.table, p.service), p);
  }

  lemma ItemOwnsPorts(px: Proxy, h: EndpointsHistory, s: CT.State<seq<Endpoint>>, t: CT.State<seq<Endpoint>>,
                      n: NamespacedName)
    requires EndpointsSync(px, h, s, t) && n in s.items
    ensures OwnChange(CT.ChangeOf(s.items[n]), n)
  {
    var th := OH.Tracked(ET.EndpointsKind(px), h);
    ET.EndpointsOwnPorts(px);
    OH.TrackedChained(ET.EndpointsKind(px), h);
    CT.HistoryKeepsInv(th, s, n);
    CT.LatestOwnsPorts(th, n);
  }

  /** In Endpoints mode the reports of every sync are exact, for endpoints and for service names. */
  lemma EndpointsReportsExact(px: Proxy, h: EndpointsHistory, s: CT.State<seq<Endpoint>>, t: CT.State<seq<Endpoint>>,
                              es: seq<ServiceEndpoint>, ns: seq<ServicePortName>, se: ServiceEndpoint)
    requires EndpointsSync(px, h, s, t) && Reported(CT.Changes(s.items), s.items.Keys, es, ns)
    ensures se in es <==>
            && se.port.protocol == UDP
            && exists e :: e in ListAt(s.table, se.port) && e.str == se.endpoint
                 && forall f :: f in ListAt(t.table, se.port) ==> f.str != e.str || f.isLocal != e.isLocal
    ensures se.port in ns <==>
            se.port.protocol == UDP && ListAt(s.table, se.port) == [] && ListAt(t.table, se.port) != []
  {
    StaleEndpointMeans(s.table, t.table, se);
    var m, p := CT.Changes(s.items), se.port;
    ChangeAtPort(px, h, s, t, p);
    forall n | n in s.items && n != p.service ensures !EndpointReported(m, n, se) && !NameReported(m, n, p) {
      ItemOwnsPorts(px, h, s, t, n);
    }
    assert se in es <==> p.service in s.items && EndpointReported(m, p.service, se);
    assert p in ns <==> p.service in s.items && NameReported(m, p.service, p);
    if p.service in s.items {
      StaleAtPort(m[p.service].previous, m[p.service].current, s.table, t.table, se);
    } else {
      NothingStale(s.table, t.table, se);
    }
  }
}
