/**
 How kube-proxy turns the EndpointSlices of one service into endpoint lists. The slices sit in a Go map,
 so the order they are visited in is up to the runtime, and when two records share an IP the order picks
 the winner. A build is therefore a relation: any outcome some visiting order gives.
 */
module SliceBuild {
  import opened Common
  import opened Ordering

  /** `BaseEndpointInfo`. */
  datatype Endpoint = Endpoint(str: string, isLocal: bool, topology: map<string, string>, zoneHints: set<string>,
                               ready: bool, serving: bool, terminating: bool)

  type EndpointsMap = map<ServicePortName, seq<Endpoint>>

  datatype EndpointPort = EndpointPort(name: Option<string>, port: Option<int>, protocol: Protocol)

  datatype SliceEndpoint =
    SliceEndpoint(addresses: seq<string>, nodeName: Option<string>, topology: map<string, string>, zones: seq<string>,
                  ready: Option<bool>, serving: Option<bool>, terminating: Option<bool>)

  /** The EndpointSlice API object; `trigger` is its last-change trigger time, when that is set and parses. */
  datatype EndpointSlice =
    EndpointSlice(namespace: string, name: string, serviceLabel: Option<string>, addressType: string,
                  ports: seq<EndpointPort>, endpoints: seq<SliceEndpoint>, trigger: Option<int>)

  datatype EndpointInfo = EndpointInfo(addresses: seq<string>, nodeName: Option<string>, topology: map<string, string>,
                                       zoneHints: set<string>, ready: bool, serving: bool, terminating: bool)

  /** `endpointSliceInfo`: what the cache keeps of a slice. */
  datatype SliceInfo = SliceInfo(ports: seq<EndpointPort>, endpoints: seq<EndpointInfo>, remove: bool)

  type InfoByName = map<string, SliceInfo>

  /** The proxy's settings, with address parsing and formatting left to the environment. */
  datatype Proxy = Proxy(hostname: string, ipv6: bool, topologyHints: bool,
                         isIPv6: string -> bool, joinHostPort: (string, int) -> string, ipPart: string -> string)

  // ---------- newEndpointSliceInfo ----------

  function ToInfo(px: Proxy, e: SliceEndpoint): EndpointInfo {
    EndpointInfo(e.addresses, e.nodeName, e.topology,
                 if px.topologyHints then set z | z in e.zones else {},
                 e.ready.None? || e.ready.value,
                 e.serving.None? || e.serving.value,
                 e.terminating.Some? && e.terminating.value)
  }

  function ToInfos(px: Proxy, es: seq<SliceEndpoint>): seq<EndpointInfo> {
    seq(|es|, i requires 0 <= i < |es| => ToInfo(px, es[i]))
  }

  function JoinAddresses(addresses: seq<string>): string {
    if addresses == [] then ""
    else if |addresses| == 1 then addresses[0]
    else addresses[0] + "," + JoinAddresses(addresses[1..])
  }

  function PortNumber(p: EndpointPort): int { if p.port.Some? then p.port.value else 0 }

  function ByPort(): (EndpointPort, EndpointPort) -> bool {
    (p: EndpointPort, q: EndpointPort) => PortNumber(p) < PortNumber(q)
  }

  function ByAddress(): (EndpointInfo, EndpointInfo) -> bool {
    (e: EndpointInfo, f: EndpointInfo) => StringLess(JoinAddresses(e.addresses), JoinAddresses(f.addresses))
  }

  /** Go's sort would dereference a nil port number as soon as it compares two ports. */
  predicate PortsComparable(ports: seq<EndpointPort>) {
    |ports| <= 1 || forall i :: 0 <= i < |ports| ==> ports[i].port.Some?
  }

  /** `info` is what newEndpointSliceInfo may store for the slice; the sort is not stable, so several are possible. */
  ghost predicate InfoOf(px: Proxy, slice: EndpointSlice, remove: bool, info: SliceInfo) {
    && info.remove == remove
    && multiset(info.ports) == multiset(slice.ports) && SortedBy(info.ports, ByPort())
    && (if remove then info.endpoints == []
        else && multiset(info.endpoints) == multiset(ToInfos(px, slice.endpoints))
             && SortedBy(info.endpoints, ByAddress()))
  }

  // ---------- records, in the order they are visited ----------

  /** One endpoint offered for one service port. */
  datatype Visit = Visit(port: ServicePortName, endpoint: Endpoint)

  predicate PortUsable(p: EndpointPort) {
    p.name.Some? && p.port.Some? && p.port.value != 0
  }

  function PortName(service: NamespacedName, p: EndpointPort): ServicePortName
    requires PortUsable(p)
  {
    ServicePortName(service, p.name.value, p.protocol)
  }

  predicate Usable(px: Proxy, e: EndpointInfo) {
    e.addresses != [] && px.ipv6 == px.isIPv6(e.addresses[0])
  }

  predicate IsLocal(px: Proxy, e: EndpointInfo) {
    var host := if e.nodeName.Some? then e.nodeName.value
                else if LABEL_HOSTNAME in e.topology then e.topology[LABEL_HOSTNAME] else "";
    px.hostname != "" && host == px.hostname
  }

  const LABEL_HOSTNAME := "kubernetes.io/hostname"

  function NewEndpoint(px: Proxy, portNumber: int, e: EndpointInfo): Endpoint
    requires Usable(px, e)
  {
    Endpoint(px.joinHostPort(e.addresses[0], portNumber), IsLocal(px, e), e.topology, e.zoneHints,
             e.ready, e.serving, e.terminating)
  }

  function PortVisits(px: Proxy, name: ServicePortName, portNumber: int, es: seq<EndpointInfo>): seq<Visit> {
    if es == [] then []
    else
      PortVisits(px, name, portNumber, es[..|es| - 1]) +
      if Usable(px, es[|es| - 1]) then [Visit(name, NewEndpoint(px, portNumber, es[|es| - 1]))] else []
  }

  function SliceVisits(px: Proxy, service: NamespacedName, ports: seq<EndpointPort>, es: seq<EndpointInfo>):
    seq<Visit> {
    if ports == [] then []
    else
      var p := ports[|ports| - 1];
      SliceVisits(px, service, ports[..|ports| - 1], es) +
      if PortUsable(p) then PortVisits(px, PortName(service, p), p.port.value, es) else []
  }

  /** Everything the build sees when it visits the slices named in `order`. */
  function Visits(px: Proxy, service: NamespacedName, infos: InfoByName, order: seq<string>): seq<Visit>
    requires forall n :: n in order ==> n in infos
  {
    if order == [] then []
    else
      var info := infos[order[|order| - 1]];
      Visits(px, service, infos, order[..|order| - 1]) + SliceVisits(px, service, info.ports, info.endpoints)
  }

  predicate Offers(px: Proxy, v: Visit, port: ServicePortName, ip: string) {
    v.port == port && px.ipPart(v.endpoint.str) == ip
  }

  /** The endpoint kept for an IP: the first one offered, unless a local one comes later. */
  function Winner(px: Proxy, vs: seq<Visit>, port: ServicePortName, ip: string): Option<Endpoint> {
    if vs == [] then None
    else
      var before, v := Winner(px, vs[..|vs| - 1], port, ip), vs[|vs| - 1];
      if Offers(px, v, port, ip) && (before.None? || v.endpoint.isLocal) then Some(v.endpoint) else before
  }

  function Ports(vs: seq<Visit>): set<ServicePortName> {
    set v | v in vs :: v.port
  }

  function ByString(): (Endpoint, Endpoint) -> bool {
    (e: Endpoint, f: Endpoint) => StringLess(e.str, f.str)
  }

  ghost predicate StrictlySorted(l: seq<Endpoint>) {
    forall i, j :: 0 <= i < j < |l| ==> StringLess(l[i].str, l[j].str)
  }

  /** `l` lists exactly the winners for the port, by increasing endpoint string. */
  ghost predicate ListsWinners(px: Proxy, vs: seq<Visit>, port: ServicePortName, l: seq<Endpoint>) {
    && StrictlySorted(l)
    && (forall e :: e in l <==> Winner(px, vs, port, px.ipPart(e.str)) == Some(e))
  }

  ghost predicate MapOf(px: Proxy, vs: seq<Visit>, em: EndpointsMap) {
    && em.Keys == Ports(vs)
    && (forall p :: p in em ==> ListsWinners(px, vs, p, em[p]))
  }

  ghost predicate BuildInOrder(px: Proxy, service: NamespacedName, infos: InfoByName, order: seq<string>,
                               em: EndpointsMap) {
    Enumerates(order, infos.Keys) && MapOf(px, Visits(px, service, infos, order), em)
  }

  /** `em` is a map that a build from scratch over these slices can give. */
  ghost predicate IsBuild(px: Proxy, service: NamespacedName, infos: InfoByName, em: EndpointsMap) {
    exists order :: BuildInOrder(px, service, infos, order, em)
  }

  // ---------- what does not depend on the order ----------

  ghost predicate Recorded(px: Proxy, service: NamespacedName, infos: InfoByName, v: Visit) {
    exists n :: n in infos && v in SliceVisits(px, service, infos[n].ports, infos[n].endpoints)
  }

  lemma {:induction false} VisitsAreRecords(px: Proxy, service: NamespacedName, infos: InfoByName, order: seq<string>,
                                            v: Visit)
    requires forall n :: n in order ==> n in infos
    ensures v in Visits(px, service, infos, order) <==>
            exists n :: n in order && v in SliceVisits(px, service, infos[n].ports, infos[n].endpoints)
  {
    if order != [] {
      var front, last := order[..|order| - 1], order[|order| - 1];
      assert order == front + [last];
      VisitsAreRecords(px, service, infos, front, v);
    }
  }

  lemma {:induction false} WinnerIsOffered(px: Proxy, vs: seq<Visit>, port: ServicePortName, ip: string)
    ensures Winner(px, vs, port, ip).Some? <==> exists v :: v in vs && Offers(px, v, port, ip)
    ensures Winner(px, vs, port, ip).Some? ==>
              var e := Winner(px, vs, port, ip).value;
              Visit(port, e) in vs && px.ipPart(e.str) == ip
    ensures Winner(px, vs, port, ip).Some? ==>
              (Winner(px, vs, port, ip).value.isLocal <==>
               exists v :: v in vs && Offers(px, v, port, ip) && v.endpoint.isLocal)
  {
    if vs != [] {
      var front, last := vs[..|vs| - 1], vs[|vs| - 1];
      assert vs == front + [last];
      WinnerIsOffered(px, front, port, ip);
      assert last in vs;
    }
  }

  ghost predicate OfferedAt(px: Proxy, vs: seq<Visit>, port: ServicePortName, ip: string, i: int) {
    0 <= i < |vs| && Offers(px, vs[i], port, ip)
  }

  /** The place of the winner among the visits: the last local offer of the IP if there is one, else the first offer. */
  ghost predicate WinsAt(px: Proxy, vs: seq<Visit>, port: ServicePortName, ip: string, i: int) {
    && OfferedAt(px, vs, port, ip, i)
    && if vs[i].endpoint.isLocal then forall j :: OfferedAt(px, vs, port, ip, j) && vs[j].endpoint.isLocal ==> j <= i
       else forall j :: OfferedAt(px, vs, port, ip, j) ==> i <= j && !vs[j].endpoint.isLocal
  }

  lemma {:induction false} WinnerIsFirstOrLastLocal(px: Proxy, vs: seq<Visit>, port: ServicePortName, ip: string,
                                                    i: int)
    ensures WinsAt(px, vs, port, ip, i) ==> Winner(px, vs, port, ip) == Some(vs[i].endpoint)
    ensures Winner(px, vs, port, ip).Some? ==> exists j :: WinsAt(px, vs, port, ip, j)
  {
    if vs != [] {
      var n := |vs| - 1;
      var front := vs[..n];
      forall j ensures OfferedAt(px, front, port, ip, j) <==> j < n && OfferedAt(px, vs, port, ip, j) {}
      WinnerIsFirstOrLastLocal(px, front, port, ip, i);
      if Winner(px, front, port, ip).Some? {
        var j :| WinsAt(px, front, port, ip, j);
        WinnerIsFirstOrLastLocal(px, front, port, ip, j);
        assert WinsAt(px, vs, port, ip, if Offers(px, vs[n], port, ip) && vs[n].endpoint.isLocal then n else j);
      } else {
        NoneOffered(px, front, port, ip);
        if Offers(px, vs[n], port, ip) {
          assert WinsAt(px, vs, port, ip, n);
        }
      }
    }
  }

  lemma NoneOffered(px: Proxy, vs: seq<Visit>, port: ServicePortName, ip: string)
    requires Winner(px, vs, port, ip).None?
    ensures forall i :: !OfferedAt(px, vs, port, ip, i)
  {
    WinnerIsOffered(px, vs, port, ip);
  }

  lemma {:induction false} PortVisitsNamePort(px: Proxy, name: ServicePortName, portNumber: int,
                                              es: seq<EndpointInfo>, v: Visit)
    requires v in PortVisits(px, name, portNumber, es)
    ensures v.port == name
  {
    if v in PortVisits(px, name, portNumber, es[..|es| - 1]) {
      PortVisitsNamePort(px, name, portNumber, es[..|es| - 1], v);
    }
  }

  lemma {:induction false} SliceVisitsNameService(px: Proxy, service: NamespacedName, ports: seq<EndpointPort>,
                                                  es: seq<EndpointInfo>, v: Visit)
    requires v in SliceVisits(px, service, ports, es)
    ensures v.port.service == service
  {
    var front, p := ports[..|ports| - 1], ports[|ports| - 1];
    if v in SliceVisits(px, service, front, es) {
      SliceVisitsNameService(px, service, front, es, v);
    } else {
      PortVisitsNamePort(px, PortName(service, p), p.port.value, es, v);
    }
  }

  /**
   The IPs listed under a service port, and whether each is local, are those of the records themselves:
   an IP is listed exactly when some record offers it, and is local exactly when some such record is.
   */
  lemma BuildKeepsEveryIP(px: Proxy, service: NamespacedName, infos: InfoByName, em: EndpointsMap,
                          port: ServicePortName, ip: string)
    requires IsBuild(px, service, infos, em)
    ensures (port in em && exists e :: e in em[port] && px.ipPart(e.str) == ip) <==>
            (exists v :: Recorded(px, service, infos, v) && Offers(px, v, port, ip))
    ensures port in em ==> forall e :: e in em[port] && px.ipPart(e.str) == ip ==>
              Recorded(px, service, infos, Visit(port, e))
              && (e.isLocal <==>
                  exists v :: Recorded(px, service, infos, v) && Offers(px, v, port, ip) && v.endpoint.isLocal)
  {
    var order :| BuildInOrder(px, service, infos, order, em);
    var vs := Visits(px, service, infos, order);
    forall v ensures v in vs <==> Recorded(px, service, infos, v) {
      VisitsAreRecords(px, service, infos, order, v);
    }
    WinnerIsOffered(px, vs, port, ip);
    if exists v :: v in vs && Offers(px, v, port, ip) {
      var v :| v in vs && Offers(px, v, port, ip);
      assert v.port in Ports(vs);
      var e := Winner(px, vs, port, ip).value;
      assert e in em[port];
    }
  }

  /** Two builds over the same slices, visited in whatever orders, have the same service ports, all of this service. */
  lemma BuildsHaveSamePorts(px: Proxy, service: NamespacedName, infos: InfoByName, em: EndpointsMap, em': EndpointsMap)
    requires IsBuild(px, service, infos, em) && IsBuild(px, service, infos, em')
    ensures em.Keys == em'.Keys
    ensures forall p :: p in em ==> p.service == service && em[p] != []
  {
    var o :| BuildInOrder(px, service, infos, o, em);
    var o' :| BuildInOrder(px, service, infos, o', em');
    var vs, vs' := Visits(px, service, infos, o), Visits(px, service, infos, o');
    forall v ensures v in vs <==> v in vs' {
      VisitsAreRecords(px, service, infos, o, v);
      VisitsAreRecords(px, service, infos, o', v);
    }
    forall p | p in em ensures p.service == service && em[p] != [] {
      var v :| v in vs && v.port == p;
      VisitsAreRecords(px, service, infos, o, v);
      var n :| n in infos && v in SliceVisits(px, service, infos[n].ports, infos[n].endpoints);
      SliceVisitsNameService(px, service, infos[n].ports, infos[n].endpoints, v);
      WinnerIsOffered(px, vs, p, px.ipPart(v.endpoint.str));
      assert Offers(px, v, p, px.ipPart(v.endpoint.str));
      assert Winner(px, vs, p, px.ipPart(v.endpoint.str)).value in em[p];
    }
  }

  /** A port lists one endpoint per IP. */
  lemma OnePerIP(px: Proxy, service: NamespacedName, infos: InfoByName, em: EndpointsMap, port: ServicePortName,
                 e: Endpoint, f: Endpoint)
    requires IsBuild(px, service, infos, em) && port in em && e in em[port] && f in em[port]
    requires px.ipPart(e.str) == px.ipPart(f.str)
    ensures e == f
  {}

  lemma TailWithoutHead(l: seq<Endpoint>)
    requires l != [] && StrictlySorted(l)
    ensures forall e :: e in l[1..] <==> e in l && e != l[0]
  {
    StringLessTotal(l[0].str, l[0].str);
    assert l == [l[0]] + l[1..];
    forall e | e in l[1..] ensures e != l[0] {
      var i :| 0 <= i < |l[1..]| && l[1..][i] == e;
      assert l[i + 1] == e;
    }
  }

  lemma {:induction false} SortedListsAgree(l: seq<Endpoint>, m: seq<Endpoint>)
    requires StrictlySorted(l) && StrictlySorted(m) && forall e :: e in l <==> e in m
    ensures l == m
  {
    assert (l != [] ==> l[0] in m) && (m != [] ==> m[0] in l);
    if l != [] && m != [] {
      assert l[0] == m[0] by {
        assert l[0] in m && m[0] in l;
        if l[0] != m[0] {
          var i :| 0 <= i < |m| && m[i] == l[0];
          var j :| 0 <= j < |l| && l[j] == m[0];
          StringLessTotal(l[0].str, m[0].str);
        }
      }
      TailWithoutHead(l);
      TailWithoutHead(m);
      SortedListsAgree(l[1..], m[1..]);
    }
  }
}
