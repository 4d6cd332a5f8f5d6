/**
 What the endpoints map lists in Endpoints mode, told from the Endpoints objects alone: which address of which subset,
 under which of its ports, gives each endpoint of a list, and in what order.
 */
module EndpointListing {
  import opened Common
  import opened SliceBuild
  import opened EndpointTracker
  import CT = ChangeTracking

  /** One address of one subset under one of the subset's ports, by their places. */
  datatype Spot = Spot(subset: nat, port: nat, address: nat)

  predicate Before(a: Spot, b: Spot) {
    || a.subset < b.subset
    || (a.subset == b.subset && (a.port < b.port || (a.port == b.port && a.address < b.address)))
  }

  predicate Within(e: Endpoints, a: Spot) {
    && a.subset < |e.subsets| && a.port < |e.subsets[a.subset].ports|
    && a.address < |e.subsets[a.subset].addresses|
  }

  /** The port has the name and protocol and a number, and the address is of the proxy's IP family. */
  predicate Serves(px: Proxy, e: Endpoints, p: ServicePortName, a: Spot) {
    && Within(e, a) && p.service == e.name
    && var port := e.subsets[a.subset].ports[a.port];
       var address := e.subsets[a.subset].addresses[a.address];
       && port.name == p.port && port.protocol == p.protocol && port.port != 0
       && address.ip != "" && px.isIPv6(address.ip) == px.ipv6
  }

  /** The endpoint of the address under the port: ready, and local if the address is on this node. */
  predicate Gives(px: Proxy, e: Endpoints, a: Spot, endpoint: Endpoint)
    requires Within(e, a)
  {
    var port, address := e.subsets[a.subset].ports[a.port], e.subsets[a.subset].addresses[a.address];
    && endpoint.str == px.joinHostPort(address.ip, port.port)
    && (endpoint.isLocal <==> address.nodeName.Some? && address.nodeName.value == px.hostname)
    && endpoint.ready && endpoint.serving && !endpoint.terminating
    && endpoint.topology == map[] && endpoint.zoneHints == {}
  }

  /** `at` has exactly the spots before `end` that serve the port, in order, and `l` the endpoints they give. */
  ghost predicate Spells(px: Proxy, e: Endpoints, p: ServicePortName, end: Spot, at: seq<Spot>, l: seq<Endpoint>) {
    && |at| == |l|
    && (forall i :: 0 <= i < |at| ==> Serves(px, e, p, at[i]) && Gives(px, e, at[i], l[i]))
    && (forall i :: 0 <= i < |at| ==> Before(at[i], end))
    && (forall i, j :: 0 <= i < j < |at| ==> Before(at[i], at[j]))
    && (forall a :: Serves(px, e, p, a) && Before(a, end) ==> a in at)
  }

  lemma {:induction false} ListingConcat(vs: seq<Visit>, ws: seq<Visit>, p: ServicePortName)
    ensures Listing(vs + ws, p) == Listing(vs, p) + Listing(ws, p)
  {
    if ws == [] {
      assert vs + ws == vs;
    } else {
      var n := |ws| - 1;
      ListingConcat(vs, ws[..n], p);
      assert (vs + ws)[..|vs + ws| - 1] == vs + ws[..n];
    }
  }

  /** One spot further: it is added if it serves the port. */
  lemma SpellsNext(px: Proxy, e: Endpoints, p: ServicePortName, end: Spot, at: seq<Spot>, l: seq<Endpoint>,
                   endpoint: Endpoint) returns (at': seq<Spot>)
    requires Spells(px, e, p, end, at, l) && Within(e, end)
    requires Serves(px, e, p, end) ==> Gives(px, e, end, endpoint)
    ensures Spells(px, e, p, end.(address := end.address + 1), at',
                   l + if Serves(px, e, p, end) then [endpoint] else [])
  {
    var next := end.(address := end.address + 1);
    assert forall a :: Before(a, next) <==> Before(a, end) || a == end;
    at' := at;
    if Serves(px, e, p, end) {
      at' := at + [end];
      assert end in at';
    } else {
      assert l + [] == l;
    }
  }

  /** Ends that no spot of the object lies between spell the same. */
  lemma SpellsSame(px: Proxy, e: Endpoints, p: ServicePortName, end: Spot, end': Spot, at: seq<Spot>,
                   l: seq<Endpoint>)
    requires Spells(px, e, p, end, at, l) && forall a :: Within(e, a) ==> (Before(a, end) <==> Before(a, end'))
    ensures Spells(px, e, p, end', at, l)
  {}

  function VisitedAt(px: Proxy, e: Endpoints, i: nat, j: nat, k: nat): seq<Visit>
    requires i < |e.subsets| && j < |e.subsets[i].ports| && k <= |e.subsets[i].addresses|
  {
    var q := e.subsets[i].ports[j];
    if q.port == 0 then []
    else AddressVisits(px, ServicePortName(e.name, q.name, q.protocol), q.port, e.subsets[i].addresses[..k])
  }

  lemma {:induction false} AddressSpots(px: Proxy, e: Endpoints, p: ServicePortName, i: nat, j: nat, k: nat,
                                        at: seq<Spot>, l: seq<Endpoint>) returns (at': seq<Spot>)
    requires i < |e.subsets| && j < |e.subsets[i].ports| && k <= |e.subsets[i].addresses|
    requires Spells(px, e, p, Spot(i, j, 0), at, l)
    ensures Spells(px, e, p, Spot(i, j, k), at', l + Listing(VisitedAt(px, e, i, j, k), p))
    decreases k
  {
    if k == 0 {
      at' := at;
      assert l + [] == l && e.subsets[i].addresses[..0] == [];
    } else {
      at' := AddressSpots(px, e, p, i, j, k - 1, at, l);
      var q, addresses := e.subsets[i].ports[j], e.subsets[i].addresses;
      var spot, before := Spot(i, j, k - 1), l + Listing(VisitedAt(px, e, i, j, k - 1), p);
      var endpoint := AddressEndpoint(px, q.port, addresses[k - 1]);
      at' := SpellsNext(px, e, p, spot, at', before, endpoint);
      assert addresses[..k][..k - 1] == addresses[..k - 1];
      VisitedNext(px, e, p, i, j, k);
      assert l + Listing(VisitedAt(px, e, i, j, k), p) == before + if Serves(px, e, p, spot) then [endpoint] else [];
    }
  }

  lemma VisitedNext(px: Proxy, e: Endpoints, p: ServicePortName, i: nat, j: nat, k: nat)
    requires i < |e.subsets| && j < |e.subsets[i].ports| && 0 < k <= |e.subsets[i].addresses|
    ensures Listing(VisitedAt(px, e, i, j, k), p) == Listing(VisitedAt(px, e, i, j, k - 1), p) +
            if Serves(px, e, p, Spot(i, j, k - 1))
            then [AddressEndpoint(px, e.subsets[i].ports[j].port, e.subsets[i].addresses[k - 1])] else []
  {
    var q, addresses := e.subsets[i].ports[j], e.subsets[i].addresses;
    if q.port != 0 {
      var name, a := ServicePortName(e.name, q.name, q.protocol), addresses[k - 1];
      assert addresses[..k][..k - 1] == addresses[..k - 1] && addresses[..k][k - 1] == a;
      var new_ := if AddressUsable(px, a) then [Visit(name, AddressEndpoint(px, q.port, a))] else [];
      assert VisitedAt(px, e, i, j, k) == VisitedAt(px, e, i, j, k - 1) + new_;
      ListingConcat(VisitedAt(px, e, i, j, k - 1), new_, p);
      assert new_ != [] ==> new_[..0] == [];
      assert Listing(new_, p) == if new_ != [] && name == p then [new_[0].endpoint] else [];
    }
  }

  lemma OnePortSpots(px: Proxy, e: Endpoints, p: ServicePortName, i: nat, j: nat, at: seq<Spot>, l: seq<Endpoint>)
    returns (at': seq<Spot>)
    requires i < |e.subsets| && j < |e.subsets[i].ports| && Spells(px, e, p, Spot(i, j, 0), at, l)
    ensures Spells(px, e, p, Spot(i, j + 1, 0), at', l + Listing(VisitedAt(px, e, i, j, |e.subsets[i].addresses|), p))
  {
    var n := |e.subsets[i].addresses|;
    at' := AddressSpots(px, e, p, i, j, n, at, l);
    SpellsSame(px, e, p, Spot(i, j, n), Spot(i, j + 1, 0), at', l + Listing(VisitedAt(px, e, i, j, n), p));
  }

  /** The list for the port once it has been through the first `j` ports of one subset. */
  function FromPorts(px: Proxy, e: Endpoints, p: ServicePortName, i: nat, j: nat, l: seq<Endpoint>): seq<Endpoint>
    requires i < |e.subsets| && j <= |e.subsets[i].ports|
  {
    if j == 0 then l
    else FromPorts(px, e, p, i, j - 1, l) + Listing(VisitedAt(px, e, i, j - 1, |e.subsets[i].addresses|), p)
  }

  lemma {:induction false} FromPortsListed(px: Proxy, e: Endpoints, p: ServicePortName, i: nat, j: nat,
                                           l: seq<Endpoint>)
    requires i < |e.subsets| && j <= |e.subsets[i].ports|
    ensures FromPorts(px, e, p, i, j, l) ==
            l + Listing(SubsetVisits(px, e.name, e.subsets[i].ports[..j], e.subsets[i].addresses), p)
    decreases j
  {
    if j > 0 {
      FromPortsListed(px, e, p, i, j - 1, l);
      var ports, addresses := e.subsets[i].ports, e.subsets[i].addresses;
      var visits := SubsetVisits(px, e.name, ports[..j - 1], addresses);
      assert ports[..j][..j - 1] == ports[..j - 1] && addresses[..|addresses|] == addresses;
      assert SubsetVisits(px, e.name, ports[..j], addresses) == visits + VisitedAt(px, e, i, j - 1, |addresses|);
      ListingConcat(visits, VisitedAt(px, e, i, j - 1, |addresses|), p);
    }
  }

  lemma {:induction false} PortSpots(px: Proxy, e: Endpoints, p: ServicePortName, i: nat, j: nat,
                                     at: seq<Spot>, l: seq<Endpoint>) returns (at': seq<Spot>)
    requires i < |e.subsets| && j <= |e.subsets[i].ports|
    requires Spells(px, e, p, Spot(i, 0, 0), at, l)
    ensures Spells(px, e, p, Spot(i, j, 0), at', FromPorts(px, e, p, i, j, l))
    decreases j
  {
    if j == 0 {
      at' := at;
    } else {
      at' := PortSpots(px, e, p, i, j - 1, at, l);
      at' := OnePortSpots(px, e, p, i, j - 1, at', FromPorts(px, e, p, i, j - 1, l));
    }
  }

  lemma {:induction false} SubsetSpots(px: Proxy, e: Endpoints, p: ServicePortName, i: nat) returns (at: seq<Spot>)
    requires i <= |e.subsets|
    ensures Spells(px, e, p, Spot(i, 0, 0), at, Listing(ObjectVisits(px, e.name, e.subsets[..i]), p))
    decreases i
  {
    if i == 0 {
      at := [];
    } else {
      at := SubsetSpots(px, e, p, i - 1);
      var visits, s := ObjectVisits(px, e.name, e.subsets[..i - 1]), e.subsets[i - 1];
      at := PortSpots(px, e, p, i - 1, |s.ports|, at, Listing(visits, p));
      var more := SubsetVisits(px, e.name, s.ports, s.addresses);
      FromPortsListed(px, e, p, i - 1, |s.ports|, Listing(visits, p));
      assert s.ports[..|s.ports|] == s.ports;
      SpellsSame(px, e, p, Spot(i - 1, |s.ports|, 0), Spot(i, 0, 0), at, Listing(visits, p) + Listing(more, p));
      ListingConcat(visits, more, p);
      ObjectVisitsMore(px, e.name, e.subsets, i - 1);
    }
  }

  /** `l` lists the endpoints of the port, one for every spot of the object that serves it and in their order. */
  ghost predicate Lists(px: Proxy, e: Endpoints, p: ServicePortName, l: seq<Endpoint>) {
    exists at :: Spells(px, e, p, Spot(|e.subsets|, 0, 0), at, l)
  }

  /** An object's map has exactly the ports that something serves, each with its list. */
  lemma ObjectMapLists(px: Proxy, e: Endpoints, p: ServicePortName)
    ensures var m := CT.TableOf(ObjectMap(px, Some(e)));
      if p in m then m[p] != [] && Lists(px, e, p, m[p]) else Lists(px, e, p, [])
  {
    var at := SubsetSpots(px, e, p, |e.subsets|);
    assert e.subsets[..|e.subsets|] == e.subsets;
    var vs := ObjectVisits(px, e.name, e.subsets);
    if p in Ports(vs) {
      var v :| v in vs && v.port == p;
      VisitedIsListed(vs, v);
    } else {
      NotVisited(vs, p);
    }
  }

  lemma {:induction false} VisitedIsListed(vs: seq<Visit>, v: Visit)
    requires v in vs
    ensures v.endpoint in Listing(vs, v.port)
  {
    if v != vs[|vs| - 1] {
      VisitedIsListed(vs[..|vs| - 1], v);
    }
  }
}
