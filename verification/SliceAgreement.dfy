/**
 When two builds over the same slices can differ. The slices are visited in an order the Go runtime picks;
 a service port and an IP are settled when every slice that could decide them would keep the same endpoint.
 */
module SliceAgreement {
  import opened Common
  import opened Ordering
  import opened SliceBuild

  /** What the slice alone would keep for the IP. */
  function SliceWinner(px: Proxy, service: NamespacedName, info: SliceInfo, p: ServicePortName, ip: string):
    Option<Endpoint> {
    Winner(px, SliceVisits(px, service, info.ports, info.endpoints), p, ip)
  }

  predicate OffersLocal(px: Proxy, service: NamespacedName, info: SliceInfo, p: ServicePortName, ip: string) {
    var w := SliceWinner(px, service, info, p, ip);
    w.Some? && w.value.isLocal
  }

  /** The slice's own winner wins under some visiting order: it is local, or no slice has a local one. */
  ghost predicate Decides(px: Proxy, service: NamespacedName, infos: InfoByName, n: string, p: ServicePortName,
                          ip: string) {
    && n in infos && SliceWinner(px, service, infos[n], p, ip).Some?
    && (OffersLocal(px, service, infos[n], p, ip) ||
        forall m :: m in infos ==> !OffersLocal(px, service, infos[m], p, ip))
  }

  /** All the slices that could decide what is kept for the IP keep the same endpoint. */
  ghost predicate Settled(px: Proxy, service: NamespacedName, infos: InfoByName, p: ServicePortName, ip: string) {
    forall m, n :: Decides(px, service, infos, m, p, ip) && Decides(px, service, infos, n, p, ip) ==>
      SliceWinner(px, service, infos[m], p, ip) == SliceWinner(px, service, infos[n], p, ip)
  }

  // ---------- the winner is a decider's ----------

  function Combine(a: Option<Endpoint>, b: Option<Endpoint>): Option<Endpoint> {
    if b.None? || (a.Some? && !b.value.isLocal) then a else b
  }

  lemma {:induction false} WinnerOfConcat(px: Proxy, vs: seq<Visit>, ws: seq<Visit>, p: ServicePortName, ip: string)
    ensures Winner(px, vs + ws, p, ip) == Combine(Winner(px, vs, p, ip), Winner(px, ws, p, ip))
  {
    if ws == [] {
      assert vs + ws == vs;
    } else {
      var front := ws[..|ws| - 1];
      assert (vs + ws)[..|vs + ws| - 1] == vs + front;
      WinnerOfConcat(px, vs, front, p, ip);
    }
  }

  function OrderWinner(px: Proxy, service: NamespacedName, infos: InfoByName, order: seq<string>, p: ServicePortName,
                       ip: string): Option<Endpoint>
    requires forall n :: n in order ==> n in infos
  {
    Winner(px, Visits(px, service, infos, order), p, ip)
  }

  lemma OrderWinnerLast(px: Proxy, service: NamespacedName, infos: InfoByName, order: seq<string>, n: string,
                        p: ServicePortName, ip: string)
    requires n in infos && forall m :: m in order ==> m in infos
    ensures OrderWinner(px, service, infos, order + [n], p, ip) ==
            Combine(OrderWinner(px, service, infos, order, p, ip), SliceWinner(px, service, infos[n], p, ip))
  {
    assert (order + [n])[..|order|] == order;
    var more := SliceVisits(px, service, infos[n].ports, infos[n].endpoints);
    WinnerOfConcat(px, Visits(px, service, infos, order), more, p, ip);
  }

  /** `w` is the winner of one of the slices in `order`, and local exactly when one of them has a local winner. */
  ghost predicate WonBySome(px: Proxy, service: NamespacedName, infos: InfoByName, order: seq<string>,
                            p: ServicePortName, ip: string, w: Option<Endpoint>)
    requires forall n :: n in order ==> n in infos
  {
    if w.None? then forall n :: n in order ==> SliceWinner(px, service, infos[n], p, ip).None?
    else
      && (exists n :: n in order && SliceWinner(px, service, infos[n], p, ip) == w)
      && (w.value.isLocal <==> exists n :: n in order && OffersLocal(px, service, infos[n], p, ip))
  }

  lemma {:induction false} OrderWinnerWonBySome(px: Proxy, service: NamespacedName, infos: InfoByName,
                                                order: seq<string>, p: ServicePortName, ip: string)
    requires forall n :: n in order ==> n in infos
    ensures WonBySome(px, service, infos, order, p, ip, OrderWinner(px, service, infos, order, p, ip))
  {
    if order != [] {
      var front, last := order[..|order| - 1], order[|order| - 1];
      assert order == front + [last];
      OrderWinnerWonBySome(px, service, infos, front, p, ip);
      OrderWinnerLast(px, service, infos, front, last, p, ip);
      assert last in order && forall n :: n in front ==> n in order;
    }
  }

  /** Whatever the order, what is kept for an IP is the winner of a slice that decides it. */
  lemma WinnerIsDeciders(px: Proxy, service: NamespacedName, infos: InfoByName, order: seq<string>,
                         p: ServicePortName, ip: string) returns (n: string)
    requires Enumerates(order, infos.Keys) && OrderWinner(px, service, infos, order, p, ip).Some?
    ensures Decides(px, service, infos, n, p, ip)
    ensures SliceWinner(px, service, infos[n], p, ip) == OrderWinner(px, service, infos, order, p, ip)
  {
    OrderWinnerWonBySome(px, service, infos, order, p, ip);
    n :| n in order && SliceWinner(px, service, infos[n], p, ip) == OrderWinner(px, service, infos, order, p, ip);
  }

  // ---------- every decider can win ----------

  lemma EnumerationOf(items: set<string>) returns (order: seq<string>)
    ensures Enumerates(order, items)
  {
    order := [];
    var todo := items;
    while todo != {}
      invariant todo <= items && Enumerates(order, items - todo)
      decreases todo
    {
      var x :| x in todo;
      assert x !in order;
      order, todo := order + [x], todo - {x};
    }
    assert items - {} == items;
  }

  lemma {:induction false} FirstStays(px: Proxy, service: NamespacedName, infos: InfoByName, order: seq<string>,
                                      p: ServicePortName, ip: string)
    requires order != [] && forall n :: n in order ==> n in infos && !OffersLocal(px, service, infos[n], p, ip)
    requires SliceWinner(px, service, infos[order[0]], p, ip).Some?
    ensures OrderWinner(px, service, infos, order, p, ip) == SliceWinner(px, service, infos[order[0]], p, ip)
  {
    var front, last := order[..|order| - 1], order[|order| - 1];
    assert order == front + [last];
    OrderWinnerLast(px, service, infos, front, last, p, ip);
    if front != [] {
      FirstStays(px, service, infos, front, p, ip);
    }
  }

  lemma DeciderCanWin(px: Proxy, service: NamespacedName, infos: InfoByName, n: string, p: ServicePortName,
                      ip: string) returns (order: seq<string>)
    requires Decides(px, service, infos, n, p, ip)
    ensures Enumerates(order, infos.Keys)
    ensures OrderWinner(px, service, infos, order, p, ip) == SliceWinner(px, service, infos[n], p, ip)
  {
    var others := EnumerationOf(infos.Keys - {n});
    if OffersLocal(px, service, infos[n], p, ip) {
      order := others + [n];
      OrderWinnerLast(px, service, infos, others, n, p, ip);
    } else {
      order := [n] + others;
      FirstStays(px, service, infos, order, p, ip);
    }
  }

  // ---------- every order has a build ----------

  lemma {:induction false} InsertStrictly(x: Endpoint, xs: seq<Endpoint>)
    requires StrictlySorted(xs) && forall y :: y in xs ==> y.str != x.str
    ensures StrictlySorted(Insert(x, xs, ByString()))
  {
    if xs != [] {
      StringLessTotal(x.str, xs[0].str);
      if StringLess(x.str, xs[0].str) {
        forall j | 0 < j < |xs| ensures StringLess(x.str, xs[j].str) {
          StringLessTransitive(x.str, xs[0].str, xs[j].str);
        }
      } else {
        assert xs == [xs[0]] + xs[1..];
        InsertStrictly(x, xs[1..]);
        var rest := Insert(x, xs[1..], ByString());
        forall j | 0 <= j < |rest| ensures StringLess(xs[0].str, rest[j].str) {
          assert rest[j] in rest;
        }
      }
    }
  }

  lemma {:induction false} SortedListing(s: set<Endpoint>) returns (l: seq<Endpoint>)
    requires forall e, f :: e in s && f in s && e.str == f.str ==> e == f
    ensures StrictlySorted(l) && forall e :: e in l <==> e in s
    decreases s
  {
    l := [];
    if s != {} {
      var e :| e in s;
      l := SortedListing(s - {e});
      InsertStrictly(e, l);
      l := Insert(e, l, ByString());
    }
  }

  lemma WinnersListed(px: Proxy, vs: seq<Visit>, p: ServicePortName) returns (l: seq<Endpoint>)
    ensures ListsWinners(px, vs, p, l)
  {
    var winners := set v | v in vs && Winner(px, vs, p, px.ipPart(v.endpoint.str)) == Some(v.endpoint) :: v.endpoint;
    l := SortedListing(winners);
    forall e ensures e in l <==> Winner(px, vs, p, px.ipPart(e.str)) == Some(e) {
      WinnerIsOffered(px, vs, p, px.ipPart(e.str));
      if Winner(px, vs, p, px.ipPart(e.str)) == Some(e) {
        assert Visit(p, e).endpoint in winners;
      }
    }
  }

  lemma BuildOf(px: Proxy, service: NamespacedName, infos: InfoByName, order: seq<string>) returns (em: EndpointsMap)
    requires Enumerates(order, infos.Keys)
    ensures BuildInOrder(px, service, infos, order, em)
  {
    var vs := Visits(px, service, infos, order);
    em := map[];
    var todo := Ports(vs);
    while todo != {}
      invariant todo <= Ports(vs) && em.Keys == Ports(vs) - todo
      invariant forall p :: p in em ==> ListsWinners(px, vs, p, em[p])
      decreases todo
    {
      var p :| p in todo;
      var l := WinnersListed(px, vs, p);
      em, todo := em[p := l], todo - {p};
    }
  }

  lemma ListedIffWinner(px: Proxy, service: NamespacedName, infos: InfoByName, order: seq<string>, em: EndpointsMap,
                        p: ServicePortName, e: Endpoint)
    requires BuildInOrder(px, service, infos, order, em)
    ensures p in em && e in em[p] <==> OrderWinner(px, service, infos, order, p, px.ipPart(e.str)) == Some(e)
  {
    WinnerIsOffered(px, Visits(px, service, infos, order), p, px.ipPart(e.str));
  }

  /** Some build lists a decider's winner, and no other endpoint with that IP. */
  lemma DeciderCanBeListed(px: Proxy, service: NamespacedName, infos: InfoByName, n: string, p: ServicePortName,
                           ip: string) returns (em: EndpointsMap)
    requires Decides(px, service, infos, n, p, ip)
    ensures IsBuild(px, service, infos, em)
    ensures p in em && forall e: Endpoint :: px.ipPart(e.str) == ip ==>
              (e in em[p] <==> SliceWinner(px, service, infos[n], p, ip) == Some(e))
  {
    var order := DeciderCanWin(px, service, infos, n, p, ip);
    em := BuildOf(px, service, infos, order);
    var w := SliceWinner(px, service, infos[n], p, ip).value;
    WinnerIsOffered(px, Visits(px, service, infos, order), p, ip);
    forall e: Endpoint
      ensures p in em && e in em[p] <==> OrderWinner(px, service, infos, order, p, px.ipPart(e.str)) == Some(e)
    {
      ListedIffWinner(px, service, infos, order, em, p, e);
    }
    assert w in em[p];
  }

  /** Every listed endpoint is the winner of a slice that decides its IP. */
  lemma ListedIsDeciders(px: Proxy, service: NamespacedName, infos: InfoByName, em: EndpointsMap, p: ServicePortName,
                         e: Endpoint) returns (n: string)
    requires IsBuild(px, service, infos, em) && p in em && e in em[p]
    ensures Decides(px, service, infos, n, p, px.ipPart(e.str))
    ensures SliceWinner(px, service, infos[n], p, px.ipPart(e.str)) == Some(e)
  {
    var order :| BuildInOrder(px, service, infos, order, em);
    ListedIffWinner(px, service, infos, order, em, p, e);
    n := WinnerIsDeciders(px, service, infos, order, p, px.ipPart(e.str));
  }

  // ---------- when builds agree ----------

  lemma SettledListsShare(px: Proxy, service: NamespacedName, infos: InfoByName, em: EndpointsMap, em': EndpointsMap,
                          p: ServicePortName, e: Endpoint)
    requires IsBuild(px, service, infos, em) && IsBuild(px, service, infos, em') && p in em && p in em'
    requires Settled(px, service, infos, p, px.ipPart(e.str)) && e in em[p]
    ensures e in em'[p]
  {
    var ip := px.ipPart(e.str);
    BuildKeepsEveryIP(px, service, infos, em, p, ip);
    BuildKeepsEveryIP(px, service, infos, em', p, ip);
    var f :| f in em'[p] && px.ipPart(f.str) == ip;
    var m := ListedIsDeciders(px, service, infos, em, p, e);
    var n := ListedIsDeciders(px, service, infos, em', p, f);
  }

  /** Exactly when every IP of a service port is settled do all builds give the port the same list. */
  lemma BuildsAgreeIff(px: Proxy, service: NamespacedName, infos: InfoByName, p: ServicePortName)
    ensures (forall ip :: Settled(px, service, infos, p, ip)) <==>
            (forall em, em' :: IsBuild(px, service, infos, em) && IsBuild(px, service, infos, em') && p in em ==>
               p in em' && em[p] == em'[p])
  {
    if forall ip :: Settled(px, service, infos, p, ip) {
      forall em, em' | IsBuild(px, service, infos, em) && IsBuild(px, service, infos, em') && p in em
        ensures p in em' && em[p] == em'[p]
      {
        SettledListsAgree(px, service, infos, em, em', p);
      }
    } else {
      var ip :| !Settled(px, service, infos, p, ip);
      var em, em' := UnsettledBuilds(px, service, infos, p, ip);
    }
  }

  lemma SettledListsAgree(px: Proxy, service: NamespacedName, infos: InfoByName, em: EndpointsMap, em': EndpointsMap,
                          p: ServicePortName)
    requires IsBuild(px, service, infos, em) && IsBuild(px, service, infos, em') && p in em
    requires forall ip :: Settled(px, service, infos, p, ip)
    ensures p in em' && em[p] == em'[p]
  {
    BuildsHaveSamePorts(px, service, infos, em, em');
    forall e ensures e in em[p] <==> e in em'[p] {
      assert Settled(px, service, infos, p, px.ipPart(e.str));
      if e in em[p] { SettledListsShare(px, service, infos, em, em', p, e); }
      if e in em'[p] { SettledListsShare(px, service, infos, em', em, p, e); }
    }
    SortedListsAgree(em[p], em'[p]);
  }

  lemma UnsettledBuilds(px: Proxy, service: NamespacedName, infos: InfoByName, p: ServicePortName, ip: string)
    returns (em: EndpointsMap, em': EndpointsMap)
    requires !Settled(px, service, infos, p, ip)
    ensures IsBuild(px, service, infos, em) && IsBuild(px, service, infos, em')
    ensures p in em && p in em' && em[p] != em'[p]
  {
    var m, n :| Decides(px, service, infos, m, p, ip) && Decides(px, service, infos, n, p, ip)
      && SliceWinner(px, service, infos[m], p, ip) != SliceWinner(px, service, infos[n], p, ip);
    em := DeciderCanBeListed(px, service, infos, m, p, ip);
    em' := DeciderCanBeListed(px, service, infos, n, p, ip);
    var w := SliceWinner(px, service, infos[m], p, ip).value;
    WinnerIsOffered(px, SliceVisits(px, service, infos[m].ports, infos[m].endpoints), p, ip);
    assert w in em[p] && w !in em'[p];
  }
}
