/** `BasicDockerKeyring`: registry credentials and the reverse-sorted index that Lookup walks. */
module Keyring {
  import opened Common
  import opened Ordering

  datatype Auth = Auth(username: string, password: string, email: string)

  type DockerConfig = map<string, Auth>

  datatype Url = Url(host: string, path: string)

  /**
   URL parsing and glob matching, left to the environment: `matches` is URLsMatchStr, with an error counting as no
   match.
   */
  datatype Urls = Urls(parse: string -> Option<Url>, matches: (string, string) -> bool)

  predicate HasPrefix(s: string, prefix: string) { |prefix| <= |s| && s[..|prefix|] == prefix }

  /** The key a location is filed under, or none when it does not parse. */
  function KeyOf(u: Urls, loc: string): Option<string> {
    var value := if HasPrefix(loc, "https://") || HasPrefix(loc, "http://") then loc else "https://" + loc;
    var parsed := u.parse(value);
    if parsed.None? then None
    else
      var path := parsed.value.path;
      var effective := if HasPrefix(path, "/v2/") || HasPrefix(path, "/v1/") then path[3..] else path;
      Some(if effective != "" && effective != "/" then parsed.value.host + effective else parsed.value.host)
  }

  /** A location with its scheme, https where it gives none. */
  function WithScheme(loc: string): string {
    if "https://" <= loc || "http://" <= loc then loc else "https://" + loc
  }

  /**
   The location parses, and `key` is its host with its path, a leading API version left out; a path that is then empty
   or a mere slash counts for nothing.
   */
  ghost predicate FiledUnder(u: Urls, loc: string, key: string) {
    && u.parse(WithScheme(loc)).Some?
    && var url := u.parse(WithScheme(loc)).value;
       if "/v1/" <= url.path || "/v2/" <= url.path
       then exists rest :: (url.path == "/v1/" + rest || url.path == "/v2/" + rest)
              && key == url.host + if rest == "" then "" else "/" + rest
       else key == url.host + if url.path == "/" then "" else url.path
  }

  lemma KeyOfIff(u: Urls, loc: string, key: string)
    ensures KeyOf(u, loc) == Some(key) <==> FiledUnder(u, loc, key)
  {
    if u.parse(WithScheme(loc)).Some? {
      var url := u.parse(WithScheme(loc)).value;
      if "/v1/" <= url.path || "/v2/" <= url.path {
        var rest := url.path[4..];
        assert url.path == url.path[..4] + rest && url.path[3..] == "/" + rest;
        forall r | url.path == "/v1/" + r || url.path == "/v2/" + r ensures r == rest {
          assert ("/v1/" + r)[4..] == r && ("/v2/" + r)[4..] == r;
        }
        assert url.host + "" == url.host;
      } else {
        assert url.host + "" == url.host;
      }
    }
  }

  type Creds = map<string, seq<Auth>>

  function CredsOf(creds: Creds, key: string): seq<Auth> { if key in creds then creds[key] else [] }

  function AddOne(u: Urls, creds: Creds, loc: string, auth: Auth): Creds {
    var key := KeyOf(u, loc);
    if key.None? then creds else creds[key.value := CredsOf(creds, key.value) + [auth]]
  }

  /** The entries of `cfg` added in the order the map was visited. */
  function AddAll(u: Urls, creds: Creds, cfg: DockerConfig, order: seq<string>): Creds
    requires forall l :: l in order ==> l in cfg
  {
    if order == [] then creds
    else AddOne(u, AddAll(u, creds, cfg, order[..|order| - 1]), order[|order| - 1], cfg[order[|order| - 1]])
  }

  lemma AddAllMore(u: Urls, creds: Creds, cfg: DockerConfig, order: seq<string>, loc: string)
    requires loc in cfg && forall l :: l in order ==> l in cfg
    ensures AddAll(u, creds, cfg, order + [loc]) == AddOne(u, AddAll(u, creds, cfg, order), loc, cfg[loc])
  {
    assert (order + [loc])[..|order|] == order;
  }

  /** Adding keeps what is filed under a key, in front, and files there the entries whose locations say so. */
  lemma {:induction false} AddedCreds(u: Urls, creds: Creds, cfg: DockerConfig, order: seq<string>, key: string,
                                      auth: Auth)
    requires forall l :: l in order ==> l in cfg
    ensures var all := CredsOf(AddAll(u, creds, cfg, order), key);
      && CredsOf(creds, key) <= all
      && (auth in all <==> auth in CredsOf(creds, key)
                           || exists loc :: loc in order && FiledUnder(u, loc, key) && cfg[loc] == auth)
  {
    if order != [] {
      var front, last := order[..|order| - 1], order[|order| - 1];
      assert order == front + [last];
      AddedCreds(u, creds, cfg, front, key, auth);
      KeyOfIff(u, last, key);
    }
  }

  lemma AddedEverywhere(u: Urls, creds: Creds, cfg: DockerConfig, order: seq<string>)
    requires Enumerates(order, cfg.Keys)
    ensures var after := AddAll(u, creds, cfg, order);
      && (forall key :: CredsOf(creds, key) <= CredsOf(after, key))
      && (forall key, auth :: auth in CredsOf(after, key) <==>
            || auth in CredsOf(creds, key)
            || exists loc :: loc in cfg && FiledUnder(u, loc, key) && cfg[loc] == auth)
  {
    var after := AddAll(u, creds, cfg, order);
    forall key ensures CredsOf(creds, key) <= CredsOf(after, key) {
      AddedCreds(u, creds, cfg, order, key, Auth("", "", ""));
    }
    forall key, auth
      ensures auth in CredsOf(after, key) <==>
              || auth in CredsOf(creds, key)
              || exists loc :: loc in cfg && FiledUnder(u, loc, key) && cfg[loc] == auth
    {
      AddedCreds(u, creds, cfg, order, key, auth);
    }
  }

  ghost predicate Descending(index: seq<string>) {
    forall i, j :: 0 <= i < j < |index| ==> StringLess(index[j], index[i])
  }

  /** The index lists every key with credentials, once, in descending order. */
  ghost predicate Indexes(index: seq<string>, creds: Creds) {
    Descending(index) && forall k :: k in index <==> k in creds
  }

  /** A key comes before every other key that is a prefix of it, so the more specific credentials are tried first. */
  lemma SpecificFirst(index: seq<string>, creds: Creds, i: nat, j: nat)
    requires Indexes(index, creds) && i < |index| && j < |index| && index[j] < index[i]
    ensures i < j
  {
    PrefixIsLess(index[j], index[i]);
    StringLessTotal(index[i], index[j]);
  }

  function Collected(u: Urls, index: seq<string>, creds: Creds, image: string): seq<Auth> {
    if index == [] then []
    else
      var k := index[|index| - 1];
      Collected(u, index[..|index| - 1], creds, image) + if u.matches(k, image) then CredsOf(creds, k) else []
  }

  /** Everything filed under a matching key is found, and nothing else. */
  lemma {:induction false} CollectedIsComplete(u: Urls, index: seq<string>, creds: Creds, image: string, auth: Auth)
    ensures auth in Collected(u, index, creds, image) <==>
            exists k :: k in index && u.matches(k, image) && auth in CredsOf(creds, k)
  {
    if index != [] {
      var front, k := index[..|index| - 1], index[|index| - 1];
      assert index == front + [k];
      CollectedIsComplete(u, front, creds, image, auth);
    }
  }

  /** The credentials of two matching keys come out in the order of the index. */
  lemma {:induction false} CollectedInOrder(u: Urls, index: seq<string>, creds: Creds, image: string, i: nat, j: nat)
    requires i < j < |index| && u.matches(index[i], image) && u.matches(index[j], image)
    ensures exists a, b, c ::
              Collected(u, index, creds, image) == a + CredsOf(creds, index[i]) + b + CredsOf(creds, index[j]) + c
  {
    var n := |index| - 1;
    var front := index[..n];
    if j == n {
      var a, b := CollectedAt(u, front, creds, image, i);
      assert Collected(u, index, creds, image) == a + CredsOf(creds, index[i]) + b + CredsOf(creds, index[j]) + [];
    } else {
      CollectedInOrder(u, front, creds, image, i, j);
      var a, b, c :|
        Collected(u, front, creds, image) == a + CredsOf(creds, front[i]) + b + CredsOf(creds, front[j]) + c;
      var more := if u.matches(index[n], image) then CredsOf(creds, index[n]) else [];
      assert Collected(u, index, creds, image) ==
             a + CredsOf(creds, index[i]) + b + CredsOf(creds, index[j]) + (c + more);
    }
  }

  lemma {:induction false} CollectedAt(u: Urls, index: seq<string>, creds: Creds, image: string, i: nat)
    returns (a: seq<Auth>, b: seq<Auth>)
    requires i < |index| && u.matches(index[i], image)
    ensures Collected(u, index, creds, image) == a + CredsOf(creds, index[i]) + b
  {
    var n := |index| - 1;
    if i == n {
      a, b := Collected(u, index[..n], creds, image), [];
    } else {
      a, b := CollectedAt(u, index[..n], creds, image, i);
      b := b + if u.matches(index[n], image) then CredsOf(creds, index[n]) else [];
    }
  }

  /**
   Of two matching keys, one a proper prefix of the other, the credentials of the longer come out before those of the
   shorter.
   */
  lemma SpecificCredentialsFirst(u: Urls, index: seq<string>, creds: Creds, image: string, key: string, prefix: string)
    requires Indexes(index, creds) && key in creds && prefix in creds && prefix < key
    requires u.matches(key, image) && u.matches(prefix, image)
    ensures exists a, b, c :: Collected(u, index, creds, image) == a + creds[key] + b + creds[prefix] + c
  {
    assert key in index && prefix in index;
    var i :| 0 <= i < |index| && index[i] == key;
    var j :| 0 <= j < |index| && index[j] == prefix;
    SpecificFirst(index, creds, i, j);
    CollectedInOrder(u, index, creds, image, i, j);
  }

  // ---------- isDefaultRegistryMatch ----------

  function UpToSlash(s: string): string {
    if s == "" || s[0] == '/' then "" else [s[0]] + UpToSlash(s[1..])
  }

  predicate IsDefaultRegistryMatch(image: string) {
    var first := UpToSlash(image);
    && first != ""
    && (first == image || first == "docker.io" || first == "index.docker.io" || !('.' in first || ':' in first))
  }

  lemma {:induction false} UpToFirstSlash(first: string, rest: string)
    requires '/' !in first
    ensures UpToSlash(first + "/" + rest) == first && UpToSlash(first) == first
  {
    if first != "" {
      UpToFirstSlash(first[1..], rest);
      assert (first + "/" + rest)[1..] == first[1..] + "/" + rest;
      assert first == [first[0]] + first[1..];
    } else {
      assert first + "/" + rest == "/" + rest;
    }
  }

  /** An image without a slash is one of the default registry. */
  lemma BareImageMatches(image: string)
    requires '/' !in image
    ensures IsDefaultRegistryMatch(image) <==> image != ""
  {
    UpToFirstSlash(image, "");
  }

  /** An image with one is if what comes before the slash names Docker Hub, or is no host name and no port. */
  lemma DefaultRegistryIff(first: string, rest: string)
    requires '/' !in first
    ensures IsDefaultRegistryMatch(first + "/" + rest) <==>
            && first != ""
            && (first == "docker.io" || first == "index.docker.io" || ('.' !in first && ':' !in first))
  {
    UpToFirstSlash(first, rest);
    assert '/' in first + "/" + rest by {
      assert (first + "/" + rest)[|first|] == '/';
    }
  }

  const DEFAULT_REGISTRY_HOST := "index.docker.io"

  // ---------- the keyring object ----------

  function Later(): (string, string) -> bool { (a: string, b: string) => StringLess(b, a) }

  lemma LaterIsWeakOrder()
    ensures WeakOrder(Later())
  {
    var less := Later();
    forall x, y, z ensures !(less(x, y) && less(y, x)) && (less(x, z) ==> less(x, y) || less(y, z)) {
      StringLessWeak(z, y, x);
      StringLessWeak(y, x, y);
    }
  }

  /** The duplicate-free, reverse-sorted list of a set of keys. */
  method DescendingList(keys: set<string>) returns (l: seq<string>)
    ensures Descending(l) && forall k :: k in l <==> k in keys
  {
    var unsorted: seq<string> := [];
    var todo := keys;
    while todo != {}
      invariant todo <= keys && forall k :: k in unsorted <==> k in keys && k !in todo
      invariant forall k :: multiset(unsorted)[k] <= 1
      decreases todo
    {
      var k :| k in todo;
      assert k !in unsorted;
      unsorted, todo := unsorted + [k], todo - {k};
    }
    l := Sort(unsorted, Later());
    LaterIsWeakOrder();
    SortSorts(unsorted, Later());
    assert forall k :: k in l <==> k in multiset(l);
    assert forall k :: k in unsorted <==> k in multiset(unsorted);
    forall i, j | 0 <= i < j < |l| ensures StringLess(l[j], l[i]) {
      OnceMeansOnePlace(l, i, j);
      assert !Later()(l[j], l[i]);
      StringLessTotal(l[i], l[j]);
    }
  }

  class BasicDockerKeyring {
    const urls: Urls
    var index: seq<string>
    var creds: Creds

    ghost predicate Valid()
      reads this
    {
      Indexes(index, creds)
    }

    constructor (urls: Urls)
      ensures Valid() && this.urls == urls && creds == map[]
    {
      this.urls, index, creds := urls, [], map[];
    }

    method Add(cfg: DockerConfig) returns (ghost order: seq<string>)
      requires Valid()
      modifies this
      ensures Valid()
      ensures Enumerates(order, cfg.Keys) && creds == AddAll(urls, old(creds), cfg, order)
      ensures forall key :: CredsOf(old(creds), key) <= CredsOf(creds, key)
      ensures forall key, auth :: auth in CredsOf(creds, key) <==>
                || auth in CredsOf(old(creds), key)
                || exists loc :: loc in cfg && FiledUnder(urls, loc, key) && cfg[loc] == auth
    {
      order := [];
      var todo := cfg.Keys;
      while todo != {}
        invariant todo <= cfg.Keys && (forall l :: l in order <==> l in cfg && l !in todo)
        invariant forall i, j :: 0 <= i < j < |order| ==> order[i] != order[j]
        invariant creds == AddAll(urls, old(creds), cfg, order)
        invariant forall k :: k in index <==> k in creds
        decreases todo
      {
        var loc :| loc in todo;
        AddAllMore(urls, old(creds), cfg, order, loc);
        var key := KeyOf(urls, loc);
        if key.Some? {
          creds := creds[key.value := CredsOf(creds, key.value) + [cfg[loc]]];
          index := index + [key.value];
        }
        order, todo := order + [loc], todo - {loc};
      }
      index := DescendingList(set k | k in index);
      AddedEverywhere(urls, old(creds), cfg, order);
    }

    method Lookup(image: string) returns (auths: seq<Auth>, found: bool)
      ensures var all := Collected(urls, index, creds, image);
        if all != [] then auths == all && found
        else if IsDefaultRegistryMatch(image) && "index.docker.io" in creds
        then auths == creds["index.docker.io"] && found
        else auths == [] && !found
    {
      auths := [];
      for i := 0 to |index|
        invariant auths == Collected(urls, index[..i], creds, image)
      {
        assert index[..i + 1][..i] == index[..i];
        if urls.matches(index[i], image) {
          auths := auths + CredsOf(creds, index[i]);
        }
      }
      assert index[..|index|] == index;
      if auths != [] { return auths, true; }
      if IsDefaultRegistryMatch(image) && DEFAULT_REGISTRY_HOST in creds {
        return creds[DEFAULT_REGISTRY_HOST], true;
      }
      return [], false;
    }
  }
}
