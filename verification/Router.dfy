/**
 The invalidation host router (`internal/proxy/routing.go`): a table keyed by host strings that
 has to agree with what was asked of it, and so with the plain set of registered caches.
 */
module Routers {
  import opened Wrappers
  import opened Text

  datatype CacheId = CacheId(namespace: string, name: string)

  const MARK := "-invalidation."
  const DOMAIN := ".svc.cluster.local"

  function ShortHost(c: CacheId): string { c.name + MARK + c.namespace }

  function FqdnHost(c: CacheId): string { ShortHost(c) + DOMAIN }

  function PurgeKey(c: CacheId): string { c.namespace + "/" + c.name }

  /** Kubernetes namespaces are single DNS labels; names and namespaces hold no colon. */
  ghost predicate WellNamed(c: CacheId) {
    '.' !in c.namespace && '/' !in c.namespace && ':' !in c.namespace && ':' !in c.name
  }

  // ----- hosts identify caches -----

  /** The only place of `x` in `a + [x] + b` when neither side holds it. */
  lemma OnlyAt(a: string, x: char, b: string, k: nat)
    requires k < |a| + 1 + |b|
    ensures (a + [x] + b)[|a|] == x
    ensures x !in b && k > |a| ==> (a + [x] + b)[k] != x
    ensures x !in a && k < |a| ==> (a + [x] + b)[k] != x
  {
    var s := a + [x] + b;
    if k < |a| { assert s[k] == a[k] && a[k] in a; }
    if k > |a| { assert s[k] == b[k - |a| - 1] && b[k - |a| - 1] in b; }
  }

  lemma EqualParts(a: string, x: char, b: string, c: string, d: string)
    requires a + [x] + b == c + [x] + d && |a| == |c|
    ensures a == c && b == d
  {
    var s := a + [x] + b;
    assert a == s[..|a|] && c == s[..|c|] && b == s[|a| + 1..] && d == s[|c| + 1..];
  }

  /** The part after the last dot, and the part before it, are determined. */
  lemma SplitAtLastDot(a: string, b: string, c: string, d: string)
    requires '.' !in b && '.' !in d && a + "." + b == c + "." + d
    ensures a == c && b == d
  {
    OnlyAt(a, '.', b, |c|);
    OnlyAt(c, '.', d, |a|);
    EqualParts(a, '.', b, c, d);
  }

  const BARE := "-invalidation"

  lemma ShortHostParts(c: CacheId)
    ensures ShortHost(c) == (c.name + BARE) + "." + c.namespace
  {
  }

  lemma SuffixCancel(a: string, c: string, suffix: string)
    requires a + suffix == c + suffix
    ensures a == c
  {
    assert a == (a + suffix)[..|a|] && c == (c + suffix)[..|c|];
  }

  lemma ShortHostInjective(c: CacheId, d: CacheId)
    requires '.' !in c.namespace && '.' !in d.namespace && ShortHost(c) == ShortHost(d)
    ensures c == d
  {
    ShortHostParts(c);
    ShortHostParts(d);
    SplitAtLastDot(c.name + BARE, c.namespace, d.name + BARE, d.namespace);
    SuffixCancel(c.name, d.name, BARE);
  }

  lemma FqdnHostInjective(c: CacheId, d: CacheId)
    requires '.' !in c.namespace && '.' !in d.namespace && FqdnHost(c) == FqdnHost(d)
    ensures c == d
  {
    SuffixCancel(ShortHost(c), ShortHost(d), DOMAIN);
    ShortHostInjective(c, d);
  }

  /** A short host is never a fully qualified one. */
  lemma ShortIsNotFqdn(c: CacheId, d: CacheId)
    requires '.' !in c.namespace
    ensures ShortHost(c) != FqdnHost(d)
  {
    ShortHostParts(c);
    var left, right := c.name + BARE, ShortHost(d) + ".svc.cluster";
    assert FqdnHost(d) == right + "." + "local";
    assert left[|left| - 1] == 'n' && right[|right| - 1] == 'r';
    if ShortHost(c) == FqdnHost(d) { SplitAtLastDot(left, c.namespace, right, "local"); }
  }

  lemma SplitAtFirstSlash(a: string, b: string, c: string, d: string)
    requires '/' !in a && '/' !in c && a + "/" + b == c + "/" + d
    ensures a == c && b == d
  {
    OnlyAt(a, '/', b, |c|);
    OnlyAt(c, '/', d, |a|);
    EqualParts(a, '/', b, c, d);
  }

  lemma PurgeKeyInjective(c: CacheId, d: CacheId)
    requires '/' !in c.namespace && '/' !in d.namespace && PurgeKey(c) == PurgeKey(d)
    ensures c == d
  {
    SplitAtFirstSlash(c.namespace, c.name, d.namespace, d.name);
  }

  // ----- which caches could share a host at all -----

  /** The longer name swallows the mark and part of the other's namespace. */
  ghost predicate Nested(c: CacheId, d: CacheId) {
    exists t :: d.name == c.name + MARK + t && c.namespace == t + MARK + d.namespace
  }

  lemma MarkOverlap(k: nat)
    requires 0 < k < |MARK|
    ensures MARK[k] != '-'
  {
    assert MARK[..1] == "-" && MARK[1..] == "invalidation.";
    assert MARK[k] == MARK[1..][k - 1];
  }

  lemma NestedWhenLonger(c: CacheId, d: CacheId)
    requires ShortHost(c) == ShortHost(d) && |c.name| < |d.name|
    ensures Nested(c, d)
  {
    var s, m, n := ShortHost(c), |c.name|, |d.name|;
    assert s[n] == '-' by { assert ShortHost(d)[n] == MARK[0]; }
    if n < m + |MARK| { MarkOverlap(n - m); }
    NestedAt(c, d, s[m + |MARK|..n]);
  }

  lemma NestedAt(c: CacheId, d: CacheId, t: string)
    requires ShortHost(c) == ShortHost(d) && |c.name| + |MARK| <= |d.name|
    requires t == ShortHost(c)[|c.name| + |MARK|..|d.name|]
    ensures Nested(c, d)
  {
    var s, m, n := ShortHost(c), |c.name|, |d.name|;
    assert d.name == s[..n] && c.name == s[..m] && s[m..m + |MARK|] == MARK;
    assert s[..n] == s[..m] + s[m..m + |MARK|] + s[m + |MARK|..n];
    assert c.namespace == s[m + |MARK|..] && s[n..n + |MARK|] == MARK && d.namespace == s[n + |MARK|..];
    assert s[m + |MARK|..] == s[m + |MARK|..n] + s[n..n + |MARK|] + s[n + |MARK|..];
  }

  /** For arbitrary strings: two caches share their short host exactly when one is nested in the other. */
  lemma SameShortHostExactlyWhen(c: CacheId, d: CacheId)
    ensures ShortHost(c) == ShortHost(d) <==> c == d || Nested(c, d) || Nested(d, c)
  {
    if ShortHost(c) == ShortHost(d) {
      if |c.name| < |d.name| {
        NestedWhenLonger(c, d);
      } else if |d.name| < |c.name| {
        NestedWhenLonger(d, c);
      } else {
        var s := ShortHost(c);
        assert c.name == s[..|c.name|] && d.name == s[..|d.name|];
        assert c.namespace == s[|c.name| + |MARK|..] && d.namespace == s[|d.name| + |MARK|..];
      }
    }
    if Nested(c, d) { NestedShares(c, d); }
    if Nested(d, c) { NestedShares(d, c); }
  }

  lemma NestedShares(c: CacheId, d: CacheId)
    requires Nested(c, d)
    ensures ShortHost(c) == ShortHost(d)
  {
    var t :| d.name == c.name + MARK + t && c.namespace == t + MARK + d.namespace;
    assert c.name + MARK + (t + MARK + d.namespace) == (c.name + MARK + t) + MARK + d.namespace;
  }

  /** Such a pair exists, but only with a dot in a namespace. */
  lemma NestedNeedsDot(c: CacheId, d: CacheId)
    requires Nested(c, d)
    ensures '.' in c.namespace
  {
    var t :| d.name == c.name + MARK + t && c.namespace == t + MARK + d.namespace;
    assert c.namespace[|t| + |MARK| - 1] == '.';
  }

  lemma NestedPair()
    ensures Nested(CacheId("x-invalidation.y", "a"), CacheId("y", "a-invalidation.x"))
  {
    assert "x" + MARK + "y" == "x-invalidation.y" && "a" + MARK + "x" == "a-invalidation.x";
  }

  // ----- the port -----

  function StripPort(host: string): string {
    match LastIndexOf(host, ':')
    case None => host
    case Some(i) => host[..i]
  }

  /** Only what follows the last colon is cut off, with the colon. */
  lemma StripPortExactly(host: string)
    ensures ':' !in host ==> StripPort(host) == host
    ensures ':' in host ==> exists port :: ':' !in port && host == StripPort(host) + ":" + port
  {
    hide LastIndexOf;
    if ':' in host {
      var i := LastIndexOf(host, ':').value;
      assert host == host[..i] + ":" + host[i + 1..];
    }
  }

  /** With or without a port, the host is the same. */
  lemma StripPortOf(host: string, port: string)
    requires ':' !in host && ':' !in port
    ensures StripPort(host) == host && StripPort(host + ":" + port) == host
  {
    hide LastIndexOf;
    var s := host + ":" + port;
    assert s[|host|] == ':' && s[|host|] in s;
    OnlyAt(host, ':', port, LastIndexOf(s, ':').value);
  }

  // ----- the table -----

  predicate Hosts(host: string, c: CacheId) { host == ShortHost(c) || host == FqdnHost(c) }

  /** A host belongs to at most one well-named cache. */
  lemma HostOwner(h: string, c: CacheId, d: CacheId)
    requires WellNamed(c) && WellNamed(d) && Hosts(h, c) && Hosts(h, d)
    ensures c == d
  {
    hide ShortHost, FqdnHost;
    if h == ShortHost(c) && h == ShortHost(d) { ShortHostInjective(c, d); }
    else if h == FqdnHost(c) && h == FqdnHost(d) { FqdnHostInjective(c, d); }
    else if h == ShortHost(c) { ShortIsNotFqdn(c, d); }
    else { ShortIsNotFqdn(d, c); }
  }

  datatype Lookup = NotFound | Found(cache: CacheId)

  // ----- what was asked of the router -----

  datatype Op = Reg(cache: CacheId) | Unreg(cache: CacheId) | SetPurge(cache: CacheId, hosts: seq<string>)

  /** The cache a host leads to: that of the last registration under it, unless it was removed since. */
  function Owner(log: seq<Op>, h: string): Option<CacheId> {
    if log == [] then None
    else
      var op := log[|log| - 1];
      if op.SetPurge? || !Hosts(h, op.cache) then Owner(log[..|log| - 1], h)
      else if op.Reg? then Some(op.cache)
      else None
  }

  /** The purge hosts last set under a key and not removed since. */
  function PurgesAt(log: seq<Op>, key: string): seq<string> {
    if log == [] then []
    else
      var op := log[|log| - 1];
      if op.Reg? || PurgeKey(op.cache) != key then PurgesAt(log[..|log| - 1], key)
      else if op.SetPurge? then op.hosts
      else []
  }

  /** The caches registered and not unregistered since. */
  function Registered(log: seq<Op>): set<CacheId> {
    if log == [] then {}
    else
      var op, before := log[|log| - 1], Registered(log[..|log| - 1]);
      if op.Reg? then before + {op.cache} else if op.Unreg? then before - {op.cache} else before
  }

  /** The purge hosts last set for a cache and not removed with it since. */
  function PurgesOf(log: seq<Op>, c: CacheId): seq<string> {
    if log == [] then []
    else
      var op := log[|log| - 1];
      if op.Reg? || op.cache != c then PurgesOf(log[..|log| - 1], c) else if op.SetPurge? then op.hosts else []
  }

  ghost predicate AllWellNamed(log: seq<Op>) { forall i :: 0 <= i < |log| ==> WellNamed(log[i].cache) }

  /** With names as Kubernetes admits them, a host leads to a cache exactly when it is registered under it. */
  lemma {:induction false} OwnerExactlyWhen(log: seq<Op>, h: string, c: CacheId)
    requires AllWellNamed(log)
    ensures c in Registered(log) ==> WellNamed(c)
    ensures Owner(log, h) == Some(c) <==> c in Registered(log) && Hosts(h, c)
  {
    hide ShortHost, FqdnHost, WellNamed, Hosts;
    if log != [] {
      var init, op := log[..|log| - 1], log[|log| - 1];
      OwnerExactlyWhen(init, h, c);
      assert WellNamed(op.cache);
      if c in Registered(init) && Hosts(h, c) && Hosts(h, op.cache) { HostOwner(h, c, op.cache); }
    }
  }

  /** For any names, a host only ever leads to a cache that was registered under it. */
  lemma {:induction false} OwnerWasRegistered(log: seq<Op>, h: string)
    ensures Owner(log, h).Some? ==> Hosts(h, Owner(log, h).value) && Reg(Owner(log, h).value) in log
  {
    if log != [] { OwnerWasRegistered(log[..|log| - 1], h); }
  }

  /** Where no namespace holds a slash, the purge hosts found for a cache are its own. */
  lemma {:induction false} PurgesAreOwn(log: seq<Op>, c: CacheId)
    requires '/' !in c.namespace && forall i :: 0 <= i < |log| ==> '/' !in log[i].cache.namespace
    ensures PurgesAt(log, PurgeKey(c)) == PurgesOf(log, c)
  {
    hide PurgeKey;
    if log != [] {
      var init, op := log[..|log| - 1], log[|log| - 1];
      PurgesAreOwn(init, c);
      if PurgeKey(op.cache) == PurgeKey(c) { PurgeKeyInjective(op.cache, c); }
    }
  }

  // ----- the log, request by request -----

  /** The two hosts of a cache. */
  predicate Names(h: string, c: CacheId) {
    || h == c.name + "-invalidation." + c.namespace
    || h == c.name + "-invalidation." + c.namespace + ".svc.cluster.local"
  }

  /** Request `i` registered `c`, one of whose hosts is `h`, and no later request was about a cache with that host. */
  ghost predicate RegistersAt(log: seq<Op>, h: string, c: CacheId, i: int) {
    && 0 <= i < |log| && log[i] == Reg(c) && Names(h, c)
    && forall j :: i < j < |log| && !log[j].SetPurge? ==> !Names(h, log[j].cache)
  }

  /** For any names: a host leads to a cache exactly if the last request about that host registered it. */
  lemma {:induction false} OwnerIsLast(log: seq<Op>, h: string, c: CacheId)
    ensures Owner(log, h) == Some(c) <==> exists i :: RegistersAt(log, h, c, i)
  {
    hide ShortHost, FqdnHost, Names;
    if log != [] {
      var n := |log| - 1;
      OwnerIsLast(log[..n], h, c);
      HostsAreNames(h, log[n].cache);
      HostsAreNames(h, c);
      forall i | 0 <= i < n && (log[n].SetPurge? || !Names(h, log[n].cache))
        ensures RegistersAt(log, h, c, i) <==> RegistersAt(log[..n], h, c, i)
      {
        assert forall j :: 0 <= j < n ==> log[..n][j] == log[j];
      }
      if log[n] == Reg(c) && Names(h, c) { assert RegistersAt(log, h, c, n); }
    }
  }

  lemma HostsAreNames(h: string, c: CacheId)
    ensures Hosts(h, c) <==> Names(h, c)
  {
  }

  /** Request `i` set these purge hosts for a cache with that key, and no later one set or removed them. */
  ghost predicate SetsAt(log: seq<Op>, key: string, hosts: seq<string>, i: int) {
    && 0 <= i < |log| && log[i].SetPurge? && log[i].hosts == hosts && HasKey(log[i].cache, key)
    && forall j :: i < j < |log| && !log[j].Reg? ==> !HasKey(log[j].cache, key)
  }

  predicate HasKey(c: CacheId, key: string) { key == c.namespace + "/" + c.name }

  /** Purge hosts are found exactly if the last request about their key set them. */
  lemma {:induction false} PurgesAreLast(log: seq<Op>, key: string, hosts: seq<string>)
    requires hosts != []
    ensures PurgesAt(log, key) == hosts <==> exists i :: SetsAt(log, key, hosts, i)
  {
    hide HasKey;
    if log != [] {
      var n := |log| - 1;
      PurgesAreLast(log[..n], key, hosts);
      assert PurgeKey(log[n].cache) == key <==> HasKey(log[n].cache, key) by { KeyIs(log[n].cache, key); }
      forall i | 0 <= i < n && (log[n].Reg? || !HasKey(log[n].cache, key))
        ensures SetsAt(log, key, hosts, i) <==> SetsAt(log[..n], key, hosts, i)
      {
        assert forall j :: 0 <= j < n ==> log[..n][j] == log[j];
      }
      if log[n].SetPurge? && log[n].hosts == hosts && HasKey(log[n].cache, key) { assert SetsAt(log, key, hosts, n); }
    }
  }

  lemma KeyIs(c: CacheId, key: string)
    ensures PurgeKey(c) == key <==> HasKey(c, key)
  {
  }

  ghost predicate RegisteredAt(log: seq<Op>, c: CacheId, i: int) {
    0 <= i < |log| && log[i] == Reg(c) && forall j :: i < j < |log| ==> log[j] != Unreg(c)
  }

  /** A cache counts as registered exactly if it was, and was not unregistered since. */
  lemma {:induction false} RegisteredIsLast(log: seq<Op>, c: CacheId)
    ensures c in Registered(log) <==> exists i :: RegisteredAt(log, c, i)
  {
    if log != [] {
      var n := |log| - 1;
      RegisteredIsLast(log[..n], c);
      forall i | 0 <= i < n && log[n] != Unreg(c) ensures RegisteredAt(log, c, i) <==> RegisteredAt(log[..n], c, i) {
        assert forall j :: 0 <= j < n ==> log[..n][j] == log[j];
      }
      if log[n] == Reg(c) { assert RegisteredAt(log, c, n); }
    }
  }

  // ----- the object -----

  /** The table and the log agree. */
  ghost predicate Answers(routes: map<string, CacheId>, log: seq<Op>) {
    forall h :: Owner(log, h) == if h in routes then Some(routes[h]) else None
  }

  ghost predicate Purges(table: map<string, seq<string>>, log: seq<Op>) {
    forall key :: PurgesAt(log, key) == if key in table then table[key] else []
  }

  ghost predicate Suggested(registered: set<CacheId>, bare: string, h: string) {
    exists c :: c in registered && c.name + BARE == bare && h == ShortHost(c)
  }

  /** The host leads to a cache of that bare name, under its short form. */
  predicate Listed(log: seq<Op>, bare: string, h: string) {
    && Owner(log, h).Some?
    && Owner(log, h).value.name + BARE == bare && h == ShortHost(Owner(log, h).value)
  }

  /** With names as Kubernetes admits them, those are the short hosts of the registered caches of that name. */
  lemma ListedAreSuggested(log: seq<Op>, bare: string, h: string)
    requires AllWellNamed(log)
    ensures Listed(log, bare, h) <==> Suggested(Registered(log), bare, h)
  {
    hide ShortHost, FqdnHost, Owner, Registered, AllWellNamed;
    if Owner(log, h).Some? { OwnerExactlyWhen(log, h, Owner(log, h).value); }
    if c :| c in Registered(log) && c.name + BARE == bare && h == ShortHost(c) { OwnerExactlyWhen(log, h, c); }
  }

  class RegisteredRouter {
    var routes: map<string, CacheId>
    var purgeHosts: map<string, seq<string>>
    /** Everything asked of the router so far. */
    ghost var log: seq<Op>

    ghost predicate Valid()
      reads this
    {
      Answers(routes, log) && Purges(purgeHosts, log)
    }

    constructor ()
      ensures Valid() && log == []
    {
      routes, purgeHosts, log := map[], map[], [];
    }

    method Register(namespace: string, name: string)
      requires Valid()
      modifies this
      ensures Valid() && log == old(log) + [Reg(CacheId(namespace, name))]
    {
      hide ShortHost, FqdnHost, PurgeKey;
      var entry := CacheId(namespace, name);
      routes := routes[ShortHost(entry) := entry];
      routes := routes[FqdnHost(entry) := entry];
      log := log + [Reg(entry)];
      assert log[..|log| - 1] == old(log);
    }

    method Unregister(namespace: string, name: string)
      requires Valid()
      modifies this
      ensures Valid() && log == old(log) + [Unreg(CacheId(namespace, name))]
    {
      hide ShortHost, FqdnHost, PurgeKey;
      var entry := CacheId(namespace, name);
      routes := routes - {ShortHost(entry), FqdnHost(entry)};
      purgeHosts := purgeHosts - {PurgeKey(entry)};
      log := log + [Unreg(entry)];
      assert log[..|log| - 1] == old(log);
    }

    method SetPurgeHosts(namespace: string, name: string, hosts: seq<string>)
      requires Valid()
      modifies this
      ensures Valid() && log == old(log) + [SetPurge(CacheId(namespace, name), hosts)]
    {
      hide PurgeKey;
      var c := CacheId(namespace, name);
      log := log + [SetPurge(c, hosts)];
      assert log[..|log| - 1] == old(log);
      if |hosts| == 0 {
        purgeHosts := purgeHosts - {PurgeKey(c)};
        return;
      }
      purgeHosts := purgeHosts[PurgeKey(c) := hosts];
    }

    /** The hosts last set under the cache's key; its own where no namespace holds a slash. */
    method PurgeHosts(namespace: string, name: string) returns (hosts: seq<string>)
      requires Valid()
      ensures hosts == PurgesAt(log, PurgeKey(CacheId(namespace, name)))
      ensures '/' !in namespace && (forall i :: 0 <= i < |log| ==> '/' !in log[i].cache.namespace) ==>
        hosts == PurgesOf(log, CacheId(namespace, name))
    {
      hide PurgesAt, PurgesOf;
      var key := PurgeKey(CacheId(namespace, name));
      hosts := if key in purgeHosts then purgeHosts[key] else [];
      if '/' !in namespace && forall i :: 0 <= i < |log| ==> '/' !in log[i].cache.namespace {
        PurgesAreOwn(log, CacheId(namespace, name));
      }
    }

    /**
     The cache last registered under the host, port aside. With names as Kubernetes admits them: a
     host is routed exactly when it is the short or qualified host of a registered cache, to it.
     */
    method LookupHost(host: string) returns (r: Lookup)
      requires Valid()
      ensures r == match Owner(log, StripPort(host)) case None => NotFound case Some(c) => Found(c)
      ensures AllWellNamed(log) ==>
        forall c :: r == Found(c) <==> c in Registered(log) && Hosts(StripPort(host), c)
    {
      hide ShortHost, FqdnHost, StripPort, Owner, Registered, AllWellNamed;
      var h := StripPort(host);
      if h in routes {
        r := Found(routes[h]);
      } else {
        r := NotFound;
      }
      if AllWellNamed(log) {
        forall c ensures r == Found(c) <==> c in Registered(log) && Hosts(h, c) { OwnerExactlyWhen(log, h, c); }
      }
    }

    /** The short hosts leading to caches whose bare service name was asked for, sorted, each once. */
    method Suggest(host: string) returns (hosts: seq<string>)
      requires Valid()
      ensures Sorted(hosts)
      ensures forall h :: multiset(hosts)[h] == (if Listed(log, StripPort(host), h) then 1 else 0)
      ensures AllWellNamed(log) ==>
        forall h :: multiset(hosts)[h] == (if Suggested(Registered(log), StripPort(host), h) then 1 else 0)
    {
      hide StripPort, Sorted, StringLe, FqdnHost, ShortHost, Owner, Registered, AllWellNamed, Suggested;
      var bareHost := StripPort(host);
      var found: seq<string> := [];
      var rest := routes.Keys;
      while rest != {}
        invariant rest <= routes.Keys
        invariant forall h :: multiset(found)[h] == (if h !in rest && Listed(log, bareHost, h) then 1 else 0)
        decreases |rest|
      {
        var h :| h in rest;
        var e := routes[h];
        if bareHost == e.name + BARE && h == ShortHost(e) {
          found := found + [h];
        }
        rest := rest - {h};
      }
      hosts := SortStrings(found);
      if AllWellNamed(log) {
        forall h ensures Listed(log, bareHost, h) <==> Suggested(Registered(log), bareHost, h) {
          ListedAreSuggested(log, bareHost, h);
        }
      }
    }
  }

  // ----- suggestions -----

  /** Order of strings by their characters. */
  predicate StringLe(a: string, b: string) {
    a == [] || (b != [] && (a[0] < b[0] || (a[0] == b[0] && StringLe(a[1..], b[1..]))))
  }

  lemma {:induction false} StringLeTotal(a: string, b: string)
    ensures StringLe(a, b) || StringLe(b, a)
  {
    if a != [] && b != [] && a[0] == b[0] { StringLeTotal(a[1..], b[1..]); }
  }

  /** The order: a beginning of the other, or smaller where they first differ. */
  lemma {:induction false} StringLeExactlyWhen(a: string, b: string)
    ensures StringLe(a, b) <==> a <= b || exists k :: FirstSmaller(a, b, k)
  {
    if a != [] && b != [] && a[0] == b[0] {
      StringLeExactlyWhen(a[1..], b[1..]);
      assert forall k :: FirstSmaller(a[1..], b[1..], k) ==> FirstSmaller(a, b, k + 1);
      assert forall k :: FirstSmaller(a, b, k) ==> k > 0 && FirstSmaller(a[1..], b[1..], k - 1);
      assert a <= b <==> a[1..] <= b[1..];
    } else if a != [] && b != [] {
      assert a[0] < b[0] ==> FirstSmaller(a, b, 0);
    }
  }

  ghost predicate FirstSmaller(a: string, b: string, k: int) {
    0 <= k < |a| && k < |b| && a[k] < b[k] && a[..k] == b[..k]
  }

  lemma {:induction false} StringLeTransitive(a: string, b: string, c: string)
    requires StringLe(a, b) && StringLe(b, c)
    ensures StringLe(a, c)
  {
    if a != [] && a[0] == b[0] == c[0] { StringLeTransitive(a[1..], b[1..], c[1..]); }
  }

  ghost predicate Sorted(s: seq<string>) { forall i, j :: 0 <= i < j < |s| ==> StringLe(s[i], s[j]) }

  function InsertSorted(x: string, s: seq<string>): seq<string> {
    if s == [] || StringLe(x, s[0]) then [x] + s else [s[0]] + InsertSorted(x, s[1..])
  }

  lemma {:induction false} InsertAdds(x: string, s: seq<string>)
    ensures multiset(InsertSorted(x, s)) == multiset(s) + multiset{x}
  {
    hide StringLe;
    if s != [] && !StringLe(x, s[0]) {
      InsertAdds(x, s[1..]);
      assert s == [s[0]] + s[1..];
    }
  }

  lemma {:induction false} InsertKeepsOrder(x: string, s: seq<string>)
    requires Sorted(s)
    ensures Sorted(InsertSorted(x, s))
  {
    hide StringLe;
    if s == [] {
    } else if StringLe(x, s[0]) {
      forall j | 0 < j < |s| ensures StringLe(x, s[j]) { StringLeTransitive(x, s[0], s[j]); }
    } else {
      InsertKeepsOrder(x, s[1..]);
      StringLeTotal(x, s[0]);
      var t := InsertSorted(x, s[1..]);
      forall j | 0 <= j < |t| ensures StringLe(s[0], t[j]) { InsertedAbove(x, s, t[j]); }
    }
  }

  lemma InsertedAbove(x: string, s: seq<string>, y: string)
    requires s != [] && Sorted(s) && StringLe(s[0], x) && y in InsertSorted(x, s[1..])
    ensures StringLe(s[0], y)
  {
    hide StringLe, InsertSorted;
    InsertAdds(x, s[1..]);
    assert y in multiset(InsertSorted(x, s[1..]));
    if y != x {
      var k :| 0 <= k < |s[1..]| && s[1..][k] == y;
      assert s[k + 1] == y;
    }
  }

  method SortStrings(xs: seq<string>) returns (r: seq<string>)
    ensures Sorted(r) && multiset(r) == multiset(xs)
  {
    hide StringLe, InsertSorted;
    r := [];
    for i := 0 to |xs|
      invariant Sorted(r) && multiset(r) == multiset(xs[..i])
    {
      InsertAdds(xs[i], r);
      InsertKeepsOrder(xs[i], r);
      r := InsertSorted(xs[i], r);
      assert xs[..i + 1] == xs[..i] + [xs[i]];
    }
    assert xs[..|xs|] == xs;
  }

  // ----- the published address -----

  const INVALIDATION_PORT := "8090"

  /** Host and port of the address published in the status. */
  function InvalidationAuthority(c: CacheId): string { c.name + MARK + c.namespace + ":" + INVALIDATION_PORT }

  /** The published address routes back to its own cache, and to no other. */
  lemma PublishedAddressRoutesBack(c: CacheId, d: CacheId)
    requires WellNamed(c) && WellNamed(d)
    ensures InvalidationAuthority(c) == c.name + "-invalidation." + c.namespace + ":8090"
    ensures Names(StripPort(InvalidationAuthority(c)), d) <==> c == d
  {
    hide StripPort;
    NoColon(c);
    assert ':' !in INVALIDATION_PORT;
    assert ShortHost(c) + ":" + INVALIDATION_PORT == InvalidationAuthority(c);
    StripPortOf(ShortHost(c), INVALIDATION_PORT);
    HostsAreNames(ShortHost(c), d);
    if Hosts(ShortHost(c), d) { HostOwner(ShortHost(c), c, d); }
  }

  lemma NoColon(c: CacheId)
    requires WellNamed(c)
    ensures ':' !in ShortHost(c) && ':' !in FqdnHost(c)
  {
    assert ':' !in MARK && ':' !in DOMAIN;
  }

  /** A cache just registered is found under both hosts, with and without a port, whatever was asked before. */
  lemma FoundWithAnyPort(log: seq<Op>, c: CacheId, h: string, port: string)
    requires Names(h, c) && ':' !in c.name && ':' !in c.namespace && ':' !in port
    ensures var now := log + [Reg(c)];
      Owner(now, StripPort(h)) == Some(c) && Owner(now, StripPort(h + ":" + port)) == Some(c)
  {
    hide StripPort, Owner;
    assert ':' !in "-invalidation." && ':' !in ".svc.cluster.local";
    StripPortOf(h, port);
    assert RegistersAt(log + [Reg(c)], h, c, |log|);
    OwnerIsLast(log + [Reg(c)], h, c);
  }
}
