/**
 * The icon cache of src/services/icon-service.ts. `getIconPath` answers
 * from a map of server ids to public paths when it can; otherwise it looks
 * for the icon file, then downloads and writes it, and memoises the path
 * only when the icon is there. Whatever goes wrong, the answer is the
 * placeholder image, and the placeholder is never memoised.
 *
 * The filesystem and the network are not part of this model: what they
 * answer on one call is an `Outcome`, and the calls a lookup makes are
 * returned as a trace of `IoCall`s.
 */
module Icons {
  import opened Strings
  import Seqs

  /** `iconVersion: string | number | null`. */
  datatype IconVersion = NoVersion | Number(n: int) | Text(s: string)

  /** `${iconVersion || 'default'}`: a falsy version (`null`, `0`, `''`)
      becomes `default`. */
  function VersionText(v: IconVersion): (t: string)
    ensures t != ""
    ensures (v.NoVersion? || v == Number(0) || v == Text("")) ==> t == "default"
    ensures v.Text? && v.s != "" ==> t == v.s
  {
    match v
    case NoVersion => "default"
    case Number(n) => if n == 0 then "default" else IntToString(n)
    case Text(s) => if s == "" then "default" else s
  }

  const IconDirectoryUrl := "/api/icon/"
  const Placeholder := "/images/placeholder.jpeg"
  const RemoteIconUrl := "https://servers-frontend.fivem.net/api/servers/icon/"

  /** `${serverId}_${version}.png`. */
  function IconFileName(serverId: string, v: IconVersion): string {
    serverId + "_" + VersionText(v) + ".png"
  }

  /** The file under `icons/` that holds the icon. */
  function LocalPath(serverId: string, v: IconVersion): string {
    "icons/" + IconFileName(serverId, v)
  }

  /** The path the icon is served under. */
  function PublicPath(serverId: string, v: IconVersion): (p: string)
    ensures p != Placeholder
    ensures IsPrefix(IconDirectoryUrl + serverId + "_", p)
  {
    var p := IconDirectoryUrl + IconFileName(serverId, v);
    Seqs.AppendAssoc(serverId + "_", VersionText(v), ".png");
    Seqs.AppendAssoc(IconDirectoryUrl, serverId, "_");
    PrefixOfConcat(IconDirectoryUrl, serverId + "_", VersionText(v) + ".png");
    assert p[1] == IconDirectoryUrl[1];
    p
  }

  /** `a + b` begins `a + (b + c)`. */
  lemma PrefixOfConcat(a: string, b: string, c: string)
    ensures IsPrefix(a + b, a + (b + c))
  {
    assert (a + (b + c))[..|a + b|] == a + b;
  }

  function IconUrl(serverId: string, v: IconVersion): string {
    RemoteIconUrl + serverId + "/" + VersionText(v) + ".png"
  }

  /** `a` is a prefix of `b`. */
  predicate IsPrefix(a: string, b: string) { |a| <= |b| && b[..|a|] == a }

  /** What `fetch` does: throw, answer with a status that is not ok, or
      answer ok. */
  datatype FetchResult = FetchThrows | NotOk | FetchOk

  /** What the filesystem and the network answer during one lookup. */
  datatype Outcome = Outcome(fileExists: bool, fetch: FetchResult, writeThrows: bool)

  /** The filesystem and network calls of one lookup, in order. */
  datatype IoCall = Access(path: string) | Fetch(url: string) | WriteFile(path: string)

  /** The answer of one lookup, the cache after it, and the calls it made. */
  datatype Resolution = Resolution(path: string, cache: map<string, string>, calls: seq<IoCall>)

  /** `getIconPath(serverId, iconVersion)` against the cache `cache`. */
  function Resolve(cache: map<string, string>, serverId: string, v: IconVersion, o: Outcome): (r: Resolution)
    ensures serverId in cache ==> r == Resolution(cache[serverId], cache, [])
    ensures serverId !in cache && o.fileExists ==>
            r == Resolution(PublicPath(serverId, v), cache[serverId := PublicPath(serverId, v)], [Access(LocalPath(serverId, v))])
    ensures r.path == Placeholder ==> r.cache == cache
    ensures r.path != Placeholder ==> serverId in r.cache && r.cache[serverId] == r.path
  {
    var publicPath := PublicPath(serverId, v);
    var localPath := LocalPath(serverId, v);
    if serverId in cache then Resolution(cache[serverId], cache, [])
    else if o.fileExists then Resolution(publicPath, cache[serverId := publicPath], [Access(localPath)])
    else
      var fetched := [Access(localPath), Fetch(IconUrl(serverId, v))];
      match o.fetch
      case FetchThrows => Resolution(Placeholder, cache, fetched)
      case NotOk => Resolution(Placeholder, cache, fetched)
      case FetchOk =>
        if o.writeThrows then Resolution(Placeholder, cache, fetched + [WriteFile(localPath)])
        else Resolution(publicPath, cache[serverId := publicPath], fetched + [WriteFile(localPath)])
  }

  /** Every entry of the cache is the public path of its own server. */
  predicate WellFormed(cache: map<string, string>) {
    forall id :: id in cache ==> IsPrefix(IconDirectoryUrl + id + "_", cache[id])
  }

  /** The cache only grows: no entry is ever overwritten or removed, at most
      the one for `serverId` is added, and every entry stays the path of its
      server. */
  lemma ResolveGrows(cache: map<string, string>, serverId: string, v: IconVersion, o: Outcome)
    ensures var r := Resolve(cache, serverId, v, o);
            (forall id :: id in cache ==> id in r.cache && r.cache[id] == cache[id])
            && (forall id :: id in r.cache ==> id in cache || id == serverId)
            && (WellFormed(cache) ==> WellFormed(r.cache))
  {
  }

  /** A lookup that is not answered from the cache, and finds no file, asks
      the network; the file is written only after an ok answer; the result is
      the public path exactly when the file existed or was written. */
  lemma ResolveMiss(cache: map<string, string>, serverId: string, v: IconVersion, o: Outcome)
    requires serverId !in cache && !o.fileExists
    ensures var r := Resolve(cache, serverId, v, o);
            |r.calls| >= 2 && r.calls[..2] == [Access(LocalPath(serverId, v)), Fetch(IconUrl(serverId, v))]
            && (WriteFile(LocalPath(serverId, v)) in r.calls <==> o.fetch == FetchOk)
            && (r.path == PublicPath(serverId, v) <==> o.fetch == FetchOk && !o.writeThrows)
            && (r.path != PublicPath(serverId, v) ==> r.path == Placeholder)
  {
    var r := Resolve(cache, serverId, v, o);
    var fetched := [Access(LocalPath(serverId, v)), Fetch(IconUrl(serverId, v))];
    if o.fetch == FetchOk {
      assert r.calls == fetched + [WriteFile(LocalPath(serverId, v))];
      assert (fetched + [WriteFile(LocalPath(serverId, v))])[..2] == fetched;
    } else {
      assert r.calls == fetched;
      assert fetched[0] != WriteFile(LocalPath(serverId, v)) && fetched[1] != WriteFile(LocalPath(serverId, v));
    }
  }

  /** Once a lookup returns a path other than the placeholder, the next
      lookup for that server makes no call and returns the same path, for
      any version and whatever the filesystem and network would answer. */
  lemma SecondLookupHits(cache: map<string, string>, serverId: string, v: IconVersion, o: Outcome, v': IconVersion, o': Outcome)
    requires Resolve(cache, serverId, v, o).path != Placeholder
    ensures var first := Resolve(cache, serverId, v, o);
            Resolve(first.cache, serverId, v', o') == Resolution(first.path, first.cache, [])
  {
  }

  /** The cache after lookups of `servers` in order, lookup `k` meeting the
      outcome `outcomes(k)`. */
  function ResolveAll(cache: map<string, string>, servers: seq<(string, IconVersion)>, outcomes: nat -> Outcome): map<string, string>
    decreases |servers|
  {
    if servers == [] then cache
    else
      var n := |servers| - 1;
      Resolve(ResolveAll(cache, servers[..n], outcomes), servers[n].0, servers[n].1, outcomes(n)).cache
  }

  /** Preloading never overwrites or removes an entry, and keeps every
      entry the public path of its server. */
  lemma {:induction false} ResolveAllGrows(cache: map<string, string>, servers: seq<(string, IconVersion)>, outcomes: nat -> Outcome)
    ensures var r := ResolveAll(cache, servers, outcomes);
            (forall id :: id in cache ==> id in r && r[id] == cache[id])
            && (WellFormed(cache) ==> WellFormed(r))
    decreases |servers|
  {
    if servers != [] {
      var n := |servers| - 1;
      ResolveAllGrows(cache, servers[..n], outcomes);
      ResolveGrows(ResolveAll(cache, servers[..n], outcomes), servers[n].0, servers[n].1, outcomes(n));
    }
  }

  /** Preloading adds entries only for the servers it looks up. */
  lemma {:induction false} ResolveAllKeys(cache: map<string, string>, servers: seq<(string, IconVersion)>, outcomes: nat -> Outcome)
    ensures forall id :: id in ResolveAll(cache, servers, outcomes) ==> id in cache || exists k :: 0 <= k < |servers| && servers[k].0 == id
    decreases |servers|
  {
    if servers != [] {
      var n := |servers| - 1;
      var init := servers[..n];
      ResolveAllKeys(cache, init, outcomes);
      ResolveGrows(ResolveAll(cache, init, outcomes), servers[n].0, servers[n].1, outcomes(n));
      forall id | id in ResolveAll(cache, servers, outcomes) && id !in cache && id != servers[n].0
        ensures exists k :: 0 <= k < |servers| && servers[k].0 == id
      {
        var k :| 0 <= k < |init| && init[k].0 == id;
        assert servers[k] == init[k];
      }
    }
  }

  /** `preloadIcons(servers)` starts every lookup at once: each of them
      checks the cache before any of them has memoised anything, so each
      lookup meets the cache `start` as it was, and memoises its path when it
      finishes. The lookups finish in the order of `servers`. */
  function Settle(start: map<string, string>, servers: seq<(string, IconVersion)>, outcomes: nat -> Outcome): map<string, string>
    decreases |servers|
  {
    if servers == [] then start
    else
      var n := |servers| - 1;
      Memoise(Settle(start, servers[..n], outcomes), start, servers[n].0, servers[n].1, outcomes(n))
  }

  /** The cache `cur` after one lookup that began against `start` finishes. */
  function Memoise(cur: map<string, string>, start: map<string, string>, serverId: string, v: IconVersion, o: Outcome): map<string, string> {
    var r := Resolve(start, serverId, v, o);
    if serverId in start || r.path == Placeholder then cur else cur[serverId := r.path]
  }

  /** The filesystem and network calls of the lookups `preloadIcons` starts,
      each made against the cache `start`, listed lookup by lookup. */
  function SettleCalls(start: map<string, string>, servers: seq<(string, IconVersion)>, outcomes: nat -> Outcome): seq<IoCall>
    decreases |servers|
  {
    if servers == [] then []
    else
      var n := |servers| - 1;
      SettleCalls(start, servers[..n], outcomes) + Resolve(start, servers[n].0, servers[n].1, outcomes(n)).calls
  }

  lemma SettleCallsStep(start: map<string, string>, servers: seq<(string, IconVersion)>, outcomes: nat -> Outcome, k: nat)
    requires k < |servers|
    ensures SettleCalls(start, servers[..k + 1], outcomes)
         == SettleCalls(start, servers[..k], outcomes) + Resolve(start, servers[k].0, servers[k].1, outcomes(k)).calls
  {
    assert servers[..k + 1][..k] == servers[..k];
  }

  lemma SettleStep(start: map<string, string>, servers: seq<(string, IconVersion)>, outcomes: nat -> Outcome, k: nat)
    requires k < |servers|
    ensures Settle(start, servers[..k + 1], outcomes) == Memoise(Settle(start, servers[..k], outcomes), start, servers[k].0, servers[k].1, outcomes(k))
  {
    assert servers[..k + 1][..k] == servers[..k];
  }

  /** Preloading keeps every entry that was there, and keeps every entry
      the public path of its server. */
  lemma {:induction false} SettleGrows(start: map<string, string>, servers: seq<(string, IconVersion)>, outcomes: nat -> Outcome)
    ensures var r := Settle(start, servers, outcomes);
            (forall id :: id in start ==> id in r && r[id] == start[id])
            && (WellFormed(start) ==> WellFormed(r))
    decreases |servers|
  {
    if servers != [] {
      var n := |servers| - 1;
      SettleGrows(start, servers[..n], outcomes);
      var r := Resolve(start, servers[n].0, servers[n].1, outcomes(n));
      if servers[n].0 !in start && r.path != Placeholder {
        assert r.path == PublicPath(servers[n].0, servers[n].1);
      }
    }
  }

  /** Preloading adds entries only for the servers it looks up. */
  lemma {:induction false} SettleKeys(start: map<string, string>, servers: seq<(string, IconVersion)>, outcomes: nat -> Outcome)
    ensures forall id :: id in Settle(start, servers, outcomes) ==> id in start || exists k :: 0 <= k < |servers| && servers[k].0 == id
    decreases |servers|
  {
    if servers != [] {
      var n := |servers| - 1;
      var init := servers[..n];
      SettleKeys(start, init, outcomes);
      forall id | id in Settle(start, servers, outcomes) && id !in start && id != servers[n].0
        ensures exists k :: 0 <= k < |servers| && servers[k].0 == id
      {
        var k :| 0 <= k < |init| && init[k].0 == id;
        assert servers[k] == init[k];
      }
    }
  }

  /** Against a cache that lacks `serverId`, or holds the same entry for it,
      a lookup takes the same branch and gives the same answer. */
  lemma ResolveSameEntry(c1: map<string, string>, c2: map<string, string>, serverId: string, v: IconVersion, o: Outcome)
    requires (serverId in c1 <==> serverId in c2) && (serverId in c1 ==> c1[serverId] == c2[serverId])
    ensures Resolve(c1, serverId, v, o).path == Resolve(c2, serverId, v, o).path
    ensures Resolve(c1, serverId, v, o).calls == Resolve(c2, serverId, v, o).calls
  {
  }

  /** A lookup memoises its answer exactly when it was not answered from the
      cache and is not the placeholder. */
  lemma ResolveCache(cache: map<string, string>, serverId: string, v: IconVersion, o: Outcome)
    ensures var r := Resolve(cache, serverId, v, o);
            r.cache == if serverId in cache || r.path == Placeholder then cache else cache[serverId := r.path]
  {
  }

  /** A lookup against `cur` that agrees with `start` on its server leaves
      what the same lookup begun against `start` memoises into `cur`. */
  lemma SettleSequentialStep(cur: map<string, string>, start: map<string, string>, serverId: string, v: IconVersion, o: Outcome)
    requires serverId in cur <==> serverId in start
    requires serverId in start ==> cur[serverId] == start[serverId]
    ensures Memoise(cur, start, serverId, v, o) == Resolve(cur, serverId, v, o).cache
  {
    ResolveSameEntry(cur, start, serverId, v, o);
    ResolveCache(cur, serverId, v, o);
  }

  /** No two servers share an id. */
  predicate DistinctServers(servers: seq<(string, IconVersion)>) {
    forall i, j :: 0 <= i < j < |servers| ==> servers[i].0 != servers[j].0
  }

  /** When no id repeats, preloading at once leaves the cache that the same
      lookups made one after the other would leave. */
  lemma {:induction false} SettleSequential(start: map<string, string>, servers: seq<(string, IconVersion)>, outcomes: nat -> Outcome)
    requires DistinctServers(servers)
    ensures Settle(start, servers, outcomes) == ResolveAll(start, servers, outcomes)
    decreases |servers|
  {
    if servers != [] {
      var n := |servers| - 1;
      var init := servers[..n];
      var id := servers[n].0;
      assert DistinctServers(init) by {
        forall i, j | 0 <= i < j < |init| ensures init[i].0 != init[j].0 {
          assert init[i] == servers[i] && init[j] == servers[j];
        }
      }
      assert forall k :: 0 <= k < |init| ==> init[k].0 != id by {
        forall k | 0 <= k < |init| ensures init[k].0 != id {
          assert init[k] == servers[k];
        }
      }
      SettleSequential(start, init, outcomes);
      var cur := ResolveAll(start, init, outcomes);
      ResolveAllGrows(start, init, outcomes);
      ResolveAllKeys(start, init, outcomes);
      SettleSequentialStep(cur, start, id, servers[n].1, outcomes(n));
    }
  }

  /** A server listed twice with two versions, both icons on disk: preloading
      at once looks the server up twice and memoises the second path over the
      first, where the lookups made one after the other would have memoised
      the first and answered the second from the cache. */
  lemma SettleDuplicate()
    ensures var servers := [("a", Number(1)), ("a", Number(2))];
            var found := (k: nat) => Outcome(true, FetchOk, false);
            Settle(map[], servers, found) == map["a" := PublicPath("a", Number(2))]
            && ResolveAll(map[], servers, found) == map["a" := PublicPath("a", Number(1))]
            && PublicPath("a", Number(1)) != PublicPath("a", Number(2))
  {
    var servers := [("a", Number(1)), ("a", Number(2))];
    var found := (k: nat) => Outcome(true, FetchOk, false);
    assert servers[..1] == [("a", Number(1))] && servers[..1][..0] == [];
    assert IntToString(1) == "1" && IntToString(2) == "2";
    var p1 := PublicPath("a", Number(1));
    var p2 := PublicPath("a", Number(2));
    assert p1[|p1| - 5] == '1' && p2[|p2| - 5] == '2';
  }

  /** A server listed twice whose icon is not on disk: preloading at once
      makes both lookups miss the cache, so the icon is fetched and written
      twice, where the second of two lookups made one after the other is
      answered from the cache and makes no call. */
  lemma SettleFetchesTwice()
    ensures var servers := [("a", Number(1)), ("a", Number(1))];
            var missing := (k: nat) => Outcome(false, FetchOk, false);
            var once := [Access(LocalPath("a", Number(1))), Fetch(IconUrl("a", Number(1))), WriteFile(LocalPath("a", Number(1)))];
            && SettleCalls(map[], servers, missing) == once + once
            && Resolve(Resolve(map[], "a", Number(1), missing(0)).cache, "a", Number(1), missing(1)).calls == []
  {
    var servers := [("a", Number(1)), ("a", Number(1))];
    assert servers[..1] == [("a", Number(1))] && servers[..1][..0] == [];
  }

  /** The single icon service, with its cache of server ids to paths. */
  class IconService {
    var iconCache: map<string, string>

    constructor()
      ensures iconCache == map[]
    {
      iconCache := map[];
    }

    /** `getIconPath(serverId, iconVersion)`, meeting the outcome `o`. */
    method GetIconPath(serverId: string, iconVersion: IconVersion, o: Outcome) returns (path: string, calls: seq<IoCall>)
      modifies this
      ensures Resolution(path, iconCache, calls) == Resolve(old(iconCache), serverId, iconVersion, o)
    {
      var iconFileName := IconFileName(serverId, iconVersion);
      var localPath := LocalPath(serverId, iconVersion);
      var publicPath := PublicPath(serverId, iconVersion);
      if serverId in iconCache {
        return iconCache[serverId], [];
      }
      calls := [Access(localPath)];
      if o.fileExists {
        iconCache := iconCache[serverId := publicPath];
        return publicPath, calls;
      }
      calls := calls + [Fetch(IconUrl(serverId, iconVersion))];
      if o.fetch == FetchThrows || o.fetch == NotOk {
        return Placeholder, calls;
      }
      calls := calls + [WriteFile(localPath)];
      if o.writeThrows {
        return Placeholder, calls;
      }
      iconCache := iconCache[serverId := publicPath];
      path := publicPath;
    }

    /** `preloadIcons(servers)`: one lookup per server, all begun against the
        cache as it is now; lookup `k` meets `outcomes(k)`. The answers are
        discarded. */
    method PreloadIcons(servers: seq<(string, IconVersion)>, outcomes: nat -> Outcome) returns (calls: seq<IoCall>)
      modifies this
      ensures iconCache == Settle(old(iconCache), servers, outcomes)
      ensures calls == SettleCalls(old(iconCache), servers, outcomes)
    {
      var start := iconCache;
      calls := [];
      for k := 0 to |servers|
        invariant iconCache == Settle(start, servers[..k], outcomes)
        invariant calls == SettleCalls(start, servers[..k], outcomes)
      {
        SettleStep(start, servers, outcomes, k);
        SettleCallsStep(start, servers, outcomes, k);
        var serverId := servers[k].0;
        var lookup := Resolve(start, serverId, servers[k].1, outcomes(k));
        calls := calls + lookup.calls;
        if serverId !in start && lookup.path != Placeholder {
          iconCache := iconCache[serverId := lookup.path];
        }
      }
      assert servers[..|servers|] == servers;
    }
  }
}
