/** internal/agent/mcp_client.go: the cache of MCP clients. The class holds the critical sections, each
    run under the manager's lock; the functions say what one of them does to the state. */
module McpCache {
  import opened Wrappers

  type ClientId = nat

  datatype Retired = Retired(c: ClientId, at: nat)

  /** The fields under the lock, with `closed` listing every client handed to Close so far. */
  datatype Cache = Cache(
    clients: map<string, ClientId>, fingerprints: map<string, string>, lastUsed: map<string, nat>,
    versions: map<string, nat>, retired: seq<Retired>, closed: seq<ClientId>)

  const EMPTY_CACHE := Cache(map[], map[], map[], map[], [], [])

  function VersionOf(s: Cache, key: string): nat { if key in s.versions then s.versions[key] else 0 }

  function Bump(s: Cache, key: string): map<string, nat> { s.versions[key := VersionOf(s, key) + 1] }

  /** A cached client and the fingerprint it was built from. */
  function Entry(s: Cache, key: string): Option<(ClientId, string)> {
    if key in s.clients && key in s.fingerprints then Some((s.clients[key], s.fingerprints[key])) else None
  }

  ghost predicate SameDomains(s: Cache) {
    s.clients.Keys == s.fingerprints.Keys == s.lastUsed.Keys
  }

  /** What every step does to a key: its version never falls, and while it stays the same so does the
      cached client and its fingerprint. */
  ghost predicate Guarded(s: Cache, s': Cache) {
    forall key :: VersionOf(s, key) <= VersionOf(s', key)
               && (VersionOf(s, key) == VersionOf(s', key) ==> Entry(s, key) == Entry(s', key))
  }

  /** What one caller learns of a server and its Secrets outside the lock, and the client built from it. */
  datatype ReadResult = ServerNotFound | Unreadable | Resolved(candidate: ClientId, fingerprint: string)

  // ---------------------------------------------------------------- the critical sections as functions

  function Young(retired: seq<Retired>, now: nat, grace: nat): seq<Retired> {
    if retired == [] then []
    else Young(retired[..|retired| - 1], now, grace) +
         (var r := retired[|retired| - 1]; if now - r.at < grace then [r] else [])
  }

  function Expired(retired: seq<Retired>, now: nat, grace: nat): seq<ClientId> {
    if retired == [] then []
    else Expired(retired[..|retired| - 1], now, grace) +
         (var r := retired[|retired| - 1]; if now - r.at < grace then [] else [r.c])
  }

  /** sweepRetiredLocked */
  function Sweep(s: Cache, now: nat, grace: nat): Cache {
    s.(retired := Young(s.retired, now, grace), closed := s.closed + Expired(s.retired, now, grace))
  }

  datatype Committed = Hit(c: ClientId) | Superseded | Stored(c: ClientId)

  function CommitOutcome(s: Cache, key: string, candidate: ClientId, fingerprint: string, version: nat,
                         yieldToNewer: bool): Committed {
    if key in s.clients && key in s.fingerprints && s.fingerprints[key] == fingerprint then Hit(s.clients[key])
    else if yieldToNewer && VersionOf(s, key) != version then Superseded
    else Stored(candidate)
  }

  /** The end of refresh, from taking the lock: sweep, then reuse, yield or replace. */
  function Commit(s: Cache, key: string, candidate: ClientId, fingerprint: string, version: nat, yieldToNewer: bool,
                  now: nat, grace: nat): Cache {
    var swept := Sweep(s, now, grace);
    match CommitOutcome(s, key, candidate, fingerprint, version, yieldToNewer)
    case Hit(_) => swept.(lastUsed := s.lastUsed[key := now])
    case Superseded => swept
    case Stored(_) =>
      swept.(clients := s.clients[key := candidate], fingerprints := s.fingerprints[key := fingerprint],
             lastUsed := s.lastUsed[key := now], versions := Bump(s, key),
             retired := swept.retired + (if key in s.clients then [Retired(s.clients[key], now)] else []))
  }

  /** Evict: any cached client when `c` is None, and only that client otherwise. */
  function Evict(s: Cache, key: string, c: Option<ClientId>, now: nat): Cache {
    if key !in s.clients then (if c.None? then s.(versions := Bump(s, key)) else s)
    else if c.Some? && s.clients[key] != c.value then s
    else s.(clients := Without(s.clients, key), fingerprints := Without(s.fingerprints, key),
            lastUsed := Without(s.lastUsed, key),
            versions := Bump(s, key), retired := s.retired + [Retired(s.clients[key], now)])
  }

  predicate Idle(s: Cache, key: string, maxIdle: nat, now: nat) {
    key in s.lastUsed && now - s.lastUsed[key] > maxIdle
  }

  function EvictIdleKey(s: Cache, key: string, maxIdle: nat, now: nat): Cache {
    if !Idle(s, key, maxIdle, now) then s
    else
      var s' := if key in s.clients
                then s.(clients := Without(s.clients, key), versions := Bump(s, key),
                        closed := s.closed + [s.clients[key]])
                else s;
      s'.(fingerprints := Without(s.fingerprints, key), lastUsed := Without(s.lastUsed, key))
  }

  /** evictIdle visits the keys in whatever order the map yields them. */
  function EvictIdle(s: Cache, order: seq<string>, maxIdle: nat, now: nat): Cache {
    if order == [] then s
    else EvictIdleKey(EvictIdle(s, order[..|order| - 1], maxIdle, now), order[|order| - 1], maxIdle, now)
  }

  function CachedClients(s: Cache, order: seq<string>): seq<ClientId> {
    if order == [] then []
    else CachedClients(s, order[..|order| - 1]) +
         (if order[|order| - 1] in s.clients then [s.clients[order[|order| - 1]]] else [])
  }

  function RetiredClients(retired: seq<Retired>): seq<ClientId> {
    seq(|retired|, i requires 0 <= i < |retired| => retired[i].c)
  }

  ghost predicate Enumerates(order: seq<string>, keys: set<string>) {
    (forall k :: k in order <==> k in keys) && forall i, j :: 0 <= i < j < |order| ==> order[i] != order[j]
  }

  class MCPClientManager {
    var clients: map<string, ClientId>
    var lastUsed: map<string, nat>
    var fingerprints: map<string, string>
    var versions: map<string, nat>
    var retired: seq<Retired>
    const retireGrace: nat
    ghost var closed: seq<ClientId>

    constructor (grace: nat)
      ensures State() == EMPTY_CACHE && retireGrace == grace
    {
      clients, lastUsed, fingerprints, versions, retired, closed := map[], map[], map[], map[], [], [];
      retireGrace := grace;
    }

    ghost function State(): Cache
      reads this
    {
      Cache(clients, fingerprints, lastUsed, versions, retired, closed)
    }

    method ReadVersion(key: string) returns (version: nat)
      ensures version == VersionOf(State(), key)
    {
      version := if key in versions then versions[key] else 0;
    }

    method SweepRetiredLocked(now: nat)
      modifies this
      ensures State() == Sweep(old(State()), now, retireGrace)
    {
      var kept: seq<Retired> := [];
      ghost var was := closed;
      assert retired[..0] == [];
      for i := 0 to |retired|
        invariant unchanged(this`clients, this`lastUsed, this`fingerprints, this`versions, this`retired)
        invariant kept == Young(retired[..i], now, retireGrace)
        invariant closed == was + Expired(retired[..i], now, retireGrace)
      {
        assert retired[..i + 1][..i] == retired[..i];
        var r := retired[i];
        if now - r.at < retireGrace {
          kept := kept + [r];
        } else {
          closed := closed + [r.c];
        }
      }
      assert retired[..|retired|] == retired;
      retired := kept;
    }

    /** The locked part of refresh. The result is None when a newer state was yielded to. */
    method CommitRefresh(key: string, candidate: ClientId, fingerprint: string, version: nat, yieldToNewer: bool,
                         now: nat)
      returns (c: Option<ClientId>)
      requires clients.Keys == fingerprints.Keys
      modifies this
      ensures State() == Commit(old(State()), key, candidate, fingerprint, version, yieldToNewer, now, retireGrace)
      ensures c == match CommitOutcome(old(State()), key, candidate, fingerprint, version, yieldToNewer)
                   case Hit(cur) => Some(cur)
                   case Superseded => None
                   case Stored(new_) => Some(new_)
    {
      SweepRetiredLocked(now);
      if key in clients && fingerprints[key] == fingerprint {
        lastUsed := lastUsed[key := now];
        return Some(clients[key]);
      }
      var current := if key in versions then versions[key] else 0;
      if yieldToNewer && current != version {
        return None;
      }
      if key in clients {
        retired := retired + [Retired(clients[key], now)];
      }
      clients := clients[key := candidate];
      fingerprints := fingerprints[key := fingerprint];
      lastUsed := lastUsed[key := now];
      versions := versions[key := current + 1];
      return Some(candidate);
    }

    /** Whatever other callers did while this one read and built outside the lock. */
    method Interleave()
      requires SameDomains(State())
      modifies this
      ensures SameDomains(State()) && Guarded(old(State()), State())
    {
    }

    /** One refresh; `mid` is the state in which it took the lock again. A first refresh that replaces an
        entry replaces the one that was there when it began. */
    method Refresh(key: string, read: ReadResult, yieldToNewer: bool, now: nat)
      returns (c: Option<ClientId>, superseded: bool, ghost mid: Cache)
      requires SameDomains(State())
      modifies this
      ensures SameDomains(State()) && Guarded(old(State()), mid)
      ensures c.Some? ==> read.Resolved? && !superseded && Entry(State(), key) == Some((c.value, read.fingerprint))
      ensures c.Some? && yieldToNewer && Entry(State(), key) != Entry(mid, key)
              ==> Entry(mid, key) == Entry(old(State()), key)
      ensures superseded ==> yieldToNewer && c.None? && read.Resolved? && State() == Sweep(mid, now, retireGrace)
      ensures superseded ==> VersionOf(mid, key) != VersionOf(old(State()), key)
      ensures c.None? && !superseded ==>
        !read.Resolved? && State() == if read.ServerNotFound? then Evict(mid, key, None, now) else mid
    {
      hide Sweep, Guarded;
      var version := ReadVersion(key);
      ghost var before := State();
      Interleave();
      mid := State();
      match read
      case ServerNotFound =>
        EvictClient(key, None, now);
        EvictKeepsDomains(mid, key, None, now);
        return None, false, mid;
      case Unreadable =>
        return None, false, mid;
      case Resolved(candidate, fingerprint) =>
        c := CommitRefresh(key, candidate, fingerprint, version, yieldToNewer, now);
        CommitEntry(mid, key, candidate, fingerprint, version, yieldToNewer, now, retireGrace);
        if VersionOf(mid, key) == version { GuardedEntry(before, mid, key); }
        return c, c.None?, mid;
    }

    /** At most two refreshes. An error comes only from a read, and a client returned is the cached one,
        under the fingerprint of what this call read. */
    method GetClient(key: string, first: ReadResult, second: ReadResult, now: nat, later: nat)
      returns (c: Option<ClientId>)
      requires SameDomains(State())
      modifies this
      ensures SameDomains(State())
      ensures c.Some? ==>
        || (first.Resolved? && Entry(State(), key) == Some((c.value, first.fingerprint)))
        || (first.Resolved? && second.Resolved? && Entry(State(), key) == Some((c.value, second.fingerprint)))
      ensures c.None? ==> !first.Resolved? || !second.Resolved?
      ensures !first.Resolved? ==> c.None?
      ensures first.ServerNotFound? ==> key !in clients
    {
      hide Sweep, Guarded;
      var superseded: bool;
      ghost var mid;
      c, superseded, mid := Refresh(key, first, true, now);
      if superseded {
        c, superseded, mid := Refresh(key, second, false, later);
      }
    }

    method EvictClient(key: string, c: Option<ClientId>, now: nat)
      modifies this
      ensures State() == Evict(old(State()), key, c, now)
    {
      var current := if key in versions then versions[key] else 0;
      if key !in clients && c.None? {
        versions := versions[key := current + 1];
        return;
      }
      if key !in clients || (c.Some? && clients[key] != c.value) {
        return;
      }
      var cur := clients[key];
      clients := Without(clients, key);
      fingerprints := Without(fingerprints, key);
      lastUsed := Without(lastUsed, key);
      versions := versions[key := current + 1];
      retired := retired + [Retired(cur, now)];
    }

    method EvictIdleClients(maxIdle: nat, now: nat) returns (ghost order: seq<string>)
      modifies this
      ensures Enumerates(order, old(lastUsed.Keys))
      ensures State() == EvictIdle(old(State()), order, maxIdle, now)
    {
      hide EvictIdle, EvictIdleKey, Enumerates;
      order := [];
      var rest := lastUsed.Keys;
      ghost var all, was := rest, State();
      NothingClosed(was);
      EvictIdleSnoc(was, [], "", maxIdle, now);
      assert all - rest == {};
      while rest != {}
        invariant rest <= all && rest <= lastUsed.Keys
        invariant Enumerates(order, all - rest)
        invariant State() == EvictIdle(was, order, maxIdle, now)
        decreases rest
      {
        var key :| key in rest;
        EnumeratesSnoc(order, all, rest, key);
        EvictIdleSnoc(was, order, key, maxIdle, now);
        rest := rest - {key};
        order := order + [key];
        EvictIdleOne(key, maxIdle, now);
      }
      assert all - rest == all;
    }

    /** The body of evictIdle's loop. */
    method EvictIdleOne(key: string, maxIdle: nat, now: nat)
      requires key in lastUsed
      modifies this
      ensures State() == EvictIdleKey(old(State()), key, maxIdle, now)
      ensures old(lastUsed.Keys) - {key} <= lastUsed.Keys
    {
      if now - lastUsed[key] > maxIdle {
        if key in clients {
          closed := closed + [clients[key]];
          clients := Without(clients, key);
          versions := versions[key := if key in versions then versions[key] + 1 else 1];
        }
        fingerprints := Without(fingerprints, key);
        lastUsed := Without(lastUsed, key);
      }
    }

    /** Closes the cached and the retired clients. The maps are left as they are. */
    method Close() returns (ghost order: seq<string>)
      modifies this
      ensures Enumerates(order, clients.Keys)
      ensures State() == old(State()).(retired := [], closed := old(closed) + CachedClients(old(State()), order)
                                       + RetiredClients(old(retired)))
    {
      order := [];
      var rest := clients.Keys;
      ghost var was := State();
      hide CachedClients, RetiredClients, Enumerates;
      NothingClosed(was);
      assert clients.Keys - rest == {};
      while rest != {}
        invariant rest <= clients.Keys && Enumerates(order, clients.Keys - rest)
        invariant unchanged(this`clients, this`lastUsed, this`fingerprints, this`versions, this`retired)
        invariant closed == was.closed + CachedClients(was, order)
        decreases rest
      {
        var key :| key in rest;
        EnumeratesSnoc(order, clients.Keys, rest, key);
        CachedSnoc(was, order, key);
        rest := rest - {key};
        order := order + [key];
        closed := closed + [clients[key]];
      }
      ghost var cached := closed;
      assert retired[..0] == [];
      for i := 0 to |retired|
        invariant unchanged(this`clients, this`lastUsed, this`fingerprints, this`versions, this`retired)
        invariant closed == cached + RetiredClients(retired[..i])
      {
        RetiredClientsSnoc(retired, i);
        closed := closed + [retired[i].c];
      }
      assert retired[..|retired|] == retired;
      assert clients.Keys - rest == clients.Keys;
      retired := [];
    }
  }

  lemma NothingClosed(s: Cache)
    ensures CachedClients(s, []) == [] && RetiredClients([]) == [] && Enumerates([], {})
  {
  }

  lemma EnumeratesSnoc(order: seq<string>, all: set<string>, rest: set<string>, key: string)
    requires Enumerates(order, all - rest) && key in rest && rest <= all
    ensures Enumerates(order + [key], all - (rest - {key}))
  {
  }

  lemma CachedSnoc(s: Cache, order: seq<string>, key: string)
    requires key in s.clients
    ensures CachedClients(s, order + [key]) == CachedClients(s, order) + [s.clients[key]]
  {
    assert (order + [key])[..|order|] == order;
  }

  lemma RetiredClientsSnoc(retired: seq<Retired>, i: nat)
    requires i < |retired|
    ensures RetiredClients(retired[..i + 1]) == RetiredClients(retired[..i]) + [retired[i].c]
  {
  }

  lemma EvictIdleSnoc(s: Cache, order: seq<string>, key: string, maxIdle: nat, now: nat)
    ensures EvictIdle(s, order + [key], maxIdle, now)
         == EvictIdleKey(EvictIdle(s, order, maxIdle, now), key, maxIdle, now)
    ensures EvictIdle(s, [], maxIdle, now) == s
  {
    assert (order + [key])[..|order|] == order;
  }

  lemma EvictKeepsDomains(s: Cache, key: string, c: Option<ClientId>, now: nat)
    requires SameDomains(s)
    ensures SameDomains(Evict(s, key, c, now))
  {
  }

  lemma GuardedEntry(s: Cache, s': Cache, key: string)
    requires Guarded(s, s') && VersionOf(s, key) == VersionOf(s', key)
    ensures Entry(s, key) == Entry(s', key)
  {
  }

  lemma CommitEntry(s: Cache, key: string, candidate: ClientId, fingerprint: string, version: nat, yieldToNewer: bool,
                    now: nat, grace: nat)
    requires SameDomains(s)
    ensures var s' := Commit(s, key, candidate, fingerprint, version, yieldToNewer, now, grace);
            && SameDomains(s')
            && match CommitOutcome(s, key, candidate, fingerprint, version, yieldToNewer)
               case Hit(c) => Entry(s', key) == Entry(s, key) == Some((c, fingerprint))
               case Superseded => yieldToNewer && VersionOf(s, key) != version && s' == Sweep(s, now, grace)
               case Stored(c) =>
                 Entry(s', key) == Some((c, fingerprint)) && (yieldToNewer ==> VersionOf(s, key) == version)
  {
  }
}
