/** All interleavings of GetClient calls, evictions and idle sweeps over the MCP client cache. Reads of
    the MCPServer and builds happen outside the lock, so each is a step of its own. */
module McpCacheRuns {
  import opened Wrappers
  import opened Ordering
  import opened McpCache
  import opened Text

  /** Where a GetClient call stands. `first` is yieldToNewer. `seen` is what was cached when the refresh
      began: the code does not keep it, but the claims below speak of it. */
  datatype Call =
    | Began(key: string, first: bool, version: nat, seen: Option<(ClientId, string)>)
    | Built(key: string, first: bool, version: nat, seen: Option<(ClientId, string)>, candidate: ClientId,
            fingerprint: string)
    | Gone(key: string)     // the read said NotFound; the eviction is still to come
    | Yielded(key: string)  // the first refresh reported superseded
    | Failed(key: string)
    | Returned(key: string, c: ClientId, fingerprint: string)

  /** An MCPServer as it is stored; `config` stands for all that the factory resolves from it. */
  datatype ServerObject = ServerObject(config: string, uid: string)

  function FingerprintOf(o: ServerObject): string { o.config + "|" + o.uid }

  /** `made` are the clients the factory has built, `stored` those that ever entered the cache. */
  datatype System = System(cache: Cache, servers: map<string, ServerObject>, calls: map<nat, Call>,
                           made: set<ClientId>, stored: set<ClientId>, clock: nat)

  const INITIAL := System(EMPTY_CACHE, map[], map[], {}, {}, 0)

  datatype Event =
    | GetClient(call: nat, key: string)
    | ReadNotFound(call: nat)
    | EvictGone(call: nat)
    | ReadOrBuildFails(call: nat)
    | Build(call: nat, candidate: ClientId)  // reads the server as it is now
    | CommitCall(call: nat)
    | BeginAgain(call: nat)
    | EvictClient(key: string, c: Option<ClientId>)
    | IdleSweep(maxIdle: nat, order: seq<string>)
    | Tick(elapsed: nat)
    | ServerChanges(key: string, stored: Option<ServerObject>)

  ghost predicate Enabled(m: System, e: Event) {
    match e
    case GetClient(call, _) => call !in m.calls
    case ReadNotFound(call) => call in m.calls && m.calls[call].Began? && m.calls[call].key !in m.servers
    case EvictGone(call) => call in m.calls && m.calls[call].Gone?
    case ReadOrBuildFails(call) => call in m.calls && m.calls[call].Began?
    case Build(call, candidate) =>
      call in m.calls && m.calls[call].Began? && m.calls[call].key in m.servers && candidate !in m.made
    case CommitCall(call) => call in m.calls && m.calls[call].Built?
    case BeginAgain(call) => call in m.calls && m.calls[call].Yielded?
    case EvictClient(_, _) => true
    case IdleSweep(_, order) => Enumerates(order, m.cache.lastUsed.Keys)
    case Tick(_) => true
    case ServerChanges(_, _) => true
  }

  function Begin(m: System, call: nat, key: string, first: bool): System {
    m.(calls := m.calls[call := Began(key, first, VersionOf(m.cache, key), Entry(m.cache, key))])
  }

  function CommitStep(m: System, call: nat, b: Call, grace: nat): System
    requires b.Built?
  {
    var cache' := Commit(m.cache, b.key, b.candidate, b.fingerprint, b.version, b.first, m.clock, grace);
    match CommitOutcome(m.cache, b.key, b.candidate, b.fingerprint, b.version, b.first)
    case Hit(c) => m.(cache := cache', calls := m.calls[call := Returned(b.key, c, b.fingerprint)])
    case Superseded => m.(cache := cache', calls := m.calls[call := Yielded(b.key)])
    case Stored(c) => m.(cache := cache', calls := m.calls[call := Returned(b.key, c, b.fingerprint)],
                         stored := m.stored + {c})
  }

  ghost function Apply(m: System, e: Event, grace: nat): System
    requires Enabled(m, e)
  {
    match e
    case GetClient(call, key) => Begin(m, call, key, true)
    case ReadNotFound(call) => m.(calls := m.calls[call := Gone(m.calls[call].key)])
    case EvictGone(call) =>
      m.(cache := Evict(m.cache, m.calls[call].key, None, m.clock), calls := m.calls[call := Failed(m.calls[call].key)])
    case ReadOrBuildFails(call) => m.(calls := m.calls[call := Failed(m.calls[call].key)])
    case Build(call, candidate) =>
      var b := m.calls[call];
      m.(calls := m.calls[call := Built(b.key, b.first, b.version, b.seen, candidate, FingerprintOf(m.servers[b.key]))],
         made := m.made + {candidate})
    case CommitCall(call) => CommitStep(m, call, m.calls[call], grace)
    case BeginAgain(call) => Begin(m, call, m.calls[call].key, false)
    case EvictClient(key, c) => m.(cache := Evict(m.cache, key, c, m.clock))
    case IdleSweep(maxIdle, order) => m.(cache := EvictIdle(m.cache, order, maxIdle, m.clock))
    case Tick(elapsed) => m.(clock := m.clock + elapsed)
    case ServerChanges(key, stored) =>
      m.(servers := if stored.Some? then m.servers[key := stored.value] else Without(m.servers, key))
  }

  ghost predicate IsRun(ms: seq<System>, es: seq<Event>, grace: nat) {
    && |ms| == |es| + 1 && ms[0] == INITIAL
    && forall i :: 0 <= i < |es| ==> Enabled(ms[i], es[i]) && ms[i + 1] == Apply(ms[i], es[i], grace)
  }

  // ---------------------------------------------------------------- ownership

  ghost predicate IsCached(s: Cache, c: ClientId) {
    exists key :: key in s.clients && s.clients[key] == c
  }

  ghost predicate IsRetired(s: Cache, c: ClientId) {
    c in RetiredClients(s.retired)
  }

  /** Each client ever stored is in exactly one place: cached under one key, retired once, or handed to
      Close once. */
  ghost predicate Owned(s: Cache, stored: set<ClientId>) {
    && (forall k, k' :: k in s.clients && k' in s.clients && k != k' ==> s.clients[k] != s.clients[k'])
    && Distinct(RetiredClients(s.retired)) && Distinct(s.closed)
    && (forall c :: IsCached(s, c) ==> c in stored && !IsRetired(s, c) && c !in s.closed)
    && (forall c :: IsRetired(s, c) ==> c in stored && c !in s.closed)
    && (forall c :: c in s.closed ==> c in stored)
    && (forall c :: c in stored ==> IsCached(s, c) || IsRetired(s, c) || c in s.closed)
  }

  lemma RetiredSnoc(retired: seq<Retired>, r: Retired)
    ensures RetiredClients(retired + [r]) == RetiredClients(retired) + [r.c]
  {
  }

  lemma {:induction false} SweepSplits(retired: seq<Retired>, now: nat, grace: nat)
    requires Distinct(RetiredClients(retired))
    ensures var kept, gone := RetiredClients(Young(retired, now, grace)), Expired(retired, now, grace);
            && Distinct(kept) && Distinct(gone)
            && (forall c :: c in kept ==> c !in gone)
            && (forall c :: c in RetiredClients(retired) <==> c in kept || c in gone)
  {
    if retired != [] {
      var init, r := retired[..|retired| - 1], retired[|retired| - 1];
      assert retired == init + [r];
      RetiredSnoc(init, r);
      var ids := RetiredClients(retired);
      assert forall i :: 0 <= i < |init| ==> RetiredClients(init)[i] == ids[i];
      SweepSplits(init, now, grace);
      assert ids[|init|] == r.c;
      assert r.c !in RetiredClients(init);
      RetiredSnoc(Young(init, now, grace), r);
      var kept, gone := RetiredClients(Young(init, now, grace)), Expired(init, now, grace);
      if now - r.at < grace {
        assert Young(retired, now, grace) == Young(init, now, grace) + [r];
        assert Expired(retired, now, grace) == gone;
      } else {
        assert Young(retired, now, grace) == Young(init, now, grace);
        assert Expired(retired, now, grace) == gone + [r.c];
      }
    }
  }

  lemma DistinctConcat<T>(a: seq<T>, b: seq<T>)
    requires Distinct(a) && Distinct(b) && forall i :: 0 <= i < |b| ==> b[i] !in a
    ensures Distinct(a + b)
  {
  }

  lemma SweepOwned(s: Cache, stored: set<ClientId>, now: nat, grace: nat)
    requires Owned(s, stored)
    ensures Owned(Sweep(s, now, grace), stored)
  {
    hide Young, Expired, RetiredClients;
    SweepSplits(s.retired, now, grace);
    var s' := Sweep(s, now, grace);
    var gone := Expired(s.retired, now, grace);
    assert forall c :: c in gone ==> IsRetired(s, c);
    DistinctConcat(s.closed, gone);
    assert forall c :: IsCached(s', c) <==> IsCached(s, c);
    assert forall c :: c in s'.closed <==> c in s.closed || c in Expired(s.retired, now, grace);
    assert forall c :: IsRetired(s, c) <==> IsRetired(s', c) || c in Expired(s.retired, now, grace);
  }

  /** A client leaves the map for the retired list or for Close. */
  lemma LeaveOwned(s: Cache, stored: set<ClientId>, key: string, s': Cache)
    requires Owned(s, stored) && key in s.clients && s'.clients == Without(s.clients, key)
    requires (s'.closed == s.closed && exists at :: s'.retired == s.retired + [Retired(s.clients[key], at)])
          || (s'.retired == s.retired && s'.closed == s.closed + [s.clients[key]])
    ensures Owned(s', stored)
  {
    var id := s.clients[key];
    assert IsCached(s, id);
    forall c ensures IsCached(s, c) <==> IsCached(s', c) || c == id {
      if IsCached(s, c) && c != id {
        var k :| k in s.clients && s.clients[k] == c;
        assert k in s'.clients;
      }
    }
    assert !IsCached(s', id);
    if s'.closed == s.closed {
      var at :| s'.retired == s.retired + [Retired(id, at)];
      RetiredSnoc(s.retired, Retired(id, at));
    }
  }

  lemma EvictOwned(s: Cache, stored: set<ClientId>, key: string, c: Option<ClientId>, now: nat)
    requires Owned(s, stored) && SameDomains(s)
    ensures Owned(Evict(s, key, c, now), stored) && SameDomains(Evict(s, key, c, now))
  {
    hide Owned;
    var s' := Evict(s, key, c, now);
    if key in s.clients && (c.None? || s.clients[key] == c.value) {
      assert s'.retired == s.retired + [Retired(s.clients[key], now)];
      LeaveOwned(s, stored, key, s');
    } else {
      SameOwned(s, s', stored);
    }
  }

  lemma SameOwned(s: Cache, s': Cache, stored: set<ClientId>)
    requires Owned(s, stored)
    requires s'.clients == s.clients && s'.retired == s.retired && s'.closed == s.closed
    ensures Owned(s', stored)
  {
    assert forall c :: IsCached(s', c) <==> IsCached(s, c);
  }

  lemma {:induction false} EvictIdleOwned(s: Cache, stored: set<ClientId>, order: seq<string>, maxIdle: nat, now: nat)
    requires Owned(s, stored) && SameDomains(s)
    ensures Owned(EvictIdle(s, order, maxIdle, now), stored) && SameDomains(EvictIdle(s, order, maxIdle, now))
  {
    hide Owned;
    if order != [] {
      var key := order[|order| - 1];
      EvictIdleOwned(s, stored, order[..|order| - 1], maxIdle, now);
      var mid := EvictIdle(s, order[..|order| - 1], maxIdle, now);
      if Idle(mid, key, maxIdle, now) {
        LeaveOwned(mid, stored, key, EvictIdleKey(mid, key, maxIdle, now));
      }
    }
  }

  lemma CommitOwned(s: Cache, stored: set<ClientId>, key: string, candidate: ClientId, fingerprint: string,
                    version: nat,
                    yieldToNewer: bool, now: nat, grace: nat)
    requires Owned(s, stored) && SameDomains(s) && candidate !in stored
    ensures var s' := Commit(s, key, candidate, fingerprint, version, yieldToNewer, now, grace);
            SameDomains(s') && Owned(s', if CommitOutcome(s, key, candidate, fingerprint, version, yieldToNewer).Stored?
                                         then stored + {candidate} else stored)
  {
    hide Owned, Sweep;
    var s' := Commit(s, key, candidate, fingerprint, version, yieldToNewer, now, grace);
    SweepOwned(s, stored, now, grace);
    var swept := Sweep(s, now, grace);
    SweepKeeps(s, now, grace);
    match CommitOutcome(s, key, candidate, fingerprint, version, yieldToNewer)
    case Hit(_) => SameOwned(swept, s', stored);
    case Superseded =>
    case Stored(_) =>
      var without := swept;
      if key in s.clients {
        without := swept.(clients := Without(s.clients, key),
                          retired := swept.retired + [Retired(s.clients[key], now)]);
        LeaveOwned(swept, stored, key, without);
      }
      EnterOwned(without, stored, key, candidate, s');
  }

  lemma SweepKeeps(s: Cache, now: nat, grace: nat)
    ensures var s' := Sweep(s, now, grace);
            && s'.clients == s.clients && s'.fingerprints == s.fingerprints
            && s'.lastUsed == s.lastUsed && s'.versions == s.versions
  {
  }

  lemma EnterOwned(s: Cache, stored: set<ClientId>, key: string, candidate: ClientId, s': Cache)
    requires Owned(s, stored) && key !in s.clients && candidate !in stored
    requires s'.clients == s.clients[key := candidate] && s'.retired == s.retired && s'.closed == s.closed
    ensures Owned(s', stored + {candidate})
  {
    forall k | k in s.clients ensures s.clients[k] != candidate {
      assert IsCached(s, s.clients[k]);
    }
    forall c ensures IsCached(s', c) <==> IsCached(s, c) || c == candidate {
      if IsCached(s, c) {
        var k :| k in s.clients && s.clients[k] == c;
        assert k in s'.clients && s'.clients[k] == c;
      }
      if c == candidate { assert s'.clients[key] == c; }
    }
  }

  // ---------------------------------------------------------------- versions

  lemma EvictGuarded(s: Cache, key: string, c: Option<ClientId>, now: nat)
    ensures Guarded(s, Evict(s, key, c, now))
    ensures c.None? ==> VersionOf(Evict(s, key, c, now), key) > VersionOf(s, key)
  {
  }

  lemma {:induction false} EvictIdleGuarded(s: Cache, order: seq<string>, maxIdle: nat, now: nat)
    requires SameDomains(s)
    ensures Guarded(s, EvictIdle(s, order, maxIdle, now)) && SameDomains(EvictIdle(s, order, maxIdle, now))
  {
    if order != [] {
      EvictIdleGuarded(s, order[..|order| - 1], maxIdle, now);
      var mid, key := EvictIdle(s, order[..|order| - 1], maxIdle, now), order[|order| - 1];
      var s' := EvictIdleKey(mid, key, maxIdle, now);
      assert Guarded(mid, s');
    }
  }

  lemma CommitGuarded(s: Cache, key: string, candidate: ClientId, fingerprint: string, version: nat,
                      yieldToNewer: bool, now: nat, grace: nat)
    ensures Guarded(s, Commit(s, key, candidate, fingerprint, version, yieldToNewer, now, grace))
  {
  }

  // ---------------------------------------------------------------- the invariant

  /** A refresh knows no version from the future, and if its key's version has not moved then what it saw
      is still cached. Candidates are new and belong to one call. */
  ghost predicate CallsOk(m: System) {
    && (forall i :: i in m.calls ==> CallOk(m, m.calls[i]))
    && (forall i, j :: i in m.calls && j in m.calls && i != j && m.calls[i].Built? && m.calls[j].Built?
          ==> m.calls[i].candidate != m.calls[j].candidate)
    && m.stored <= m.made
  }

  ghost predicate CallOk(m: System, c: Call) {
    && (c.Began? || c.Built? ==>
          && c.version <= VersionOf(m.cache, c.key)
          && (c.version == VersionOf(m.cache, c.key) ==> Entry(m.cache, c.key) == c.seen))
    && (c.Built? ==> c.candidate in m.made && c.candidate !in m.stored)
  }

  ghost predicate Inv(m: System) {
    SameDomains(m.cache) && Owned(m.cache, m.stored) && CallsOk(m)
  }

  lemma StepGuarded(m: System, e: Event, grace: nat)
    requires SameDomains(m.cache) && Enabled(m, e)
    ensures Guarded(m.cache, Apply(m, e, grace).cache)
  {
    hide Guarded, Commit, Evict, EvictIdle;
    match e
    case EvictGone(call) => EvictGuarded(m.cache, m.calls[call].key, None, m.clock);
    case CommitCall(call) =>
      var b := m.calls[call];
      CommitGuarded(m.cache, b.key, b.candidate, b.fingerprint, b.version, b.first, m.clock, grace);
    case EvictClient(key, c) => EvictGuarded(m.cache, key, c, m.clock);
    case IdleSweep(maxIdle, order) => EvictIdleGuarded(m.cache, order, maxIdle, m.clock);
    case _ => StaysGuarded(m.cache);
  }

  lemma StaysGuarded(s: Cache)
    ensures Guarded(s, s)
  {
  }

  /** Calls that a step leaves alone stay in order. */
  lemma OthersOk(m: System, m': System)
    requires CallsOk(m) && Guarded(m.cache, m'.cache)
    requires m'.made >= m.made
    ensures forall c :: CallOk(m, c) && (c.Built? ==> c.candidate !in m'.stored) ==> CallOk(m', c)
  {
    hide Entry, VersionOf;
  }

  lemma StepKeepsOwnership(m: System, e: Event, grace: nat)
    requires Inv(m) && Enabled(m, e)
    ensures SameDomains(Apply(m, e, grace).cache) && Owned(Apply(m, e, grace).cache, Apply(m, e, grace).stored)
  {
    hide Owned, Commit, Evict, EvictIdle, SameDomains;
    match e
    case EvictGone(call) => EvictOwned(m.cache, m.stored, m.calls[call].key, None, m.clock);
    case CommitCall(call) =>
      var b := m.calls[call];
      assert CallOk(m, b);
      CommitOwned(m.cache, m.stored, b.key, b.candidate, b.fingerprint, b.version, b.first, m.clock, grace);
    case EvictClient(key, c) => EvictOwned(m.cache, m.stored, key, c, m.clock);
    case IdleSweep(maxIdle, order) => EvictIdleOwned(m.cache, m.stored, order, maxIdle, m.clock);
    case _ =>
  }

  lemma StepKeepsCalls(m: System, e: Event, grace: nat)
    requires Inv(m) && Enabled(m, e)
    ensures CallsOk(Apply(m, e, grace))
  {
    hide Owned, Commit, Evict, EvictIdle, Guarded, SameDomains, VersionOf, Entry;
    var m' := Apply(m, e, grace);
    StepGuarded(m, e, grace);
    OthersOk(m, m');
    if e.CommitCall? {
      var b := m.calls[e.call];
      assert CallOk(m, b);
      assert m'.stored <= m.stored + {b.candidate};
    } else {
      assert m'.stored == m.stored;
    }
    forall i | i in m'.calls ensures CallOk(m', m'.calls[i]) {
      if i in m.calls && m'.calls[i] == m.calls[i] {
        assert CallOk(m, m.calls[i]);
      } else if e.Build? {
        assert CallOk(m, m.calls[e.call]);
        assert CallOk(m', m.calls[e.call]);
      }
    }
    forall i, j | i in m'.calls && j in m'.calls && i != j && m'.calls[i].Built? && m'.calls[j].Built?
      ensures m'.calls[i].candidate != m'.calls[j].candidate
    {
      assert forall k :: k in m.calls && m.calls[k].Built? ==> CallOk(m, m.calls[k]);
    }
  }

  lemma {:induction false} InvHolds(ms: seq<System>, es: seq<Event>, grace: nat, i: nat)
    requires IsRun(ms, es, grace) && i < |ms|
    ensures Inv(ms[i])
  {
    if i > 0 {
      InvHolds(ms, es, grace, i - 1);
      StepKeepsOwnership(ms[i - 1], es[i - 1], grace);
      StepKeepsCalls(ms[i - 1], es[i - 1], grace);
    }
  }

  // ---------------------------------------------------------------- no lost updates

  /** Over any stretch of a run an unchanged version means an unchanged client and fingerprint. */
  lemma {:induction false} VersionsGuardEntries(ms: seq<System>, es: seq<Event>, grace: nat, i: nat, j: nat)
    requires IsRun(ms, es, grace) && i <= j < |ms|
    ensures Guarded(ms[i].cache, ms[j].cache)
    decreases j
  {
    if i < j {
      VersionsGuardEntries(ms, es, grace, i, j - 1);
      InvHolds(ms, es, grace, j - 1);
      StepGuarded(ms[j - 1], es[j - 1], grace);
      GuardedTransitive(ms[i].cache, ms[j - 1].cache, ms[j].cache);
    } else {
      StaysGuarded(ms[i].cache);
    }
  }

  lemma GuardedTransitive(a: Cache, b: Cache, c: Cache)
    requires Guarded(a, b) && Guarded(b, c)
    ensures Guarded(a, c)
  {
  }

  /** What a call in its first refresh remembers is what was true when it began. */
  lemma {:induction false} FirstRoundMemory(ms: seq<System>, es: seq<Event>, grace: nat, i: nat, k: nat, call: nat,
                                            key: string)
    requires IsRun(ms, es, grace) && i < k < |ms| && es[i] == GetClient(call, key)
    ensures call in ms[k].calls && ms[k].calls[call].key == key
    ensures var c := ms[k].calls[call];
            (c.Began? || c.Built?) && c.first ==>
              c.version == VersionOf(ms[i].cache, key) && c.seen == Entry(ms[i].cache, key)
    ensures (forall t :: i < t < k ==> es[t] != BeginAgain(call)) ==>
              (ms[k].calls[call].Began? || ms[k].calls[call].Built? ==> ms[k].calls[call].first)
    decreases k
  {
    hide VersionOf, Entry, Commit, CommitOutcome, Evict, EvictIdle;
    if k > i + 1 {
      FirstRoundMemory(ms, es, grace, i, k - 1, call, key);
    }
  }

  /** A first refresh yields exactly when the key has moved on since the call began and what is cached now
      has another fingerprint. */
  lemma FirstRefreshYields(ms: seq<System>, es: seq<Event>, grace: nat, i: nat, k: nat, call: nat, key: string)
    requires IsRun(ms, es, grace) && i < k < |es| && es[i] == GetClient(call, key) && es[k] == CommitCall(call)
    requires forall t :: i < t < k ==> es[t] != BeginAgain(call)
    ensures ms[k].calls[call].Built?
    ensures ms[k + 1].calls[call].Yielded? <==>
              && VersionOf(ms[k].cache, key) != VersionOf(ms[i].cache, key)
              && !(exists c :: Entry(ms[k].cache, key) == Some((c, ms[k].calls[call].fingerprint)))
  {
    FirstRoundMemory(ms, es, grace, i, k, call, key);
    assert Enabled(ms[k], es[k]) && ms[k + 1] == Apply(ms[k], es[k], grace);
  }

  // ---------------------------------------------------------------- the world a run happens in

  /** What was last stored under the key, None when nothing was or it was removed since. */
  ghost function LastStored(es: seq<Event>, key: string): Option<ServerObject> {
    if es == [] then None
    else
      var e := es[|es| - 1];
      if e.ServerChanges? && e.key == key then e.stored else LastStored(es[..|es| - 1], key)
  }

  ghost function Elapsed(es: seq<Event>): nat {
    if es == [] then 0
    else
      var e := es[|es| - 1];
      Elapsed(es[..|es| - 1]) + (if e.Tick? then e.elapsed else 0)
  }

  lemma WorldStep(m: System, e: Event, grace: nat)
    requires Enabled(m, e)
    ensures var m' := Apply(m, e, grace);
            && m'.clock == m.clock + (if e.Tick? then e.elapsed else 0)
            && forall key ::
                 StoredIn(m', key) == if e.ServerChanges? && e.key == key then e.stored else StoredIn(m, key)
  {
    hide Commit, CommitOutcome, Evict, EvictIdle;
  }

  ghost function StoredIn(m: System, key: string): Option<ServerObject> {
    if key in m.servers then Some(m.servers[key]) else None
  }

  /** A read finds what was last stored, however the cache and its calls behave, and the clock shows the
      time that has passed. */
  lemma {:induction false} WorldIsAsEventsSay(ms: seq<System>, es: seq<Event>, grace: nat, i: nat, key: string)
    requires IsRun(ms, es, grace) && i < |ms|
    ensures StoredIn(ms[i], key) == LastStored(es[..i], key) && ms[i].clock == Elapsed(es[..i])
  {
    if i > 0 {
      hide Apply, Enabled, StoredIn;
      WorldIsAsEventsSay(ms, es, grace, i - 1, key);
      assert es[..i][..i - 1] == es[..i - 1];
      WorldStep(ms[i - 1], es[i - 1], grace);
    }
  }

  // ---------------------------------------------------------------- what a first refresh replaces

  /** A first refresh that stores replaces exactly what was cached when it began, and nothing was stored
      or removed for the key in between. */
  lemma StoreReplacesWhatItSaw(ms: seq<System>, es: seq<Event>, grace: nat, i: nat, k: nat, call: nat, key: string)
    requires IsRun(ms, es, grace) && i < k < |es| && es[i] == GetClient(call, key) && es[k] == CommitCall(call)
    requires ms[k].calls[call].first && Stores(ms[k], call)
    ensures forall t :: i <= t <= k ==> Entry(ms[t].cache, key) == Entry(ms[i].cache, key)
    ensures Entry(ms[k + 1].cache, key) == Some((ms[k].calls[call].candidate, ms[k].calls[call].fingerprint))
  {
    FirstRoundMemory(ms, es, grace, i, k, call, key);
    forall t | i <= t <= k ensures Entry(ms[t].cache, key) == Entry(ms[i].cache, key) {
      VersionsGuardEntries(ms, es, grace, i, t);
      VersionsGuardEntries(ms, es, grace, t, k);
    }
  }

  ghost predicate Stores(m: System, call: nat)
    requires call in m.calls && m.calls[call].Built?
  {
    var b := m.calls[call];
    CommitOutcome(m.cache, b.key, b.candidate, b.fingerprint, b.version, b.first).Stored?
  }

  /** An unconditional eviction of the key, by a caller or by a refresh that found the server gone. */
  ghost predicate Removes(m: System, e: Event, key: string)
    requires Enabled(m, e)
  {
    e == EvictClient(key, None) || (e.EvictGone? && m.calls[e.call].key == key)
  }

  /** A first refresh that began before an unconditional eviction never stores. */
  lemma EvictionInvalidatesRefresh(ms: seq<System>, es: seq<Event>, grace: nat, i: nat, j: nat, k: nat, call: nat,
                                   key: string)
    requires IsRun(ms, es, grace) && i < j < k < |es|
    requires es[i] == GetClient(call, key) && es[k] == CommitCall(call) && ms[k].calls[call].first
    requires Enabled(ms[j], es[j]) && Removes(ms[j], es[j], key)
    ensures !Stores(ms[k], call) && ms[k + 1].cache.clients == ms[k].cache.clients
  {
    FirstRoundMemory(ms, es, grace, i, k, call, key);
    VersionsGuardEntries(ms, es, grace, i, j);
    EvictGuarded(ms[j].cache, key, None, ms[j].clock);
    VersionsGuardEntries(ms, es, grace, j + 1, k);
  }

  // ---------------------------------------------------------------- what a call returns

  /** A commit that returns a client leaves it cached under the fingerprint of this call's own candidate.
      A second refresh always returns. */
  lemma ReturnedClientIsCached(m: System, call: nat, grace: nat)
    requires Enabled(m, CommitCall(call))
    ensures var b, m' := m.calls[call], Apply(m, CommitCall(call), grace);
            && (m'.calls[call].Returned? ==>
                  && m'.calls[call].fingerprint == b.fingerprint && m'.calls[call].key == b.key
                  && Entry(m'.cache, b.key) == Some((m'.calls[call].c, b.fingerprint)))
            && (!b.first ==> m'.calls[call].Returned?)
            && (!m'.calls[call].Returned? ==> m'.calls[call] == Yielded(b.key) && m'.cache.clients == m.cache.clients)
  {
  }

  lemma {:induction false} CallHasBegun(ms: seq<System>, es: seq<Event>, grace: nat, k: nat, call: nat) returns (g: nat)
    requires IsRun(ms, es, grace) && k < |ms| && call in ms[k].calls
    ensures g < k && es[g] == GetClient(call, ms[k].calls[call].key)
    decreases k
  {
    hide VersionOf, Entry, Commit, CommitOutcome, Evict, EvictIdle, FingerprintOf;
    if call !in ms[k - 1].calls {
      g := k - 1;
    } else {
      g := CallHasBegun(ms, es, grace, k - 1, call);
    }
  }

  /** The candidate was built from the server object as it was stored at a moment during this call. */
  lemma {:induction false} BuiltFromOwnRead(ms: seq<System>, es: seq<Event>, grace: nat, k: nat, call: nat)
    returns (b: nat)
    requires IsRun(ms, es, grace) && k < |ms| && call in ms[k].calls && ms[k].calls[call].Built?
    ensures b < k && es[b] == Build(call, ms[k].calls[call].candidate)
    ensures var c := ms[k].calls[call];
            c.key in ms[b].servers && c.fingerprint == FingerprintOf(ms[b].servers[c.key])
    ensures call in ms[b].calls
    decreases k
  {
    hide VersionOf, Entry, Commit, CommitOutcome, Evict, EvictIdle, FingerprintOf;
    if es[k - 1].Build? && es[k - 1].call == call {
      b := k - 1;
    } else {
      b := BuiltFromOwnRead(ms, es, grace, k - 1, call);
    }
  }

  /** Freshness: a call that returned a client began at `g`, read the server at `b` and committed at `t`.
      The client has the fingerprint of the server as stored at `b`, and was the cached one right after `t`. */
  lemma {:induction false} ReturnedIsFresh(ms: seq<System>, es: seq<Event>, grace: nat, k: nat, call: nat)
    returns (g: nat, b: nat, t: nat)
    requires IsRun(ms, es, grace) && k < |ms| && call in ms[k].calls && ms[k].calls[call].Returned?
    ensures g < b < t < k
    ensures var r := ms[k].calls[call];
            && es[g] == GetClient(call, r.key) && es[b].Build? && es[b].call == call && es[t] == CommitCall(call)
            && r.key in ms[b].servers && r.fingerprint == FingerprintOf(ms[b].servers[r.key])
            && Entry(ms[t + 1].cache, r.key) == Some((r.c, r.fingerprint))
    decreases k
  {
    hide VersionOf, Entry, Commit, CommitOutcome, Evict, EvictIdle, FingerprintOf;
    assert Enabled(ms[k - 1], es[k - 1]) && ms[k] == Apply(ms[k - 1], es[k - 1], grace);
    if es[k - 1] == CommitCall(call) {
      t := k - 1;
      ReturnedClientIsCached(ms[t], call, grace);
      b := BuiltFromOwnRead(ms, es, grace, t, call);
      g := CallHasBegun(ms, es, grace, b, call);
      var g' := CallHasBegun(ms, es, grace, t, call);
      BeginsOnce(ms, es, grace, g, g', call);
    } else {
      g, b, t := ReturnedIsFresh(ms, es, grace, k - 1, call);
    }
  }

  /** No configuration hash holds the separator, so a fingerprint tells servers apart. */
  lemma FingerprintTells(a: ServerObject, b: ServerObject)
    requires '|' !in a.config && '|' !in b.config && FingerprintOf(a) == FingerprintOf(b)
    ensures a == b
  {
    assert a.config + ['|'] + a.uid == FingerprintOf(a) == FingerprintOf(b) == b.config + ['|'] + b.uid;
    CutUnique(a.config, a.uid, b.config, b.uid, '|');
  }

  /** At step `b` a call built the client `c` for `key`, and `object` is what it read. */
  ghost predicate BuiltAt(ms: seq<System>, es: seq<Event>, b: nat, key: string, c: ClientId, server: ServerObject)
    requires |ms| == |es| + 1 && b < |es|
  {
    && es[b].Build? && es[b].candidate == c && es[b].call in ms[b].calls && ms[b].calls[es[b].call].key == key
    && key in ms[b].servers && ms[b].servers[key] == server
  }

  /** Whatever is cached under a fingerprint was built from a server with that fingerprint. */
  lemma {:induction false} CachedWasBuilt(ms: seq<System>, es: seq<Event>, grace: nat, k: nat, key: string)
    returns (b: nat, server: ServerObject)
    requires IsRun(ms, es, grace) && k < |ms| && Entry(ms[k].cache, key).Some?
    ensures b < k && BuiltAt(ms, es, b, key, Entry(ms[k].cache, key).value.0, server)
    ensures FingerprintOf(server) == Entry(ms[k].cache, key).value.1
    decreases k
  {
    hide FingerprintOf, Apply, Enabled;
    assert Enabled(ms[k - 1], es[k - 1]) && ms[k] == Apply(ms[k - 1], es[k - 1], grace);
    InvHolds(ms, es, grace, k - 1);
    EntryComesFrom(ms[k - 1], es[k - 1], grace, key);
    if Entry(ms[k].cache, key) == Entry(ms[k - 1].cache, key) {
      b, server := CachedWasBuilt(ms, es, grace, k - 1, key);
    } else {
      var call := es[k - 1].call;
      b := BuiltFromOwnRead(ms, es, grace, k - 1, call);
      var g := CallHasBegun(ms, es, grace, b, call);
      var g' := CallHasBegun(ms, es, grace, k - 1, call);
      BeginsOnce(ms, es, grace, g, g', call);
      server := ms[b].servers[key];
    }
  }

  /** A new entry is the candidate of the call that committed. */
  lemma EntryComesFrom(m: System, e: Event, grace: nat, key: string)
    requires Enabled(m, e) && SameDomains(m.cache)
    ensures var entry := Entry(Apply(m, e, grace).cache, key);
            entry.Some? && entry != Entry(m.cache, key) ==>
              && e.CommitCall? && e.call in m.calls && m.calls[e.call].Built? && m.calls[e.call].key == key
              && entry == Some((m.calls[e.call].candidate, m.calls[e.call].fingerprint))
  {
    hide Sweep, FingerprintOf, EvictIdle, VersionOf, Bump;
    if e.IdleSweep? { EvictIdleExact(m.cache, e.order, e.maxIdle, m.clock); }
    if e.CommitCall? {
      var b := m.calls[e.call];
      SweepKeeps(m.cache, m.clock, grace);
    }
  }

  /** A call returns a client built, by whichever call, from a server equal to the one it read itself. */
  lemma ReturnedWasBuiltFromRead(ms: seq<System>, es: seq<Event>, grace: nat, k: nat, call: nat)
    returns (g: nat, b: nat, t: nat, made: nat)
    requires IsRun(ms, es, grace) && k < |ms| && call in ms[k].calls && ms[k].calls[call].Returned?
    requires forall i, key :: 0 <= i < |ms| && key in ms[i].servers ==> '|' !in ms[i].servers[key].config
    ensures g < b < t < k && made <= t
    ensures var r := ms[k].calls[call];
            && es[g] == GetClient(call, r.key) && es[b].Build? && es[b].call == call && es[t] == CommitCall(call)
            && r.key in ms[b].servers && BuiltAt(ms, es, made, r.key, r.c, ms[b].servers[r.key])
  {
    hide FingerprintOf;
    g, b, t := ReturnedIsFresh(ms, es, grace, k, call);
    var server: ServerObject;
    made, server := CachedWasBuilt(ms, es, grace, t + 1, ms[k].calls[call].key);
    FingerprintTells(server, ms[b].servers[ms[k].calls[call].key]);
  }

  /** Every step of a call brings it closer to its end. */
  function StepsLeft(c: Call): nat {
    match c
    case Began(_, first, _, _) => if first then 6 else 3
    case Built(_, first, _, _, _, _) => if first then 5 else 2
    case Yielded(_) => 4
    case Gone(_) => 1
    case Failed(_) => 0
    case Returned(_, _, _) => 0
  }

  predicate IsStepOf(e: Event, call: nat) {
    (e.ReadNotFound? || e.EvictGone? || e.ReadOrBuildFails? || e.Build? || e.CommitCall? || e.BeginAgain?)
    && e.call == call
  }

  lemma CallAdvances(m: System, e: Event, grace: nat, call: nat)
    requires Enabled(m, e) && call in m.calls
    ensures var m' := Apply(m, e, grace); call in m'.calls && StepsLeft(m'.calls[call]) <= StepsLeft(m.calls[call])
    ensures IsStepOf(e, call) ==> StepsLeft(Apply(m, e, grace).calls[call]) < StepsLeft(m.calls[call])
  {
    hide VersionOf, Entry, Commit, Evict, EvictIdle, FingerprintOf;
  }

  lemma {:induction false} CallsOnlyAdvance(ms: seq<System>, es: seq<Event>, grace: nat, i: nat, j: nat, call: nat)
    requires IsRun(ms, es, grace) && i <= j < |ms| && call in ms[i].calls
    ensures call in ms[j].calls && StepsLeft(ms[j].calls[call])
            + StepsOf(es[i..j], call) <= StepsLeft(ms[i].calls[call])
    decreases j
  {
    hide Apply, Enabled, StepsLeft;
    if i < j {
      CallsOnlyAdvance(ms, es, grace, i, j - 1, call);
      CallAdvances(ms[j - 1], es[j - 1], grace, call);
      assert es[i..j][..j - 1 - i] == es[i..j - 1];
    }
  }

  /** The number of steps a call takes. */
  ghost function StepsOf(es: seq<Event>, call: nat): nat {
    if es == [] then 0
    else StepsOf(es[..|es| - 1], call) + (if IsStepOf(es[|es| - 1], call) then 1 else 0)
  }


  /** GetClient refreshes at most twice: it begins once, and begins again at most once. */
  lemma AtMostTwoRefreshes(ms: seq<System>, es: seq<Event>, grace: nat, i: nat, j: nat, call: nat)
    requires IsRun(ms, es, grace) && i < j < |es|
    ensures es[i] == BeginAgain(call) ==> es[j] != BeginAgain(call)
    ensures es[i].GetClient? && es[i].call == call && es[j].GetClient? ==> es[j].call != call
  {
    hide VersionOf, Entry;
    if es[i] == BeginAgain(call) || (es[i].GetClient? && es[i].call == call) {
      assert ms[i + 1] == Apply(ms[i], es[i], grace) && Enabled(ms[j], es[j]);
      CallsOnlyAdvance(ms, es, grace, i + 1, j, call);
    }
  }

  lemma BeginsOnce(ms: seq<System>, es: seq<Event>, grace: nat, i: nat, j: nat, call: nat)
    requires IsRun(ms, es, grace) && i < |es| && j < |es|
    requires es[i].GetClient? && es[i].call == call && es[j].GetClient? && es[j].call == call
    ensures i == j
  {
    if i < j { AtMostTwoRefreshes(ms, es, grace, i, j, call); }
    if j < i { AtMostTwoRefreshes(ms, es, grace, j, i, call); }
  }

  // ---------------------------------------------------------------- closing

  lemma {:induction false} EvictIdleCloses(s: Cache, order: seq<string>, maxIdle: nat, now: nat)
    ensures s.closed <= EvictIdle(s, order, maxIdle, now).closed
            && EvictIdle(s, order, maxIdle, now).retired == s.retired
  {
    if order != [] { EvictIdleCloses(s, order[..|order| - 1], maxIdle, now); }
  }

  lemma {:induction false} SweepTakes(retired: seq<Retired>, now: nat, grace: nat, r: Retired)
    requires r in retired
    ensures r in Young(retired, now, grace) || (now - r.at >= grace && r.c in Expired(retired, now, grace))
  {
    var init, last := retired[..|retired| - 1], retired[|retired| - 1];
    assert retired == init + [last];
    if r in init { SweepTakes(init, now, grace, r); }
  }

  lemma CommitCloses(s: Cache, key: string, candidate: ClientId, fingerprint: string, version: nat, yieldToNewer: bool,
                     now: nat, grace: nat)
    ensures var s' := Commit(s, key, candidate, fingerprint, version, yieldToNewer, now, grace);
            s'.closed == s.closed + Expired(s.retired, now, grace) && Young(s.retired, now, grace) <= s'.retired
  {
    hide Young, Expired, VersionOf, Bump;
  }

  lemma EvictCloses(s: Cache, key: string, c: Option<ClientId>, now: nat)
    ensures Evict(s, key, c, now).closed == s.closed && s.retired <= Evict(s, key, c, now).retired
  {
    hide Bump;
  }

  /** What a step may do to the lists of retired and closed clients. */
  ghost predicate Retires(m: System, s': Cache, grace: nat) {
    || (s'.closed == m.cache.closed + Expired(m.cache.retired, m.clock, grace)
        && Young(m.cache.retired, m.clock, grace) <= s'.retired)
    || (m.cache.closed <= s'.closed && m.cache.retired <= s'.retired)
  }

  lemma StepRetires(m: System, e: Event, grace: nat)
    requires Enabled(m, e)
    ensures Retires(m, Apply(m, e, grace).cache, grace) && m.clock <= Apply(m, e, grace).clock
  {
    hide Commit, CommitOutcome, Evict, EvictIdle, Young, Expired, VersionOf, Entry, FingerprintOf;
    match e
    case CommitCall(call) =>
      var b := m.calls[call];
      CommitCloses(m.cache, b.key, b.candidate, b.fingerprint, b.version, b.first, m.clock, grace);
    case EvictGone(call) => EvictCloses(m.cache, m.calls[call].key, None, m.clock);
    case EvictClient(key, c) => EvictCloses(m.cache, key, c, m.clock);
    case IdleSweep(maxIdle, order) => EvictIdleCloses(m.cache, order, maxIdle, m.clock);
    case _ =>
  }

  /** A retired client leaves the list only for Close, and only once its grace period has passed. */
  lemma RetiredUntilGrace(m: System, e: Event, grace: nat, r: Retired)
    requires Enabled(m, e) && r in m.cache.retired
    ensures var m' := Apply(m, e, grace);
            && m.cache.closed <= m'.cache.closed && m.clock <= m'.clock
            && (r in m'.cache.retired || (m.clock - r.at >= grace && r.c in m'.cache.closed))
  {
    hide Apply, Enabled, Young, Expired;
    StepRetires(m, e, grace);
    SweepTakes(m.cache.retired, m.clock, grace, r);
  }

  lemma ClosedGrows(m: System, e: Event, grace: nat)
    requires Enabled(m, e)
    ensures m.cache.closed <= Apply(m, e, grace).cache.closed && m.clock <= Apply(m, e, grace).clock
  {
    hide Apply, Enabled, Young, Expired;
    StepRetires(m, e, grace);
  }

  /** Once handed to Close a client is never cached or retired again, and is not handed over twice. */
  lemma {:induction false} ClosedForGood(ms: seq<System>, es: seq<Event>, grace: nat, i: nat, j: nat, c: ClientId)
    requires IsRun(ms, es, grace) && i <= j < |ms| && c in ms[i].cache.closed
    ensures c in ms[j].cache.closed && Distinct(ms[j].cache.closed)
    ensures !IsCached(ms[j].cache, c) && !IsRetired(ms[j].cache, c)
    decreases j
  {
    hide Apply, Enabled;
    InvHolds(ms, es, grace, j);
    if i < j {
      ClosedForGood(ms, es, grace, i, j - 1, c);
      assert Enabled(ms[j - 1], es[j - 1]) && ms[j] == Apply(ms[j - 1], es[j - 1], grace);
      ClosedGrows(ms[j - 1], es[j - 1], grace);
      assert c in ms[j].cache.closed;
    }
  }

  /** A retired client that was closed later had its full grace period. */
  lemma {:induction false} GraceIsKept(ms: seq<System>, es: seq<Event>, grace: nat, i: nat, j: nat, r: Retired)
    requires IsRun(ms, es, grace) && i <= j < |ms| && r in ms[i].cache.retired
    ensures r in ms[j].cache.retired || (ms[j].clock - r.at >= grace && r.c in ms[j].cache.closed)
    ensures r.c in ms[j].cache.closed ==> ms[j].clock - r.at >= grace
    decreases j
  {
    hide Apply, Enabled;
    if i < j {
      GraceIsKept(ms, es, grace, i, j - 1, r);
      assert Enabled(ms[j - 1], es[j - 1]) && ms[j] == Apply(ms[j - 1], es[j - 1], grace);
      ClosedGrows(ms[j - 1], es[j - 1], grace);
      if r in ms[j - 1].cache.retired { RetiredUntilGrace(ms[j - 1], es[j - 1], grace, r); }
    }
    InvHolds(ms, es, grace, j);
    if r in ms[j].cache.retired {
      var k :| 0 <= k < |ms[j].cache.retired| && ms[j].cache.retired[k] == r;
      assert RetiredClients(ms[j].cache.retired)[k] == r.c;
    }
  }

  // ---------------------------------------------------------------- how long a caller may use its client

  /** A client in use since `since` is still cached and was last used then or later, or retired then or later. */
  ghost predicate Kept(s: Cache, c: ClientId, since: nat) {
    (exists key :: CachedSince(s, key, c, since)) || (exists r :: r in s.retired && r.c == c && r.at >= since)
  }

  ghost predicate CachedSince(s: Cache, key: string, c: ClientId, since: nat) {
    key in s.clients && s.clients[key] == c && key in s.lastUsed && s.lastUsed[key] >= since
  }

  lemma CommitKeeps(s: Cache, key: string, candidate: ClientId, fingerprint: string, version: nat, yieldToNewer: bool,
                    now: nat, grace: nat, c: ClientId, since: nat, k: string)
    requires CachedSince(s, k, c, since) && since <= now
    ensures Kept(Commit(s, key, candidate, fingerprint, version, yieldToNewer, now, grace), c, since)
  {
    hide Young, Expired, VersionOf, Bump;
    var s' := Commit(s, key, candidate, fingerprint, version, yieldToNewer, now, grace);
    if k in s'.clients && s'.clients[k] == c {
      assert CachedSince(s', k, c, since);
    } else {
      assert s'.retired[|s'.retired| - 1] == Retired(c, now);
    }
  }

  lemma EvictKeeps(s: Cache, key: string, e: Option<ClientId>, now: nat, c: ClientId, since: nat, k: string)
    requires CachedSince(s, k, c, since) && since <= now
    ensures Kept(Evict(s, key, e, now), c, since)
  {
    hide Bump;
    var s' := Evict(s, key, e, now);
    if k in s'.clients {
      assert CachedSince(s', k, c, since);
    } else {
      assert s'.retired[|s'.retired| - 1] == Retired(c, now);
    }
  }

  /** evictIdle takes such a client only after its whole idle time. */
  lemma {:induction false} IdleSweepKeeps(s: Cache, order: seq<string>, maxIdle: nat, now: nat,
                                          c: ClientId, since: nat, k: string)
    requires CachedSince(s, k, c, since)
    ensures CachedSince(EvictIdle(s, order, maxIdle, now), k, c, since) || now - since > maxIdle
  {
    if order != [] {
      IdleSweepKeeps(s, order[..|order| - 1], maxIdle, now, c, since, k);
    }
  }

  lemma StepKeeps(m: System, e: Event, grace: nat, c: ClientId, since: nat, k: string)
    requires Enabled(m, e) && CachedSince(m.cache, k, c, since) && since <= m.clock
    ensures Kept(Apply(m, e, grace).cache, c, since) || (e.IdleSweep? && m.clock - since > e.maxIdle)
  {
    hide Commit, CommitOutcome, Evict, EvictIdle, VersionOf, Entry, FingerprintOf, CachedSince;
    match e
    case CommitCall(call) =>
      var b := m.calls[call];
      CommitKeeps(m.cache, b.key, b.candidate, b.fingerprint, b.version, b.first, m.clock, grace, c, since, k);
    case EvictGone(call) => EvictKeeps(m.cache, m.calls[call].key, None, m.clock, c, since, k);
    case EvictClient(key, e') => EvictKeeps(m.cache, key, e', m.clock, c, since, k);
    case IdleSweep(maxIdle, order) => IdleSweepKeeps(m.cache, order, maxIdle, m.clock, c, since, k);
    case _ => assert CachedSince(Apply(m, e, grace).cache, k, c, since);
  }

  /** Between `t` and `j` an idle sweep found more than its idle time passed since `t`. */
  ghost predicate IdledOut(ms: seq<System>, es: seq<Event>, t: nat, j: nat)
    requires |ms| == |es| + 1 && t < j < |ms|
  {
    exists s :: t < s < j && es[s].IdleSweep? && ms[s].clock - ms[t].clock > es[s].maxIdle
  }

  lemma {:induction false} KeptOrOver(ms: seq<System>, es: seq<Event>, grace: nat, t: nat, j: nat, c: ClientId)
    requires IsRun(ms, es, grace) && t < j < |ms| && Kept(ms[t + 1].cache, c, ms[t].clock)
    ensures ms[t].clock <= ms[j].clock
    ensures Kept(ms[j].cache, c, ms[t].clock) || ms[j].clock - ms[t].clock >= grace || IdledOut(ms, es, t, j)
    decreases j
  {
    hide Apply, Enabled, Kept;
    assert Enabled(ms[j - 1], es[j - 1]) && ms[j] == Apply(ms[j - 1], es[j - 1], grace);
    ClosedGrows(ms[j - 1], es[j - 1], grace);
    if t + 1 < j {
      KeptOrOver(ms, es, grace, t, j - 1, c);
      if IdledOut(ms, es, t, j - 1) {
        var s :| t < s < j - 1 && es[s].IdleSweep? && ms[s].clock - ms[t].clock > es[s].maxIdle;
        assert IdledOut(ms, es, t, j);
      } else if Kept(ms[j - 1].cache, c, ms[t].clock) {
        KeptStep(ms[j - 1], es[j - 1], grace, c, ms[t].clock);
      }
    }
  }

  lemma KeptStep(m: System, e: Event, grace: nat, c: ClientId, since: nat)
    requires Enabled(m, e) && Kept(m.cache, c, since) && since <= m.clock
    ensures || Kept(Apply(m, e, grace).cache, c, since) || m.clock - since >= grace
            || (e.IdleSweep? && m.clock - since > e.maxIdle)
  {
    hide Apply, Enabled, CachedSince;
    if key :| CachedSince(m.cache, key, c, since) {
      StepKeeps(m, e, grace, c, since, key);
    } else {
      var r :| r in m.cache.retired && r.c == c && r.at >= since;
      RetiredUntilGrace(m, e, grace, r);
    }
  }

  /** A client returned by a commit at `t` is closed only when the grace period has passed since then, or
      by an idle sweep that found it unused for longer than its idle time. */
  lemma ReturnedClientLives(ms: seq<System>, es: seq<Event>, grace: nat, t: nat, j: nat, call: nat)
    requires IsRun(ms, es, grace) && t < j < |ms| && es[t] == CommitCall(call)
    requires call in ms[t + 1].calls && ms[t + 1].calls[call].Returned?
    ensures ms[t + 1].calls[call].c in ms[j].cache.closed ==>
              ms[j].clock - ms[t].clock >= grace || IdledOut(ms, es, t, j)
  {
    hide Apply, Enabled, Kept, Owned;
    var c := ms[t + 1].calls[call].c;
    assert Enabled(ms[t], es[t]) && ms[t + 1] == Apply(ms[t], es[t], grace);
    ReturnedIsKept(ms[t], call, grace);
    KeptOrOver(ms, es, grace, t, j, c);
    InvHolds(ms, es, grace, j);
    if Kept(ms[j].cache, c, ms[t].clock) { KeptIsOpen(ms[j].cache, ms[j].stored, c, ms[t].clock); }
  }

  lemma ReturnedIsKept(m: System, call: nat, grace: nat)
    requires Enabled(m, CommitCall(call))
    ensures var m' := Apply(m, CommitCall(call), grace);
            m'.calls[call].Returned? ==> Kept(m'.cache, m'.calls[call].c, m.clock)
  {
    hide Young, Expired, VersionOf, Bump;
    var m' := Apply(m, CommitCall(call), grace);
    if m'.calls[call].Returned? {
      assert CachedSince(m'.cache, m.calls[call].key, m'.calls[call].c, m.clock);
    }
  }

  lemma KeptIsOpen(s: Cache, stored: set<ClientId>, c: ClientId, since: nat)
    requires Owned(s, stored) && Kept(s, c, since)
    ensures c !in s.closed
  {
    if key :| CachedSince(s, key, c, since) {
      assert IsCached(s, c);
    } else {
      var r :| r in s.retired && r.c == c && r.at >= since;
      var i :| 0 <= i < |s.retired| && s.retired[i] == r;
      assert RetiredClients(s.retired)[i] == c;
      assert IsRetired(s, c);
    }
  }

  // ---------------------------------------------------------------- idle sweeps and Close

  /** What evictIdle removes does not depend on the order in which the map is visited. */
  lemma {:induction false} EvictIdleExact(s: Cache, order: seq<string>, maxIdle: nat, now: nat)
    requires SameDomains(s)
    ensures var s' := EvictIdle(s, order, maxIdle, now);
            && SameDomains(s')
            && (forall k :: k in s'.clients <==> k in s.clients && !(k in order && Idle(s, k, maxIdle, now)))
            && (forall k :: k in s'.clients ==>
                  s'.clients[k] == s.clients[k] && s'.fingerprints[k] == s.fingerprints[k]
                      && s'.lastUsed[k] == s.lastUsed[k])
  {
    if order != [] {
      EvictIdleExact(s, order[..|order| - 1], maxIdle, now);
      assert forall k :: k in order <==> k in order[..|order| - 1] || k == order[|order| - 1];
    }
  }

  /** Close hands over exactly the clients not yet handed over, each once. */
  lemma CloseHandsOverTheRest(s: Cache, stored: set<ClientId>, order: seq<string>)
    requires Owned(s, stored) && Enumerates(order, s.clients.Keys)
    ensures var all := s.closed + CachedClients(s, order) + RetiredClients(s.retired);
            Distinct(all) && forall c :: c in all <==> c in stored
  {
    hide RetiredClients;
    var cached, gone := CachedClients(s, order), RetiredClients(s.retired);
    CachedClientsAre(s, order);
    assert forall c :: c in cached <==> IsCached(s, c);
    DistinctConcat(s.closed, cached);
    assert forall c :: c in s.closed + cached <==> c in s.closed || c in cached;
    assert forall i :: 0 <= i < |gone| ==> gone[i] in gone && IsRetired(s, gone[i]);
    DistinctConcat(s.closed + cached, gone);
  }

  lemma {:induction false} CachedClientsAre(s: Cache, order: seq<string>)
    requires forall k, k' :: k in s.clients && k' in s.clients && k != k' ==> s.clients[k] != s.clients[k']
    requires forall i, j :: 0 <= i < j < |order| ==> order[i] != order[j]
    ensures Distinct(CachedClients(s, order))
    ensures forall c :: c in CachedClients(s, order) <==> exists k :: k in order && k in s.clients && s.clients[k] == c
  {
    if order != [] {
      CachedClientsAre(s, order[..|order| - 1]);
      var init, last := order[..|order| - 1], order[|order| - 1];
      assert forall k :: k in order <==> k in init || k == last;
      assert last !in init;
      DistinctConcat(CachedClients(s, init), if last in s.clients then [s.clients[last]] else []);
    }
  }
}
