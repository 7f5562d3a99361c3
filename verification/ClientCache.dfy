/** The double-checked client cache (registry/client_resolver.go) and evict-and-retry over it
    (internal/tool/auth_retry.go). */
module ClientCache {
  import opened Prelude

  /** Linearised effects on the cache. A client is named by the position of its creation in this log. */
  datatype Event =
    | Created(url: string, client: nat)
    | Returned(url: string, client: nat)
    | Evicted(url: string)

  datatype Cache = Cache(clients: map<string, nat>, log: seq<Event>)

  // -------- The critical sections --------

  /** Under the read lock: a hit is returned. */
  function SharedLookup(c: Cache, url: string): (Cache, Option<nat>) {
    if url in c.clients then (c.(log := c.log + [Returned(url, c.clients[url])]), Some(c.clients[url]))
    else (c, None)
  }

  /** Under the write lock: look again, else create and store; creation may fail. */
  function ExclusiveLoad(c: Cache, url: string, creates: bool): (Cache, Option<nat>) {
    if url in c.clients then SharedLookup(c, url)
    else if !creates then (c, None)
    else
      var client := |c.log|;
      (Cache(c.clients[url := client], c.log + [Created(url, client), Returned(url, client)]), Some(client))
  }

  function Eviction(c: Cache, url: string): Cache {
    Cache(c.clients - {url}, c.log + [Evicted(url)])
  }

  class Client {
    /** The position of this client's creation in the log. */
    ghost const born: nat

    constructor (ghost born: nat)
      ensures this.born == born
    {
      this.born := born;
    }
  }

  class ClientResolver {
    var clients: map<string, Client>
    ghost var log: seq<Event>

    constructor ()
      ensures View() == Cache(map[], [])
    {
      clients := map[];
      log := [];
    }

    ghost function View(): Cache
      reads this
    {
      Cache(map url | url in clients :: clients[url].born, log)
    }

    method LookupShared(url: string) returns (found: Option<Client>)
      modifies this`log
      ensures View() == SharedLookup(old(View()), url).0
      ensures found == if url in clients then Some(clients[url]) else None
    {
      if url in clients {
        log := log + [Returned(url, clients[url].born)];
        return Some(clients[url]);
      }
      return None;
    }

    method LoadExclusive(url: string, creates: bool) returns (found: Option<Client>)
      modifies this
      ensures View() == ExclusiveLoad(old(View()), url, creates).0
      ensures found.Some? <==> url in old(clients) || creates
      ensures found.Some? ==> url in clients && found.value == clients[url]
      ensures found.Some? && url !in old(clients) ==> fresh(found.value)
      ensures clients ==
              if url in old(clients) || !creates then old(clients) else old(clients)[url := found.value]
    {
      if url in clients {
        log := log + [Returned(url, clients[url].born)];
        return Some(clients[url]);
      }
      if !creates {
        return None;
      }
      var client := new Client(|log|);
      clients := clients[url := client];
      log := log + [Created(url, |log|), Returned(url, |log|)];
      return Some(client);
    }

    /** Resolve when no other thread comes between its two critical sections. */
    method Resolve(url: string, creates: bool) returns (found: Option<Client>)
      modifies this
      ensures View() == ExclusiveLoad(old(View()), url, creates).0
      ensures found.Some? <==> url in old(clients) || creates
      ensures found.Some? ==> url in clients && found.value == clients[url]
      ensures found.Some? && url !in old(clients) ==> fresh(found.value)
      ensures clients ==
              if url in old(clients) || !creates then old(clients) else old(clients)[url := found.value]
    {
      found := LookupShared(url);
      if found.Some? {
        return;
      }
      found := LoadExclusive(url, creates);
    }

    method Evict(url: string)
      modifies this
      ensures View() == Eviction(old(View()), url)
      ensures clients == old(clients) - {url}
    {
      clients := clients - {url};
      log := log + [Evicted(url)];
    }
  }

  // -------- Evict and retry, by one caller --------

  datatype FnOutcome = FnOk | FnAuthError | FnOtherError

  datatype RetryResult = Ran(outcome: FnOutcome) | NotResolved

  /** The cache after evict-and-retry: the first client stays unless running with it failed to authenticate. */
  function CacheAfterRetry(c: Cache, url: string, creates: (bool, bool), first: FnOutcome): Cache {
    var (resolved, client) := ExclusiveLoad(c, url, creates.0);
    if client.None? || first != FnAuthError then resolved
    else ExclusiveLoad(Eviction(resolved, url), url, creates.1).0
  }

  /** `creates` and `outcomes` are what creating a client and running `fn` give the first and the second time. */
  method ResolveClientWithAuthRetry(resolver: ClientResolver, url: string, creates: (bool, bool),
                                    outcomes: (FnOutcome, FnOutcome))
    returns (r: RetryResult, used: seq<Client>)
    modifies resolver
    ensures |used| <= 2
    ensures |used| == 0 <==> url !in old(resolver.clients) && !creates.0
    ensures |used| == 2 ==> outcomes.0 == FnAuthError && fresh(used[1]) && used[0] != used[1]
    ensures url in old(resolver.clients) ==> |used| > 0 && used[0] == old(resolver.clients)[url]
    ensures |used| > 0 && (|used| == 2 || outcomes.0 != FnAuthError) ==>
              url in resolver.clients && resolver.clients[url] == used[|used| - 1]
    ensures |used| > 0 && outcomes.0 == FnAuthError ==> (|used| == 2 <==> creates.1)
    ensures r == if |used| == 2 then Ran(outcomes.1)
                 else if |used| == 1 && outcomes.0 != FnAuthError then Ran(outcomes.0)
                 else NotResolved
    ensures resolver.View() == CacheAfterRetry(old(resolver.View()), url, creates, outcomes.0)
  {
    used := [];
    var client := resolver.Resolve(url, creates.0);
    if client.None? {
      return NotResolved, used;
    }
    used := [client.value];
    if outcomes.0 != FnAuthError {
      return Ran(outcomes.0), used;
    }
    resolver.Evict(url);
    label Evicted:
    client := resolver.Resolve(url, creates.1);
    if client.None? {
      return NotResolved, used;
    }
    assert fresh@Evicted(client.value);
    used := used + [client.value];
    return Ran(outcomes.1), used;
  }

  // -------- Many threads --------

  datatype Phase = Looking | Missed | Holding(client: nat) | MustEvict | Done

  /** One caller of resolveClientWithAuthRetry: the clients it ran `fn` with, what each run gave, and the log positions
      of its own evictions. A caller that only resolves is one whose first run succeeds. */
  datatype Thread = Thread(url: string, phase: Phase, used: seq<nat>, outcomes: seq<FnOutcome>, evictions: seq<nat>)

  datatype State = State(cache: Cache, threads: seq<Thread>)

  /** A thread's next step: one critical section, or one run of `fn`. */
  datatype Move = Look | Load(creates: bool) | RunFn(outcome: FnOutcome) | EvictOwn

  datatype Action = By(t: nat, move: Move) | EvictOther(url: string)

  function Received(thread: Thread, found: Option<nat>, otherwise: Phase): Thread {
    thread.(phase := if found.Some? then Holding(found.value) else otherwise)
  }

  /** A move that is not the thread's next one changes nothing. */
  function Advance(c: Cache, th: Thread, move: Move): (Cache, Thread) {
    match (th.phase, move)
    case (Looking, Look) =>
      var (c', found) := SharedLookup(c, th.url);
      (c', Received(th, found, Missed))
    case (Missed, Load(creates)) =>
      var (c', found) := ExclusiveLoad(c, th.url, creates);
      (c', Received(th, found, Done))
    case (Holding(client), RunFn(outcome)) =>
      var phase := if outcome == FnAuthError && th.evictions == [] then MustEvict else Done;
      (c, th.(phase := phase, used := th.used + [client], outcomes := th.outcomes + [outcome]))
    case (MustEvict, EvictOwn) =>
      var here: nat := |c.log|;
      (Eviction(c, th.url), th.(phase := Looking, evictions := th.evictions + [here]))
    case _ => (c, th)
  }

  function Next(s: State, a: Action): State {
    match a
    case EvictOther(url) => s.(cache := Eviction(s.cache, url))
    case By(t, move) =>
      if t < |s.threads| then
        var (cache, th) := Advance(s.cache, s.threads[t], move);
        State(cache, s.threads[t := th])
      else s
  }

  function Start(urls: seq<string>): State {
    State(Cache(map[], []), seq(|urls|, i requires 0 <= i < |urls| => Thread(urls[i], Looking, [], [], [])))
  }

  /** Any number of threads, any interleaving. */
  function Run(urls: seq<string>, actions: seq<Action>): State {
    if actions == [] then Start(urls) else Next(Run(urls, actions[..|actions| - 1]), actions[|actions| - 1])
  }

  // -------- The invariant of the cache --------

  ghost predicate EvictedBetween(log: seq<Event>, url: string, i: int, j: int) {
    exists k :: 0 <= i <= k < j <= |log| && log[k] == Evicted(url)
  }

  /** What is cached was created and not evicted since. */
  ghost predicate CachedIsCurrent(c: Cache) {
    forall url | url in c.clients ::
      var i := c.clients[url]; i < |c.log| && c.log[i] == Created(url, i) && !EvictedBetween(c.log, url, i, |c.log|)
  }

  /** What was created and not evicted since is cached. */
  ghost predicate CurrentIsCached(c: Cache) {
    forall i | 0 <= i < |c.log| && c.log[i].Created? ::
      && c.log[i].client == i
      && var url := c.log[i].url;
         EvictedBetween(c.log, url, i, |c.log|) || (url in c.clients && c.clients[url] == i)
  }

  /** Every client returned had been created and was not evicted in between. */
  ghost predicate ReturnedIsCurrent(log: seq<Event>) {
    forall j | 0 <= j < |log| && log[j].Returned? ::
      var i := log[j].client; i < j && log[i] == Created(log[j].url, i) && !EvictedBetween(log, log[j].url, i, j)
  }

  /** Between two creations for one URL lies an eviction. */
  ghost predicate OneCreationPerEpoch(log: seq<Event>) {
    forall i, j | 0 <= i < j < |log| && log[i].Created? && log[j].Created? && log[i].url == log[j].url ::
      EvictedBetween(log, log[i].url, i, j)
  }

  ghost predicate CacheInvariant(c: Cache) {
    CachedIsCurrent(c) && CurrentIsCached(c) && ReturnedIsCurrent(c.log) && OneCreationPerEpoch(c.log)
  }

  /** What an event at the end of the log adds. */
  lemma EvictedBetweenExtends(log: seq<Event>, e: Event, url: string, i: int, j: int)
    ensures j <= |log| ==> (EvictedBetween(log + [e], url, i, j) <==> EvictedBetween(log, url, i, j))
    ensures 0 <= i <= |log| ==>
              (EvictedBetween(log + [e], url, i, |log| + 1) <==>
               EvictedBetween(log, url, i, |log|) || e == Evicted(url))
  {
    var log' := log + [e];
    if EvictedBetween(log, url, i, j) {
      var k :| 0 <= i <= k < j <= |log| && log[k] == Evicted(url);
      assert log'[k] == Evicted(url);
    }
    if EvictedBetween(log, url, i, |log|) {
      var k :| 0 <= i <= k < |log| && log[k] == Evicted(url);
      assert log'[k] == Evicted(url);
    }
    if 0 <= i <= |log| && e == Evicted(url) {
      assert log'[|log|] == Evicted(url);
    }
  }

  lemma ReturnKeepsInvariant(c: Cache, url: string)
    requires CacheInvariant(c) && url in c.clients
    ensures CacheInvariant(c.(log := c.log + [Returned(url, c.clients[url])]))
  {
    var e := Returned(url, c.clients[url]);
    QuietEventKeepsInvariant(c, e);
    var log' := c.log + [e];
    assert ReturnedIsCurrent(log') by {
      forall j | 0 <= j < |log'| && log'[j].Returned?
        ensures var i := log'[j].client;
                i < j && log'[i] == Created(log'[j].url, i) && !EvictedBetween(log', log'[j].url, i, j)
      {
        EvictedBetweenExtends(c.log, e, log'[j].url, log'[j].client, j);
      }
    }
  }

  /** An event that is neither a creation nor an eviction leaves the facts about creations and evictions alone. */
  lemma QuietEventKeepsInvariant(c: Cache, e: Event)
    requires CacheInvariant(c) && e.Returned?
    ensures var c' := c.(log := c.log + [e]); CachedIsCurrent(c') && CurrentIsCached(c') && OneCreationPerEpoch(c'.log)
  {
    var log' := c.log + [e];
    forall u | u in c.clients ensures !EvictedBetween(log', u, c.clients[u], |log'|) {
      EvictedBetweenExtends(c.log, e, u, c.clients[u], |c.log|);
    }
    forall i | 0 <= i < |log'| && log'[i].Created?
      ensures EvictedBetween(log', log'[i].url, i, |log'|) || (log'[i].url in c.clients && c.clients[log'[i].url] == i)
    {
      EvictedBetweenExtends(c.log, e, log'[i].url, i, |c.log|);
    }
    EpochsExtend(c.log, e);
  }

  lemma EpochsExtend(log: seq<Event>, e: Event)
    requires OneCreationPerEpoch(log)
    requires e.Created? ==> forall i | 0 <= i < |log| && log[i].Created? && log[i].url == e.url ::
      EvictedBetween(log, e.url, i, |log|)
    ensures OneCreationPerEpoch(log + [e])
  {
    var log' := log + [e];
    forall i, j | 0 <= i < j < |log'| && log'[i].Created? && log'[j].Created? && log'[i].url == log'[j].url
      ensures EvictedBetween(log', log'[i].url, i, j)
    {
      EvictedBetweenExtends(log, e, log'[i].url, i, j);
    }
  }

  lemma CreateKeepsInvariant(c: Cache, url: string)
    requires CacheInvariant(c) && url !in c.clients
    ensures CacheInvariant(Cache(c.clients[url := |c.log|], c.log + [Created(url, |c.log|)]))
  {
    var e := Created(url, |c.log|);
    var log', clients' := c.log + [e], c.clients[url := |c.log|];
    forall u | u in clients'
      ensures log'[clients'[u]] == Created(u, clients'[u]) && !EvictedBetween(log', u, clients'[u], |log'|)
    {
      EvictedBetweenExtends(c.log, e, u, clients'[u], |c.log|);
      assert !EvictedBetween(c.log, u, |c.log|, |c.log|);
    }
    forall i | 0 <= i < |log'| && log'[i].Created?
      ensures log'[i].client == i
      ensures EvictedBetween(log', log'[i].url, i, |log'|) || (log'[i].url in clients' && clients'[log'[i].url] == i)
    {
      EvictedBetweenExtends(c.log, e, log'[i].url, i, |c.log|);
    }
    EpochsExtend(c.log, e);
    ReturnsExtend(c.log, e);
  }

  lemma ReturnsExtend(log: seq<Event>, e: Event)
    requires ReturnedIsCurrent(log) && !e.Returned?
    ensures ReturnedIsCurrent(log + [e])
  {
    var log' := log + [e];
    forall j | 0 <= j < |log'| && log'[j].Returned?
      ensures var i := log'[j].client;
              i < j && log'[i] == Created(log'[j].url, i) && !EvictedBetween(log', log'[j].url, i, j)
    {
      EvictedBetweenExtends(log, e, log'[j].url, log'[j].client, j);
    }
  }

  lemma EvictionKeepsInvariant(c: Cache, url: string)
    requires CacheInvariant(c)
    ensures CacheInvariant(Eviction(c, url))
  {
    var e := Evicted(url);
    var log', clients' := c.log + [e], c.clients - {url};
    forall u | u in clients' ensures !EvictedBetween(log', u, clients'[u], |log'|) {
      EvictedBetweenExtends(c.log, e, u, clients'[u], |c.log|);
    }
    forall i | 0 <= i < |log'| && log'[i].Created?
      ensures EvictedBetween(log', log'[i].url, i, |log'|) || (log'[i].url in clients' && clients'[log'[i].url] == i)
    {
      EvictedBetweenExtends(c.log, e, log'[i].url, i, |c.log|);
    }
    EpochsExtend(c.log, e);
    ReturnsExtend(c.log, e);
  }

  lemma LoadKeepsInvariant(c: Cache, url: string, creates: bool)
    requires CacheInvariant(c)
    ensures CacheInvariant(ExclusiveLoad(c, url, creates).0) && CacheInvariant(SharedLookup(c, url).0)
  {
    hide CachedIsCurrent, CurrentIsCached, ReturnedIsCurrent, OneCreationPerEpoch;
    if url in c.clients {
      ReturnKeepsInvariant(c, url);
    } else if creates {
      CreateKeepsInvariant(c, url);
      var made := Cache(c.clients[url := |c.log|], c.log + [Created(url, |c.log|)]);
      ReturnKeepsInvariant(made, url);
      assert made.log + [Returned(url, |c.log|)] == c.log + [Created(url, |c.log|), Returned(url, |c.log|)];
    }
  }

  lemma {:induction false} ReachableCache(urls: seq<string>, actions: seq<Action>)
    ensures CacheInvariant(Run(urls, actions).cache)
  {
    if actions == [] {
    } else {
      hide CacheInvariant;
      ReachableCache(urls, actions[..|actions| - 1]);
      var s, a := Run(urls, actions[..|actions| - 1]), actions[|actions| - 1];
      match a {
        case EvictOther(url) => EvictionKeepsInvariant(s.cache, url);
        case By(t, move) =>
          if t < |s.threads| {
            EvictionKeepsInvariant(s.cache, s.threads[t].url);
            LoadKeepsInvariant(s.cache, s.threads[t].url, move == Load(true));
          }
      }
    }
  }

  // -------- The guarantees of the cache --------

  /** Under every interleaving, two successful resolutions of one URL without an eviction of it between them
      returned the same client. */
  lemma ResolutionsAgree(urls: seq<string>, actions: seq<Action>, i: nat, j: nat)
    requires var log := Run(urls, actions).cache.log;
             && i < j < |log| && log[i].Returned? && log[j].Returned? && log[i].url == log[j].url
             && !EvictedBetween(log, log[i].url, i, j)
    ensures var log := Run(urls, actions).cache.log; log[i].client == log[j].client
  {
    ReachableCache(urls, actions);
    var log := Run(urls, actions).cache.log;
    var a, b := log[i].client, log[j].client;
    assert log[a] == Created(log[i].url, a) && log[b] == Created(log[i].url, b);
    if a < b {
      NoEvictionAcross(log, log[i].url, a, i, j, b);
    } else if b < a {
      NoEvictionAcross(log, log[i].url, b, b, j, a);
    }
  }

  lemma NoEvictionAcross(log: seq<Event>, url: string, a: nat, i: nat, j: nat, b: nat)
    requires a <= i <= j && b <= j <= |log| && !EvictedBetween(log, url, a, i) && !EvictedBetween(log, url, i, j)
    ensures !EvictedBetween(log, url, a, b)
  {
  }

  /** At most one client is created for a URL between two evictions of it. */
  lemma OneClientPerEpoch(urls: seq<string>, actions: seq<Action>, i: nat, j: nat)
    requires var log := Run(urls, actions).cache.log;
             i < j < |log| && log[i].Created? && log[j].Created? && log[i].url == log[j].url
    ensures var log := Run(urls, actions).cache.log; EvictedBetween(log, log[i].url, i, j)
  {
    ReachableCache(urls, actions);
  }

  // -------- The guarantees of evict-and-retry --------

  predicate WasCreated(log: seq<Event>, url: string, client: nat) {
    client < |log| && log[client] == Created(url, client)
  }

  /** How far a caller has come, and that each client it uses is newer than its own last eviction. */
  ghost predicate ThreadInvariant(th: Thread, log: seq<Event>) {
    && |th.outcomes| == |th.used|
    && |th.evictions| <= 1
    && |th.used| == (match th.phase
                     case MustEvict => 1
                     case Done => |th.used|
                     case _ => |th.evictions|)
    && (th.phase == MustEvict ==> th.evictions == [] && th.outcomes[0] == FnAuthError)
    && (th.phase == Done ==> |th.used| <= |th.evictions| + 1)
    && (th.phase == Done && th.used != [] && th.outcomes[0] == FnAuthError ==> th.evictions != [])
    && (forall i | 0 <= i < |th.used| :: WasCreated(log, th.url, th.used[i]))
    && (th.evictions == [] ==> |th.used| <= 1)
    && (th.evictions != [] ==>
          && |th.used| >= 1 && th.outcomes[0] == FnAuthError
          && th.used[0] < th.evictions[0] < |log| && log[th.evictions[0]] == Evicted(th.url)
          && (|th.used| == 2 ==> th.used[1] > th.evictions[0]))
    && (th.phase.Holding? ==> WasCreated(log, th.url, th.phase.client)
                              && (th.evictions != [] ==> th.phase.client > th.evictions[0]))
  }

  /** Other threads only append to the log. */
  lemma ThreadInvariantExtends(th: Thread, log: seq<Event>, more: seq<Event>)
    requires ThreadInvariant(th, log)
    ensures ThreadInvariant(th, log + more)
  {
    assert forall i | 0 <= i < |log| :: (log + more)[i] == log[i];
  }

  /** A client that a lookup finds after an eviction of its URL was created after that eviction. */
  lemma FoundIsNewerThanEviction(c: Cache, url: string, eviction: nat)
    requires CachedIsCurrent(c) && url in c.clients && eviction < |c.log| && c.log[eviction] == Evicted(url)
    ensures c.clients[url] > eviction
  {
    assert !EvictedBetween(c.log, url, c.clients[url], |c.log|);
  }

  lemma AdvanceKeepsInvariant(c: Cache, th: Thread, move: Move)
    requires CacheInvariant(c) && ThreadInvariant(th, c.log)
    ensures var (c', th') := Advance(c, th, move);
            c.log <= c'.log && th'.url == th.url && ThreadInvariant(th', c'.log)
  {
    hide CurrentIsCached, ReturnedIsCurrent, OneCreationPerEpoch, EvictedBetween;
    var (c', th') := Advance(c, th, move);
    var more := c'.log[|c.log|..];
    assert c'.log == c.log + more;
    ThreadInvariantExtends(th, c.log, more);
    if th.url in c.clients && th.evictions != [] {
      FoundIsNewerThanEviction(c, th.url, th.evictions[0]);
    }
  }

  lemma {:induction false} ReachableThreads(urls: seq<string>, actions: seq<Action>)
    ensures var s := Run(urls, actions);
            |s.threads| == |urls| && forall t | 0 <= t < |urls| ::
              s.threads[t].url == urls[t] && ThreadInvariant(s.threads[t], s.cache.log)
  {
    if actions == [] {
    } else {
      hide ThreadInvariant, CacheInvariant;
      ReachableThreads(urls, actions[..|actions| - 1]);
      ReachableCache(urls, actions[..|actions| - 1]);
      var s, a := Run(urls, actions[..|actions| - 1]), actions[|actions| - 1];
      var s' := Next(s, a);
      if a.By? && a.t < |s.threads| {
        AdvanceKeepsInvariant(s.cache, s.threads[a.t], a.move);
      }
      assert s.cache.log <= s'.cache.log;
      forall t | 0 <= t < |urls| ensures s'.threads[t].url == urls[t] && ThreadInvariant(s'.threads[t], s'.cache.log) {
        if a.EvictOther? || t != a.t {
          ThreadInvariantExtends(s.threads[t], s.cache.log, s'.cache.log[|s.cache.log|..]);
          assert s.cache.log + s'.cache.log[|s.cache.log|..] == s'.cache.log;
        }
      }
    }
  }

  /** Under every interleaving of any number of callers and evictions by others: a caller runs `fn` at most twice and
      evicts at most once, only after an authentication error; and its second run uses a client created after its own
      eviction, hence never the one that failed. None stops after an authentication error without having evicted. */
  lemma RetryUsesNewClient(urls: seq<string>, actions: seq<Action>, t: nat)
    requires t < |urls|
    ensures t < |Run(urls, actions).threads|
    ensures var s := Run(urls, actions);
            var th := s.threads[t];
            && |th.used| == |th.outcomes| <= 2 && |th.evictions| <= 1
            && (th.evictions != [] ==> |th.outcomes| >= 1 && th.outcomes[0] == FnAuthError)
            && (th.phase == Done && th.outcomes != [] && th.outcomes[0] == FnAuthError ==> th.evictions != [])
            && (|th.used| == 2 ==>
                  && th.evictions != []
                  && WasCreated(s.cache.log, urls[t], th.used[0]) && WasCreated(s.cache.log, urls[t], th.used[1])
                  && th.used[0] < th.evictions[0] < th.used[1]
                  && th.evictions[0] < |s.cache.log| && s.cache.log[th.evictions[0]] == Evicted(urls[t]))
  {
    ReachableThreads(urls, actions);
  }
}
