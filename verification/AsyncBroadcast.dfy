/** Broadcasting in the background, with the answers left in the inbox (internal/tool/tool_broadcast.go). */
module AsyncBroadcast {
  import opened Prelude
  import opened Sequences
  import opened A2A
  import Health
  import opened Gateway
  import opened Streaming
  import opened Broadcast
  import opened Background
  import opened Inbox
  import InboxRuns

  /** What the caller is told at once about an alias. */
  datatype Dispatch = Dispatched | Unknown | Limited

  /** The answer to one occurrence of an alias. */
  function DispatchOf(registered: bool, limited: bool): Dispatch {
    if !registered then Unknown else if limited then Limited else Dispatched
  }

  /** One call: the aliases named, the registered ones, and what the rate limiter says at each occurrence. */
  datatype Request = Request(aliases: seq<string>, registered: set<string>, limited: seq<bool>) {
    predicate Valid() {
      |limited| == |aliases|
    }

    function Answer(i: nat): Dispatch
      requires Valid() && i < |aliases|
    {
      DispatchOf(aliases[i] in registered, limited[i])
    }
  }

  /** The results after the first `n` occurrences: keyed by alias, each occurrence replacing what an earlier one
      left. */
  function Reported(r: Request, n: nat): map<string, Dispatch>
    requires r.Valid() && n <= |r.aliases|
  {
    if n == 0 then map[] else Reported(r, n - 1)[r.aliases[n - 1] := r.Answer(n - 1)]
  }

  /** The occurrences among the first `n` for which a goroutine was started. */
  function Spawned(r: Request, n: nat): seq<nat>
    requires r.Valid() && n <= |r.aliases|
  {
    if n == 0 then []
    else if r.Answer(n - 1) == Dispatched then Spawned(r, n - 1) + [n - 1]
    else Spawned(r, n - 1)
  }

  method Start(r: Request) returns (results: map<string, Dispatch>, spawned: seq<nat>)
    requires r.Valid()
    ensures results == Reported(r, |r.aliases|) && spawned == Spawned(r, |r.aliases|)
  {
    results, spawned := map[], [];
    for i := 0 to |r.aliases|
      invariant results == Reported(r, i) && spawned == Spawned(r, i)
    {
      var alias := r.aliases[i];
      if alias !in r.registered {
        results := results[alias := Unknown];
        continue;
      }
      if r.limited[i] {
        results := results[alias := Limited];
        continue;
      }
      spawned := spawned + [i];
      results := results[alias := Dispatched];
    }
  }

  predicate InRange(order: seq<nat>, n: nat) {
    forall k | 0 <= k < |order| :: order[k] < n
  }

  lemma {:induction false} SpawnedIsInRange(r: Request, n: nat)
    requires r.Valid() && n <= |r.aliases|
    ensures InRange(Spawned(r, n), n)
  {
    if n == 0 {
    } else {
      SpawnedIsInRange(r, n - 1);
    }
  }

  /** A goroutine is started only for a registered alias that is not limited there, and for every such occurrence. */
  lemma {:induction false} SpawnedIffAdmitted(r: Request, n: nat, i: nat)
    requires r.Valid() && i < n <= |r.aliases|
    ensures i in Spawned(r, n) <==> r.aliases[i] in r.registered && !r.limited[i]
  {
    if i == n - 1 {
      SpawnedIsInRange(r, n - 1);
      assert i !in Spawned(r, n - 1);
    } else {
      SpawnedIffAdmitted(r, n - 1, i);
    }
  }

  /** `i` is the last of the first `n` occurrences that names the alias. */
  ghost predicate IsLastOf(r: Request, n: nat, alias: string, i: nat) {
    i < n <= |r.aliases| && r.aliases[i] == alias && forall j | i < j < n :: r.aliases[j] != alias
  }

  lemma {:induction false} ReportNamesAliases(r: Request, n: nat, alias: string)
    requires r.Valid() && n <= |r.aliases|
    ensures alias in Reported(r, n) <==> alias in r.aliases[..n]
  {
    if n == 0 {
    } else {
      ReportNamesAliases(r, n - 1, alias);
      assert r.aliases[..n] == r.aliases[..n - 1] + [r.aliases[n - 1]];
    }
  }

  /** An alias is answered as is true of its last occurrence: unknown if it is not registered, else limited if it is
      limited there, and otherwise dispatched. */
  lemma {:induction false} ReportTells(r: Request, n: nat, alias: string, i: nat)
    requires r.Valid() && IsLastOf(r, n, alias, i)
    ensures alias in Reported(r, n)
    ensures Reported(r, n)[alias] == Unknown <==> alias !in r.registered
    ensures Reported(r, n)[alias] == Limited <==> alias in r.registered && r.limited[i]
    ensures Reported(r, n)[alias] == Dispatched <==> alias in r.registered && !r.limited[i]
  {
    if i == n - 1 {
    } else {
      ReportTells(r, n - 1, alias, i);
    }
  }

  // -------- The goroutines --------

  /** An unhealthy agent is skipped without an error, and its entry says nothing but its alias. */
  function EntryOfOutcome(alias: string, outcome: AgentOutcome): Entry {
    match outcome
    case AgentOutcome(Unusable(reason), _) =>
      Entry(alias, "", "", DispatchError, ZERO_TIME, None, None, BroadcastTrouble(reason))
    case AgentOutcome(_, Some(TaskOutput(task))) => EntryFromTask(alias, task)
    case AgentOutcome(_, Some(MessageOutput(message))) => EntryFromMessage(alias, message)
    case AgentOutcome(_, None) => Entry(alias, "", "", Blank, ZERO_TIME, None, None, NoTrouble)
  }

  /** The entry tells the outcome: an answer is there with its identifiers and state, and what made the agent
      unusable is there as the error. */
  lemma EntryTellsOutcome(alias: string, o: Oracle, health: Health.HealthState, cached: bool, threshold: int)
    ensures var outcome := Attempted(o, health, cached, threshold).0;
            var e := EntryOfOutcome(alias, outcome);
            && e.alias == alias
            && (outcome.status.Unusable? ==>
                  e == Entry(alias, "", "", DispatchError, 0, None, None, BroadcastTrouble(outcome.status.reason)))
            && (outcome.response.Some? ==>
                  match outcome.response.value
                  case TaskOutput(task) =>
                    e ==
                    Entry(alias, task.id, task.contextId, FromTask(task.status.state), 0, Some(task), None, NoTrouble)
                  case MessageOutput(message) =>
                    e == Entry(alias, "", message.contextId, CompletedMessage, 0, None, Some(message), NoTrouble))
  {
    hide Ending, SyntheticTask;
  }

  /** The entry says neither what became of the message nor what went wrong exactly when the agent is registered and was
      skipped as unhealthy. */
  lemma BlankEntryIffUnhealthy(alias: string, o: Oracle, health: Health.HealthState, cached: bool, threshold: int)
    ensures var entry := EntryOfOutcome(alias, Attempted(o, health, cached, threshold).0);
            && (entry.state == Blank && entry.error == NoTrouble <==>
                o.url.Some? && threshold > 0 && health.status == Health.Unhealthy)
            && (entry.state == Blank ==> entry == Entry(alias, "", "", Blank, ZERO_TIME, None, None, NoTrouble))
  {
    hide Ending, SyntheticTask;
  }

  /** On every path, skipped and limited ones too, exactly one entry is left, next to the mark, the record and the
      cached client that the same attempt leaves in the foreground. */
  method BackgroundBroadcastToAgent(env: Env, inbox: MemoryInbox, alias: string, o: Oracle, now: int)
    requires inbox.Valid() && env.history.depth >= 1 && o.url == UrlOf(env.registry.entries, alias)
    modifies env.health, env.history, env.resolver, inbox, inbox.entries.buf
    ensures inbox.Valid() && (inbox.entries.buf == old(inbox.entries.buf) || fresh(inbox.entries.buf))
    ensures var health := Health.Shown(old(env.health.agents), alias);
            var cached := IsCached(old(env.resolver.clients).Keys, o.url);
            var attempt := Attempted(o, health, cached, env.health.threshold);
            && inbox.Contents() == old(inbox.Contents()) + [Stamped(EntryOfOutcome(alias, attempt.0), now)]
            && env.View() == AfterAttempt(old(env.View()), alias, attempt, env.health.threshold, env.history.depth)
            && env.resolver.View() == CacheAfterAttempt(old(env.resolver.View()), o, health, env.health.threshold)
  {
    hide Attempted, AfterAttempt, CacheAfterAttempt;
    var outcome := BroadcastToAgent(env, alias, o);
    var entry := Entry(alias, "", "", Blank, ZERO_TIME, None, None, NoTrouble);
    if outcome.status.Unusable? {
      entry := entry.(state := DispatchError, error := BroadcastTrouble(outcome.status.reason));
    } else if outcome.response.Some? {
      match outcome.response.value {
        case TaskOutput(task) =>
          entry := entry.(taskId := task.id, contextId := task.contextId, state := FromTask(task.status.state),
                          task := Some(task));
        case MessageOutput(message) =>
          entry := entry.(contextId := message.contextId, state := CompletedMessage, message := Some(message));
      }
    }
    inbox.Deposit(entry, now);
  }

  // -------- One deposit for each dispatch --------

  /** The entries left when the goroutines finish in the given order: the k-th one to finish was started for occurrence
      `order[k]`, met with `outcomes[k]`, and finished at `times[k]`. */
  function Deposits(r: Request, order: seq<nat>, outcomes: seq<AgentOutcome>, times: seq<int>): seq<Entry>
    requires |order| == |outcomes| == |times| && InRange(order, |r.aliases|)
  {
    if order == [] then []
    else
      [Stamped(EntryOfOutcome(r.aliases[order[0]], outcomes[0]), times[0])]
      + Deposits(r, order[1..], outcomes[1..], times[1..])
  }

  /** The occurrence is one of the alias. */
  function Names(r: Request, alias: string): nat -> bool {
    (i: nat) => if i < |r.aliases| then r.aliases[i] == alias else false
  }

  lemma {:induction false} DepositsAreFiledByAlias(r: Request, order: seq<nat>, outcomes: seq<AgentOutcome>,
                                                   times: seq<int>, alias: string)
    requires |order| == |outcomes| == |times| && InRange(order, |r.aliases|)
    ensures |Deposits(r, order, outcomes, times)| == |order|
    ensures |Filter(Deposits(r, order, outcomes, times), IsOf(alias))| == |Filter(order, Names(r, alias))|
  {
    if order == [] {
    } else {
      DepositsAreFiledByAlias(r, order[1..], outcomes[1..], times[1..], alias);
      var rest := Deposits(r, order[1..], outcomes[1..], times[1..]);
      var all := Deposits(r, order, outcomes, times);
      assert all[0].alias == r.aliases[order[0]] && all[1..] == rest;
    }
  }

  lemma RearrangedInRange(order: seq<nat>, spawned: seq<nat>, n: nat)
    requires multiset(order) == multiset(spawned) && InRange(spawned, n)
    ensures InRange(order, n) && |order| == |spawned|
  {
    forall k | 0 <= k < |order| ensures order[k] < n {
      assert order[k] in multiset(spawned);
      assert order[k] in spawned;
    }
    assert |multiset(order)| == |order| && |multiset(spawned)| == |spawned|;
  }

  /** Whatever the outcomes and in whatever order the goroutines finish, the inbox receives one entry for each
      dispatched occurrence and none else: as many for an alias as there are occurrences of it that were dispatched. */
  lemma OneDepositPerDispatch(r: Request, order: seq<nat>, outcomes: seq<AgentOutcome>, times: seq<int>, alias: string)
    requires r.Valid() && |order| == |outcomes| == |times| && multiset(order) == multiset(Spawned(r, |r.aliases|))
    ensures InRange(order, |r.aliases|)
    ensures |Deposits(r, order, outcomes, times)| == |Spawned(r, |r.aliases|)|
    ensures |Filter(Deposits(r, order, outcomes, times), IsOf(alias))| ==
            |Filter(Spawned(r, |r.aliases|), Names(r, alias))|
  {
    var spawned := Spawned(r, |r.aliases|);
    SpawnedIsInRange(r, |r.aliases|);
    RearrangedInRange(order, spawned, |r.aliases|);
    DepositsAreFiledByAlias(r, order, outcomes, times, alias);
    FilterOfRearrangement(order, spawned, Names(r, alias));
  }

  /** How many of the first `n` occurrences of an alias were dispatched. */
  function DispatchCount(r: Request, n: nat, alias: string): nat
    requires r.Valid() && n <= |r.aliases|
  {
    if n == 0 then 0
    else DispatchCount(r, n - 1, alias) + if r.aliases[n - 1] == alias && r.Answer(n - 1) == Dispatched then 1 else 0
  }

  lemma {:induction false} SpawnedPerAlias(r: Request, n: nat, alias: string)
    requires r.Valid() && n <= |r.aliases|
    ensures |Filter(Spawned(r, n), Names(r, alias))| == DispatchCount(r, n, alias)
  {
    if n == 0 {
    } else {
      SpawnedPerAlias(r, n - 1, alias);
      var last: seq<nat> := [n - 1];
      FilterConcat<nat>(Spawned(r, n - 1), last, Names(r, alias));
    }
  }

  /** No occurrence of the alias among the first `n` was dispatched except perhaps the last one. */
  ghost predicate OnlyLastDispatched(r: Request, n: nat, alias: string)
    requires r.Valid() && n <= |r.aliases|
  {
    forall j, k | 0 <= j < k < n && r.aliases[j] == alias && r.aliases[k] == alias :: r.Answer(j) != Dispatched
  }

  lemma {:induction false} CountIsZeroIff(r: Request, n: nat, alias: string)
    requires r.Valid() && n <= |r.aliases|
    ensures DispatchCount(r, n, alias) == 0 <==>
              forall j | 0 <= j < n && r.aliases[j] == alias :: r.Answer(j) != Dispatched
  {
    if n == 0 {
    } else {
      CountIsZeroIff(r, n - 1, alias);
    }
  }

  lemma {:induction false} UnnamedIsUnreported(r: Request, n: nat, alias: string)
    requires r.Valid() && n <= |r.aliases| && forall j | 0 <= j < n :: r.aliases[j] != alias
    ensures alias !in Reported(r, n)
  {
    if n == 0 {
    } else {
      UnnamedIsUnreported(r, n - 1, alias);
    }
  }

  /** The entries that the report after `n` occurrences promises an alias. */
  function Promised(r: Request, n: nat, alias: string): nat
    requires r.Valid() && n <= |r.aliases|
  {
    if alias in Reported(r, n) && Reported(r, n)[alias] == Dispatched then 1 else 0
  }

  /** The report shows the last occurrence of an alias, so it counts right exactly when no earlier one was
      dispatched. */
  lemma {:induction false} ReportCountsDispatchesIff(r: Request, n: nat, alias: string)
    requires r.Valid() && n <= |r.aliases|
    ensures DispatchCount(r, n, alias) == Promised(r, n, alias) <==> OnlyLastDispatched(r, n, alias)
  {
    if n == 0 {
    } else if r.aliases[n - 1] == alias {
      CountIsZeroIff(r, n - 1, alias);
    } else {
      ReportCountsDispatchesIff(r, n - 1, alias);
    }
  }

  /** For every request: an alias receives the entries its report promises, one if it is reported as dispatched and none
      otherwise, if and only if none of its occurrences but the last was dispatched. */
  lemma ReportMatchesDepositsIff(r: Request, order: seq<nat>, outcomes: seq<AgentOutcome>, times: seq<int>,
                                 alias: string)
    requires r.Valid() && |order| == |outcomes| == |times| && multiset(order) == multiset(Spawned(r, |r.aliases|))
    ensures InRange(order, |r.aliases|)
    ensures |Filter(Deposits(r, order, outcomes, times), IsOf(alias))| == Promised(r, |r.aliases|, alias) <==>
            OnlyLastDispatched(r, |r.aliases|, alias)
  {
    hide OnlyLastDispatched, Promised;
    OneDepositPerDispatch(r, order, outcomes, times, alias);
    SpawnedPerAlias(r, |r.aliases|, alias);
    ReportCountsDispatchesIff(r, |r.aliases|, alias);
  }

  /** So if no alias is named twice, an alias reported as dispatched receives exactly one entry, and any other none. */
  lemma ReportMatchesDeposits(r: Request, order: seq<nat>, outcomes: seq<AgentOutcome>, times: seq<int>, alias: string)
    requires r.Valid() && AllDistinct(r.aliases)
    requires |order| == |outcomes| == |times| && multiset(order) == multiset(Spawned(r, |r.aliases|))
    ensures InRange(order, |r.aliases|)
    ensures |Filter(Deposits(r, order, outcomes, times), IsOf(alias))| == Promised(r, |r.aliases|, alias)
  {
    hide Promised, Filter, Spawned;
    ReportMatchesDepositsIff(r, order, outcomes, times, alias);
  }

  /** A request for these aliases from the one registered agent; its limiter refuses the occurrences from `limit` on. */
  function Repeated(aliases: seq<string>, alias: string, limit: nat): Request {
    Request.Request(aliases, {alias}, seq(|aliases|, k => k >= limit))
  }

  lemma {:induction false} CountGrows(r: Request, m: nat, n: nat, alias: string)
    requires r.Valid() && m <= n <= |r.aliases|
    ensures DispatchCount(r, m, alias) <= DispatchCount(r, n, alias)
  {
    if m == n {
    } else {
      CountGrows(r, m, n - 1, alias);
    }
  }

  /** The report on an alias is the answer to its last occurrence. */
  lemma {:induction false} ReportShowsLast(r: Request, n: nat, k: nat)
    requires r.Valid() && k < n <= |r.aliases| && forall l | k < l < n :: r.aliases[l] != r.aliases[k]
    ensures r.aliases[k] in Reported(r, n) && Reported(r, n)[r.aliases[k]] == r.Answer(k)
  {
    if n == k + 1 {
    } else {
      ReportShowsLast(r, n - 1, k);
    }
  }

  /** Whatever list names an alias twice: with nothing limited it is reported as dispatched once and at least two
      entries follow; and when the limiter steps in at its last occurrence, it is reported as limited and entries
      still follow. */
  lemma RepeatedAliasIsMisreported(aliases: seq<string>, i: nat, j: nat)
    requires i < j < |aliases| && aliases[i] == aliases[j] && forall l | j < l < |aliases| :: aliases[l] != aliases[j]
    ensures var alias, n := aliases[i], |aliases|;
            var free, limited := Repeated(aliases, alias, n), Repeated(aliases, alias, j);
            && alias in Reported(free, n) && alias in Reported(limited, n)
            && Reported(free, n)[alias] == Dispatched && DispatchCount(free, n, alias) >= 2
            && Reported(limited, n)[alias] == Limited && DispatchCount(limited, n, alias) >= 1
  {
    var alias, n := aliases[i], |aliases|;
    var free, limited := Repeated(aliases, alias, n), Repeated(aliases, alias, j);
    ReportShowsLast(free, n, j);
    ReportShowsLast(limited, n, j);
    CountGrows(free, i + 1, j, alias);
    CountGrows(free, j + 1, n, alias);
    CountGrows(limited, i + 1, n, alias);
    assert free.Answer(i) == Dispatched && free.Answer(j) == Dispatched && limited.Answer(i) == Dispatched;
  }

  /** Every request for these aliases is reported as it is served. */
  ghost predicate AlwaysReportedRight(aliases: seq<string>) {
    forall r: Request, alias | r.Valid() && r.aliases == aliases ::
      DispatchCount(r, |aliases|, alias) == Promised(r, |aliases|, alias)
  }

  lemma LastOccurrence(aliases: seq<string>, i: nat) returns (j: nat)
    requires i < |aliases|
    ensures i <= j < |aliases| && aliases[j] == aliases[i] && forall l | j < l < |aliases| :: aliases[l] != aliases[j]
    decreases |aliases| - i
  {
    if l :| i < l < |aliases| && aliases[l] == aliases[i] {
      j := LastOccurrence(aliases, l);
    } else {
      j := i;
    }
  }

  /** The report can be relied on, whoever is registered and whatever the limiter says, exactly when no alias is named
      twice. */
  lemma ReportedRightIffDistinct(aliases: seq<string>)
    ensures AlwaysReportedRight(aliases) <==> AllDistinct(aliases)
  {
    if AllDistinct(aliases) {
      forall r: Request, alias | r.Valid() && r.aliases == aliases
        ensures DispatchCount(r, |aliases|, alias) == Promised(r, |aliases|, alias)
      {
        ReportCountsDispatchesIff(r, |aliases|, alias);
      }
    } else {
      var i, j :| 0 <= i < j < |aliases| && aliases[i] == aliases[j];
      var last := LastOccurrence(aliases, j);
      RepeatedAliasIsMisreported(aliases, i, last);
      var free := Repeated(aliases, aliases[i], |aliases|);
      assert DispatchCount(free, |aliases|, aliases[i]) != Promised(free, |aliases|, aliases[i]);
    }
  }

  // -------- From dispatch to delivery --------

  /** Every entry an inbox run has accounted for, wherever it went. */
  function Accounted(l: InboxRuns.Ledger): seq<Entry> {
    l.delivered + l.dropped + l.expired + l.store
  }

  lemma AccountedIsDeposited(ttl: int, steps: seq<InboxRuns.Step>)
    ensures multiset(Accounted(InboxRuns.Run(ttl, steps))) == multiset(InboxRuns.Run(ttl, steps).deposited)
  {
    hide InboxRuns.Run;
    InboxRuns.Conservation(ttl, steps);
  }

  /** An inbox fed by one background broadcast among other senders, whatever reads come in between: the entries of an
      alias, delivered, dropped by a latest-only read, expired or pending, are those of the other senders and exactly
      one for each of its dispatched occurrences. */
  lemma DispatchedAnswersAreAccountedFor(r: Request, order: seq<nat>, outcomes: seq<AgentOutcome>, times: seq<int>,
                                         others: seq<Entry>, ttl: int, steps: seq<InboxRuns.Step>, alias: string)
    requires r.Valid() && |order| == |outcomes| == |times| && multiset(order) == multiset(Spawned(r, |r.aliases|))
    requires InRange(order, |r.aliases|)
    requires multiset(InboxRuns.Run(ttl, steps).deposited) ==
             multiset(Deposits(r, order, outcomes, times)) + multiset(others)
    ensures |Filter(Accounted(InboxRuns.Run(ttl, steps)), IsOf(alias))| ==
            DispatchCount(r, |r.aliases|, alias) + |Filter(others, IsOf(alias))|
  {
    hide InboxRuns.Run, Deposits, Spawned, Filter, Accounted, DispatchCount;
    var l, ours := InboxRuns.Run(ttl, steps), Deposits(r, order, outcomes, times);
    AccountedIsDeposited(ttl, steps);
    FilterOfRearrangement(Accounted(l), ours + others, IsOf(alias));
    FilterConcat(ours, others, IsOf(alias));
    OneDepositPerDispatch(r, order, outcomes, times, alias);
    SpawnedPerAlias(r, |r.aliases|, alias);
  }
}
