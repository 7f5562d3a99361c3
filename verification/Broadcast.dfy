/** Broadcasting to many agents at once (internal/tool/tool_broadcast.go). */
module Broadcast {
  import opened Prelude
  import opened A2A
  import opened Content
  import opened Stores
  import ClientCache
  import Health
  import History
  import opened Streaming
  import opened Polling
  import opened Gateway

  datatype Status = Answered | AsksInput | AsksAuth | Skipped | Unusable(reason: Reason)

  /** The result for one agent; `response` is what the caller gets to see. */
  datatype AgentOutcome = AgentOutcome(status: Status, response: Option<Output>)

  /** What an agent answers the first time and, with a new client, the second time. */
  datatype Exchange = Direct(first: Reply, second: Reply) | Streamed(stream: seq<Item>, retried: seq<Item>)

  /** Everything one goroutine learns from outside: the URL its alias is registered with, if it is; the rate limiter;
      whether a client can be created the first and the second time, and the error if not; and the agent. */
  datatype Oracle = Oracle(url: Option<string>, allowed: bool, creates: (bool, bool), refusal: AgentError,
                           partsOk: bool, exchange: Exchange)

  function OfTask(task: Task): AgentOutcome {
    match task.status.state
    case Completed => AgentOutcome(Answered, Some(TaskOutput(task)))
    case InputRequired => AgentOutcome(AsksInput, Some(TaskOutput(task)))
    case AuthRequired => AgentOutcome(AsksAuth, Some(TaskOutput(task)))
    case Failed => AgentOutcome(Unusable(TaskFailed(FailureText(task))), None)
    case Canceled => AgentOutcome(Unusable(TaskCanceled), None)
    case s => AgentOutcome(Unusable(TaskUnfinished(s)), None)
  }

  function OfReply(reply: Reply): AgentOutcome {
    match reply
    case SendFailed(error) => AgentOutcome(Unusable(NoAnswer(error)), None)
    case TaskReply(task) => OfTask(task)
    case MessageReply(message) => AgentOutcome(Answered, Some(MessageOutput(message)))
    case UnrecognizedReply => AgentOutcome(Unusable(UnrecognizedFormat), None)
  }

  function OfStream(items: seq<Item>): AgentOutcome {
    match Ending(items, false)
    case Err(e) => AgentOutcome(Unusable(BrokenStream(e)), None)
    case Ok(ByTask(task)) => OfTask(task)
    case Ok(ByMessage(message)) => AgentOutcome(Answered, Some(MessageOutput(message)))
    case Ok(ByStatus) => OfTask(SyntheticTask(items))
  }

  predicate IsAuthFailure(items: seq<Item>) {
    match Ending(items, false)
    case Err(Interrupted(cause)) => cause.AuthError?
    case Err(ConnectionFailed(cause)) => cause.AuthError?
    case _ => false
  }

  /** The exchange with its one retry: the outcome, and what it says about the agent's health. A stream's error is
      rewritten as text before it is classified, so there even a cancellation counts as a failure. */
  function Exchanged(exchange: Exchange, renews: bool): (AgentOutcome, Option<Health.Mark>) {
    match exchange
    case Direct(first, second) =>
      var reply := if first == SendFailed(AuthError) && renews then second else first;
      (OfReply(reply), ExchangeMark(reply))
    case Streamed(first, second) =>
      var items := if IsAuthFailure(first) && renews then second else first;
      (OfStream(items), if Ending(items, false).Ok? then Some(Health.Succeeded) else Some(Health.Failed))
  }

  /** What counts as a failure: on the direct path an error that is not a cancellation, on a stream every error; so the
      same cancellation is held against a streaming agent only. */
  lemma CancellationCountsOnStreamsOnly(first: Reply, second: Reply, items: seq<Item>, retried: seq<Item>, renews: bool)
    ensures var reply := if first == SendFailed(AuthError) && renews then second else first;
            Exchanged(Direct(first, second), renews).1 == Some(Health.Failed) <==>
              reply.SendFailed? && reply.error != CancelError
    ensures var stream := if IsAuthFailure(items) && renews then retried else items;
            Exchanged(Streamed(items, retried), renews).1 == Some(Health.Failed) <==> Ending(stream, false).Err?
    ensures Exchanged(Direct(SendFailed(CancelError), second), renews).1 == None
    ensures Exchanged(Streamed([Broken(CancelError)], retried), renews).1 == Some(Health.Failed)
  {
    var broken := [Broken(CancelError)];
    assert StopIndex(broken) == 0;
    assert Ending(broken, false) == Err(ConnectionFailed(CancelError));
  }

  /** The cache once a first answer is in: a client that failed to authenticate is replaced, if one can be created. */
  function Renewed(c: ClientCache.Cache, url: string, authFailed: bool, creates: bool): ClientCache.Cache {
    if authFailed then ClientCache.ExclusiveLoad(ClientCache.Eviction(c, url), url, creates).0 else c
  }

  /** How a task counts that an agent was left with: it answers when it is completed or asks for input or
      authentication, and then it is the very task; otherwise the reason tells its state, a failed one in the agent's
      words if any. */
  predicate TellsOfTask(outcome: AgentOutcome, task: Task) {
    var state := task.status.state;
    && (outcome.status.Answered? <==> state == Completed)
    && (outcome.status.AsksInput? <==> state == InputRequired)
    && (outcome.status.AsksAuth? <==> state == AuthRequired)
    && outcome.response == (if state in {Completed, InputRequired, AuthRequired} then Some(TaskOutput(task)) else None)
    && (state !in {Completed, InputRequired, AuthRequired} ==>
          && outcome.status.Unusable?
          && var reason := outcome.status.reason;
             && (reason.TaskFailed? <==> state == Failed) && (reason.TaskCanceled? <==> state == Canceled)
             && (state == Failed && task.status.message.Some? && PartsText(task.status.message.value.parts) != "" ==>
                   reason.text == PartsText(task.status.message.value.parts))
             && (state !in {Failed, Canceled} ==> reason == TaskUnfinished(state)))
  }

  lemma TaskIsTold(task: Task)
    ensures TellsOfTask(OfTask(task), task)
  {
    hide PartsText;
  }

  /** The outcome of a direct exchange tells of the reply that decides: the second one after an authentication error if
      the client could be renewed, else the first. */
  lemma DirectExchangeTells(first: Reply, second: Reply, renews: bool)
    ensures var outcome := Exchanged(Direct(first, second), renews).0;
            match if first == SendFailed(AuthError) && renews then second else first
            case MessageReply(message) => outcome == AgentOutcome(Answered, Some(MessageOutput(message)))
            case TaskReply(task) => TellsOfTask(outcome, task)
            case SendFailed(error) => outcome == AgentOutcome(Unusable(NoAnswer(error)), None)
            case UnrecognizedReply => outcome == AgentOutcome(Unusable(UnrecognizedFormat), None)
  {
    hide OfTask, TellsOfTask;
    var reply := if first == SendFailed(AuthError) && renews then second else first;
    if reply.TaskReply? {
      TaskIsTold(reply.task);
    }
  }

  /** A stream fails to authenticate exactly when the item that decides it is that error. */
  lemma AuthFailureIsDecisive(items: seq<Item>, k: nat)
    requires DecidedAt(items, k)
    ensures IsAuthFailure(items) <==> items[k] == Broken(AuthError)
  {
    EndingOfDecided(items, k);
  }

  /** The outcome of a stream tells of the item that decides it; a stream ended by a status stands for a task with that
      status. */
  lemma StreamTells(items: seq<Item>, k: nat)
    requires DecidedAt(items, k)
    ensures var outcome := OfStream(items);
            match items[k]
            case Broken(_) => outcome.response ==
                              None && outcome.status.Unusable? && outcome.status.reason.BrokenStream?
            case Received(event) =>
              if event.MessageEvent? then outcome == AgentOutcome(Answered, Some(MessageOutput(event.message)))
              else if event.TaskEvent? then TellsOfTask(outcome, event.task)
              else
                && Ending(items, false) == Ok(ByStatus) && TellsOfTask(outcome, SyntheticTask(items))
                && SyntheticTask(items).status == event.status
  {
    hide OfTask, TellsOfTask, FirstNonEmpty, Collect, Relevant, Ending;
    StopsWhereDecided(items, k);
    EndingOfDecided(items, k);
    if items[k].Received? {
      match items[k].event {
        case TaskEvent(task) => TaskIsTold(task);
        case MessageEvent(_) =>
        case _ => TaskIsTold(SyntheticTask(items));
      }
    }
  }

  /** After a stream that failed to authenticate, the second one decides if the client could be renewed. */
  lemma StreamedExchangeTells(first: seq<Item>, second: seq<Item>, renews: bool, k: nat)
    requires DecidedAt(first, k)
    ensures var decisive := if first[k] == Broken(AuthError) && renews then second else first;
            Exchanged(Streamed(first, second), renews) ==
              (OfStream(decisive), Some(if Ending(decisive, false).Ok? then Health.Succeeded else Health.Failed))
  {
    hide Ending, OfStream;
    AuthFailureIsDecisive(first, k);
  }

  /** A streamed send is blind to failures, in contrast to a broadcast over the same stream. It always leaves a tracked
      agent (healthy, 0), which is what the broadcast marks exactly when the stream ended well; and it never touches the
      client cache, which the broadcast leaves alone exactly when the stream did not fail to authenticate. */
  lemma StreamedSendIgnoresFailures(w: World, c: ClientCache.Cache, resolved: Resolved, agent: string, items: seq<Item>,
                                    creates: bool, threshold: int, depth: int)
    requires resolved.isAlias && resolved.alias in w.health && threshold != 0 && depth >= 1
    ensures Health.Shown(AfterStream(w, resolved, agent, items, threshold, depth).health, resolved.alias)
              == Health.HealthState(Health.Healthy, 0)
    ensures Exchanged(Streamed(items, items), creates).1 == Some(Health.Succeeded) <==> Ending(items, false).Ok?
    ensures Renewed(c, resolved.url, IsAuthFailure(items), creates) == c <==> !IsAuthFailure(items)
    ensures IsAuthFailure([Broken(AuthError)])
  {
    hide StreamContext, StreamOutput, History.MemoryStep, OfStream;
    var broken := [Broken(AuthError)];
    assert StopIndex(broken) == 0;
    assert Ending(broken, false) == Err(ConnectionFailed(AuthError));
    assert |Renewed(c, resolved.url, true, creates).log| > |c.log|;
  }

  /** What becomes of one agent, given its health and whether a client for its URL is cached. */
  function Attempted(o: Oracle, health: Health.HealthState, cached: bool, threshold: int)
    : (AgentOutcome, Option<Health.Mark>)
  {
    if o.url.None? then (AgentOutcome(Unusable(NotRegistered), None), None)
    else if threshold > 0 && health.status == Health.Unhealthy then (AgentOutcome(Skipped, None), None)
    else if !o.allowed then (AgentOutcome(Unusable(RateLimited), None), None)
    else if !cached && !o.creates.0 then (AgentOutcome(Unusable(NoClient(o.refusal)), None), None)
    else if !o.partsOk then (AgentOutcome(Unusable(BadParts), None), None)
    else Exchanged(o.exchange, o.creates.1)
  }

  /** Why an agent is not asked, in the order in which the reasons are looked for; the rest is its exchange. */
  lemma NotAskedBecause(o: Oracle, health: Health.HealthState, cached: bool, threshold: int)
    ensures var (outcome, mark) := Attempted(o, health, cached, threshold);
            var skipped := threshold > 0 && health.status == Health.Unhealthy;
            && (o.url == None ==> outcome == AgentOutcome(Unusable(NotRegistered), None))
            && (o.url.Some? && skipped ==> outcome == AgentOutcome(Skipped, None))
            && (o.url.Some? && !skipped ==>
                  && (!o.allowed ==> outcome == AgentOutcome(Unusable(RateLimited), None))
                  && (o.allowed && !cached && !o.creates.0 ==>
                        outcome == AgentOutcome(Unusable(NoClient(o.refusal)), None))
                  && (o.allowed && (cached || o.creates.0) && !o.partsOk ==>
                        outcome == AgentOutcome(Unusable(BadParts), None))
                  && (o.allowed && (cached || o.creates.0) && o.partsOk ==>
                        (outcome, mark) == Exchanged(o.exchange, o.creates.1)))
            && (mark.Some? ==> o.url.Some? && !skipped && o.allowed && (cached || o.creates.0) && o.partsOk)
  {
    hide Exchanged;
  }

  function RecordOfOutcome(outcome: AgentOutcome): Record {
    Record("", "", outcome.status.Skipped? || outcome.status.Unusable?)
  }

  /** Of every attempt: the caller sees an answer exactly if the history does not record an error. */
  lemma ErrorIsRecordedIffNoAnswer(o: Oracle, health: Health.HealthState, cached: bool, threshold: int)
    ensures var outcome := Attempted(o, health, cached, threshold).0;
            RecordOfOutcome(outcome).isError <==> outcome.response == None
  {
    hide Ending, SyntheticTask;
  }

  function Applied(health: Option<Health.HealthState>, mark: Option<Health.Mark>,
                   threshold: int): Option<Health.HealthState> {
    if mark.None? then health else Health.Marked(health, mark.value, threshold)
  }

  function Seen(health: Option<Health.HealthState>): Health.HealthState {
    if health.Some? then health.value else Health.UNTRACKED
  }

  // -------- One goroutine, performed by itself --------

  /** How the first exchange ends, as far as the retry is concerned. */
  function FirstOutcome(exchange: Exchange): ClientCache.FnOutcome {
    match exchange
    case Direct(first, _) => ToFnOutcome(first)
    case Streamed(first, _) =>
      if IsAuthFailure(first) then ClientCache.FnAuthError
      else if Ending(first, false).Ok? then ClientCache.FnOk
      else ClientCache.FnOtherError
  }

  /** The client cache after one attempt: untouched unless the goroutine gets as far as resolving a client. */
  function CacheAfterAttempt(c: ClientCache.Cache, o: Oracle, health: Health.HealthState, threshold: int)
    : ClientCache.Cache
  {
    if o.url.None? || (threshold > 0 && health.status == Health.Unhealthy) || !o.allowed then c
    else if !o.partsOk then ClientCache.ExclusiveLoad(c, o.url.value, o.creates.0).0
    else ClientCache.CacheAfterRetry(c, o.url.value, o.creates, FirstOutcome(o.exchange))
  }

  /** The URL at which the registry finds the alias. */
  function UrlOf(registry: map<string, Agent>, alias: string): Option<string> {
    if alias in registry then Some(registry[alias].url) else None
  }

  predicate IsCached(clients: set<string>, url: Option<string>) {
    url.Some? && url.value in clients
  }

  /** What one attempt leaves in the stores. */
  function AfterAttempt(w: World, alias: string, attempt: (AgentOutcome, Option<Health.Mark>), threshold: int,
                        depth: int)
    : World
    requires depth >= 1
  {
    Recorded(Noted(w, alias, attempt.1, threshold), alias, RecordOfOutcome(attempt.0), depth)
  }

  method BroadcastToAgent(env: Env, alias: string, o: Oracle) returns (outcome: AgentOutcome)
    requires env.history.depth >= 1 && o.url == UrlOf(env.registry.entries, alias)
    modifies env.health, env.history, env.resolver
    ensures var health := Health.Shown(old(env.health.agents), alias);
            var cached := IsCached(old(env.resolver.clients).Keys, o.url);
            var attempt := Attempted(o, health, cached, env.health.threshold);
            && outcome == attempt.0
            && env.View() == AfterAttempt(old(env.View()), alias, attempt, env.health.threshold, env.history.depth)
            && env.resolver.View() == CacheAfterAttempt(old(env.resolver.View()), o, health, env.health.threshold)
  {
    hide Exchanged, Health.AfterCall, FirstOutcome, ClientCache.ExclusiveLoad;
    var entry := env.registry.Lookup(alias);
    if entry.None? {
      outcome := AgentOutcome(Unusable(NotRegistered), None);
    } else if env.health.IsEnabled() && !env.health.IsHealthy(alias) {
      outcome := AgentOutcome(Skipped, None);
    } else if !o.allowed {
      outcome := AgentOutcome(Unusable(RateLimited), None);
    } else {
      outcome := ResolveAndSend(env, alias, entry.value.url, o);
    }
    AppendRecord(env, alias, RecordOfOutcome(outcome));
  }

  method ResolveAndSend(env: Env, alias: string, url: string, o: Oracle) returns (outcome: AgentOutcome)
    modifies env.health, env.resolver
    ensures var (expected, mark) :=
              if url !in old(env.resolver.clients) && !o.creates.0 then
                (AgentOutcome(Unusable(NoClient(o.refusal)), None), None)
              else if !o.partsOk then (AgentOutcome(Unusable(BadParts), None), None)
              else Exchanged(o.exchange, o.creates.1);
            outcome == expected && env.View() == Noted(old(env.View()), alias, mark, env.health.threshold)
    ensures env.resolver.View() ==
            if !o.partsOk then ClientCache.ExclusiveLoad(old(env.resolver.View()), url, o.creates.0).0
            else ClientCache.CacheAfterRetry(old(env.resolver.View()), url, o.creates, FirstOutcome(o.exchange))
  {
    hide Exchanged, Health.AfterCall, Ending, IsAuthFailure, ClientCache.Eviction;
    var client := env.resolver.Resolve(url, o.creates.0);
    if client.None? {
      return AgentOutcome(Unusable(NoClient(o.refusal)), None);
    }
    if !o.partsOk {
      return AgentOutcome(Unusable(BadParts), None);
    }
    match o.exchange {
      case Direct(first, second) => outcome := BroadcastDirect(env, alias, url, first, second, o.creates.1);
      case Streamed(first, second) => outcome := BroadcastViaStreaming(env, alias, url, first, second, o.creates.1);
    }
  }

  method BroadcastDirect(env: Env, alias: string, url: string, first: Reply, second: Reply, creates: bool)
    returns (outcome: AgentOutcome)
    modifies env.health, env.resolver
    ensures var (expected, mark) := Exchanged(Direct(first, second), creates);
            outcome == expected && env.View() == Noted(old(env.View()), alias, mark, env.health.threshold)
    ensures env.resolver.View() == Renewed(old(env.resolver.View()), url, first == SendFailed(AuthError), creates)
  {
    hide OfTask, Health.AfterCall, ClientCache.ExclusiveLoad;
    var reply := first;
    if reply == SendFailed(AuthError) {
      env.resolver.Evict(url);
      var client := env.resolver.Resolve(url, creates);
      if client.Some? {
        reply := second;
      }
    }
    if reply.SendFailed? {
      if !reply.error.CancelError? {
        env.health.RecordFailure(alias);
      }
      return AgentOutcome(Unusable(NoAnswer(reply.error)), None);
    }
    env.health.RecordSuccess(alias);
    return OfReply(reply);
  }

  method BroadcastViaStreaming(env: Env, alias: string, url: string, first: seq<Item>, second: seq<Item>, creates: bool)
    returns (outcome: AgentOutcome)
    modifies env.health, env.resolver
    ensures var (expected, mark) := Exchanged(Streamed(first, second), creates);
            outcome == expected && env.View() == Noted(old(env.View()), alias, mark, env.health.threshold)
    ensures env.resolver.View() == Renewed(old(env.resolver.View()), url, IsAuthFailure(first), creates)
  {
    hide Ending, OfTask, SyntheticTask, Health.AfterCall, IsAuthFailure, Renewed;
    var r, state := ConsumeWithRetry(env, url, first, second, creates);
    if r.Err? {
      env.health.RecordFailure(alias);
      return AgentOutcome(Unusable(BrokenStream(r.error)), None);
    }
    env.health.RecordSuccess(alias);
    match r.value {
      case ByTask(task) => return OfTask(task);
      case ByMessage(message) => return AgentOutcome(Answered, Some(MessageOutput(message)));
      case ByStatus =>
        var task := BuildTaskFromState(state);
        return OfTask(task);
    }
  }

  method ConsumeWithRetry(env: Env, url: string, first: seq<Item>, second: seq<Item>, creates: bool)
    returns (r: Result<StreamResult, StreamError>, state: StreamState)
    modifies env.resolver
    ensures var items := if IsAuthFailure(first) && creates then second else first;
            && r == Ending(items, false)
            && (r == Ok(ByStatus) ==>
                  && state.lastStatus.Some?
                  && Task(state.taskId, state.contextId, state.lastStatus.value, state.artifacts) ==
                     SyntheticTask(items))
    ensures env.resolver.View() == Renewed(old(env.resolver.View()), url, IsAuthFailure(first), creates)
  {
    hide Ending, SyntheticTask, DigestOf, Relevant, ClientCache.ExclusiveLoad;
    state := new StreamState(false);
    r := ConsumeStream(first, state);
    FreshDigest(first, false);
    if r.Err? && (r.error.Interrupted? || r.error.ConnectionFailed?) && r.error.cause.AuthError? {
      env.resolver.Evict(url);
      var client := env.resolver.Resolve(url, creates);
      if client.Some? {
        state := new StreamState(false);
        r := ConsumeStream(second, state);
        FreshDigest(second, false);
      }
    }
  }
}
