/** The tools that change the per-alias stores: connect, disconnect, ping, clear history, send (internal/tool/). */
module Gateway {
  import opened Prelude
  import opened A2A
  import opened Stores
  import Health
  import History
  import opened ClientCache
  import opened Streaming
  import opened Polling

  /** One interaction as the history records it. */
  datatype Record = Record(contextId: string, taskId: string, isError: bool)

  /** The stores' contents; `origins` says at which URL each stored context was obtained. */
  datatype World = World(registry: map<string, Agent>, contexts: map<string, string>, origins: map<string, string>,
                         limiters: map<string, RateLimit>, health: map<string, Health.HealthState>,
                         history: map<string, seq<Record>>)

  const EMPTY_WORLD := World(map[], map[], map[], map[], map[], map[])

  // -------- The effect of each tool on the stores --------

  datatype ConnectInput = ConnectInput(alias: string, url: string, headers: Headers, pingEndpoint: string,
                                       limit: Option<RateLimit>)

  function LimitersAfter(limiters: map<string, RateLimit>, alias: string, limit: Option<RateLimit>,
                         default: RateLimit): map<string, RateLimit> {
    match limit
    case Some(l) => if l.Disabled() then limiters - {alias} else limiters[alias := l]
    case None => if default.Disabled() then limiters else limiters[alias := default]
  }

  /** `card` is what is fetched on connecting, None if the fetch failed. */
  function Connected(w: World, input: ConnectInput, default: RateLimit, card: Option<Card>, threshold: int): World {
    var moved := input.alias in w.registry && w.registry[input.alias].url != input.url;
    World(
      w.registry[input.alias := Agent(input.url, input.headers, input.pingEndpoint, card)],
      if moved then w.contexts - {input.alias} else w.contexts,
      if moved then w.origins - {input.alias} else w.origins,
      LimitersAfter(w.limiters, input.alias, input.limit, default),
      Health.AfterCall(w.health, Health.Call(input.alias, Health.Mark.Reset), threshold),
      w.history)
  }

  function Disconnected(w: World, alias: string, threshold: int): World {
    if alias !in w.registry then w
    else
      World(w.registry - {alias}, w.contexts - {alias}, w.origins - {alias}, w.limiters - {alias},
            Health.AfterCall(w.health, Health.Call(alias, Health.Mark.Reset), threshold), w.history - {alias})
  }

  function Noted(w: World, alias: string, mark: Option<Health.Mark>, threshold: int): World {
    if mark.None? then w else w.(health := Health.AfterCall(w.health, Health.Call(alias, mark.value), threshold))
  }

  function Recorded(w: World, alias: string, record: Record, depth: int): World
    requires depth >= 1
  {
    w.(history := History.MemoryStep(w.history, History.Append(alias, record), depth))
  }

  /** A reply remembered for an agent that was resolved as `resolved`. */
  function Replied(w: World, resolved: Resolved, agent: string, contextId: string): World {
    w.(contexts := Remembered(w.contexts, resolved, agent, contextId),
       origins := Attributed(w.origins, resolved, agent, contextId))
  }

  /** What an exchange with an agent leaves: the context remembered, the mark on its health, and a history record. Marks
      are made on aliases only; the record is filed under whatever the caller named. */
  function Left(w: World, resolved: Resolved, agent: string, contextId: string, mark: Option<Health.Mark>,
                record: Option<Record>, threshold: int, depth: int): World
    requires depth >= 1
  {
    var replied := Replied(w, resolved, agent, contextId);
    var noted := if resolved.isAlias then Noted(replied, resolved.alias, mark, threshold) else replied;
    if record.None? then noted else Recorded(noted, agent, record.value, depth)
  }

  /** A finished send always leaves a record. */
  function Sent(w: World, resolved: Resolved, agent: string, contextId: string, mark: Option<Health.Mark>,
                record: Record, threshold: int, depth: int): World
    requires depth >= 1
  {
    Left(w, resolved, agent, contextId, mark, Some(record), threshold, depth)
  }

  /** What resolving an identifier yields: an alias first, else a URL if it is one. */
  function ResolveAgent(registry: map<string, Agent>, identifier: string, isUrl: bool): Option<Resolved> {
    if identifier in registry then
      Some(Resolved(registry[identifier].url, registry[identifier].headers, true, identifier))
    else if isUrl then Some(Resolved(identifier, map[], false, ""))
    else None
  }

  predicate SupportsStreaming(registry: map<string, Agent>, resolved: Resolved) {
    && resolved.isAlias && resolved.alias in registry
    && registry[resolved.alias].card.Some? && registry[resolved.alias].card.value.streaming
  }

  /** The context an outgoing message carries: the caller's own, else the stored one of an alias, else none. */
  function OutgoingContext(w: World, resolved: Resolved, agent: string, explicit: string): string {
    if explicit != "" then explicit
    else if resolved.isAlias && agent in w.contexts then w.contexts[agent]
    else ""
  }

  // -------- What these functions promise --------

  /** Everything the stores hold about an alias. */
  datatype Account = Account(agent: Option<Agent>, context: Option<string>, limit: Option<RateLimit>,
                             health: Health.HealthState, history: seq<Record>)

  function AccountOf(w: World, alias: string): Account {
    Account(if alias in w.registry then Some(w.registry[alias]) else None,
            if alias in w.contexts then Some(w.contexts[alias]) else None,
            if alias in w.limiters then Some(w.limiters[alias]) else None,
            Health.Shown(w.health, alias), History.Stored(w.history, alias))
  }

  /** After connecting, the alias is the agent described, with a health of (unknown, 0) if tracking is on; its
      context stays exactly if it was registered at the same URL or not at all; a limit of its own takes effect if it
      lets anything through and removes an earlier one if not; its history and every other alias stay. */
  lemma ConnectChanges(w: World, input: ConnectInput, default: RateLimit, card: Option<Card>, threshold: int,
                       other: string)
    ensures var w' := Connected(w, input, default, card, threshold);
            var (before, after) := (AccountOf(w, input.alias), AccountOf(w', input.alias));
            && after.agent == Some(Agent(input.url, input.headers, input.pingEndpoint, card))
            && after.context ==
               (if before.agent.Some? && before.agent.value.url != input.url then None else before.context)
            && (input.limit.Some? ==>
                  after.limit ==
                    if input.limit.value.rps > 0.0 && input.limit.value.burst > 0 then input.limit else None)
            && (threshold != 0 ==> after.health == Health.UNTRACKED)
            && after.history == before.history
            && (other != input.alias ==> AccountOf(w', other) == AccountOf(w, other))
  {
    hide Health.AfterCall;
    Health.ResetShowsUntracked(w.health, input.alias, threshold);
  }

  /** After disconnecting a registered alias nothing is held about it, and as much as before about every other. */
  lemma DisconnectForgets(w: World, alias: string, threshold: int, other: string)
    requires alias in w.registry
    ensures var w' := Disconnected(w, alias, threshold);
            && (threshold != 0 ==> AccountOf(w', alias) == Account(None, None, None, Health.UNTRACKED, []))
            && AccountOf(w', alias).(health := Health.UNTRACKED) == Account(None, None, None, Health.UNTRACKED, [])
            && (other != alias ==> AccountOf(w', other) == AccountOf(w, other))
  {
    hide Health.AfterCall;
    Health.ResetShowsUntracked(w.health, alias, threshold);
  }

  /** An identifier is a registered alias before it is a URL, and an alias leads to its agent's URL with its headers. */
  lemma AliasBeforeUrl(registry: map<string, Agent>, identifier: string, isUrl: bool)
    ensures identifier in registry ==>
              var agent := registry[identifier];
              ResolveAgent(registry, identifier, isUrl) == Some(Resolved(agent.url, agent.headers, true, identifier))
    ensures identifier !in registry && isUrl ==>
              ResolveAgent(registry, identifier, isUrl) == Some(Resolved(identifier, map[], false, ""))
    ensures identifier !in registry && !isUrl ==> ResolveAgent(registry, identifier, isUrl) == None
  {
  }

  /** The caller's own context goes before the stored one, which goes before none; a URL has none stored. */
  lemma ContextPriority(w: World, agent: string, isUrl: bool, explicit: string)
    ensures var resolved := ResolveAgent(w.registry, agent, isUrl);
            resolved.Some? ==>
              OutgoingContext(w, resolved.value, agent, explicit) ==
                if explicit != "" then explicit
                else if agent in w.registry && agent in w.contexts then w.contexts[agent]
                else ""
  {
  }

  /** A message to an agent just connected is streamed exactly if the card that was fetched declares streaming; one to a
      URL never is. */
  lemma StreamsIffCardSaysSo(w: World, input: ConnectInput, default: RateLimit, card: Option<Card>, threshold: int,
                             url: string)
    ensures var registry := Connected(w, input, default, card, threshold).registry;
            var resolved := ResolveAgent(registry, input.alias, false);
            && resolved.Some?
            && (SupportsStreaming(registry, resolved.value) <==> card.Some? && card.value.streaming)
            && (url !in registry ==> !SupportsStreaming(registry, ResolveAgent(registry, url, true).value))
  {
  }

  // -------- The tools --------

  class Env {
    const registry: AgentRegistry
    const contexts: ContextStore
    const limiters: RateLimiterRegistry
    const health: Health.HealthTracker
    const resolver: ClientResolver
    const history: History.MemoryBackend<Record>
    /** The server-wide default set by WithRateLimit. */
    const defaultRateLimit: RateLimit

    constructor (threshold: int, depth: int, defaultRateLimit: RateLimit)
      ensures View() == EMPTY_WORLD
      ensures health.threshold == threshold && history.depth == depth && this.defaultRateLimit == defaultRateLimit
      ensures fresh(registry) && fresh(contexts) && fresh(limiters)
      ensures fresh(health) && fresh(resolver) && fresh(history)
    {
      registry := new AgentRegistry();
      contexts := new ContextStore();
      limiters := new RateLimiterRegistry();
      health := new Health.HealthTracker(threshold);
      resolver := new ClientResolver();
      history := new History.MemoryBackend(depth);
      this.defaultRateLimit := defaultRateLimit;
    }

    ghost function View(): World
      reads registry, contexts, limiters, health, history
    {
      World(registry.entries, contexts.contexts, contexts.origins, limiters.limiters, health.agents, history.entries)
    }
  }

  class ConnectAgentTool {
    const env: Env
    const defaultRateLimit: RateLimit

    /** The constructor fills every field from the environment except the default rate limit, which stays zero. */
    constructor (env: Env)
      ensures this.env == env && this.defaultRateLimit == RateLimit(0.0, 0)
    {
      this.env := env;
      this.defaultRateLimit := RateLimit(0.0, 0);
    }

    /** `valid` is the outcome of input validation. */
    method Handle(input: ConnectInput, valid: bool, card: Option<Card>) returns (ok: bool)
      modifies env.registry, env.contexts, env.limiters, env.health, env.resolver
      ensures ok == valid
      ensures env.View() ==
              if valid then Connected(old(env.View()), input, defaultRateLimit, card, env.health.threshold)
              else old(env.View())
      ensures env.resolver.View() ==
              if valid && input.alias in old(env.registry.entries) then
                Eviction(old(env.resolver.View()), old(env.registry.entries)[input.alias].url)
              else old(env.resolver.View())
    {
      hide Health.AfterCall, LimitersAfter;
      if !valid {
        return false;
      }
      ForgetFormerUrl(input);
      var updated := env.registry.Connect(input.alias, input.url, input.headers, input.pingEndpoint);
      ConfigureRateLimit(input);
      if card.Some? {
        var found := env.registry.SetCard(input.alias, card.value);
      }
      env.health.Reset(input.alias);
      return true;
    }

    method ForgetFormerUrl(input: ConnectInput)
      modifies env.contexts, env.resolver
      ensures var former := env.registry.Lookup(input.alias);
              var moved := former.Some? && former.value.url != input.url;
              var (contexts, origins) := (old(env.contexts.contexts), old(env.contexts.origins));
              && env.contexts.contexts == (if moved then contexts - {input.alias} else contexts)
              && env.contexts.origins == (if moved then origins - {input.alias} else origins)
              && env.resolver.View() ==
                 if former.Some? then Eviction(old(env.resolver.View()), former.value.url) else old(env.resolver.View())
    {
      var existing := env.registry.Lookup(input.alias);
      if existing.Some? {
        env.resolver.Evict(existing.value.url);
        if existing.value.url != input.url {
          env.contexts.Delete(input.alias);
        }
      }
    }

    method ConfigureRateLimit(input: ConnectInput)
      modifies env.limiters
      ensures env.limiters.limiters ==
              LimitersAfter(old(env.limiters.limiters), input.alias, input.limit, defaultRateLimit)
    {
      if input.limit.Some? {
        if input.limit.value.Disabled() {
          env.limiters.Remove(input.alias);
        } else {
          env.limiters.Set(input.alias, input.limit.value);
        }
      } else if !defaultRateLimit.Disabled() {
        env.limiters.Set(input.alias, defaultRateLimit);
      }
    }
  }

  /** `valid` is the outcome of alias validation. */
  method DisconnectAgent(env: Env, alias: string, valid: bool) returns (ok: bool)
    modifies env.registry, env.contexts, env.limiters, env.health, env.resolver, env.history
    ensures ok <==> valid && alias in old(env.registry.entries)
    ensures env.View() == if ok then Disconnected(old(env.View()), alias, env.health.threshold) else old(env.View())
    ensures env.resolver.View() ==
            if ok then Eviction(old(env.resolver.View()), old(env.registry.entries)[alias].url)
            else old(env.resolver.View())
  {
    if !valid {
      return false;
    }
    var entry := env.registry.Disconnect(alias);
    if entry.None? {
      assert env.registry.entries == old(env.registry.entries);
      return false;
    }
    env.resolver.Evict(entry.value.url);
    env.limiters.Remove(alias);
    env.health.Reset(alias);
    env.contexts.Delete(alias);
    env.history.Delete(alias);
    return true;
  }

  /** How a ping counts: only a transport error is a failure, and a cancellation says nothing. */
  function PingMark(reachable: bool, error: Option<AgentError>): Option<Health.Mark> {
    if reachable || error.None? then Some(Health.Succeeded)
    else if error.value.CancelError? then None
    else Some(Health.Failed)
  }

  /** For a tracked agent: one that was reached is (healthy, 0) afterwards, a cancelled ping changes nothing, and any
      other error is one more failure. */
  lemma PingCounts(w: World, alias: string, reachable: bool, error: Option<AgentError>, threshold: int)
    requires threshold > 0 && alias in w.health
    ensures var before := w.health[alias];
            var after := Health.Shown(Noted(w, alias, PingMark(reachable, error), threshold).health, alias);
            && (reachable ==> after == Health.HealthState(Health.Healthy, 0))
            && (!reachable && error == Some(CancelError) ==> after == before)
            && (!reachable && error.Some? && error.value != CancelError ==>
                  && after.failures == before.failures + 1
                  && after.status == if after.failures >= threshold then Health.Unhealthy else before.status)
  {
  }

  /** PingAgentOutput; the response time is only reported of an agent that was reached. */
  datatype PingOutput = PingOutput(reachable: bool, health: Health.HealthStatus, responseTime: Option<int>)

  /** `milliseconds` is how long the ping took. */
  method PingAgent(env: Env, alias: string, reachable: bool, error: Option<AgentError>, milliseconds: int)
    returns (output: Option<PingOutput>)
    modifies env.health
    ensures output.Some? <==> alias != "" && alias in env.registry.entries
    ensures env.View() ==
            if output.Some? && env.health.threshold > 0 then
              Noted(old(env.View()), alias, PingMark(reachable, error), env.health.threshold)
            else old(env.View())
    ensures output.Some? ==>
              && output.value.reachable == reachable
              && output.value.health == Health.Shown(env.health.agents, alias).status
              && output.value.responseTime == (if reachable then Some(milliseconds) else None)
  {
    if alias == "" || env.registry.Lookup(alias).None? {
      return None;
    }
    if env.health.IsEnabled() {
      if reachable || error.None? {
        env.health.RecordSuccess(alias);
      } else if !error.value.CancelError? {
        env.health.RecordFailure(alias);
      }
    }
    var answer := PingOutput(reachable, env.health.Get(alias).status, None);
    if reachable {
      answer := answer.(responseTime := Some(milliseconds));
    }
    return Some(answer);
  }

  method ClearHistory(env: Env, agent: string) returns (ok: bool)
    modifies env.history
    ensures ok <==> agent != "" && agent in env.registry.entries
    ensures env.View() ==
            if ok then old(env.View()).(history := old(env.history.entries) - {agent}) else old(env.View())
  {
    if agent == "" || env.registry.Lookup(agent).None? {
      return false;
    }
    env.history.Delete(agent);
    return true;
  }

  // -------- Sending --------

  function RecordOf(output: Option<Output>, isError: bool): Record {
    match output
    case None => Record("", "", isError)
    case Some(TaskOutput(task)) => Record(task.contextId, task.id, isError)
    case Some(MessageOutput(message)) => Record(message.contextId, "", isError)
  }

  method AppendRecord(env: Env, alias: string, record: Record)
    requires env.history.depth >= 1
    modifies env.history
    ensures env.View() == Recorded(old(env.View()), alias, record, env.history.depth)
  {
    env.history.Append(alias, record);
    assert env.history.entries ==
           History.MemoryStep(old(env.history.entries), History.Append(alias, record), env.history.depth);
  }

  /** The stores after a streamed send. */
  function AfterStream(w: World, resolved: Resolved, agent: string, items: seq<Item>, threshold: int, depth: int): World
    requires depth >= 1
  {
    var ok := Ending(items, false).Ok?;
    var record := RecordOf(if ok then Some(StreamOutput(items)) else None, !ok);
    Sent(w, resolved, agent, if ok then StreamContext(items) else "", Some(Health.Succeeded), record, threshold, depth)
  }

  /** The latest record after a streamed send is an error exactly if the stream failed, and names the context and the
      task of its answer if it did not. */
  lemma StreamIsRecorded(w: World, resolved: Resolved, agent: string, items: seq<Item>, threshold: int, depth: int)
    requires depth >= 1
    ensures var history := History.Stored(AfterStream(w, resolved, agent, items, threshold, depth).history, agent);
            && history != []
            && var record := history[|history| - 1];
               && record.isError == Ending(items, false).Err?
               && (Ending(items, false).Ok? ==>
                     match StreamOutput(items)
                     case TaskOutput(task) => record == Record(task.contextId, task.id, false)
                     case MessageOutput(message) => record == Record(message.contextId, "", false))
  {
    hide Ending, StreamOutput, StreamContext, Health.AfterCall, Remembered, Attributed;
  }

  /** A streamed send. The Go error it tests for is never set, so it never evicts and retries, and a failed stream
      counts as a success for the agent's health. */
  method SendViaStreaming(env: Env, resolved: Resolved, agent: string, items: seq<Item>, reportsProgress: bool)
    returns (failure: Option<StreamError>, output: Option<Output>)
    requires env.history.depth >= 1
    modifies env.contexts, env.health, env.history, env.resolver
    ensures env.resolver.View() == old(env.resolver.View())
    ensures failure == (if Ending(items, false).Ok? then None else Some(Ending(items, false).error))
    ensures output == if Ending(items, false).Ok? then Some(StreamOutput(items)) else None
    ensures env.View() == AfterStream(old(env.View()), resolved, agent, items, env.health.threshold, env.history.depth)
  {
    hide Ending, StreamOutput, StreamContext;
    var err;
    failure, output, err := HandleStreamingMessage(items, reportsProgress, env.contexts, resolved, agent);
    if err.Some? {
      assert false;
    }
    if resolved.isAlias {
      env.health.RecordSuccess(resolved.alias);
    }
    AppendRecord(env, agent, RecordOf(output, failure.Some?));
  }

  datatype SendError = NotSent(cause: AgentError) | BadReply(problem: ReplyError) | BadFormat

  /** The outcome of an exchange: the first answer stands unless it is an authentication error; then the answer given to
      a new client does. A client that cannot be created is an error of its own. */
  function DecidingReply(cached: bool, creates: (bool, bool), replies: (Reply, Reply), refusal: AgentError): Reply {
    if !cached && !creates.0 then SendFailed(refusal)
    else if replies.0 != SendFailed(AuthError) then replies.0
    else if creates.1 then replies.1
    else SendFailed(refusal)
  }

  function ToFnOutcome(reply: Reply): FnOutcome {
    match reply
    case SendFailed(AuthError) => FnAuthError
    case SendFailed(_) => FnOtherError
    case _ => FnOk
  }

  /** Of two answers the second one stands exactly if the first client got an authentication error and a new one
      could be created; without a client there is no answer. */
  lemma SecondAnswerStandsAfterRetry(cached: bool, creates: (bool, bool), first: Reply, second: Reply,
                                     refusal: AgentError)
    ensures var reply := DecidingReply(cached, creates, (first, second), refusal);
            && (!cached && !creates.0 ==> reply == SendFailed(refusal))
            && (cached || creates.0 ==>
                  && (first != SendFailed(AuthError) ==> reply == first)
                  && (first == SendFailed(AuthError) && creates.1 ==> reply == second)
                  && (first == SendFailed(AuthError) && !creates.1 ==> reply == SendFailed(refusal)))
  {
  }

  /** The cache loses its client for the URL exactly in that case, and gets a new one if it can be created. */
  lemma RetryRenewsClient(c: Cache, url: string, creates: (bool, bool), first: Reply)
    ensures var resolved := ExclusiveLoad(c, url, creates.0).0;
            var after := CacheAfterRetry(c, url, creates, ToFnOutcome(first));
            && (url in resolved.clients && first == SendFailed(AuthError) ==>
                  && (url in after.clients <==> creates.1)
                  && (creates.1 ==> after.clients[url] >= |resolved.log|))
            && (url !in resolved.clients || first != SendFailed(AuthError) ==> after == resolved)
            && after.clients - {url} == c.clients - {url}
  {
  }

  /** How an exchange counts for health: any answer is a success, any error but a cancellation a failure. */
  function ExchangeMark(reply: Reply): Option<Health.Mark> {
    match reply
    case SendFailed(CancelError) => None
    case SendFailed(_) => Some(Health.Failed)
    case _ => Some(Health.Succeeded)
  }

  function ExchangeContext(reply: Reply, poll: PollOutcome): string {
    match reply
    case TaskReply(task) => ReplyContext(task, poll)
    case MessageReply(message) => message.contextId
    case _ => ""
  }

  function ExchangeOutput(reply: Reply, poll: PollOutcome): Option<Output> {
    match reply
    case TaskReply(task) => if Verdict(task, poll).0.Some? then Some(TaskOutput(Verdict(task, poll).0.value)) else None
    case MessageReply(message) => Some(MessageOutput(message))
    case _ => None
  }

  function ExchangeError(reply: Reply, poll: PollOutcome): Option<SendError> {
    match reply
    case SendFailed(error) => Some(NotSent(error))
    case TaskReply(task) => if Verdict(task, poll).1.Some? then Some(BadReply(Verdict(task, poll).1.value)) else None
    case MessageReply(_) => None
    case UnrecognizedReply => Some(BadFormat)
  }

  /** What the caller of a direct send gets and what is remembered, by the kind of the deciding reply; a task is read as
      ReplyIsReadAs says. */
  lemma DirectReplyIsReadAs(reply: Reply, poll: PollOutcome)
    ensures var (output, error) := (ExchangeOutput(reply, poll), ExchangeError(reply, poll));
            match reply
            case MessageReply(message) =>
              output == Some(MessageOutput(message)) && error == None && ExchangeContext(reply, poll) ==
              message.contextId
            case SendFailed(cause) =>
              output == None && error == Some(NotSent(cause)) && ExchangeContext(reply, poll) == ""
            case UnrecognizedReply => output == None && error == Some(BadFormat) && ExchangeContext(reply, poll) == ""
            case TaskReply(task) =>
              var verdict := Verdict(task, poll);
              && (output.Some? <==> verdict.0.Some?) && (output.Some? ==> output.value == TaskOutput(verdict.0.value))
              && (error.Some? <==> verdict.1.Some?) && (error.Some? ==> error.value == BadReply(verdict.1.value))
              && ExchangeContext(reply, poll) == ReplyContext(task, poll)
  {
    hide Verdict, ReplyContext;
  }

  /** A record names the context of what the caller got, and its task if it is one. */
  lemma RecordNamesOutput(output: Option<Output>, isError: bool)
    ensures var record := RecordOf(output, isError);
            && record.isError == isError
            && (output == None ==> record.contextId == "" && record.taskId == "")
            && (output.Some? && output.value.TaskOutput? ==>
                  record.contextId == output.value.task.contextId && record.taskId == output.value.task.id)
            && (output.Some? && output.value.MessageOutput? ==>
                  record.contextId == output.value.message.contextId && record.taskId == "")
  {
  }

  /** The record of a direct send, which never carries the error flag, tells whether the send succeeded exactly when it
      did: for a message, or a task decided by a state that is completed or asks for something. */
  lemma DirectRecordIsRightIff(reply: Reply, poll: PollOutcome, error: AgentError)
    ensures RecordOf(ExchangeOutput(reply, poll), false).isError == ExchangeError(reply, poll).Some? <==>
              || reply.MessageReply?
              || (&& reply.TaskReply? && Deciding(reply.task, poll).Some?
                  && var s := Deciding(reply.task, poll).value.status.state;
                     s.Completed? || s.InputRequired? || s.AuthRequired?)
    ensures !RecordOf(ExchangeOutput(SendFailed(error), poll), false).isError
    ensures ExchangeError(SendFailed(error), poll).Some?
  {
    hide Verdict, Deciding;
    if reply.TaskReply? {
      SucceedsIffCompletedOrInterrupted(reply.task, poll);
    }
  }

  /** A direct send: one exchange, repeated once with a new client after an authentication error; then the reply is
      read. It leaves one history record, which never carries the error flag. `refusal` is the error of creating a
      client. */
  method SendDirect(env: Env, resolved: Resolved, agent: string, creates: (bool, bool), replies: (Reply, Reply),
                    refusal: AgentError, start: int, timeout: int, wakes: seq<Wake>)
    returns (output: Option<Output>, error: Option<SendError>)
    requires env.history.depth >= 1 && Settles(wakes, Deadline(start, timeout))
    modifies env.contexts, env.history, env.health, env.resolver
    ensures env.resolver.View() ==
            CacheAfterRetry(old(env.resolver.View()), resolved.url, creates, ToFnOutcome(replies.0))
    ensures var poll := PollResult(wakes, Deadline(start, timeout));
            var reply := DecidingReply(resolved.url in old(env.resolver.clients), creates, replies, refusal);
            && output == ExchangeOutput(reply, poll) && error == ExchangeError(reply, poll)
            && env.View() == Sent(old(env.View()), resolved, agent, ExchangeContext(reply, poll), ExchangeMark(reply),
                                  RecordOf(output, false), env.health.threshold, env.history.depth)
  {
    hide PollResult, Verdict, ReplyContext, Health.Marked, DecidingReply, CacheAfterRetry;
    var answer := Exchange(env, resolved.url, creates, replies, refusal);
    match answer {
      case SendFailed(cause) =>
        output, error := None, Some(NotSent(cause));
        if resolved.isAlias && !cause.CancelError? {
          env.health.RecordFailure(resolved.alias);
        }
        AppendRecord(env, agent, RecordOf(None, false));
        return;
      case _ =>
    }
    if resolved.isAlias {
      env.health.RecordSuccess(resolved.alias);
    }
    output, error := ProcessResponse(env, resolved, agent, answer, start, timeout, wakes);
  }

  method Exchange(env: Env, url: string, creates: (bool, bool), replies: (Reply, Reply), refusal: AgentError)
    returns (answer: Reply)
    modifies env.resolver
    ensures answer == DecidingReply(url in old(env.resolver.clients), creates, replies, refusal)
    ensures env.resolver.View() == CacheAfterRetry(old(env.resolver.View()), url, creates, ToFnOutcome(replies.0))
  {
    hide ExclusiveLoad, CacheAfterRetry;
    var outcomes := (ToFnOutcome(replies.0), ToFnOutcome(replies.1));
    var r, used := ResolveClientWithAuthRetry(env.resolver, url, creates, outcomes);
    if r.NotResolved? {
      return SendFailed(refusal);
    }
    return if |used| == 2 then replies.1 else replies.0;
  }

  method ProcessResponse(env: Env, resolved: Resolved, agent: string, reply: Reply, start: int, timeout: int,
                         wakes: seq<Wake>)
    returns (output: Option<Output>, error: Option<SendError>)
    requires env.history.depth >= 1 && !reply.SendFailed? && Settles(wakes, Deadline(start, timeout))
    modifies env.contexts, env.history
    ensures var poll := PollResult(wakes, Deadline(start, timeout));
            && output == ExchangeOutput(reply, poll) && error == ExchangeError(reply, poll)
            && env.View() == Recorded(Replied(old(env.View()), resolved, agent, ExchangeContext(reply, poll)),
                                      agent, RecordOf(output, false), env.history.depth)
  {
    hide PollResult, Verdict;
    match reply {
      case TaskReply(task) =>
        var result, failed := HandleTaskResult(task, env.contexts, resolved, agent, start, timeout, wakes);
        output := if result.Some? then Some(TaskOutput(result.value)) else None;
        error := if failed.Some? then Some(BadReply(failed.value)) else None;
      case MessageReply(message) =>
        Remember(env.contexts, resolved, agent, message.contextId);
        output, error := Some(MessageOutput(message)), None;
      case UnrecognizedReply =>
        output, error := None, Some(BadFormat);
    }
    AppendRecord(env, agent, RecordOf(output, false));
  }

  /** What a send goes out with. */
  datatype SendRequest = SendRequest(resolved: Resolved, contextId: string)

  /** The agent a send is allowed to go to; `partsOk` and `allowed` are the outcomes of building the message and of the
      rate limiter. */
  function Admitted(registry: map<string, Agent>, agent: string, isUrl: bool, partsOk: bool, allowed: bool)
    : Option<Resolved>
  {
    var resolved := ResolveAgent(registry, agent, isUrl);
    if agent == "" || !partsOk || resolved.None? || (resolved.value.isAlias && !allowed) then None else resolved
  }

  /** A send goes out exactly to an agent that was named and can be resolved, with a message that could be built,
      and, for an alias, only if its rate limiter lets it through. */
  lemma AdmittedIff(registry: map<string, Agent>, agent: string, isUrl: bool, partsOk: bool, allowed: bool)
    ensures var admitted := Admitted(registry, agent, isUrl, partsOk, allowed);
            && (admitted.Some? <==>
                  agent != "" && partsOk && (agent in registry || isUrl) && (agent in registry ==> allowed))
            && (admitted.Some? ==> admitted == ResolveAgent(registry, agent, isUrl))
  {
  }

  /** `creates` says whether a client can be created. */
  method BuildSendRequest(env: Env, agent: string, explicit: string, isUrl: bool, partsOk: bool, allowed: bool,
                          creates: bool) returns (request: Option<SendRequest>)
    modifies env.resolver
    ensures var admitted := Admitted(env.registry.entries, agent, isUrl, partsOk, allowed);
            && (request.Some? <==> admitted.Some? && (admitted.value.url in old(env.resolver.clients) || creates))
            && (request.Some? ==>
                  && request.value.resolved == admitted.value && admitted.value.url in env.resolver.clients
                  && request.value.contextId == OutgoingContext(env.View(), admitted.value, agent, explicit))
            && (request.Some? && explicit != "" ==> request.value.contextId == explicit)
            && (request.Some? && explicit == "" ==>
                  request.value.contextId ==
                    if agent in env.registry.entries && agent in env.contexts.contexts then env.contexts.contexts[agent]
                    else "")
            && env.resolver.View() ==
               if admitted.Some? then ExclusiveLoad(old(env.resolver.View()), admitted.value.url, creates).0
               else old(env.resolver.View())
  {
    hide ExclusiveLoad;
    var resolved := ResolveAgent(env.registry.entries, agent, isUrl);
    if agent == "" || !partsOk || resolved.None? {
      return None;
    }
    if resolved.value.isAlias && !allowed {
      return None;
    }
    var contextId := explicit;
    if contextId == "" && resolved.value.isAlias {
      contextId := env.contexts.Get(agent);
    }
    var client := env.resolver.Resolve(resolved.value.url, creates);
    if client.None? {
      return None;
    }
    return Some(SendRequest(resolved.value, contextId));
  }

  /** What the agent does when it is asked: directly, `replies` to at most two questions and `wakes` while it is polled;
      streaming, `items`. */
  datatype Wire = Wire(creates: (bool, bool), replies: (Reply, Reply), refusal: AgentError, start: int, timeout: int,
                       wakes: seq<Wake>, items: seq<Item>, reportsProgress: bool)

  /** Why a send gave no result: no request, or what the transport reports. */
  datatype SendFailure = NotBuilt | DirectFailed(error: SendError) | StreamFailed(how: StreamError)

  function DirectFailure(reply: Reply, poll: PollOutcome): Option<SendFailure> {
    match ExchangeError(reply, poll)
    case None => None
    case Some(error) => Some(DirectFailed(error))
  }

  function StreamFailure(items: seq<Item>): Option<SendFailure> {
    match Ending(items, false)
    case Ok(_) => None
    case Err(how) => Some(StreamFailed(how))
  }

  /** A failure is reported exactly if the stream had no answer, or the direct exchange an error, and it is that one. */
  lemma FailureIsReported(items: seq<Item>, reply: Reply, poll: PollOutcome)
    ensures match StreamFailure(items)
            case None => Ending(items, false).Ok?
            case Some(failure) => failure.StreamFailed? && Ending(items, false) == Err(failure.how)
    ensures match DirectFailure(reply, poll)
            case None => ExchangeError(reply, poll) == None
            case Some(failure) => failure.DirectFailed? && ExchangeError(reply, poll) == Some(failure.error)
  {
    hide Ending, ExchangeError;
  }

  /** A send that is not made in the background: the request is built, and goes out on the transport the card
      declares. */
  method SendMessage(env: Env, agent: string, explicit: string, isUrl: bool, partsOk: bool, allowed: bool,
                     creates: bool, wire: Wire)
    returns (request: Option<SendRequest>, output: Option<Output>, failure: Option<SendFailure>)
    requires env.history.depth >= 1 && Settles(wire.wakes, Deadline(wire.start, wire.timeout))
    modifies env.contexts, env.history, env.health, env.resolver
    ensures var admitted := Admitted(env.registry.entries, agent, isUrl, partsOk, allowed);
            && (request.Some? <==> admitted.Some? && (admitted.value.url in old(env.resolver.clients) || creates))
            && (request.Some? ==> request.value.resolved == admitted.value)
    ensures request.None? ==>
              var admitted := Admitted(env.registry.entries, agent, isUrl, partsOk, allowed);
              && output == None && failure == Some(NotBuilt) && env.View() == old(env.View())
              && env.resolver.View() ==
                 if admitted.Some? then ExclusiveLoad(old(env.resolver.View()), admitted.value.url, creates).0
                 else old(env.resolver.View())
    ensures request.Some? && SupportsStreaming(env.registry.entries, request.value.resolved) ==>
              var resolved := request.value.resolved;
              && output == (if Ending(wire.items, false).Ok? then Some(StreamOutput(wire.items)) else None)
              && failure == StreamFailure(wire.items)
              && env.View() ==
                 AfterStream(old(env.View()), resolved, agent, wire.items, env.health.threshold, env.history.depth)
              && env.resolver.View() == ExclusiveLoad(old(env.resolver.View()), resolved.url, creates).0
    ensures request.Some? && !SupportsStreaming(env.registry.entries, request.value.resolved) ==>
              var resolved := request.value.resolved;
              var poll := PollResult(wire.wakes, Deadline(wire.start, wire.timeout));
              var reply := DecidingReply(true, wire.creates, wire.replies, wire.refusal);
              var built := ExclusiveLoad(old(env.resolver.View()), resolved.url, creates).0;
              && output == ExchangeOutput(reply, poll) && failure == DirectFailure(reply, poll)
              && env.View() ==
                 Sent(old(env.View()), resolved, agent, ExchangeContext(reply, poll), ExchangeMark(reply),
                      RecordOf(output, false), env.health.threshold, env.history.depth)
              && env.resolver.View() ==
                 CacheAfterRetry(built, resolved.url, wire.creates, ToFnOutcome(wire.replies.0))
  {
    hide Sent, AfterStream, Ending, StreamOutput, PollResult, DecidingReply, ExclusiveLoad, CacheAfterRetry;
    hide OutgoingContext, ExchangeError, Admitted;
    output, failure := None, Some(NotBuilt);
    request := BuildSendRequest(env, agent, explicit, isUrl, partsOk, allowed, creates);
    if request.None? {
      return;
    }
    var resolved := request.value.resolved;
    assert env.View() == old(env.View());
    if SupportsStreaming(env.registry.entries, resolved) {
      var broken;
      broken, output := SendViaStreaming(env, resolved, agent, wire.items, wire.reportsProgress);
      failure := if broken.Some? then Some(StreamFailed(broken.value)) else None;
    } else {
      var error;
      output, error := SendDirect(env, resolved, agent, wire.creates, wire.replies, wire.refusal, wire.start,
        wire.timeout, wire.wakes);
      failure := if error.Some? then Some(DirectFailed(error.value)) else None;
    }
  }
}
