/** What the per-alias stores keep in common over every sequence of tool calls. */
module Lifecycle {
  import opened Prelude
  import opened Sequences
  import opened A2A
  import opened Stores
  import opened Streaming
  import opened Polling
  import Health
  import History
  import opened Gateway
  import Broadcast

  // -------- The invariant --------

  /** Every remembered context belongs to a registered agent and was obtained at the URL it is registered with now. */
  ghost predicate ContextsConsistent(w: World) {
    forall a | a in w.contexts ::
      a in w.registry && a in w.origins && w.origins[a] == w.registry[a].url && w.contexts[a] != ""
  }

  ghost predicate LimitersConsistent(w: World) {
    forall a | a in w.limiters :: a in w.registry
  }

  /** An alias that is not registered reads (unknown, 0); a registered one is tracked, and none is when tracking is
      off. */
  ghost predicate HealthConsistent(w: World, threshold: int) {
    && (forall a | a !in w.registry :: Health.Shown(w.health, a) == Health.UNTRACKED)
    && (if threshold != 0 then forall a | a in w.registry :: a in w.health else w.health == map[])
  }

  ghost predicate Consistent(w: World, threshold: int) {
    ContextsConsistent(w) && LimitersConsistent(w) && HealthConsistent(w, threshold)
  }

  // -------- Connecting and disconnecting --------

  lemma ConnectKeepsConsistency(w: World, input: ConnectInput, default: RateLimit, card: Option<Card>, threshold: int)
    requires Consistent(w, threshold)
    ensures Consistent(Connected(w, input, default, card, threshold), threshold)
  {
    hide Health.Marked;
    Health.ResetShowsUntracked(w.health, input.alias, threshold);
  }

  lemma DisconnectKeepsConsistency(w: World, alias: string, threshold: int)
    requires Consistent(w, threshold)
    ensures Consistent(Disconnected(w, alias, threshold), threshold)
  {
    hide Health.Marked;
    Health.ResetShowsUntracked(w.health, alias, threshold);
  }

  // -------- Sending, at the time of the reply --------

  lemma MarkTouchesOneAlias(health: map<string, Health.HealthState>, alias: string, mark: Health.Mark, threshold: int)
    requires mark == Health.Succeeded || mark == Health.Failed
    ensures var after := Health.AfterCall(health, Health.Call(alias, mark), threshold);
            && after.Keys == health.Keys
            && forall a | a in health && a != alias :: after[a] == health[a]
  {
  }

  ghost predicate IsReplyMark(mark: Option<Health.Mark>) {
    mark == None || mark == Some(Health.Succeeded) || mark == Some(Health.Failed)
  }

  /** The stores that an exchange leaves alone, and those it writes a context to. */
  lemma LeftStores(w: World, resolved: Resolved, agent: string, contextId: string, mark: Option<Health.Mark>,
                   record: Option<Record>, threshold: int, depth: History.Depth)
    ensures var after := Left(w, resolved, agent, contextId, mark, record, threshold, depth);
            && after.registry == w.registry && after.limiters == w.limiters
            && after.contexts == Remembered(w.contexts, resolved, agent, contextId)
            && after.origins == Attributed(w.origins, resolved, agent, contextId)
  {
    hide Health.AfterCall, History.MemoryStep, Remembered, Attributed;
  }

  /** What an exchange leaves keeps the contexts consistent exactly when its agent is still registered at the URL it was
      asked at, or there is nothing to remember. Other tool calls may have come between the question and the reply. */
  lemma ReplyKeepsContextsIff(w: World, resolved: Resolved, agent: string, contextId: string, mark: Option<Health.Mark>,
                              record: Option<Record>, threshold: int, depth: History.Depth)
    requires ContextsConsistent(w)
    ensures ContextsConsistent(Left(w, resolved, agent, contextId, mark, record, threshold, depth)) <==>
            (resolved.isAlias && contextId != "" ==> agent in w.registry && w.registry[agent].url == resolved.url)
  {
    hide Health.AfterCall, History.MemoryStep;
    var after := Left(w, resolved, agent, contextId, mark, record, threshold, depth);
    if resolved.isAlias && contextId != "" {
      assert agent in after.contexts && after.origins[agent] == resolved.url;
    }
  }

  /** It keeps the health of unregistered aliases untouched exactly when it makes no visible mark on one. */
  lemma ReplyKeepsHealthIff(w: World, resolved: Resolved, agent: string, contextId: string, mark: Option<Health.Mark>,
                            record: Option<Record>, threshold: int, depth: History.Depth)
    requires HealthConsistent(w, threshold) && IsReplyMark(mark)
    ensures HealthConsistent(Left(w, resolved, agent, contextId, mark, record, threshold, depth), threshold) <==>
            !(&& resolved.isAlias && mark.Some? && threshold != 0
              && resolved.alias !in w.registry && resolved.alias in w.health)
  {
    hide History.MemoryStep, Health.AfterCall;
    var after := Left(w, resolved, agent, contextId, mark, record, threshold, depth);
    if resolved.isAlias && mark.Some? {
      MarkTouchesOneAlias(w.health, resolved.alias, mark.value, threshold);
      VisibleMark(w.health, resolved.alias, mark.value, threshold);
    }
  }

  lemma VisibleMark(health: map<string, Health.HealthState>, alias: string, mark: Health.Mark, threshold: int)
    requires mark == Health.Succeeded || mark == Health.Failed
    ensures var after := Health.AfterCall(health, Health.Call(alias, mark), threshold);
            && (threshold == 0 || alias !in health ==> after == health)
            && (threshold != 0 && alias in health && health[alias] == Health.UNTRACKED ==>
                  after[alias] != Health.UNTRACKED)
  {
  }

  // -------- A reply that comes in after a disconnect --------

  /** The stores after an agent of a consistent world was disconnected while a question to it was under way. */
  function LeftLate(w: World, alias: string, contextId: string, mark: Option<Health.Mark>, record: Option<Record>,
                    threshold: int, depth: History.Depth): World
    requires alias in w.registry
  {
    var resolved := ResolveAgent(w.registry, alias, false).value;
    Left(Disconnected(w, alias, threshold), resolved, alias, contextId, mark, record, threshold, depth)
  }

  /** Disconnecting resets the health entry instead of deleting it, so a late mark is counted for an agent that is gone;
      a late context is remembered for it; and a late record starts a new history. */
  lemma LateReplyLeaves(w: World, alias: string, contextId: string, mark: Option<Health.Mark>, record: Option<Record>,
                        threshold: int, depth: History.Depth)
    requires Consistent(w, threshold) && alias in w.registry && IsReplyMark(mark)
    ensures var late := LeftLate(w, alias, contextId, mark, record, threshold, depth);
            && alias !in late.registry
            && (ContextsConsistent(late) <==> contextId == "")
            && (HealthConsistent(late, threshold) <==> mark.None? || threshold == 0)
            && (alias in late.contexts <==> contextId != "")
            && (contextId != "" ==> late.contexts[alias] == contextId)
            && (threshold != 0 && mark.Some? ==>
                  Health.Shown(late.health, alias) ==
                    if mark.value.Succeeded? then Health.HealthState(Health.Healthy, 0)
                    else Health.HealthState(if 1 >= threshold then Health.Unhealthy else Health.Unknown, 1))
            && History.Stored(late.history, alias) == (if record.Some? then [record.value] else [])
  {
    hide ContextsConsistent, HealthConsistent;
    var resolved := ResolveAgent(w.registry, alias, false).value;
    var gone := Disconnected(w, alias, threshold);
    DisconnectKeepsConsistency(w, alias, threshold);
    Health.ResetShowsUntracked(w.health, alias, threshold);
    ReplyKeepsContextsIff(gone, resolved, alias, contextId, mark, record, threshold, depth);
    ReplyKeepsHealthIff(gone, resolved, alias, contextId, mark, record, threshold, depth);
  }

  /** A direct send: only an exchange that failed counts as a failure, and it brings no context. */
  lemma FailedExchangeHasNoContext(reply: Reply, poll: PollOutcome)
    ensures ExchangeMark(reply) == Some(Health.Failed) <==> reply.SendFailed? && !reply.error.CancelError?
    ensures ExchangeMark(reply) != Some(Health.Succeeded) ==> ExchangeContext(reply, poll) == ""
  {
    hide ReplyContext;
  }

  /** What a direct send under way leaves behind, for every reply: an answer its context and (healthy, 0), a failed
      exchange one failure and no context, a cancelled one nothing. */
  lemma LateDirectReply(w: World, alias: string, reply: Reply, poll: PollOutcome, threshold: int, depth: History.Depth)
    requires Consistent(w, threshold) && alias in w.registry && threshold != 0
    ensures var contextId := ExchangeContext(reply, poll);
            var late := LeftLate(w, alias, contextId, ExchangeMark(reply),
                                 Some(RecordOf(ExchangeOutput(reply, poll), false)), threshold, depth);
            && alias !in late.registry
            && (Consistent(late, threshold) <==> reply == SendFailed(CancelError))
            && (!reply.SendFailed? ==>
                  && Health.Shown(late.health, alias) == Health.HealthState(Health.Healthy, 0)
                  && (contextId != "" ==> alias in late.contexts && late.contexts[alias] == contextId))
            && (reply.SendFailed? ==> alias !in late.contexts)
            && (reply.SendFailed? && !reply.error.CancelError? ==> Health.Shown(late.health, alias).failures == 1)
  {
    hide LeftLate, ContextsConsistent, HealthConsistent, LimitersConsistent, ExchangeContext, ExchangeOutput, RecordOf;
    var record := Some(RecordOf(ExchangeOutput(reply, poll), false));
    FailedExchangeHasNoContext(reply, poll);
    LateReplyLeaves(w, alias, ExchangeContext(reply, poll), ExchangeMark(reply), record, threshold, depth);
    LimitersOutliveReplies(w, alias, ExchangeContext(reply, poll), ExchangeMark(reply), record, threshold, depth);
  }

  lemma LimitersOutliveReplies(w: World, alias: string, contextId: string, mark: Option<Health.Mark>,
                               record: Option<Record>, threshold: int, depth: History.Depth)
    requires LimitersConsistent(w) && alias in w.registry
    ensures LimitersConsistent(LeftLate(w, alias, contextId, mark, record, threshold, depth))
  {
    hide Health.AfterCall, History.MemoryStep;
  }

  /** A streamed send always leaves (healthy, 0), and the stream's context if it ended well. */
  lemma LateStream(w: World, alias: string, items: seq<Item>, threshold: int, depth: History.Depth)
    requires Consistent(w, threshold) && alias in w.registry && threshold != 0
    ensures var ending := Ending(items, false);
            var contextId := if ending.Ok? then StreamContext(items) else "";
            var output := if ending.Ok? then Some(StreamOutput(items)) else None;
            var late := LeftLate(w, alias, contextId, Some(Health.Succeeded), Some(RecordOf(output, ending.Err?)),
                                 threshold, depth);
            && !HealthConsistent(late, threshold) && (ContextsConsistent(late) <==> contextId == "")
            && Health.Shown(late.health, alias) == Health.HealthState(Health.Healthy, 0)
            && (alias in late.contexts <==> contextId != "")
            && (contextId != "" ==> late.contexts[alias] == contextId)
  {
    hide Ending, StreamContext, StreamOutput, LeftLate, ContextsConsistent, HealthConsistent, RecordOf;
    var ending := Ending(items, false);
    LateReplyLeaves(w, alias, if ending.Ok? then StreamContext(items) else "", Some(Health.Succeeded),
      Some(RecordOf(if ending.Ok? then Some(StreamOutput(items)) else None, ending.Err?)), threshold, depth);
  }

  /** A ping leaves a mark for the agent that is gone unless it was cancelled. */
  lemma LatePing(w: World, alias: string, reachable: bool, error: Option<AgentError>, threshold: int,
                 depth: History.Depth)
    requires Consistent(w, threshold) && alias in w.registry && threshold > 0
    ensures var late := LeftLate(w, alias, "", PingMark(reachable, error), None, threshold, depth);
            && (Consistent(late, threshold) <==> !reachable && error == Some(CancelError))
            && (!reachable && error.Some? && !error.value.CancelError? ==>
                  Health.Shown(late.health, alias).failures == 1)
  {
    hide LeftLate, ContextsConsistent, HealthConsistent, LimitersConsistent;
    LateReplyLeaves(w, alias, "", PingMark(reachable, error), None, threshold, depth);
    LimitersOutliveReplies(w, alias, "", PingMark(reachable, error), None, threshold, depth);
  }

  // -------- Whole runs of tool calls --------

  /** One tool call, made and finished before the next. Sends and broadcasts carry what they led to. */
  datatype ToolCall =
    | Connect(input: ConnectInput, valid: bool, card: Option<Card>)
    | Disconnect(alias: string, valid: bool)
    | Ping(alias: string, reachable: bool, error: Option<AgentError>)
    | ClearHistory(agent: string)
    | Send(agent: string, isUrl: bool, contextId: string, mark: Option<Health.Mark>, record: Record)
    | BroadcastTo(alias: string, mark: Option<Health.Mark>, record: Record)

  datatype Config = Config(threshold: int, depth: History.Depth, connectDefault: RateLimit)

  function Effect(w: World, call: ToolCall, config: Config): World
  {
    match call
    case Connect(input, valid, card) =>
      if valid then Connected(w, input, config.connectDefault, card, config.threshold) else w
    case Disconnect(alias, valid) => if valid then Disconnected(w, alias, config.threshold) else w
    case Ping(alias, reachable, error) =>
      if alias == "" || alias !in w.registry || config.threshold <= 0 then w
      else Noted(w, alias, PingMark(reachable, error), config.threshold)
    case ClearHistory(agent) => if agent != "" && agent in w.registry then w.(history := w.history - {agent}) else w
    case Send(agent, isUrl, contextId, mark, record) =>
      var resolved := ResolveAgent(w.registry, agent, isUrl);
      if agent == "" || resolved.None? then w
      else Sent(w, resolved.value, agent, contextId, mark, record, config.threshold, config.depth)
    case BroadcastTo(alias, mark, record) =>
      Recorded(if alias in w.registry then Noted(w, alias, mark, config.threshold) else w, alias, record, config.depth)
  }

  ghost predicate WellFormed(calls: seq<ToolCall>) {
    forall call <- calls :: call.Send? || call.BroadcastTo? ==> IsReplyMark(call.mark)
  }

  function After(w: World, calls: seq<ToolCall>, config: Config): World
  {
    if calls == [] then w else Effect(After(w, calls[..|calls| - 1], config), calls[|calls| - 1], config)
  }

  lemma NoteKeepsConsistency(w: World, alias: string, mark: Option<Health.Mark>, threshold: int)
    requires Consistent(w, threshold) && IsReplyMark(mark) && alias in w.registry
    ensures Consistent(Noted(w, alias, mark, threshold), threshold)
  {
    hide Health.AfterCall;
    if mark.Some? {
      MarkTouchesOneAlias(w.health, alias, mark.value, threshold);
    }
  }

  lemma EffectKeepsConsistency(w: World, call: ToolCall, config: Config)
    requires Consistent(w, config.threshold)
    requires call.Send? || call.BroadcastTo? ==> IsReplyMark(call.mark)
    ensures Consistent(Effect(w, call, config), config.threshold)
  {
    hide Health.AfterCall, History.MemoryStep, Connected, Disconnected;
    match call {
      case Connect(input, _, card) =>
        ConnectKeepsConsistency(w, input, config.connectDefault, card, config.threshold);
      case Disconnect(alias, valid) => DisconnectKeepsConsistency(w, alias, config.threshold);
      case Ping(alias, reachable, error) =>
        if alias in w.registry {
          NoteKeepsConsistency(w, alias, PingMark(reachable, error), config.threshold);
        }
      case ClearHistory(_) =>
      case Send(agent, isUrl, contextId, mark, record) =>
        var resolved := ResolveAgent(w.registry, agent, isUrl);
        if resolved.Some? {
          var threshold, depth := config.threshold, config.depth;
          ReplyKeepsContextsIff(w, resolved.value, agent, contextId, mark, Some(record), threshold, depth);
          ReplyKeepsHealthIff(w, resolved.value, agent, contextId, mark, Some(record), threshold, depth);
        }
      case BroadcastTo(alias, mark, record) =>
        if alias in w.registry {
          NoteKeepsConsistency(w, alias, mark, config.threshold);
        }
    }
  }

  /** The stores agree after every sequence of tool calls made one after another. */
  lemma {:induction false} StoresAgree(calls: seq<ToolCall>, config: Config)
    requires WellFormed(calls)
    ensures Consistent(After(EMPTY_WORLD, calls, config), config.threshold)
  {
    if calls == [] {
      assert Consistent(EMPTY_WORLD, config.threshold);
    } else {
      hide Effect, Consistent;
      StoresAgree(calls[..|calls| - 1], config);
      assert calls[|calls| - 1] in calls;
      EffectKeepsConsistency(After(EMPTY_WORLD, calls[..|calls| - 1], config), calls[|calls| - 1], config);
    }
  }

  // -------- The tools perform these calls --------

  function ConfigOf(tool: ConnectAgentTool): Config
    requires tool.env.history.depth >= 1
  {
    Config(tool.env.health.threshold, tool.env.history.depth, tool.defaultRateLimit)
  }

  /** Each tool, run on the real stores, has the effect of its call, and keeps them consistent. */
  method PerformTool(tool: ConnectAgentTool, call: ToolCall)
    requires tool.env.history.depth >= 1 && !call.Send? && !call.BroadcastTo?
    modifies tool.env.registry, tool.env.contexts, tool.env.limiters
    modifies tool.env.health, tool.env.resolver, tool.env.history
    ensures tool.env.View() == Effect(old(tool.env.View()), call, ConfigOf(tool))
    ensures Consistent(old(tool.env.View()), tool.env.health.threshold) ==>
              Consistent(tool.env.View(), tool.env.health.threshold)
  {
    hide Connected, Disconnected, Noted, Consistent;
    ghost var w := tool.env.View();
    match call {
      case Connect(input, valid, card) =>
        var ok := tool.Handle(input, valid, card);
      case Disconnect(alias, valid) =>
        var ok := DisconnectAgent(tool.env, alias, valid);
        assert ok || Effect(w, call, ConfigOf(tool)) == w by { DisconnectNothing(w, alias, tool.env.health.threshold); }
      case Ping(alias, reachable, error) =>
        var output := PingAgent(tool.env, alias, reachable, error, 0);
      case ClearHistory(agent) =>
        var ok := Gateway.ClearHistory(tool.env, agent);
    }
    if Consistent(w, tool.env.health.threshold) {
      EffectKeepsConsistency(w, call, ConfigOf(tool));
    }
  }

  lemma DisconnectNothing(w: World, alias: string, threshold: int)
    ensures alias !in w.registry ==> Disconnected(w, alias, threshold) == w
  {
  }

  /** So does a send; one that cannot be built has none. */
  method PerformSend(tool: ConnectAgentTool, agent: string, explicit: string, isUrl: bool, partsOk: bool, allowed: bool,
                     creates: bool, wire: Wire) returns (request: Option<SendRequest>, ghost call: ToolCall)
    requires tool.env.history.depth >= 1 && Settles(wire.wakes, Deadline(wire.start, wire.timeout))
    modifies tool.env.contexts, tool.env.history, tool.env.health, tool.env.resolver
    ensures call.Send? && call.agent == agent && call.isUrl == isUrl && IsReplyMark(call.mark)
    ensures tool.env.View() ==
            if request.Some? then Effect(old(tool.env.View()), call, ConfigOf(tool)) else old(tool.env.View())
    ensures Consistent(old(tool.env.View()), tool.env.health.threshold) ==>
              Consistent(tool.env.View(), tool.env.health.threshold)
  {
    hide Sent, Ending, StreamOutput, StreamContext, PollResult, DecidingReply;
    hide ExchangeContext, ExchangeOutput, RecordOf, Consistent;
    ghost var w := tool.env.View();
    var output, failure;
    request, output, failure := SendMessage(tool.env, agent, explicit, isUrl, partsOk, allowed, creates, wire);
    call := ToolCall.Send(agent, isUrl, "", None, Record("", "", false));
    if request.Some? {
      if SupportsStreaming(w.registry, request.value.resolved) {
        var ok := Ending(wire.items, false).Ok?;
        call := ToolCall.Send(agent, isUrl, if ok then StreamContext(wire.items) else "", Some(Health.Succeeded),
          RecordOf(output, !ok));
      } else {
        var poll := PollResult(wire.wakes, Deadline(wire.start, wire.timeout));
        var reply := DecidingReply(true, wire.creates, wire.replies, wire.refusal);
        call := ToolCall.Send(agent, isUrl, ExchangeContext(reply, poll), ExchangeMark(reply), RecordOf(output, false));
      }
      if Consistent(w, tool.env.health.threshold) {
        EffectKeepsConsistency(w, call, ConfigOf(tool));
      }
    }
  }

  /** And one goroutine of a broadcast by itself. */
  method PerformBroadcast(tool: ConnectAgentTool, alias: string, o: Broadcast.Oracle)
    returns (outcome: Broadcast.AgentOutcome, ghost call: ToolCall)
    requires tool.env.history.depth >= 1 && o.url == Broadcast.UrlOf(tool.env.registry.entries, alias)
    modifies tool.env.health, tool.env.history, tool.env.resolver
    ensures call.BroadcastTo? && call.alias == alias && IsReplyMark(call.mark)
    ensures tool.env.View() == Effect(old(tool.env.View()), call, ConfigOf(tool))
    ensures Consistent(old(tool.env.View()), tool.env.health.threshold) ==>
              Consistent(tool.env.View(), tool.env.health.threshold)
  {
    hide Recorded, Health.AfterCall, Consistent, Ending, Broadcast.IsAuthFailure, Broadcast.OfStream;
    ghost var w := tool.env.View();
    ghost var health, threshold := Health.Shown(w.health, alias), tool.env.health.threshold;
    ghost var attempt :=
      Broadcast.Attempted(o, health, Broadcast.IsCached(tool.env.resolver.clients.Keys, o.url), threshold);
    outcome := Broadcast.BroadcastToAgent(tool.env, alias, o);
    call := BroadcastTo(alias, attempt.1, Broadcast.RecordOfOutcome(outcome));
    if Consistent(w, threshold) {
      EffectKeepsConsistency(w, call, ConfigOf(tool));
    }
  }

  // -------- Runs with exchanges under way --------

  /** Every tool that asks an agent is split in two: the alias is looked up when the question goes out, and the reply
      takes effect when it comes in. Sends, pings and each goroutine of a broadcast are such exchanges; a ping leaves no
      record. A broadcast to an alias that is not registered leaves a record only. */
  datatype Event =
    | Tool(call: ToolCall)
    | Ask(agent: string, isUrl: bool)
    | Reply(question: nat, contextId: string, mark: Option<Health.Mark>, record: Option<Record>)
    | Missed(missing: string, note: Record)

  datatype Question = Question(agent: string, resolved: Resolved)

  datatype Flow = Flow(w: World, asked: seq<Question>)

  function Happens(f: Flow, e: Event, config: Config): Flow
  {
    match e
    case Tool(call) => f.(w := Effect(f.w, call, config))
    case Ask(agent, isUrl) =>
      var resolved := ResolveAgent(f.w.registry, agent, isUrl);
      if resolved.None? then f else f.(asked := f.asked + [Question(agent, resolved.value)])
    case Reply(question, contextId, mark, record) =>
      if question >= |f.asked| then f
      else
        var q := f.asked[question];
        f.(w := Left(f.w, q.resolved, q.agent, contextId, mark, record, config.threshold, config.depth))
    case Missed(alias, record) => f.(w := Recorded(f.w, alias, record, config.depth))
  }

  function AfterEvents(events: seq<Event>, config: Config): Flow
  {
    if events == [] then Flow(EMPTY_WORLD, [])
    else Happens(AfterEvents(events[..|events| - 1], config), events[|events| - 1], config)
  }

  predicate AsksAgent(call: ToolCall) {
    call.Send? || call.Ping? || call.BroadcastTo?
  }

  /** Only calls that ask no agent are made in one step. */
  ghost predicate ProperEvent(e: Event) {
    match e
    case Tool(call) => !AsksAgent(call)
    case Reply(_, _, mark, _) => IsReplyMark(mark)
    case _ => true
  }

  /** A call that asks an agent, as a question and its reply. */
  function Exchange(f: Flow, call: ToolCall, config: Config): (Event, Event)
    requires AsksAgent(call)
  {
    match call
    case Send(agent, isUrl, contextId, mark, record) =>
      (Ask(agent, isUrl), Event.Reply(|f.asked|, contextId, mark, Some(record)))
    case Ping(alias, reachable, error) =>
      var mark := if config.threshold > 0 then PingMark(reachable, error) else None;
      (Ask(alias, false), Event.Reply(|f.asked|, "", mark, None))
    case BroadcastTo(alias, mark, record) =>
      (Ask(alias, false),
       if alias in f.w.registry then Event.Reply(|f.asked|, "", mark, Some(record)) else Missed(alias, record))
  }

  /** Made without anything in between, question and reply are the whole call. */
  lemma ExchangeIsTheCall(f: Flow, call: ToolCall, config: Config)
    requires AsksAgent(call)
    requires call.Send? ==> call.agent != ""
    requires call.Ping? ==> call.alias != ""
    ensures var (question, reply) := Exchange(f, call, config);
            Happens(Happens(f, question, config), reply, config).w == Effect(f.w, call, config)
  {
    hide Health.AfterCall, History.MemoryStep;
  }

  /** A reply finds its agent registered: where it was asked if it brings a context, anywhere if it only makes a
      mark. */
  predicate Timely(f: Flow, e: Event, threshold: int) {
    e.Reply? && e.question < |f.asked| && f.asked[e.question].resolved.isAlias ==>
      var q := f.asked[e.question];
      && (e.contextId != "" ==> q.agent in f.w.registry && f.w.registry[q.agent].url == q.resolved.url)
      && (e.mark.Some? && threshold != 0 ==> q.agent in f.w.registry)
  }

  /** A question about an alias is resolved to that alias. */
  ghost predicate QuestionsNameTheirAlias(asked: seq<Question>) {
    forall k | 0 <= k < |asked| && asked[k].resolved.isAlias :: asked[k].resolved.alias == asked[k].agent
  }

  ghost predicate WasAsked(asked: seq<Question>, alias: string, url: string) {
    exists k :: 0 <= k < |asked| && asked[k].agent == alias && asked[k].resolved.isAlias && asked[k].resolved.url == url
  }

  /** Every remembered context was obtained at a URL at which its alias was asked. */
  ghost predicate OriginsWereAsked(f: Flow) {
    forall a | a in f.w.contexts :: a in f.w.origins && f.w.contexts[a] != "" && WasAsked(f.asked, a, f.w.origins[a])
  }

  /** Registered agents, and those asked while they were, have a health entry. */
  ghost predicate KnownAreTracked(f: Flow, threshold: int) {
    threshold != 0 ==>
      && (forall a | a in f.w.registry :: a in f.w.health)
      && (forall k | 0 <= k < |f.asked| && f.asked[k].resolved.isAlias :: f.asked[k].resolved.alias in f.w.health)
  }

  ghost predicate Sound(f: Flow, threshold: int) {
    && OriginsWereAsked(f) && LimitersConsistent(f.w)
    && KnownAreTracked(f, threshold) && QuestionsNameTheirAlias(f.asked)
  }

  lemma WasAskedExtends(asked: seq<Question>, q: Question, alias: string, url: string)
    requires WasAsked(asked, alias, url)
    ensures WasAsked(asked + [q], alias, url)
  {
    var k :| 0 <= k < |asked| && asked[k].agent == alias && asked[k].resolved.isAlias && asked[k].resolved.url == url;
    assert (asked + [q])[k] == asked[k];
  }

  lemma ToolKeepsSound(f: Flow, call: ToolCall, config: Config)
    requires !AsksAgent(call) && Sound(f, config.threshold)
    ensures Sound(Happens(f, Tool(call), config), config.threshold)
  {
    hide WasAsked, Health.AfterCall;
    match call {
      case Connect(input, _, _) => Health.ResetShowsUntracked(f.w.health, input.alias, config.threshold);
      case Disconnect(alias, _) => Health.ResetShowsUntracked(f.w.health, alias, config.threshold);
      case ClearHistory(_) =>
    }
  }

  lemma AskKeepsSound(f: Flow, agent: string, isUrl: bool, config: Config)
    requires Sound(f, config.threshold)
    ensures Sound(Happens(f, Ask(agent, isUrl), config), config.threshold)
  {
    hide WasAsked;
    var f' := Happens(f, Ask(agent, isUrl), config);
    if f'.asked != f.asked {
      forall a | a in f.w.contexts ensures WasAsked(f'.asked, a, f.w.origins[a]) {
        WasAskedExtends(f.asked, f'.asked[|f.asked|], a, f.w.origins[a]);
      }
    }
  }

  lemma ReplyKeepsSound(f: Flow, reply: Event, config: Config)
    requires reply.Reply? && IsReplyMark(reply.mark) && Sound(f, config.threshold)
    ensures Sound(Happens(f, reply, config), config.threshold)
  {
    hide Left;
    if reply.question < |f.asked| {
      hide OriginsWereAsked, LimitersConsistent, KnownAreTracked, QuestionsNameTheirAlias;
      ReplyKeepsOrigins(f, reply, config);
      ReplyKeepsTracking(f, reply, config);
    }
  }

  lemma ReplyKeepsOrigins(f: Flow, reply: Event, config: Config)
    requires reply.Reply? && OriginsWereAsked(f) && LimitersConsistent(f.w)
    ensures var f' := Happens(f, reply, config); OriginsWereAsked(f') && LimitersConsistent(f'.w) && f'.asked == f.asked
  {
    hide Left, WasAsked;
    if reply.question < |f.asked| {
      var q, f' := f.asked[reply.question], Happens(f, reply, config);
      LeftStores(f.w, q.resolved, q.agent, reply.contextId, reply.mark, reply.record, config.threshold, config.depth);
      if q.resolved.isAlias {
        AskedWasAsked(f.asked, reply.question);
      }
      forall a | a in f'.w.contexts
        ensures a in f'.w.origins && f'.w.contexts[a] != "" && WasAsked(f.asked, a, f'.w.origins[a])
      {
        assert a in f.w.contexts || (a == q.agent && reply.contextId != "");
      }
    }
  }

  lemma AskedWasAsked(asked: seq<Question>, k: nat)
    requires k < |asked| && asked[k].resolved.isAlias
    ensures WasAsked(asked, asked[k].agent, asked[k].resolved.url)
  {
  }

  lemma ReplyKeepsTracking(f: Flow, reply: Event, config: Config)
    requires reply.Reply? && IsReplyMark(reply.mark) && KnownAreTracked(f, config.threshold)
    ensures KnownAreTracked(Happens(f, reply, config), config.threshold)
  {
    hide History.MemoryStep, Health.AfterCall, Remembered, Attributed;
    if reply.question < |f.asked| && reply.mark.Some? {
      MarkTouchesOneAlias(f.w.health, f.asked[reply.question].resolved.alias, reply.mark.value, config.threshold);
    }
  }

  lemma MissedKeepsStores(f: Flow, alias: string, record: Record, config: Config)
    ensures var f' := Happens(f, Missed(alias, record), config);
            && (Sound(f, config.threshold) ==> Sound(f', config.threshold))
            && (Consistent(f.w, config.threshold) ==> Consistent(f'.w, config.threshold))
  {
    hide History.MemoryStep, WasAsked;
  }

  /** What no reply, however late, can break: limiters belong to registered agents, registered agents are tracked, and
      every remembered context was obtained where its alias was asked. */
  lemma {:induction false} LateRepliesKeepOrigins(events: seq<Event>, config: Config)
    requires forall e <- events :: ProperEvent(e)
    ensures Sound(AfterEvents(events, config), config.threshold)
  {
    if events == [] {
    } else {
      hide Happens, Sound;
      var f, e := AfterEvents(events[..|events| - 1], config), events[|events| - 1];
      assert ProperEvent(e);
      LateRepliesKeepOrigins(events[..|events| - 1], config);
      match e {
        case Tool(call) => ToolKeepsSound(f, call, config);
        case Ask(agent, isUrl) => AskKeepsSound(f, agent, isUrl, config);
        case Reply(_, _, _, _) => ReplyKeepsSound(f, e, config);
        case Missed(alias, record) => MissedKeepsStores(f, alias, record, config);
      }
    }
  }

  /** From stores that agree, the next event leads to stores that agree exactly when it is timely. */
  lemma EventKeepsConsistencyIff(f: Flow, e: Event, config: Config)
    requires ProperEvent(e) && Sound(f, config.threshold) && Consistent(f.w, config.threshold)
    ensures Consistent(Happens(f, e, config).w, config.threshold) <==> Timely(f, e, config.threshold)
  {
    match e {
      case Tool(call) =>
        hide Effect, Consistent;
        EffectKeepsConsistency(f.w, call, config);
      case Ask(_, _) =>
      case Reply(_, _, _, _) => ReplyKeepsConsistencyIff(f, e, config);
      case Missed(alias, record) =>
        hide Happens, Consistent;
        MissedKeepsStores(f, alias, record, config);
    }
  }

  lemma ReplyKeepsConsistencyIff(f: Flow, reply: Event, config: Config)
    requires reply.Reply? && IsReplyMark(reply.mark)
    requires Sound(f, config.threshold) && Consistent(f.w, config.threshold)
    ensures Consistent(Happens(f, reply, config).w, config.threshold) <==> Timely(f, reply, config.threshold)
  {
    hide ContextsConsistent, HealthConsistent, OriginsWereAsked, History.MemoryStep, Health.AfterCall;
    if reply.question < |f.asked| {
      var q, threshold, depth := f.asked[reply.question], config.threshold, config.depth;
      ReplyKeepsContextsIff(f.w, q.resolved, q.agent, reply.contextId, reply.mark, reply.record, threshold, depth);
      ReplyKeepsHealthIff(f.w, q.resolved, q.agent, reply.contextId, reply.mark, reply.record, threshold, depth);
    }
  }

  /** The stores agree after these events. */
  ghost function AgreeAfter(config: Config): seq<Event> -> bool {
    events => Consistent(AfterEvents(events, config).w, config.threshold)
  }

  ghost function TimelyAfter(config: Config): (seq<Event>, Event) -> bool {
    (before, e) => Timely(AfterEvents(before, config), e, config.threshold)
  }

  lemma AfterOneMore(events: seq<Event>, i: nat, config: Config)
    requires i < |events|
    ensures AfterEvents(events[..i + 1], config) == Happens(AfterEvents(events[..i], config), events[i], config)
  {
    assert events[..i + 1][..i] == events[..i];
  }

  /** However sends, pings, broadcasts and other tool calls interleave: the stores agree at every moment of a run if and
      only if every reply is timely. */
  lemma StoresAgreeIffRepliesAreTimely(events: seq<Event>, config: Config)
    requires forall e <- events :: ProperEvent(e)
    ensures Always(events, AgreeAfter(config)) <==> EachFits(events, TimelyAfter(config))
  {
    assert AgreeAfter(config)([]) by {
      assert Consistent(EMPTY_WORLD, config.threshold);
    }
    hide Happens, Consistent, Timely, ProperEvent, Sound, AfterEvents, Always, EachFits;
    forall i | 0 <= i < |events| && AgreeAfter(config)(events[..i])
      ensures AgreeAfter(config)(events[..i + 1]) <==> TimelyAfter(config)(events[..i], events[i])
    {
      assert events[i] in events && forall e <- events[..i] :: e in events;
      LateRepliesKeepOrigins(events[..i], config);
      AfterOneMore(events, i, config);
      EventKeepsConsistencyIff(AfterEvents(events[..i], config), events[i], config);
    }
    AlwaysIffEachFits(events, AgreeAfter(config), TimelyAfter(config));
  }

  // -------- Histories --------

  /** Every history belongs to a registered agent. */
  ghost predicate HistoriesOwned(w: World) {
    forall a | a in w.history :: a in w.registry
  }

  /** If the event leaves a record, it is filed under a registered agent. */
  predicate RecordsForOwner(f: Flow, e: Event) {
    match e
    case Reply(question, _, _, record) => question < |f.asked| && record.Some? ==>
                                            f.asked[question].agent in f.w.registry
    case Missed(alias, _) => alias in f.w.registry
    case _ => true
  }

  lemma EventKeepsOwnersIff(f: Flow, e: Event, config: Config)
    requires ProperEvent(e) && HistoriesOwned(f.w)
    ensures HistoriesOwned(Happens(f, e, config).w) <==> RecordsForOwner(f, e)
  {
    hide Health.AfterCall, LimitersAfter, Remembered, Attributed, History.DropOldest;
    match e {
      case Tool(_) =>
      case Ask(_, _) =>
      case Reply(question, _, _, record) =>
        if question < |f.asked| && record.Some? {
          assert f.asked[question].agent in Happens(f, e, config).w.history;
        }
      case Missed(alias, _) =>
        assert alias in Happens(f, e, config).w.history;
    }
  }

  ghost function OwnedAfter(config: Config): seq<Event> -> bool {
    events => HistoriesOwned(AfterEvents(events, config).w)
  }

  ghost function ForOwnerAfter(config: Config): (seq<Event>, Event) -> bool {
    (before, e) => RecordsForOwner(AfterEvents(before, config), e)
  }

  /** Histories belong to registered agents at every moment of a run if and only if every record is filed under one: no
      send by URL, no broadcast to an unknown alias, and no reply after its agent is gone leaves a record. */
  lemma HistoriesOwnedIffRecordsAre(events: seq<Event>, config: Config)
    requires forall e <- events :: ProperEvent(e)
    ensures Always(events, OwnedAfter(config)) <==> EachFits(events, ForOwnerAfter(config))
  {
    hide Happens, RecordsForOwner, ProperEvent, Always, EachFits;
    assert OwnedAfter(config)([]);
    hide AfterEvents, HistoriesOwned;
    forall i | 0 <= i < |events| && OwnedAfter(config)(events[..i])
      ensures OwnedAfter(config)(events[..i + 1]) <==> ForOwnerAfter(config)(events[..i], events[i])
    {
      assert events[i] in events;
      AfterOneMore(events, i, config);
      EventKeepsOwnersIff(AfterEvents(events[..i], config), events[i], config);
    }
    AlwaysIffEachFits(events, OwnedAfter(config), ForOwnerAfter(config));
  }

  // -------- A conversation goes on --------

  /** A call that could change the context remembered for the alias. */
  predicate Interrupts(call: ToolCall, alias: string, url: string) {
    match call
    case Connect(input, _, _) => input.alias == alias && input.url != url
    case Disconnect(a, _) => a == alias
    case Send(agent, _, contextId, _, _) => agent == alias && contextId != ""
    case _ => false
  }

  /** After a reply with a context, the next message to the alias that names none carries that context, whatever calls
      come between, as long as none of them disconnects it, moves it to another URL or brings another context. */
  lemma {:induction false} ConversationContinues(w: World, alias: string, reply: ToolCall, more: seq<ToolCall>,
                                                 config: Config)
    requires alias != "" && alias in w.registry
    requires reply.Send? && reply.agent == alias && reply.contextId != ""
    requires forall call <- more :: !Interrupts(call, alias, w.registry[alias].url)
    ensures var now := After(Effect(w, reply, config), more, config);
            && alias in now.registry && now.registry[alias].url == w.registry[alias].url
            && alias in now.contexts && now.contexts[alias] == reply.contextId
            && OutgoingContext(now, ResolveAgent(now.registry, alias, false).value, alias, "") == reply.contextId
  {
    if more == [] {
    } else {
      hide Effect, Interrupts;
      ConversationContinues(w, alias, reply, more[..|more| - 1], config);
      assert more[|more| - 1] in more;
      var before := After(Effect(w, reply, config), more[..|more| - 1], config);
      UninterruptedKeepsContext(before, alias, more[|more| - 1], config);
    }
  }

  lemma UninterruptedKeepsContext(w: World, alias: string, call: ToolCall, config: Config)
    requires alias in w.registry && alias in w.contexts
    requires !Interrupts(call, alias, w.registry[alias].url)
    ensures var now := Effect(w, call, config);
            && alias in now.registry && now.registry[alias].url == w.registry[alias].url
            && alias in now.contexts && now.contexts[alias] == w.contexts[alias]
  {
    hide Health.AfterCall, History.MemoryStep, LimitersAfter, Left;
    match call {
      case Send(agent, isUrl, contextId, mark, record) =>
        var resolved := ResolveAgent(w.registry, agent, isUrl);
        if resolved.Some? {
          LeftStores(w, resolved.value, agent, contextId, mark, Some(record), config.threshold, config.depth);
        }
      case _ =>
    }
  }

  // -------- The default rate limit --------

  /** The server option for a default rate limit promises a limit for every agent connected without its own. The connect
      tool is built without it, so connecting without a limit changes no limiter, whatever the server's default. */
  lemma DefaultRateLimitIsDropped(w: World, input: ConnectInput, serverDefault: RateLimit, card: Option<Card>,
                                  threshold: int)
    requires input.limit == None
    ensures Connected(w, input, RateLimit(0.0, 0), card, threshold).limiters == w.limiters
    ensures Connected(w, input, serverDefault, card, threshold).limiters == w.limiters <==>
            serverDefault.Disabled() || (input.alias in w.limiters && w.limiters[input.alias] == serverDefault)
  {
    var limiters := Connected(w, input, serverDefault, card, threshold).limiters;
    if !serverDefault.Disabled() {
      assert limiters[input.alias] == serverDefault;
      if input.alias in w.limiters && w.limiters[input.alias] == serverDefault {
        assert w.limiters[input.alias := serverDefault] == w.limiters;
      }
    }
  }
}
