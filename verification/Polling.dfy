/** Waiting for a task to finish, and reading a finished task (internal/tool/tool_send.go). */
module Polling {
  import opened Prelude
  import opened A2A
  import opened Content
  import opened Stores
  import Streaming

  /** taskPollInterval, in nanoseconds. */
  const POLL_INTERVAL: int := 2_000_000_000

  datatype Answer = Refused(error: AgentError) | Polled(task: Task)

  /** What wakes the loop: cancellation, or a tick read at time `now`, with the answer the agent would give then. */
  datatype Wake = Cancelled | Tick(now: int, answer: Answer)

  /** `Pending` says that the given wakes were used up and the loop still waits. */
  datatype PollOutcome =
    | Finished(task: Task)
    | TimedOut(last: Option<Task>)
    | Aborted(last: Option<Task>)
    | PollFailed(last: Option<Task>, error: AgentError)
    | Pending(last: Option<Task>)

  /** Polling stops in these states; Rejected is not among them. */
  predicate PollStops(state: TaskState) {
    state.Completed? || state.Failed? || state.Canceled? || state.InputRequired? || state.AuthRequired?
  }

  /** A timeout that is not positive means no deadline. */
  function Deadline(start: int, timeout: int): Option<int> {
    if timeout > 0 then Some(start + timeout) else None
  }

  predicate Late(wake: Wake, deadline: Option<int>)
    requires wake.Tick?
  {
    deadline.Some? && wake.now > deadline.value
  }

  /** The loop goes on after this wake. */
  predicate KeepsPolling(wake: Wake, deadline: Option<int>) {
    && wake.Tick? && !Late(wake, deadline)
    && wake.answer.Polled? && !PollStops(wake.answer.task.status.state)
  }

  /** The wakes given are enough for the loop to end. */
  predicate Settles(env: seq<Wake>, deadline: Option<int>) {
    !PollResult(env, deadline).Pending?
  }

  /** How many wakes come before the one that ends the loop. */
  function Rounds(env: seq<Wake>, deadline: Option<int>): (k: nat)
    ensures k <= |env| && (forall i | 0 <= i < k :: KeepsPolling(env[i], deadline))
    ensures k < |env| ==> !KeepsPolling(env[k], deadline)
  {
    if env == [] || !KeepsPolling(env[0], deadline) then 0 else 1 + Rounds(env[1..], deadline)
  }

  /** The answer to the latest poll before wake `k`. */
  function LastAnswer(env: seq<Wake>, deadline: Option<int>, k: nat): Option<Task>
    requires k <= Rounds(env, deadline)
  {
    if k == 0 then None else Some(env[k - 1].answer.task)
  }

  function PollResult(env: seq<Wake>, deadline: Option<int>): PollOutcome {
    var k := Rounds(env, deadline);
    var last := LastAnswer(env, deadline, k);
    if k == |env| then Pending(last)
    else if env[k].Cancelled? then Aborted(last)
    else if Late(env[k], deadline) then TimedOut(last)
    else
      match env[k].answer
      case Refused(error) => PollFailed(last, error)
      case Polled(task) => Finished(task)
  }

  /** The number of GetTask calls. */
  function PollCalls(env: seq<Wake>, deadline: Option<int>): nat {
    var k := Rounds(env, deadline);
    if k < |env| && env[k].Tick? && !Late(env[k], deadline) then k + 1 else k
  }

  method PollTaskCompletion(start: int, timeout: int, env: seq<Wake>) returns (r: PollOutcome, calls: nat)
    ensures r == PollResult(env, Deadline(start, timeout))
    ensures calls == PollCalls(env, Deadline(start, timeout))
  {
    var deadline := None;
    if timeout > 0 {
      deadline := Some(start + timeout);
    }
    var last: Option<Task> := None;
    calls := 0;
    for i := 0 to |env|
      invariant i <= Rounds(env, deadline)
      invariant last == LastAnswer(env, deadline, i)
      invariant calls == i
    {
      match env[i] {
        case Cancelled =>
          return Aborted(last), calls;
        case Tick(now, answer) =>
          if deadline.Some? && now > deadline.value {
            return TimedOut(last), calls;
          }
          calls := calls + 1;
          if answer.Refused? {
            return PollFailed(last, answer.error), calls;
          }
          last := Some(answer.task);
          if PollStops(answer.task.status.state) {
            return Finished(answer.task), calls;
          }
      }
    }
    return Pending(last), calls;
  }

  /** Success means an agent's answer in a stop state, and that every earlier answer was in none;
      otherwise the outcome carries the last successful answer, which is missing exactly when there was none. */
  lemma PollOutcomeMeaning(env: seq<Wake>, deadline: Option<int>)
    ensures var r, n := PollResult(env, deadline), PollCalls(env, deadline);
            && n <= |env|
            && (forall i | 0 <= i < n :: env[i].Tick? && !Late(env[i], deadline))
            && (forall i | 0 <= i < n - 1 :: KeepsPolling(env[i], deadline))
            && (r.Finished? <==> n > 0 && env[n - 1].answer.Polled? && PollStops(env[n - 1].answer.task.status.state))
            && (r.Finished? ==> env[n - 1].answer == Polled(r.task))
            && (r.PollFailed? <==> n > 0 && env[n - 1].answer.Refused?)
            && (!r.Finished? ==>
                  var answers := if r.PollFailed? then n - 1 else n;
                  if answers == 0 then r.last == None
                  else r.last.Some? && env[answers - 1].answer == Polled(r.last.value))
  {
  }

  /** The wake is a tick in time, and the agent's answer leaves the task running. */
  predicate StillRuns(wake: Wake, deadline: Option<int>) {
    && wake.Tick? && (deadline.None? || wake.now <= deadline.value) && wake.answer.Polled?
    && wake.answer.task.status.state !in {Completed, Failed, Canceled, InputRequired, AuthRequired}
  }

  /** The latest task the agent showed before wake `k`, if any. */
  function Latest(env: seq<Wake>, k: nat): Option<Task>
    requires k <= |env|
  {
    if k > 0 && env[k - 1].Tick? && env[k - 1].answer.Polled? then Some(env[k - 1].answer.task) else None
  }

  /** The poll is decided by the first wake that does not leave the task running: a cancellation, a tick behind the
      deadline, a refusal, or a task that has come to rest; and it reports the latest task seen before. */
  lemma PollIsDecidedAt(env: seq<Wake>, deadline: Option<int>, k: nat)
    requires k <= |env| && (forall i | 0 <= i < k :: StillRuns(env[i], deadline))
    requires k < |env| ==> !StillRuns(env[k], deadline)
    ensures PollResult(env, deadline) ==
            if k == |env| then Pending(Latest(env, k))
            else
              match env[k]
              case Cancelled => Aborted(Latest(env, k))
              case Tick(now, answer) =>
                if deadline.Some? && now > deadline.value then TimedOut(Latest(env, k))
                else if answer.Refused? then PollFailed(Latest(env, k), answer.error)
                else Finished(answer.task)
    ensures PollCalls(env, deadline) ==
            if k < |env| && env[k].Tick? && (deadline.None? || env[k].now <= deadline.value) then k + 1 else k
  {
    assert forall i | 0 <= i < |env| :: KeepsPolling(env[i], deadline) <==> StillRuns(env[i], deadline);
    assert Rounds(env, deadline) == k;
    assert k > 0 ==> StillRuns(env[k - 1], deadline);
  }

  /** Without a positive timeout a poll never times out. */
  lemma NoDeadlineNoTimeout(env: seq<Wake>, start: int, timeout: int)
    requires timeout <= 0
    ensures !PollResult(env, Deadline(start, timeout)).TimedOut?
  {
  }

  /** Ticks come one interval apart at the earliest, and are read no earlier than they are sent. */
  predicate WellTimed(env: seq<Wake>, start: int) {
    forall i | 0 <= i < |env| && env[i].Tick? :: env[i].now >= start + (i + 1) * POLL_INTERVAL
  }

  /** Under a positive timeout the agent is asked at most floor(timeout / interval) times,
      and the loop ends within one more wake. */
  lemma PollBudget(env: seq<Wake>, start: int, timeout: int)
    requires timeout > 0 && WellTimed(env, start)
    ensures PollCalls(env, Deadline(start, timeout)) <= timeout / POLL_INTERVAL
    ensures PollCalls(env, Deadline(start, timeout)) * 2_000_000_000 <= timeout
    ensures |env| > timeout / POLL_INTERVAL ==> !PollResult(env, Deadline(start, timeout)).Pending?
  {
    var deadline := Deadline(start, timeout);
    var n := PollCalls(env, deadline);
    PollOutcomeMeaning(env, deadline);
    if n > 0 {
      assert env[n - 1].Tick? && !Late(env[n - 1], deadline);
      assert n * POLL_INTERVAL <= timeout;
    }
  }

  // -------- Reading the reply --------

  datatype ReplyError =
    | AgentFailed(text: string)
    | AgentCanceled
    | NoTaskId(state: TaskState)
    | PollingEnded(how: PollOutcome)
    | UnrecognizedState(state: TaskState)

  predicate IsPollable(state: TaskState) {
    state.Working? || state.Submitted?
  }

  function FailureText(task: Task): string {
    match task.status.message
    case None => "task failed"
    case Some(message) => if PartsText(message.parts) != "" then PartsText(message.parts) else "task failed"
  }

  /** The task whose state decides a reply: the reply itself, or what polling a running task found. */
  function Deciding(task: Task, poll: PollOutcome): Option<Task> {
    if !IsPollable(task.status.state) || task.id == "" then Some(task)
    else if poll.Finished? then Some(poll.task)
    else None
  }

  /** The context a reply is remembered by, empty when there is nothing to remember. */
  function ReplyContext(task: Task, poll: PollOutcome): string {
    match Deciding(task, poll)
    case None => ""
    case Some(d) => d.contextId
  }

  /** What the caller is told about a reply. */
  function Verdict(task: Task, poll: PollOutcome): (Option<Task>, Option<ReplyError>) {
    match Deciding(task, poll)
    case None => (Some(if poll.last.Some? then poll.last.value else task), Some(PollingEnded(poll)))
    case Some(d) =>
      match d.status.state
      case Completed => (Some(d), None)
      case InputRequired => (Some(d), None)
      case AuthRequired => (Some(d), None)
      case Failed => (Some(d), Some(AgentFailed(FailureText(d))))
      case Canceled => (Some(d), Some(AgentCanceled))
      case s => (None, Some(if IsPollable(s) then NoTaskId(s) else UnrecognizedState(s)))
  }

  method FailMessage(task: Task) returns (text: string)
    ensures text == FailureText(task)
  {
    text := "task failed";
    if task.status.message.Some? {
      var rendered := ExtractPartsText(task.status.message.value.parts);
      if rendered != "" {
        text := rendered;
      }
    }
  }

  /** The nested case analysis over a reply's state and over the polled state. The last inner case, where the
      source reports a finished poll as still waiting, is shown to be dead. */
  method HandleTaskResult(task: Task, store: ContextStore, resolved: Resolved, agent: string, start: int, timeout: int,
                          env: seq<Wake>)
    returns (output: Option<Task>, error: Option<ReplyError>)
    requires IsPollable(task.status.state) && task.id != "" ==> Settles(env, Deadline(start, timeout))
    modifies store
    ensures var poll := PollResult(env, Deadline(start, timeout));
            && (output, error) == Verdict(task, poll)
            && store.contexts == Remembered(old(store.contexts), resolved, agent, ReplyContext(task, poll))
            && store.origins == Attributed(old(store.origins), resolved, agent, ReplyContext(task, poll))
  {
    hide PollResult, FailureText;
    match task.status.state {
      case Completed =>
        Remember(store, resolved, agent, task.contextId);
        return Some(task), None;
      case InputRequired =>
        Remember(store, resolved, agent, task.contextId);
        return Some(task), None;
      case AuthRequired =>
        Remember(store, resolved, agent, task.contextId);
        return Some(task), None;
      case Failed =>
        Remember(store, resolved, agent, task.contextId);
        var text := FailMessage(task);
        return Some(task), Some(AgentFailed(text));
      case Canceled =>
        Remember(store, resolved, agent, task.contextId);
        return Some(task), Some(AgentCanceled);
      case Working | Submitted =>
        if task.id == "" {
          Remember(store, resolved, agent, task.contextId);
          return None, Some(NoTaskId(task.status.state));
        }
        var poll, calls := PollTaskCompletion(start, timeout, env);
        if !poll.Finished? {
          var known := task;
          if poll.last.Some? {
            known := poll.last.value;
          }
          return Some(known), Some(PollingEnded(poll));
        }
        FinishedTaskStops(env, Deadline(start, timeout));
        Remember(store, resolved, agent, poll.task.contextId);
        match poll.task.status.state {
          case Completed => return Some(poll.task), None;
          case InputRequired => return Some(poll.task), None;
          case AuthRequired => return Some(poll.task), None;
          case Failed =>
            var text := FailMessage(poll.task);
            return Some(poll.task), Some(AgentFailed(text));
          case Canceled => return Some(poll.task), Some(AgentCanceled);
          case _ => assert false;
        }
      case _ =>
        Remember(store, resolved, agent, task.contextId);
        return None, Some(UnrecognizedState(task.status.state));
    }
  }

  method Remember(store: ContextStore, resolved: Resolved, agent: string, contextId: string)
    modifies store
    ensures store.contexts == Remembered(old(store.contexts), resolved, agent, contextId)
    ensures store.origins == Attributed(old(store.origins), resolved, agent, contextId)
  {
    if resolved.isAlias && contextId != "" {
      store.Set(agent, contextId, resolved.url);
    }
  }

  lemma FinishedTaskStops(env: seq<Wake>, deadline: Option<int>)
    ensures var r := PollResult(env, deadline); r.Finished? ==> PollStops(r.task.status.state)
  {
  }

  /** A send succeeds exactly when the deciding task is completed or interrupted. */
  lemma SucceedsIffCompletedOrInterrupted(task: Task, poll: PollOutcome)
    ensures Verdict(task, poll).1 == None <==>
            && Deciding(task, poll).Some?
            && var s := Deciding(task, poll).value.status.state;
               s.Completed? || s.InputRequired? || s.AuthRequired?
  {
    hide FailureText;
  }

  /** The verdict is about this task. */
  predicate ReadsAs(task: Task, verdict: (Option<Task>, Option<ReplyError>)) {
    var state := task.status.state;
    && verdict.0 == (if state in {Completed, InputRequired, AuthRequired, Failed, Canceled} then Some(task) else None)
    && (verdict.1 == None <==> state in {Completed, InputRequired, AuthRequired})
    && (verdict.1 == Some(AgentCanceled) <==> state == Canceled)
    && ((verdict.1.Some? && verdict.1.value.AgentFailed?) <==> state == Failed)
    && (state == Failed && task.status.message.Some? && PartsText(task.status.message.value.parts) != "" ==>
          verdict.1 == Some(AgentFailed(PartsText(task.status.message.value.parts))))
    && ((verdict.1.Some? && verdict.1.value.NoTaskId?) <==> state in {Working, Submitted})
    && (verdict.1.Some? && verdict.1.value.NoTaskId? ==> verdict.1.value.state == state)
    && (verdict.1.Some? && verdict.1.value.UnrecognizedState? ==> verdict.1.value.state == state)
  }

  /** What a reply is read as: the reply itself, or the task polling found if the reply was working or submitted and
      had an identifier. The caller is handed that very task when it is completed, asks for input or authentication,
      failed or was canceled; the error says which of the last two, in the agent's words if it has any; and it is
      that task's context that is remembered. */
  lemma ReplyIsReadAs(task: Task, poll: PollOutcome)
    ensures var polled := task.status.state in {Working, Submitted} && task.id != "";
            if polled && !poll.Finished? then
              && Verdict(task, poll) ==
                 (Some(if poll.last.Some? then poll.last.value else task), Some(PollingEnded(poll)))
              && ReplyContext(task, poll) == ""
            else
              var read := if polled then poll.task else task;
              ReadsAs(read, Verdict(task, poll)) && ReplyContext(task, poll) == read.contextId
  {
    hide PartsText;
  }

  /** Polling stops in the states that end a stream, except one. */
  lemma RejectedEndsStreamsOnly(state: TaskState)
    ensures PollStops(state) <==> Streaming.IsTerminalOrInterrupted(state) && state != Rejected
    ensures PollStops(state) <==> state in {Completed, Failed, Canceled, InputRequired, AuthRequired}
    ensures Streaming.IsTerminalOrInterrupted(Rejected) && !PollStops(Rejected)
  {
  }

  /** So an agent that keeps answering Rejected is asked until the deadline. */
  lemma RejectedIsPolledToTheDeadline(env: seq<Wake>, deadline: Option<int>)
    requires forall i | 0 <= i < |env| ::
      env[i].Tick? && !Late(env[i], deadline) && env[i].answer.Polled? && env[i].answer.task.status.state == Rejected
    ensures PollResult(env, deadline).Pending? && PollCalls(env, deadline) == |env|
  {
    assert forall i | 0 <= i < |env| :: KeepsPolling(env[i], deadline);
  }
}
