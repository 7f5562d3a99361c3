/** Background sends that report to the inbox (internal/tool/tool_send.go). */
module Background {
  import opened Prelude
  import opened A2A
  import opened Streaming
  import opened Polling
  import opened Inbox

  function EntryFromTask(alias: string, task: Task): Entry {
    Entry(alias, task.id, task.contextId, FromTask(task.status.state), ZERO_TIME, Some(task), None, NoTrouble)
  }

  function EntryFromMessage(alias: string, message: Message): Entry {
    Entry(alias, "", message.contextId, CompletedMessage, ZERO_TIME, None, Some(message), NoTrouble)
  }

  /** How an unfinished poll is noted; None when the poll has not ended. */
  function PollTrouble(poll: PollOutcome): Option<Trouble> {
    match poll
    case Finished(_) => Some(NoTrouble)
    case TimedOut(_) => Some(PollDeadline)
    case Aborted(_) => Some(PollAborted)
    case PollFailed(_, error) => Some(PollRefused(error))
    case Pending(_) => None
  }

  /** The newest state of a task known after polling it. */
  function Newest(task: Task, poll: PollOutcome): Task {
    if poll.Finished? then poll.task else if poll.last.Some? then poll.last.value else task
  }

  /** The entry a background send leaves behind: none while the agent is still polled, and none for a reply that is
      neither a task nor a message. */
  function BackgroundEntry(alias: string, reply: Reply, poll: PollOutcome): Option<Entry> {
    match reply
    case SendFailed(error) => Some(Entry(alias, "", "", DispatchError, ZERO_TIME, None, None, SendTrouble(error)))
    case MessageReply(message) => Some(EntryFromMessage(alias, message))
    case TaskReply(task) =>
      if IsTerminalOrInterrupted(task.status.state) then Some(EntryFromTask(alias, task))
      else if PollTrouble(poll).Some? then
        Some(EntryFromTask(alias, Newest(task, poll)).(error := PollTrouble(poll).value))
      else None
    case UnrecognizedReply => None
  }

  /** Only the inbox is written: the context store is not in the frame. */
  method BackgroundSendAndPoll(inbox: MemoryInbox, alias: string, reply: Reply, start: int, timeout: int,
                               env: seq<Wake>, now: int)
    requires inbox.Valid()
    modifies inbox, inbox.entries.buf
    ensures inbox.Valid() && (inbox.entries.buf == old(inbox.entries.buf) || fresh(inbox.entries.buf))
    ensures var entry := BackgroundEntry(alias, reply, PollResult(env, Deadline(start, timeout)));
            inbox.Contents() == old(inbox.Contents()) + (if entry.Some? then [Stamped(entry.value, now)] else [])
  {
    hide PollResult;
    match reply {
      case SendFailed(error) =>
        inbox.Deposit(Entry(alias, "", "", DispatchError, ZERO_TIME, None, None, SendTrouble(error)), now);
      case TaskReply(task) =>
        if IsTerminalOrInterrupted(task.status.state) {
          inbox.Deposit(EntryFromTask(alias, task), now);
        } else {
          var poll, calls := PollTaskCompletion(start, timeout, env);
          if poll.Pending? {
            return;
          }
          if !poll.Finished? {
            var known := task;
            if poll.last.Some? {
              known := poll.last.value;
            }
            inbox.Deposit(EntryFromTask(alias, known).(error := PollTrouble(poll).value), now);
            return;
          }
          inbox.Deposit(EntryFromTask(alias, poll.task), now);
        }
      case MessageReply(message) =>
        inbox.Deposit(EntryFromMessage(alias, message), now);
      case UnrecognizedReply =>
    }
  }

  /** A background send leaves no entry exactly when the reply is not recognised, or is a task that goes on and is still
      being polled; and polling is over in time whenever there is a timeout. Any entry is filed under its alias. */
  lemma EverySendIsAnswered(alias: string, reply: Reply, start: int, timeout: int, env: seq<Wake>)
    ensures var poll := PollResult(env, Deadline(start, timeout));
            var entry := BackgroundEntry(alias, reply, poll);
            && (entry.None? <==>
                  || reply.UnrecognizedReply?
                  || (reply.TaskReply? && !IsTerminalOrInterrupted(reply.task.status.state) && poll.Pending?))
            && (timeout > 0 && WellTimed(env, start) && |env| > timeout / POLL_INTERVAL ==> !poll.Pending?)
            && (entry.Some? ==> entry.value.alias == alias)
  {
    hide PollResult;
    if timeout > 0 && WellTimed(env, start) && |env| > timeout / POLL_INTERVAL {
      PollBudget(env, start, timeout);
    }
  }

  /** What an entry tells: a message or a task that came to rest at once, as it was answered; a task that was polled,
      as it was when polling ended, or as the agent last showed it, or as it was answered, together with what ended
      the poll; or the error of sending. */
  lemma EntryTellsReply(alias: string, reply: Reply, poll: PollOutcome)
    ensures var entry := BackgroundEntry(alias, reply, poll);
            entry.Some? ==>
              var e := entry.value;
              match reply
              case SendFailed(error) =>
                e == Entry(alias, "", "", DispatchError, 0, None, None, SendTrouble(error))
              case MessageReply(message) =>
                e == Entry(alias, "", message.contextId, CompletedMessage, 0, None, Some(message), NoTrouble)
              case TaskReply(task) =>
                var rests := task.status.state in {Completed, Failed, Canceled, Rejected, InputRequired, AuthRequired};
                var shown := if rests then task
                             else if poll.Finished? then poll.task
                             else if poll.last.Some? then poll.last.value
                             else task;
                && e.alias == alias && e.task == Some(shown) && e.message == None && e.timestamp == 0
                && e.taskId == shown.id && e.contextId == shown.contextId && e.state == FromTask(shown.status.state)
                && (e.error == NoTrouble <==> rests || poll.Finished?)
                && (!rests ==>
                      && (e.error == PollDeadline <==> poll.TimedOut?)
                      && (e.error == PollAborted <==> poll.Aborted?)
                      && (poll.PollFailed? ==> e.error == PollRefused(poll.error)))
              case UnrecognizedReply => false
  {
  }

  /** An entry without trouble shows a result: a message, or a task in a state that ends a stream or a poll. */
  lemma CleanEntriesAreResults(alias: string, reply: Reply, env: seq<Wake>, deadline: Option<int>)
    ensures var entry := BackgroundEntry(alias, reply, PollResult(env, deadline));
            entry.Some? && entry.value.error == NoTrouble ==>
              || (&& entry.value.message.Some? && entry.value.task == None
                  && reply == MessageReply(entry.value.message.value))
              || (&& entry.value.task.Some? && entry.value.message == None
                  && IsTerminalOrInterrupted(entry.value.task.value.status.state)
                  && entry.value.taskId == entry.value.task.value.id
                  && entry.value.contextId == entry.value.task.value.contextId)
  {
    FinishedTaskStops(env, deadline);
  }
}
