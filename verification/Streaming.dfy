/** Consumption of an agent's event stream (internal/tool/helpers.go). */
module Streaming {
  import opened Prelude
  import opened Sequences
  import opened A2A
  import opened Content
  import opened Stores

  datatype Event =
    | TaskEvent(task: Task)
    | MessageEvent(message: Message)
    | StatusEvent(taskId: string, contextId: string, status: Status)
    | ArtifactEvent(taskId: string, contextId: string, artifact: Option<Artifact>)
    | UnknownEvent

  /** One step of the iterator: an event or an error. */
  datatype Item = Received(event: Event) | Broken(error: AgentError)

  datatype StreamResult = ByTask(task: Task) | ByMessage(message: Message) | ByStatus

  predicate IsTerminalOrInterrupted(state: TaskState) {
    || state.Completed? || state.Failed? || state.Canceled?
    || state.InputRequired? || state.AuthRequired? || state.Rejected?
  }

  // -------- What a stream means --------

  /** An item that ends consumption. */
  predicate Stops(item: Item) {
    match item
    case Broken(_) => true
    case Received(TaskEvent(_)) => true
    case Received(MessageEvent(_)) => true
    case Received(StatusEvent(_, _, status)) => IsTerminalOrInterrupted(status.state)
    case Received(_) => false
  }

  /** The position of the first stopping item, or the length of the stream if there is none. */
  function StopIndex(items: seq<Item>): (k: nat)
    ensures k <= |items| && (forall i | 0 <= i < k :: !Stops(items[i])) && (k < |items| ==> Stops(items[k]))
  {
    if items == [] || Stops(items[0]) then 0 else 1 + StopIndex(items[1..])
  }

  /** The items up to and including the first stopping one. */
  function Relevant(items: seq<Item>): seq<Item> {
    if StopIndex(items) < |items| then items[..StopIndex(items) + 1] else items
  }

  /** Concatenates what each item contributes, in receipt order. */
  function Collect<T>(items: seq<Item>, contribution: Item -> seq<T>): seq<T> {
    if items == [] then []
    else Collect(items[..|items| - 1], contribution) + contribution(items[|items| - 1])
  }

  function ArtifactIn(): Item -> seq<Option<Artifact>> {
    (item: Item) => if item.Received? && item.event.ArtifactEvent? then [item.event.artifact] else []
  }

  function StatusIn(): Item -> seq<Status> {
    (item: Item) => if item.Received? && item.event.StatusEvent? then [item.event.status] else []
  }

  function TaskIdIn(): Item -> seq<string> {
    (item: Item) =>
      if item.Received? && (item.event.StatusEvent? || item.event.ArtifactEvent?) then [item.event.taskId] else []
  }

  function ContextIdIn(): Item -> seq<string> {
    (item: Item) =>
      if item.Received? && (item.event.StatusEvent? || item.event.ArtifactEvent?) then [item.event.contextId] else []
  }

  function StatusText(status: Status): string {
    match status.message
    case None => ""
    case Some(message) => PartsText(message.parts)
  }

  /** One progress report for each status that does not end the stream. */
  function ProgressIn(): Item -> seq<(TaskState, string)> {
    (item: Item) =>
      if item.Received? && item.event.StatusEvent? && !IsTerminalOrInterrupted(item.event.status.state) then
        [(item.event.status.state, StatusText(item.event.status))]
      else []
  }

  /** The first non-empty string, or the empty string. */
  function FirstNonEmpty(ids: seq<string>): (id: string)
    ensures id == "" ==> forall i | 0 <= i < |ids| :: ids[i] == ""
    ensures id != "" ==> exists i :: 0 <= i < |ids| && ids[i] == id && forall j | 0 <= j < i :: ids[j] == ""
  {
    if ids == [] then ""
    else
      var init := ids[..|ids| - 1];
      assert forall i | 0 <= i < |init| :: init[i] == ids[i];
      var earlier := FirstNonEmpty(init);
      if earlier != "" then earlier else ids[|ids| - 1]
  }

  /** How consumption ends; `started` says whether an event had been received before. */
  function Ending(items: seq<Item>, started: bool): Result<StreamResult, StreamError> {
    var k := StopIndex(items);
    if k == |items| then Err(NoTerminalEvent)
    else
      match items[k]
      case Broken(DeadlineError) => Err(if started || k > 0 then StreamTimeout else ConnectionTimeout)
      case Broken(e) => Err(if started || k > 0 then Interrupted(e) else ConnectionFailed(e))
      case Received(TaskEvent(task)) => Ok(ByTask(task))
      case Received(MessageEvent(message)) => Ok(ByMessage(message))
      case Received(_) => Ok(ByStatus)
  }

  /** The task that stands for a stream ended by a status: the stream's identifiers, its artifacts, its last status. */
  function SyntheticTask(items: seq<Item>): Task
    requires Ending(items, false) == Ok(ByStatus)
  {
    Task(FirstNonEmpty(Collect(Relevant(items), TaskIdIn())), FirstNonEmpty(Collect(Relevant(items), ContextIdIn())),
         items[StopIndex(items)].event.status, Collect(Relevant(items), ArtifactIn()))
  }

  /** The accumulated fields of a consumer, apart from `receivedEvents`. */
  datatype Digest = Digest(artifacts: seq<Option<Artifact>>, lastStatus: Option<Status>, taskId: string,
                           contextId: string, progress: seq<(TaskState, string)>)

  const EMPTY_DIGEST := Digest([], None, "", "", [])

  function LastStatus(statuses: seq<Status>, before: Option<Status>): Option<Status> {
    if statuses == [] then before else Some(statuses[|statuses| - 1])
  }

  /** What a consumer that starts from `before` has accumulated after `items`. */
  function DigestOf(before: Digest, items: seq<Item>, reportsProgress: bool): Digest {
    Digest(before.artifacts + Collect(items, ArtifactIn()),
           LastStatus(Collect(items, StatusIn()), before.lastStatus),
           FirstNonEmpty([before.taskId] + Collect(items, TaskIdIn())),
           FirstNonEmpty([before.contextId] + Collect(items, ContextIdIn())),
           before.progress + if reportsProgress then Collect(items, ProgressIn()) else [])
  }

  // -------- The consumer --------

  class StreamState {
    var artifacts: seq<Option<Artifact>>
    var lastStatus: Option<Status>
    var taskId: string
    var contextId: string
    var receivedEvents: bool
    const reportsProgress: bool
    /** The calls made to the progress callback. */
    var progress: seq<(TaskState, string)>

    constructor (reportsProgress: bool)
      ensures this.reportsProgress == reportsProgress && !receivedEvents && Accumulated() == EMPTY_DIGEST
    {
      this.reportsProgress := reportsProgress;
      artifacts, lastStatus, taskId, contextId, receivedEvents, progress := [], None, "", "", false, [];
    }

    function Accumulated(): Digest
      reads this
    {
      Digest(artifacts, lastStatus, taskId, contextId, progress)
    }
  }

  lemma CollectStep<T>(items: seq<Item>, item: Item, contribution: Item -> seq<T>)
    ensures Collect(items + [item], contribution) == Collect(items, contribution) + contribution(item)
  {
    assert (items + [item])[..|items|] == items;
  }

  lemma FirstNonEmptyExtends(ids: seq<string>, id: string)
    ensures FirstNonEmpty(ids + [id]) == if FirstNonEmpty(ids) != "" then FirstNonEmpty(ids) else id
  {
    assert (ids + [id])[..|ids|] == ids;
  }

  lemma FirstStep(before: string, items: seq<Item>, item: Item, contribution: Item -> seq<string>)
    requires |contribution(item)| <= 1
    ensures var id := FirstNonEmpty([before] + Collect(items, contribution));
            FirstNonEmpty([before] + Collect(items + [item], contribution)) ==
              if id != "" || contribution(item) == [] then id else contribution(item)[0]
  {
    hide FirstNonEmpty;
    CollectStep(items, item, contribution);
    var ids := [before] + Collect(items, contribution);
    if contribution(item) == [] {
      assert [before] + Collect(items + [item], contribution) == ids;
    } else {
      assert contribution(item) == [contribution(item)[0]];
      assert [before] + Collect(items + [item], contribution) == ids + [contribution(item)[0]];
      FirstNonEmptyExtends(ids, contribution(item)[0]);
    }
  }

  /** What one more item adds: its own contributions, and identifiers only where none is known yet. */
  function Absorbed(d: Digest, item: Item, reportsProgress: bool): Digest {
    Digest(d.artifacts + ArtifactIn()(item),
           LastStatus(StatusIn()(item), d.lastStatus),
           if d.taskId != "" || TaskIdIn()(item) == [] then d.taskId else TaskIdIn()(item)[0],
           if d.contextId != "" || ContextIdIn()(item) == [] then d.contextId else ContextIdIn()(item)[0],
           d.progress + if reportsProgress then ProgressIn()(item) else [])
  }

  lemma DigestStep(before: Digest, items: seq<Item>, item: Item, reportsProgress: bool)
    ensures DigestOf(before, items + [item], reportsProgress) ==
            Absorbed(DigestOf(before, items, reportsProgress), item, reportsProgress)
  {
    hide StatusText, FirstNonEmpty, Collect;
    CollectStep(items, item, ArtifactIn());
    CollectStep(items, item, StatusIn());
    CollectStep(items, item, ProgressIn());
    FirstStep(before.taskId, items, item, TaskIdIn());
    FirstStep(before.contextId, items, item, ContextIdIn());
  }

  /** The field updates of one loop iteration. */
  method Absorb(state: StreamState, event: Event)
    modifies state
    ensures state.receivedEvents
    ensures state.Accumulated() == Absorbed(old(state.Accumulated()), Received(event), state.reportsProgress)
  {
    hide StatusText;
    state.receivedEvents := true;
    match event {
      case StatusEvent(taskId, contextId, status) =>
        if state.taskId == "" {
          state.taskId := taskId;
        }
        if state.contextId == "" && contextId != "" {
          state.contextId := contextId;
        }
        state.lastStatus := Some(status);
        if !IsTerminalOrInterrupted(status.state) && state.reportsProgress {
          var text := RenderStatus(status);
          state.progress := state.progress + [(status.state, text)];
        }
      case ArtifactEvent(taskId, contextId, artifact) =>
        if state.taskId == "" {
          state.taskId := taskId;
        }
        if state.contextId == "" && contextId != "" {
          state.contextId := contextId;
        }
        state.artifacts := state.artifacts + [artifact];
      case _ =>
    }
  }

  method ConsumeStream(items: seq<Item>, state: StreamState) returns (r: Result<StreamResult, StreamError>)
    modifies state
    ensures r == Ending(items, old(state.receivedEvents))
    ensures state.Accumulated() == DigestOf(old(state.Accumulated()), Relevant(items), state.reportsProgress)
  {
    hide DigestOf, Absorbed;
    ghost var before := state.Accumulated();
    DigestOfNothing(before, state.reportsProgress);
    for i := 0 to |items|
      invariant i <= StopIndex(items)
      invariant state.receivedEvents == (old(state.receivedEvents) || i > 0)
      invariant state.Accumulated() == DigestOf(before, items[..i], state.reportsProgress)
    {
      var item := items[i];
      assert items[..i + 1] == items[..i] + [item];
      DigestStep(before, items[..i], item, state.reportsProgress);
      if item.Broken? {
        BrokenAddsNothing(DigestOf(before, items[..i], state.reportsProgress), item, state.reportsProgress);
        if item.error.DeadlineError? {
          return Err(if state.receivedEvents then StreamTimeout else ConnectionTimeout);
        }
        return Err(if state.receivedEvents then Interrupted(item.error) else ConnectionFailed(item.error));
      }
      Absorb(state, item.event);
      match item.event {
        case TaskEvent(task) =>
          return Ok(ByTask(task));
        case MessageEvent(message) =>
          return Ok(ByMessage(message));
        case StatusEvent(_, _, status) =>
          if IsTerminalOrInterrupted(status.state) {
            return Ok(ByStatus);
          }
        case _ =>
      }
    }
    assert items[..|items|] == items;
    return Err(NoTerminalEvent);
  }

  lemma BrokenAddsNothing(d: Digest, item: Item, reportsProgress: bool)
    requires item.Broken?
    ensures Absorbed(d, item, reportsProgress) == d
  {
  }

  method RenderStatus(status: Status) returns (text: string)
    ensures text == StatusText(status)
  {
    text := "";
    if status.message.Some? {
      text := ExtractPartsText(status.message.value.parts);
    }
  }

  lemma DigestOfNothing(before: Digest, reportsProgress: bool)
    ensures DigestOf(before, [], reportsProgress) == before
  {
    assert [before.taskId][..0] == [] && [before.contextId][..0] == [];
    assert [before.taskId] + [] == [before.taskId] && [before.contextId] + [] == [before.contextId];
  }

  /** buildTaskFromState. Without any status the task's state is the zero value, the empty name. */
  method BuildTaskFromState(state: StreamState) returns (task: Task)
    ensures task.id == state.taskId && task.contextId == state.contextId && task.artifacts == state.artifacts
    ensures task.status == if state.lastStatus.Some? then state.lastStatus.value else Status(OtherState(""), None)
  {
    task := Task(state.taskId, state.contextId, Status(OtherState(""), None), state.artifacts);
    if state.lastStatus.Some? {
      task := task.(status := state.lastStatus.value);
    }
  }

  // -------- What the outcome depends on --------

  /** Nothing after the first stopping item matters. */
  lemma {:induction false} StopIndexIgnoresRest(items: seq<Item>, rest: seq<Item>)
    requires StopIndex(items) < |items|
    ensures StopIndex(items + rest) == StopIndex(items) && Relevant(items + rest) == Relevant(items)
  {
    if Stops(items[0]) {
    } else {
      assert (items + rest)[1..] == items[1..] + rest;
      StopIndexIgnoresRest(items[1..], rest);
    }
    assert (items + rest)[..StopIndex(items) + 1] == items[..StopIndex(items) + 1];
  }

  /** Two streams with the same items up to a stopping one end alike and leave the same synthetic task. */
  lemma OutcomeDependsOnPrefix(items: seq<Item>, rest: seq<Item>, started: bool)
    requires StopIndex(items) < |items|
    ensures Ending(items + rest, started) == Ending(items, started)
    ensures Ending(items, false) == Ok(ByStatus) ==>
              Ending(items + rest, false) == Ok(ByStatus) && SyntheticTask(items + rest) == SyntheticTask(items)
  {
    hide FirstNonEmpty, Collect, Relevant;
    StopIndexIgnoresRest(items, rest);
    assert (items + rest)[StopIndex(items)] == items[StopIndex(items)];
  }

  /** A stream fails exactly when no task, message or stopping status comes before its first error. */
  lemma SucceedsIffTerminalComesFirst(items: seq<Item>, started: bool)
    ensures Ending(items, started).Ok? <==>
            exists i :: 0 <= i < |items| && Stops(items[i]) && items[i].Received? &&
              forall j | 0 <= j < i :: !Stops(items[j])
  {
    var k := StopIndex(items);
    if k < |items| && items[k].Received? {
      assert Stops(items[k]) && forall j | 0 <= j < k :: !Stops(items[j]);
    }
  }

  // -------- What a caller may rely on --------

  /** The item answers the message: a task, a message, or a status in which the protocol lets a task rest. */
  predicate Answers(item: Item) {
    && item.Received?
    && (|| item.event.TaskEvent? || item.event.MessageEvent?
        || (item.event.StatusEvent? &&
            item.event.status.state in {Completed, Failed, Canceled, Rejected, InputRequired, AuthRequired}))
  }

  /** The stream is decided at position `k`: the first error or answer. */
  ghost predicate DecidedAt(items: seq<Item>, k: nat) {
    && k < |items| && (items[k].Broken? || Answers(items[k]))
    && forall i | 0 <= i < k :: !items[i].Broken? && !Answers(items[i])
  }

  lemma StopsWhereDecided(items: seq<Item>, k: nat)
    requires DecidedAt(items, k)
    ensures StopIndex(items) == k && Relevant(items) == items[..k] + [items[k]]
  {
    assert forall i | 0 <= i < |items| :: Stops(items[i]) <==> items[i].Broken? || Answers(items[i]);
  }

  /** How a stream ends, read off the deciding item: the error says whether anything came before it, a deadline is told
      from other errors, and a stream without an error or an answer has no end. */
  lemma EndingOfDecided(items: seq<Item>, k: nat)
    requires DecidedAt(items, k)
    ensures Ending(items, false) ==
            match items[k]
            case Broken(error) =>
              Err(if k == 0 then (if error == DeadlineError then ConnectionTimeout else ConnectionFailed(error))
                  else if error == DeadlineError then StreamTimeout
                  else Interrupted(error))
            case Received(event) =>
              Ok(if event.TaskEvent? then ByTask(event.task)
                 else if event.MessageEvent? then ByMessage(event.message)
                 else ByStatus)
  {
    StopsWhereDecided(items, k);
  }

  lemma {:induction false} EndingOfUndecided(items: seq<Item>)
    requires forall i | 0 <= i < |items| :: !items[i].Broken? && !Answers(items[i])
    ensures Ending(items, false) == Err(NoTerminalEvent)
  {
    assert forall i | 0 <= i < |items| :: Stops(items[i]) <==> items[i].Broken? || Answers(items[i]);
  }

  /** The event carries identifiers. */
  predicate NamesTask(item: Item) {
    item.Received? && (item.event.StatusEvent? || item.event.ArtifactEvent?)
  }

  predicate IsArtifact(item: Item) {
    item.Received? && item.event.ArtifactEvent?
  }

  /** A status that reports progress. */
  predicate IsProgress(item: Item) {
    item.Received? && item.event.StatusEvent? && !Answers(item)
  }

  /** What is collected when just the items that satisfy `p` contribute, one element each. */
  lemma {:induction false} CollectSelects<T>(items: seq<Item>, contribution: Item -> seq<T>, p: Item -> bool,
                                             pick: Item -> T)
    requires forall item <- items :: contribution(item) == if p(item) then [pick(item)] else []
    ensures var selected := Filter(items, p);
            && |Collect(items, contribution)| == |selected|
            && forall i | 0 <= i < |selected| :: Collect(items, contribution)[i] == pick(selected[i])
  {
    if items == [] {
    } else {
      var n := |items| - 1;
      CollectSelects(items[..n], contribution, p, pick);
      FilterSnoc(items, n, p);
      assert items[..n + 1] == items && items[n] in items;
    }
  }

  /** The artifacts a stream accumulates are those of its artifact events, in order. */
  lemma ArtifactsAreThoseReceived(items: seq<Item>)
    ensures var events := Filter(items, IsArtifact);
            && |Collect(items, ArtifactIn())| == |events|
            && forall i | 0 <= i < |events| ::
              events[i].Received? && events[i].event.ArtifactEvent? &&
              Collect(items, ArtifactIn())[i] == events[i].event.artifact
  {
    var pick := (item: Item) => if IsArtifact(item) then item.event.artifact else None;
    CollectSelects(items, ArtifactIn(), IsArtifact, pick);
    FilterKeeps(items, IsArtifact);
    assert forall i | 0 <= i < |Filter(items, IsArtifact)| :: Filter(items, IsArtifact)[i] in Filter(items, IsArtifact);
  }

  /** One progress report for each status that does not end the stream, with its state and its text. */
  lemma ProgressIsReported(items: seq<Item>)
    ensures var events := Filter(items, IsProgress);
            && |Collect(items, ProgressIn())| == |events|
            && forall i | 0 <= i < |events| ::
              var (state, text) := Collect(items, ProgressIn())[i];
              && events[i].Received? && events[i].event.StatusEvent? && events[i].event.status.state == state
              && text == match events[i].event.status.message
                         case None => ""
                         case Some(message) => PartsText(message.parts)
  {
    hide PartsText;
    var pick := (item: Item) =>
      if IsProgress(item) then (item.event.status.state, StatusText(item.event.status)) else (Completed, "");
    CollectSelects(items, ProgressIn(), IsProgress, pick);
    FilterKeeps(items, IsProgress);
    assert forall i | 0 <= i < |Filter(items, IsProgress)| :: Filter(items, IsProgress)[i] in Filter(items, IsProgress);
  }

  function ContextIn(item: Item): string {
    if NamesTask(item) then item.event.contextId else ""
  }

  function TaskIn(item: Item): string {
    if NamesTask(item) then item.event.taskId else ""
  }

  /** `id` is what the first of the items that names one names, or empty if none does. */
  ghost predicate IsFirstNamed(items: seq<Item>, names: Item -> string, id: string) {
    if id == "" then forall i | 0 <= i < |items| :: names(items[i]) == ""
    else exists i :: 0 <= i < |items| && names(items[i]) == id && forall j | 0 <= j < i :: names(items[j]) == ""
  }

  lemma FirstNamedExtends(items: seq<Item>, item: Item, names: Item -> string, id: string)
    requires IsFirstNamed(items, names, id)
    ensures IsFirstNamed(items + [item], names, if id != "" then id else names(item))
  {
    var all := items + [item];
    if id != "" {
      var i :| 0 <= i < |items| && names(items[i]) == id && forall j | 0 <= j < i :: names(items[j]) == "";
      assert names(all[i]) == id && forall j | 0 <= j < i :: all[j] == items[j];
    } else {
      assert forall j | 0 <= j < |items| :: all[j] == items[j];
      assert names(all[|items|]) == names(item);
    }
  }

  lemma {:induction false} FirstCollectedIsFirstNamed(items: seq<Item>, contribution: Item -> seq<string>,
                                                      names: Item -> string)
    requires forall item <- items ::
      contribution(item) == [names(item)] || (contribution(item) == [] && names(item) == "")
    ensures IsFirstNamed(items, names, FirstNonEmpty(Collect(items, contribution)))
  {
    hide FirstNonEmpty, IsFirstNamed;
    if items == [] {
      FirstOfNothing();
      NothingNamed(names);
    } else {
      var n := |items| - 1;
      var before := Collect(items[..n], contribution);
      FirstCollectedIsFirstNamed(items[..n], contribution, names);
      FirstNamedExtends(items[..n], items[n], names, FirstNonEmpty(before));
      assert items[..n] + [items[n]] == items && items[n] in items;
      if contribution(items[n]) == [] {
        assert Collect(items, contribution) == before;
      } else {
        FirstNonEmptyExtends(before, names(items[n]));
      }
    }
  }

  lemma NothingNamed(names: Item -> string)
    ensures IsFirstNamed([], names, "")
  {
  }

  lemma FirstOfNothing()
    ensures FirstNonEmpty([]) == ""
  {
  }

  // -------- Sending over a stream --------

  /** The context a finished stream is remembered by: its result's own, else the first one any event named. */
  function StreamContext(items: seq<Item>): string
    requires Ending(items, false).Ok?
  {
    var named := FirstNonEmpty(Collect(Relevant(items), ContextIdIn()));
    match Ending(items, false).value
    case ByTask(task) => if task.contextId != "" then task.contextId else named
    case ByMessage(message) => if message.contextId != "" then message.contextId else named
    case ByStatus => named
  }

  function StreamOutput(items: seq<Item>): Output
    requires Ending(items, false).Ok?
  {
    match Ending(items, false).value
    case ByTask(task) => TaskOutput(task)
    case ByMessage(message) => MessageOutput(message)
    case ByStatus => TaskOutput(SyntheticTask(items))
  }

  lemma FirstNonEmptyOfBlank(ids: seq<string>)
    ensures FirstNonEmpty([""] + ids) == FirstNonEmpty(ids)
  {
    if ids == [] {
      assert [""] + ids == [""] && [""][..0] == [];
    } else {
      FirstNonEmptyOfBlank(ids[..|ids| - 1]);
      assert ([""] + ids)[..|ids|] == [""] + ids[..|ids| - 1];
    }
  }

  /** What a fresh consumer holds at the end of a stream, in terms of the stream. */
  lemma FreshDigest(items: seq<Item>, reportsProgress: bool)
    ensures var d := DigestOf(EMPTY_DIGEST, Relevant(items), reportsProgress);
            && d.contextId == FirstNonEmpty(Collect(Relevant(items), ContextIdIn()))
            && (Ending(items, false) == Ok(ByStatus) ==>
                  d.lastStatus.Some? && Task(d.taskId, d.contextId, d.lastStatus.value, d.artifacts) ==
                  SyntheticTask(items))
  {
    hide FirstNonEmpty, Collect, IsTerminalOrInterrupted;
    FirstNonEmptyOfBlank(Collect(Relevant(items), TaskIdIn()));
    FirstNonEmptyOfBlank(Collect(Relevant(items), ContextIdIn()));
    var k := StopIndex(items);
    if Ending(items, false) == Ok(ByStatus) {
      assert Relevant(items) == items[..k] + [items[k]];
      CollectStep(items[..k], items[k], StatusIn());
    }
  }

  /** What a stream leaves, read off the deciding item: the answer is its very task or message, or else a task made
      of the artifacts and the identifiers of the events before and of its status. The context remembered is that of
      the task or message if it has one, and otherwise the first one that a status or an artifact up to it names. */
  lemma StreamAnswer(items: seq<Item>, k: nat)
    requires DecidedAt(items, k) && items[k].Received?
    ensures Ending(items, false).Ok?
    ensures var event := items[k].event;
            match StreamOutput(items)
            case TaskOutput(task) =>
              if event.TaskEvent? then task == event.task
              else
                && event.StatusEvent? && task.status == event.status
                && IsFirstNamed(items[..k + 1], TaskIn, task.id)
                && IsFirstNamed(items[..k + 1], ContextIn, task.contextId)
                && task.artifacts == Collect(items[..k + 1], ArtifactIn())
            case MessageOutput(message) => event.MessageEvent? && message == event.message
    ensures var event := items[k].event;
            var own := if event.TaskEvent? then event.task.contextId
                       else if event.MessageEvent? then event.message.contextId
                       else "";
            if own != "" then StreamContext(items) == own
            else IsFirstNamed(items[..k + 1], ContextIn, StreamContext(items))
  {
    hide FirstNonEmpty, Collect, IsFirstNamed;
    StopsWhereDecided(items, k);
    EndingOfDecided(items, k);
    assert items[..k] + [items[k]] == items[..k + 1];
    FirstCollectedIsFirstNamed(items[..k + 1], ContextIdIn(), ContextIn);
    FirstCollectedIsFirstNamed(items[..k + 1], TaskIdIn(), TaskIn);
  }

  /** handleStreamingMessage. `err` is its Go error; a failed stream is reported in `failure` instead. */
  method HandleStreamingMessage(items: seq<Item>, reportsProgress: bool, store: ContextStore, resolved: Resolved,
                                agent: string)
    returns (failure: Option<StreamError>, output: Option<Output>, err: Option<AgentError>)
    modifies store
    ensures err == None
    ensures match Ending(items, false)
            case Ok(_) =>
              && failure == None && output == Some(StreamOutput(items))
              && store.contexts == Remembered(old(store.contexts), resolved, agent, StreamContext(items))
              && store.origins == Attributed(old(store.origins), resolved, agent, StreamContext(items))
            case Err(e) =>
              && failure == Some(e) && output == None
              && store.contexts == old(store.contexts) && store.origins == old(store.origins)
  {
    hide DigestOf, SyntheticTask, FirstNonEmpty;
    var state := new StreamState(reportsProgress);
    var r := ConsumeStream(items, state);
    if r.Err? {
      return Some(r.error), None, None;
    }
    FreshDigest(items, reportsProgress);
    var contextId := "";
    match r.value {
      case ByTask(task) =>
        contextId := task.contextId;
        output := Some(TaskOutput(task));
      case ByMessage(message) =>
        contextId := message.contextId;
        output := Some(MessageOutput(message));
      case ByStatus =>
        var task := BuildTaskFromState(state);
        contextId := task.contextId;
        output := Some(TaskOutput(task));
    }
    if contextId == "" {
      contextId := state.contextId;
    }
    if resolved.isAlias && contextId != "" {
      store.Set(agent, contextId, resolved.url);
    }
    return None, output, None;
  }
}
