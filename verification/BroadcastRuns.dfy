/** The goroutines of a broadcast in every interleaving (internal/tool/tool_broadcast.go). */
module BroadcastRuns {
  import opened Prelude
  import opened Sequences
  import opened A2A
  import ClientCache
  import Health
  import History
  import opened Streaming
  import opened Gateway
  import opened Broadcast

  // -------- One goroutine, step by step --------

  /** What a broadcast changes about one alias. */
  datatype Cell = Cell(health: Option<Health.HealthState>, history: seq<Record>, outcome: Option<AgentOutcome>)

  /** Where a goroutine stands; each step is one access to shared state. Resolving a client takes effect in one of the
      critical sections of the cache, so it is one step. */
  datatype Pc =
    | AtLookup | AtHealth | AtLimit | AtResolve | AtSend | AtEvict | AtRenew
    | AtMark(outcome: AgentOutcome, mark: Option<Health.Mark>)
    | AtRecord(outcome: AgentOutcome)
    | AtStore(outcome: AgentOutcome)
    | Returned

  /** A goroutine with what it shares: the cell of its alias, and whether a client for its URL is cached. */
  datatype Local = Local(pc: Pc, cell: Cell, cached: bool)

  datatype Limits = Limits(threshold: int, depth: History.Depth)

  const NOT_REGISTERED := AgentOutcome(Unusable(NotRegistered), None)

  function Seen(health: Option<Health.HealthState>): Health.HealthState {
    if health.Some? then health.value else Health.UNTRACKED
  }

  function Applied(health: Option<Health.HealthState>, mark: Option<Health.Mark>, threshold: int)
    : Option<Health.HealthState>
  {
    if mark.None? then health else Health.Marked(health, mark.value, threshold)
  }

  function Pushed(history: seq<Record>, record: Record, depth: History.Depth): seq<Record> {
    History.DropOldest(history, depth) + [record]
  }

  function LocalStep(o: Oracle, limits: Limits, l: Local): Local {
    match l.pc
    case AtLookup => l.(pc := if o.url.Some? then AtHealth else AtRecord(NOT_REGISTERED))
    case AtHealth =>
      var skips := limits.threshold > 0 && Seen(l.cell.health).status == Health.Unhealthy;
      l.(pc := if skips then AtRecord(AgentOutcome(Skipped, None)) else AtLimit)
    case AtLimit => l.(pc := if o.allowed then AtResolve else AtRecord(AgentOutcome(Unusable(RateLimited), None)))
    case AtResolve =>
      if l.cached || o.creates.0 then l.(pc := AtSend, cached := true)
      else l.(pc := AtRecord(AgentOutcome(Unusable(NoClient(o.refusal)), None)))
    case AtSend =>
      if !o.partsOk then l.(pc := AtRecord(AgentOutcome(Unusable(BadParts), None)))
      else if FirstOutcome(o.exchange) == ClientCache.FnAuthError then l.(pc := AtEvict)
      else l.(pc := AtMark(Exchanged(o.exchange, false).0, Exchanged(o.exchange, false).1))
    case AtEvict => l.(pc := AtRenew, cached := false)
    case AtRenew =>
      var renews := l.cached || o.creates.1;
      l.(pc := AtMark(Exchanged(o.exchange, renews).0, Exchanged(o.exchange, renews).1), cached := renews)
    case AtMark(outcome, mark) =>
      l.(pc := AtRecord(outcome), cell := l.cell.(health := Applied(l.cell.health, mark, limits.threshold)))
    case AtRecord(outcome) =>
      l.(pc := AtStore(outcome),
         cell := l.cell.(history := Pushed(l.cell.history, RecordOfOutcome(outcome), limits.depth)))
    case AtStore(outcome) => l.(pc := Returned, cell := l.cell.(outcome := Some(outcome)))
    case Returned => l
  }

  function LocalSteps(o: Oracle, limits: Limits, l: Local, n: nat): Local {
    if n == 0 then l else LocalStep(o, limits, LocalSteps(o, limits, l, n - 1))
  }

  /** Whether a client for the URL is cached after an attempt. */
  function CachedAfter(o: Oracle, health: Health.HealthState, cached: bool, threshold: int): bool {
    if o.url.None? || (threshold > 0 && health.status == Health.Unhealthy) || !o.allowed then cached
    else if !cached && !o.creates.0 then false
    else if o.partsOk && FirstOutcome(o.exchange) == ClientCache.FnAuthError then o.creates.1
    else true
  }

  /** A goroutine that has run undisturbed. */
  function Finished(o: Oracle, limits: Limits, cell: Cell, cached: bool): Local {
    var (outcome, mark) := Attempted(o, Seen(cell.health), cached, limits.threshold);
    Local(Returned,
          Cell(Applied(cell.health, mark, limits.threshold),
               Pushed(cell.history, RecordOfOutcome(outcome), limits.depth),
               Some(outcome)),
          CachedAfter(o, Seen(cell.health), cached, limits.threshold))
  }

  /** The retry flag matters only after an authentication error. */
  lemma RenewalMattersAfterAuthFailure(exchange: Exchange, renews: bool)
    requires FirstOutcome(exchange) != ClientCache.FnAuthError
    ensures Exchanged(exchange, renews) == Exchanged(exchange, false)
  {
    hide Ending, OfReply, OfStream;
  }

  /** How many turns a goroutine needs at most from where it stands. */
  function Remaining(pc: Pc): nat {
    match pc
    case AtLookup => 10
    case AtHealth => 9
    case AtLimit => 8
    case AtResolve => 7
    case AtSend => 6
    case AtEvict => 5
    case AtRenew => 4
    case AtMark(_, _) => 3
    case AtRecord(_) => 2
    case AtStore(_) => 1
    case Returned => 0
  }

  lemma StepComesCloser(o: Oracle, limits: Limits, l: Local)
    ensures l.pc.Returned? || Remaining(LocalStep(o, limits, l).pc) < Remaining(l.pc)
  {
    hide Exchanged, FirstOutcome, Applied, Pushed;
  }

  function ToTheEnd(o: Oracle, limits: Limits, l: Local): Local
    decreases Remaining(l.pc)
  {
    if l.pc.Returned? then l
    else
      StepComesCloser(o, limits, l);
      ToTheEnd(o, limits, LocalStep(o, limits, l))
  }

  lemma {:induction false} StepsLeadToTheEnd(o: Oracle, limits: Limits, l: Local, n: nat)
    ensures var l' := LocalSteps(o, limits, l, n);
            && ToTheEnd(o, limits, l') == ToTheEnd(o, limits, l)
            && Remaining(l'.pc) <= if n <= Remaining(l.pc) then Remaining(l.pc) - n else 0
  {
    hide Exchanged, FirstOutcome, Applied, Pushed;
    if n == 0 {
    } else {
      StepsLeadToTheEnd(o, limits, l, n - 1);
      StepComesCloser(o, limits, LocalSteps(o, limits, l, n - 1));
    }
  }

  lemma EndFromRecord(o: Oracle, limits: Limits, outcome: AgentOutcome, cell: Cell, cached: bool)
    ensures var history := Pushed(cell.history, RecordOfOutcome(outcome), limits.depth);
            ToTheEnd(o, limits, Local(AtRecord(outcome), cell, cached))
              == Local(Returned, cell.(history := history, outcome := Some(outcome)), cached)
  {
    hide Pushed, RecordOfOutcome;
    var stored := LocalStep(o, limits, Local(AtRecord(outcome), cell, cached));
    assert ToTheEnd(o, limits, stored) == LocalStep(o, limits, stored);
  }

  lemma EndFromSend(o: Oracle, limits: Limits, cell: Cell)
    ensures var (outcome, mark) :=
              if o.partsOk then Exchanged(o.exchange, o.creates.1) else (AgentOutcome(Unusable(BadParts), None), None);
            var cached := !(o.partsOk && FirstOutcome(o.exchange) == ClientCache.FnAuthError && !o.creates.1);
            var marked := cell.(health := Applied(cell.health, mark, limits.threshold));
            ToTheEnd(o, limits, Local(AtSend, cell, true)) ==
            ToTheEnd(o, limits, Local(AtRecord(outcome), marked, cached))
  {
    hide Exchanged, FirstOutcome, Health.Marked;
    var l := Local(AtSend, cell, true);
    var next := LocalStep(o, limits, l);
    if o.partsOk {
      if FirstOutcome(o.exchange) != ClientCache.FnAuthError {
        RenewalMattersAfterAuthFailure(o.exchange, o.creates.1);
      } else {
        var evicted := LocalStep(o, limits, next);
        assert ToTheEnd(o, limits, next) == ToTheEnd(o, limits, evicted);
        assert ToTheEnd(o, limits, evicted) == ToTheEnd(o, limits, LocalStep(o, limits, evicted));
      }
    }
  }

  lemma EndFromLookup(o: Oracle, limits: Limits, cell: Cell, cached: bool)
    ensures ToTheEnd(o, limits, Local(AtLookup, cell, cached)) == Finished(o, limits, cell, cached)
  {
    hide Exchanged, FirstOutcome, Health.Marked, Pushed, RecordOfOutcome;
    var health := Local(AtHealth, cell, cached);
    var attempt := Attempted(o, Seen(cell.health), cached, limits.threshold);
    var marked := cell.(health := Applied(cell.health, attempt.1, limits.threshold));
    EndFromRecord(o, limits, attempt.0, marked, CachedAfter(o, Seen(cell.health), cached, limits.threshold));
    EndFromSend(o, limits, cell);
    if o.url.Some? {
      assert ToTheEnd(o, limits, Local(AtLookup, cell, cached)) == ToTheEnd(o, limits, health);
      EndFromHealth(o, limits, cell, cached);
    }
  }

  lemma EndFromHealth(o: Oracle, limits: Limits, cell: Cell, cached: bool)
    requires o.url.Some?
    ensures var (outcome, mark) := Attempted(o, Seen(cell.health), cached, limits.threshold);
            var marked := cell.(health := Applied(cell.health, mark, limits.threshold));
            var cached' := CachedAfter(o, Seen(cell.health), cached, limits.threshold);
            ToTheEnd(o, limits, Local(AtHealth, cell, cached)) ==
            ToTheEnd(o, limits, Local(AtRecord(outcome), marked, cached'))
  {
    hide Exchanged, FirstOutcome, Health.Marked, Pushed, RecordOfOutcome;
    var l := Local(AtHealth, cell, cached);
    var limited := LocalStep(o, limits, l);
    if limited.pc == AtLimit {
      assert ToTheEnd(o, limits, l) == ToTheEnd(o, limits, limited);
      var resolving := LocalStep(o, limits, limited);
      assert ToTheEnd(o, limits, limited) == ToTheEnd(o, limits, resolving);
      if resolving.pc == AtResolve {
        assert ToTheEnd(o, limits, resolving) == ToTheEnd(o, limits, LocalStep(o, limits, resolving));
        EndFromSend(o, limits, cell);
      }
    }
  }

  /** Ten turns always suffice, and their result is that of the attempt as a whole. */
  lemma TenTurns(o: Oracle, limits: Limits, cell: Cell, cached: bool)
    ensures LocalSteps(o, limits, Local(AtLookup, cell, cached), 10) == Finished(o, limits, cell, cached)
  {
    hide LocalSteps, LocalStep;
    StepsLeadToTheEnd(o, limits, Local(AtLookup, cell, cached), 10);
    EndFromLookup(o, limits, cell, cached);
  }

  /** Whenever it returns, it has done just that. */
  lemma ReturnedMeansFinished(o: Oracle, limits: Limits, cell: Cell, cached: bool, n: nat)
    requires LocalSteps(o, limits, Local(AtLookup, cell, cached), n).pc == Returned
    ensures LocalSteps(o, limits, Local(AtLookup, cell, cached), n) == Finished(o, limits, cell, cached)
  {
    hide LocalSteps, LocalStep;
    StepsLeadToTheEnd(o, limits, Local(AtLookup, cell, cached), n);
    EndFromLookup(o, limits, cell, cached);
  }

  // -------- All goroutines --------

  /** The broadcast to `aliases[i]` meets `oracles[i]`; the same alias may occur more than once. */
  datatype Job = Job(aliases: seq<string>, oracles: seq<Oracle>, limits: Limits) {
    ghost predicate Valid() {
      |aliases| == |oracles|
    }

    /** The registry does not change meanwhile, and all goroutines send the same message. */
    ghost predicate Coherent() {
      Valid() && forall i, j | 0 <= i < |aliases| && 0 <= j < |aliases| ::
        (aliases[i] == aliases[j] ==> oracles[i].url == oracles[j].url) && oracles[i].partsOk == oracles[j].partsOk
    }

    function Urls(): seq<Option<string>> {
      seq(|oracles|, i requires 0 <= i < |oracles| => oracles[i].url)
    }
  }

  /** No two goroutines reach the same URL. */
  ghost predicate Apart(urls: seq<Option<string>>) {
    forall i, j | 0 <= i < j < |urls| && urls[i].Some? :: urls[i] != urls[j]
  }

  /** `cached` are the URLs for which the client cache holds a client. */
  datatype Shared = Shared(pcs: seq<Pc>, cells: map<string, Cell>, cached: set<string>)

  ghost predicate Fits(job: Job, s: Shared) {
    job.Valid() && |s.pcs| == |job.aliases| && forall i | 0 <= i < |job.aliases| :: job.aliases[i] in s.cells
  }

  function LocalOf(job: Job, s: Shared, i: nat): Local
    requires Fits(job, s) && i < |job.aliases|
  {
    Local(s.pcs[i], s.cells[job.aliases[i]], IsCached(s.cached, job.oracles[i].url))
  }

  function WithCached(cached: set<string>, url: Option<string>, there: bool): set<string> {
    if url.None? then cached else if there then cached + {url.value} else cached - {url.value}
  }

  function WithLocal(job: Job, s: Shared, i: nat, l: Local): (s': Shared)
    requires Fits(job, s) && i < |job.aliases|
    ensures Fits(job, s')
  {
    Shared(s.pcs[i := l.pc], s.cells[job.aliases[i] := l.cell], WithCached(s.cached, job.oracles[i].url, l.cached))
  }

  function Step(job: Job, s: Shared, i: nat): (s': Shared)
    requires Fits(job, s)
    ensures Fits(job, s')
  {
    if i >= |job.aliases| then s
    else WithLocal(job, s, i, LocalStep(job.oracles[i], job.limits, LocalOf(job, s, i)))
  }

  function Run(job: Job, s: Shared, schedule: seq<nat>): (s': Shared)
    requires Fits(job, s)
    ensures Fits(job, s')
  {
    if schedule == [] then s else Step(job, Run(job, s, schedule[..|schedule| - 1]), schedule[|schedule| - 1])
  }

  function Begin(job: Job, cells: map<string, Cell>, cached: set<string>): Shared {
    Shared(seq(|job.aliases|, _ => AtLookup), cells, cached)
  }

  function Turns(schedule: seq<nat>, i: nat): nat {
    if schedule == [] then 0
    else Turns(schedule[..|schedule| - 1], i) + if schedule[|schedule| - 1] == i then 1 else 0
  }

  ghost predicate Complete(s: Shared) {
    forall i | 0 <= i < |s.pcs| :: s.pcs[i] == Returned
  }

  // -------- Registered agents apart from each other --------

  /** Another goroutine's turn changes nothing that a goroutine with a URL of its own can see. */
  lemma OthersAreInvisible(job: Job, s: Shared, i: nat, j: nat)
    requires Fits(job, s) && job.Coherent() && Apart(job.Urls()) && i < |job.aliases| && i != j
    requires job.oracles[i].url.Some?
    ensures LocalOf(job, Step(job, s, j), i) == LocalOf(job, s, i)
  {
    hide LocalStep;
    if j < |job.aliases| {
      assert job.Urls()[i] != job.Urls()[j];
    }
  }

  /** So it is where its own turns have brought it. */
  lemma {:induction false} OnlyOwnTurnsMatter(job: Job, start: Shared, schedule: seq<nat>, i: nat)
    requires Fits(job, start) && job.Coherent() && Apart(job.Urls()) && i < |job.aliases|
    requires job.oracles[i].url.Some?
    ensures LocalOf(job, Run(job, start, schedule), i)
              == LocalSteps(job.oracles[i], job.limits, LocalOf(job, start, i), Turns(schedule, i))
  {
    hide LocalStep;
    if schedule == [] {
    } else {
      var before, j := schedule[..|schedule| - 1], schedule[|schedule| - 1];
      OnlyOwnTurnsMatter(job, start, before, i);
      if j != i {
        OthersAreInvisible(job, Run(job, start, before), i, j);
      }
    }
  }

  /** What no goroutine is about stays as it was. */
  lemma {:induction false} TheRestStays(job: Job, start: Shared, schedule: seq<nat>)
    requires Fits(job, start)
    ensures var s := Run(job, start, schedule);
            && s.cells.Keys == start.cells.Keys
            && (forall a | a in start.cells && a !in job.aliases :: s.cells[a] == start.cells[a])
            && (forall u | Some(u) !in job.Urls() :: u in s.cached <==> u in start.cached)
  {
    hide LocalStep;
    if schedule == [] {
    } else {
      var before, j := schedule[..|schedule| - 1], schedule[|schedule| - 1];
      TheRestStays(job, start, before);
      if j < |job.aliases| {
        assert job.Urls()[j] == job.oracles[j].url;
      }
    }
  }

  // -------- Histories --------

  /** A history after more records, one at a time. */
  function PushAll(history: seq<Record>, records: seq<Record>, depth: History.Depth): seq<Record> {
    if records == [] then history
    else Pushed(PushAll(history, records[..|records| - 1], depth), records[|records| - 1], depth)
  }

  lemma {:induction false} PushAllKeepsLatest(history: seq<Record>, records: seq<Record>, depth: History.Depth)
    requires |history| <= depth
    ensures PushAll(history, records, depth) == LastN(history + records, depth)
  {
    hide LastN, History.DropOldest;
    if records == [] {
      assert history + records == history && LastN(history, depth) == history by { ShortIsWhole(history, depth); }
    } else {
      var before, record := records[..|records| - 1], records[|records| - 1];
      PushAllKeepsLatest(history, before, depth);
      History.DropOldestKeepsLatest(history + before, record, depth);
      assert history + before + [record] == history + records;
    }
  }

  lemma ShortIsWhole(history: seq<Record>, depth: History.Depth)
    requires |history| <= depth
    ensures LastN(history, depth) == history
  {
  }

  /** The records made for an alias, in the order in which its goroutines come to make them. */
  function RecordsMade(job: Job, start: Shared, schedule: seq<nat>, alias: string): seq<Record>
    requires Fits(job, start)
  {
    if schedule == [] then []
    else
      var before, i := schedule[..|schedule| - 1], schedule[|schedule| - 1];
      var made := RecordsMade(job, start, before, alias);
      if i < |job.aliases| && job.aliases[i] == alias then made + Recording(Run(job, start, before).pcs[i]) else made
  }

  function Recording(pc: Pc): seq<Record> {
    if pc.AtRecord? then [RecordOfOutcome(pc.outcome)] else []
  }

  predicate HasRecorded(pc: Pc) {
    pc.AtStore? || pc.Returned?
  }

  /** How many of the first `n` goroutines are the alias's and have made their record. */
  function RecordCount(aliases: seq<string>, pcs: seq<Pc>, alias: string, n: nat): nat
    requires n <= |aliases| == |pcs|
  {
    if n == 0 then 0
    else RecordCount(aliases, pcs, alias, n - 1) + if aliases[n - 1] == alias && HasRecorded(pcs[n - 1]) then 1 else 0
  }

  lemma {:induction false} RecordCountUpdate(aliases: seq<string>, pcs: seq<Pc>, alias: string, n: nat, i: nat, pc: Pc)
    requires n <= |aliases| == |pcs| && i < |pcs|
    ensures RecordCount(aliases, pcs[i := pc], alias, n) - RecordCount(aliases, pcs, alias, n) ==
            if i < n && aliases[i] == alias
            then (if HasRecorded(pc) then 1 else 0) - (if HasRecorded(pcs[i]) then 1 else 0)
            else 0
  {
    hide HasRecorded;
    if n == 0 {
    } else {
      RecordCountUpdate(aliases, pcs, alias, n - 1, i, pc);
    }
  }

  /** Nothing is counted at the start, and every occurrence of the alias at the end. */
  lemma {:induction false} RecordCountExtremes(aliases: seq<string>, pcs: seq<Pc>, alias: string, n: nat)
    requires n <= |aliases| == |pcs|
    ensures (forall pc <- pcs :: !HasRecorded(pc)) ==> RecordCount(aliases, pcs, alias, n) == 0
    ensures (forall pc <- pcs :: HasRecorded(pc)) ==>
              RecordCount(aliases, pcs, alias, n) == multiset(aliases[..n])[alias]
  {
    hide HasRecorded;
    if n == 0 {
    } else {
      RecordCountExtremes(aliases, pcs, alias, n - 1);
      assert aliases[..n] == aliases[..n - 1] + [aliases[n - 1]];
      assert pcs[n - 1] in pcs;
    }
  }

  lemma LocalStepRecordsOnce(o: Oracle, limits: Limits, l: Local)
    ensures var l' := LocalStep(o, limits, l);
            && l'.cell.history == PushAll(l.cell.history, Recording(l.pc), limits.depth)
            && |Recording(l.pc)| == (if HasRecorded(l'.pc) then 1 else 0) - (if HasRecorded(l.pc) then 1 else 0)
  {
    hide Exchanged, Applied, Pushed;
    if l.pc.AtRecord? {
      var record := RecordOfOutcome(l.pc.outcome);
      assert [record][..0] == [] && PushAll(l.cell.history, [], limits.depth) == l.cell.history;
    }
  }

  lemma PushAllConcat(history: seq<Record>, x: seq<Record>, y: seq<Record>, depth: History.Depth)
    requires |y| <= 1
    ensures PushAll(history, x + y, depth) == PushAll(PushAll(history, x, depth), y, depth)
  {
    hide Pushed;
    if y == [] {
      assert x + y == x;
    } else {
      assert (x + y)[..|x|] == x && y[..0] == [];
    }
  }

  /** At any moment an alias's history has taken the records made for it, one for each goroutine that has come that
      far. */
  lemma {:induction false} HistoryTakesRecords(job: Job, start: Shared, schedule: seq<nat>, alias: string)
    requires Fits(job, start) && alias in start.cells && forall pc <- start.pcs :: pc == AtLookup
    ensures var s := Run(job, start, schedule);
            var made := RecordsMade(job, start, schedule, alias);
            && alias in s.cells && s.cells[alias].history == PushAll(start.cells[alias].history, made, job.limits.depth)
            && |made| == RecordCount(job.aliases, s.pcs, alias, |job.aliases|)
  {
    hide LocalStep, HasRecorded, RecordCount, PushAll, Recording;
    if schedule == [] {
      NothingRecorded(job, start, alias);
    } else {
      var before, i := schedule[..|schedule| - 1], schedule[|schedule| - 1];
      HistoryTakesRecords(job, start, before, alias);
      if i < |job.aliases| {
        var s := Run(job, start, before);
        var l := LocalOf(job, s, i);
        LocalStepRecordsOnce(job.oracles[i], job.limits, l);
        RecordCountUpdate(job.aliases, s.pcs, alias, |job.aliases|, i, LocalStep(job.oracles[i], job.limits, l).pc);
        RecordingIsOne(l.pc);
        PushAllConcat(start.cells[alias].history, RecordsMade(job, start, before, alias), Recording(l.pc),
          job.limits.depth);
      }
    }
  }

  lemma RecordingIsOne(pc: Pc)
    ensures |Recording(pc)| <= 1
  {
  }

  lemma NothingRecorded(job: Job, start: Shared, alias: string)
    requires Fits(job, start) && forall pc <- start.pcs :: pc == AtLookup
    ensures RecordCount(job.aliases, start.pcs, alias, |job.aliases|) == 0
    ensures alias in start.cells ==>
              PushAll(start.cells[alias].history, [], job.limits.depth) == start.cells[alias].history
  {
    RecordCountExtremes(job.aliases, start.pcs, alias, |job.aliases|);
  }

  /** Even for an alias that is named more than once: in every complete schedule its goroutines make one record for each
      occurrence, and its history ends with the latest `depth` of what it held and these. */
  lemma EveryGoroutineIsRecorded(job: Job, cells: map<string, Cell>, cached: set<string>, schedule: seq<nat>,
                                 alias: string)
    requires Fits(job, Begin(job, cells, cached)) && Complete(Run(job, Begin(job, cells, cached), schedule))
    requires alias in cells && |cells[alias].history| <= job.limits.depth
    ensures var s := Run(job, Begin(job, cells, cached), schedule);
            var made := RecordsMade(job, Begin(job, cells, cached), schedule, alias);
            && alias in s.cells && s.cells[alias].history == LastN(cells[alias].history + made, job.limits.depth)
            && |made| == multiset(job.aliases)[alias]
  {
    hide Run, RecordCount, RecordsMade, PushAll;
    var start := Begin(job, cells, cached);
    HistoryTakesRecords(job, start, schedule, alias);
    RecordCountExtremes(job.aliases, Run(job, start, schedule).pcs, alias, |job.aliases|);
    assert job.aliases[..|job.aliases|] == job.aliases;
    PushAllKeepsLatest(cells[alias].history, RecordsMade(job, start, schedule, alias), job.limits.depth);
  }

  // -------- Aliases that are not registered --------

  /** Where a goroutine can stand whose alias is not registered. */
  predicate IsTurnedAway(pc: Pc) {
    pc == AtLookup || pc == AtRecord(NOT_REGISTERED) || pc == AtStore(NOT_REGISTERED) || pc == Returned
  }

  ghost predicate IsUnregistered(job: Job, alias: string) {
    job.Valid() && forall i | 0 <= i < |job.aliases| && job.aliases[i] == alias :: job.oracles[i].url.None?
  }

  /** What the goroutines of such an alias have done so far: nothing to its health, and one and the same record each. */
  ghost predicate OnlyTurnedAway(job: Job, start: Shared, s: Shared, made: seq<Record>, alias: string)
    requires Fits(job, start) && Fits(job, s)
  {
    && (forall i | 0 <= i < |job.aliases| && job.aliases[i] == alias :: IsTurnedAway(s.pcs[i]))
    && (forall i | 0 <= i < |job.aliases| && job.aliases[i] == alias && s.pcs[i] == Returned ::
          s.cells[alias].outcome == Some(NOT_REGISTERED))
    && (alias in job.aliases ==> s.cells[alias].health == start.cells[alias].health)
    && (forall record <- made :: record == RecordOfOutcome(NOT_REGISTERED))
  }

  lemma TurnedAwayStep(job: Job, start: Shared, s: Shared, made: seq<Record>, i: nat, alias: string)
    requires Fits(job, start) && Fits(job, s) && IsUnregistered(job, alias)
    requires OnlyTurnedAway(job, start, s, made, alias)
    ensures var made' := if i < |job.aliases| && job.aliases[i] == alias then made + Recording(s.pcs[i]) else made;
            OnlyTurnedAway(job, start, Step(job, s, i), made', alias)
  {
    hide Exchanged, FirstOutcome, Applied, Pushed, RecordOfOutcome;
    if i < |job.aliases| && job.aliases[i] == alias {
      assert IsTurnedAway(s.pcs[i]) && job.oracles[i].url.None?;
      var l := LocalStep(job.oracles[i], job.limits, LocalOf(job, s, i));
      assert IsTurnedAway(l.pc) && l.cell.health == s.cells[alias].health;
      assert s.pcs[i] == Returned ==> l == LocalOf(job, s, i);
    }
  }

  lemma {:induction false} UnregisteredIsTurnedAway(job: Job, start: Shared, schedule: seq<nat>, alias: string)
    requires Fits(job, start) && IsUnregistered(job, alias) && forall pc <- start.pcs :: pc == AtLookup
    ensures OnlyTurnedAway(job, start, Run(job, start, schedule), RecordsMade(job, start, schedule, alias), alias)
  {
    hide Step, IsUnregistered, Recording;
    if schedule == [] {
      assert forall i | 0 <= i < |start.pcs| :: start.pcs[i] in start.pcs;
    } else {
      hide OnlyTurnedAway;
      var before := schedule[..|schedule| - 1];
      UnregisteredIsTurnedAway(job, start, before, alias);
      TurnedAwayStep(job, start, Run(job, start, before), RecordsMade(job, start, before, alias),
        schedule[|schedule| - 1], alias);
    }
  }

  // -------- Confluence --------

  function Repeat(record: Record, n: nat): seq<Record> {
    seq(n, _ => record)
  }

  /** The cell an alias that is not registered ends with. */
  function TurnedAwayCell(job: Job, cell: Cell, alias: string): Cell {
    var records := Repeat(RecordOfOutcome(NOT_REGISTERED), multiset(job.aliases)[alias]);
    Cell(cell.health, PushAll(cell.history, records, job.limits.depth), Some(NOT_REGISTERED))
  }

  lemma UnregisteredEndsSo(job: Job, cells: map<string, Cell>, cached: set<string>, schedule: seq<nat>, i: nat)
    requires Fits(job, Begin(job, cells, cached)) && job.Coherent()
    requires i < |job.aliases| && job.oracles[i].url.None?
    requires Complete(Run(job, Begin(job, cells, cached), schedule))
    ensures Run(job, Begin(job, cells, cached), schedule).cells[job.aliases[i]]
              == TurnedAwayCell(job, cells[job.aliases[i]], job.aliases[i])
  {
    hide Run, RecordsMade, RecordCount, PushAll, RecordOfOutcome;
    var start, alias := Begin(job, cells, cached), job.aliases[i];
    var made := RecordsMade(job, start, schedule, alias);
    UnregisteredIsTurnedAway(job, start, schedule, alias);
    HistoryTakesRecords(job, start, schedule, alias);
    RecordCountExtremes(job.aliases, Run(job, start, schedule).pcs, alias, |job.aliases|);
    assert job.aliases[..|job.aliases|] == job.aliases;
    assert forall k | 0 <= k < |made| :: made[k] in made;
    assert made == Repeat(RecordOfOutcome(NOT_REGISTERED), multiset(job.aliases)[alias]);
  }

  /** For goroutines that reach pairwise different URLs, every complete schedule over one client cache ends in one
      and the same state: each registered alias has the outcome, health and history of its own attempt, and its URL
      is cached as that attempt leaves it; each occurrence of an unregistered one has made its record; and nothing
      else changed. */
  lemma BroadcastIsConfluent(job: Job, cells: map<string, Cell>, cached: set<string>, schedule: seq<nat>)
    requires Fits(job, Begin(job, cells, cached)) && job.Coherent() && Apart(job.Urls())
    requires Complete(Run(job, Begin(job, cells, cached), schedule))
    ensures var s := Run(job, Begin(job, cells, cached), schedule);
            && s.cells.Keys == cells.Keys
            && (forall a | a in cells && a !in job.aliases :: s.cells[a] == cells[a])
            && (forall u | Some(u) !in job.Urls() :: u in s.cached <==> u in cached)
            && forall i | 0 <= i < |job.aliases| ::
              var o, alias := job.oracles[i], job.aliases[i];
              if o.url.None? then s.cells[alias] == TurnedAwayCell(job, cells[alias], alias)
              else LocalOf(job, s, i) == Finished(o, job.limits, cells[alias], o.url.value in cached)
  {
    hide Finished, TurnedAwayCell, Run, LocalSteps;
    var start := Begin(job, cells, cached);
    var s := Run(job, start, schedule);
    TheRestStays(job, start, schedule);
    forall i | 0 <= i < |job.aliases|
      ensures var o, alias := job.oracles[i], job.aliases[i];
              if o.url.None? then s.cells[alias] == TurnedAwayCell(job, cells[alias], alias)
              else LocalOf(job, s, i) == Finished(o, job.limits, cells[alias], o.url.value in cached)
    {
      if job.oracles[i].url.None? {
        UnregisteredEndsSo(job, cells, cached, schedule, i);
      } else {
        OnlyOwnTurnsMatter(job, start, schedule, i);
        assert LocalOf(job, s, i).pc == Returned;
        ReturnedMeansFinished(job.oracles[i], job.limits, cells[job.aliases[i]], job.oracles[i].url.value in cached,
          Turns(schedule, i));
      }
    }
  }

  lemma SchedulesAgree(job: Job, cells: map<string, Cell>, cached: set<string>, x: seq<nat>, y: seq<nat>)
    requires Fits(job, Begin(job, cells, cached)) && job.Coherent() && Apart(job.Urls())
    requires Complete(Run(job, Begin(job, cells, cached), x)) && Complete(Run(job, Begin(job, cells, cached), y))
    ensures Run(job, Begin(job, cells, cached), x) == Run(job, Begin(job, cells, cached), y)
  {
    hide Finished, TurnedAwayCell, Run, Apart;
    var s, s' := Run(job, Begin(job, cells, cached), x), Run(job, Begin(job, cells, cached), y);
    BroadcastIsConfluent(job, cells, cached, x);
    BroadcastIsConfluent(job, cells, cached, y);
    assert s.pcs == s'.pcs;
    forall a | a in cells ensures s.cells[a] == s'.cells[a] {
      if a in job.aliases {
        var i :| 0 <= i < |job.aliases| && job.aliases[i] == a;
        assert LocalOf(job, s, i).cell == s.cells[a] && LocalOf(job, s', i).cell == s'.cells[a];
      }
    }
    forall u ensures u in s.cached <==> u in s'.cached {
      if Some(u) in job.Urls() {
        var i :| 0 <= i < |job.Urls()| && job.Urls()[i] == Some(u);
        assert LocalOf(job, s, i).cached == LocalOf(job, s', i).cached;
      }
    }
  }

  /** buildResponse: the answers of the agents that have one. */
  function Response(aliases: seq<string>, cells: map<string, Cell>): map<string, Output> {
    map a | a in aliases && a in cells && cells[a].outcome.Some? && cells[a].outcome.value.response.Some? ::
      cells[a].outcome.value.response.value
  }

  /** The response holds exactly the aliases whose own attempt has an answer, with that answer. */
  lemma ResponseOfBroadcast(job: Job, cells: map<string, Cell>, cached: set<string>, schedule: seq<nat>, i: nat)
    requires Fits(job, Begin(job, cells, cached)) && job.Coherent() && Apart(job.Urls()) && i < |job.aliases|
    requires Complete(Run(job, Begin(job, cells, cached), schedule))
    ensures var o, alias := job.oracles[i], job.aliases[i];
            var response := Response(job.aliases, Run(job, Begin(job, cells, cached), schedule).cells);
            var attempt := Attempted(o, Seen(cells[alias].health), IsCached(cached, o.url), job.limits.threshold);
            var answer := attempt.0.response;
            && response.Keys <= (set a | a in job.aliases)
            && (alias in response <==> answer.Some?)
            && (answer.Some? ==> response[alias] == answer.value)
  {
    hide Run, Exchanged, PushAll, Pushed, CachedAfter, Applied;
    BroadcastIsConfluent(job, cells, cached, schedule);
    var s := Run(job, Begin(job, cells, cached), schedule);
    assert LocalOf(job, s, i).cell == s.cells[job.aliases[i]];
  }

  /** The agent is asked at all. */
  predicate IsAsked(o: Oracle, cell: Cell, cached: set<string>, threshold: int) {
    && o.url.Some? && !(threshold > 0 && Seen(cell.health).status == Health.Unhealthy)
    && o.allowed && (o.url.value in cached || o.creates.0) && o.partsOk
  }

  /** So over a complete schedule the caller sees a directly asked agent exactly if its deciding reply is a message or a
      task that is completed or asks for something, and then sees that very message or task. */
  lemma ResponseShowsReplies(job: Job, cells: map<string, Cell>, cached: set<string>, schedule: seq<nat>, i: nat)
    requires Fits(job, Begin(job, cells, cached)) && job.Coherent() && Apart(job.Urls()) && i < |job.aliases|
    requires Complete(Run(job, Begin(job, cells, cached), schedule)) && job.oracles[i].exchange.Direct?
    ensures var o, alias := job.oracles[i], job.aliases[i];
            var response := Response(job.aliases, Run(job, Begin(job, cells, cached), schedule).cells);
            var retried := o.exchange.first == SendFailed(AuthError) && o.creates.1;
            var reply := if retried then o.exchange.second else o.exchange.first;
            var answers := reply.MessageReply? ||
              (reply.TaskReply? && reply.task.status.state in {Completed, InputRequired, AuthRequired});
            && (alias in response <==> IsAsked(o, cells[alias], cached, job.limits.threshold) && answers)
            && (alias in response ==>
                  response[alias] ==
                    if reply.MessageReply? then MessageOutput(reply.message) else TaskOutput(reply.task))
  {
    hide Run, Attempted, Exchanged, Response;
    var o, alias := job.oracles[i], job.aliases[i];
    ResponseOfBroadcast(job, cells, cached, schedule, i);
    NotAskedBecause(o, Seen(cells[alias].health), IsCached(cached, o.url), job.limits.threshold);
    DirectExchangeTells(o.exchange.first, o.exchange.second, o.creates.1);
  }

  /** And one that is streamed, exactly if the item that decides its deciding stream is such a message or task, or a
      status for such a task. */
  lemma ResponseShowsStreams(job: Job, cells: map<string, Cell>, cached: set<string>, schedule: seq<nat>, i: nat,
                             k: nat, k': nat)
    requires Fits(job, Begin(job, cells, cached)) && job.Coherent() && Apart(job.Urls()) && i < |job.aliases|
    requires Complete(Run(job, Begin(job, cells, cached), schedule)) && job.oracles[i].exchange.Streamed?
    requires DecidedAt(job.oracles[i].exchange.stream, k) && DecidedAt(job.oracles[i].exchange.retried, k')
    ensures var o, alias := job.oracles[i], job.aliases[i];
            var response := Response(job.aliases, Run(job, Begin(job, cells, cached), schedule).cells);
            var retried := o.exchange.stream[k] == Broken(AuthError) && o.creates.1;
            var items, item := if retried then o.exchange.retried else o.exchange.stream,
                               if retried then o.exchange.retried[k'] else o.exchange.stream[k];
            var answers := item.Received? &&
              (|| item.event.MessageEvent?
               || (item.event.TaskEvent? && item.event.task.status.state in {Completed, InputRequired, AuthRequired})
               || (item.event.StatusEvent? && item.event.status.state in {Completed, InputRequired, AuthRequired}));
            && (alias in response <==> IsAsked(o, cells[alias], cached, job.limits.threshold) && answers)
            && (alias in response ==>
                  if item.event.MessageEvent? then response[alias] == MessageOutput(item.event.message)
                  else if item.event.TaskEvent? then response[alias] == TaskOutput(item.event.task)
                  else Ending(items, false) == Ok(ByStatus) && response[alias] == TaskOutput(SyntheticTask(items)))
  {
    hide Run, Attempted, Exchanged, Response, OfStream, Ending, SyntheticTask;
    var o, alias := job.oracles[i], job.aliases[i];
    ResponseOfBroadcast(job, cells, cached, schedule, i);
    NotAskedBecause(o, Seen(cells[alias].health), IsCached(cached, o.url), job.limits.threshold);
    StreamedExchangeTells(o.exchange.stream, o.exchange.retried, o.creates.1, k);
    StreamTells(o.exchange.stream, k);
    StreamTells(o.exchange.retried, k');
  }

  // -------- Goroutines one after the other --------

  function Alone(i: nat, n: nat): seq<nat> {
    if n == 0 then [] else Alone(i, n - 1) + [i]
  }

  lemma SameLocal(job: Job, s: Shared, i: nat)
    requires Fits(job, s) && i < |job.aliases|
    ensures WithLocal(job, s, i, LocalOf(job, s, i)) == s
  {
    assert s.pcs[i := s.pcs[i]] == s.pcs && s.cells[job.aliases[i] := s.cells[job.aliases[i]]] == s.cells;
  }

  lemma LocalTwice(job: Job, s: Shared, i: nat, l: Local, l': Local)
    requires Fits(job, s) && i < |job.aliases| && (job.oracles[i].url.None? ==> !l.cached)
    ensures LocalOf(job, WithLocal(job, s, i, l), i) == l
    ensures WithLocal(job, WithLocal(job, s, i, l), i, l') == WithLocal(job, s, i, l')
  {
    var once, twice := WithLocal(job, s, i, l), WithLocal(job, s, i, l');
    assert once.cells[job.aliases[i] := l'.cell] == twice.cells;
    assert WithCached(once.cached, job.oracles[i].url, l'.cached) == twice.cached;
  }

  /** Without a URL there is nothing to cache. */
  lemma {:induction false} UncachedWithoutUrl(o: Oracle, limits: Limits, l: Local, n: nat)
    requires o.url.None? && l.pc == AtLookup && !l.cached
    ensures var l' := LocalSteps(o, limits, l, n); !l'.cached && IsTurnedAway(l'.pc)
  {
    hide Exchanged, FirstOutcome, Applied, Pushed;
    if n == 0 {
    } else {
      UncachedWithoutUrl(o, limits, l, n - 1);
    }
  }

  lemma {:induction false} RunAlone(job: Job, s: Shared, i: nat, n: nat)
    requires Fits(job, s) && i < |job.aliases| && s.pcs[i] == AtLookup
    ensures Run(job, s, Alone(i, n))
              == WithLocal(job, s, i, LocalSteps(job.oracles[i], job.limits, LocalOf(job, s, i), n))
  {
    hide LocalStep, WithLocal;
    if n == 0 {
      SameLocal(job, s, i);
    } else {
      RunAlone(job, s, i, n - 1);
      var schedule := Alone(i, n);
      assert schedule[..|schedule| - 1] == Alone(i, n - 1);
      var l := LocalSteps(job.oracles[i], job.limits, LocalOf(job, s, i), n - 1);
      if job.oracles[i].url.None? {
        UncachedWithoutUrl(job.oracles[i], job.limits, LocalOf(job, s, i), n - 1);
      }
      LocalTwice(job, s, i, l, LocalStep(job.oracles[i], job.limits, l));
    }
  }

  lemma {:induction false} RunConcat(job: Job, s: Shared, x: seq<nat>, y: seq<nat>)
    requires Fits(job, s)
    ensures Run(job, s, x + y) == Run(job, Run(job, s, x), y)
  {
    hide Step;
    if y == [] {
      assert x + y == x;
    } else {
      RunConcat(job, s, x, y[..|y| - 1]);
      assert (x + y)[..|x + y| - 1] == x + y[..|y| - 1];
    }
  }

  /** A goroutine that has not begun, by itself. */
  lemma RunToTheEnd(job: Job, s: Shared, i: nat)
    requires Fits(job, s) && i < |job.aliases| && s.pcs[i] == AtLookup
    ensures var l := LocalOf(job, s, i);
            Run(job, s, Alone(i, 10)) == WithLocal(job, s, i, Finished(job.oracles[i], job.limits, l.cell, l.cached))
  {
    hide Finished, Run, Alone, LocalSteps, WithLocal;
    RunAlone(job, s, i, 10);
    TenTurns(job.oracles[i], job.limits, LocalOf(job, s, i).cell, LocalOf(job, s, i).cached);
  }

  // -------- As if one after the other --------

  /** What the stores hold about an alias. */
  function CellOf(w: World, alias: string): Cell {
    Cell(Health.Entry(w.health, alias), History.Stored(w.history, alias), None)
  }

  /** The stores and the client cache as the goroutines share them. */
  ghost predicate Matches(s: Shared, w: World, c: ClientCache.Cache) {
    s.cached == c.clients.Keys && forall a | a in s.cells :: s.cells[a].(outcome := None) == CellOf(w, a)
  }

  lemma CellAfterAttempt(w: World, alias: string, attempt: (AgentOutcome, Option<Health.Mark>), limits: Limits)
    ensures var w' := AfterAttempt(w, alias, attempt, limits.threshold, limits.depth);
            && CellOf(w', alias) ==
               Cell(Applied(CellOf(w, alias).health, attempt.1, limits.threshold),
                    Pushed(CellOf(w, alias).history, RecordOfOutcome(attempt.0), limits.depth), None)
            && w'.registry == w.registry && forall a | a != alias :: CellOf(w', a) == CellOf(w, a)
  {
    hide RecordOfOutcome, Health.Marked, History.DropOldest;
  }

  lemma UrlsAfterAttempt(c: ClientCache.Cache, o: Oracle, health: Health.HealthState, threshold: int)
    ensures CacheAfterAttempt(c, o, health, threshold).clients.Keys ==
            WithCached(c.clients.Keys, o.url, CachedAfter(o, health, IsCached(c.clients.Keys, o.url), threshold))
  {
    hide FirstOutcome;
  }

  /** The attempt as one method performs it, on the stores, is the undisturbed goroutine, and touches no other alias. */
  lemma AttemptOnStores(w: World, c: ClientCache.Cache, alias: string, o: Oracle, limits: Limits)
    ensures var health := Health.Shown(w.health, alias);
            var cached := IsCached(c.clients.Keys, o.url);
            var attempt := Attempted(o, health, cached, limits.threshold);
            var w' := AfterAttempt(w, alias, attempt, limits.threshold, limits.depth);
            var l := Finished(o, limits, CellOf(w, alias), cached);
            && l == Local(Returned, CellOf(w', alias).(outcome := Some(attempt.0)), l.cached)
            && CacheAfterAttempt(c, o, health, limits.threshold).clients.Keys
                 == WithCached(c.clients.Keys, o.url, l.cached)
            && w'.registry == w.registry && forall a | a != alias :: CellOf(w', a) == CellOf(w, a)
  {
    hide Attempted, AfterAttempt, CachedAfter, CacheAfterAttempt, RecordOfOutcome, Applied, Pushed, WithCached;
    var health := Health.Shown(w.health, alias);
    assert Seen(CellOf(w, alias).health) == health;
    CellAfterAttempt(w, alias, Attempted(o, health, IsCached(c.clients.Keys, o.url), limits.threshold), limits);
    UrlsAfterAttempt(c, o, health, limits.threshold);
  }

  /** The attempts of the first `n` goroutines, one after the other. */
  function InTurn(job: Job, w: World, c: ClientCache.Cache, n: nat): (World, ClientCache.Cache)
    requires job.Valid() && n <= |job.aliases|
  {
    if n == 0 then (w, c)
    else
      var (before, cache) := InTurn(job, w, c, n - 1);
      var o, alias, threshold := job.oracles[n - 1], job.aliases[n - 1], job.limits.threshold;
      var health := Health.Shown(before.health, alias);
      var attempt := Attempted(o, health, IsCached(cache.clients.Keys, o.url), threshold);
      (AfterAttempt(before, alias, attempt, threshold, job.limits.depth),
       CacheAfterAttempt(cache, o, health, threshold))
  }

  function InOrder(n: nat): seq<nat> {
    if n == 0 then [] else InOrder(n - 1) + Alone(n - 1, 10)
  }

  lemma TurnMatches(job: Job, s: Shared, w: World, c: ClientCache.Cache, i: nat)
    requires Fits(job, s) && i < |job.aliases| && s.pcs[i] == AtLookup && Matches(s, w, c)
    ensures var o, alias := job.oracles[i], job.aliases[i];
            var health := Health.Shown(w.health, alias);
            var attempt := Attempted(o, health, IsCached(c.clients.Keys, o.url), job.limits.threshold);
            var s' := Run(job, s, Alone(i, 10));
            && s'.pcs == s.pcs[i := Returned]
            && Matches(s', AfterAttempt(w, alias, attempt, job.limits.threshold, job.limits.depth),
                       CacheAfterAttempt(c, o, health, job.limits.threshold))
  {
    hide Run, Attempted, AfterAttempt, CacheAfterAttempt, CachedAfter, RecordOfOutcome, Applied, Pushed;
    var o, alias := job.oracles[i], job.aliases[i];
    RunToTheEnd(job, s, i);
    AttemptOnStores(w, c, alias, o, job.limits);
    var health := Health.Shown(w.health, alias);
    var attempt := Attempted(o, health, IsCached(c.clients.Keys, o.url), job.limits.threshold);
    assert s.cells[alias].(outcome := None) == CellOf(w, alias);
    assert Seen(s.cells[alias].health) == health;
  }

  lemma {:induction false} InOrderMatches(job: Job, s: Shared, w: World, c: ClientCache.Cache, n: nat)
    requires Fits(job, s) && n <= |job.aliases| && Matches(s, w, c) && forall pc <- s.pcs :: pc == AtLookup
    ensures var s' := Run(job, s, InOrder(n));
            && (forall i | 0 <= i < |s'.pcs| :: s'.pcs[i] == if i < n then Returned else AtLookup)
            && Matches(s', InTurn(job, w, c, n).0, InTurn(job, w, c, n).1)
  {
    hide Run, Matches, Attempted, AfterAttempt, CacheAfterAttempt, Alone;
    if n == 0 {
      assert forall i | 0 <= i < |s.pcs| :: s.pcs[i] in s.pcs;
      RunNothing(job, s);
    } else {
      InOrderMatches(job, s, w, c, n - 1);
      RunConcat(job, s, InOrder(n - 1), Alone(n - 1, 10));
      TurnMatches(job, Run(job, s, InOrder(n - 1)), InTurn(job, w, c, n - 1).0, InTurn(job, w, c, n - 1).1, n - 1);
    }
  }

  lemma RunNothing(job: Job, s: Shared)
    requires Fits(job, s)
    ensures Run(job, s, []) == s
  {
  }

  function CellsOf(w: World, aliases: seq<string>): map<string, Cell> {
    map a | a in aliases :: CellOf(w, a)
  }

  /** Over the real stores: whatever the schedule, goroutines that reach pairwise different URLs leave the health,
      the histories and the cached URLs that the same attempts leave when they are made one after the other, in list
      order. */
  lemma BroadcastIsSequential(job: Job, w: World, c: ClientCache.Cache, schedule: seq<nat>)
    requires job.Coherent() && Apart(job.Urls())
    requires var start := Begin(job, CellsOf(w, job.aliases), c.clients.Keys);
             Fits(job, start) && Complete(Run(job, start, schedule))
    ensures var s := Run(job, Begin(job, CellsOf(w, job.aliases), c.clients.Keys), schedule);
            var (w', c') := InTurn(job, w, c, |job.aliases|);
            Matches(s, w', c')
  {
    hide Run, InTurn, Apart, CellOf;
    var cells, cached := CellsOf(w, job.aliases), c.clients.Keys;
    var start := Begin(job, cells, cached);
    assert Matches(start, w, c) by { StartMatches(job, w, c); }
    InOrderMatches(job, start, w, c, |job.aliases|);
    SchedulesAgree(job, cells, cached, schedule, InOrder(|job.aliases|));
  }

  lemma StartMatches(job: Job, w: World, c: ClientCache.Cache)
    ensures Matches(Begin(job, CellsOf(w, job.aliases), c.clients.Keys), w, c)
  {
    hide Health.Entry, History.Stored;
  }

  // -------- Goroutines that share an alias or a URL --------

  /** The goroutine gets no further than the rate limiter. */
  predicate IsIdle(o: Oracle) {
    o.url.None? || !o.allowed
  }

  /** The first `n` goroutines but `i` and `j`, one after the other. */
  function Others(n: nat, i: nat, j: nat): seq<nat> {
    if n == 0 then []
    else if n - 1 == i || n - 1 == j then Others(n - 1, i, j)
    else Others(n - 1, i, j) + Alone(n - 1, 10)
  }

  /** The first `n` goroutines but `i` and `j` are done, and have changed no health and no cached URL. */
  ghost predicate OthersDone(start: Shared, s: Shared, n: nat, i: nat, j: nat) {
    && |s.pcs| == |start.pcs| && s.cells.Keys == start.cells.Keys && s.cached == start.cached
    && (forall k | 0 <= k < |s.pcs| :: s.pcs[k] == if k < n && k != i && k != j then Returned else AtLookup)
    && forall a | a in start.cells :: s.cells[a].health == start.cells[a].health
  }

  lemma IdleKeepsHealth(o: Oracle, limits: Limits, cell: Cell, cached: bool)
    requires IsIdle(o)
    ensures var l := Finished(o, limits, cell, cached); l.cell.health == cell.health && l.cached == cached
  {
    hide Exchanged, FirstOutcome, RecordOfOutcome, Pushed;
  }

  lemma OneMoreDone(job: Job, start: Shared, s: Shared, k: nat, i: nat, j: nat)
    requires Fits(job, start) && Fits(job, s) && k < |job.aliases| && OthersDone(start, s, k, i, j)
    requires k != i && k != j && IsIdle(job.oracles[k])
    ensures OthersDone(start, Run(job, s, Alone(k, 10)), k + 1, i, j)
  {
    hide Run, Finished, IsIdle;
    RunToTheEnd(job, s, k);
    var l := LocalOf(job, s, k);
    IdleKeepsHealth(job.oracles[k], job.limits, l.cell, l.cached);
    FinishedHasReturned(job.oracles[k], job.limits, l.cell, l.cached);
    assert WithCached(s.cached, job.oracles[k].url, l.cached) == s.cached;
  }

  lemma FinishedHasReturned(o: Oracle, limits: Limits, cell: Cell, cached: bool)
    ensures Finished(o, limits, cell, cached).pc == Returned
  {
    hide Attempted, Applied, Pushed, CachedAfter, RecordOfOutcome;
  }

  lemma SkippedIsDone(start: Shared, s: Shared, n: nat, i: nat, j: nat)
    requires n == i || n == j
    ensures OthersDone(start, s, n, i, j) ==> OthersDone(start, s, n + 1, i, j)
  {
  }

  lemma {:induction false} OthersAreDone(job: Job, start: Shared, n: nat, i: nat, j: nat)
    requires Fits(job, start) && n <= |job.aliases| && forall pc <- start.pcs :: pc == AtLookup
    requires forall k | 0 <= k < n && k != i && k != j :: IsIdle(job.oracles[k])
    ensures OthersDone(start, Run(job, start, Others(n, i, j)), n, i, j)
  {
    hide Run, OthersDone, IsIdle, Alone;
    if n == 0 {
      RunNothing(job, start);
      NoneDone(start, i, j);
    } else {
      OthersAreDone(job, start, n - 1, i, j);
      var s := Run(job, start, Others(n - 1, i, j));
      if n - 1 == i || n - 1 == j {
        SkippedIsDone(start, s, n - 1, i, j);
      } else {
        RunConcat(job, start, Others(n - 1, i, j), Alone(n - 1, 10));
        OneMoreDone(job, start, s, n - 1, i, j);
      }
    }
  }

  lemma NoneDone(start: Shared, i: nat, j: nat)
    requires forall pc <- start.pcs :: pc == AtLookup
    ensures OthersDone(start, start, 0, i, j)
  {
    assert forall k | 0 <= k < |start.pcs| :: start.pcs[k] in start.pcs;
  }

  /** All others first, then `i`, and `j` last. */
  function LastTwo(job: Job, i: nat, j: nat): seq<nat> {
    Others(|job.aliases|, i, j) + Alone(i, 10) + Alone(j, 10)
  }

  /** What the last two goroutines make of their agents when they reach the same URL and all others are idle. */
  lemma LastTwoDecide(job: Job, cells: map<string, Cell>, cached: set<string>, i: nat, j: nat, url: string)
    requires Fits(job, Begin(job, cells, cached)) && i < |job.aliases| && j < |job.aliases| && i != j
    requires job.oracles[i].url == job.oracles[j].url == Some(url)
    requires forall k | 0 <= k < |job.aliases| && k != i && k != j :: IsIdle(job.oracles[k])
    ensures var s := Run(job, Begin(job, cells, cached), LastTwo(job, i, j));
            var (o, a, threshold) := (job.oracles[i], job.aliases[i], job.limits.threshold);
            var (o', a') := (job.oracles[j], job.aliases[j]);
            var first := Attempted(o, Seen(cells[a].health), url in cached, threshold);
            var health := if a == a' then Applied(cells[a].health, first.1, threshold) else cells[a'].health;
            var renewed := CachedAfter(o, Seen(cells[a].health), url in cached, threshold);
            var second := Attempted(o', Seen(health), renewed, threshold);
            && Complete(s)
            && s.cells[a'].outcome == Some(second.0) && (a != a' ==> s.cells[a].outcome == Some(first.0))
  {
    hide Run, Others, Alone, Attempted, CachedAfter, Applied, Pushed, RecordOfOutcome, IsIdle;
    var start := Begin(job, cells, cached);
    OthersAreDone(job, start, |job.aliases|, i, j);
    var s0 := Run(job, start, Others(|job.aliases|, i, j));
    RunToTheEnd(job, s0, i);
    var s1 := Run(job, s0, Alone(i, 10));
    RunToTheEnd(job, s1, j);
    RunConcat(job, start, Others(|job.aliases|, i, j), Alone(i, 10));
    RunConcat(job, start, Others(|job.aliases|, i, j) + Alone(i, 10), Alone(j, 10));
  }

  function Limited(url: Option<string>): Oracle {
    Oracle(url, false, (true, true), CancelError, true, Direct(UnrecognizedReply, UnrecognizedReply))
  }

  /** A client can be created, and the agent answers with the message. */
  function Answering(url: Option<string>, message: Message): Oracle {
    Oracle(url, true, (true, true), CancelError, true, Direct(MessageReply(message), UnrecognizedReply))
  }

  /** No client can be created; over a cached one the agent would answer in no known format. */
  function Unable(url: Option<string>, error: AgentError): Oracle {
    Oracle(url, true, (false, false), error, true, Direct(UnrecognizedReply, UnrecognizedReply))
  }

  /** Each alias at its URL; the rate limiter turns away all but the goroutines `i` and `j`. */
  function Contended(aliases: seq<string>, urls: seq<Option<string>>, i: nat, first: Oracle, j: nat, second: Oracle,
                     limits: Limits): Job
    requires |aliases| == |urls|
  {
    Job(aliases, seq(|aliases|, k requires 0 <= k < |aliases| =>
      if k == i then first else if k == j then second else Limited(urls[k])), limits)
  }

  /** Occurrences of one alias are registered at one URL. */
  ghost predicate OneRegistry(aliases: seq<string>, urls: seq<Option<string>>) {
    |aliases| == |urls| && forall i, j | 0 <= i < |aliases| && 0 <= j < |aliases| && aliases[i] == aliases[j] ::
      urls[i] == urls[j]
  }

  predicate IsSkipped(cell: Cell, threshold: int) {
    threshold > 0 && Seen(cell.health).status == Health.Unhealthy
  }

  lemma ContendedIsCoherent(aliases: seq<string>, urls: seq<Option<string>>, i: nat, first: Oracle, j: nat,
                            second: Oracle, limits: Limits)
    requires OneRegistry(aliases, urls) && i < |aliases| && j < |aliases| && i != j
    requires first.url == urls[i] && second.url == urls[j] && first.partsOk && second.partsOk
    ensures var job := Contended(aliases, urls, i, first, j, second, limits);
            && job.Coherent() && job.Urls() == urls && job.oracles[i] == first && job.oracles[j] == second
            && forall k | 0 <= k < |aliases| && k != i && k != j :: IsIdle(job.oracles[k])
  {
  }

  /** Nothing forbids naming an alias twice. Whatever the list, the stores, the cache and the limits: unless the
      agent is skipped as unhealthy, there are two schedules of which one ends with the answer of the one occurrence,
      and the other with the refusal of the other by the rate limiter. */
  lemma RepeatedAliasRaces(aliases: seq<string>, urls: seq<Option<string>>, i: nat, j: nat, cells: map<string, Cell>,
                           cached: set<string>, message: Message, limits: Limits)
    requires OneRegistry(aliases, urls) && i < |aliases| && j < |aliases| && i != j && aliases[i] == aliases[j]
    requires urls[i].Some? && (forall a <- aliases :: a in cells) && !IsSkipped(cells[aliases[i]], limits.threshold)
    ensures var job := Contended(aliases, urls, i, Answering(urls[i], message), j, Limited(urls[j]), limits);
            var start := Begin(job, cells, cached);
            var (x, y) := (LastTwo(job, i, j), LastTwo(job, j, i));
            && job.Coherent() && job.Urls() == urls && Fits(job, start)
            && Complete(Run(job, start, x)) && Complete(Run(job, start, y))
            && Run(job, start, x).cells[aliases[i]].outcome == Some(AgentOutcome(Unusable(RateLimited), None))
            && Run(job, start, y).cells[aliases[i]].outcome ==
               Some(AgentOutcome(Answered, Some(MessageOutput(message))))
  {
    hide Run, LastTwo, IsIdle, Pushed;
    var answers := Answering(urls[i], message);
    var job := Contended(aliases, urls, i, answers, j, Limited(urls[j]), limits);
    assert forall k | 0 <= k < |aliases| :: aliases[k] in aliases;
    ContendedIsCoherent(aliases, urls, i, answers, j, Limited(urls[j]), limits);
    LastTwoDecide(job, cells, cached, i, j, urls[i].value);
    LastTwoDecide(job, cells, cached, j, i, urls[i].value);
  }

  /** Nor does anything forbid two goroutines that reach the same URL, by one alias or by two. If no client for it is
      cached, whether the one that cannot create a client finds one depends on whether the other came first. */
  lemma SharedUrlRaces(aliases: seq<string>, urls: seq<Option<string>>, i: nat, j: nat, cells: map<string, Cell>,
                       cached: set<string>, error: AgentError, message: Message, limits: Limits)
    requires OneRegistry(aliases, urls) && i < |aliases| && j < |aliases| && i != j && urls[i] == urls[j]
    requires urls[i].Some? && urls[i].value !in cached && forall a <- aliases :: a in cells
    requires !IsSkipped(cells[aliases[i]], limits.threshold) && !IsSkipped(cells[aliases[j]], limits.threshold)
    ensures var job := Contended(aliases, urls, i, Unable(urls[i], error), j, Answering(urls[j], message), limits);
            var start := Begin(job, cells, cached);
            var (x, y) := (Run(job, start, LastTwo(job, i, j)), Run(job, start, LastTwo(job, j, i)));
            && job.Coherent() && job.Urls() == urls && Fits(job, start) && Complete(x) && Complete(y)
            && (aliases[i] != aliases[j] ==>
                  x.cells[aliases[i]].outcome == Some(AgentOutcome(Unusable(NoClient(error)), None)))
            && (aliases[i] == aliases[j] ==>
                  x.cells[aliases[i]].outcome == Some(AgentOutcome(Answered, Some(MessageOutput(message)))))
            && y.cells[aliases[i]].outcome == Some(AgentOutcome(Unusable(UnrecognizedFormat), None))
  {
    hide Run, LastTwo, IsIdle, Pushed;
    var cannot, can := Unable(urls[i], error), Answering(urls[j], message);
    var job := Contended(aliases, urls, i, cannot, j, can, limits);
    assert forall k | 0 <= k < |aliases| :: aliases[k] in aliases;
    ContendedIsCoherent(aliases, urls, i, cannot, j, can, limits);
    LastTwoDecide(job, cells, cached, i, j, urls[i].value);
    LastTwoDecide(job, cells, cached, j, i, urls[i].value);
  }

  /** No broadcast to these aliases at these URLs has two complete schedules that end differently. */
  ghost predicate ScheduleIndependent(aliases: seq<string>, urls: seq<Option<string>>) {
    forall job: Job, cells, cached, x, y |
      && job.aliases == aliases && job.Coherent() && job.Urls() == urls && Fits(job, Begin(job, cells, cached))
      && Complete(Run(job, Begin(job, cells, cached), x)) && Complete(Run(job, Begin(job, cells, cached), y)) ::
      Run(job, Begin(job, cells, cached), x) == Run(job, Begin(job, cells, cached), y)
  }

  /** The result of a broadcast is independent of the schedule exactly when no two goroutines reach the same URL. */
  lemma ScheduleIndependentIffApart(aliases: seq<string>, urls: seq<Option<string>>)
    requires OneRegistry(aliases, urls)
    ensures ScheduleIndependent(aliases, urls) <==> Apart(urls)
  {
    hide Run, LastTwo, Fits, IsIdle;
    if Apart(urls) {
      forall job: Job, cells, cached, x, y |
        && job.aliases == aliases && job.Coherent() && job.Urls() == urls && Fits(job, Begin(job, cells, cached))
        && Complete(Run(job, Begin(job, cells, cached), x)) && Complete(Run(job, Begin(job, cells, cached), y))
        ensures Run(job, Begin(job, cells, cached), x) == Run(job, Begin(job, cells, cached), y)
      {
        SchedulesAgree(job, cells, cached, x, y);
      }
    } else {
      var i, j :| 0 <= i < j < |urls| && urls[i].Some? && urls[i] == urls[j];
      var cells := map a | a in aliases :: Cell(None, [], None);
      var error, message, limits := CancelError, Message("", []), Limits(0, 1);
      SharedUrlRaces(aliases, urls, i, j, cells, {}, error, message, limits);
      var job := Contended(aliases, urls, i, Unable(urls[i], error), j, Answering(urls[j], message), limits);
      assert Run(job, Begin(job, cells, {}), LastTwo(job, i, j)) != Run(job, Begin(job, cells, {}), LastTwo(job, j, i));
    }
  }
}
