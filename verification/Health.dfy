/** Failure counting per agent (health/health_tracker.go). */
module Health {
  import opened Prelude

  datatype HealthStatus = Healthy | Unhealthy | Unknown

  datatype HealthState = HealthState(status: HealthStatus, failures: int)

  const UNTRACKED := HealthState(Unknown, 0)

  datatype Mark = Succeeded | Failed | Reset | Deleted

  datatype Call = Call(alias: string, mark: Mark)

  /** What one call does to its own alias's state; None is an alias without an entry. */
  function Marked(state: Option<HealthState>, mark: Mark, threshold: int): Option<HealthState> {
    if threshold == 0 then state
    else
      match mark
      case Succeeded => if state.None? then None else Some(HealthState(Healthy, 0))
      case Failed =>
        if state.None? then None
        else
          var n := state.value.failures + 1;
          Some(HealthState(if n >= threshold then Unhealthy else state.value.status, n))
      case Reset => Some(UNTRACKED)
      case Deleted => None
  }

  function Entry(agents: map<string, HealthState>, alias: string): Option<HealthState> {
    if alias in agents then Some(agents[alias]) else None
  }

  function WithEntry(agents: map<string, HealthState>, alias: string,
                     state: Option<HealthState>): map<string, HealthState> {
    match state
    case None => agents - {alias}
    case Some(s) => agents[alias := s]
  }

  function AfterCall(agents: map<string, HealthState>, call: Call, threshold: int): map<string, HealthState> {
    WithEntry(agents, call.alias, Marked(Entry(agents, call.alias), call.mark, threshold))
  }

  lemma ResetShowsUntracked(agents: map<string, HealthState>, alias: string, threshold: int)
    ensures var after := AfterCall(agents, Call(alias, Reset), threshold);
            && (threshold != 0 ==> alias in after && after[alias] == UNTRACKED)
            && (threshold == 0 ==> after == agents)
            && forall a | a != alias :: (a in after <==> a in agents) && (a in agents ==> after[a] == agents[a])
  {
  }

  /** What a reader of an alias sees. */
  function Shown(agents: map<string, HealthState>, alias: string): HealthState {
    if alias in agents then agents[alias] else UNTRACKED
  }

  class HealthTracker {
    var agents: map<string, HealthState>
    const threshold: int

    constructor (threshold: int)
      ensures agents == map[] && this.threshold == threshold
    {
      agents := map[];
      this.threshold := threshold;
    }

    method RecordSuccess(alias: string)
      modifies this
      ensures agents == AfterCall(old(agents), Call(alias, Succeeded), threshold)
    {
      if threshold != 0 && alias in agents {
        var state := agents[alias].(failures := 0);
        agents := agents[alias := state.(status := Healthy)];
      }
    }

    method RecordFailure(alias: string)
      modifies this
      ensures agents == AfterCall(old(agents), Call(alias, Failed), threshold)
    {
      if threshold != 0 && alias in agents {
        var state := agents[alias].(failures := agents[alias].failures + 1);
        if state.failures >= threshold {
          state := state.(status := Unhealthy);
        }
        agents := agents[alias := state];
      }
    }

    method Reset(alias: string)
      modifies this
      ensures agents == AfterCall(old(agents), Call(alias, Mark.Reset), threshold)
    {
      if threshold != 0 {
        agents := agents[alias := HealthState(Unknown, 0)];
      }
    }

    method Delete(alias: string)
      modifies this
      ensures agents == AfterCall(old(agents), Call(alias, Deleted), threshold)
    {
      if threshold != 0 {
        agents := agents - {alias};
      }
    }

    function Get(alias: string): HealthState
      reads this
    {
      Shown(agents, alias)
    }

    function IsEnabled(): bool {
      threshold > 0
    }

    /** An alias without an entry counts as healthy here. */
    predicate IsHealthy(alias: string)
      reads this
      ensures IsHealthy(alias) <==> alias !in agents || agents[alias].status != Unhealthy
    {
      Get(alias).status != Unhealthy
    }
  }

  // -------- The tracker as a function of the calls made --------

  function Replay(calls: seq<Call>, threshold: int): map<string, HealthState> {
    if calls == [] then map[]
    else AfterCall(Replay(calls[..|calls| - 1], threshold), calls[|calls| - 1], threshold)
  }

  /** The marks made on one alias, in order. */
  function MarksOn(calls: seq<Call>, alias: string): seq<Mark> {
    if calls == [] then []
    else
      var rest := MarksOn(calls[..|calls| - 1], alias);
      if calls[|calls| - 1].alias == alias then rest + [calls[|calls| - 1].mark] else rest
  }

  /** How many failures end the history. */
  function TrailingFailures(marks: seq<Mark>): (n: nat)
    ensures n <= |marks| && (forall i | |marks| - n <= i < |marks| :: marks[i] == Failed)
    ensures n < |marks| ==> marks[|marks| - n - 1] != Failed
  {
    if marks == [] || marks[|marks| - 1] != Failed then 0 else 1 + TrailingFailures(marks[..|marks| - 1])
  }

  /** Reset since the last deletion, if any. */
  predicate Tracked(marks: seq<Mark>) {
    exists i :: 0 <= i < |marks| && marks[i] == Reset && forall j | i < j < |marks| :: marks[j] != Deleted
  }

  /** The latest call that was not a failure. */
  function LatestNonFailure(marks: seq<Mark>): Mark
    requires TrailingFailures(marks) < |marks|
  {
    marks[|marks| - TrailingFailures(marks) - 1]
  }

  /** What the calls made on an alias say about it. */
  ghost function Diagnosis(marks: seq<Mark>, threshold: int): Option<HealthState> {
    if !Tracked(marks) then None
    else
      var n := TrailingFailures(marks);
      TrackedHasNonFailure(marks);
      Some(HealthState(
        if n > 0 && n >= threshold then Unhealthy
        else if LatestNonFailure(marks) == Succeeded then Healthy
        else Unknown, n))
  }

  lemma TrackedHasNonFailure(marks: seq<Mark>)
    requires Tracked(marks)
    ensures TrailingFailures(marks) < |marks|
  {
    var i :| 0 <= i < |marks| && marks[i] == Reset && forall j | i < j < |marks| :: marks[j] != Deleted;
    assert i < |marks| - TrailingFailures(marks);
  }

  lemma TrackedStep(marks: seq<Mark>, mark: Mark)
    ensures Tracked(marks + [mark]) <==> mark == Reset || (mark != Deleted && Tracked(marks))
  {
    var after := marks + [mark];
    if Tracked(after) && mark != Reset {
      var i :| 0 <= i < |after| && after[i] == Reset && forall j | i < j < |after| :: after[j] != Deleted;
      assert i < |marks| && marks[i] == Reset && after[|marks|] == mark;
      assert forall j | i < j < |marks| :: marks[j] == after[j];
    }
    if mark == Reset {
      assert after[|marks|] == Reset;
    } else if mark != Deleted && Tracked(marks) {
      var i :| 0 <= i < |marks| && marks[i] == Reset && forall j | i < j < |marks| :: marks[j] != Deleted;
      assert after[i] == Reset && forall j | i < j < |after| :: after[j] != Deleted;
    }
  }

  /** One more mark moves the diagnosis as the tracker moves its entry. */
  lemma DiagnosisStep(marks: seq<Mark>, mark: Mark, threshold: int)
    requires threshold != 0
    ensures Diagnosis(marks + [mark], threshold) == Marked(Diagnosis(marks, threshold), mark, threshold)
  {
    TrackedStep(marks, mark);
    var after := marks + [mark];
    assert after[..|marks|] == marks;
    hide Tracked;
    if Tracked(after) {
      TrackedHasNonFailure(after);
      if mark == Failed {
        TrackedHasNonFailure(marks);
        assert TrailingFailures(after) == 1 + TrailingFailures(marks);
        assert LatestNonFailure(after) == LatestNonFailure(marks);
      } else {
        assert TrailingFailures(after) == 0 && LatestNonFailure(after) == mark;
      }
    }
  }

  /** For every call history the tracker holds exactly what that alias's own calls say: an entry iff it was reset and
      not deleted since, the number of failures since the latest success or reset, unhealthy iff that number reaches
      the threshold, and otherwise healthy iff the latest call that was not a failure succeeded. */
  lemma {:induction false} TrackerRefinesHistory(calls: seq<Call>, threshold: int, alias: string)
    requires threshold != 0
    ensures Entry(Replay(calls, threshold), alias) == Diagnosis(MarksOn(calls, alias), threshold)
  {
    if calls == [] {
      assert !Tracked([]);
    } else {
      var before, call := calls[..|calls| - 1], calls[|calls| - 1];
      TrackerRefinesHistory(before, threshold, alias);
      if call.alias == alias {
        DiagnosisStep(MarksOn(before, alias), call.mark, threshold);
      }
    }
  }

  /** An alias counts as unhealthy exactly when it was reset, not deleted since, and has failed as often as the
      threshold allows since its latest success or reset; so one that is not tracked counts as healthy. */
  lemma UnhealthyIffFailuresReachThreshold(calls: seq<Call>, threshold: int, alias: string)
    requires threshold != 0
    ensures var marks := MarksOn(calls, alias);
            var n := TrailingFailures(marks);
            && (Shown(Replay(calls, threshold), alias).status == Unhealthy <==>
                Tracked(marks) && n > 0 && n >= threshold)
            && (!Tracked(marks) ==> Shown(Replay(calls, threshold), alias) == UNTRACKED)
  {
    hide Tracked, Replay, MarksOn, TrailingFailures;
    TrackerRefinesHistory(calls, threshold, alias);
    if Tracked(MarksOn(calls, alias)) {
      TrackedHasNonFailure(MarksOn(calls, alias));
    }
  }

  /** A disabled tracker never holds anything. */
  lemma {:induction false} DisabledTrackerIsEmpty(calls: seq<Call>)
    ensures Replay(calls, 0) == map[]
  {
    if calls == [] {
    } else {
      DisabledTrackerIsEmpty(calls[..|calls| - 1]);
    }
  }

  /** Calls on other aliases are invisible: two histories that agree on an alias show the same state for it. */
  lemma AliasesDoNotInterfere(calls: seq<Call>, calls': seq<Call>, threshold: int, alias: string)
    requires MarksOn(calls, alias) == MarksOn(calls', alias)
    ensures Shown(Replay(calls, threshold), alias) == Shown(Replay(calls', threshold), alias)
  {
    if threshold == 0 {
      DisabledTrackerIsEmpty(calls);
      DisabledTrackerIsEmpty(calls');
    } else {
      TrackerRefinesHistory(calls, threshold, alias);
      TrackerRefinesHistory(calls', threshold, alias);
      var agents, agents' := Replay(calls, threshold), Replay(calls', threshold);
      assert Entry(agents, alias) == Entry(agents', alias);
      assert alias in agents <==> alias in agents';
    }
  }
}
