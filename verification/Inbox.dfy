/** The async inbox (registry/inbox.go): a slice of entries behind one mutex. */
module Inbox {
  import opened Prelude
  import opened Sequences
  import opened A2A

  /** What stands in an entry's State field. */
  datatype EntryState = Blank | FromTask(state: TaskState) | CompletedMessage | DispatchError

  /** Timestamps are nanoseconds since the zero time, which is 0. */
  const ZERO_TIME: int := 0

  datatype Entry = Entry(alias: string, taskId: string, contextId: string, state: EntryState, timestamp: int,
                         task: Option<Task>, message: Option<Message>, error: Trouble)

  // -------- The operations as functions on the stored sequence --------

  function Stamped(e: Entry, now: int): Entry {
    if e.timestamp == ZERO_TIME then e.(timestamp := now) else e
  }

  function IsOf(alias: string): Entry -> bool {
    (e: Entry) => e.alias == alias
  }

  function NotBefore(cutoff: int): Entry -> bool {
    (e: Entry) => e.timestamp >= cutoff
  }

  /** What pruning at time `now` keeps, and what it discards. A TTL that is not positive keeps everything. */
  function Live(s: seq<Entry>, ttl: int, now: int): seq<Entry> {
    if ttl <= 0 then s else Filter(s, NotBefore(now - ttl))
  }

  function Expired(s: seq<Entry>, ttl: int, now: int): seq<Entry> {
    if ttl <= 0 then [] else Filter(s, Not(NotBefore(now - ttl)))
  }

  /** The entries a peek shows; an empty alias means all. */
  function Shows(alias: string): Entry -> bool {
    (e: Entry) => alias == "" || e.alias == alias
  }

  function Visible(s: seq<Entry>, alias: string): seq<Entry> {
    Filter(s, Shows(alias))
  }

  /** The two-pointer merge: on equal timestamps the first list goes first. */
  function Merge(r: seq<Entry>, k: seq<Entry>): seq<Entry> {
    if r == [] then k
    else if k == [] then r
    else if r[0].timestamp <= k[0].timestamp then [r[0]] + Merge(r[1..], k)
    else [k[0]] + Merge(r, k[1..])
  }

  /** One step of the merge: the smaller head joins what is already merged. */
  lemma MergeStep(done: seq<Entry>, r: seq<Entry>, k: seq<Entry>, i: nat, j: nat)
    requires i < |r| && j < |k|
    ensures done + Merge(r[i..], k[j..]) ==
            if r[i].timestamp <= k[j].timestamp then done + [r[i]] + Merge(r[i + 1..], k[j..])
            else done + [k[j]] + Merge(r[i..], k[j + 1..])
  {
    assert r[i..][0] == r[i] && r[i..][1..] == r[i + 1..];
    assert k[j..][0] == k[j] && k[j..][1..] == k[j + 1..];
  }

  lemma MergeWithNothing(s: seq<Entry>)
    ensures Merge(s, []) == s && Merge([], s) == s
  {
  }

  datatype PopOptions = PopOptions(alias: string, length: Option<int>, latest: bool)

  /** `dropped` is removed without being returned. A negative length makes the source fail while slicing;
      the entries are then left as pruned. */
  datatype PopOutcome = PopOutcome(failed: bool, result: seq<Entry>, dropped: seq<Entry>, rest: seq<Entry>)

  function PopFrom(live: seq<Entry>, opts: PopOptions): PopOutcome {
    var mine := Filter(live, IsOf(opts.alias));
    var others := Filter(live, Not(IsOf(opts.alias)));
    if mine == [] then PopOutcome(false, [], [], live)
    else if opts.latest then PopOutcome(false, mine[|mine| - 1..], mine[..|mine| - 1], others)
    else
      match opts.length
      case None => PopOutcome(false, mine, [], others)
      case Some(length) =>
        if length < 0 then PopOutcome(true, [], [], live)
        else
          var n := Min(length, |mine|);
          PopOutcome(false, mine[..n], [], Merge(others, mine[n..]))
  }

  lemma FilterNothing(p: Entry -> bool)
    ensures Filter([], p) == []
  {
  }

  // -------- The store itself --------

  /** A Go slice: the window [lo, hi) of a backing array. */
  datatype Slice = Slice(buf: array<Entry>, lo: nat, hi: nat) {
    predicate Valid() {
      lo <= hi <= buf.Length
    }

    function Elements(): seq<Entry>
      requires Valid()
      reads buf
    {
      buf[lo..hi]
    }
  }

  lemma SplitWindow(s: Slice, n: nat)
    requires s.Valid() && n <= s.hi - s.lo
    ensures Slice(s.buf, s.lo, s.lo + n).Elements() == s.Elements()[..n]
    ensures Slice(s.buf, s.lo + n, s.hi).Elements() == s.Elements()[n..]
  {
  }

  /** Writes into the element behind the window, which then belongs to it. */
  method WriteBehind(s: Slice, e: Entry) returns (r: Slice)
    requires s.Valid() && s.hi < s.buf.Length
    modifies s.buf
    ensures r == Slice(s.buf, s.lo, s.hi + 1) && r.Elements() == old(s.Elements()) + [e]
    ensures forall j | 0 <= j < s.buf.Length && j != s.hi :: s.buf[j] == old(s.buf[j])
  {
    s.buf[s.hi] := e;
    r := Slice(s.buf, s.lo, s.hi + 1);
  }

  /** The built-in append: writes behind the window if the backing array has room there, else moves to a larger one. */
  method Append(s: Slice, e: Entry) returns (r: Slice)
    requires s.Valid()
    modifies s.buf
    ensures r.Valid() && r.Elements() == old(s.Elements()) + [e]
    ensures r.buf == s.buf || fresh(r.buf)
  {
    if s.hi < s.buf.Length {
      r := WriteBehind(s, e);
      return;
    }
    var n := s.hi - s.lo;
    var grown := new Entry[2 * n + 1](_ => e);
    forall i | 0 <= i < n {
      grown[i] := s.buf[s.lo + i];
    }
    r := Slice(grown, 0, n + 1);
    assert r.Elements() == s.Elements() + [e];
  }

  method EmptySlice() returns (s: Slice)
    ensures s.Valid() && s.Elements() == [] && fresh(s.buf)
  {
    var buf := new Entry[0];
    s := Slice(buf, 0, 0);
  }

  /** The merge loop of Pop, into a slice of its own. */
  method MergeByTime(r: Slice, k: Slice) returns (merged: Slice)
    requires r.Valid() && k.Valid()
    ensures merged.Valid() && fresh(merged.buf) && merged.Elements() == Merge(r.Elements(), k.Elements())
  {
    hide Merge;
    merged := EmptySlice();
    var ri, ki := 0, 0;
    ghost var rs, ks := r.Elements(), k.Elements();
    assert rs[0..] == rs && ks[0..] == ks;
    while ri < r.hi - r.lo || ki < k.hi - k.lo
      invariant 0 <= ri <= |rs| && 0 <= ki <= |ks|
      invariant merged.Valid() && fresh(merged.buf)
      invariant merged.Elements() + Merge(rs[ri..], ks[ki..]) == Merge(rs, ks)
      decreases |rs| - ri + |ks| - ki
    {
      if ri >= r.hi - r.lo {
        assert rs[ri..] == [];
        SplitWindow(k, ki);
        MergeWithNothing(ks[ki..]);
        merged := AppendAll(merged, Slice(k.buf, k.lo + ki, k.hi));
        return;
      }
      if ki >= k.hi - k.lo {
        assert ks[ki..] == [];
        SplitWindow(r, ri);
        MergeWithNothing(rs[ri..]);
        merged := AppendAll(merged, Slice(r.buf, r.lo + ri, r.hi));
        return;
      }
      MergeStep(merged.Elements(), rs, ks, ri, ki);
      var first, second := r.buf[r.lo + ri], k.buf[k.lo + ki];
      assert first == rs[ri] && second == ks[ki];
      if !(first.timestamp > second.timestamp) {
        merged := Append(merged, first);
        ri := ri + 1;
      } else {
        merged := Append(merged, second);
        ki := ki + 1;
      }
    }
    assert rs[ri..] == [] && ks[ki..] == [];
    MergeWithNothing([]);
  }

  method AppendAll(s: Slice, t: Slice) returns (r: Slice)
    requires s.Valid() && t.Valid() && s.buf != t.buf
    modifies s.buf
    ensures r.Valid() && r.Elements() == old(s.Elements()) + t.Elements()
    ensures r.buf == s.buf || fresh(r.buf)
  {
    r := s;
    for i := 0 to t.hi - t.lo
      invariant r.Valid() && r.Elements() == old(s.Elements()) + t.buf[t.lo..t.lo + i]
      invariant r.buf == s.buf || fresh(r.buf)
      invariant t.Elements() == old(t.Elements())
    {
      r := Append(r, t.buf[t.lo + i]);
    }
  }

  /** The loop of pruneExpired: what is kept moves to the front of the window it is read from. */
  method Compact(s: Slice, cutoff: int) returns (kept: Slice)
    requires s.Valid()
    modifies s.buf
    ensures kept.Valid() && kept.buf == s.buf && kept.Elements() == Filter(old(s.Elements()), NotBefore(cutoff))
  {
    hide Filter;
    kept := Slice(s.buf, s.lo, s.lo);
    ghost var was := s.Elements();
    FilterNothing(NotBefore(cutoff));
    for i := s.lo to s.hi
      invariant kept.buf == s.buf && kept.lo == s.lo <= kept.hi <= i
      invariant forall j | i <= j < s.hi :: s.buf[j] == was[j - s.lo]
      invariant kept.Elements() == Filter(was[..i - s.lo], NotBefore(cutoff))
    {
      var e := s.buf[i];
      assert e == was[i - s.lo];
      FilterSnoc(was, i - s.lo, NotBefore(cutoff));
      if !(e.timestamp < cutoff) {
        kept := WriteBehind(kept, e);
      }
    }
    assert was[..|was|] == was;
  }

  class MemoryInbox {
    var entries: Slice
    const ttl: int

    ghost predicate Valid()
      reads this
    {
      entries.Valid()
    }

    ghost function Contents(): seq<Entry>
      requires Valid()
      reads this, entries.buf
    {
      entries.Elements()
    }

    constructor (ttl: int)
      ensures Valid() && Contents() == [] && fresh(entries.buf) && this.ttl == ttl
    {
      var buf := new Entry[0];
      entries := Slice(buf, 0, 0);
      this.ttl := ttl;
    }

    method Deposit(e: Entry, now: int)
      requires Valid()
      modifies this, entries.buf
      ensures Valid() && (entries.buf == old(entries.buf) || fresh(entries.buf))
      ensures Contents() == old(Contents()) + [Stamped(e, now)]
    {
      var entry := e;
      if entry.timestamp == ZERO_TIME {
        entry := entry.(timestamp := now);
      }
      entries := Append(entries, entry);
    }

    /** Compacts the slice in place while reading it. */
    method PruneExpired(now: int)
      requires Valid()
      modifies this, entries.buf
      ensures Valid() && entries.buf == old(entries.buf)
      ensures Contents() == Live(old(Contents()), ttl, now)
    {
      if ttl <= 0 {
        return;
      }
      hide Filter;
      var kept := Compact(entries, now - ttl);
      entries := kept;
    }

    /** The returned slice has a backing array of its own. */
    method Peek(alias: string, now: int) returns (result: Slice)
      requires Valid()
      modifies this, entries.buf
      ensures Valid() && entries.buf == old(entries.buf)
      ensures Contents() == Live(old(Contents()), ttl, now)
      ensures result.Valid() && fresh(result.buf) && result.buf != entries.buf
      ensures result.Elements() == Visible(Contents(), alias)
    {
      PruneExpired(now);
      result := Select(alias);
    }

    method Select(alias: string) returns (result: Slice)
      requires Valid()
      ensures result.Valid() && fresh(result.buf) && result.Elements() == Visible(Contents(), alias)
    {
      hide Filter;
      result := EmptySlice();
      ghost var all := Contents();
      FilterNothing(Shows(alias));
      for i := 0 to entries.hi - entries.lo
        invariant result.Valid() && fresh(result.buf)
        invariant result.Elements() == Filter(all[..i], Shows(alias))
      {
        var e := entries.buf[entries.lo + i];
        assert e == all[i];
        FilterSnoc(all, i, Shows(alias));
        if alias == "" || e.alias == alias {
          result := Append(result, e);
        }
      }
      assert all[..|all|] == all;
    }

    /** Splits the entries into those for the alias and the others, each in a backing array of its own. */
    method Partition(alias: string) returns (matched: Slice, remaining: Slice)
      requires Valid()
      ensures matched.Valid() && remaining.Valid()
      ensures fresh(matched.buf) && fresh(remaining.buf) && matched.buf != remaining.buf
      ensures matched.Elements() == Filter(Contents(), IsOf(alias))
      ensures remaining.Elements() == Filter(Contents(), Not(IsOf(alias)))
    {
      hide Filter;
      matched := EmptySlice();
      remaining := EmptySlice();
      ghost var all := Contents();
      FilterNothing(IsOf(alias));
      FilterNothing(Not(IsOf(alias)));
      for i := 0 to entries.hi - entries.lo
        invariant matched.Valid() && remaining.Valid()
        invariant fresh(matched.buf) && fresh(remaining.buf) && matched.buf != remaining.buf
        invariant matched.Elements() == Filter(all[..i], IsOf(alias))
        invariant remaining.Elements() == Filter(all[..i], Not(IsOf(alias)))
      {
        var e := entries.buf[entries.lo + i];
        assert e == all[i];
        FilterSnoc(all, i, IsOf(alias));
        FilterSnoc(all, i, Not(IsOf(alias)));
        if e.alias == alias {
          matched := Append(matched, e);
        } else {
          remaining := Append(remaining, e);
        }
      }
      assert all[..|all|] == all;
    }

    method Pop(opts: PopOptions, now: int) returns (failed: bool, result: Slice)
      requires Valid()
      modifies this, entries.buf
      ensures Valid() && (entries.buf == old(entries.buf) || fresh(entries.buf))
      ensures result.Valid() && fresh(result.buf) && result.buf != entries.buf
      ensures var outcome := PopFrom(Live(old(Contents()), ttl, now), opts);
              failed == outcome.failed && result.Elements() == outcome.result && Contents() == outcome.rest
    {
      hide Filter, Merge, Live;
      PruneExpired(now);
      ghost var live := Contents();
      var matched, remaining := Partition(opts.alias);
      failed := false;
      if matched.hi == matched.lo {
        result := EmptySlice();
        return;
      }
      if opts.latest {
        result := Slice(matched.buf, matched.hi - 1, matched.hi);
        entries := remaining;
      } else if opts.length.Some? {
        var n := opts.length.value;
        if n > matched.hi - matched.lo {
          n := matched.hi - matched.lo;
        }
        if n < 0 {
          failed := true;
          result := EmptySlice();
          return;
        }
        result := Slice(matched.buf, matched.lo, matched.lo + n);
        var kept := Slice(matched.buf, matched.lo + n, matched.hi);
        SplitWindow(matched, n);
        entries := MergeByTime(remaining, kept);
      } else {
        result := matched;
        entries := remaining;
      }
    }
  }
}
