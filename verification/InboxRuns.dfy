/** What the inbox guarantees over one pop and over whole runs, for every interleaving of its atomic calls. */
module InboxRuns {
  import opened Prelude
  import opened Sequences
  import opened Inbox

  ghost predicate Sorted(s: seq<Entry>) {
    forall i, j | 0 <= i < j < |s| :: s[i].timestamp <= s[j].timestamp
  }

  lemma SortedTail(s: seq<Entry>)
    requires Sorted(s) && s != []
    ensures Sorted(s[1..]) && forall e <- s[1..] :: s[0].timestamp <= e.timestamp
  {
  }

  lemma SortedCons(e: Entry, s: seq<Entry>)
    requires Sorted(s) && forall x <- s :: e.timestamp <= x.timestamp
    ensures Sorted([e] + s)
  {
  }

  lemma {:induction false} FilterSorted(s: seq<Entry>, p: Entry -> bool)
    requires Sorted(s)
    ensures Sorted(Filter(s, p))
  {
    if s == [] {
    } else {
      SortedTail(s);
      FilterSorted(s[1..], p);
      FilterKeeps(s[1..], p);
      if p(s[0]) {
        SortedCons(s[0], Filter(s[1..], p));
      }
    }
  }

  // -------- The merge --------

  lemma MembersCons(x: Entry, s: seq<Entry>)
    ensures multiset([x] + s) == multiset{x} + multiset(s)
  {
  }

  lemma MembersHead(s: seq<Entry>)
    requires s != []
    ensures multiset(s) == multiset{s[0]} + multiset(s[1..])
  {
    assert s == [s[0]] + s[1..];
  }

  /** The merge by its first entry. */
  lemma MergeHead(r: seq<Entry>, k: seq<Entry>)
    requires r != [] && k != []
    ensures Merge(r, k) ==
            if r[0].timestamp <= k[0].timestamp then [r[0]] + Merge(r[1..], k) else [k[0]] + Merge(r, k[1..])
  {
  }

  lemma {:induction false} MergeMembers(r: seq<Entry>, k: seq<Entry>)
    ensures multiset(Merge(r, k)) == multiset(r) + multiset(k)
    decreases |r| + |k|
  {
    hide Merge;
    if r == [] || k == [] {
      MergeWithNothing(r);
      MergeWithNothing(k);
    } else {
      MergeHead(r, k);
      if r[0].timestamp <= k[0].timestamp {
        MergeMembers(r[1..], k);
        MembersHead(r);
        MembersCons(r[0], Merge(r[1..], k));
      } else {
        MergeMembers(r, k[1..]);
        MembersHead(k);
        MembersCons(k[0], Merge(r, k[1..]));
      }
    }
  }

  lemma MergeContains(r: seq<Entry>, k: seq<Entry>)
    ensures forall e <- Merge(r, k) :: e in r || e in k
  {
    MergeMembers(r, k);
    forall e <- Merge(r, k) ensures e in r || e in k {
      assert e in multiset(Merge(r, k));
    }
  }

  lemma {:induction false} MergeSorted(r: seq<Entry>, k: seq<Entry>)
    requires Sorted(r) && Sorted(k)
    ensures Sorted(Merge(r, k))
    decreases |r| + |k|
  {
    if r == [] || k == [] {
    } else {
      SortedTail(r);
      SortedTail(k);
      if r[0].timestamp <= k[0].timestamp {
        MergeSorted(r[1..], k);
        MergeContains(r[1..], k);
        SortedCons(r[0], Merge(r[1..], k));
      } else {
        MergeSorted(r, k[1..]);
        MergeContains(r, k[1..]);
        SortedCons(k[0], Merge(r, k[1..]));
      }
    }
  }

  /** The merge neither mixes up the order of the entries that satisfy `p` nor loses one, if only one side has any. */
  lemma {:induction false} MergeProjects(r: seq<Entry>, k: seq<Entry>, p: Entry -> bool)
    requires (forall e <- r :: !p(e)) || (forall e <- k :: !p(e))
    ensures Filter(Merge(r, k), p) == Filter(r, p) + Filter(k, p)
    decreases |r| + |k|
  {
    if r == [] || k == [] {
    } else if r[0].timestamp <= k[0].timestamp {
      MergeProjects(r[1..], k, p);
      assert ([r[0]] + Merge(r[1..], k))[1..] == Merge(r[1..], k);
    } else {
      MergeProjects(r, k[1..], p);
      assert ([k[0]] + Merge(r, k[1..]))[1..] == Merge(r, k[1..]);
      FilterTrivial(r, p);
    }
  }

  lemma {:induction false} FilterAlike(s: seq<Entry>, p: Entry -> bool, q: Entry -> bool)
    requires forall e: Entry :: p(e) == q(e)
    ensures Filter(s, p) == Filter(s, q)
  {
    if s == [] {
    } else {
      FilterAlike(s[1..], p, q);
    }
  }

  // -------- One pop --------

  /** What a pop hands out, of the alias's own entries in their order: the last one alone, or the first n, or all.
      Only a latest-only pop drops anything, namely the entries before the last. It fails exactly when there are
      entries and the length is negative. */
  lemma PopHandsOut(live: seq<Entry>, opts: PopOptions)
    ensures var o := PopFrom(live, opts);
            var mine := Filter(live, (e: Entry) => e.alias == opts.alias);
            && (o.failed <==> mine != [] && !opts.latest && opts.length.Some? && opts.length.value < 0)
            && (mine == [] || o.failed ==> o.result == [] && o.rest == live)
            && (mine != [] && opts.latest ==> o.result == [mine[|mine| - 1]] && o.dropped + o.result == mine)
            && (!opts.latest ==> o.dropped == [])
            && (!opts.latest && opts.length == None ==> o.result == mine)
            && (!opts.latest && opts.length.Some? && opts.length.value >= 0 ==>
                  |o.result| == Min(opts.length.value, |mine|) && o.result == mine[..|o.result|])
  {
    FilterAlike(live, IsOf(opts.alias), (e: Entry) => e.alias == opts.alias);
    hide Filter, Merge;
  }

  /** What a peek shows: everything for the empty alias, else the alias's own entries, each as often as it is there
      and in the order of the store. */
  lemma PeekShows(live: seq<Entry>, alias: string)
    ensures alias == "" ==> Visible(live, alias) == live
    ensures IsSubsequence(Visible(live, alias), live)
    ensures alias != "" ==>
              forall e: Entry :: multiset(Visible(live, alias))[e] == if e.alias == alias then multiset(live)[e] else 0
  {
    FilterIsSubsequence(live, Shows(alias));
    FilterTrivial(live, Shows(alias));
    forall e: Entry {
      FilterCounts(live, Shows(alias), e);
    }
  }

  /** A deposit changes nothing about an entry but a time that is missing. */
  lemma StampingKeepsTheEntry(e: Entry, now: int)
    ensures Stamped(e, now).(timestamp := e.timestamp) == e
    ensures Stamped(e, now).timestamp == if e.timestamp == 0 then now else e.timestamp
  {
  }

  /** What a pop leaves of every alias: its own entries lose a prefix, and no other alias is touched. */
  lemma PopLeaves(live: seq<Entry>, opts: PopOptions, alias: string)
    ensures var o := PopFrom(live, opts);
            var before, after := Filter(live, IsOf(alias)), Filter(o.rest, IsOf(alias));
            && (o.failed || alias != opts.alias ==> after == before)
            && (!o.failed && alias == opts.alias ==> before == o.dropped + o.result + after)
  {
    hide Filter, Merge;
    var mine, others := Filter(live, IsOf(opts.alias)), Filter(live, Not(IsOf(opts.alias)));
    var o := PopFrom(live, opts);
    if !o.failed && mine != [] {
      var kept := if opts.latest || opts.length.None? then [] else mine[Min(opts.length.value, |mine|)..];
      assert o.rest == Merge(others, kept) by { MergeWithNothing(others); }
      assert mine == o.dropped + o.result + kept;
      FilterKeeps(live, IsOf(opts.alias));
      FilterKeeps(live, Not(IsOf(opts.alias)));
      assert forall e <- kept :: e in mine;
      MergeLeaves(others, kept, opts.alias, alias);
      if alias != opts.alias {
        FilterWithin(live, IsOf(alias), Not(IsOf(opts.alias)));
      }
    }
  }

  lemma MergeLeaves(others: seq<Entry>, kept: seq<Entry>, own: string, alias: string)
    requires (forall e <- others :: e.alias != own) && (forall e <- kept :: e.alias == own)
    ensures Filter(Merge(others, kept), IsOf(alias)) == if alias == own then kept else Filter(others, IsOf(alias))
  {
    hide Filter, Merge;
    MergeProjects(others, kept, IsOf(alias));
    FilterTrivial(kept, IsOf(alias));
    FilterTrivial(others, IsOf(own));
  }

  /** A pop neither loses nor copies an entry. */
  lemma PopConserves(live: seq<Entry>, opts: PopOptions)
    ensures var o := PopFrom(live, opts);
            multiset(live) == multiset(o.result) + multiset(o.dropped) + multiset(o.rest)
  {
    var mine, others := Filter(live, IsOf(opts.alias)), Filter(live, Not(IsOf(opts.alias)));
    hide Filter, Merge;
    var o := PopFrom(live, opts);
    FilterSplits(live, IsOf(opts.alias));
    if mine != [] && !o.failed {
      if opts.latest {
        assert mine == mine[..|mine| - 1] + mine[|mine| - 1..];
      } else if opts.length.Some? {
        var n := Min(opts.length.value, |mine|);
        assert mine == mine[..n] + mine[n..];
        MergeMembers(others, mine[n..]);
      }
    }
  }

  /** A pop keeps a store that is in time order in time order. */
  lemma PopSorted(live: seq<Entry>, opts: PopOptions)
    requires Sorted(live)
    ensures Sorted(PopFrom(live, opts).rest)
  {
    var mine, others := Filter(live, IsOf(opts.alias)), Filter(live, Not(IsOf(opts.alias)));
    FilterSorted(live, IsOf(opts.alias));
    FilterSorted(live, Not(IsOf(opts.alias)));
    if mine != [] && !opts.latest && opts.length.Some? && opts.length.value >= 0 {
      MergeSorted(others, mine[Min(opts.length.value, |mine|)..]);
    }
  }

  // -------- Popping a prefix against plain deletion --------

  /** The store without its first `n` entries of the alias, everything else where it was. */
  function DeleteFirst(s: seq<Entry>, alias: string, n: nat): seq<Entry> {
    if n == 0 || s == [] then s
    else if s[0].alias == alias then DeleteFirst(s[1..], alias, n - 1)
    else [s[0]] + DeleteFirst(s[1..], alias, n)
  }

  /** Some entry of the alias stands before an entry of another alias with the same timestamp. */
  ghost predicate TiesAhead(s: seq<Entry>, alias: string) {
    exists i, j :: 0 <= i < j < |s| && s[i].alias == alias && s[j].alias != alias && s[i].timestamp == s[j].timestamp
  }

  lemma {:induction false} DeleteFirstProjects(s: seq<Entry>, alias: string, n: nat)
    ensures var mine := Filter(s, IsOf(alias)); var w := DeleteFirst(s, alias, n);
            && Filter(w, IsOf(alias)) == mine[Min(n, |mine|)..]
            && Filter(w, Not(IsOf(alias))) == Filter(s, Not(IsOf(alias)))
            && IsSubsequence(w, s)
  {
    if n == 0 || s == [] {
      SubsequenceReflexive(s);
    } else if s[0].alias == alias {
      DeleteFirstProjects(s[1..], alias, n - 1);
    } else {
      DeleteFirstProjects(s[1..], alias, n);
      var w := DeleteFirst(s[1..], alias, n);
      assert ([s[0]] + w)[1..] == w;
    }
  }

  lemma {:induction false} SubsequenceSorted(x: seq<Entry>, y: seq<Entry>)
    requires IsSubsequence(x, y) && Sorted(y)
    ensures Sorted(x) && forall e <- x :: e in y
  {
    if x == [] {
    } else {
      SortedTail(y);
      if x[0] == y[0] && IsSubsequence(x[1..], y[1..]) {
        SubsequenceSorted(x[1..], y[1..]);
        SortedCons(x[0], x[1..]);
        assert x == [x[0]] + x[1..];
      } else {
        SubsequenceSorted(x, y[1..]);
      }
    }
  }

  lemma TiesAheadCons(e: Entry, t: seq<Entry>, alias: string)
    ensures TiesAhead([e] + t, alias) <==>
            TiesAhead(t, alias) || (e.alias == alias && exists x <- t :: x.alias != alias && x.timestamp == e.timestamp)
  {
    var s := [e] + t;
    if TiesAhead(t, alias) {
      var i, j :| 0 <= i < j < |t| && t[i].alias == alias && t[j].alias != alias && t[i].timestamp == t[j].timestamp;
      assert s[i + 1] == t[i] && s[j + 1] == t[j];
    }
    if x :| x in t && e.alias == alias && x.alias != alias && x.timestamp == e.timestamp {
      var j :| 0 <= j < |t| && t[j] == x;
      assert s[0] == e && s[j + 1] == x;
    }
    if TiesAhead(s, alias) {
      var i, j :| 0 <= i < j < |s| && s[i].alias == alias && s[j].alias != alias && s[i].timestamp == s[j].timestamp;
      assert s[j] == t[j - 1];
      if i > 0 {
        assert s[i] == t[i - 1];
      }
    }
  }

  /** The merge puts the first entry first: it is not later than the next one of the other side, and earlier if it is
      the alias's own. */
  predicate HeadFirst(w: seq<Entry>, alias: string)
    requires w != []
  {
    if w[0].alias == alias then
      var others := Filter(w[1..], Not(IsOf(alias)));
      others == [] || w[0].timestamp < others[0].timestamp
    else
      var mine := Filter(w[1..], IsOf(alias));
      mine == [] || w[0].timestamp <= mine[0].timestamp
  }

  /** This holds at every entry. */
  predicate Undisturbed(w: seq<Entry>, alias: string) {
    w == [] || (HeadFirst(w, alias) && Undisturbed(w[1..], alias))
  }

  /** Splitting a store by alias and merging it again gives it back exactly when the merge disturbs no entry. */
  lemma {:induction false} MergeRestores(w: seq<Entry>, alias: string)
    ensures Merge(Filter(w, Not(IsOf(alias))), Filter(w, IsOf(alias))) == w <==> Undisturbed(w, alias)
  {
    if w == [] {
    } else {
      var x, t := w[0], w[1..];
      var r, k := Filter(t, Not(IsOf(alias))), Filter(t, IsOf(alias));
      MergeRestores(t, alias);
      FilterKeeps(t, IsOf(alias));
      FilterKeeps(t, Not(IsOf(alias)));
      assert w == [x] + t;
      if x.alias != alias {
        MergeTakesOther(x, r, k);
        SameBehind(x, Merge(r, k), t);
      } else {
        MergeTakesOwn(x, r, k);
        SameBehind(x, Merge(r, k), t);
      }
    }
  }

  lemma SameBehind(x: Entry, s: seq<Entry>, t: seq<Entry>)
    ensures [x] + s == [x] + t <==> s == t
  {
    assert ([x] + s)[1..] == s && ([x] + t)[1..] == t;
  }

  lemma MergeTakesOther(x: Entry, r: seq<Entry>, k: seq<Entry>)
    ensures k == [] || x.timestamp <= k[0].timestamp ==> Merge([x] + r, k) == [x] + Merge(r, k)
    ensures k != [] && x.timestamp > k[0].timestamp ==> Merge([x] + r, k) != [] && Merge([x] + r, k)[0] == k[0]
  {
    assert ([x] + r)[1..] == r;
    MergeWithNothing(r);
  }

  lemma MergeTakesOwn(x: Entry, r: seq<Entry>, k: seq<Entry>)
    ensures r == [] || x.timestamp < r[0].timestamp ==> Merge(r, [x] + k) == [x] + Merge(r, k)
    ensures r != [] && x.timestamp >= r[0].timestamp ==> Merge(r, [x] + k) != [] && Merge(r, [x] + k)[0] == r[0]
  {
    assert ([x] + k)[1..] == k;
    MergeWithNothing(k);
  }

  /** In a store in time order only ties can be disturbed. */
  lemma {:induction false} SortedIsUndisturbedIffNoTies(w: seq<Entry>, alias: string)
    requires Sorted(w)
    ensures Undisturbed(w, alias) <==> !TiesAhead(w, alias)
  {
    if w == [] {
    } else {
      hide Filter;
      var x, t := w[0], w[1..];
      assert w == [x] + t;
      SortedTail(w);
      SortedIsUndisturbedIffNoTies(t, alias);
      TiesAheadCons(x, t, alias);
      if x.alias == alias {
        FirstOther(x, t, alias);
      } else {
        FilterKeeps(t, IsOf(alias));
        assert Filter(t, IsOf(alias)) == [] || Filter(t, IsOf(alias))[0] in Filter(t, IsOf(alias));
      }
    }
  }

  /** In a store in time order the first entry of another alias is tied with the head exactly when any is. */
  lemma FirstOther(x: Entry, t: seq<Entry>, alias: string)
    requires x.alias == alias && Sorted([x] + t)
    ensures var r := Filter(t, Not(IsOf(alias)));
            r != [] && r[0].timestamp <= x.timestamp <==>
              exists y <- t :: y.alias != alias && y.timestamp == x.timestamp
  {
    var r := Filter(t, Not(IsOf(alias)));
    SortedTail([x] + t);
    assert ([x] + t)[1..] == t;
    FilterKeeps(t, Not(IsOf(alias)));
    FilterSorted(t, Not(IsOf(alias)));
    forall y <- t | y.alias != alias ensures y in r {
      FilterFinds(t, Not(IsOf(alias)), y);
    }
    if r != [] {
      assert r[0] in r;
    }
  }

  lemma {:induction false} FilterFinds(s: seq<Entry>, p: Entry -> bool, e: Entry)
    requires e in s && p(e)
    ensures e in Filter(s, p)
  {
    if s[0] == e {
    } else {
      FilterFinds(s[1..], p, e);
    }
  }

  /** For every store, in time order or not: popping the first n entries of an alias equals deleting them in place if
      and only if the merge disturbs none of the entries that stay. */
  lemma PopDeletesInPlaceIff(live: seq<Entry>, alias: string, n: nat)
    ensures PopFrom(live, PopOptions(alias, Some(n), false)).rest == DeleteFirst(live, alias, n) <==>
            Undisturbed(DeleteFirst(live, alias, n), alias)
  {
    var w := DeleteFirst(live, alias, n);
    DeleteFirstProjects(live, alias, n);
    MergeRestores(w, alias);
    if Filter(live, IsOf(alias)) == [] {
      NothingToDelete(live, alias, n);
      MergeWithNothing(live);
    }
  }

  /** The comment in the source says that ties keep their order. On a store in time order, popping the first n
      entries of an alias equals deleting them in place if and only if no entry of the alias that stays has a
      timestamp in common with an entry of another alias behind it; otherwise the merge moves that other entry
      forward. */
  lemma PopDeletesInPlaceIffNoTies(live: seq<Entry>, alias: string, n: nat)
    requires Sorted(live)
    ensures PopFrom(live, PopOptions(alias, Some(n), false)).rest == DeleteFirst(live, alias, n) <==>
            !TiesAhead(DeleteFirst(live, alias, n), alias)
  {
    hide PopFrom, Undisturbed, TiesAhead;
    PopDeletesInPlaceIff(live, alias, n);
    DeleteFirstProjects(live, alias, n);
    SubsequenceSorted(DeleteFirst(live, alias, n), live);
    SortedIsUndisturbedIffNoTies(DeleteFirst(live, alias, n), alias);
  }

  lemma {:induction false} NothingToDelete(s: seq<Entry>, alias: string, n: nat)
    requires Filter(s, IsOf(alias)) == []
    ensures DeleteFirst(s, alias, n) == s && Filter(s, Not(IsOf(alias))) == s
  {
    if s == [] {
    } else {
      NothingToDelete(s[1..], alias, n);
      assert s == [s[0]] + s[1..];
    }
  }

  /** In particular it does when no two entries share a timestamp. */
  lemma PopDeletesInPlaceWithDistinctTimes(live: seq<Entry>, alias: string, n: nat)
    requires StrictlySorted(live)
    ensures PopFrom(live, PopOptions(alias, Some(n), false)).rest == DeleteFirst(live, alias, n)
  {
    PopDeletesInPlaceIffNoTies(live, alias, n);
    DeleteFirstProjects(live, alias, n);
    SubsequenceStrictlySorted(DeleteFirst(live, alias, n), live);
  }

  ghost predicate StrictlySorted(s: seq<Entry>) {
    forall i, j | 0 <= i < j < |s| :: s[i].timestamp < s[j].timestamp
  }

  lemma {:induction false} SubsequenceStrictlySorted(x: seq<Entry>, y: seq<Entry>)
    requires IsSubsequence(x, y) && StrictlySorted(y)
    ensures StrictlySorted(x) && forall e <- x :: e in y
  {
    if x == [] {
    } else {
      if x[0] == y[0] && IsSubsequence(x[1..], y[1..]) {
        SubsequenceStrictlySorted(x[1..], y[1..]);
        assert forall i | 0 < i < |x| :: x[i] in y[1..] by {
          assert forall i | 0 < i < |x| :: x[i] == x[1..][i - 1];
        }
      } else {
        SubsequenceStrictlySorted(x, y[1..]);
      }
    }
  }

  /** A store where the order does change: the tie behind the alias's entry overtakes it although nothing was popped. */
  lemma TieOvertakes(a: Entry, b: Entry)
    requires a.alias != b.alias && a.timestamp == b.timestamp
    ensures PopFrom([a, b], PopOptions(a.alias, Some(0), false)).rest == [b, a]
  {
    assert [a, b][1..] == [b] && [b][1..] == [];
    assert Filter([b], IsOf(a.alias)) == [] && Filter([b], Not(IsOf(a.alias))) == [b];
    assert Filter([a, b], IsOf(a.alias)) == [a] && Filter([a, b], Not(IsOf(a.alias))) == [b];
    assert Merge([b], [a]) == [b] + Merge([b][1..], [a]);
  }

  // -------- Pruning --------

  /** Pruning splits the store, and keeps exactly what is not older than the TTL. */
  lemma PruneConserves(s: seq<Entry>, ttl: int, now: int)
    ensures multiset(s) == multiset(Live(s, ttl, now)) + multiset(Expired(s, ttl, now))
    ensures forall e <- Live(s, ttl, now) :: e in s && (ttl > 0 ==> now - e.timestamp <= ttl)
    ensures forall e <- Expired(s, ttl, now) :: e in s && ttl > 0 && now - e.timestamp > ttl
  {
    FilterSplits(s, NotBefore(now - ttl));
    FilterKeeps(s, NotBefore(now - ttl));
    FilterKeeps(s, Not(NotBefore(now - ttl)));
  }

  /** From a store in time order pruning removes a prefix. */
  lemma {:induction false} PruneRemovesPrefix(s: seq<Entry>, ttl: int, now: int)
    requires Sorted(s)
    ensures var gone := Expired(s, ttl, now);
            |gone| <= |s| && gone == s[..|gone|] && Live(s, ttl, now) == s[|gone|..]
  {
    if ttl <= 0 || s == [] {
    } else {
      SortedTail(s);
      if s[0].timestamp >= now - ttl {
        FilterTrivial(s, NotBefore(now - ttl));
        FilterTrivial(s, Not(NotBefore(now - ttl)));
      } else {
        PruneRemovesPrefix(s[1..], ttl, now);
        assert s == [s[0]] + s[1..];
      }
    }
  }

  /** Nothing older than the TTL is ever handed out. */
  lemma ReturnedEntriesAreFresh(store: seq<Entry>, ttl: int, now: int, opts: PopOptions, alias: string)
    requires ttl > 0
    ensures forall e <- PopFrom(Live(store, ttl, now), opts).result :: e in store && now - e.timestamp <= ttl
    ensures forall e <- Visible(Live(store, ttl, now), alias) :: e in store && now - e.timestamp <= ttl
  {
    var live := Live(store, ttl, now);
    PruneConserves(store, ttl, now);
    FilterKeeps(live, IsOf(opts.alias));
    FilterKeeps(live, Shows(alias));
  }

  /** A peek disturbs nothing: pruning again at the same time changes nothing, and popping everything then returns what
      the peek for that alias showed. */
  lemma PeekForetellsPop(store: seq<Entry>, ttl: int, now: int, alias: string)
    requires alias != ""
    ensures var live := Live(store, ttl, now);
            && Live(live, ttl, now) == live
            && PopFrom(Live(live, ttl, now), PopOptions(alias, None, false)).result == Visible(live, alias)
  {
    var live := Live(store, ttl, now);
    FilterKeeps(store, NotBefore(now - ttl));
    FilterTrivial(live, NotBefore(now - ttl));
    FilterAlike(live, IsOf(alias), Shows(alias));
  }

  // -------- Runs --------

  datatype Call = Deposit(entry: Entry) | Peek(alias: string) | Pop(opts: PopOptions)

  /** One atomic call, made when the clock shows `now`. */
  datatype Step = Step(call: Call, now: int)

  /** The store, and everything that ever went in and came out, in order. */
  datatype Ledger = Ledger(store: seq<Entry>, deposited: seq<Entry>, delivered: seq<Entry>, dropped: seq<Entry>,
                           expired: seq<Entry>)

  function Apply(ttl: int, l: Ledger, step: Step): Ledger {
    match step.call
    case Deposit(e) =>
      l.(store := l.store + [Stamped(e, step.now)], deposited := l.deposited + [Stamped(e, step.now)])
    case Peek(_) =>
      l.(store := Live(l.store, ttl, step.now), expired := l.expired + Expired(l.store, ttl, step.now))
    case Pop(opts) =>
      var o := PopFrom(Live(l.store, ttl, step.now), opts);
      l.(store := o.rest, expired := l.expired + Expired(l.store, ttl, step.now),
         delivered := l.delivered + o.result, dropped := l.dropped + o.dropped)
  }

  function Run(ttl: int, steps: seq<Step>): Ledger {
    if steps == [] then Ledger([], [], [], [], [])
    else Apply(ttl, Run(ttl, steps[..|steps| - 1]), steps[|steps| - 1])
  }

  /** What a call returns: a pop the entries it takes, a peek those it shows, a deposit nothing. */
  function Answer(ttl: int, l: Ledger, step: Step): seq<Entry> {
    match step.call
    case Deposit(_) => []
    case Peek(alias) => Visible(Live(l.store, ttl, step.now), alias)
    case Pop(opts) => PopFrom(Live(l.store, ttl, step.now), opts).result
  }

  /** The entries that pops returned, in order. */
  function PopAnswers(steps: seq<Step>, answers: seq<seq<Entry>>): seq<Entry>
    requires |steps| == |answers|
  {
    if steps == [] then []
    else
      var n := |steps| - 1;
      PopAnswers(steps[..n], answers[..n]) + if steps[n].call.Pop? then answers[n] else []
  }

  lemma RunStep(ttl: int, before: seq<Step>, step: Step)
    ensures var l := Run(ttl, before); var l' := Run(ttl, before + [step]);
            && l' == Apply(ttl, l, step)
            && l'.delivered == l.delivered + if step.call.Pop? then Answer(ttl, l, step) else []
  {
    assert (before + [step])[..|before|] == before;
  }

  /** A pop in a run hands out the first entries, or the last one, of what its alias then has within the TTL, and adds
      just those to what the run has delivered. */
  lemma PopDelivers(ttl: int, before: seq<Step>, opts: PopOptions, now: int)
    ensures var mine := Filter(Live(Run(ttl, before).store, ttl, now), (e: Entry) => e.alias == opts.alias);
            var n := if opts.length.None? || opts.length.value > |mine| then |mine| else opts.length.value;
            var answer := Answer(ttl, Run(ttl, before), Step(Pop(opts), now));
            && answer == (if mine == [] || (!opts.latest && n < 0) then []
                          else if opts.latest then [mine[|mine| - 1]]
                          else mine[..n])
            && Run(ttl, before + [Step(Pop(opts), now)]).delivered == Run(ttl, before).delivered + answer
  {
    hide Run, Live, PopFrom, Filter;
    PopHandsOut(Live(Run(ttl, before).store, ttl, now), opts);
    RunStep(ttl, before, Step(Pop(opts), now));
  }

  /** Each answer is that of its step in the ledger, and those of the pops are what the ledger counts as delivered. */
  ghost predicate Follows(ttl: int, before: seq<Step>, steps: seq<Step>, answers: seq<seq<Entry>>) {
    && |answers| == |steps|
    && (forall k | 0 <= k < |steps| :: answers[k] == Answer(ttl, Run(ttl, before + steps[..k]), steps[k]))
    && Run(ttl, before + steps).delivered == Run(ttl, before).delivered + PopAnswers(steps, answers)
  }

  lemma NothingFollows(ttl: int, before: seq<Step>)
    ensures before + [] == before && Follows(ttl, before, [], [])
  {
    assert before + [] == before;
  }

  lemma FollowsStep(ttl: int, before: seq<Step>, steps: seq<Step>, answers: seq<seq<Entry>>, step: Step)
    requires Follows(ttl, before, steps, answers)
    ensures Run(ttl, before + (steps + [step])) == Apply(ttl, Run(ttl, before + steps), step)
    ensures Follows(ttl, before, steps + [step], answers + [Answer(ttl, Run(ttl, before + steps), step)])
  {
    hide Run, Answer, Apply;
    RunStep(ttl, before + steps, step);
    assert before + (steps + [step]) == before + steps + [step];
    var steps', answers' := steps + [step], answers + [Answer(ttl, Run(ttl, before + steps), step)];
    assert steps'[..|steps|] == steps && answers'[..|steps|] == answers;
    assert forall k | 0 <= k < |steps| :: steps'[..k] == steps[..k];
  }

  /** The inbox object performs exactly these steps, and its answers are slices with an array of their own. */
  method Perform(inbox: MemoryInbox, step: Step, ghost l: Ledger) returns (result: Slice)
    requires inbox.Valid() && inbox.Contents() == l.store
    modifies inbox, inbox.entries.buf
    ensures inbox.Valid() && inbox.Contents() == Apply(inbox.ttl, l, step).store
    ensures inbox.entries.buf == old(inbox.entries.buf) || fresh(inbox.entries.buf)
    ensures result.Valid() && fresh(result.buf) && result.buf != inbox.entries.buf
    ensures result.Elements() == Answer(inbox.ttl, l, step)
  {
    match step.call {
      case Deposit(e) =>
        inbox.Deposit(e, step.now);
        result := EmptySlice();
      case Peek(alias) =>
        result := inbox.Peek(alias, step.now);
      case Pop(opts) =>
        var failed;
        failed, result := inbox.Pop(opts, step.now);
    }
  }

  /** The slices read as the answers, and none is over the array of the inbox. */
  ghost predicate Readable(inbox: MemoryInbox, results: seq<Slice>, answers: seq<seq<Entry>>)
    reads inbox, set k | 0 <= k < |results| :: results[k].buf
  {
    && |results| == |answers|
    && forall k | 0 <= k < |results| ::
      results[k].Valid() && results[k].buf != inbox.entries.buf && results[k].Elements() == answers[k]
  }

  /** Any run, from any state some earlier run has led to: the object ends in the store of the ledger; every slice a
      call returned still reads at the end as it did at first, whatever was compacted or merged since, as does one
      held from before; and the slices of the pops make up what the ledger counts as delivered. */
  method PerformAll(inbox: MemoryInbox, steps: seq<Step>, held: Slice, ghost before: seq<Step>)
    returns (results: seq<Slice>, ghost answers: seq<seq<Entry>>)
    requires inbox.Valid() && inbox.Contents() == Run(inbox.ttl, before).store
    requires held.Valid() && held.buf != inbox.entries.buf
    modifies inbox, inbox.entries.buf
    ensures inbox.Valid() && inbox.Contents() == Run(inbox.ttl, before + steps).store
    ensures held.buf != inbox.entries.buf && held.Elements() == old(held.Elements())
    ensures Readable(inbox, results, answers) && Follows(inbox.ttl, before, steps, answers)
  {
    hide Apply, Answer, Run, Follows;
    results, answers := [], [];
    NothingFollows(inbox.ttl, before);
    for i := 0 to |steps|
      invariant inbox.Valid() && inbox.Contents() == Run(inbox.ttl, before + steps[..i]).store
      invariant inbox.entries.buf == old(inbox.entries.buf) || fresh(inbox.entries.buf)
      invariant held.Elements() == old(held.Elements())
      invariant Readable(inbox, results, answers) && Follows(inbox.ttl, before, steps[..i], answers)
    {
      var result := Perform(inbox, steps[i], Run(inbox.ttl, before + steps[..i]));
      FollowsStep(inbox.ttl, before, steps[..i], answers, steps[i]);
      assert steps[..i + 1] == steps[..i] + [steps[i]];
      results, answers := results + [result], answers + [result.Elements()];
    }
    assert steps[..|steps|] == steps;
  }

  /** Every deposited entry is, counted with multiplicity, in exactly one place: delivered by a pop, discarded by a
      latest-only pop, expired, or still in the store. For every run, every clock and all timestamps. */
  lemma {:induction false} Conservation(ttl: int, steps: seq<Step>)
    ensures Balanced(Run(ttl, steps))
  {
    if steps == [] {
    } else {
      Conservation(ttl, steps[..|steps| - 1]);
      StepConserves(ttl, Run(ttl, steps[..|steps| - 1]), steps[|steps| - 1]);
    }
  }

  /** So an entry deposited once is handed out at most once, and once handed out is nowhere else. */
  lemma NoSecondDelivery(ttl: int, steps: seq<Step>, e: Entry)
    requires multiset(Run(ttl, steps).deposited)[e] == 1
    ensures var l := Run(ttl, steps);
            && multiset(l.delivered)[e] <= 1
            && (e in l.delivered ==> e !in l.store && e !in l.dropped && e !in l.expired)
  {
    hide Run;
    Conservation(ttl, steps);
    var l := Run(ttl, steps);
    assert e in l.delivered <==> multiset(l.delivered)[e] > 0;
    assert e in l.store <==> multiset(l.store)[e] > 0;
    assert e in l.dropped <==> multiset(l.dropped)[e] > 0;
    assert e in l.expired <==> multiset(l.expired)[e] > 0;
  }

  ghost predicate Balanced(l: Ledger) {
    multiset(l.deposited) == multiset(l.delivered) + multiset(l.dropped) + multiset(l.expired) + multiset(l.store)
  }

  lemma StepConserves(ttl: int, l: Ledger, step: Step)
    requires Balanced(l)
    ensures Balanced(Apply(ttl, l, step))
  {
    hide PopFrom, Live, Expired, Stamped;
    PruneConserves(l.store, ttl, step.now);
    if step.call.Pop? {
      PopConserves(Live(l.store, ttl, step.now), step.call.opts);
    }
  }

  /** The concatenated results of all pops for one alias. */
  function PoppedFor(ttl: int, steps: seq<Step>, alias: string): seq<Entry> {
    if steps == [] then []
    else
      var before, step := steps[..|steps| - 1], steps[|steps| - 1];
      if step.call.Pop? && step.call.opts.alias == alias then
        PoppedFor(ttl, before, alias) + PopFrom(Live(Run(ttl, before).store, ttl, step.now), step.call.opts).result
      else PoppedFor(ttl, before, alias)
  }

  /** First in, first out: for every alias, what its pops have returned so far followed by what is still pending is a
      subsequence of its deposits in deposit order. No assumption on clocks or timestamps. */
  lemma {:induction false} FifoPerAlias(ttl: int, steps: seq<Step>, alias: string)
    ensures var l := Run(ttl, steps);
            IsSubsequence(PoppedFor(ttl, steps, alias) + Filter(l.store, IsOf(alias)), Filter(l.deposited, IsOf(alias)))
  {
    if steps == [] {
      assert PoppedFor(ttl, steps, alias) + Filter(Run(ttl, steps).store, IsOf(alias)) == [];
    } else {
      hide PopFrom, Live, Expired, IsSubsequence, Filter;
      var before, step := steps[..|steps| - 1], steps[|steps| - 1];
      var l := Run(ttl, before);
      FifoPerAlias(ttl, before, alias);
      if step.call.Deposit? {
        DepositKeepsOrder(PoppedFor(ttl, before, alias), l.store, l.deposited, Stamped(step.call.entry, step.now),
          alias);
      } else {
        PruneKeepsOrder(PoppedFor(ttl, before, alias), l.store, l.deposited, ttl, step.now, alias);
        if step.call.Pop? {
          PopKeepsOrder(PoppedFor(ttl, before, alias), Live(l.store, ttl, step.now), l.deposited, step.call.opts,
            alias);
        }
      }
    }
  }

  lemma DepositKeepsOrder(popped: seq<Entry>, store: seq<Entry>, deposited: seq<Entry>, e: Entry, alias: string)
    requires IsSubsequence(popped + Filter(store, IsOf(alias)), Filter(deposited, IsOf(alias)))
    ensures IsSubsequence(popped + Filter(store + [e], IsOf(alias)), Filter(deposited + [e], IsOf(alias)))
  {
    hide IsSubsequence;
    var added := Filter([e], IsOf(alias));
    FilterConcat(store, [e], IsOf(alias));
    FilterConcat(deposited, [e], IsOf(alias));
    SubsequenceReflexive(added);
    SubsequenceConcat(popped + Filter(store, IsOf(alias)), Filter(deposited, IsOf(alias)), added, added);
    assert popped + (Filter(store, IsOf(alias)) + added) == popped + Filter(store, IsOf(alias)) + added;
  }

  lemma PruneKeepsOrder(popped: seq<Entry>, store: seq<Entry>, deposited: seq<Entry>, ttl: int, now: int, alias: string)
    requires IsSubsequence(popped + Filter(store, IsOf(alias)), Filter(deposited, IsOf(alias)))
    ensures IsSubsequence(popped + Filter(Live(store, ttl, now), IsOf(alias)), Filter(deposited, IsOf(alias)))
  {
    hide IsSubsequence;
    if ttl > 0 {
      var mine := Filter(store, IsOf(alias));
      FilterCommutes(store, IsOf(alias), NotBefore(now - ttl));
      var pruned := Filter(mine, NotBefore(now - ttl));
      FilterIsSubsequence(mine, NotBefore(now - ttl));
      SubsequenceReflexive(popped);
      SubsequenceConcat(popped, popped, pruned, mine);
      SubsequenceTransitive(popped + pruned, popped + mine, Filter(deposited, IsOf(alias)));
    }
  }

  lemma PopKeepsOrder(popped: seq<Entry>, live: seq<Entry>, deposited: seq<Entry>, opts: PopOptions, alias: string)
    requires IsSubsequence(popped + Filter(live, IsOf(alias)), Filter(deposited, IsOf(alias)))
    ensures var o := PopFrom(live, opts);
            IsSubsequence((if opts.alias == alias then popped + o.result else popped) + Filter(o.rest, IsOf(alias)),
                          Filter(deposited, IsOf(alias)))
  {
    hide IsSubsequence, PopFrom, Filter;
    var o := PopFrom(live, opts);
    PopLeaves(live, opts, alias);
    FailedPopReturnsNothing(live, opts);
    if opts.alias == alias {
      if o.failed {
        assert popped + [] == popped;
      } else {
        DropMiddle(popped, o.dropped, o.result, Filter(o.rest, IsOf(alias)), Filter(deposited, IsOf(alias)));
      }
    }
  }

  lemma DropMiddle(x: seq<Entry>, d: seq<Entry>, y: seq<Entry>, z: seq<Entry>, all: seq<Entry>)
    requires IsSubsequence(x + (d + y + z), all)
    ensures IsSubsequence(x + y + z, all)
  {
    hide IsSubsequence;
    DropFront(x, d, y + z);
    assert d + (y + z) == d + y + z && x + (y + z) == x + y + z;
    SubsequenceTransitive(x + y + z, x + (d + y + z), all);
  }

  lemma FailedPopReturnsNothing(live: seq<Entry>, opts: PopOptions)
    ensures var o := PopFrom(live, opts); o.failed ==> o.result == [] && o.dropped == []
  {
  }

  lemma DropFront(x: seq<Entry>, y: seq<Entry>, z: seq<Entry>)
    ensures IsSubsequence(x + z, x + (y + z))
  {
    SubsequenceReflexive(x);
    SubsequenceReflexive(z);
    SubsequenceConcat([], y, z, z);
    assert [] + z == z;
    SubsequenceConcat(x, x, z, y + z);
  }

  // -------- Runs under a monotone clock --------

  /** Deposits leave the timestamp to the inbox, and the clock never goes back. */
  ghost predicate ClockFed(steps: seq<Step>) {
    && (forall i, j | 0 <= i < j < |steps| :: steps[i].now <= steps[j].now)
    && (forall i | 0 <= i < |steps| && steps[i].call.Deposit? :: steps[i].call.entry.timestamp == ZERO_TIME)
  }

  /** The store then is in time order, and holds nothing from the future: so each pruning removes a prefix of it. */
  lemma {:induction false} ClockFedStoreIsSorted(ttl: int, steps: seq<Step>)
    requires ClockFed(steps)
    ensures Sorted(Run(ttl, steps).store)
    ensures steps != [] ==> forall e <- Run(ttl, steps).store :: e.timestamp <= steps[|steps| - 1].now
  {
    if steps == [] {
    } else {
      hide PopFrom, Live;
      var before, step := steps[..|steps| - 1], steps[|steps| - 1];
      var l := Run(ttl, before);
      ClockFedStoreIsSorted(ttl, before);
      if before == [] {
        assert l.store == [];
      } else {
        assert steps[|before| - 1].now <= step.now;
      }
      if !step.call.Deposit? {
        var live := Live(l.store, ttl, step.now);
        PruneRemovesPrefix(l.store, ttl, step.now);
        assert Sorted(live) && forall e <- live :: e in l.store;
        if step.call.Pop? {
          PopSorted(live, step.call.opts);
          PopRestIsOld(live, step.call.opts);
        }
      }
    }
  }

  lemma PopRestIsOld(live: seq<Entry>, opts: PopOptions)
    ensures forall e <- PopFrom(live, opts).rest :: e in live
  {
    PopConserves(live, opts);
    forall e <- PopFrom(live, opts).rest ensures e in live {
      assert e in multiset(PopFrom(live, opts).rest);
      assert e in multiset(live);
    }
  }

  lemma ClockFedPruningRemovesPrefix(ttl: int, steps: seq<Step>, now: int)
    requires ClockFed(steps)
    ensures var store := Run(ttl, steps).store; var gone := Expired(store, ttl, now);
            |gone| <= |store| && gone == store[..|gone|] && Live(store, ttl, now) == store[|gone|..]
  {
    ClockFedStoreIsSorted(ttl, steps);
    PruneRemovesPrefix(Run(ttl, steps).store, ttl, now);
  }
}
