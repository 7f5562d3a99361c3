/** The two history backends and the history tools (history/, internal/tool/tool_history.go). */
module History {
  import opened Prelude
  import opened Sequences

  function Stored<E>(entries: map<string, seq<E>>, alias: string): seq<E> {
    if alias in entries then entries[alias] else []
  }

  /** How many entries a history holds at most. */
  type Depth = d: int | d >= 1 witness 1

  /** What the memory backend keeps when an entry is about to be added: it gives up at most one. */
  function DropOldest<E>(entries: seq<E>, depth: int): seq<E>
    requires depth >= 1
  {
    if |entries| >= depth then entries[1..] else entries
  }

  /** What the file backend keeps: it gives up as many as needed. */
  function MakeRoom<E>(entries: seq<E>, depth: int): seq<E>
    requires depth >= 1
  {
    if |entries| >= depth then entries[|entries| - depth + 1..] else entries
  }

  class MemoryBackend<E> {
    var entries: map<string, seq<E>>
    const depth: int

    constructor (depth: int)
      ensures entries == map[] && this.depth == depth
    {
      entries := map[];
      this.depth := depth;
    }

    /** With a depth below 1 the source slices an empty list and fails. */
    method Append(alias: string, entry: E)
      requires depth >= 1
      modifies this
      ensures entries.Keys == old(entries).Keys + {alias}
      ensures forall a | a in old(entries) && a != alias :: entries[a] == old(entries)[a]
      ensures var before := Stored(old(entries), alias);
              entries[alias] == DropOldest(before, depth) + [entry]
    {
      var kept := Stored(entries, alias);
      if |kept| >= depth {
        kept := kept[1..];
      }
      entries := entries[alias := kept + [entry]];
    }

    function List(alias: string): seq<E>
      reads this
    {
      Stored(entries, alias)
    }

    /** Clear does the same. */
    method Delete(alias: string)
      modifies this
      ensures entries == old(entries) - {alias}
    {
      entries := entries - {alias};
    }
  }

  /** Each file is the sequence of entries it encodes; a missing file is a missing key. */
  class FileBackend<E> {
    var files: map<string, seq<E>>
    var locks: set<string>
    const depth: int

    constructor (depth: int, files: map<string, seq<E>>)
      requires depth >= 1
      ensures this.files == files && this.depth == depth
    {
      this.files := files;
      locks := {};
      this.depth := depth;
    }

    method AliasLock(alias: string)
      modifies this`locks
      ensures locks == old(locks) + {alias}
    {
      if alias !in locks {
        locks := locks + {alias};
      }
    }

    /** `readable` and `writable` are the outcomes of reading the file and of writing it; a file that cannot be written
        is left as it was. */
    method Append(alias: string, entry: E, readable: bool, writable: bool) returns (ok: bool)
      requires depth >= 1
      modifies this
      ensures ok == (readable && writable)
      ensures !ok ==> files == old(files)
      ensures ok ==>
                && files.Keys == old(files).Keys + {alias}
                && (forall a | a in old(files) && a != alias :: files[a] == old(files)[a])
                && files[alias] == MakeRoom(Stored(old(files), alias), depth) + [entry]
    {
      AliasLock(alias);
      if !readable {
        return false;
      }
      var kept := Stored(files, alias);
      if |kept| >= depth {
        kept := kept[|kept| - depth + 1..];
      }
      kept := kept + [entry];
      if !writable {
        return false;
      }
      files := files[alias := kept];
      return true;
    }

    function List(alias: string): seq<E>
      reads this
    {
      Stored(files, alias)
    }

    /** Clear does the same; removing a file that is not there is no error. */
    method Delete(alias: string)
      modifies this
      ensures files == old(files) - {alias}
    {
      AliasLock(alias);
      files := files - {alias};
    }
  }

  // -------- Both backends as functions of the operations performed --------

  datatype Op<E> = Append(alias: string, entry: E) | Delete(alias: string)

  function MemoryStep<E>(entries: map<string, seq<E>>, op: Op<E>, depth: int): map<string, seq<E>>
    requires depth >= 1
  {
    match op
    case Append(alias, entry) =>
      var before := Stored(entries, alias);
      entries[alias := DropOldest(before, depth) + [entry]]
    case Delete(alias) => entries - {alias}
  }

  function FileStep<E>(files: map<string, seq<E>>, op: Op<E>, depth: int): map<string, seq<E>>
    requires depth >= 1
  {
    match op
    case Append(alias, entry) =>
      var before := Stored(files, alias);
      files[alias := MakeRoom(before, depth) + [entry]]
    case Delete(alias) => files - {alias}
  }

  /** Performs each operation on a backend of each kind. */
  method Perform<E>(memory: MemoryBackend<E>, file: FileBackend<E>, op: Op<E>)
    requires memory.depth >= 1 && file.depth >= 1
    modifies memory, file
    ensures memory.entries == MemoryStep(old(memory.entries), op, memory.depth)
    ensures file.files == FileStep(old(file.files), op, file.depth)
  {
    match op {
      case Append(alias, entry) =>
        memory.Append(alias, entry);
        var ok := file.Append(alias, entry, true, true);
      case Delete(alias) =>
        memory.Delete(alias);
        file.Delete(alias);
    }
  }

  function MemoryRun<E>(ops: seq<Op<E>>, depth: int): map<string, seq<E>>
    requires depth >= 1
  {
    if ops == [] then map[] else MemoryStep(MemoryRun(ops[..|ops| - 1], depth), ops[|ops| - 1], depth)
  }

  function FileRun<E>(files: map<string, seq<E>>, ops: seq<Op<E>>, depth: int): map<string, seq<E>>
    requires depth >= 1
  {
    if ops == [] then files else FileStep(FileRun(files, ops[..|ops| - 1], depth), ops[|ops| - 1], depth)
  }

  /** Everything recorded for an alias since its last deletion, on top of what was there at the start. */
  function Recorded<E>(initial: seq<E>, ops: seq<Op<E>>, alias: string): seq<E> {
    if ops == [] then initial
    else
      var op := ops[|ops| - 1];
      var before := Recorded(initial, ops[..|ops| - 1], alias);
      if op.alias != alias then before
      else if op.Delete? then []
      else before + [op.entry]
  }

  lemma LastNOfNothing<E>(depth: nat)
    ensures LastN<E>([], depth) == []
  {
  }

  lemma DropOldestKeepsLatest<E>(all: seq<E>, entry: E, depth: int)
    requires depth >= 1
    ensures DropOldest(LastN(all, depth), depth) + [entry] == LastN(all + [entry], depth)
  {
  }

  lemma MakeRoomKeepsLatest<E>(all: seq<E>, entry: E, depth: int)
    requires depth >= 1
    ensures MakeRoom(LastN(all, depth), depth) + [entry] == LastN(all + [entry], depth)
    ensures MakeRoom(all, depth) + [entry] == LastN(all + [entry], depth)
  {
  }

  /** The memory backend lists exactly the last `depth` entries recorded since the last deletion. */
  lemma {:induction false} MemoryKeepsLatest<E>(ops: seq<Op<E>>, depth: int, alias: string)
    requires depth >= 1
    ensures Stored(MemoryRun(ops, depth), alias) == LastN(Recorded([], ops, alias), depth)
  {
    if ops == [] {
      LastNOfNothing<E>(depth);
    } else {
      hide LastN, DropOldest;
      MemoryKeepsLatest(ops[..|ops| - 1], depth, alias);
      var op := ops[|ops| - 1];
      if op.alias == alias && op.Append? {
        DropOldestKeepsLatest(Recorded([], ops[..|ops| - 1], alias), op.entry, depth);
      } else if op.alias == alias {
        LastNOfNothing<E>(depth);
      }
    }
  }

  /** Some operation concerns the alias. */
  predicate Touched<E>(ops: seq<Op<E>>, alias: string) {
    ops != [] && (ops[|ops| - 1].alias == alias || Touched(ops[..|ops| - 1], alias))
  }

  /** The file backend does too, and trims a file left over from a larger depth at the first operation on its alias;
      until then such a file is listed whole. */
  lemma {:induction false} FileKeepsLatest<E>(files: map<string, seq<E>>, ops: seq<Op<E>>, depth: int, alias: string)
    requires depth >= 1
    ensures var all := Recorded(Stored(files, alias), ops, alias);
            Stored(FileRun(files, ops, depth), alias) ==
              if Touched(ops, alias) then LastN(all, depth) else Stored(files, alias)
    ensures !Touched(ops, alias) ==> Recorded(Stored(files, alias), ops, alias) == Stored(files, alias)
  {
    if ops == [] {
    } else {
      hide LastN, MakeRoom;
      FileKeepsLatest(files, ops[..|ops| - 1], depth, alias);
      var op := ops[|ops| - 1];
      if op.alias == alias && op.Append? {
        MakeRoomKeepsLatest(Recorded(Stored(files, alias), ops[..|ops| - 1], alias), op.entry, depth);
      } else if op.alias == alias {
        LastNOfNothing<E>(depth);
      }
    }
  }

  /** From an empty directory the two backends list the same entries after the same operations. */
  lemma BackendsAgree<E>(ops: seq<Op<E>>, depth: int, alias: string)
    requires depth >= 1
    ensures Stored(MemoryRun(ops, depth), alias) == Stored(FileRun(map[], ops, depth), alias)
  {
    MemoryKeepsLatest(ops, depth, alias);
    FileKeepsLatest(map[], ops, depth, alias);
    if !Touched(ops, alias) {
      assert LastN(Recorded([], ops, alias), depth) == [];
    }
  }

  // -------- The get_history tool --------

  datatype HistoryError = AliasRequired | NotRegistered

  method GetHistory<E>(registered: set<string>, backend: MemoryBackend<E>, agent: string, limit: Option<int>)
    returns (r: Result<seq<E>, HistoryError>)
    ensures r == if agent == "" then Err(AliasRequired)
                 else if agent !in registered then Err(NotRegistered)
                 else Ok(Shown(Stored(backend.entries, agent), limit))
  {
    if agent == "" {
      return Err(AliasRequired);
    }
    if agent !in registered {
      return Err(NotRegistered);
    }
    var entries := backend.List(agent);
    if limit.Some? && limit.value > 0 && |entries| > limit.value {
      entries := entries[|entries| - limit.value..];
    }
    return Ok(entries);
  }

  /** A limit that is missing or not positive shows everything. */
  function Shown<E>(entries: seq<E>, limit: Option<int>): seq<E> {
    if limit.Some? && limit.value > 0 then LastN(entries, limit.value) else entries
  }

  /** A tool call with limit L shows the last min(L, depth) entries recorded since the last deletion. */
  lemma ShownHistory<E>(ops: seq<Op<E>>, depth: int, alias: string, limit: Option<int>)
    requires depth >= 1
    ensures var n := if limit.Some? && limit.value > 0 then Min(limit.value, depth) else depth;
            Shown(Stored(MemoryRun(ops, depth), alias), limit) == LastN(Recorded([], ops, alias), n)
  {
    MemoryKeepsLatest(ops, depth, alias);
    if limit.Some? && limit.value > 0 {
      LastNLastN(Recorded([], ops, alias), depth, limit.value);
    }
  }
}
