/** The sweeps and `main()` as the tool runs them: loops over the candidate
    tables that call `runCMD`, record the archive total in the `info` dict
    and remove the archives again, each proved to do what its counterpart
    in `Sweeps` and `Search` describes. */
module Tuner {
  import opened Outcomes
  import opened PyText
  import opened OrderedTable
  import opened Candidates
  import opened CommandLine
  import opened Workspace
  import opened Invoker
  import opened Bounds
  import opened Sweeps
  import opened Search
  import opened Seqs

  /** The loop so far has run the body for `done`: the dict, the directory and
      the command log are what `Swept` gives. */
  predicate SweptTo(e: Listing, path: string, compress: Compressor, fixed: Args, slot: Slot, done: seq<Arg>,
                    table: Table<Arg>, entries: Listing, runs0: seq<seq<string>>, runs: seq<seq<string>>) {
    var s := Swept(e, path, compress, fixed, slot, done);
    table == s.info && entries == s.after && runs == runs0 + s.runs
  }

  /** One more loop body extends `done` by its key. */
  lemma SweptToStep(e: Listing, path: string, compress: Compressor, fixed: Args, slot: Slot, done: seq<Arg>, key: Arg,
                    table: Table<Arg>, entries: Listing, runs0: seq<seq<string>>, runs: seq<seq<string>>)
    requires SweptTo(e, path, compress, fixed, slot, done, table, entries, runs0, runs)
    ensures var written := RunAll(entries, path, Fill(fixed, slot, key), compress);
            SweptTo(e, path, compress, fixed, slot, done + [key],
                    Put(table, key, ArchiveTotal(written)), Clean(written),
                    runs0, runs + Commands(path, Fill(fixed, slot, key), Directories(entries)))
  {
    var s := Swept(e, path, compress, fixed, slot, done);
    assert (done + [key])[..|done|] == done;
    AppendAssoc(runs0, s.runs, Commands(path, Fill(fixed, slot, key), Directories(entries)));
  }

  /** Where the loop ends, by exhausting its keys, by a `break` or by an
      exception, the sweep returns what `Conclude` says. */
  lemma SweptToDone(e: Listing, path: string, compress: Compressor, fixed: Args, slot: Slot, done: seq<Arg>, err: Option<Error>,
                    table: Table<Arg>, entries: Listing, runs0: seq<seq<string>>, runs: seq<seq<string>>)
    requires SweptTo(e, path, compress, fixed, slot, done, table, entries, runs0, runs)
    ensures var o := Conclude(Plan(done, err), Swept(e, path, compress, fixed, slot, done));
            && (if err.Some? then Fail(err.value) else Ok(table)) == o.info
            && entries == o.after && runs == runs0 + o.runs
  {
  }

  /** One loop body of a sweep: `runCMD(...)`, then
      `info[key] = getTotalSizeOfArchives()`, then `removeArchives()`; it
      takes the loop from having run `done` to having run `done + [key]`. */
  method RunCandidate(wd: WorkDir, path: string, compress: Compressor, fixed: Args, slot: Slot, key: Arg, info: Table<Arg>,
                      ghost e: Listing, ghost done: seq<Arg>, ghost runs0: seq<seq<string>>) returns (r: Table<Arg>)
    requires path != "--"
    requires SweptTo(e, path, compress, fixed, slot, done, info, wd.entries, runs0, wd.runs)
    modifies wd
    ensures SweptTo(e, path, compress, fixed, slot, done + [key], r, wd.entries, runs0, wd.runs)
  {
    SweptToStep(e, path, compress, fixed, slot, done, key, info, wd.entries, runs0, wd.runs);
    wd.RunCmd(path, Fill(fixed, slot, key), compress);
    var total := wd.TotalSizeOfArchives();
    r := Put(info, key, total);
    wd.RemoveArchives();
  }

  /** What the check at the top of a sweep loop does with one entry: run
      it, `break`, or raise. */
  datatype Gate = Go | Stop | Raise(error: Error)

  /** The check of `testAllDictSizes`: `int(size[:-1]) > largest` breaks,
      and raises when the entry does not parse or `largest` is None. */
  function DictGate(size: string, bound: Option<nat>): Gate {
    match Reading(size)
    case None => Raise(ParseFailure)
    case Some(n) => if bound.None? then Raise(NoneComparison) else if n > bound.value then Stop else Go
  }

  /** The check of `testAllBlockSizes`: only entries ending in 'm' are
      compared. */
  function BlockGate(size: string, bound: Option<nat>): Gate {
    if !EndsWith(size, 'm') then Go else DictGate(size, bound)
  }

  /** The dictionary sweep's plan from entry `i` on follows the check on entry `i`. */
  lemma DictPlanHead(sizes: seq<string>, bound: Option<nat>, i: nat)
    requires i < |sizes|
    ensures DictPlanIn(sizes[i..], bound)
            == match DictGate(sizes[i], bound)
               case Go => Prefixed(Text(sizes[i]), DictPlanIn(sizes[i + 1..], bound))
               case Stop => Plan([], None)
               case Raise(err) => Plan([], Some(err))
  {
    assert sizes[i..][0] == sizes[i] && sizes[i..][1..] == sizes[i + 1..];
  }

  /** The entries before `i` have contributed `done` to the dictionary sweep's plan. */
  predicate DictPlanAt(sizes: seq<string>, bound: Option<nat>, done: seq<Arg>, i: nat)
    requires i <= |sizes|
  {
    var rest := DictPlanIn(sizes[i..], bound);
    DictPlanIn(sizes, bound) == Plan(done + rest.ran, rest.error)
  }

  /** How the check on entry `i` moves the dictionary sweep's plan on. */
  lemma DictPlanAdvance(sizes: seq<string>, bound: Option<nat>, done: seq<Arg>, i: nat)
    requires i < |sizes| && DictPlanAt(sizes, bound, done, i)
    ensures DictGate(sizes[i], bound).Go? ==> DictPlanAt(sizes, bound, done + [Text(sizes[i])], i + 1)
    ensures DictGate(sizes[i], bound).Stop? ==> DictPlanIn(sizes, bound) == Plan(done, None)
    ensures DictGate(sizes[i], bound).Raise? ==> DictPlanIn(sizes, bound) == Plan(done, Some(DictGate(sizes[i], bound).error))
  {
    DictPlanHead(sizes, bound, i);
    assert done + [] == done;
    AppendAssoc(done, [Text(sizes[i])], DictPlanIn(sizes[i + 1..], bound).ran);
  }

  /** Once every entry has been checked the plan is `done`, with no error. */
  lemma DictPlanEnd(sizes: seq<string>, bound: Option<nat>, done: seq<Arg>)
    requires DictPlanAt(sizes, bound, done, |sizes|)
    ensures DictPlanIn(sizes, bound) == Plan(done, None)
  {
    assert sizes[|sizes|..] == [];
    assert done + [] == done;
  }

  /** The loop of `testAllDictSizes` over `sizes` with the bound `bound`. */
  method SweepDictSizes(wd: WorkDir, sizes: seq<string>, bound: Option<nat>, path: string, compress: Compressor) returns (info: Result<Table<Arg>>)
    requires path != "--"
    modifies wd
    ensures var plan := DictPlanIn(sizes, bound);
            var s := Swept(old(wd.entries), path, compress, NoArgs, DictSlot, plan.ran);
            info == Conclude(plan, s).info && wd.entries == s.after && wd.runs == old(wd.runs) + s.runs
  {
    ghost var e := wd.entries;
    ghost var done: seq<Arg> := [];
    var table: Table<Arg> := [];
    var err: Option<Error> := None;
    var running := true;
    var i := 0;
    while running && i < |sizes|
      invariant 0 <= i <= |sizes|
      invariant running ==> err == None && DictPlanAt(sizes, bound, done, i)
      invariant !running ==> DictPlanIn(sizes, bound) == Plan(done, err)
      invariant SweptTo(e, path, compress, NoArgs, DictSlot, done, table, wd.entries, old(wd.runs), wd.runs)
      decreases |sizes| - i, running
    {
      var size := sizes[i];
      DictPlanAdvance(sizes, bound, done, i);
      match DictGate(size, bound)
      case Raise(error) =>
        err := Some(error);
        running := false;
      case Stop =>
        running := false;
      case Go =>
        var key := Text(size);
        table := RunCandidate(wd, path, compress, NoArgs, DictSlot, key, table, e, done, old(wd.runs));
        done := done + [key];
        i := i + 1;
    }
    if running {
      DictPlanEnd(sizes, bound, done);
    }
    SweptToDone(e, path, compress, NoArgs, DictSlot, done, err, table, wd.entries, old(wd.runs), wd.runs);
    info := if err.Some? then Fail(err.value) else Ok(table);
  }

  /** `testAllDictSizes()`. */
  method TestAllDictSizes(wd: WorkDir, du: seq<string>, path: string, compress: Compressor) returns (info: Result<Table<Arg>>)
    requires path != "--"
    modifies wd
    ensures var o := DictSweep(old(wd.entries), path, compress, DictLimit(du));
            info == o.info && wd.entries == o.after && wd.runs == old(wd.runs) + o.runs
  {
    var largest := MinimumLargestDictSize(du);
    if largest.Fail? {
      return Fail(largest.error);
    }
    info := SweepDictSizes(wd, DictSizes, largest.value, path, compress);
  }

  /** `for key in keys:` with the loop body of a sweep that never stops
      early (`testAllWordSizes` and `testNThreads`). */
  method SweepAll(wd: WorkDir, path: string, compress: Compressor, fixed: Args, slot: Slot, keys: seq<Arg>) returns (info: Result<Table<Arg>>)
    requires path != "--"
    modifies wd
    ensures var o := Conclude(Plan(keys, None), Swept(old(wd.entries), path, compress, fixed, slot, keys));
            info == o.info && wd.entries == o.after && wd.runs == old(wd.runs) + o.runs
  {
    ghost var e := wd.entries;
    ghost var done: seq<Arg> := [];
    var table: Table<Arg> := [];
    var i := 0;
    while i < |keys|
      invariant 0 <= i <= |keys| && done == keys[..i]
      invariant SweptTo(e, path, compress, fixed, slot, done, table, wd.entries, old(wd.runs), wd.runs)
    {
      var key := keys[i];
      TakeOneMore(keys, i);
      table := RunCandidate(wd, path, compress, fixed, slot, key, table, e, done, old(wd.runs));
      done := done + [key];
      i := i + 1;
    }
    TakeAll(keys);
    SweptToDone(e, path, compress, fixed, slot, done, None, table, wd.entries, old(wd.runs), wd.runs);
    info := Ok(table);
  }

  /** `testAllWordSizes(dict_size)`. */
  method TestAllWordSizes(wd: WorkDir, path: string, compress: Compressor, dict: Arg) returns (info: Result<Table<Arg>>)
    requires path != "--"
    modifies wd
    ensures var o := WordSweep(old(wd.entries), path, compress, dict);
            info == o.info && wd.entries == o.after && wd.runs == old(wd.runs) + o.runs
  {
    info := SweepAll(wd, path, compress, NoArgs.(dict := dict), WordSlot, NumberKeys(WordSizes));
  }

  /** The block sweep's plan from entry `i` on follows the check on entry `i`. */
  lemma BlockPlanHead(sizes: seq<string>, bound: Option<nat>, i: nat)
    requires i < |sizes|
    ensures BlockPlanIn(sizes[i..], bound)
            == match BlockGate(sizes[i], bound)
               case Go => Prefixed(Text(sizes[i]), BlockPlanIn(sizes[i + 1..], bound))
               case Stop => Plan([], None)
               case Raise(err) => Plan([], Some(err))
  {
    assert sizes[i..][0] == sizes[i] && sizes[i..][1..] == sizes[i + 1..];
  }

  /** The entries before `i` have contributed `done` to the block sweep's plan. */
  predicate BlockPlanAt(sizes: seq<string>, bound: Option<nat>, done: seq<Arg>, i: nat)
    requires i <= |sizes|
  {
    var rest := BlockPlanIn(sizes[i..], bound);
    BlockPlanIn(sizes, bound) == Plan(done + rest.ran, rest.error)
  }

  /** How the check on entry `i` moves the block sweep's plan on. */
  lemma BlockPlanAdvance(sizes: seq<string>, bound: Option<nat>, done: seq<Arg>, i: nat)
    requires i < |sizes| && BlockPlanAt(sizes, bound, done, i)
    ensures BlockGate(sizes[i], bound).Go? ==> BlockPlanAt(sizes, bound, done + [Text(sizes[i])], i + 1)
    ensures BlockGate(sizes[i], bound).Stop? ==> BlockPlanIn(sizes, bound) == Plan(done, None)
    ensures BlockGate(sizes[i], bound).Raise? ==> BlockPlanIn(sizes, bound) == Plan(done, Some(BlockGate(sizes[i], bound).error))
  {
    BlockPlanHead(sizes, bound, i);
    assert done + [] == done;
    AppendAssoc(done, [Text(sizes[i])], BlockPlanIn(sizes[i + 1..], bound).ran);
  }

  /** Once every entry has been checked the plan is `done`, with no error. */
  lemma BlockPlanEnd(sizes: seq<string>, bound: Option<nat>, done: seq<Arg>)
    requires BlockPlanAt(sizes, bound, done, |sizes|)
    ensures BlockPlanIn(sizes, bound) == Plan(done, None)
  {
    assert sizes[|sizes|..] == [];
    assert done + [] == done;
  }

  /** The loop of `testAllBlockSizes` over `sizes` with the bound `bound`. */
  method SweepBlockSizes(wd: WorkDir, sizes: seq<string>, bound: Option<nat>, path: string, compress: Compressor, fixed: Args) returns (info: Result<Table<Arg>>)
    requires path != "--"
    modifies wd
    ensures var plan := BlockPlanIn(sizes, bound);
            var s := Swept(old(wd.entries), path, compress, fixed, BlockSlot, plan.ran);
            info == Conclude(plan, s).info && wd.entries == s.after && wd.runs == old(wd.runs) + s.runs
  {
    ghost var e := wd.entries;
    ghost var done: seq<Arg> := [];
    var table: Table<Arg> := [];
    var err: Option<Error> := None;
    var running := true;
    var i := 0;
    while running && i < |sizes|
      invariant 0 <= i <= |sizes|
      invariant running ==> err == None && BlockPlanAt(sizes, bound, done, i)
      invariant !running ==> BlockPlanIn(sizes, bound) == Plan(done, err)
      invariant SweptTo(e, path, compress, fixed, BlockSlot, done, table, wd.entries, old(wd.runs), wd.runs)
      decreases |sizes| - i, running
    {
      var size := sizes[i];
      BlockPlanAdvance(sizes, bound, done, i);
      match BlockGate(size, bound)
      case Raise(error) =>
        err := Some(error);
        running := false;
      case Stop =>
        running := false;
      case Go =>
        var key := Text(size);
        table := RunCandidate(wd, path, compress, fixed, BlockSlot, key, table, e, done, old(wd.runs));
        done := done + [key];
        i := i + 1;
    }
    if running {
      BlockPlanEnd(sizes, bound, done);
    }
    SweptToDone(e, path, compress, fixed, BlockSlot, done, err, table, wd.entries, old(wd.runs), wd.runs);
    info := if err.Some? then Fail(err.value) else Ok(table);
  }

  /** `testAllBlockSizes(dict_size, word_size)`. */
  method TestAllBlockSizes(wd: WorkDir, du: seq<string>, path: string, compress: Compressor, dict: Arg, word: Arg) returns (info: Result<Table<Arg>>)
    requires path != "--"
    modifies wd
    ensures var o := BlockSweep(old(wd.entries), path, compress, BlockLimit(du), dict, word);
            info == o.info && wd.entries == o.after && wd.runs == old(wd.runs) + o.runs
  {
    var largest := MinimumLargestBlockSize(du);
    if largest.Fail? {
      return Fail(largest.error);
    }
    info := SweepBlockSizes(wd, BlockSizes, largest.value, path, compress, NoArgs.(dict := dict, word := word));
  }

  /** `testNThreads(dict_size, word_size, block_size)`: the thread counts
      from `cpu` down to 1. */
  method TestNThreads(wd: WorkDir, path: string, compress: Compressor, cpu: nat, dict: Arg, word: Arg, block: Arg) returns (info: Result<Table<Arg>>)
    requires path != "--"
    modifies wd
    ensures var o := ThreadSweep(old(wd.entries), path, compress, cpu, dict, word, block);
            info == o.info && wd.entries == o.after && wd.runs == old(wd.runs) + o.runs
  {
    info := SweepAll(wd, path, compress, NoArgs.(dict := dict, word := word, block := block), ThreadSlot, Countdown(cpu));
  }

  /** `main()`, with `du` the output of the `du` calls and `cpu` the value of
      `os.cpu_count()`; a failure is the exception that ends the run. */
  method RunSearch(wd: WorkDir, du: seq<string>, path: string, compress: Compressor, cpu: nat) returns (r: Result<Args>)
    requires path != "--"
    modifies wd
    ensures var t := Tuning(old(wd.entries), du, path, compress, cpu);
            r == t.outcome && wd.entries == t.after && wd.runs == old(wd.runs) + t.runs
  {
    wd.RemoveArchives();
    r := RunDictStage(wd, du, path, compress, cpu);
  }

  method RunDictStage(wd: WorkDir, du: seq<string>, path: string, compress: Compressor, cpu: nat) returns (r: Result<Args>)
    requires path != "--"
    modifies wd
    ensures var t := DictStage(old(wd.entries), du, path, compress, cpu);
            r == t.outcome && wd.entries == t.after && wd.runs == old(wd.runs) + t.runs
  {
    ghost var before := wd.runs;
    var info := TestAllDictSizes(wd, du, path, compress);
    var best := Best(info);
    if best.Fail? {
      return Fail(best.error);
    }
    ghost var d := DictSweep(old(wd.entries), path, compress, DictLimit(du));
    r := RunWordStage(wd, du, path, compress, cpu, best.value);
    AppendAssoc(before, d.runs, WordStage(d.after, du, path, compress, cpu, best.value).runs);
  }

  method RunWordStage(wd: WorkDir, du: seq<string>, path: string, compress: Compressor, cpu: nat, dict: Arg) returns (r: Result<Args>)
    requires path != "--"
    modifies wd
    ensures var t := WordStage(old(wd.entries), du, path, compress, cpu, dict);
            r == t.outcome && wd.entries == t.after && wd.runs == old(wd.runs) + t.runs
  {
    ghost var before := wd.runs;
    var info := TestAllWordSizes(wd, path, compress, dict);
    var best := Best(info);
    if best.Fail? {
      return Fail(best.error);
    }
    ghost var w := WordSweep(old(wd.entries), path, compress, dict);
    r := RunBlockStage(wd, du, path, compress, cpu, dict, best.value);
    AppendAssoc(before, w.runs, BlockStage(w.after, du, path, compress, cpu, dict, best.value).runs);
  }

  method RunBlockStage(wd: WorkDir, du: seq<string>, path: string, compress: Compressor, cpu: nat, dict: Arg, word: Arg) returns (r: Result<Args>)
    requires path != "--"
    modifies wd
    ensures var t := BlockStage(old(wd.entries), du, path, compress, cpu, dict, word);
            r == t.outcome && wd.entries == t.after && wd.runs == old(wd.runs) + t.runs
  {
    ghost var before := wd.runs;
    var info := TestAllBlockSizes(wd, du, path, compress, dict, word);
    var best := Best(info);
    if best.Fail? {
      return Fail(best.error);
    }
    ghost var b := BlockSweep(old(wd.entries), path, compress, BlockLimit(du), dict, word);
    r := RunThreadStage(wd, path, compress, cpu, dict, word, best.value);
    AppendAssoc(before, b.runs, ThreadStage(b.after, path, compress, cpu, dict, word, best.value).runs);
  }

  /** The thread sweep and the final `runCMD` with the four winners. */
  method RunThreadStage(wd: WorkDir, path: string, compress: Compressor, cpu: nat, dict: Arg, word: Arg, block: Arg) returns (r: Result<Args>)
    requires path != "--"
    modifies wd
    ensures var t := ThreadStage(old(wd.entries), path, compress, cpu, dict, word, block);
            r == t.outcome && wd.entries == t.after && wd.runs == old(wd.runs) + t.runs
  {
    ghost var before := wd.runs;
    var info := TestNThreads(wd, path, compress, cpu, dict, word, block);
    var best := Best(info);
    if best.Fail? {
      return Fail(best.error);
    }
    ghost var t := ThreadSweep(old(wd.entries), path, compress, cpu, dict, word, block);
    var args := Args(dict, word, block, best.value);
    wd.RunCmd(path, args, compress);
    AppendAssoc(before, t.runs, Commands(path, args, Directories(t.after)));
    r := Ok(args);
  }
}
