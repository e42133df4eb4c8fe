/** `main()`: remove stale archives, then sweep the dictionary size, the
    word size, the block size and the thread count in turn, each sweep
    fixing the winners of the ones before it, and finally compress every
    directory with the four winners. */
module Search {
  import opened Outcomes
  import opened OrderedTable
  import opened Candidates
  import opened CommandLine
  import opened Workspace
  import opened SizeProbe
  import opened Bounds
  import opened Sweeps
  import opened Plans
  import opened Seqs

  /** `smallestSize(...)[0]` of what a sweep returned. */
  function Best(info: Result<Table<Arg>>): Result<Arg> {
    match info
    case Fail(err) => Fail(err)
    case Ok(t) =>
      match Smallest(t)
      case Fail(err) => Fail(err)
      case Ok(p) => Ok(p.0)
  }

  /** How a run of the tool ends (the four winners, or the exception that
      stopped it), every command it ran, and the directory it leaves. */
  datatype Tuned = Tuned(outcome: Result<Args>, runs: seq<seq<string>>, after: Listing)

  /** A stage's commands come before those of the stages after it. */
  function After(runs: seq<seq<string>>, rest: Tuned): Tuned {
    Tuned(rest.outcome, runs + rest.runs, rest.after)
  }

  /** `main()` on the directory `e0`, with `du` the output of both `du`
      calls and `cpu` what `os.cpu_count()` returns. */
  function Tuning(e0: Listing, du: seq<string>, path: string, compress: Compressor, cpu: nat): Tuned {
    DictStage(Clean(e0), du, path, compress, cpu)
  }

  function DictStage(e: Listing, du: seq<string>, path: string, compress: Compressor, cpu: nat): Tuned {
    var d := DictSweep(e, path, compress, DictLimit(du));
    match Best(d.info)
    case Fail(err) => Tuned(Fail(err), d.runs, d.after)
    case Ok(dict) => After(d.runs, WordStage(d.after, du, path, compress, cpu, dict))
  }

  function WordStage(e: Listing, du: seq<string>, path: string, compress: Compressor, cpu: nat, dict: Arg): Tuned {
    var w := WordSweep(e, path, compress, dict);
    match Best(w.info)
    case Fail(err) => Tuned(Fail(err), w.runs, w.after)
    case Ok(word) => After(w.runs, BlockStage(w.after, du, path, compress, cpu, dict, word))
  }

  function BlockStage(e: Listing, du: seq<string>, path: string, compress: Compressor, cpu: nat, dict: Arg, word: Arg): Tuned {
    var b := BlockSweep(e, path, compress, BlockLimit(du), dict, word);
    match Best(b.info)
    case Fail(err) => Tuned(Fail(err), b.runs, b.after)
    case Ok(block) => After(b.runs, ThreadStage(b.after, path, compress, cpu, dict, word, block))
  }

  /** The thread sweep and the final `runCMD` with all four winners, whose
      archives are left in place. */
  function ThreadStage(e: Listing, path: string, compress: Compressor, cpu: nat, dict: Arg, word: Arg, block: Arg): Tuned {
    var t := ThreadSweep(e, path, compress, cpu, dict, word, block);
    match Best(t.info)
    case Fail(err) => Tuned(Fail(err), t.runs, t.after)
    case Ok(threads) =>
      var args := Args(dict, word, block, threads);
      After(t.runs, Tuned(Ok(args), Commands(path, args, Directories(t.after)), RunAll(t.after, path, args, compress)))
  }

  /** `a` is what a sweep of the distinct `keys` from the clean directory `e`
      picks: the first key whose own run measured the least archive total. */
  predicate Winner(e: Listing, path: string, compress: Compressor, fixed: Args, slot: Slot, keys: seq<Arg>, a: Arg) {
    exists m :: 0 <= m < |keys| && keys[m] == a && IsFirstMinimal(Measured(e, path, compress, fixed, slot, keys), m)
  }

  /** The dictionary entries swept when the largest directory has `largest`
      MB: every entry up to the first megabyte entry above it. */
  function DictCandidates(largest: nat): seq<Arg> {
    var j := DictIndexAbove(largest, 0);
    TextKeys(DictSizes[..if j < 22 then j + 1 else 22])
  }

  /** The block entries swept when the largest directory has `largest` MB
      (below 512): the modes and every megabyte entry up to the first one
      above it, and with it the gigabyte entries when that one is 512m. */
  function BlockCandidates(largest: nat): seq<Arg> {
    var j := BlockIndexAbove(largest, 0);
    TextKeys(BlockSizes[..if j == 14 || j >= 22 then 22 else j + 1])
  }

  /** A sweep of distinct keys from a clean directory leaves it clean, runs
      one `runCMD` per key, and raises the plan's error, or else the
      ValueError of an empty dict, or else picks the winner. */
  lemma ConcludeSwept(e: Listing, path: string, compress: Compressor, fixed: Args, slot: Slot, keys: seq<Arg>, err: Option<Error>)
    requires NoArchives(e) && Distinct(keys)
    ensures var o := Conclude(Plan(keys, err), Swept(e, path, compress, fixed, slot, keys));
            && o.after == e
            && o.runs == SweepCommands(path, fixed, slot, keys, Directories(e))
            && (err.Some? ==> Best(o.info) == Fail(err.value))
            && (err.None? ==> (Best(o.info) == Fail(EmptyTable) <==> |keys| == 0))
            && (err.None? && Best(o.info).Ok? ==> Winner(e, path, compress, fixed, slot, keys, Best(o.info).value))
  {
    SweptAfter(e, path, compress, fixed, slot, keys);
    SweptRuns(e, path, compress, fixed, slot, keys);
    SweptWinner(e, path, compress, fixed, slot, keys);
  }

  /** `testAllDictSizes()`: it raises what `du` raised; for 1536 MB and over
      the bound is None and the first comparison raises TypeError; below
      48 MB only "64k" would run and it is above the bound, so the dict is
      empty; otherwise the winner among the dictionary candidates. */
  lemma DictSweepOutcome(e: Listing, du: seq<string>, path: string, compress: Compressor)
    requires NoArchives(e)
    ensures var d := DictSweep(e, path, compress, DictLimit(du));
            && d.after == e
            && (DuLargest(du).Fail? ==> Best(d.info) == Fail(DuLargest(du).error) && d.runs == [])
            && (DuLargest(du).Ok? && DuLargest(du).value >= 1536 ==> Best(d.info) == Fail(NoneComparison) && d.runs == [])
            && (DuLargest(du).Ok? && DuLargest(du).value < 48 ==> Best(d.info) == Fail(EmptyTable) && d.runs == [])
            && (DuLargest(du).Ok? && 48 <= DuLargest(du).value < 1536 ==>
                  && d.runs == SweepCommands(path, NoArgs, DictSlot, DictCandidates(DuLargest(du).value), Directories(e))
                  && Best(d.info).Ok?
                  && Winner(e, path, compress, NoArgs, DictSlot, DictCandidates(DuLargest(du).value), Best(d.info).value))
  {
    if DuLargest(du).Ok? {
      var largest := DuLargest(du).value;
      if largest >= 1536 {
        DictBoundMeaning(largest);
        DictPlanUnbounded();
        ConcludeSwept(e, path, compress, NoArgs, DictSlot, [], Some(NoneComparison));
      } else {
        DictSweepPlan(du);
        ConcludeSwept(e, path, compress, NoArgs, DictSlot, if largest < 48 then [] else DictCandidates(largest), None);
      }
    }
  }

  /** Below 1536 MB the dictionary bound exists, and the sweep runs no entry
      below 48 MB and the dictionary candidates from there on. */
  lemma DictSweepPlan(du: seq<string>)
    requires DuLargest(du).Ok? && DuLargest(du).value < 1536
    ensures var largest := DuLargest(du).value;
            && DictLimit(du).Ok?
            && DictPlanIn(DictSizes, DictLimit(du).value) == Plan(if largest < 48 then [] else DictCandidates(largest), None)
            && Distinct(if largest < 48 then [] else DictCandidates(largest))
  {
    var largest := DuLargest(du).value;
    DictBoundMeaning(largest);
    DictPlanMeaning(largest);
    if largest >= 48 {
      DictSizesDistinct();
      TextKeysDistinct(DictSizes, DictIndexAbove(largest, 0) + 1);
    }
  }

  /** `testAllWordSizes(dict)` runs every word size and picks the winner. */
  lemma WordSweepOutcome(e: Listing, path: string, compress: Compressor, dict: Arg)
    requires NoArchives(e)
    ensures var w := WordSweep(e, path, compress, dict);
            && w.after == e
            && w.runs == SweepCommands(path, NoArgs.(dict := dict), WordSlot, NumberKeys(WordSizes), Directories(e))
            && Best(w.info).Ok?
            && Winner(e, path, compress, NoArgs.(dict := dict), WordSlot, NumberKeys(WordSizes), Best(w.info).value)
  {
    WordKeysDistinct();
    ConcludeSwept(e, path, compress, NoArgs.(dict := dict), WordSlot, NumberKeys(WordSizes), None);
  }

  /** `testAllBlockSizes(dict, word)` when the largest directory has 512 MB
      or more: the bound is None, "=off" and "=on" run and "1m" raises
      TypeError. */
  lemma BlockSweepUnbounded(e: Listing, du: seq<string>, path: string, compress: Compressor, dict: Arg, word: Arg)
    requires NoArchives(e) && DuLargest(du).Ok? && DuLargest(du).value >= 512
    ensures var b := BlockSweep(e, path, compress, BlockLimit(du), dict, word);
            && b.after == e
            && Best(b.info) == Fail(NoneComparison)
            && b.runs == SweepCommands(path, NoArgs.(dict := dict, word := word), BlockSlot, [Text("=off"), Text("=on")], Directories(e))
  {
    BlockBoundMeaning(DuLargest(du).value);
    BlockPlanUnbounded();
    var modes := [Text("=off"), Text("=on")];
    assert Distinct(modes);
    ConcludeSwept(e, path, compress, NoArgs.(dict := dict, word := word), BlockSlot, modes, Some(NoneComparison));
  }

  /** `testAllBlockSizes(dict, word)` below 512 MB: the winner among the
      block candidates. */
  lemma BlockSweepBounded(e: Listing, du: seq<string>, path: string, compress: Compressor, dict: Arg, word: Arg)
    requires NoArchives(e) && DuLargest(du).Ok? && DuLargest(du).value < 512
    ensures var b := BlockSweep(e, path, compress, BlockLimit(du), dict, word);
            && b.after == e
            && b.runs == SweepCommands(path, NoArgs.(dict := dict, word := word), BlockSlot, BlockCandidates(DuLargest(du).value), Directories(e))
            && Best(b.info).Ok?
            && Winner(e, path, compress, NoArgs.(dict := dict, word := word), BlockSlot, BlockCandidates(DuLargest(du).value), Best(b.info).value)
  {
    BlockSweepPlan(du);
    ConcludeSwept(e, path, compress, NoArgs.(dict := dict, word := word), BlockSlot, BlockCandidates(DuLargest(du).value), None);
  }

  /** Below 512 MB the block bound exists and the sweep runs the block
      candidates. */
  lemma BlockSweepPlan(du: seq<string>)
    requires DuLargest(du).Ok? && DuLargest(du).value < 512
    ensures && BlockLimit(du).Ok?
            && BlockPlanIn(BlockSizes, BlockLimit(du).value) == Plan(BlockCandidates(DuLargest(du).value), None)
            && Distinct(BlockCandidates(DuLargest(du).value))
  {
    var largest := DuLargest(du).value;
    BlockBoundMeaning(largest);
    BlockPlanMeaning(largest);
    var j := BlockIndexAbove(largest, 0);
    BlockSizesDistinct();
    TextKeysDistinct(BlockSizes, if j == 14 then 22 else j + 1);
  }

  /** `testNThreads(dict, word, block)`: no threads to count means an empty
      dict; otherwise the winner among cpu, cpu - 1, ..., 1. */
  lemma ThreadSweepOutcome(e: Listing, path: string, compress: Compressor, cpu: nat, dict: Arg, word: Arg, block: Arg)
    requires NoArchives(e)
    ensures var t := ThreadSweep(e, path, compress, cpu, dict, word, block);
            && t.after == e
            && t.runs == SweepCommands(path, NoArgs.(dict := dict, word := word, block := block), ThreadSlot, Countdown(cpu), Directories(e))
            && (cpu == 0 ==> Best(t.info) == Fail(EmptyTable))
            && (cpu > 0 ==>
                  && Best(t.info).Ok?
                  && Winner(e, path, compress, NoArgs.(dict := dict, word := word, block := block), ThreadSlot, Countdown(cpu), Best(t.info).value))
  {
    CountdownDistinct(cpu);
    ConcludeSwept(e, path, compress, NoArgs.(dict := dict, word := word, block := block), ThreadSlot, Countdown(cpu), None);
  }

  /** How `main()` ends: it raises whatever `du` parsing raised, the
      ValueError of an empty dict below 48 MB or without threads, the
      TypeError of a None bound from 512 MB on; it gets through exactly
      when the largest directory has 48 to 511 MB and there is a thread. */
  lemma TuningOutcome(e0: Listing, du: seq<string>, path: string, compress: Compressor, cpu: nat)
    ensures var r := Tuning(e0, du, path, compress, cpu);
            && (r.outcome.Ok? <==> DuLargest(du).Ok? && 48 <= DuLargest(du).value < 512 && cpu >= 1)
            && (DuLargest(du).Fail? ==> r.outcome == Fail(DuLargest(du).error) && r.runs == [])
            && (DuLargest(du).Ok? && DuLargest(du).value < 48 ==> r.outcome == Fail(EmptyTable) && r.runs == [])
            && (DuLargest(du).Ok? && DuLargest(du).value >= 1536 ==> r.outcome == Fail(NoneComparison) && r.runs == [])
            && (DuLargest(du).Ok? && 512 <= DuLargest(du).value < 1536 ==> r.outcome == Fail(NoneComparison))
            && (DuLargest(du).Ok? && 48 <= DuLargest(du).value < 512 && cpu == 0 ==> r.outcome == Fail(EmptyTable))
  {
    var e := Clean(e0);
    CleanIsFinal(e0);
    DictSweepOutcome(e, du, path, compress);
    var d := DictSweep(e, path, compress, DictLimit(du));
    if Best(d.info).Ok? {
      var dict := Best(d.info).value;
      WordSweepOutcome(e, path, compress, dict);
      var word := Best(WordSweep(e, path, compress, dict).info).value;
      if DuLargest(du).value >= 512 {
        BlockSweepUnbounded(e, du, path, compress, dict, word);
      } else {
        BlockSweepBounded(e, du, path, compress, dict, word);
        var block := Best(BlockSweep(e, path, compress, BlockLimit(du), dict, word).info).value;
        ThreadSweepOutcome(e, path, compress, cpu, dict, word, block);
      }
    }
  }

  /** When `main()` gets through, each of the four settings is the winner of
      its own sweep over the clean directory given the winners before it,
      and the archives left are those of the winning settings. */
  lemma TuningChoice(e0: Listing, du: seq<string>, path: string, compress: Compressor, cpu: nat)
    requires DuLargest(du).Ok? && 48 <= DuLargest(du).value < 512 && cpu >= 1
    ensures var r := Tuning(e0, du, path, compress, cpu);
            var e, largest := Clean(e0), DuLargest(du).value;
            && r.outcome.Ok?
            && var a := r.outcome.value;
            && Winner(e, path, compress, NoArgs, DictSlot, DictCandidates(largest), a.dict)
            && Winner(e, path, compress, NoArgs.(dict := a.dict), WordSlot, NumberKeys(WordSizes), a.word)
            && Winner(e, path, compress, NoArgs.(dict := a.dict, word := a.word), BlockSlot, BlockCandidates(largest), a.block)
            && Winner(e, path, compress, NoArgs.(dict := a.dict, word := a.word, block := a.block), ThreadSlot, Countdown(cpu), a.threads)
            && r.after == RunAll(e, path, a, compress)
  {
    var e := Clean(e0);
    CleanIsFinal(e0);
    DirectoriesOfClean(e0);
    DictSweepOutcome(e, du, path, compress);
    var dict := Best(DictSweep(e, path, compress, DictLimit(du)).info).value;
    WordSweepOutcome(e, path, compress, dict);
    var word := Best(WordSweep(e, path, compress, dict).info).value;
    BlockSweepBounded(e, du, path, compress, dict, word);
    var block := Best(BlockSweep(e, path, compress, BlockLimit(du), dict, word).info).value;
    ThreadSweepOutcome(e, path, compress, cpu, dict, word, block);
  }

  /** The commands of a successful run: one `runCMD` per candidate of each
      sweep, in sweep order, then the final one with the four winners. */
  lemma TuningRuns(e0: Listing, du: seq<string>, path: string, compress: Compressor, cpu: nat)
    requires DuLargest(du).Ok? && 48 <= DuLargest(du).value < 512 && cpu >= 1
    ensures var r := Tuning(e0, du, path, compress, cpu);
            var largest := DuLargest(du).value;
            && r.outcome.Ok?
            && var a := r.outcome.value;
            && r.runs == SweepCommands(path, NoArgs, DictSlot, DictCandidates(largest), Directories(e0))
                         + (SweepCommands(path, NoArgs.(dict := a.dict), WordSlot, NumberKeys(WordSizes), Directories(e0))
                         + (SweepCommands(path, NoArgs.(dict := a.dict, word := a.word), BlockSlot, BlockCandidates(largest), Directories(e0))
                         + (SweepCommands(path, NoArgs.(dict := a.dict, word := a.word, block := a.block), ThreadSlot, Countdown(cpu), Directories(e0))
                         + Commands(path, a, Directories(e0)))))
  {
    var e := Clean(e0);
    CleanIsFinal(e0);
    DirectoriesOfClean(e0);
    DictSweepOutcome(e, du, path, compress);
    var dict := Best(DictSweep(e, path, compress, DictLimit(du)).info).value;
    WordStageRuns(e, du, path, compress, cpu, dict);
  }

  lemma WordStageRuns(e: Listing, du: seq<string>, path: string, compress: Compressor, cpu: nat, dict: Arg)
    requires NoArchives(e) && DuLargest(du).Ok? && DuLargest(du).value < 512 && cpu >= 1
    ensures var r := WordStage(e, du, path, compress, cpu, dict);
            && r.outcome.Ok?
            && var a := r.outcome.value;
            && a.dict == dict
            && r.runs == SweepCommands(path, NoArgs.(dict := dict), WordSlot, NumberKeys(WordSizes), Directories(e))
                         + (SweepCommands(path, NoArgs.(dict := dict, word := a.word), BlockSlot, BlockCandidates(DuLargest(du).value), Directories(e))
                         + (SweepCommands(path, NoArgs.(dict := dict, word := a.word, block := a.block), ThreadSlot, Countdown(cpu), Directories(e))
                         + Commands(path, a, Directories(e))))
  {
    WordSweepOutcome(e, path, compress, dict);
    var word := Best(WordSweep(e, path, compress, dict).info).value;
    BlockStageRuns(e, du, path, compress, cpu, dict, word);
  }

  lemma BlockStageRuns(e: Listing, du: seq<string>, path: string, compress: Compressor, cpu: nat, dict: Arg, word: Arg)
    requires NoArchives(e) && DuLargest(du).Ok? && DuLargest(du).value < 512 && cpu >= 1
    ensures var r := BlockStage(e, du, path, compress, cpu, dict, word);
            && r.outcome.Ok?
            && var a := r.outcome.value;
            && a.dict == dict && a.word == word
            && r.runs == SweepCommands(path, NoArgs.(dict := dict, word := word), BlockSlot, BlockCandidates(DuLargest(du).value), Directories(e))
                         + (SweepCommands(path, NoArgs.(dict := dict, word := word, block := a.block), ThreadSlot, Countdown(cpu), Directories(e))
                         + Commands(path, a, Directories(e)))
  {
    BlockSweepBounded(e, du, path, compress, dict, word);
    var block := Best(BlockSweep(e, path, compress, BlockLimit(du), dict, word).info).value;
    ThreadSweepOutcome(e, path, compress, cpu, dict, word, block);
  }

  /** However `main()` ends, deleting the archives it leaves gives back the
      directory as `removeArchives()` first left it: only archives were
      written, and the directories are the ones it started with. */
  lemma TuningKeepsSources(e0: Listing, du: seq<string>, path: string, compress: Compressor, cpu: nat)
    ensures Clean(Tuning(e0, du, path, compress, cpu).after) == Clean(e0)
    ensures Directories(Tuning(e0, du, path, compress, cpu).after) == Directories(e0)
  {
    var e := Clean(e0);
    CleanIsFinal(e0);
    DirectoriesOfClean(e0);
    DictSweepOutcome(e, du, path, compress);
    var d := DictSweep(e, path, compress, DictLimit(du));
    if Best(d.info).Ok? {
      var dict := Best(d.info).value;
      WordSweepOutcome(e, path, compress, dict);
      var word := Best(WordSweep(e, path, compress, dict).info).value;
      if DuLargest(du).value >= 512 {
        BlockSweepUnbounded(e, du, path, compress, dict, word);
      } else {
        BlockSweepBounded(e, du, path, compress, dict, word);
        var block := Best(BlockSweep(e, path, compress, BlockLimit(du), dict, word).info).value;
        ThreadSweepOutcome(e, path, compress, cpu, dict, word, block);
        var t := ThreadSweep(e, path, compress, cpu, dict, word, block);
        if Best(t.info).Ok? {
          RunAllInvisible(e, path, Args(dict, word, block, Best(t.info).value), compress);
        }
      }
    }
  }

  /** Running the tool again in the directory it left does exactly what the
      first run did: the stale archives are removed first. */
  lemma TuningRepeatable(e0: Listing, du: seq<string>, path: string, compress: Compressor, cpu: nat)
    ensures Tuning(Tuning(e0, du, path, compress, cpu).after, du, path, compress, cpu) == Tuning(e0, du, path, compress, cpu)
  {
    TuningKeepsSources(e0, du, path, compress, cpu);
  }

  /** When every candidate of a sweep measures the same, the first one wins:
      the smallest dictionary, and for `testNThreads` the most threads. */
  lemma TieGoesToFirst(e: Listing, path: string, compress: Compressor, fixed: Args, slot: Slot, keys: seq<Arg>, a: Arg)
    requires Winner(e, path, compress, fixed, slot, keys, a)
    requires forall i :: 0 <= i < |keys| ==>
               Measure(e, path, Fill(fixed, slot, keys[i]), compress) == Measure(e, path, Fill(fixed, slot, keys[0]), compress)
    ensures a == keys[0]
  {
    var m :| 0 <= m < |keys| && keys[m] == a && IsFirstMinimal(Measured(e, path, compress, fixed, slot, keys), m);
  }

  lemma MostThreadsOnTie(e: Listing, path: string, compress: Compressor, fixed: Args, cpu: nat, a: Arg)
    requires cpu > 0 && Winner(e, path, compress, fixed, ThreadSlot, Countdown(cpu), a)
    requires forall n :: 1 <= n <= cpu ==>
               Measure(e, path, fixed.(threads := Number(n)), compress) == Measure(e, path, fixed.(threads := Number(cpu)), compress)
    ensures a == Number(cpu)
  {
    var keys := Countdown(cpu);
    forall i | 0 <= i < |keys|
      ensures Measure(e, path, Fill(fixed, ThreadSlot, keys[i]), compress) == Measure(e, path, Fill(fixed, ThreadSlot, keys[0]), compress)
    {
      assert Fill(fixed, ThreadSlot, keys[i]) == fixed.(threads := Number(cpu - i));
    }
    TieGoesToFirst(e, path, compress, fixed, ThreadSlot, keys, a);
  }
}
