/** The four measuring sweeps (`testAllDictSizes`, `testAllWordSizes`,
    `testAllBlockSizes`, `testNThreads`): which candidates each one runs,
    and what running them does to the working directory. */
module Sweeps {
  import opened Outcomes
  import opened PyText
  import opened OrderedTable
  import opened Candidates
  import opened CommandLine
  import opened Workspace
  import opened Seqs

  /** The candidates a sweep runs, in order, and the error that ends it
      after them, if any. */
  datatype Plan = Plan(ran: seq<Arg>, error: Option<Error>)

  function Prefixed(key: Arg, p: Plan): Plan {
    Plan([key] + p.ran, p.error)
  }

  /** The decisions of the `testAllDictSizes` loop over `sizes`: every entry is
      read with `int(size[:-1])` and compared with the bound; the first one
      above it stops the sweep, and a missing bound raises at once. */
  function DictPlanIn(sizes: seq<string>, bound: Option<nat>): Plan
    decreases |sizes|
  {
    if |sizes| == 0 then Plan([], None)
    else match Reading(sizes[0])
      case None => Plan([], Some(ParseFailure))
      case Some(n) =>
        if bound.None? then Plan([], Some(NoneComparison))
        else if n > bound.value then Plan([], None)
        else Prefixed(Text(sizes[0]), DictPlanIn(sizes[1..], bound))
  }

  /** The decisions of the `testAllBlockSizes` loop over `sizes`: only
      entries ending in 'm' are compared with the bound; all others run. */
  function BlockPlanIn(sizes: seq<string>, bound: Option<nat>): Plan
    decreases |sizes|
  {
    if |sizes| == 0 then Plan([], None)
    else if EndsWith(sizes[0], 'm') then
      match Reading(sizes[0])
      case None => Plan([], Some(ParseFailure))
      case Some(n) =>
        if bound.None? then Plan([], Some(NoneComparison))
        else if n > bound.value then Plan([], None)
        else Prefixed(Text(sizes[0]), BlockPlanIn(sizes[1..], bound))
    else Prefixed(Text(sizes[0]), BlockPlanIn(sizes[1..], bound))
  }

  function TextKeys(xs: seq<string>): (ks: seq<Arg>)
    ensures |ks| == |xs| && forall i :: 0 <= i < |xs| ==> ks[i] == Text(xs[i])
  {
    seq(|xs|, i requires 0 <= i < |xs| => Text(xs[i]))
  }

  function NumberKeys(xs: seq<int>): (ks: seq<Arg>)
    ensures |ks| == |xs| && forall i :: 0 <= i < |xs| ==> ks[i] == Number(xs[i])
  {
    seq(|xs|, i requires 0 <= i < |xs| => Number(xs[i]))
  }

  /** `reversed(range(1, cpu + 1))`. */
  function Countdown(cpu: nat): (ks: seq<Arg>)
    ensures |ks| == cpu && forall i :: 0 <= i < cpu ==> ks[i] == Number(cpu - i)
  {
    seq(cpu, i requires 0 <= i < cpu => Number(cpu - i))
  }

  /** The `runCMD` argument a sweep varies. */
  datatype Slot = DictSlot | WordSlot | BlockSlot | ThreadSlot

  const NoArgs := Args(Absent, Absent, Absent, Absent)

  /** The arguments with the swept one set to `key`. */
  function Fill(fixed: Args, slot: Slot, key: Arg): Args {
    match slot
    case DictSlot => fixed.(dict := key)
    case WordSlot => fixed.(word := key)
    case BlockSlot => fixed.(block := key)
    case ThreadSlot => fixed.(threads := key)
  }

  /** The `info` dict so far, the commands run so far, and the working
      directory. */
  datatype SweepState = SweepState(info: Table<Arg>, runs: seq<seq<string>>, after: Listing)

  /** One loop body: `runCMD(...)`, `info[key] = getTotalSizeOfArchives()`,
      `removeArchives()`. */
  function Next(s: SweepState, path: string, compress: Compressor, args: Args, key: Arg): SweepState {
    var written := RunAll(s.after, path, args, compress);
    SweepState(Put(s.info, key, ArchiveTotal(written)),
               s.runs + Commands(path, args, Directories(s.after)),
               Clean(written))
  }

  /** The state after running the loop body for each of `keys`, from `e`. */
  function Swept(e: Listing, path: string, compress: Compressor, fixed: Args, slot: Slot, keys: seq<Arg>): SweepState
    decreases |keys|
  {
    if |keys| == 0 then SweepState([], [], e)
    else
      var key := keys[|keys| - 1];
      Next(Swept(e, path, compress, fixed, slot, keys[..|keys| - 1]), path, compress, Fill(fixed, slot, key), key)
  }

  /** What a sweep returns (its dict or the error it ends with), the
      commands it ran, and the working directory it leaves. */
  datatype SweepOutcome = SweepOutcome(info: Result<Table<Arg>>, runs: seq<seq<string>>, after: Listing)

  function Conclude(plan: Plan, s: SweepState): SweepOutcome {
    SweepOutcome(if plan.error.Some? then Fail(plan.error.value) else Ok(s.info), s.runs, s.after)
  }

  /** `testAllDictSizes()`, given the bound `minimumLargestDictSize()`
      computed (or the error it raised). */
  function DictSweep(e: Listing, path: string, compress: Compressor, limit: Result<Option<nat>>): SweepOutcome {
    match limit
    case Fail(err) => SweepOutcome(Fail(err), [], e)
    case Ok(bound) =>
      var plan := DictPlanIn(DictSizes, bound);
      Conclude(plan, Swept(e, path, compress, NoArgs, DictSlot, plan.ran))
  }

  /** `testAllWordSizes(dict)`. */
  function WordSweep(e: Listing, path: string, compress: Compressor, dict: Arg): SweepOutcome {
    Conclude(Plan(NumberKeys(WordSizes), None),
             Swept(e, path, compress, NoArgs.(dict := dict), WordSlot, NumberKeys(WordSizes)))
  }

  /** `testAllBlockSizes(dict, word)`, given `minimumLargestBlockSize()`. */
  function BlockSweep(e: Listing, path: string, compress: Compressor, limit: Result<Option<nat>>, dict: Arg, word: Arg): SweepOutcome {
    match limit
    case Fail(err) => SweepOutcome(Fail(err), [], e)
    case Ok(bound) =>
      var plan := BlockPlanIn(BlockSizes, bound);
      Conclude(plan, Swept(e, path, compress, NoArgs.(dict := dict, word := word), BlockSlot, plan.ran))
  }

  /** `testNThreads(dict, word, block)` with `os.cpu_count()` given as `cpu`. */
  function ThreadSweep(e: Listing, path: string, compress: Compressor, cpu: nat, dict: Arg, word: Arg, block: Arg): SweepOutcome {
    Conclude(Plan(Countdown(cpu), None),
             Swept(e, path, compress, NoArgs.(dict := dict, word := word, block := block), ThreadSlot, Countdown(cpu)))
  }

  /** The commands of one `runCMD` per key, in order. */
  function SweepCommands(path: string, fixed: Args, slot: Slot, keys: seq<Arg>, dirs: seq<string>): seq<seq<string>>
    decreases |keys|
  {
    if |keys| == 0 then []
    else
      SweepCommands(path, fixed, slot, keys[..|keys| - 1], dirs)
      + Commands(path, Fill(fixed, slot, keys[|keys| - 1]), dirs)
  }

  /** The dict a sweep of distinct keys builds on a clean directory: each
      key with the archive total its own run measures, in run order. */
  function Measured(e: Listing, path: string, compress: Compressor, fixed: Args, slot: Slot, keys: seq<Arg>): (t: Table<Arg>)
    ensures |t| == |keys|
    ensures forall i :: 0 <= i < |keys| ==> t[i] == (keys[i], Measure(e, path, Fill(fixed, slot, keys[i]), compress))
  {
    seq(|keys|, i requires 0 <= i < |keys| => (keys[i], Measure(e, path, Fill(fixed, slot, keys[i]), compress)))
  }

  /** On a directory without archives every run starts from that same
      directory, so the sweep leaves it as it found it. */
  lemma {:induction false} SweptAfter(e: Listing, path: string, compress: Compressor, fixed: Args, slot: Slot, keys: seq<Arg>)
    requires NoArchives(e)
    ensures Swept(e, path, compress, fixed, slot, keys).after == e
    decreases |keys|
  {
    if |keys| > 0 {
      var n := |keys| - 1;
      SweptAfter(e, path, compress, fixed, slot, keys[..n]);
      RunAllInvisible(e, path, Fill(fixed, slot, keys[n]), compress);
      CleanOfClean(e);
    }
  }

  /** The sweep runs one `runCMD` per key on the directories of `e`. */
  lemma {:induction false} SweptRuns(e: Listing, path: string, compress: Compressor, fixed: Args, slot: Slot, keys: seq<Arg>)
    requires NoArchives(e)
    ensures Swept(e, path, compress, fixed, slot, keys).runs == SweepCommands(path, fixed, slot, keys, Directories(e))
    decreases |keys|
  {
    if |keys| > 0 {
      var n := |keys| - 1;
      SweptRuns(e, path, compress, fixed, slot, keys[..n]);
      SweptAfter(e, path, compress, fixed, slot, keys[..n]);
    }
  }

  /** With distinct keys the dict holds each key's own measurement on `e`,
      in run order. */
  lemma {:induction false} SweptInfo(e: Listing, path: string, compress: Compressor, fixed: Args, slot: Slot, keys: seq<Arg>)
    requires NoArchives(e) && Distinct(keys)
    ensures Swept(e, path, compress, fixed, slot, keys).info == Measured(e, path, compress, fixed, slot, keys)
    decreases |keys|
  {
    if |keys| > 0 {
      var n := |keys| - 1;
      var init, key := keys[..n], keys[n];
      DistinctInit(keys);
      SweptInfo(e, path, compress, fixed, slot, init);
      SweptAfter(e, path, compress, fixed, slot, init);
      MeasuredFresh(e, path, compress, fixed, slot, keys);
      var prev := Swept(e, path, compress, fixed, slot, init);
      NextOnClean(prev, e, path, compress, Fill(fixed, slot, key), key);
      MeasuredSnoc(e, path, compress, fixed, slot, keys);
    }
  }

  lemma DistinctInit(keys: seq<Arg>)
    requires Distinct(keys) && |keys| > 0
    ensures Distinct(keys[..|keys| - 1])
    ensures forall i :: 0 <= i < |keys| - 1 ==> keys[i] != keys[|keys| - 1]
  {
  }

  /** The last of distinct keys is not among the keys measured before it. */
  lemma MeasuredFresh(e: Listing, path: string, compress: Compressor, fixed: Args, slot: Slot, keys: seq<Arg>)
    requires Distinct(keys) && |keys| > 0
    ensures var t := Measured(e, path, compress, fixed, slot, keys[..|keys| - 1]);
            forall i :: 0 <= i < |t| ==> t[i].0 != keys[|keys| - 1]
  {
  }

  /** A loop body run from a clean directory with a new key appends that
      key's measurement. */
  lemma NextOnClean(s: SweepState, e: Listing, path: string, compress: Compressor, args: Args, key: Arg)
    requires s.after == e && forall i :: 0 <= i < |s.info| ==> s.info[i].0 != key
    ensures Next(s, path, compress, args, key).info == s.info + [(key, Measure(e, path, args, compress))]
  {
    assert Find(s.info, key) == |s.info|;
  }

  lemma MeasuredSnoc(e: Listing, path: string, compress: Compressor, fixed: Args, slot: Slot, keys: seq<Arg>)
    requires |keys| > 0
    ensures Measured(e, path, compress, fixed, slot, keys)
            == Measured(e, path, compress, fixed, slot, keys[..|keys| - 1])
               + [(keys[|keys| - 1], Measure(e, path, Fill(fixed, slot, keys[|keys| - 1]), compress))]
  {
  }

  /** A sweep of distinct keys on a clean directory: `smallestSize` of its
      dict fails exactly when there are no keys, and otherwise picks the
      first key whose run measured the smallest total. */
  lemma SweptWinner(e: Listing, path: string, compress: Compressor, fixed: Args, slot: Slot, keys: seq<Arg>)
    requires NoArchives(e) && Distinct(keys)
    ensures Smallest(Swept(e, path, compress, fixed, slot, keys).info) == Fail(EmptyTable) <==> |keys| == 0
    ensures Smallest(Swept(e, path, compress, fixed, slot, keys).info).Ok? ==>
              exists m :: 0 <= m < |keys| && IsFirstMinimal(Measured(e, path, compress, fixed, slot, keys), m)
                && Smallest(Swept(e, path, compress, fixed, slot, keys).info).value
                   == (keys[m], Measure(e, path, Fill(fixed, slot, keys[m]), compress))
  {
    SweptInfo(e, path, compress, fixed, slot, keys);
  }
}
