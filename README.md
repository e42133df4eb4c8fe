# 7z parameter tuner — verified model of the parameter search

`tool.py` looks for the 7z settings that compress the directories of the current working
directory best. It works in five steps:

1. It removes stale `.7z` archives.
2. It asks `du -sm */` for the size of the largest directory. From that size it derives an upper
   bound for the dictionary size and one for the block size.
3. It sweeps four settings in turn: dictionary size, word size, block size, thread count. Each
   sweep runs 7z on every directory once per candidate. It records the total size of the archives
   written in an insertion-ordered dict, then deletes them again.
4. After each sweep, `smallestSize` picks the winner: the first candidate with the smallest total.
   Each winner is fixed for the sweeps after it.
5. Finally it compresses every directory with the four winners.

This project models that search in Dafny and proves what it does. It follows the code, including
its quirks:

- The dictionary table starts with `'64k'`, which the tool reads as the number 64. So when the
  largest directory is below 48 MB, the dictionary sweep runs nothing. Its dict is then empty and
  `min()` raises.
- The bound functions fall off the end and return `None` once the largest directory is large
  enough: from 1536 MB for the dictionary, from 512 MB for blocks. Comparing an int with `None`
  then raises `TypeError`.
- The block sweep compares only the entries ending in `m` with its bound. When that bound is 512,
  the loop reaches the `g` entries, and they all run.
- As a result, a run gets through exactly when the largest directory has 48 to 511 MB and there is
  at least one CPU (`Search.TuningOutcome`).

The modules:

- **Outcomes**: `Option`, `Result`, and the Python exceptions the tool can raise.
- **PyText**: what the tool uses of Python strings:
  - `s[:-1]`, `in`, `endswith`, `startswith`;
  - `str.split()`;
  - `int()` on decimal digits.
- **Candidates**: the three tables of `values`, and the number `int(s[:-1])` reads from each entry.
- **OrderedTable**: a Python dict as a sequence of (key, value) pairs in insertion order:
  - assignment;
  - `min(d, key=d.get)` and `max(d, key=d.get)`.
- **Workspace**: the working directory as the sequence of entries a glob lists:
  - `directories()`;
  - the effect of `removeArchives()`, `getTotalSizeOfArchives()` and `runCMD(...)` on the listing.
- **CommandLine**: the 7z command line that `runCMD` assembles for one directory.
- **Invoker**: the class `WorkDir`, whose methods change the listing in place:
  - `removeArchives`, `getTotalSizeOfArchives` and `runCMD`;
  - `runCMD` edits its list `cmd` with insert, extend and delete, as the code does.
- **SizeProbe**: `getLargestDirectorySize()` over the lines `du` prints.
- **Bounds**: `minimumLargestDictSize()` and `minimumLargestBlockSize()`.
- **Plans**: which candidates each bounded sweep runs, for every bound.
- **Sweeps**: the four sweeps as functions over the listing, with their results.
- **Search**: `main()` as a function, with what it returns, runs and leaves behind.
- **Tuner**: the sweeps and `main()` as loops over a `WorkDir`, each proved equal to its function
  in Sweeps or Search.
- **Seqs**: distinctness of a sequence's elements, and three generic sequence facts.

The compressor is a parameter `compress`. It maps a command line to the size of the archive that
command writes, or to nothing. The output of `du` is a parameter too, and so is `os.cpu_count()`.

## Model

| member | source | states |
|---|---|---|
| Candidates.DictReadings | tool.py:21-27 | all 22 dictionary entries read back with `int(s[:-1])` as their amounts (`'64k'` reads as 64); exactly the entries after the first contain `m` |
| Candidates.DictAmounts | tool.py:21-27 | `'64k'` and `'64m'` both read as 64 and the last entry as 1536; the megabyte entries strictly increase |
| Candidates.BlockReadings | tool.py:28-34 | the block table starts with `'=off'` and `'=on'`, which end in neither `m` nor `g`; every other entry reads as its amount; it ends in `m` exactly up to `'512m'` and in `g` from `'1g'` on |
| Candidates.BlockAmounts | tool.py:28-34 | the `m` entries read 1..512 and strictly increase; the `g` entries read 1..64 and strictly increase; no entry reads above 512 |
| Plans.DictSizesDistinct | tool.py:21-27 | no dictionary entry occurs twice, so each key of the sweep's dict is a new key |
| Plans.BlockSizesDistinct | tool.py:28-34 | no block entry occurs twice |
| Plans.WordKeysDistinct | tool.py:16-20 | no word size occurs twice |
| PyText.DropLast | tool.py:93 | `s[:-1]` is `s` without its last character, and empty on the empty string |
| PyText.ParseDecimal | tool.py:93 | `int()` on a du size succeeds exactly on a non-empty string of decimal digits |
| PyText.ParseNatToDecimal | tool.py:93 | `int(str(n)) == n` for every natural number: the decimal printer and the parser are inverse |
| PyText.Split | tool.py:88 | every word of `str.split()` is non-empty and holds no whitespace |
| PyText.WordPrefixOf | tool.py:88 | a word ends at the first whitespace character or at the end of the string |
| PyText.SplitWord | tool.py:88 | a leading word followed by whitespace or the end becomes the first item of the split, and the split goes on with the rest |
| PyText.SplitSpace | tool.py:88 | leading whitespace is skipped |
| PyText.SplitNone | tool.py:88 | `str.split()` is empty exactly when the string holds nothing but whitespace |
| PyText.SplitJoin | tool.py:88 | splitting words joined by blanks gives back the words, for any non-empty words without whitespace |
| OrderedTable.Put | tool.py:93 | `d[k] = v`: `k` now maps to `v` and every other key keeps its value; an existing key keeps its position, a new key is appended; distinct keys stay distinct |
| OrderedTable.Smallest | tool.py:130-135 | `min(d, key=d.get)` with its value: it fails with the `min()` ValueError exactly on an empty dict; otherwise it returns the entry at the first position whose value is not above any other value |
| OrderedTable.FirstMinimalUnique | tool.py:130-135 | at most one position is the first minimal one, so the winner is determined |
| OrderedTable.SmallestOfTie | tool.py:130-135 | when all values are equal, the first key inserted wins |
| OrderedTable.Largest | tool.py:95-96 | `max(d, key=d.get)` fails exactly on an empty dict; otherwise its value is stored and no value is above it |
| OrderedTable.LargestAbove | tool.py:95-96 | every stored value is at most the maximum |
| Workspace.DirectoriesMeaning | tool.py:38-47 | a name is yielded by `directories()` exactly when it is a directory of the listing, does not start with `.` and is not `venv` |
| Workspace.DirectoriesAppend | tool.py:45-47 | the filter works entry by entry: on two listings joined it yields the two results joined |
| Workspace.CleanMeaning | tool.py:50-56 | after `removeArchives()`, an entry remains exactly when it was there and is not a file ending in `.7z`; no archive remains |
| Workspace.CleanIsFinal | tool.py:50-69 | `removeArchives()` is idempotent, and afterwards `getTotalSizeOfArchives()` is 0 |
| Workspace.DirectoriesOfClean | tool.py:38-56 | removing the archives does not change the directories `directories()` yields |
| Workspace.NoArchivesTotal | tool.py:59-69 | without archives the total is 0 |
| Workspace.ArchiveName | tool.py:168 | the archive name `f'{name}.7z'` ends in `.7z` |
| Workspace.WriteArchiveMeaning | tool.py:168-169 | after 7z writes archive `name`, the listing holds that file with its new size, plus every earlier entry except an older file of that name |
| Workspace.WriteArchiveInvisible | tool.py:167-170 | writing an archive changes neither what `removeArchives()` keeps nor the directories |
| Workspace.RunAllInvisible | tool.py:167-170 | a whole `runCMD` changes neither what `removeArchives()` keeps nor the directories |
| Workspace.ArchiveNameInjective | tool.py:168 | two directories never share an archive name |
| Workspace.WithoutAbsent | tool.py:168-169 | writing an archive whose name no file carries replaces nothing |
| Workspace.WriteAllEntries | tool.py:167-170 | after a `runCMD` every entry was there before or is the archive of one of the directories |
| Workspace.WriteAllTotal | tool.py:167-170 | starting without archives, the archives the runs leave add up to the sizes the compressor reported, one per directory |
| Workspace.MeasureMeaning | tool.py:59-69 | `getTotalSizeOfArchives()` right after `runCMD` on a listing without archives is the sum of the archive sizes the compressor reports for each directory's command |
| CommandLine.InsertKeepsSeparatorLast | tool.py:153 | `cmd.insert(cmd.index('--'), x)` on a list whose only `--` is last puts `x` just before it |
| CommandLine.FlagsReadBack | tool.py:151-165 | each of `-md`, `-mfb`, `-ms`, `-mmt` is in the switches exactly when its argument is truthy, and then carries the argument's f-string rendering |
| CommandLine.FlagsAreNotSeparator | tool.py:151-165 | no switch is `--`, so the later inserts still find the separator |
| Invoker.InsertSwitch | tool.py:151-165 | one `if x: cmd.insert(...)` step adds the switch before the trailing `--` exactly when `x` is truthy |
| Invoker.AssembleTemplate | tool.py:144-165 | the command is `[path, 'a', '-mx9']`, then the switches of the truthy arguments in dict, word, block, thread order, then `--` |
| Invoker.WorkDir.RemoveArchives | tool.py:50-56 | the listing becomes the listing without its `.7z` files, order kept |
| Invoker.WorkDir.TotalSizeOfArchives | tool.py:59-69 | the result is the total size of the listing's `.7z` files |
| Invoker.WorkDir.RunCmd | tool.py:138-170 | one compressor run per directory of `directories()`, in listing order, each on the template plus `name.7z` and `name`; `cmd` is back to the template after each run; the listing gains the archives written |
| SizeProbe.ReadDuLine | tool.py:87-93 | one pass of the loop on a `du` line: the IndexError of a line with fewer than two fields, a skipped `venv` path, the ValueError of a size that is not a number, or the path without its trailing `/` with its size |
| SizeProbe.LargestDirectorySize | tool.py:72-96 | the loop over the `du` lines and the `max` return the size `DuLargest` specifies, with the same error |
| SizeProbe.CollectLastWins | tool.py:87-93 | when no line fails, `sizes.get(k)` is the size of the last line recorded under `k`, and None when there is none: a later line overwrites an earlier one |
| SizeProbe.FinalIsLast | tool.py:93 | a recorded line that no later line overwrites holds the last size recorded under its key |
| SizeProbe.LastIsFinal | tool.py:93 | every key with a last size has a recorded line with that size that no later line overwrites |
| SizeProbe.CollectMeaning | tool.py:87-93 | when no line fails, the `sizes` dict has distinct keys; it is empty exactly when no line is recorded; every entry in it comes from a recorded line; each key maps to the size of its last line; every line not overwritten later is in it; with distinct paths, every recorded line is |
| SizeProbe.CollectLargest | tool.py:87-96 | the maximum exists exactly when some line is recorded; it is the size of a line not overwritten later; it is at least the size of every such line; with distinct paths it is at least every recorded size |
| SizeProbe.DuTableMeaning | tool.py:87-93 | the same facts as CollectMeaning, stated for the `du` lines |
| SizeProbe.DuLargestMeaning | tool.py:87-96 | on readable lines, the result exists exactly when some line's path does not contain `venv`, and otherwise is the `max()` ValueError; it is the size of a line that no later line overwrites, at least the size of every such line, and with distinct paths at least every recorded size |
| SizeProbe.BlankPathEntry | tool.py:88-93 | for a `du` line whose path holds a blank, the key is the part of the path before the blank, less its last character |
| SizeProbe.DuPathCollision | tool.py:87-96 | two directories whose paths agree up to a blank get the same key, and the result is the second line's size whichever is larger |
| SizeProbe.DuFirstError | tool.py:87-93 | the first unreadable line decides the error, whatever follows it, and that error is not the empty-dict one |
| Bounds.DictIndexAbove | tool.py:107-112 | the position of the first entry after `'64k'` whose number is above `largest`, or the end of the table |
| Bounds.BlockIndexAbove | tool.py:121-127 | the first `m`/`g` entry whose number is above `largest`, only while `largest < 1024`, or the end of the table |
| Bounds.ScanDictSizes | tool.py:107-112 | the loop with early return over the dictionary strings computes the scan `DictScan` |
| Bounds.ScanBlockSizes | tool.py:121-127 | the loop with early return over the block strings computes the scan `BlockScan` |
| Bounds.MinimumLargestDictSize | tool.py:99-112 | the bound is `DictLimit`: the `du` error, or the scan of the dictionary table |
| Bounds.MinimumLargestBlockSize | tool.py:115-127 | the bound is `BlockLimit`: the `du` error, or the scan of the block table |
| Bounds.DictBoundMeaning | tool.py:99-112 | the dictionary bound is the number of the first megabyte entry above `largest`, never `'64k'`; it is `None` exactly when `largest >= 1536` |
| Bounds.BlockBoundMeaning | tool.py:115-127 | the block bound is the number of the first `m`/`g` entry above `largest`; it is `None` exactly when `largest >= 512`, and otherwise always comes from an `m` entry |
| Plans.DictStop | tool.py:185-187 | the position of the first dictionary entry whose number is above the bound, or the end |
| Plans.BlockStop | tool.py:218-221 | the position of the first `m` entry above the bound, or the end; modes and `g` entries never stop |
| Plans.DictPlanFrom | tool.py:185-196 | for every numeric bound, the dictionary sweep runs exactly the longest prefix of the table whose numbers are at most the bound, in table order, and raises nothing |
| Plans.BlockPlanFrom | tool.py:218-230 | for every numeric bound, the block sweep runs every entry up to the first `m` entry above the bound, the `g` entries included, in table order |
| Plans.DictPlanUnbounded | tool.py:185-186 | with a `None` bound the first comparison raises TypeError before anything runs |
| Plans.BlockPlanUnbounded | tool.py:218-221 | with a `None` bound `'=off'` and `'=on'` run, then `'1m'` raises TypeError |
| Plans.DictPlanMeaning | tool.py:183-196 | below 1536 MB the bound exists; below 48 MB nothing runs; otherwise every entry up to and including the first megabyte entry above the largest directory runs |
| Plans.BlockPlanMeaning | tool.py:216-230 | below 512 MB the bound comes from an `m` entry; every entry up to and including it runs; all `g` entries also run exactly when it is `'512m'`, i.e. from 256 MB on |
| Plans.CountdownDistinct | tool.py:242 | the thread counts `cpu, ..., 1` are distinct |
| Sweeps.SweptAfter | tool.py:191-194 | since each candidate's archives are removed after its run, a sweep from a directory without archives leaves it as it was |
| Sweeps.SweptRuns | tool.py:191 | a sweep runs one `runCMD` per candidate in order, each over the same directories |
| Sweeps.SweptInfo | tool.py:191-193 | from a directory without archives, the dict maps each of the distinct candidates, in order, to the archive total of its own run on that directory |
| Sweeps.SweptWinner | tool.py:130-135 | `smallestSize` of a sweep's dict fails exactly when it ran no candidate; otherwise it returns the first candidate whose own run measured the least, with that total |
| Search.DictSweepOutcome | tool.py:173-196 | `testAllDictSizes()`: the `du` error, with nothing run; TypeError from 1536 MB on, with nothing run; an empty dict below 48 MB; otherwise one run per dictionary candidate and a winner among them; the directory is left as it was |
| Search.WordSweepOutcome | tool.py:199-210 | `testAllWordSizes(dict)` runs every word size with the given dictionary and yields a winner among them |
| Search.BlockSweepUnbounded | tool.py:213-230 | from 512 MB on, `testAllBlockSizes` runs `'=off'` and `'=on'`, then raises TypeError |
| Search.BlockSweepBounded | tool.py:213-230 | below 512 MB, `testAllBlockSizes` runs each block candidate with the given dictionary and word sizes and yields a winner among them |
| Search.ThreadSweepOutcome | tool.py:233-250 | `testNThreads` runs the thread counts from `cpu` down to 1; with no CPU its dict is empty, otherwise it yields a winner |
| Search.TuningOutcome | tool.py:253-274 | `main()` succeeds exactly when the largest directory has 48 to 511 MB and `cpu >= 1`; otherwise it raises the `du` error, or the empty-dict ValueError (below 48 MB, or no CPU), or TypeError (512 MB and over); with nothing run when that happens in the first sweep |
| Search.TuningChoice | tool.py:253-274 | on success each of the four settings is the winner of its own sweep given the earlier winners, and the directory is left with the archives of the final run with all four |
| Search.TuningRuns | tool.py:253-274 | on success the commands are the four sweeps' runs in order, each with the earlier winners fixed, then the final run with the four winners |
| Search.TuningKeepsSources | tool.py:253-274 | however `main()` ends, it leaves the directories and all non-archive files as it found them |
| Search.TuningRepeatable | tool.py:254 | a second run in the directory the first left does exactly what the first did, because `main()` first removes stale archives |
| Search.TieGoesToFirst | tool.py:130-135 | when all candidates of a sweep measure the same, the first candidate in table order wins |
| Search.MostThreadsOnTie | tool.py:238-250 | when all thread counts measure the same, `testNThreads` picks `cpu`, the most threads |
| Tuner.RunCandidate | tool.py:191-194 | one loop body (`runCMD`, record the total, `removeArchives`) takes the sweep state for the keys done to that for the keys done plus this one |
| Tuner.SweepDictSizes | tool.py:185-196 | the loop with `break` over the dictionary strings returns and leaves what `DictPlanIn` and `Swept` specify |
| Tuner.TestAllDictSizes | tool.py:173-196 | `testAllDictSizes()` returns, leaves and runs what `Sweeps.DictSweep` specifies |
| Tuner.SweepAll | tool.py:202-208 | a sweep loop without `break` over `keys` returns and leaves what `Swept` specifies |
| Tuner.TestAllWordSizes | tool.py:199-210 | `testAllWordSizes(dict)` returns, leaves and runs what `Sweeps.WordSweep` specifies |
| Tuner.SweepBlockSizes | tool.py:218-230 | the loop with `break` over the block strings returns and leaves what `BlockPlanIn` and `Swept` specify |
| Tuner.TestAllBlockSizes | tool.py:213-230 | `testAllBlockSizes(dict, word)` returns, leaves and runs what `Sweeps.BlockSweep` specifies |
| Tuner.TestNThreads | tool.py:233-250 | `testNThreads(dict, word, block)` returns, leaves and runs what `Sweeps.ThreadSweep` specifies |
| Tuner.RunSearch | tool.py:253-274 | `main()` ends, runs and leaves the directory as `Search.Tuning` specifies; all the facts proved about `Tuning` apply to it |
| Tuner.RunDictStage | tool.py:256 | the dictionary sweep and everything after it, as `Search.DictStage` specifies |
| Tuner.RunWordStage | tool.py:259 | the word sweep and everything after it, as `Search.WordStage` specifies |
| Tuner.RunBlockStage | tool.py:264 | the block sweep and everything after it, as `Search.BlockStage` specifies |
| Tuner.RunThreadStage | tool.py:267-274 | the thread sweep and the final `runCMD` with the four winners, as `Search.ThreadStage` specifies |

## Left out

- The 7z binary lookup is not modelled: `shutil.which('7z')` and `sys.exit` (tool.py:9-12). The
  path to 7z is a parameter `path`.
- Compression itself is not modelled. The `subprocess.run` of 7z is the parameter `compress`: it
  gives the size of the archive a command writes, or nothing. Its exit status is ignored, as in the
  code.
- The `du -sm */` subprocess is not modelled (tool.py:80-85). Its output is given as lines. Both
  calls, one per bound, see the same lines. This matches the code: `du` measures only directories,
  and the archives are files.
- `os.cpu_count()` is the parameter `cpu`. Its `None` result is not modelled.
- The filesystem is a sequence of entries in glob order, not a map from names to sizes. The order
  matters: `runCMD` compresses the directories in that order.
- The directories are listed once, before the first 7z run. The code's generator lists them
  lazily. The archives written are files, so they never become directories
  (`Workspace.WriteArchiveInvisible`).
- `print` progress output is left out.
- PyText.ParseDecimal: `int()` is modelled only on ASCII decimal digits. Python also accepts a
  sign, surrounding whitespace, underscores and non-ASCII digits. `du` never prints those.
- PyText.Split: `str.split()` separates on ASCII whitespace only. Python also splits on the
  Unicode whitespace characters.
- Invoker.AssembleTemplate, Invoker.WorkDir.RunCmd and every `Tuner` method require `path != "--"`.
  The code has no such requirement. But `shutil.which` returns a path to a file, which is never
  `--`. If it were, `cmd.index('--')` would find the path first.
- The sweep loops end through a flag instead of `break`, `return` or an exception. They decide the
  same thing, and `Tuner.SweepDictSizes` and `Tuner.SweepBlockSizes` prove it against the
  functions they implement.
- Compression quality is not modelled: whether a larger dictionary can help at all is a property
  of 7z, not of the tool.
- SizeProbe.DuLargestMeaning: "at least every recorded size" holds only for the lines no later
  line overwrites. The key is the second word of `line.split()`, so a path with a blank is cut at
  the blank, and two directories such as `a b/` and `a c/` both get the key `a` less its last
  character. The later line then replaces the earlier size, even a larger one
  (`SizeProbe.DuPathCollision`). The lemma states the bound for every line not overwritten later,
  and for all recorded lines when the keys are distinct.
- SizeProbe.CollectMeaning: every recorded line is in the dict only when the keys are distinct.
  Otherwise only the last line of each key is, as the last-size clauses state.
- SizeProbe.DuTableMeaning: the same, for the `du` lines.
- Workspace.MeasureMeaning requires distinct directory names. A directory lists each name once;
  the listing type alone does not say so.
