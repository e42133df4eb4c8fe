/** The tool's effects on its working directory: `removeArchives`,
    `getTotalSizeOfArchives` and `runCMD`, as methods of the directory
    they change. */
module Invoker {
  import opened Outcomes
  import opened PyText
  import opened CommandLine
  import opened Workspace

  /** One `if x: cmd.insert(cmd.index('--'), f'{prefix}{x}')` step. */
  method InsertSwitch(cmd: seq<string>, ghost head: seq<string>, prefix: string, a: Arg) returns (r: seq<string>)
    requires cmd == head + ["--"] && NoSeparator(head)
    requires 2 <= |prefix| && prefix[1] == 'm'
    ensures r == head + Flag(prefix, a) + ["--"] && NoSeparator(head + Flag(prefix, a))
  {
    r := cmd;
    if Truthy(a) {
      var f := prefix + Render(a);
      assert f[1] == 'm';
      InsertKeepsSeparatorLast(head, f);
      r := InsertBeforeSeparator(cmd, f);
    } else {
      assert head + Flag(prefix, a) == head;
    }
  }

  /** The 7z command before any directory is appended. */
  method AssembleTemplate(path: string, args: Args) returns (cmd: seq<string>)
    requires path != "--"
    ensures cmd == Template(path, args)
  {
    cmd := [path, "a", "-mx9", "--"];
    ghost var head := [path, "a", "-mx9"];
    assert cmd == head + ["--"];
    cmd := InsertSwitch(cmd, head, DictSwitch, args.dict);
    head := head + Flag(DictSwitch, args.dict);
    cmd := InsertSwitch(cmd, head, WordSwitch, args.word);
    head := head + Flag(WordSwitch, args.word);
    cmd := InsertSwitch(cmd, head, BlockSwitch, args.block);
    head := head + Flag(BlockSwitch, args.block);
    cmd := InsertSwitch(cmd, head, ThreadSwitch, args.threads);
    head := head + Flag(ThreadSwitch, args.threads);
    assert head == [path, "a", "-mx9"] + Flags(args);
  }

  /** The current working directory. `entries` is what a glob of it lists;
      `runs` logs every command handed to the compressor. */
  class WorkDir {
    var entries: Listing
    ghost var runs: seq<seq<string>>

    constructor (listing: Listing)
      ensures entries == listing && runs == []
    {
      entries := listing;
      runs := [];
    }

    /** `removeArchives()`: unlink every file whose name ends in ".7z". */
    method RemoveArchives()
      modifies this
      ensures entries == Clean(old(entries)) && runs == old(runs)
    {
      var listing := entries;
      var kept: Listing := [];
      var i := 0;
      while i < |listing|
        invariant 0 <= i <= |listing|
        invariant kept == Clean(listing[..i])
        invariant entries == kept + listing[i..]
        invariant runs == old(runs)
      {
        var thing := listing[i];
        assert listing[..i + 1][..i] == listing[..i];
        assert listing[i..] == [thing] + listing[i + 1..];
        if IsArchive(thing) {
          entries := kept + listing[i + 1..];
        } else {
          kept := kept + [thing];
        }
        i := i + 1;
      }
      assert listing[..i] == listing;
    }

    /** `getTotalSizeOfArchives()`: the bytes held by ".7z" files. */
    method TotalSizeOfArchives() returns (total: nat)
      ensures total == ArchiveTotal(entries)
    {
      total := 0;
      var i := 0;
      while i < |entries|
        invariant 0 <= i <= |entries|
        invariant total == ArchiveTotal(entries[..i])
      {
        var archive := entries[i];
        assert entries[..i + 1][..i] == entries[..i];
        if IsArchive(archive) {
          total := total + archive.size;
        }
        i := i + 1;
      }
      assert entries[..i] == entries;
    }

    /** `runCMD(...)`: one compressor run per directory, each on the template
        with that directory's archive and name appended. */
    method RunCmd(path: string, args: Args, compress: Compressor)
      requires path != "--"
      modifies this
      ensures entries == RunAll(old(entries), path, args, compress)
      ensures runs == old(runs) + Commands(path, args, Directories(old(entries)))
    {
      var dirs := Directories(entries);
      var cmd := AssembleTemplate(path, args);
      var i := 0;
      while i < |dirs|
        invariant 0 <= i <= |dirs|
        invariant cmd == Template(path, args)
        invariant entries == WriteAll(old(entries), path, args, compress, dirs[..i])
        invariant runs == old(runs) + Commands(path, args, dirs[..i])
      {
        var dir := dirs[i];
        WriteAllStep(old(entries), path, args, compress, dirs, i);
        CommandsStep(path, args, dirs, i);
        cmd := cmd + [ArchiveName(dir), dir];
        assert cmd == Command(path, args, dir);
        var written := compress(cmd);
        runs := runs + [cmd];
        if written.Some? {
          entries := WriteArchive(entries, ArchiveName(dir), written.value);
        }
        assert entries == AfterRun(WriteAll(old(entries), path, args, compress, dirs[..i]), dir, written);
        assert cmd[..|cmd| - 2] == Template(path, args);
        cmd := cmd[..|cmd| - 2];
        i := i + 1;
      }
      assert dirs[..i] == dirs;
    }
  }
}
