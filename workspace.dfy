/** The working directory the tool compresses: its top-level entries in
    listing order, and what a compressor run, `removeArchives` and
    `getTotalSizeOfArchives` make of them. */
module Workspace {
  import opened Outcomes
  import opened PyText
  import opened CommandLine
  import opened Seqs

  /** A top-level entry of the working directory. */
  datatype Entry = Directory(name: string) | File(name: string, size: nat)

  /** The entries as `Path().glob('*')` lists them. */
  type Listing = seq<Entry>

  /** The compressor as seen from the tool: given a command line, the size of
      the archive it leaves behind, or None when it writes none. */
  type Compressor = seq<string> -> Option<nat>

  /** `thing.is_file() and thing.name.endswith('.7z')`. */
  predicate IsArchive(e: Entry) {
    e.File? && HasSuffix(e.name, ".7z")
  }

  /** The archive a directory is compressed into. */
  function ArchiveName(dir: string): (name: string)
    ensures HasSuffix(name, ".7z")
  {
    var name := dir + ".7z";
    assert name[|name| - 3..] == ".7z";
    name
  }

  /** `directories()`: the names of the directories not starting with '.' and
      not named "venv", in listing order. */
  function Directories(l: Listing): (dirs: seq<string>)
    decreases |l|
  {
    if |l| == 0 then []
    else
      var e := l[|l| - 1];
      Directories(l[..|l| - 1])
      + (if e.Directory? && !StartsWith(e.name, '.') && e.name != "venv" then [e.name] else [])
  }

  /** The listing after every archive has been deleted. */
  function Clean(l: Listing): (r: Listing)
    decreases |l|
  {
    if |l| == 0 then []
    else
      var e := l[|l| - 1];
      Clean(l[..|l| - 1]) + (if IsArchive(e) then [] else [e])
  }

  /** The sum of the sizes of the archives in the listing. */
  function ArchiveTotal(l: Listing): nat
    decreases |l|
  {
    if |l| == 0 then 0
    else
      var e := l[|l| - 1];
      ArchiveTotal(l[..|l| - 1]) + (if IsArchive(e) then e.size else 0)
  }

  predicate NoArchives(l: Listing) {
    forall i :: 0 <= i < |l| ==> !IsArchive(l[i])
  }

  /** The listing without the files called `name`. */
  function Without(l: Listing, name: string): (r: Listing)
    decreases |l|
  {
    if |l| == 0 then []
    else
      var e := l[|l| - 1];
      Without(l[..|l| - 1], name) + (if e.File? && e.name == name then [] else [e])
  }

  /** The listing once the compressor has written archive `name` of `size`
      bytes, replacing any file of that name. */
  function WriteArchive(l: Listing, name: string, size: nat): (r: Listing)
  {
    Without(l, name) + [File(name, size)]
  }

  /** The listing after one command per directory of `dirs`, in order. */
  function WriteAll(l: Listing, path: string, args: Args, compress: Compressor, dirs: seq<string>): Listing
    decreases |dirs|
  {
    if |dirs| == 0 then l
    else
      var dir := dirs[|dirs| - 1];
      AfterRun(WriteAll(l, path, args, compress, dirs[..|dirs| - 1]), dir, compress(Command(path, args, dir)))
  }

  /** The listing after the compressor ran on `dir` and wrote `written`. */
  function AfterRun(l: Listing, dir: string, written: Option<nat>): Listing {
    match written
    case None => l
    case Some(size) => WriteArchive(l, ArchiveName(dir), size)
  }

  lemma WriteAllStep(l: Listing, path: string, args: Args, compress: Compressor, dirs: seq<string>, i: nat)
    requires i < |dirs|
    ensures WriteAll(l, path, args, compress, dirs[..i + 1])
            == AfterRun(WriteAll(l, path, args, compress, dirs[..i]), dirs[i], compress(Command(path, args, dirs[i])))
  {
    assert dirs[..i + 1][..i] == dirs[..i];
  }

  /** The listing after `runCMD(args)` on listing `l`. */
  function RunAll(l: Listing, path: string, args: Args, compress: Compressor): Listing {
    WriteAll(l, path, args, compress, Directories(l))
  }

  /** What `getTotalSizeOfArchives()` returns right after `runCMD(args)`. */
  function Measure(l: Listing, path: string, args: Args, compress: Compressor): nat {
    ArchiveTotal(RunAll(l, path, args, compress))
  }

  /** An entry is listed by `directories()` exactly when it is a directory
      of the listing, not hidden and not "venv". */
  lemma {:induction false} DirectoriesMeaning(l: Listing)
    ensures forall n :: n in Directories(l) <==> Directory(n) in l && !StartsWith(n, '.') && n != "venv"
    decreases |l|
  {
    if |l| > 0 {
      DirectoriesMeaning(l[..|l| - 1]);
      assert l == l[..|l| - 1] + [l[|l| - 1]];
    }
  }

  /** `removeArchives()` keeps exactly the entries that are not archives. */
  lemma {:induction false} CleanMeaning(l: Listing)
    ensures forall e :: e in Clean(l) <==> e in l && !IsArchive(e)
    ensures NoArchives(Clean(l))
    decreases |l|
  {
    if |l| > 0 {
      CleanMeaning(l[..|l| - 1]);
      assert l == l[..|l| - 1] + [l[|l| - 1]];
    }
  }

  lemma {:induction false} WithoutMeaning(l: Listing, name: string)
    ensures forall e :: e in Without(l, name) <==> e in l && !(e.File? && e.name == name)
    decreases |l|
  {
    if |l| > 0 {
      WithoutMeaning(l[..|l| - 1], name);
      assert l == l[..|l| - 1] + [l[|l| - 1]];
    }
  }

  /** After the compressor writes archive `name` the listing holds that
      archive and, of the other entries, every one not called `name`. */
  lemma WriteArchiveMeaning(l: Listing, name: string, size: nat)
    ensures forall e :: e in WriteArchive(l, name, size) <==> e == File(name, size) || (e in l && !(e.File? && e.name == name))
  {
    WithoutMeaning(l, name);
  }

  lemma {:induction false} CleanAppend(a: Listing, b: Listing)
    ensures Clean(a + b) == Clean(a) + Clean(b)
    decreases |b|
  {
    if |b| == 0 {
      assert a + b == a;
    } else {
      assert (a + b)[..|a + b| - 1] == a + b[..|b| - 1];
      CleanAppend(a, b[..|b| - 1]);
    }
  }

  lemma {:induction false} DirectoriesAppend(a: Listing, b: Listing)
    ensures Directories(a + b) == Directories(a) + Directories(b)
    decreases |b|
  {
    if |b| == 0 {
      assert a + b == a;
    } else {
      assert (a + b)[..|a + b| - 1] == a + b[..|b| - 1];
      DirectoriesAppend(a, b[..|b| - 1]);
    }
  }

  /** Without archives nothing is left to delete. */
  lemma {:induction false} CleanOfClean(l: Listing)
    requires NoArchives(l)
    ensures Clean(l) == l
    decreases |l|
  {
    if |l| > 0 {
      CleanOfClean(l[..|l| - 1]);
    }
  }

  /** Deleting archives twice deletes nothing more, and leaves none and a
      total of zero behind. */
  lemma CleanIsFinal(l: Listing)
    ensures NoArchives(Clean(l)) && Clean(Clean(l)) == Clean(l)
    ensures ArchiveTotal(Clean(l)) == 0
  {
    CleanMeaning(l);
    CleanOfClean(Clean(l));
    NoArchivesTotal(Clean(l));
  }

  lemma {:induction false} NoArchivesTotal(l: Listing)
    requires NoArchives(l)
    ensures ArchiveTotal(l) == 0
    decreases |l|
  {
    if |l| > 0 {
      NoArchivesTotal(l[..|l| - 1]);
    }
  }

  /** Deleting archives leaves the directories as they were. */
  lemma {:induction false} DirectoriesOfClean(l: Listing)
    ensures Directories(Clean(l)) == Directories(l)
    decreases |l|
  {
    if |l| > 0 {
      var init, e := l[..|l| - 1], l[|l| - 1];
      DirectoriesOfClean(init);
      DirectoriesAppend(Clean(init), if IsArchive(e) then [] else [e]);
    }
  }

  lemma {:induction false} WithoutArchive(l: Listing, name: string)
    requires HasSuffix(name, ".7z")
    ensures Clean(Without(l, name)) == Clean(l)
    ensures Directories(Without(l, name)) == Directories(l)
    decreases |l|
  {
    if |l| > 0 {
      var init, e := l[..|l| - 1], l[|l| - 1];
      WithoutArchive(init, name);
      var kept := if e.File? && e.name == name then [] else [e];
      CleanAppend(Without(init, name), kept);
      DirectoriesAppend(Without(init, name), kept);
    }
  }

  /** Writing an archive changes neither what `removeArchives` leaves nor the
      directory list. */
  lemma WriteArchiveInvisible(l: Listing, name: string, size: nat)
    requires HasSuffix(name, ".7z")
    ensures Clean(WriteArchive(l, name, size)) == Clean(l)
    ensures Directories(WriteArchive(l, name, size)) == Directories(l)
  {
    WithoutArchive(l, name);
    CleanAppend(Without(l, name), [File(name, size)]);
    DirectoriesAppend(Without(l, name), [File(name, size)]);
    assert Clean([File(name, size)]) == [] && Directories([File(name, size)]) == [];
  }

  /** A compressor run only adds or replaces archives: deleting the archives
      afterwards gives back what deleting them before gives, and the
      directories stay the same. */
  lemma {:induction false} WriteAllInvisible(l: Listing, path: string, args: Args, compress: Compressor, dirs: seq<string>)
    ensures Clean(WriteAll(l, path, args, compress, dirs)) == Clean(l)
    ensures Directories(WriteAll(l, path, args, compress, dirs)) == Directories(l)
    decreases |dirs|
  {
    if |dirs| > 0 {
      var before := WriteAll(l, path, args, compress, dirs[..|dirs| - 1]);
      WriteAllInvisible(l, path, args, compress, dirs[..|dirs| - 1]);
      var dir := dirs[|dirs| - 1];
      match compress(Command(path, args, dir))
      case None =>
      case Some(size) => WriteArchiveInvisible(before, ArchiveName(dir), size);
    }
  }

  lemma RunAllInvisible(l: Listing, path: string, args: Args, compress: Compressor)
    ensures Clean(RunAll(l, path, args, compress)) == Clean(l)
    ensures Directories(RunAll(l, path, args, compress)) == Directories(l)
  {
    WriteAllInvisible(l, path, args, compress, Directories(l));
  }

  /** The sum of the archive sizes the compressor reports for the commands
      of `dirs`. */
  function Written(path: string, args: Args, compress: Compressor, dirs: seq<string>): nat
    decreases |dirs|
  {
    if |dirs| == 0 then 0
    else
      var dir := dirs[|dirs| - 1];
      Written(path, args, compress, dirs[..|dirs| - 1])
      + match compress(Command(path, args, dir)) case None => 0 case Some(size) => size
  }

  /** Two directories never share an archive name. */
  lemma ArchiveNameInjective(a: string, b: string)
    requires ArchiveName(a) == ArchiveName(b)
    ensures a == b
  {
    assert a == ArchiveName(a)[..|a|] && b == ArchiveName(b)[..|b|];
  }

  /** Removing a name no file carries changes nothing. */
  lemma {:induction false} WithoutAbsent(l: Listing, name: string)
    requires forall i :: 0 <= i < |l| ==> !(l[i].File? && l[i].name == name)
    ensures Without(l, name) == l
    decreases |l|
  {
    if |l| > 0 {
      WithoutAbsent(l[..|l| - 1], name);
    }
  }

  /** An entry after the runs on `dirs` was there before or is the archive of
      one of `dirs`. */
  lemma {:induction false} WriteAllEntries(l: Listing, path: string, args: Args, compress: Compressor, dirs: seq<string>)
    ensures forall e :: e in WriteAll(l, path, args, compress, dirs) ==>
              e in l || exists d :: d in dirs && e.File? && e.name == ArchiveName(d)
    decreases |dirs|
  {
    if |dirs| > 0 {
      var init, dir := dirs[..|dirs| - 1], dirs[|dirs| - 1];
      var before := WriteAll(l, path, args, compress, init);
      WriteAllEntries(l, path, args, compress, init);
      assert forall d :: d in init ==> d in dirs;
      match compress(Command(path, args, dir))
      case None =>
      case Some(size) => WriteArchiveMeaning(before, ArchiveName(dir), size);
    }
  }

  /** Starting without archives, the runs on distinct directories leave
      archives whose sizes add up to what the compressor reported. */
  lemma {:induction false} WriteAllTotal(l: Listing, path: string, args: Args, compress: Compressor, dirs: seq<string>)
    requires NoArchives(l) && Distinct(dirs)
    ensures ArchiveTotal(WriteAll(l, path, args, compress, dirs)) == Written(path, args, compress, dirs)
    decreases |dirs|
  {
    if |dirs| == 0 {
      NoArchivesTotal(l);
    } else {
      var init, dir := dirs[..|dirs| - 1], dirs[|dirs| - 1];
      assert Distinct(init);
      WriteAllTotal(l, path, args, compress, init);
      var before := WriteAll(l, path, args, compress, init);
      match compress(Command(path, args, dir))
      case None =>
      case Some(size) =>
        var name := ArchiveName(dir);
        WriteAllEntries(l, path, args, compress, init);
        forall d | d in init ensures ArchiveName(d) != name {
          if ArchiveName(d) == name {
            ArchiveNameInjective(d, dir);
          }
        }
        WithoutAbsent(before, name);
        var after := before + [File(name, size)];
        assert after[..|after| - 1] == before;
    }
  }

  /** On a listing without archives and with distinct directory names,
      `getTotalSizeOfArchives()` after `runCMD(args)` is the sum of the
      archive sizes the compressor reports for each directory's command. */
  lemma MeasureMeaning(l: Listing, path: string, args: Args, compress: Compressor)
    requires NoArchives(l) && Distinct(Directories(l))
    ensures Measure(l, path, args, compress) == Written(path, args, compress, Directories(l))
  {
    WriteAllTotal(l, path, args, compress, Directories(l));
  }
}
