/** The 7z command line that `runCMD` assembles for one directory. */
module CommandLine {
  import opened Outcomes
  import opened PyText

  /** A keyword argument of `runCMD`: None, a string, or an int. */
  datatype Arg = Absent | Text(text: string) | Number(number: int)

  /** Python truthiness: None, "" and 0 are false. */
  predicate Truthy(a: Arg) {
    match a
    case Absent => false
    case Text(s) => s != ""
    case Number(n) => n != 0
  }

  /** What an f-string makes of the argument. */
  function Render(a: Arg): string {
    match a
    case Absent => "None"
    case Text(s) => s
    case Number(n) => IntToDecimal(n)
  }

  /** The four arguments of `runCMD(dict_size, word_size, block_size, threads)`. */
  datatype Args = Args(dict: Arg, word: Arg, block: Arg, threads: Arg)

  const DictSwitch := "-md"
  const WordSwitch := "-mfb"
  const BlockSwitch := "-ms"
  const ThreadSwitch := "-mmt"

  function Flag(prefix: string, a: Arg): seq<string> {
    if Truthy(a) then [prefix + Render(a)] else []
  }

  /** The switches inserted before "--", in the order the tool inserts them. */
  function Flags(args: Args): seq<string> {
    Flag(DictSwitch, args.dict) + Flag(WordSwitch, args.word)
    + Flag(BlockSwitch, args.block) + Flag(ThreadSwitch, args.threads)
  }

  /** The command template once the switches are in: `cmd` before and after
      every directory's run. */
  function Template(path: string, args: Args): seq<string> {
    [path, "a", "-mx9"] + Flags(args) + ["--"]
  }

  /** The command run for one directory. */
  function Command(path: string, args: Args, dir: string): seq<string> {
    Template(path, args) + [dir + ".7z", dir]
  }

  /** The commands one `runCMD` call runs, one per directory, in order. */
  function Commands(path: string, args: Args, dirs: seq<string>): (r: seq<seq<string>>)
    ensures |r| == |dirs| && forall i :: 0 <= i < |dirs| ==> r[i] == Command(path, args, dirs[i])
  {
    seq(|dirs|, i requires 0 <= i < |dirs| => Command(path, args, dirs[i]))
  }

  lemma CommandsStep(path: string, args: Args, dirs: seq<string>, i: nat)
    requires i < |dirs|
    ensures Commands(path, args, dirs[..i + 1]) == Commands(path, args, dirs[..i]) + [Command(path, args, dirs[i])]
  {
  }

  predicate HasPrefix(s: string, prefix: string) {
    |prefix| <= |s| && s[..|prefix|] == prefix
  }

  /** Reads a switch back: the text after `prefix` in the first element that
      starts with it. */
  function FlagValue(cmd: seq<string>, prefix: string): Option<string>
    decreases |cmd|
  {
    if |cmd| == 0 then None
    else if HasPrefix(cmd[0], prefix) then Some(cmd[0][|prefix|..])
    else FlagValue(cmd[1..], prefix)
  }

  lemma FlagValueAppend(a: seq<string>, b: seq<string>, prefix: string)
    requires forall i :: 0 <= i < |a| ==> !HasPrefix(a[i], prefix)
    ensures FlagValue(a + b, prefix) == FlagValue(b, prefix)
    decreases |a|
  {
    if |a| > 0 {
      assert (a + b)[0] == a[0] && !HasPrefix(a[0], prefix);
      assert (a + b)[1..] == a[1..] + b;
      FlagValueAppend(a[1..], b, prefix);
    } else {
      assert a + b == b;
    }
  }

  /** A switch is found under its own prefix. */
  lemma ReadOwnFlag(prefix: string, a: Arg, rest: seq<string>)
    ensures FlagValue(Flag(prefix, a) + rest, prefix)
            == if Truthy(a) then Some(Render(a)) else FlagValue(rest, prefix)
  {
    if Truthy(a) {
      var f := prefix + Render(a);
      assert (Flag(prefix, a) + rest)[0] == f;
      assert f[..|prefix|] == prefix && f[|prefix|..] == Render(a);
    } else {
      assert Flag(prefix, a) + rest == rest;
    }
  }

  /** A switch is never found under another switch's prefix. */
  lemma SkipOtherFlag(prefix: string, other: string, a: Arg, rest: seq<string>)
    requires 3 <= |prefix| && 3 <= |other| && prefix[..3] != other[..3]
    ensures FlagValue(Flag(other, a) + rest, prefix) == FlagValue(rest, prefix)
  {
    if Truthy(a) {
      var f := other + Render(a);
      assert f[..3] == other[..3];
      if |prefix| <= |f| {
        assert f[..|prefix|][..3] == f[..3];
      }
      FlagValueAppend(Flag(other, a), rest, prefix);
    } else {
      assert Flag(other, a) + rest == rest;
    }
  }

  /** Each switch present in the command carries exactly the argument it was
      built from, and is present only when that argument is truthy. */
  lemma FlagsReadBack(args: Args)
    ensures FlagValue(Flags(args), DictSwitch) == (if Truthy(args.dict) then Some(Render(args.dict)) else None)
    ensures FlagValue(Flags(args), WordSwitch) == (if Truthy(args.word) then Some(Render(args.word)) else None)
    ensures FlagValue(Flags(args), BlockSwitch) == (if Truthy(args.block) then Some(Render(args.block)) else None)
    ensures FlagValue(Flags(args), ThreadSwitch) == (if Truthy(args.threads) then Some(Render(args.threads)) else None)
  {
    var d, w, b, t := Flag(DictSwitch, args.dict), Flag(WordSwitch, args.word),
                      Flag(BlockSwitch, args.block), Flag(ThreadSwitch, args.threads);
    assert Flags(args) == d + (w + (b + (t + [])));
    assert DictSwitch[..3] == "-md" && WordSwitch[..3] == "-mf";
    assert BlockSwitch[..3] == "-ms" && ThreadSwitch[..3] == "-mm";
    ReadOwnFlag(DictSwitch, args.dict, w + (b + (t + [])));
    SkipOtherFlag(DictSwitch, WordSwitch, args.word, b + (t + []));
    SkipOtherFlag(DictSwitch, BlockSwitch, args.block, t + []);
    SkipOtherFlag(DictSwitch, ThreadSwitch, args.threads, []);

    SkipOtherFlag(WordSwitch, DictSwitch, args.dict, w + (b + (t + [])));
    ReadOwnFlag(WordSwitch, args.word, b + (t + []));
    SkipOtherFlag(WordSwitch, BlockSwitch, args.block, t + []);
    SkipOtherFlag(WordSwitch, ThreadSwitch, args.threads, []);

    SkipOtherFlag(BlockSwitch, DictSwitch, args.dict, w + (b + (t + [])));
    SkipOtherFlag(BlockSwitch, WordSwitch, args.word, b + (t + []));
    ReadOwnFlag(BlockSwitch, args.block, t + []);
    SkipOtherFlag(BlockSwitch, ThreadSwitch, args.threads, []);

    SkipOtherFlag(ThreadSwitch, DictSwitch, args.dict, w + (b + (t + [])));
    SkipOtherFlag(ThreadSwitch, WordSwitch, args.word, b + (t + []));
    SkipOtherFlag(ThreadSwitch, BlockSwitch, args.block, t + []);
    ReadOwnFlag(ThreadSwitch, args.threads, []);
  }

  /** No element is the "--" separator. */
  predicate NoSeparator(cmd: seq<string>) {
    forall j :: 0 <= j < |cmd| ==> cmd[j] != "--"
  }

  /** No switch is the "--" separator, so `cmd.index('--')` always finds the
      separator the template ends with. */
  lemma FlagsAreNotSeparator(args: Args)
    ensures NoSeparator(Flags(args))
  {
    forall i | 0 <= i < |Flags(args)| ensures Flags(args)[i] != "--" {
      var f := Flags(args)[i];
      assert f[1] == 'm';
    }
  }

  /** `cmd.index(x)`: the first position holding `x`, or the length when there
      is none. */
  function IndexOf(cmd: seq<string>, x: string): (i: nat)
    ensures i <= |cmd| && (i < |cmd| ==> cmd[i] == x)
    ensures forall j :: 0 <= j < i ==> cmd[j] != x
    decreases |cmd|
  {
    if |cmd| == 0 || cmd[0] == x then 0 else 1 + IndexOf(cmd[1..], x)
  }

  /** `cmd.insert(cmd.index('--'), item)`. */
  function InsertBeforeSeparator(cmd: seq<string>, item: string): seq<string> {
    var k := IndexOf(cmd, "--");
    cmd[..k] + [item] + cmd[k..]
  }

  /** While "--" is the last element and only there, an insertion puts the
      new switch right before it. */
  lemma InsertKeepsSeparatorLast(head: seq<string>, item: string)
    requires NoSeparator(head)
    ensures InsertBeforeSeparator(head + ["--"], item) == head + [item] + ["--"]
  {
    var cmd := head + ["--"];
    assert cmd[|head|] == "--";
    var k := IndexOf(cmd, "--");
    assert k == |head|;
    assert cmd[..k] == head && cmd[k..] == ["--"];
  }
}
