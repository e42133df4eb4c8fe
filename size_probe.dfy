/** `getLargestDirectorySize()`: the size in megabytes of the largest
    directory, read from the lines `du -sm` prints for every directory. */
module SizeProbe {
  import opened Outcomes
  import opened PyText
  import opened OrderedTable
  import opened Seqs

  /** What one output line contributes: nothing for a venv path, a
      (path without its trailing '/', size) pair otherwise, or the error
      raised while reading it. */
  type Row = Result<Option<(string, nat)>>

  /** One loop body of `getLargestDirectorySize` on one line: `line.split()`,
      the venv test on the path, `int()` on the size. */
  function DuEntry(line: string): Row {
    var words := Split(line);
    if |words| < 2 then Fail(MissingField)
    else if ContainsSubstring(words[1], "venv") then Ok(None)
    else match ParseDecimal(words[0])
      case None => Fail(ParseFailure)
      case Some(n) => Ok(Some((DropLast(words[1]), n)))
  }

  /** The contribution of each line, in order. */
  function Rows(lines: seq<string>): (rows: seq<Row>)
    ensures |rows| == |lines| && forall i :: 0 <= i < |lines| ==> rows[i] == DuEntry(lines[i])
  {
    seq(|lines|, i requires 0 <= i < |lines| => DuEntry(lines[i]))
  }

  /** The `sizes` dict the loop builds from the rows it reads, or the first
      error. */
  function Collect(rows: seq<Row>): Result<Table<string>>
    decreases |rows|
  {
    if |rows| == 0 then Ok([])
    else match Collect(rows[..|rows| - 1])
      case Fail(e) => Fail(e)
      case Ok(t) =>
        match rows[|rows| - 1]
        case Fail(e) => Fail(e)
        case Ok(None) => Ok(t)
        case Ok(Some(entry)) => Ok(Put(t, entry.0, entry.1))
  }

  /** The `sizes` dict after the loop over `lines`, or the first error. */
  function DuTable(lines: seq<string>): Result<Table<string>> {
    Collect(Rows(lines))
  }

  /** `sizes[max(sizes, key=sizes.get)]`. */
  function DuLargest(lines: seq<string>): Result<nat> {
    match DuTable(lines)
    case Fail(e) => Fail(e)
    case Ok(t) =>
      match Largest(t)
      case Fail(e) => Fail(e)
      case Ok(best) => Ok(best.1)
  }

  /** A line the loop reads without error. */
  predicate WellFormedLine(line: string) {
    DuEntry(line).Ok?
  }

  /** A row that puts an entry in the dict. */
  predicate Records(row: Row) {
    row.Ok? && row.value.Some?
  }

  /** A line that is recorded in the dict. */
  predicate Counted(line: string) {
    Records(DuEntry(line))
  }

  function LineEntry(line: string): (string, nat)
    requires Counted(line)
  {
    DuEntry(line).value.value
  }

  /** The entries of the recording rows, in order. */
  function Recorded(rows: seq<Row>): Table<string>
    decreases |rows|
  {
    if |rows| == 0 then []
    else
      var last := rows[|rows| - 1];
      Recorded(rows[..|rows| - 1]) + (if Records(last) then [last.value.value] else [])
  }

  /** The size of the last row that records path `k`: what a Python dict
      assigned in the loop's order ends up holding for `k`. */
  function LastSize(rows: seq<Row>, k: string): Option<nat>
    decreases |rows|
  {
    if |rows| == 0 then None
    else
      var last := rows[|rows| - 1];
      if Records(last) && last.value.value.0 == k then Some(last.value.value.1)
      else LastSize(rows[..|rows| - 1], k)
  }

  /** Row `i` records an entry that no later row overwrites. */
  predicate Final(rows: seq<Row>, i: int) {
    && 0 <= i < |rows| && Records(rows[i])
    && forall j :: i < j < |rows| && Records(rows[j]) ==> rows[j].value.value.0 != rows[i].value.value.0
  }

  /** Line `i` is recorded and no later recorded line has the same path. */
  predicate FinalLine(lines: seq<string>, i: int) {
    && 0 <= i < |lines| && Counted(lines[i])
    && forall j :: i < j < |lines| && Counted(lines[j]) ==> LineEntry(lines[j]).0 != LineEntry(lines[i]).0
  }

  lemma CollectStep(rows: seq<Row>, i: nat)
    requires i < |rows|
    ensures Collect(rows[..i + 1])
            == match Collect(rows[..i])
               case Fail(e) => Fail(e)
               case Ok(t) =>
                 match rows[i]
                 case Fail(e) => Fail(e)
                 case Ok(None) => Ok(t)
                 case Ok(Some(entry)) => Ok(Put(t, entry.0, entry.1))
  {
    assert rows[..i + 1][..i] == rows[..i];
  }

  /** Every recording row's entry is recorded, and nothing is recorded
      exactly when no row records. */
  lemma {:induction false} RecordedCoversRows(rows: seq<Row>)
    ensures forall i :: 0 <= i < |rows| && Records(rows[i]) ==> rows[i].value.value in Recorded(rows)
    ensures |Recorded(rows)| == 0 <==> forall i :: 0 <= i < |rows| ==> !Records(rows[i])
    decreases |rows|
  {
    if |rows| > 0 {
      var init, last := rows[..|rows| - 1], rows[|rows| - 1];
      RecordedCoversRows(init);
      var rec := Recorded(rows);
      assert rec == Recorded(init) + (if Records(last) then [last.value.value] else []);
      forall i | 0 <= i < |rows| && Records(rows[i]) ensures rows[i].value.value in rec {
        if i < |init| {
          assert rows[i] == init[i];
        }
      }
      if |rec| == 0 {
        forall i | 0 <= i < |rows| ensures !Records(rows[i]) {
          if i < |init| {
            assert rows[i] == init[i];
          }
        }
      }
    }
  }

  /** Each recorded entry comes from a recording row. */
  lemma {:induction false} RecordedFromRows(rows: seq<Row>, e: (string, nat))
    requires e in Recorded(rows)
    ensures exists i :: 0 <= i < |rows| && Records(rows[i]) && rows[i].value.value == e
    decreases |rows|
  {
    var init := rows[..|rows| - 1];
    if e in Recorded(init) {
      RecordedFromRows(init, e);
      var i :| 0 <= i < |init| && Records(init[i]) && init[i].value.value == e;
      assert rows[i] == init[i];
    }
  }

  /** Once a row fails, so does the whole loop, with that row's error. */
  lemma {:induction false} CollectFailurePersists(rows: seq<Row>, n: nat)
    requires n <= |rows| && Collect(rows[..n]).Fail?
    ensures Collect(rows) == Collect(rows[..n])
    decreases |rows| - n
  {
    if n == |rows| {
      assert rows[..n] == rows;
    } else {
      CollectStep(rows, n);
      CollectFailurePersists(rows, n + 1);
    }
  }

  /** The last recording row of path `k` is final for `k`. */
  lemma {:induction false} FinalIsLast(rows: seq<Row>, i: nat)
    requires Final(rows, i)
    ensures LastSize(rows, rows[i].value.value.0) == Some(rows[i].value.value.1)
    decreases |rows|
  {
    if i < |rows| - 1 {
      var init := rows[..|rows| - 1];
      assert forall j :: 0 <= j < |init| ==> init[j] == rows[j];
      FinalIsLast(init, i);
    }
  }

  /** A path with a last size has a final row that records it. */
  lemma {:induction false} LastIsFinal(rows: seq<Row>, k: string)
    requires LastSize(rows, k).Some?
    ensures exists i :: Final(rows, i) && rows[i].value.value == (k, LastSize(rows, k).value)
    decreases |rows|
  {
    var init, last := rows[..|rows| - 1], rows[|rows| - 1];
    if Records(last) && last.value.value.0 == k {
      assert Final(rows, |rows| - 1);
    } else {
      assert forall j :: 0 <= j < |init| ==> init[j] == rows[j];
      LastIsFinal(init, k);
      var i :| Final(init, i) && init[i].value.value == (k, LastSize(init, k).value);
      assert Final(rows, i);
    }
  }

  /** Without failing rows the loop succeeds, and the dict maps each path
      to the size of its last recording row. */
  lemma {:induction false} CollectLastWins(rows: seq<Row>)
    requires forall i :: 0 <= i < |rows| ==> rows[i].Ok?
    ensures Collect(rows).Ok?
    ensures forall k :: Get(Collect(rows).value, k) == LastSize(rows, k)
    decreases |rows|
  {
    if |rows| > 0 {
      var init, last := rows[..|rows| - 1], rows[|rows| - 1];
      assert forall i :: 0 <= i < |init| ==> init[i] == rows[i];
      CollectLastWins(init);
      var t := Collect(init).value;
      if Records(last) {
        assert Collect(rows) == Ok(Put(t, last.value.value.0, last.value.value.1));
      } else {
        assert Collect(rows) == Ok(t);
      }
    }
  }

  /** The induction behind `CollectMeaning`: distinct keys, nothing but
      recorded entries, and all of them when no key is recorded twice. */
  lemma {:induction false} CollectHolds(rows: seq<Row>)
    requires forall i :: 0 <= i < |rows| ==> rows[i].Ok?
    ensures Collect(rows).Ok? && DistinctKeys(Collect(rows).value)
    ensures |Collect(rows).value| == 0 <==> |Recorded(rows)| == 0
    ensures forall j :: 0 <= j < |Collect(rows).value| ==> Collect(rows).value[j] in Recorded(rows)
    ensures DistinctKeys(Recorded(rows)) ==>
              forall j :: 0 <= j < |Recorded(rows)| ==> Recorded(rows)[j] in Collect(rows).value
    decreases |rows|
  {
    if |rows| > 0 {
      var init, last := rows[..|rows| - 1], rows[|rows| - 1];
      assert forall i :: 0 <= i < |init| ==> init[i] == rows[i];
      CollectHolds(init);
      var t, rec := Collect(init).value, Recorded(init);
      if Records(last) {
        var (k, v) := last.value.value;
        var r := Put(t, k, v);
        assert Collect(rows) == Ok(r);
        assert Recorded(rows) == rec + [(k, v)];
        GetIsStored(r, k);
        if DistinctKeys(Recorded(rows)) {
          assert DistinctKeys(rec) by {
            forall i, j | 0 <= i < j < |rec| ensures rec[i].0 != rec[j].0 {
              assert Recorded(rows)[i] == rec[i] && Recorded(rows)[j] == rec[j];
            }
          }
          forall j | 0 <= j < |Recorded(rows)| ensures Recorded(rows)[j] in r {
            if j < |rec| {
              var e := rec[j];
              assert e.0 != k by {
                assert Recorded(rows)[j] == e && Recorded(rows)[|rec|] == (k, v);
              }
              var m :| 0 <= m < |t| && t[m] == e;
              StoredIsFound(t, m);
              GetIsStored(r, e.0);
            }
          }
        }
      } else {
        assert Collect(rows) == Ok(t);
        assert Recorded(rows) == rec;
      }
    }
  }

  /** Without failing rows the loop succeeds, and its dict holds just the
      recorded entries, each path with the size of its last recording row:
      every final row's entry is in it, and all recorded entries are when no
      path is recorded twice. */
  lemma CollectMeaning(rows: seq<Row>)
    requires forall i :: 0 <= i < |rows| ==> rows[i].Ok?
    ensures Collect(rows).Ok? && DistinctKeys(Collect(rows).value)
    ensures |Collect(rows).value| == 0 <==> |Recorded(rows)| == 0
    ensures forall j :: 0 <= j < |Collect(rows).value| ==> Collect(rows).value[j] in Recorded(rows)
    ensures forall k :: Get(Collect(rows).value, k) == LastSize(rows, k)
    ensures forall i :: Final(rows, i) ==> rows[i].value.value in Collect(rows).value
    ensures DistinctKeys(Recorded(rows)) ==>
              forall j :: 0 <= j < |Recorded(rows)| ==> Recorded(rows)[j] in Collect(rows).value
  {
    CollectHolds(rows);
    CollectLastWins(rows);
    forall i | Final(rows, i) ensures rows[i].value.value in Collect(rows).value {
      FinalIsLast(rows, i);
      GetIsStored(Collect(rows).value, rows[i].value.value.0);
    }
  }

  /** Without failing rows, `max` finds an entry exactly when some row
      records one; it is the size of a final row, no final row's size
      exceeds it, and with distinct keys no recorded size does. */
  lemma CollectLargest(rows: seq<Row>)
    requires forall i :: 0 <= i < |rows| ==> rows[i].Ok?
    ensures Collect(rows).Ok?
    ensures Largest(Collect(rows).value).Ok? <==> exists i :: 0 <= i < |rows| && Records(rows[i])
    ensures Largest(Collect(rows).value).Ok? ==>
              exists i :: Final(rows, i) && Largest(Collect(rows).value).value.1 == rows[i].value.value.1
    ensures Largest(Collect(rows).value).Ok? ==>
              forall i :: Final(rows, i) ==> rows[i].value.value.1 <= Largest(Collect(rows).value).value.1
    ensures Largest(Collect(rows).value).Ok? && DistinctKeys(Recorded(rows)) ==>
              forall i :: 0 <= i < |rows| && Records(rows[i]) ==> rows[i].value.value.1 <= Largest(Collect(rows).value).value.1
  {
    CollectMeaning(rows);
    RecordedCoversRows(rows);
    var t := Collect(rows).value;
    if |t| > 0 {
      var best := Largest(t).value;
      var m :| 0 <= m < |t| && t[m] == best;
      StoredIsFound(t, m);
      LastIsFinal(rows, best.0);
      forall i | Final(rows, i) ensures rows[i].value.value.1 <= best.1 {
        LargestAbove(t, rows[i].value.value);
      }
      if DistinctKeys(Recorded(rows)) {
        var rec := Recorded(rows);
        forall i | 0 <= i < |rows| && Records(rows[i]) ensures rows[i].value.value.1 <= best.1 {
          var j :| 0 <= j < |rec| && rec[j] == rows[i].value.value;
          LargestAbove(t, rec[j]);
        }
      }
    }
  }

  /** The body of the `getLargestDirectorySize` loop on one line, up to the
      dict assignment. */
  method ReadDuLine(line: string) returns (row: Row)
    ensures row == DuEntry(line)
  {
    var size := Split(line);
    if |size| < 2 {
      return Fail(MissingField);
    }
    if ContainsSubstring(size[1], "venv") {
      return Ok(None);
    }
    var n := ParseDecimal(size[0]);
    if n.None? {
      return Fail(ParseFailure);
    }
    row := Ok(Some((DropLast(size[1]), n.value)));
  }

  /** The loop of `getLargestDirectorySize`, with the `du` output given. */
  method LargestDirectorySize(lines: seq<string>) returns (r: Result<nat>)
    ensures r == DuLargest(lines)
  {
    ghost var rows := Rows(lines);
    var sizes: Table<string> := [];
    var i := 0;
    while i < |lines|
      invariant 0 <= i <= |lines|
      invariant Collect(rows[..i]) == Ok(sizes)
    {
      CollectStep(rows, i);
      var row := ReadDuLine(lines[i]);
      match row {
        case Fail(error) =>
          CollectFailurePersists(rows, i + 1);
          return Fail(error);
        case Ok(None) =>
        case Ok(Some(entry)) =>
          sizes := Put(sizes, entry.0, entry.1);
      }
      i := i + 1;
    }
    TakeAll(rows);
    var largest := Largest(sizes);
    if largest.Fail? {
      return Fail(largest.error);
    }
    r := Ok(largest.value.1);
  }

  /** A final line is a final row of its rows, and conversely. */
  lemma FinalLines(lines: seq<string>)
    ensures forall i :: FinalLine(lines, i) <==> Final(Rows(lines), i)
  {
    var rows := Rows(lines);
    forall i | FinalLine(lines, i) ensures Final(rows, i) {
      assert forall j :: i < j < |rows| && Records(rows[j]) ==> Counted(lines[j]);
    }
    forall i | Final(rows, i) ensures FinalLine(lines, i) {
      assert forall j :: i < j < |lines| && Counted(lines[j]) ==> Records(rows[j]);
    }
  }

  /** On well-formed lines the loop succeeds, and its dict holds just the
      recorded entries, each path with the size of its last line: every
      final line's entry is in it, and all recorded entries are when no path
      is recorded twice. */
  lemma DuTableMeaning(lines: seq<string>)
    requires forall i :: 0 <= i < |lines| ==> WellFormedLine(lines[i])
    ensures DuTable(lines).Ok? && DistinctKeys(DuTable(lines).value)
    ensures |DuTable(lines).value| == 0 <==> |Recorded(Rows(lines))| == 0
    ensures forall j :: 0 <= j < |DuTable(lines).value| ==> DuTable(lines).value[j] in Recorded(Rows(lines))
    ensures forall k :: Get(DuTable(lines).value, k) == LastSize(Rows(lines), k)
    ensures forall i :: FinalLine(lines, i) ==> LineEntry(lines[i]) in DuTable(lines).value
    ensures DistinctKeys(Recorded(Rows(lines))) ==>
              forall j :: 0 <= j < |Recorded(Rows(lines))| ==> Recorded(Rows(lines))[j] in DuTable(lines).value
  {
    CollectMeaning(Rows(lines));
    FinalLines(lines);
  }

  /** On well-formed lines there is a result exactly when some line is
      recorded; otherwise `max` of the empty dict fails. The result is the
      size of a final line, no final line's size exceeds it, and when no
      path is recorded twice no recorded size does. */
  lemma DuLargestMeaning(lines: seq<string>)
    requires forall i :: 0 <= i < |lines| ==> WellFormedLine(lines[i])
    ensures DuLargest(lines).Ok? <==> exists i :: 0 <= i < |lines| && Counted(lines[i])
    ensures DuLargest(lines).Fail? ==> DuLargest(lines).error == EmptyTable
    ensures DuLargest(lines).Ok? ==>
              exists i :: FinalLine(lines, i) && DuLargest(lines).value == LineEntry(lines[i]).1
    ensures DuLargest(lines).Ok? ==>
              forall i :: FinalLine(lines, i) ==> LineEntry(lines[i]).1 <= DuLargest(lines).value
    ensures DuLargest(lines).Ok? && DistinctKeys(Recorded(Rows(lines))) ==>
              forall i :: 0 <= i < |lines| && Counted(lines[i]) ==> LineEntry(lines[i]).1 <= DuLargest(lines).value
  {
    var rows := Rows(lines);
    CollectLargest(rows);
    FinalLines(lines);
    if DuLargest(lines).Fail? {
      forall i | 0 <= i < |lines| ensures !Counted(lines[i]) {
        assert !Records(rows[i]);
      }
    } else {
      var i :| Final(rows, i) && Largest(Collect(rows).value).value.1 == rows[i].value.value.1;
      assert Counted(lines[i]);
    }
  }

  /** A `du` line whose path holds one blank: the size, then the path cut in
      two. */
  lemma SplitDuLine(size: string, head: string, tail: string)
    requires |size| > 0 && NoSpace(size) && |head| > 0 && NoSpace(head) && |tail| > 0 && NoSpace(tail)
    ensures Split(size + (['\t'] + (head + ([' '] + tail)))) == [size, head, tail]
  {
    var t2 := [' '] + tail;
    SplitWord(tail, "");
    assert tail + "" == tail;
    SplitSpace(' ', tail);
    var t1 := head + t2;
    SplitWord(head, t2);
    var t0 := ['\t'] + t1;
    SplitSpace('\t', t1);
    SplitWord(size, t0);
  }

  /** Assigning the only key of a one-entry dict replaces its value. */
  lemma PutOverwrites(k: string, v: nat, w: nat)
    ensures Put([(k, v)], k, w) == [(k, w)]
  {
    assert Find([(k, v)], k) == 0;
  }

  /** The dict after two recording rows. */
  lemma CollectTwo(rows: seq<Row>)
    requires |rows| == 2 && Records(rows[0]) && Records(rows[1])
    ensures Collect(rows) == Ok(Put(Put([], rows[0].value.value.0, rows[0].value.value.1),
                                    rows[1].value.value.0, rows[1].value.value.1))
  {
    var first := rows[..1];
    assert first[..0] == [] && first[0] == rows[0];
    assert Collect(first) == Ok(Put([], rows[0].value.value.0, rows[0].value.value.1));
  }

  /** A line with a size and a path that is not a venv records them. */
  lemma DuEntryOfWords(line: string, digits: string, path: string, size: nat)
    requires |Split(line)| >= 2 && Split(line)[0] == digits && Split(line)[1] == path
    requires ParseDecimal(digits) == Some(size) && !ContainsSubstring(path, "venv")
    ensures DuEntry(line) == Ok(Some((DropLast(path), size)))
  {
  }

  /** The line `du -sm` prints for a directory of `size` megabytes, written
      in decimal digits, whose path holds one blank. */
  function BlankPathLine(size: string, head: string, tail: string): string {
    size + (['\t'] + (head + ([' '] + tail)))
  }

  /** Such a line records the part of the path before the blank, less its
      last character. */
  lemma BlankPathEntry(size: string, head: string, tail: string)
    requires |size| > 0 && AllDigits(size)
    requires |head| > 0 && NoSpace(head) && |tail| > 0 && NoSpace(tail)
    requires !ContainsSubstring(head, "venv")
    ensures DuEntry(BlankPathLine(size, head, tail)) == Ok(Some((DropLast(head), DecimalValue(size))))
  {
    assert NoSpace(size);
    SplitDuLine(size, head, tail);
    DuEntryOfWords(BlankPathLine(size, head, tail), size, head, DecimalValue(size));
  }

  /** `split()` cuts a path at its first blank, so two directories whose
      paths agree up to it share a key, and the later line's size replaces
      the earlier one, whichever is larger. */
  lemma DuPathCollision(first: string, second: string, head: string, tail1: string, tail2: string)
    requires |first| > 0 && AllDigits(first) && |second| > 0 && AllDigits(second)
    requires |head| > 0 && NoSpace(head) && !ContainsSubstring(head, "venv")
    requires |tail1| > 0 && NoSpace(tail1) && |tail2| > 0 && NoSpace(tail2)
    ensures DuLargest([BlankPathLine(first, head, tail1), BlankPathLine(second, head, tail2)])
            == Ok(DecimalValue(second))
  {
    BlankPathEntry(first, head, tail1);
    BlankPathEntry(second, head, tail2);
    var rows := Rows([BlankPathLine(first, head, tail1), BlankPathLine(second, head, tail2)]);
    CollectTwo(rows);
    PutOverwrites(DropLast(head), DecimalValue(first), DecimalValue(second));
  }

  /** The first line that cannot be read decides the outcome: a missing
      second field or a size `int()` rejects. */
  lemma DuFirstError(lines: seq<string>, i: nat)
    requires i < |lines| && !WellFormedLine(lines[i])
    requires forall j :: 0 <= j < i ==> WellFormedLine(lines[j])
    ensures DuLargest(lines) == Fail(DuEntry(lines[i]).error)
    ensures DuLargest(lines).error != EmptyTable
  {
    var rows := Rows(lines);
    var init := rows[..i];
    assert forall j :: 0 <= j < |init| ==> init[j] == rows[j];
    CollectMeaning(init);
    CollectStep(rows, i);
    CollectFailurePersists(rows, i + 1);
  }
}
