/** `minimumLargestDictSize()` and `minimumLargestBlockSize()`: the first
    table entry above the largest directory size, which bounds the sweeps. */
module Bounds {
  import opened Outcomes
  import opened PyText
  import opened Candidates
  import opened SizeProbe

  /** The loop of `minimumLargestDictSize` over `sizes`: the first reading of
      an entry containing 'm' that exceeds `largest`; None when the loop
      ends without returning. */
  function DictScan(sizes: seq<string>, largest: nat): Result<Option<nat>>
    decreases |sizes|
  {
    if |sizes| == 0 then Ok(None)
    else if HasChar(sizes[0], 'm') then
      match Reading(sizes[0])
      case None => Fail(ParseFailure)
      case Some(n) => if n > largest then Ok(Some(n)) else DictScan(sizes[1..], largest)
    else DictScan(sizes[1..], largest)
  }

  /** The loop of `minimumLargestBlockSize` over `sizes`: an entry ending in
      'm' or 'g' is only read while `largest` is below 1024. */
  function BlockScan(sizes: seq<string>, largest: nat): Result<Option<nat>>
    decreases |sizes|
  {
    if |sizes| == 0 then Ok(None)
    else if (EndsWith(sizes[0], 'm') || EndsWith(sizes[0], 'g')) && largest < 1024 then
      match Reading(sizes[0])
      case None => Fail(ParseFailure)
      case Some(n) => if n > largest then Ok(Some(n)) else BlockScan(sizes[1..], largest)
    else BlockScan(sizes[1..], largest)
  }

  /** `minimumLargestDictSize()` for the given `du` output. */
  function DictLimit(du: seq<string>): Result<Option<nat>> {
    match DuLargest(du)
    case Fail(e) => Fail(e)
    case Ok(largest) => DictScan(DictSizes, largest)
  }

  /** `minimumLargestBlockSize()` for the given `du` output. */
  function BlockLimit(du: seq<string>): Result<Option<nat>> {
    match DuLargest(du)
    case Fail(e) => Fail(e)
    case Ok(largest) => BlockScan(BlockSizes, largest)
  }

  /** The position, from `k` on, of the first dictionary entry that the scan
      returns for `largest`, or 22 when there is none. */
  function DictIndexAbove(largest: nat, k: nat): (j: nat)
    requires k <= 22
    ensures k <= j <= 22
    ensures j < 22 ==> 1 <= j && Amount(DictTable[j]) > largest
    ensures forall i :: k <= i < j && 1 <= i ==> Amount(DictTable[i]) <= largest
    decreases 22 - k
  {
    if k == 22 then 22
    else if 1 <= k && Amount(DictTable[k]) > largest then k
    else DictIndexAbove(largest, k + 1)
  }

  /** The same for the block table, whose entries are only read while
      `largest` is below 1024. */
  function BlockIndexAbove(largest: nat, k: nat): (j: nat)
    requires k <= 22
    ensures k <= j <= 22
    ensures j < 22 ==> 2 <= j && largest < 1024 && Amount(BlockTable[j]) > largest
    ensures largest < 1024 ==> forall i :: k <= i < j && 2 <= i ==> Amount(BlockTable[i]) <= largest
    decreases 22 - k
  {
    if k == 22 then 22
    else if 2 <= k && largest < 1024 && Amount(BlockTable[k]) > largest then k
    else BlockIndexAbove(largest, k + 1)
  }

  /** A table laid out like the dictionary table: the readings of its
      entries, and 'm' in every entry but the first. */
  predicate DictShaped(sizes: seq<string>) {
    && |sizes| == 22
    && (forall i :: 0 <= i < 22 ==> Reading(sizes[i]) == Some(Amount(DictTable[i])))
    && (forall i :: 0 <= i < 22 ==> (HasChar(sizes[i], 'm') <==> 1 <= i))
  }

  /** A table laid out like the block table: two modes, then megabyte
      entries up to position 15 and gigabyte entries after. */
  predicate BlockShaped(sizes: seq<string>) {
    && |sizes| == 22
    && (forall i :: 2 <= i < 22 ==> Reading(sizes[i]) == Some(Amount(BlockTable[i])))
    && (forall i :: 0 <= i < 22 ==> (EndsWith(sizes[i], 'm') <==> 2 <= i < 15))
    && (forall i :: 0 <= i < 22 ==> (EndsWith(sizes[i], 'g') <==> 15 <= i))
  }

  lemma DictSizesShaped()
    ensures DictShaped(DictSizes)
  {
    DictReadings();
  }

  lemma BlockSizesShaped()
    ensures BlockShaped(BlockSizes)
  {
    BlockReadings();
  }

  /** One step of the dictionary scan at entry `k`. */
  lemma DictScanStep(sizes: seq<string>, largest: nat, k: nat)
    requires DictShaped(sizes) && k < 22
    ensures DictScan(sizes[k..], largest)
            == if 1 <= k && Amount(DictTable[k]) > largest then Ok(Some(Amount(DictTable[k])))
               else DictScan(sizes[k + 1..], largest)
  {
    var rest := sizes[k..];
    assert rest[0] == sizes[k] && rest[1..] == sizes[k + 1..];
  }

  /** One step of the block scan at entry `k`. */
  lemma BlockScanStep(sizes: seq<string>, largest: nat, k: nat)
    requires BlockShaped(sizes) && k < 22
    ensures BlockScan(sizes[k..], largest)
            == if 2 <= k && largest < 1024 && Amount(BlockTable[k]) > largest then Ok(Some(Amount(BlockTable[k])))
               else BlockScan(sizes[k + 1..], largest)
  {
    var rest := sizes[k..];
    assert rest[0] == sizes[k] && rest[1..] == sizes[k + 1..];
  }

  lemma {:induction false} DictScanFrom(sizes: seq<string>, largest: nat, k: nat)
    requires DictShaped(sizes) && k <= 22
    ensures DictScan(sizes[k..], largest)
            == Ok(if DictIndexAbove(largest, k) < 22 then Some(Amount(DictTable[DictIndexAbove(largest, k)])) else None)
    decreases 22 - k
  {
    if k < 22 {
      DictScanStep(sizes, largest, k);
      DictScanFrom(sizes, largest, k + 1);
    }
  }

  lemma {:induction false} BlockScanFrom(sizes: seq<string>, largest: nat, k: nat)
    requires BlockShaped(sizes) && k <= 22
    ensures BlockScan(sizes[k..], largest)
            == Ok(if BlockIndexAbove(largest, k) < 22 then Some(Amount(BlockTable[BlockIndexAbove(largest, k)])) else None)
    decreases 22 - k
  {
    if k < 22 {
      BlockScanStep(sizes, largest, k);
      BlockScanFrom(sizes, largest, k + 1);
    }
  }

  /** The dictionary bound: the smallest megabyte entry above `largest`,
      which exists exactly when `largest` is below 1536. */
  lemma DictBoundMeaning(largest: nat)
    ensures DictScan(DictSizes, largest)
            == Ok(if DictIndexAbove(largest, 0) < 22 then Some(Amount(DictTable[DictIndexAbove(largest, 0)])) else None)
    ensures DictIndexAbove(largest, 0) < 22 <==> largest < 1536
    ensures forall i :: 1 <= i < 22 && Amount(DictTable[i]) > largest ==> DictIndexAbove(largest, 0) <= i
  {
    DictReadings();
    DictScanFrom(DictSizes, largest, 0);
    assert DictSizes[0..] == DictSizes;
    DictBoundIndex(largest);
  }

  lemma DictBoundIndex(largest: nat)
    ensures DictIndexAbove(largest, 0) < 22 <==> largest < 1536
    ensures forall i :: 1 <= i < 22 && Amount(DictTable[i]) > largest ==> DictIndexAbove(largest, 0) <= i
  {
    DictAmounts();
  }

  /** The block bound: the smallest megabyte entry above `largest`, which
      exists exactly when `largest` is below 512; from 512 on no entry
      qualifies, the gigabyte ones included. */
  lemma BlockBoundMeaning(largest: nat)
    ensures BlockScan(BlockSizes, largest)
            == Ok(if BlockIndexAbove(largest, 0) < 22 then Some(Amount(BlockTable[BlockIndexAbove(largest, 0)])) else None)
    ensures BlockIndexAbove(largest, 0) < 22 <==> largest < 512
    ensures BlockIndexAbove(largest, 0) < 22 ==> BlockIndexAbove(largest, 0) < 15
    ensures forall i :: 2 <= i < 22 && Amount(BlockTable[i]) > largest ==> BlockIndexAbove(largest, 0) <= i
  {
    BlockReadings();
    BlockScanFrom(BlockSizes, largest, 0);
    assert BlockSizes[0..] == BlockSizes;
    BlockBoundIndex(largest);
  }

  lemma BlockBoundIndex(largest: nat)
    ensures BlockIndexAbove(largest, 0) < 22 <==> largest < 512
    ensures BlockIndexAbove(largest, 0) < 22 ==> BlockIndexAbove(largest, 0) < 15
    ensures forall i :: 2 <= i < 22 && Amount(BlockTable[i]) > largest ==> BlockIndexAbove(largest, 0) <= i
  {
    BlockAmounts();
    var j := BlockIndexAbove(largest, 0);
    if largest < 512 {
      assert Amount(BlockTable[14]) > largest;
      assert j <= 14;
    } else {
      assert forall i :: 2 <= i < 22 ==> Amount(BlockTable[i]) <= largest;
      assert j == 22;
    }
  }

  /** The `for` loop of `minimumLargestDictSize` over `sizes`. */
  method ScanDictSizes(sizes: seq<string>, largest: nat) returns (r: Result<Option<nat>>)
    ensures r == DictScan(sizes, largest)
  {
    var i := 0;
    while i < |sizes|
      invariant 0 <= i <= |sizes|
      invariant DictScan(sizes[i..], largest) == DictScan(sizes, largest)
    {
      var size := sizes[i];
      assert sizes[i..][0] == size && sizes[i..][1..] == sizes[i + 1..];
      if HasChar(size, 'm') {
        var n := Reading(size);
        if n.None? {
          return Fail(ParseFailure);
        }
        if n.value > largest {
          return Ok(Some(n.value));
        }
      }
      i := i + 1;
    }
    r := Ok(None);
  }

  /** The `for` loop of `minimumLargestBlockSize` over `sizes`. */
  method ScanBlockSizes(sizes: seq<string>, largest: nat) returns (r: Result<Option<nat>>)
    ensures r == BlockScan(sizes, largest)
  {
    var i := 0;
    while i < |sizes|
      invariant 0 <= i <= |sizes|
      invariant BlockScan(sizes[i..], largest) == BlockScan(sizes, largest)
    {
      var size := sizes[i];
      assert sizes[i..][0] == size && sizes[i..][1..] == sizes[i + 1..];
      if EndsWith(size, 'm') || EndsWith(size, 'g') {
        if largest < 1024 {
          var n := Reading(size);
          if n.None? {
            return Fail(ParseFailure);
          }
          if n.value > largest {
            return Ok(Some(n.value));
          }
        }
      }
      i := i + 1;
    }
    r := Ok(None);
  }

  /** `minimumLargestDictSize()` with the `du` output given. */
  method MinimumLargestDictSize(du: seq<string>) returns (r: Result<Option<nat>>)
    ensures r == DictLimit(du)
  {
    var found := LargestDirectorySize(du);
    if found.Fail? {
      return Fail(found.error);
    }
    r := ScanDictSizes(DictSizes, found.value);
  }

  /** `minimumLargestBlockSize()` with the `du` output given. */
  method MinimumLargestBlockSize(du: seq<string>) returns (r: Result<Option<nat>>)
    ensures r == BlockLimit(du)
  {
    var found := LargestDirectorySize(du);
    if found.Fail? {
      return Fail(found.error);
    }
    r := ScanBlockSizes(BlockSizes, found.value);
  }
}
