/** Which candidates the dictionary and block sweeps run, worked out on the
    fixed tables. */
module Plans {
  import opened Outcomes
  import opened PyText
  import opened Candidates
  import opened CommandLine
  import opened Bounds
  import opened Sweeps
  import opened Seqs

  /** The position of the first dictionary entry from `k` on whose reading
      exceeds `bound`, or 22. */
  function DictStop(bound: nat, k: nat): (j: nat)
    requires k <= 22
    ensures k <= j <= 22
    ensures j < 22 ==> Amount(DictTable[j]) > bound
    ensures forall i :: k <= i < j ==> Amount(DictTable[i]) <= bound
    decreases 22 - k
  {
    if k == 22 then 22 else if Amount(DictTable[k]) > bound then k else DictStop(bound, k + 1)
  }

  /** The position of the first megabyte block entry from `k` on above
      `bound`, or 22: the modes and the gigabyte entries never stop the
      sweep. */
  function BlockStop(bound: nat, k: nat): (j: nat)
    requires k <= 22
    ensures k <= j <= 22
    ensures j < 22 ==> 2 <= j < 15 && Amount(BlockTable[j]) > bound
    ensures forall i :: k <= i < j && 2 <= i < 15 ==> Amount(BlockTable[i]) <= bound
    decreases 22 - k
  {
    if k == 22 then 22
    else if 2 <= k < 15 && Amount(BlockTable[k]) > bound then k
    else BlockStop(bound, k + 1)
  }

  lemma TextKeysCons(xs: seq<string>, k: nat, stop: nat)
    requires k < stop <= |xs|
    ensures TextKeys(xs[k..stop]) == [Text(xs[k])] + TextKeys(xs[k + 1..stop])
  {
  }

  /** One step of the dictionary sweep at entry `k`. */
  lemma DictPlanStep(sizes: seq<string>, bound: nat, k: nat)
    requires DictShaped(sizes) && k < 22
    ensures DictPlanIn(sizes[k..], Some(bound))
            == if Amount(DictTable[k]) > bound then Plan([], None)
               else Prefixed(Text(sizes[k]), DictPlanIn(sizes[k + 1..], Some(bound)))
  {
    var rest := sizes[k..];
    assert rest[0] == sizes[k] && rest[1..] == sizes[k + 1..];
  }

  /** One step of the block sweep at entry `k`. */
  lemma BlockPlanStep(sizes: seq<string>, bound: nat, k: nat)
    requires BlockShaped(sizes) && k < 22
    ensures BlockPlanIn(sizes[k..], Some(bound))
            == if 2 <= k < 15 && Amount(BlockTable[k]) > bound then Plan([], None)
               else Prefixed(Text(sizes[k]), BlockPlanIn(sizes[k + 1..], Some(bound)))
  {
    var rest := sizes[k..];
    assert rest[0] == sizes[k] && rest[1..] == sizes[k + 1..];
  }

  lemma {:induction false} DictPlanFrom(sizes: seq<string>, bound: nat, k: nat)
    requires DictShaped(sizes) && k <= 22
    ensures DictPlanIn(sizes[k..], Some(bound)) == Plan(TextKeys(sizes[k..DictStop(bound, k)]), None)
    decreases 22 - k
  {
    if k < 22 {
      DictPlanStep(sizes, bound, k);
      if Amount(DictTable[k]) <= bound {
        DictPlanFrom(sizes, bound, k + 1);
        TextKeysCons(sizes, k, DictStop(bound, k));
      }
    }
  }

  lemma {:induction false} BlockPlanFrom(sizes: seq<string>, bound: nat, k: nat)
    requires BlockShaped(sizes) && k <= 22
    ensures BlockPlanIn(sizes[k..], Some(bound)) == Plan(TextKeys(sizes[k..BlockStop(bound, k)]), None)
    decreases 22 - k
  {
    if k < 22 {
      BlockPlanStep(sizes, bound, k);
      if !(2 <= k < 15 && Amount(BlockTable[k]) > bound) {
        BlockPlanFrom(sizes, bound, k + 1);
        TextKeysCons(sizes, k, BlockStop(bound, k));
      }
    }
  }

  /** Without a bound the dictionary sweep raises on its first comparison,
      before any run. */
  lemma DictPlanUnbounded()
    ensures DictPlanIn(DictSizes, None) == Plan([], Some(NoneComparison))
  {
    DictReading(0);
  }

  /** Without a bound the block sweep runs "=off" and "=on" and raises on
      "1m". */
  lemma BlockPlanUnbounded()
    ensures BlockPlanIn(BlockSizes, None) == Plan([Text("=off"), Text("=on")], Some(NoneComparison))
  {
    BlockReadings();
    BlockReading(2);
    var s := BlockSizes;
    assert s[1..][1..] == s[2..];
    assert BlockPlanIn(s[2..], None) == Plan([], Some(NoneComparison));
  }

  /** The dictionary sweep for a directory of `largest` MB (below 1536):
      "64k" reads as 64, so when the bound is below 64 (a largest directory
      under 48 MB) nothing runs; otherwise the sweep runs every entry up to
      and including the bound. */
  lemma DictPlanMeaning(largest: nat)
    requires largest < 1536
    ensures var j := DictIndexAbove(largest, 0);
            j < 22 &&
            DictPlanIn(DictSizes, Some(Amount(DictTable[j])))
              == if largest < 48 then Plan([], None) else Plan(TextKeys(DictSizes[..j + 1]), None)
    ensures largest >= 48 ==> 12 <= DictIndexAbove(largest, 0)
  {
    DictIndexFacts(largest);
    var j := DictIndexAbove(largest, 0);
    var b := Amount(DictTable[j]);
    DictSizesShaped();
    DictPlanFrom(DictSizes, b, 0);
    if largest < 48 {
      DictStopIs(b, 0);
    } else {
      DictStopAt(b, j);
    }
  }

  /** The bound lies below 64, the reading of "64k", exactly when the
      largest directory is under 48 MB. */
  lemma DictIndexFacts(largest: nat)
    requires largest < 1536
    ensures DictIndexAbove(largest, 0) < 22
    ensures largest < 48 ==> Amount(DictTable[DictIndexAbove(largest, 0)]) < Amount(DictTable[0])
    ensures largest >= 48 ==> 12 <= DictIndexAbove(largest, 0)
  {
    DictBoundIndex(largest);
    DictMegabytesTo48();
  }

  lemma DictMegabytesTo48()
    ensures Amount(DictTable[0]) == 64 && Amount(DictTable[11]) == 48
    ensures forall i :: 1 <= i < 12 ==> Amount(DictTable[i]) <= 48
  {
  }

  lemma DictStopIs(b: nat, s: nat)
    requires s <= 22
    requires forall i :: 0 <= i < s ==> Amount(DictTable[i]) <= b
    requires s < 22 ==> Amount(DictTable[s]) > b
    ensures DictStop(b, 0) == s
  {
  }

  lemma DictStopAt(b: nat, j: nat)
    requires 12 <= j < 22 && b == Amount(DictTable[j])
    ensures DictStop(b, 0) == j + 1
  {
    DictAmounts();
    assert Amount(DictTable[0]) <= b;
    assert forall i :: 1 <= i <= j ==> Amount(DictTable[i]) <= b;
    DictStopIs(b, j + 1);
  }

  /** The block sweep for a directory below 512 MB: it runs "=off", "=on" and
      every megabyte entry up to the bound; with the bound at 512 (a largest
      directory of 256 MB or more) nothing stops it and the gigabyte entries
      run too. */
  lemma BlockPlanMeaning(largest: nat)
    requires largest < 512
    ensures var j := BlockIndexAbove(largest, 0);
            2 <= j < 15 &&
            BlockPlanIn(BlockSizes, Some(Amount(BlockTable[j])))
              == Plan(TextKeys(BlockSizes[..if j == 14 then 22 else j + 1]), None)
    ensures BlockIndexAbove(largest, 0) == 14 <==> 256 <= largest
  {
    BlockIndexFacts(largest);
    var j := BlockIndexAbove(largest, 0);
    var b := Amount(BlockTable[j]);
    BlockSizesShaped();
    BlockPlanFrom(BlockSizes, b, 0);
    BlockStopAt(b, j);
  }

  /** Below 512 MB the block bound is a megabyte entry, and it is 512m
      exactly from 256 MB on. */
  lemma BlockIndexFacts(largest: nat)
    requires largest < 512
    ensures 2 <= BlockIndexAbove(largest, 0) < 15
    ensures BlockIndexAbove(largest, 0) == 14 <==> 256 <= largest
  {
    BlockBoundIndex(largest);
    assert Amount(BlockTable[13]) == 256;
    if 256 <= largest {
      BlockMegabytesBelow(largest);
    }
  }

  lemma BlockMegabytesBelow(largest: nat)
    requires 256 <= largest
    ensures forall i :: 2 <= i < 14 ==> Amount(BlockTable[i]) <= largest
  {
  }

  lemma BlockStopIs(b: nat, s: nat)
    requires s <= 22
    requires forall i :: 2 <= i < s && i < 15 ==> Amount(BlockTable[i]) <= b
    requires s < 22 ==> 2 <= s < 15 && Amount(BlockTable[s]) > b
    ensures BlockStop(b, 0) == s
  {
  }

  lemma BlockStopAt(b: nat, j: nat)
    requires 2 <= j < 15 && b == Amount(BlockTable[j])
    ensures BlockStop(b, 0) == if j == 14 then 22 else j + 1
  {
    BlockAmounts();
    assert forall i :: 2 <= i <= j ==> Amount(BlockTable[i]) <= b;
    BlockStopIs(b, if j == 14 then 22 else j + 1);
  }

  /** No two dictionary entries are the same string ("64k" and "64m" differ
      in their unit). */
  lemma DictSizesDistinct()
    ensures Distinct(DictSizes)
  {
    DictReadings();
    DictAmounts();
    forall a, b | 0 <= a < b < |DictSizes| ensures DictSizes[a] != DictSizes[b] {
      if a == 0 {
        assert !HasChar(DictSizes[a], 'm') && HasChar(DictSizes[b], 'm');
      } else {
        assert Reading(DictSizes[a]) != Reading(DictSizes[b]);
      }
    }
  }

  lemma BlockSizesDistinct()
    ensures Distinct(BlockSizes)
  {
    BlockReadings();
    BlockAmounts();
    forall a, b | 0 <= a < b < |BlockSizes| ensures BlockSizes[a] != BlockSizes[b] {
      if b < 2 {
        assert BlockSizes[a] == "=off" && BlockSizes[b] == "=on";
      } else if a < 2 {
        assert EndsWith(BlockSizes[b], 'm') || EndsWith(BlockSizes[b], 'g');
      } else if a < 15 <= b {
        assert EndsWith(BlockSizes[a], 'm') && !EndsWith(BlockSizes[b], 'm');
      } else {
        assert Reading(BlockSizes[a]) != Reading(BlockSizes[b]);
      }
    }
  }

  lemma TextKeysDistinct(xs: seq<string>, n: nat)
    requires Distinct(xs) && n <= |xs|
    ensures Distinct(TextKeys(xs[..n]))
  {
    var ks := TextKeys(xs[..n]);
    forall a, b | 0 <= a < b < |ks| ensures ks[a] != ks[b] {
      assert ks[a] == Text(xs[a]) && ks[b] == Text(xs[b]);
    }
  }

  lemma WordKeysDistinct()
    ensures Distinct(NumberKeys(WordSizes))
  {
    var ks := NumberKeys(WordSizes);
    assert forall a, b :: 0 <= a < b < |WordSizes| ==> WordSizes[a] < WordSizes[b];
    forall a, b | 0 <= a < b < |ks| ensures ks[a] != ks[b] {
      assert ks[a] == Number(WordSizes[a]) && ks[b] == Number(WordSizes[b]);
    }
  }

  lemma CountdownDistinct(cpu: nat)
    ensures Distinct(Countdown(cpu))
  {
    var ks := Countdown(cpu);
    forall a, b | 0 <= a < b < |ks| ensures ks[a] != ks[b] {
      assert ks[a] == Number(cpu - a) && ks[b] == Number(cpu - b);
    }
  }
}
