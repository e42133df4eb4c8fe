/** The fixed candidate tables (`values` in the tool) and the reading
    `int(s[:-1])` the tool takes from their entries. */
module Candidates {
  import opened Outcomes
  import opened PyText

  /** A table entry: a number followed by a unit letter ("64k", "1536m", "2g"),
      or one of the block-size modes ("=off", "=on"). */
  datatype Candidate = Magnitude(amount: nat, unit: char) | Mode(text: string)

  /** The string the tool holds for an entry. */
  function Spell(c: Candidate): string {
    match c
    case Magnitude(a, u) => NatToDecimal(a) + [u]
    case Mode(t) => t
  }

  /** The number of a magnitude entry; modes carry none. */
  function Amount(c: Candidate): nat {
    match c
    case Magnitude(a, _) => a
    case Mode(_) => 0
  }

  function SpellAll(cs: seq<Candidate>): (r: seq<string>)
    ensures |r| == |cs| && forall i :: 0 <= i < |cs| ==> r[i] == Spell(cs[i])
  {
    seq(|cs|, i requires 0 <= i < |cs| => Spell(cs[i]))
  }

  /** `values['wordsize']`. */
  const WordSizes: seq<int> := [8, 12, 16, 24, 32, 48, 64, 96, 128, 192, 256, 273]

  /** `values['dictsize']`: 64k, 1m, 2m, ..., 1024m, 1536m. */
  const DictTable: seq<Candidate> := [
    Magnitude(64, 'k'), Magnitude(1, 'm'), Magnitude(2, 'm'), Magnitude(3, 'm'), Magnitude(4, 'm'),
    Magnitude(6, 'm'), Magnitude(8, 'm'), Magnitude(12, 'm'), Magnitude(16, 'm'), Magnitude(24, 'm'),
    Magnitude(32, 'm'), Magnitude(48, 'm'), Magnitude(64, 'm'), Magnitude(96, 'm'), Magnitude(128, 'm'),
    Magnitude(192, 'm'), Magnitude(256, 'm'), Magnitude(384, 'm'), Magnitude(512, 'm'), Magnitude(768, 'm'),
    Magnitude(1024, 'm'), Magnitude(1536, 'm')
  ]

  /** `values['blocksize']`: =off, =on, 1m, ..., 512m, 1g, ..., 64g. */
  const BlockTable: seq<Candidate> := [
    Mode("=off"), Mode("=on"), Magnitude(1, 'm'), Magnitude(2, 'm'), Magnitude(3, 'm'),
    Magnitude(4, 'm'), Magnitude(6, 'm'), Magnitude(8, 'm'), Magnitude(12, 'm'), Magnitude(16, 'm'),
    Magnitude(32, 'm'), Magnitude(64, 'm'), Magnitude(128, 'm'), Magnitude(256, 'm'), Magnitude(512, 'm'),
    Magnitude(1, 'g'), Magnitude(2, 'g'), Magnitude(4, 'g'), Magnitude(8, 'g'), Magnitude(16, 'g'),
    Magnitude(32, 'g'), Magnitude(64, 'g')
  ]

  const DictSizes: seq<string> := SpellAll(DictTable)
  const BlockSizes: seq<string> := SpellAll(BlockTable)

  /** `int(s[:-1])`: the number the tool reads from a candidate string. */
  function Reading(s: string): Option<nat> {
    ParseDecimal(DropLast(s))
  }

  /** A spelled magnitude reads back as its amount and ends in its unit; the
      unit is its only letter. */
  lemma SpellMagnitude(c: Candidate, letter: char)
    requires c.Magnitude? && !IsDigit(c.unit) && !IsDigit(letter)
    ensures Reading(Spell(c)) == Some(c.amount)
    ensures HasChar(Spell(c), letter) <==> c.unit == letter
    ensures EndsWith(Spell(c), letter) <==> c.unit == letter
  {
    var digits := NatToDecimal(c.amount);
    assert DropLast(Spell(c)) == digits;
    ParseNatToDecimal(c.amount);
    assert forall i :: 0 <= i < |digits| ==> digits[i] != letter;
    assert letter !in digits;
  }

  lemma DictEntries()
    ensures forall j :: 0 <= j < |DictTable| ==> DictTable[j].Magnitude? && !IsDigit(DictTable[j].unit)
    ensures forall j :: 0 <= j < |DictTable| ==> (DictTable[j].unit == 'm' <==> j >= 1)
  {
  }

  lemma DictReading(j: nat)
    requires j < 22
    ensures Reading(DictSizes[j]) == Some(Amount(DictTable[j]))
    ensures HasChar(DictSizes[j], 'm') <==> j >= 1
  {
    DictEntries();
    SpellMagnitude(DictTable[j], 'm');
  }

  lemma DictReadings()
    ensures |DictSizes| == 22
    ensures forall j :: 0 <= j < 22 ==> Reading(DictSizes[j]) == Some(Amount(DictTable[j]))
    ensures forall j :: 0 <= j < 22 ==> (HasChar(DictSizes[j], 'm') <==> j >= 1)
  {
    DictEntries();
    forall j | 0 <= j < 22
      ensures Reading(DictSizes[j]) == Some(Amount(DictTable[j]))
      ensures HasChar(DictSizes[j], 'm') <==> j >= 1
    {
      SpellMagnitude(DictTable[j], 'm');
    }
  }

  /** The dictionary entries from "1m" on are strictly ascending; "64k" and
      "64m" both carry 64 and the last entry carries 1536. */
  lemma DictAmounts()
    ensures Amount(DictTable[0]) == 64 && Amount(DictTable[12]) == 64 && Amount(DictTable[21]) == 1536
    ensures forall a, b :: 1 <= a < b < |DictTable| ==> Amount(DictTable[a]) < Amount(DictTable[b])
  {
  }

  lemma BlockEntries()
    ensures BlockTable[0] == Mode("=off") && BlockTable[1] == Mode("=on")
    ensures forall j :: 2 <= j < |BlockTable| ==> BlockTable[j].Magnitude? && !IsDigit(BlockTable[j].unit)
    ensures forall j :: 2 <= j < |BlockTable| ==> (BlockTable[j].unit == 'm' <==> j < 15)
    ensures forall j :: 2 <= j < |BlockTable| ==> (BlockTable[j].unit == 'g' <==> j >= 15)
  {
  }

  lemma BlockReading(j: nat)
    requires 2 <= j < 22
    ensures Reading(BlockSizes[j]) == Some(Amount(BlockTable[j]))
    ensures EndsWith(BlockSizes[j], 'm') <==> j < 15
    ensures EndsWith(BlockSizes[j], 'g') <==> j >= 15
  {
    BlockEntries();
    SpellMagnitude(BlockTable[j], 'm');
    SpellMagnitude(BlockTable[j], 'g');
  }

  lemma BlockReadings()
    ensures |BlockSizes| == 22
    ensures BlockSizes[0] == "=off" && BlockSizes[1] == "=on"
    ensures forall j :: 0 <= j < 2 ==> !EndsWith(BlockSizes[j], 'm') && !EndsWith(BlockSizes[j], 'g')
    ensures forall j :: 2 <= j < 22 ==> Reading(BlockSizes[j]) == Some(Amount(BlockTable[j]))
    ensures forall j :: 2 <= j < 22 ==> (EndsWith(BlockSizes[j], 'm') <==> j < 15)
    ensures forall j :: 2 <= j < 22 ==> (EndsWith(BlockSizes[j], 'g') <==> j >= 15)
  {
    BlockEntries();
    forall j | 2 <= j < 22
      ensures Reading(BlockSizes[j]) == Some(Amount(BlockTable[j]))
      ensures EndsWith(BlockSizes[j], 'm') <==> j < 15
      ensures EndsWith(BlockSizes[j], 'g') <==> j >= 15
    {
      SpellMagnitude(BlockTable[j], 'm');
      SpellMagnitude(BlockTable[j], 'g');
    }
  }

  /** The megabyte block entries ascend from 1 to 512; the gigabyte entries
      carry 1 to 64. */
  lemma BlockAmounts()
    ensures Amount(BlockTable[2]) == 1 && Amount(BlockTable[14]) == 512
    ensures forall a, b :: 2 <= a < b < 15 ==> Amount(BlockTable[a]) < Amount(BlockTable[b])
    ensures forall j :: 15 <= j < |BlockTable| ==> 1 <= Amount(BlockTable[j]) <= 64
    ensures forall j :: 2 <= j < |BlockTable| ==> Amount(BlockTable[j]) <= 512
    ensures forall a, b :: 15 <= a < b < |BlockTable| ==> Amount(BlockTable[a]) < Amount(BlockTable[b])
  {
  }
}
