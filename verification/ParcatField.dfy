/**
 Picture order counts of the bitstream concatenator: the eight bits in a picture header that are patched in
 place, and the full count recovered from its low bits.
 */
module ParcatField {
  import opened Multiples
  import opened ParcatNal

  /* ----- Patching a field ----- */

  // Two to the number of bits that the two bytes of a field have behind it.
  function Scale(offset: nat): nat {
    match offset % 8
    case 0 => 256 case 1 => 128 case 2 => 64 case 3 => 32
    case 4 => 16 case 5 => 8 case 6 => 4 case _ => 2
  }

  // Two bytes as one word.
  function Word(a: Byte, b: Byte): nat {
    var high: int, low: int := a, b;
    high * 256 + low
  }

  // The word that holds a bit offset and the eight bits behind it.
  function WordAt(nal: seq<Byte>, offset: nat): (w: nat)
    requires offset / 8 + 1 < |nal|
    ensures w < 65536
  {
    Word(nal[offset / 8], nal[offset / 8 + 1])
  }

  // The bits before the field, the field, and the bits behind it.
  function High(w: nat, scale: nat): nat
    requires scale > 0
  {
    w / scale / 256
  }

  function Middle(w: nat, scale: nat): nat
    requires scale > 0
  {
    w / scale % 256
  }

  function Low(w: nat, scale: nat): nat
    requires scale > 0
  {
    w % scale
  }

  // The eight bits at a bit offset.
  function Field(nal: seq<Byte>, offset: nat): (f: nat)
    requires offset / 8 + 1 < |nal|
    ensures f < 256
  {
    Middle(WordAt(nal, offset), Scale(offset))
  }

  // The new value of a field: moved on, modulo 256.
  function NewField(f: nat, pocBase: int, lastIdrPoc: int): nat {
    (f + pocBase - lastIdrPoc + 256) % 256
  }

  function NewWord(w: nat, scale: nat, value: nat): nat
    requires scale > 0
  {
    (High(w, scale) * 256 + value) * scale + Low(w, scale)
  }

  // A word is made of its three parts.
  lemma WordParts(w: nat, scale: nat)
    requires scale > 0
    ensures NewWord(w, scale, Middle(w, scale)) == w
  {
  }

  // The new word has the new value in the middle and the old bits around it.
  lemma NewWordKeepsNeighbours(w: nat, scale: nat, value: nat)
    requires scale > 0 && value < 256
    ensures Middle(NewWord(w, scale, value), scale) == value
    ensures High(NewWord(w, scale, value), scale) == High(w, scale) && Low(NewWord(w, scale, value), scale) == Low(w, scale)
  {
    QuotientIs(High(w, scale) * 256 + value, scale, Low(w, scale));
    QuotientIs(High(w, scale), 256, value);
  }

  // There are fewer values of the bits before the field than the word is longer than field and bits behind.
  lemma FitsFor(w: nat, scale: nat, value: nat, times: nat)
    requires scale > 0 && High(w, scale) < times && times * scale == 256 && value < 256
    ensures NewWord(w, scale, value) < 65536
  {
    var high := High(w, scale);
    ProductIsMonotone(high * 256 + value + 1, times * 256, scale);
    assert (high * 256 + value + 1) * scale == (high * 256 + value) * scale + scale;
    assert times * 256 * scale == 256 * (times * scale);
  }

  lemma FieldFits(w: nat, offset: nat, value: nat)
    requires w < 65536 && value < 256
    ensures NewWord(w, Scale(offset), value) < 65536
  {
    match offset % 8
    case 0 => FitsFor(w, 256, value, 1);
    case 1 => FitsFor(w, 128, value, 2);
    case 2 => FitsFor(w, 64, value, 4);
    case 3 => FitsFor(w, 32, value, 8);
    case 4 => FitsFor(w, 16, value, 16);
    case 5 => FitsFor(w, 8, value, 32);
    case 6 => FitsFor(w, 4, value, 64);
    case _ => FitsFor(w, 2, value, 128);
  }

  lemma WordSplits(w: nat)
    requires w < 65536
    ensures w / 256 < 256 && w % 256 < 256 && Word(w / 256, w % 256) == w
  {
  }

  lemma WordIsInjective(a: Byte, b: Byte, c: Byte, d: Byte)
    requires Word(a, b) == Word(c, d)
    ensures a == c && b == d
  {
  }

  // The unit with its field replaced.
  function Patched(nal: seq<Byte>, offset: nat, value: nat): (r: seq<Byte>)
    requires offset / 8 + 1 < |nal| && value < 256
    ensures |r| == |nal|
    ensures forall i :: 0 <= i < |nal| && i != offset / 8 && i != offset / 8 + 1 ==> r[i] == nal[i]
  {
    var data := NewWord(WordAt(nal, offset), Scale(offset), value);
    FieldFits(WordAt(nal, offset), offset, value);
    WordSplits(data);
    nal[offset / 8 := data / 256][offset / 8 + 1 := data % 256]
  }

  // Only the field changes: the bits around it and all other bytes stay.
  lemma PatchKeepsNeighbours(nal: seq<Byte>, offset: nat, value: nat)
    requires offset / 8 + 1 < |nal| && value < 256
    ensures var r := Patched(nal, offset, value); var v, w, scale := WordAt(r, offset), WordAt(nal, offset), Scale(offset);
      Field(r, offset) == value && High(v, scale) == High(w, scale) && Low(v, scale) == Low(w, scale)
  {
    NewWordKeepsNeighbours(WordAt(nal, offset), Scale(offset), value);
    WordOfPatched(nal, offset, value);
  }

  lemma WordOfPatched(nal: seq<Byte>, offset: nat, value: nat)
    requires offset / 8 + 1 < |nal| && value < 256
    ensures WordAt(Patched(nal, offset, value), offset) == NewWord(WordAt(nal, offset), Scale(offset), value)
  {
    FieldFits(WordAt(nal, offset), offset, value);
    WordSplits(NewWord(WordAt(nal, offset), Scale(offset), value));
  }

  // A field that is not moved leaves the unit as it is.
  lemma PatchOfSame(nal: seq<Byte>, offset: nat)
    requires offset / 8 + 1 < |nal|
    ensures Patched(nal, offset, Field(nal, offset)) == nal
  {
    var r, k := Patched(nal, offset, Field(nal, offset)), offset / 8;
    WordOfPatched(nal, offset, Field(nal, offset));
    WordParts(WordAt(nal, offset), Scale(offset));
    WordIsInjective(r[k], r[k + 1], nal[k], nal[k + 1]);
  }

  /* ----- The full count ----- */

  function Power2(bits: nat): (m: nat)
    ensures m >= 1 && (m > 1 ==> m % 2 == 0)
  {
    if bits == 0 then 1 else 2 * Power2(bits - 1)
  }

  function CalcPoc(lsb: nat, prevPoc: int, bits: nat): int {
    var max := Power2(bits);
    var prevLsb := prevPoc % max;
    var prevMsb := prevPoc - prevLsb;
    if lsb < prevLsb && prevLsb - lsb >= max / 2 then prevMsb + max + lsb
    else if lsb > prevLsb && lsb - prevLsb > max / 2 then prevMsb - max + lsb
    else prevMsb + lsb
  }

  // Of the counts with the given low bits, the one closest to the previous count, the higher of two.
  ghost predicate IsClosest(poc: int, lsb: nat, prevPoc: int, max: int)
    requires max > 0
  {
    poc % max == lsb && -max < 2 * (poc - prevPoc) <= max
  }

  lemma SameResidue(a: int, b: int, max: int)
    requires max > 0 && a % max == b % max && -max < a - b < max
    ensures a == b
  {
    var p, q := a / max, b / max;
    assert (p - q) * max == a - b by { assert a == p * max + a % max && b == q * max + b % max; }
    if p > q {
      ProductIsMonotone(1, p - q, max);
    } else if p < q {
      ProductIsMonotone(p - q, -1, max);
    }
  }

  lemma ResidueOf(a: int, q: int, max: int, r: nat)
    requires r < max && a == q * max + r
    ensures a % max == r
  {
    var p := a / max;
    assert a == p * max + a % max;
    assert (p - q) * max == p * max - q * max;
    if p > q {
      ProductIsMonotone(1, p - q, max);
    } else if p < q {
      ProductIsMonotone(p - q, -1, max);
    }
  }

  // The multiple of the range that the count before lies behind, and the two beside it.
  lemma MultiplesAround(prevPoc: int, max: int, q: int)
    requires max > 0 && q == prevPoc / max
    ensures prevPoc - prevPoc % max == q * max
    ensures (q + 1) * max == q * max + max && (q - 1) * max == q * max - max
  {
  }

  lemma CalcPocKeepsBits(lsb: nat, prevPoc: int, bits: nat)
    requires lsb < Power2(bits)
    ensures CalcPoc(lsb, prevPoc, bits) % Power2(bits) == lsb
  {
    var max, r := Power2(bits), CalcPoc(lsb, prevPoc, bits);
    var q := prevPoc / max;
    MultiplesAround(prevPoc, max, q);
    ResidueOf(r, if r == q * max + lsb then q else if r == q * max + max + lsb then q + 1 else q - 1, max, lsb);
  }

  // The count recovered is the closest one, and no other count is.
  lemma PocIsClosest(lsb: nat, prevPoc: int, bits: nat, poc: int)
    requires lsb < Power2(bits)
    ensures IsClosest(poc, lsb, prevPoc, Power2(bits)) <==> poc == CalcPoc(lsb, prevPoc, bits)
  {
    CalcPocKeepsBits(lsb, prevPoc, bits);
    if IsClosest(poc, lsb, prevPoc, Power2(bits)) {
      SameResidue(poc, CalcPoc(lsb, prevPoc, bits), Power2(bits));
    }
  }
}
