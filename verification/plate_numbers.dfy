/**
  Plates `LLNNNLL` as records: a left letter pair, a three-digit number and
  a right letter pair. Plates are issued as a three-field odometer: the
  right pair turns fastest, then the number, which runs 010..999 and wraps
  back to 010, then the left pair. The odometer stops at ZZ999ZZ.
 */
module PlateNumbers {
  import opened Wrappers
  import Decimal
  import LetterPairs
  import Formats
  import LexOrder

  type Digits = n: int | 0 <= n < 1000

  datatype Plate = Plate(left: LetterPairs.LetterPair, digits: Digits, right: LetterPairs.LetterPair)

  /** Why no next plate can be issued. */
  datatype PlateError = PlateSpaceExhausted

  /** The first plate ever issued: AA010AA. */
  const FirstPlate := Plate(LetterPairs.AA, 10, LetterPairs.AA)

  /** The last plate that can be issued: ZZ999ZZ. */
  const LastPlate := Plate(LetterPairs.ZZ, 999, LetterPairs.ZZ)

  /** The smallest number an issued plate carries. */
  const MinDigits := 10

  function Encode(p: Plate): (s: string)
    ensures |s| == 7
  {
    LetterPairs.Encode(p.left) + Decimal.FixedWidth(p.digits, 3) + LetterPairs.Encode(p.right)
  }

  /** Reads the three fields back; `None` when the text is not of the format. */
  function Decode(s: string): (r: Option<Plate>)
    ensures r.Some? <==> Formats.IsPlateNumber(s)
  {
    if Formats.IsPlateNumber(s) then
      Formats.PlateNumberFields(s);
      assert Decimal.Pow10(3) == 1000;
      var left := LetterPairs.Decode(s[..2]).value;
      var digits := Decimal.ParseDigits(s[2..5]);
      var right := LetterPairs.Decode(s[5..]).value;
      Some(Plate(left, digits, right))
    else None
  }

  /** Every record encodes to text of the format, which decodes back to it. */
  lemma DecodeEncode(p: Plate)
    ensures Formats.IsPlateNumber(Encode(p))
    ensures Decode(Encode(p)) == Some(p)
  {
    var s := Encode(p);
    var l, d, r := LetterPairs.Encode(p.left), Decimal.FixedWidth(p.digits, 3), LetterPairs.Encode(p.right);
    assert s[..2] == l && s[2..5] == d && s[5..] == r;
    Formats.PlateNumberFields(s);
    assert Decimal.Pow10(3) == 1000;
    Decimal.ParseFixedWidth(p.digits, 3);
    LetterPairs.DecodeEncode(p.left);
    LetterPairs.DecodeEncode(p.right);
  }

  /** Every text of the format is the encoding of the record it decodes to. */
  lemma EncodeDecode(s: string)
    requires Formats.IsPlateNumber(s)
    ensures Encode(Decode(s).value) == s
  {
    Formats.PlateNumberFields(s);
    Decimal.FixedWidthParse(s[2..5]);
    assert s == s[..2] + s[2..5] + s[5..];
  }

  /** The odometer step. The right pair advances; when it wraps to AA the
      number advances; past 999 the number restarts at 010 and the left pair
      advances; when the left pair wraps too, every plate has been issued.
      A number below 010 is raised to 010. */
  function NextPlate(p: Plate): Result<Plate, PlateError> {
    var right := LetterPairs.Increment(p.right);
    if right == LetterPairs.AA then
      var digits := p.digits + 1;
      if digits > 999 then
        var left := LetterPairs.Increment(p.left);
        if left == LetterPairs.AA then Failure(PlateSpaceExhausted)
        else Success(Plate(left, MinDigits, right))
      else Success(Plate(p.left, Floor(digits), right))
    else Success(Plate(p.left, Floor(p.digits), right))
  }

  /** Which fields of the odometer move in one step: the right pair alone,
      the number as well, or the left pair as well. */
  datatype Carry = NoCarry | CarryIntoDigits | CarryIntoLeft

  /** Raises a number below 010 to 010. */
  function Floor(d: Digits): Digits {
    if d < MinDigits then MinDigits else d
  }

  /** The four outcomes of the step, by which fields carry. */
  lemma NextPlateCases(p: Plate)
    ensures p.right != LetterPairs.ZZ ==>
      NextPlate(p) == Success(Plate(p.left, Floor(p.digits), LetterPairs.Increment(p.right)))
    ensures p.right == LetterPairs.ZZ && p.digits < 999 ==>
      NextPlate(p) == Success(Plate(p.left, Floor(p.digits + 1), LetterPairs.AA))
    ensures p.right == LetterPairs.ZZ && p.digits == 999 && p.left != LetterPairs.ZZ ==>
      NextPlate(p) == Success(Plate(LetterPairs.Increment(p.left), MinDigits, LetterPairs.AA))
    ensures p.right == LetterPairs.ZZ && p.digits == 999 && p.left == LetterPairs.ZZ ==>
      NextPlate(p) == Failure(PlateSpaceExhausted)
  {
    LetterPairs.IncrementIsAAIffZZ(p.right);
    LetterPairs.IncrementIsAAIffZZ(p.left);
  }

  /** The step fails exactly at ZZ999ZZ. */
  lemma NextPlateFailsIffLast(p: Plate)
    ensures NextPlate(p).Failure? <==> p == LastPlate
  {
    LetterPairs.IncrementIsAAIffZZ(p.right);
    LetterPairs.IncrementIsAAIffZZ(p.left);
  }

  /** Every issued plate carries a number of at least 010. */
  lemma NextPlateDigitsFloor(p: Plate)
    ensures NextPlate(p).Success? ==> NextPlate(p).value.digits >= MinDigits
  {
  }

  /** The position of a plate in the issuing sequence AA010AA, AA010AB, ...,
      ZZ999ZZ, counted for plates whose number is at least 010. */
  function SequenceRank(p: Plate): int {
    (LetterPairs.Rank(p.left) * 990 + (p.digits - MinDigits)) * 676 + LetterPairs.Rank(p.right)
  }

  /** The largest position, that of ZZ999ZZ. */
  const LastSequenceRank := 676 * 990 * 676 - 1

  lemma SequenceRankBounds(p: Plate)
    requires p.digits >= MinDigits
    ensures 0 <= SequenceRank(p) <= LastSequenceRank
    ensures SequenceRank(p) == LastSequenceRank <==> p == LastPlate
  {
    if SequenceRank(p) == LastSequenceRank {
      assert LetterPairs.Rank(p.right) == 675;
      LetterPairs.RankInjective(p.right, LetterPairs.ZZ);
      assert LetterPairs.Rank(p.left) == 675;
      LetterPairs.RankInjective(p.left, LetterPairs.ZZ);
    }
  }

  /** On plates of the issuing sequence the step goes to the next position:
      it skips nothing and repeats nothing. */
  lemma NextPlateRank(p: Plate)
    requires p.digits >= MinDigits && p != LastPlate
    ensures NextPlate(p).Success?
    ensures SequenceRank(NextPlate(p).value) == SequenceRank(p) + 1
  {
    NextPlateCases(p);
    var q := NextPlate(p).value;
    if p.right != LetterPairs.ZZ {
      PairAdvances(p.right);
      SequenceRankCarry(p, q, NoCarry);
    } else if p.digits < 999 {
      assert LetterPairs.Rank(p.right) == 675;
      SequenceRankCarry(p, q, CarryIntoDigits);
    } else {
      PairAdvances(p.left);
      SequenceRankCarry(p, q, CarryIntoLeft);
    }
  }

  /** The arithmetic of the three carries. */
  lemma SequenceRankCarry(p: Plate, q: Plate, carry: Carry)
    requires p.digits >= MinDigits
    requires carry == NoCarry ==> (
      q.left == p.left && q.digits == Floor(p.digits) &&
      LetterPairs.Rank(q.right) == LetterPairs.Rank(p.right) + 1)
    requires carry == CarryIntoDigits ==> (
      q.left == p.left && p.digits < 999 && q.digits == Floor(p.digits + 1) &&
      LetterPairs.Rank(p.right) == 675 && q.right == LetterPairs.AA)
    requires carry == CarryIntoLeft ==> (
      LetterPairs.Rank(q.left) == LetterPairs.Rank(p.left) + 1 &&
      p.digits == 999 && q.digits == MinDigits &&
      p.right == LetterPairs.ZZ && q.right == LetterPairs.AA)
    ensures SequenceRank(q) == SequenceRank(p) + 1
  {
  }

  /** A pair other than ZZ advances by one without wrapping. */
  lemma PairAdvances(l: LetterPairs.LetterPair)
    requires l != LetterPairs.ZZ
    ensures LetterPairs.Rank(LetterPairs.Increment(l)) == LetterPairs.Rank(l) + 1
    ensures LetterPairs.Rank(l) < 675
  {
    LetterPairs.IncrementRank(l);
    if LetterPairs.Rank(l) == 675 {
      LetterPairs.RankInjective(l, LetterPairs.ZZ);
    }
  }

  /** A plate's position in text order, over all numbers 000..999. */
  function TextRank(p: Plate): int {
    (LetterPairs.Rank(p.left) * 1000 + p.digits) * 676 + LetterPairs.Rank(p.right)
  }

  /** Zero padding makes text order agree with the odometer's order. */
  lemma EncodeOrder(a: Plate, b: Plate)
    ensures LexOrder.Less(Encode(a), Encode(b)) <==> TextRank(a) < TextRank(b)
  {
    EncodeOrderFields(a, b);
  }

  /** Text order compares the left pair, then the number, then the right pair. */
  lemma EncodeOrderFields(a: Plate, b: Plate)
    ensures LexOrder.Less(Encode(a), Encode(b)) <==>
      LetterPairs.Rank(a.left) < LetterPairs.Rank(b.left) ||
      (a.left == b.left && (a.digits < b.digits ||
        (a.digits == b.digits && LetterPairs.Rank(a.right) < LetterPairs.Rank(b.right))))
  {
    var la, da, ra := LetterPairs.Encode(a.left), Decimal.FixedWidth(a.digits, 3), LetterPairs.Encode(a.right);
    var lb, db, rb := LetterPairs.Encode(b.left), Decimal.FixedWidth(b.digits, 3), LetterPairs.Encode(b.right);
    LexOrder.Concat(la + da, ra, lb + db, rb);
    LexOrder.Concat(la, da, lb, db);
    LexOrder.ConcatEq(la, da, lb, db);
    DigitsOrder(a.digits, b.digits);
    LetterPairs.EncodeOrder(a.left, b.left);
    LetterPairs.EncodeOrder(a.right, b.right);
    LetterPairs.DecodeEncode(a.left);
    LetterPairs.DecodeEncode(b.left);
  }

  /** The number field orders and identifies numbers. */
  lemma DigitsOrder(m: Digits, n: Digits)
    ensures LexOrder.Less(Decimal.FixedWidth(m, 3), Decimal.FixedWidth(n, 3)) <==> m < n
    ensures Decimal.FixedWidth(m, 3) == Decimal.FixedWidth(n, 3) <==> m == n
  {
    assert Decimal.Pow10(3) == 1000;
    Decimal.FixedWidthOrder(m, n, 3);
    if Decimal.FixedWidth(m, 3) == Decimal.FixedWidth(n, 3) {
      Decimal.FixedWidthInjective(m, n, 3);
    }
  }

  /** Whatever the plate, including one whose number is below 010, the plate
      the step issues sorts after it. */
  lemma NextPlateIsGreater(p: Plate)
    requires NextPlate(p).Success?
    ensures LexOrder.Less(Encode(p), Encode(NextPlate(p).value))
  {
    NextPlateCases(p);
    var q := NextPlate(p).value;
    if p.right != LetterPairs.ZZ {
      PairAdvances(p.right);
      TextRankCarry(p, q, NoCarry);
    } else if p.digits < 999 {
      assert LetterPairs.Rank(p.right) == 675;
      TextRankCarry(p, q, CarryIntoDigits);
    } else {
      PairAdvances(p.left);
      TextRankCarry(p, q, CarryIntoLeft);
    }
    EncodeOrder(p, q);
  }

  /** The text position grows under each of the three carries, the raise of
      a number below 010 included. */
  lemma TextRankCarry(p: Plate, q: Plate, carry: Carry)
    requires carry == NoCarry ==> (
      q.left == p.left && q.digits == Floor(p.digits) &&
      LetterPairs.Rank(q.right) == LetterPairs.Rank(p.right) + 1)
    requires carry == CarryIntoDigits ==> (
      q.left == p.left && p.digits < 999 && q.digits == Floor(p.digits + 1) &&
      LetterPairs.Rank(p.right) == 675 && q.right == LetterPairs.AA)
    requires carry == CarryIntoLeft ==> (
      LetterPairs.Rank(q.left) == LetterPairs.Rank(p.left) + 1 &&
      p.digits == 999 && q.digits == MinDigits &&
      p.right == LetterPairs.ZZ && q.right == LetterPairs.AA)
    ensures TextRank(p) < TextRank(q)
  {
  }
}
