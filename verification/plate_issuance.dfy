/**
  `generer_prochain_numero_immatriculation`: the next plate. The generator
  looks up the greatest stored plate and advances it as an odometer, or
  issues AA010AA when no plate is stored; past ZZ999ZZ it raises an error,
  modelled as `Failure(PlateSpaceExhausted)`.
 */
module PlateIssuance {
  import opened Wrappers
  import Decimal
  import LetterPairs
  import Formats
  import LexOrder
  import Store
  import PlateNumbers

  /** The stored plates the generator can read: every plate is of the format. */
  predicate WellFormedPlates(cards: seq<Store.CarteGrise>) {
    forall c :: c in cards ==> Formats.IsPlateNumber(c.plate)
  }

  /** The plate text built from its parts: a number below 10 is raised to
      10, then printed zero-padded to three digits. */
  function Print(left: string, digits: nat, right: string): string {
    left + Decimal.ZFill(Decimal.Str(if digits < 10 then 10 else digits), 3) + right
  }

  /** The text the generator builds from the last plate, as written: the
      right pair is incremented; when it comes back to "AA" the number is
      incremented; past 999 the number restarts at 10 and the left pair is
      incremented, and when that comes back to "AA" too there is no next
      plate. */
  function NextPlateAfter(last: Option<string>): Result<string, PlateNumbers.PlateError>
    requires last.Some? ==> Formats.IsPlateNumber(last.value)
  {
    match last
    case None => Success("AA010AA")
    case Some(num) =>
      Formats.PlateNumberFields(num);
      assert num[5..7] == num[5..];
      var left := num[0..2];
      var digits := Decimal.ParseDigits(num[2..5]);
      var right := LetterPairs.IncrementLetters(num[5..7]);
      if right == "AA" then
        if digits + 1 > 999 then
          var left' := LetterPairs.IncrementLetters(left);
          if left' == "AA" then Failure(PlateNumbers.PlateSpaceExhausted)
          else Success(Print(left', 10, right))
        else Success(Print(left, digits + 1, right))
      else Success(Print(left, digits, right))
  }

  /** The generator: the greatest stored plate, advanced, or the first plate. */
  function NextPlateNumber(cards: seq<Store.CarteGrise>): Result<string, PlateNumbers.PlateError>
    requires WellFormedPlates(cards)
  {
    var last := Store.LastPlateNumber(cards);
    assert last.Some? ==> Formats.IsPlateNumber(last.value);
    NextPlateAfter(last)
  }

  /** The text of the outcome of an odometer step. */
  function EncodeResult(r: Result<PlateNumbers.Plate, PlateNumbers.PlateError>): Result<string, PlateNumbers.PlateError> {
    match r
    case Success(p) => Success(PlateNumbers.Encode(p))
    case Failure(e) => Failure(e)
  }

  /** Printing the parts of a plate gives the plate's text, the number
      raised to 10 if below. */
  lemma PrintIsEncode(left: LetterPairs.LetterPair, digits: PlateNumbers.Digits, right: LetterPairs.LetterPair)
    ensures Print(LetterPairs.Encode(left), digits, LetterPairs.Encode(right))
      == PlateNumbers.Encode(PlateNumbers.Plate(left, PlateNumbers.Floor(digits), right))
  {
    assert Decimal.Pow10(3) == 1000;
    Decimal.ZFillStr(PlateNumbers.Floor(digits), 3);
  }

  /** A letter pair's text is "AA" exactly for the pair AA. */
  lemma EncodesAA(q: LetterPairs.LetterPair)
    ensures LetterPairs.Encode(q) == "AA" <==> q == LetterPairs.AA
  {
    assert LetterPairs.Encode(LetterPairs.AA) == "AA";
    if LetterPairs.Encode(q) == "AA" {
      LetterPairs.DecodeEncode(q);
      LetterPairs.DecodeEncode(LetterPairs.AA);
      assert Some(q) == LetterPairs.Decode("AA") == Some(LetterPairs.AA);
    }
  }

  /** With nothing stored, the generator issues the first plate. */
  lemma NextPlateFirst()
    ensures NextPlateAfter(None) == Success(PlateNumbers.Encode(PlateNumbers.FirstPlate))
  {
    assert LetterPairs.Encode(LetterPairs.AA) == "AA";
    assert Decimal.FixedWidth(10, 3) == "010";
    assert "AA" + "010" + "AA" == "AA010AA";
  }

  /** From a stored plate, the text the generator builds is the odometer
      step on the record: the same plate, or the same failure. */
  lemma NextPlateStep(num: string)
    requires Formats.IsPlateNumber(num)
    ensures NextPlateAfter(Some(num)) == EncodeResult(PlateNumbers.NextPlate(PlateNumbers.Decode(num).value))
  {
    var p := PlateNumbers.Decode(num).value;
    PlateFields(num);
    var right := LetterPairs.Increment(p.right);
    EncodesAA(right);
    PlateNumbers.NextPlateCases(p);
    if right != LetterPairs.AA {
      StepNoCarry(p);
    } else if p.digits < 999 {
      StepCarryIntoDigits(p);
    } else {
      var left := LetterPairs.Increment(p.left);
      EncodesAA(left);
      if left != LetterPairs.AA {
        StepCarryIntoLeft(p);
      }
    }
  }

  /** What the generator reads from a stored plate, in terms of its record. */
  lemma PlateFields(num: string)
    requires Formats.IsPlateNumber(num)
    ensures var p := PlateNumbers.Decode(num).value;
      |num| == 7 && Decimal.AllDigits(num[2..5]) &&
      num[0..2] == LetterPairs.Encode(p.left) &&
      Decimal.ParseDigits(num[2..5]) == p.digits &&
      LetterPairs.IncrementLetters(num[0..2]) == LetterPairs.Encode(LetterPairs.Increment(p.left)) &&
      LetterPairs.IncrementLetters(num[5..7]) == LetterPairs.Encode(LetterPairs.Increment(p.right))
  {
    var p := PlateNumbers.Decode(num).value;
    Formats.PlateNumberFields(num);
    PlateNumbers.EncodeDecode(num);
    var l, d, r := LetterPairs.Encode(p.left), Decimal.FixedWidth(p.digits, 3), LetterPairs.Encode(p.right);
    assert num[0..2] == l && num[2..5] == d && num[5..7] == r;
    assert Decimal.Pow10(3) == 1000;
    Decimal.ParseFixedWidth(p.digits, 3);
    LetterPairs.DecodeEncode(p.left);
    LetterPairs.DecodeEncode(p.right);
    LetterPairs.IncrementLettersIsIncrement(l);
    LetterPairs.IncrementLettersIsIncrement(r);
  }

  lemma StepNoCarry(p: PlateNumbers.Plate)
    requires LetterPairs.Increment(p.right) != LetterPairs.AA
    ensures Success(Print(LetterPairs.Encode(p.left), p.digits, LetterPairs.Encode(LetterPairs.Increment(p.right))))
      == EncodeResult(PlateNumbers.NextPlate(p))
  {
    PrintIsEncode(p.left, p.digits, LetterPairs.Increment(p.right));
  }

  lemma StepCarryIntoDigits(p: PlateNumbers.Plate)
    requires LetterPairs.Increment(p.right) == LetterPairs.AA && p.digits < 999
    ensures Success(Print(LetterPairs.Encode(p.left), p.digits + 1, LetterPairs.Encode(LetterPairs.AA)))
      == EncodeResult(PlateNumbers.NextPlate(p))
  {
    PrintIsEncode(p.left, p.digits + 1, LetterPairs.AA);
  }

  lemma StepCarryIntoLeft(p: PlateNumbers.Plate)
    requires LetterPairs.Increment(p.right) == LetterPairs.AA && p.digits == 999
    requires LetterPairs.Increment(p.left) != LetterPairs.AA
    ensures Success(Print(LetterPairs.Encode(LetterPairs.Increment(p.left)), 10, LetterPairs.Encode(LetterPairs.AA)))
      == EncodeResult(PlateNumbers.NextPlate(p))
  {
    PrintIsEncode(LetterPairs.Increment(p.left), 10, LetterPairs.AA);
  }

  /** What the generator issues: the first plate when nothing is stored,
      otherwise the odometer step on the greatest stored plate. */
  lemma NextPlateNumberIsStep(cards: seq<Store.CarteGrise>)
    requires WellFormedPlates(cards)
    ensures var last := Store.LastPlateNumber(cards);
      NextPlateNumber(cards) ==
        if last.None? then Success(PlateNumbers.Encode(PlateNumbers.FirstPlate))
        else EncodeResult(PlateNumbers.NextPlate(PlateNumbers.Decode(last.value).value))
  {
    var last := Store.LastPlateNumber(cards);
    if last.None? {
      NextPlateFirst();
    } else {
      NextPlateStep(last.value);
    }
  }

  /** The text of ZZ999ZZ, the last plate. */
  lemma LastPlateText()
    ensures PlateNumbers.Encode(PlateNumbers.LastPlate) == "ZZ999ZZ"
  {
    assert LetterPairs.Encode(LetterPairs.ZZ) == "ZZ";
    assert Decimal.FixedWidth(999, 3) == "999";
    assert "ZZ" + "999" + "ZZ" == "ZZ999ZZ";
  }

  /** Every plate of the format sorts no later than ZZ999ZZ. */
  lemma AtMostLastPlate(s: string)
    requires Formats.IsPlateNumber(s)
    ensures LexOrder.LessEq(s, "ZZ999ZZ")
  {
    var p := PlateNumbers.Decode(s).value;
    PlateNumbers.EncodeDecode(s);
    LastPlateText();
    PlateNumbers.EncodeOrder(p, PlateNumbers.LastPlate);
    if p != PlateNumbers.LastPlate {
      if p.left != LetterPairs.ZZ {
        PlateNumbers.PairAdvances(p.left);
      }
      if p.right != LetterPairs.ZZ {
        PlateNumbers.PairAdvances(p.right);
      }
      TextRankBelowLast(p);
    }
  }

  /** A plate below ZZ999ZZ in some field is below it in text position. */
  lemma TextRankBelowLast(p: PlateNumbers.Plate)
    requires LetterPairs.Rank(p.left) < 675 || p.digits < 999 || LetterPairs.Rank(p.right) < 675
    ensures PlateNumbers.TextRank(p) < PlateNumbers.TextRank(PlateNumbers.LastPlate)
  {
    var l, r := LetterPairs.Rank(p.left), LetterPairs.Rank(p.right);
    assert l <= 675 && r <= 675;
    assert (l * 1000 + p.digits) * 676 + r < (675 * 1000 + 999) * 676 + 675 by {
      if l < 675 {
        assert l * 1000 + p.digits < 675 * 1000;
      }
    }
  }

  /** The generator fails exactly when ZZ999ZZ is stored. */
  lemma NextPlateNumberFailsIff(cards: seq<Store.CarteGrise>)
    requires WellFormedPlates(cards)
    ensures NextPlateNumber(cards).Failure? <==> exists c :: c in cards && c.plate == "ZZ999ZZ"
  {
    var last := Store.LastPlateNumber(cards);
    NextPlateNumberIsStep(cards);
    LastPlateText();
    if last.Some? {
      var p := PlateNumbers.Decode(last.value).value;
      PlateNumbers.EncodeDecode(last.value);
      PlateNumbers.NextPlateFailsIffLast(p);
      if exists c :: c in cards && c.plate == "ZZ999ZZ" {
        AtMostLastPlate(last.value);
        LexOrder.LessEqAntisymmetric(last.value, "ZZ999ZZ");
        PlateNumbers.DecodeEncode(PlateNumbers.LastPlate);
      }
    }
  }

  /** An issued plate is of the format, both validators accept it, and its
      number is at least 010. */
  lemma NextPlateNumberValid(cards: seq<Store.CarteGrise>)
    requires WellFormedPlates(cards)
    ensures var r := NextPlateNumber(cards);
      r.Success? ==>
        Formats.IsPlateNumber(r.value) && Formats.ValidatePlateNumberAsWritten(r.value) &&
        PlateNumbers.Decode(r.value).value.digits >= PlateNumbers.MinDigits
  {
    var r := NextPlateNumber(cards);
    var last := Store.LastPlateNumber(cards);
    NextPlateNumberIsStep(cards);
    if r.Success? {
      var q := if last.None? then PlateNumbers.FirstPlate
        else PlateNumbers.NextPlate(PlateNumbers.Decode(last.value).value).value;
      assert r.value == PlateNumbers.Encode(q);
      if last.Some? {
        PlateNumbers.NextPlateDigitsFloor(PlateNumbers.Decode(last.value).value);
      }
      PlateNumbers.DecodeEncode(q);
      Formats.AsWrittenAcceptsExactly(r.value);
    }
  }

  /** An issued plate sorts after every stored plate, so it is not stored. */
  lemma NextPlateNumberIsFresh(cards: seq<Store.CarteGrise>)
    requires WellFormedPlates(cards)
    ensures var r := NextPlateNumber(cards);
      r.Success? ==> forall c :: c in cards ==> LexOrder.Less(c.plate, r.value) && c.plate != r.value
  {
    var r := NextPlateNumber(cards);
    var last := Store.LastPlateNumber(cards);
    NextPlateNumberIsStep(cards);
    if r.Success? && last.Some? {
      var m := last.value;
      var p := PlateNumbers.Decode(m).value;
      PlateNumbers.EncodeDecode(m);
      PlateNumbers.NextPlateIsGreater(p);
      assert LexOrder.Less(m, r.value);
      forall c | c in cards
        ensures LexOrder.Less(c.plate, r.value) && c.plate != r.value
      {
        if c.plate != m {
          LexOrder.Transitive(c.plate, m, r.value);
        }
        LexOrder.Irreflexive(r.value);
      }
    }
  }

  /** With one stored plate, the generator issues the odometer step on it. */
  lemma OnePlateStored(p: PlateNumbers.Plate, num: string, plate: string, next: Result<string, PlateNumbers.PlateError>)
    requires plate == PlateNumbers.Encode(p) && next == EncodeResult(PlateNumbers.NextPlate(p))
    ensures WellFormedPlates([Store.CarteGrise(num, plate)])
    ensures NextPlateNumber([Store.CarteGrise(num, plate)]) == next
  {
    var cards := [Store.CarteGrise(num, plate)];
    PlateNumbers.DecodeEncode(p);
    assert WellFormedPlates(cards);
    assert Store.LastPlateNumber(cards) == Some(plate);
    NextPlateStep(plate);
  }

  /** The text of a plate given by the texts of its fields. */
  lemma PlateText(p: PlateNumbers.Plate, left: string, digits: string, right: string)
    requires LetterPairs.Encode(p.left) == left && Decimal.FixedWidth(p.digits, 3) == digits
    requires LetterPairs.Encode(p.right) == right
    ensures PlateNumbers.Encode(p) == left + digits + right
  {
  }

  /** With nothing stored the generator issues AA010AA. */
  lemma NextPlateFirstExample()
    ensures WellFormedPlates([]) && NextPlateNumber([]) == Success("AA010AA")
  {
    NextPlateFirst();
  }

  /** The test suite's step from AA010AA to AA010AB: the right pair advances. */
  lemma NextPlateRightExample()
    ensures var cards := [Store.CarteGrise("2026AA00001", "AA010AA")];
      WellFormedPlates(cards) && NextPlateNumber(cards) == Success("AA010AB")
  {
    var p, q := PlateNumbers.Plate(LetterPairs.AA, 10, LetterPairs.AA), PlateNumbers.Plate(LetterPairs.AA, 10, LetterPairs.LetterPair(0, 1));
    PlateText(p, "AA", "010", "AA");
    PlateText(q, "AA", "010", "AB");
    assert "AA" + "010" + "AA" == "AA010AA" && "AA" + "010" + "AB" == "AA010AB";
    assert PlateNumbers.NextPlate(p) == Success(q);
    OnePlateStored(p, "2026AA00001", "AA010AA", Success("AA010AB"));
  }

  /** The test suite's step from AA010ZZ to AA011AA: the right pair wraps and the number advances. */
  lemma NextPlateDigitsExample()
    ensures var cards := [Store.CarteGrise("2026AA00001", "AA010ZZ")];
      WellFormedPlates(cards) && NextPlateNumber(cards) == Success("AA011AA")
  {
    var p, q := PlateNumbers.Plate(LetterPairs.AA, 10, LetterPairs.ZZ), PlateNumbers.Plate(LetterPairs.AA, 11, LetterPairs.AA);
    PlateText(p, "AA", "010", "ZZ");
    PlateText(q, "AA", "011", "AA");
    assert "AA" + "010" + "ZZ" == "AA010ZZ" && "AA" + "011" + "AA" == "AA011AA";
    assert PlateNumbers.NextPlate(p) == Success(q);
    OnePlateStored(p, "2026AA00001", "AA010ZZ", Success("AA011AA"));
  }

  /** The test suite's step from AB078ZZ to AB079AA: the same further on. */
  lemma NextPlateDigitsLaterExample()
    ensures var cards := [Store.CarteGrise("2026AA00001", "AB078ZZ")];
      WellFormedPlates(cards) && NextPlateNumber(cards) == Success("AB079AA")
  {
    var p, q := PlateNumbers.Plate(LetterPairs.LetterPair(0, 1), 78, LetterPairs.ZZ), PlateNumbers.Plate(LetterPairs.LetterPair(0, 1), 79, LetterPairs.AA);
    PlateText(p, "AB", "078", "ZZ");
    PlateText(q, "AB", "079", "AA");
    assert "AB" + "078" + "ZZ" == "AB078ZZ" && "AB" + "079" + "AA" == "AB079AA";
    assert PlateNumbers.NextPlate(p) == Success(q);
    OnePlateStored(p, "2026AA00001", "AB078ZZ", Success("AB079AA"));
  }

  /** The test suite's step from AB999ZZ to AC010AA: the number wraps to 010 and the left pair advances. */
  lemma NextPlateLeftExample()
    ensures var cards := [Store.CarteGrise("2026AA00001", "AB999ZZ")];
      WellFormedPlates(cards) && NextPlateNumber(cards) == Success("AC010AA")
  {
    var p, q := PlateNumbers.Plate(LetterPairs.LetterPair(0, 1), 999, LetterPairs.ZZ), PlateNumbers.Plate(LetterPairs.LetterPair(0, 2), 10, LetterPairs.AA);
    PlateText(p, "AB", "999", "ZZ");
    PlateText(q, "AC", "010", "AA");
    assert "AB" + "999" + "ZZ" == "AB999ZZ" && "AC" + "010" + "AA" == "AC010AA";
    assert PlateNumbers.NextPlate(p) == Success(q);
    OnePlateStored(p, "2026AA00001", "AB999ZZ", Success("AC010AA"));
  }

  /** The test suite's limit: with ZZ999ZZ stored there is no next plate. */
  lemma NextPlateLimitExample()
    ensures var cards := [Store.CarteGrise("2026AA00001", "ZZ999ZZ")];
      WellFormedPlates(cards) && NextPlateNumber(cards) == Failure(PlateNumbers.PlateSpaceExhausted)
  {
    LastPlateText();
    PlateNumbers.NextPlateFailsIffLast(PlateNumbers.LastPlate);
    OnePlateStored(PlateNumbers.LastPlate, "2026AA00001", "ZZ999ZZ", Failure(PlateNumbers.PlateSpaceExhausted));
  }
}
