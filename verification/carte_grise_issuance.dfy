/**
  `generer_prochain_numero_carte_grise`: the next carte-grise number of the
  current year. The generator looks up the greatest stored number that
  starts with the current year, and either starts the year at AA00001 or
  advances that number by one. The current year (`datetime.now().year`)
  is a parameter.
 */
module CarteGriseIssuance {
  import opened Wrappers
  import Decimal
  import LetterPairs
  import Formats
  import LexOrder
  import Store
  import CarteGriseNumbers

  /** The years whose printed form is four digits long, the width of the year field. */
  predicate FourDigitYear(year: nat) {
    1000 <= year <= 9999
  }

  /** The stored numbers the generator can read: every number of the year
      is of the format. */
  predicate WellFormedYear(year: nat, cards: seq<Store.CarteGrise>) {
    forall c :: c in cards && Decimal.Str(year) <= c.num ==> Formats.IsCarteGriseNumber(c.num)
  }

  /** The text the generator builds from the last number of the year, as
      written: the year read back from that number, its letter pair, and
      its serial plus one, zero-padded to five digits; past 99999 the
      serial restarts at 0 and the letter pair is incremented. */
  function NextCarteGriseAfter(currentYear: nat, last: Option<string>): string
    requires last.Some? ==> Formats.IsCarteGriseNumber(last.value)
  {
    match last
    case None => Decimal.Str(currentYear) + "AA00001"
    case Some(num) =>
      Formats.CarteGriseNumberFields(num);
      assert num[6..11] == num[6..];
      var year := Decimal.ParseDigits(num[0..4]);
      var serial := Decimal.ParseDigits(num[6..11]) + 1;
      var letters := if serial > 99999 then LetterPairs.IncrementLetters(num[4..6]) else num[4..6];
      var serial' := if serial > 99999 then 0 else serial;
      Decimal.Str(year) + letters + Decimal.ZFill(Decimal.Str(serial'), 5)
  }

  /** The generator: the greatest stored number starting with the printed
      current year, advanced by one, or the year's first number. */
  function NextCarteGriseNumber(currentYear: nat, cards: seq<Store.CarteGrise>): string
    requires WellFormedYear(currentYear, cards)
  {
    var last := Store.LastOfYear(Decimal.Str(currentYear), cards);
    NextCarteGriseAfter(currentYear, last)
  }

  /** A four-digit year prints as the year field. */
  lemma YearField(year: nat)
    requires FourDigitYear(year)
    ensures Decimal.Str(year) == Decimal.FixedWidth(year, 4)
  {
    assert Decimal.Pow10(3) == 1000 && Decimal.Pow10(4) == 10000;
    Decimal.StrFixedWidth(year, 4);
  }

  /** With no number of the year stored, the generator issues the year's
      first number, AA00001. */
  lemma NextCarteGriseFirst(year: nat)
    requires FourDigitYear(year)
    ensures NextCarteGriseAfter(year, None) == CarteGriseNumbers.Encode(CarteGriseNumbers.First(year))
  {
    YearField(year);
    assert LetterPairs.Encode(LetterPairs.AA) == "AA";
    assert Decimal.FixedWidth(1, 5) == "00001";
  }

  /** From a stored number with a four-digit year, the text the generator
      builds is the counter step on the record: same year, serial plus one,
      carrying into the letter pair past 99999. */
  lemma NextCarteGriseStep(currentYear: nat, num: string)
    requires Formats.IsCarteGriseNumber(num)
    requires CarteGriseNumbers.Decode(num).value.year >= 1000
    ensures NextCarteGriseAfter(currentYear, Some(num))
      == CarteGriseNumbers.Encode(CarteGriseNumbers.Next(CarteGriseNumbers.Decode(num).value))
  {
    var c := CarteGriseNumbers.Decode(num).value;
    CarteGriseNumbers.EncodeDecode(num);
    var y, l, n := Decimal.FixedWidth(c.year, 4), LetterPairs.Encode(c.letters), Decimal.FixedWidth(c.serial, 5);
    assert num[0..4] == y && num[4..6] == l && num[6..11] == n;
    assert Decimal.Pow10(4) == 10000 && Decimal.Pow10(5) == 100000;
    Decimal.ParseFixedWidth(c.year, 4);
    Decimal.ParseFixedWidth(c.serial, 5);
    YearField(c.year);
    var d := CarteGriseNumbers.Next(c);
    LetterPairs.DecodeEncode(c.letters);
    LetterPairs.IncrementLettersIsIncrement(l);
    Decimal.ZFillStr(d.serial, 5);
  }

  /** The last number of a four-digit year starts with that year, so the
      year the generator reads back is the current year. */
  lemma LastOfYearHasYear(year: nat, cards: seq<Store.CarteGrise>)
    requires FourDigitYear(year) && WellFormedYear(year, cards)
    ensures var last := Store.LastOfYear(Decimal.Str(year), cards);
      last.Some? ==>
        Formats.IsCarteGriseNumber(last.value) && CarteGriseNumbers.Decode(last.value).value.year == year
  {
    var last := Store.LastOfYear(Decimal.Str(year), cards);
    if last.Some? {
      var num := last.value;
      var c := CarteGriseNumbers.Decode(num).value;
      CarteGriseNumbers.EncodeDecode(num);
      YearField(year);
      assert num[..4] == Decimal.FixedWidth(c.year, 4);
      assert Decimal.Pow10(4) == 10000;
      Decimal.FixedWidthInjective(c.year, year, 4);
    }
  }

  /** What the generator issues in a four-digit year: the year's first
      number when none of the year is stored, otherwise the counter step
      on the year's last number. */
  lemma NextCarteGriseNumberIsStep(year: nat, cards: seq<Store.CarteGrise>)
    requires FourDigitYear(year) && WellFormedYear(year, cards)
    ensures var last := Store.LastOfYear(Decimal.Str(year), cards);
      NextCarteGriseNumber(year, cards) ==
        if last.None? then CarteGriseNumbers.Encode(CarteGriseNumbers.First(year))
        else CarteGriseNumbers.Encode(CarteGriseNumbers.Next(CarteGriseNumbers.Decode(last.value).value))
  {
    var last := Store.LastOfYear(Decimal.Str(year), cards);
    LastOfYearHasYear(year, cards);
    if last.None? {
      NextCarteGriseFirst(year);
    } else {
      NextCarteGriseStep(year, last.value);
    }
  }

  /** The issued number is of the format, both validators accept it, and
      it belongs to the current year. */
  lemma NextCarteGriseNumberValid(year: nat, cards: seq<Store.CarteGrise>)
    requires FourDigitYear(year) && WellFormedYear(year, cards)
    ensures var r := NextCarteGriseNumber(year, cards);
      Formats.IsCarteGriseNumber(r) && Formats.ValidateCarteGriseNumberAsWritten(r) &&
      CarteGriseNumbers.Decode(r).value.year == year && Decimal.Str(year) <= r
  {
    var r := NextCarteGriseNumber(year, cards);
    NextCarteGriseNumberIsStep(year, cards);
    LastOfYearHasYear(year, cards);
    var last := Store.LastOfYear(Decimal.Str(year), cards);
    var d := if last.None? then CarteGriseNumbers.First(year)
      else CarteGriseNumbers.Next(CarteGriseNumbers.Decode(last.value).value);
    assert d.year == year;
    CarteGriseNumbers.DecodeEncode(d);
    Formats.AsWrittenAcceptsExactly(r);
    YearField(year);
    assert r[..4] == Decimal.FixedWidth(year, 4);
  }

  /** The last number of the year, ZZ99999, in the year's printed form. */
  function LastOfYearText(year: nat): string {
    Decimal.Str(year) + "ZZ99999"
  }

  lemma LastOfYearTextIsLast(year: nat)
    requires FourDigitYear(year)
    ensures LastOfYearText(year) == CarteGriseNumbers.Encode(CarteGriseNumbers.CarteGriseNumber(year, LetterPairs.ZZ, 99999))
  {
    YearField(year);
    assert LetterPairs.Encode(LetterPairs.ZZ) == "ZZ";
    assert Decimal.FixedWidth(99999, 5) == "99999";
  }

  /** Unless ZZ99999 of the year is stored, the issued number sorts after
      every stored number of the year, and so differs from every stored
      number. */
  lemma NextCarteGriseNumberIsFresh(year: nat, cards: seq<Store.CarteGrise>)
    requires FourDigitYear(year) && WellFormedYear(year, cards)
    requires forall c :: c in cards ==> c.num != LastOfYearText(year)
    ensures var r := NextCarteGriseNumber(year, cards);
      (forall c :: c in cards && Decimal.Str(year) <= c.num ==> LexOrder.Less(c.num, r)) &&
      (forall c :: c in cards ==> c.num != r)
  {
    var r := NextCarteGriseNumber(year, cards);
    var last := Store.LastOfYear(Decimal.Str(year), cards);
    NextCarteGriseNumberValid(year, cards);
    if last.Some? {
      var m := last.value;
      LastOfYearHasYear(year, cards);
      NextCarteGriseNumberIsStep(year, cards);
      var c := CarteGriseNumbers.Decode(m).value;
      CarteGriseNumbers.EncodeDecode(m);
      LastOfYearTextIsLast(year);
      assert m != LastOfYearText(year);
      assert c != CarteGriseNumbers.CarteGriseNumber(year, LetterPairs.ZZ, 99999);
      CarteGriseNumbers.LastRankIsZZ99999(c);
      CarteGriseNumbers.NextIsGreater(c);
      assert LexOrder.Less(m, r);
      forall x | x in cards && Decimal.Str(year) <= x.num
        ensures LexOrder.Less(x.num, r)
      {
        if x.num != m {
          LexOrder.Transitive(x.num, m, r);
        }
      }
    }
    forall x | x in cards
      ensures x.num != r
    {
      if Decimal.Str(year) <= x.num {
        LexOrder.Irreflexive(r);
      }
    }
  }

  /** The wrap the generator does not guard against: once ZZ99999 of the
      year is stored, it is the year's last number, the generator issues
      AA00000, and it issues AA00000 again after that number is stored. */
  lemma WrapRepeats(year: nat, cards: seq<Store.CarteGrise>, plate: string)
    requires FourDigitYear(year) && WellFormedYear(year, cards)
    requires exists c :: c in cards && c.num == LastOfYearText(year)
    ensures NextCarteGriseNumber(year, cards) == WrappedText(year)
    ensures var cards' := cards + [Store.CarteGrise(WrappedText(year), plate)];
      WellFormedYear(year, cards') && NextCarteGriseNumber(year, cards') == WrappedText(year)
  {
    var z := LastOfYearText(year);
    var cards' := cards + [Store.CarteGrise(WrappedText(year), plate)];
    WrappedTextIsNumber(year);
    assert WellFormedYear(year, cards');
    assert exists c :: c in cards' && c.num == z by {
      var c :| c in cards && c.num == z;
      assert c in cards';
    }
    LastOfYearIsZ(year, cards);
    LastOfYearIsZ(year, cards');
    WrapStep(year);
  }

  /** Why no further number of the year can be issued. */
  datatype IssueError = YearExhausted

  /** The generator with the guard the plate generator has at ZZ999ZZ: when
      the year's last number is ZZ99999 it reports the year exhausted
      instead of wrapping to AA00000. */
  function NextCarteGriseNumberChecked(currentYear: nat, cards: seq<Store.CarteGrise>): Result<string, IssueError>
    requires WellFormedYear(currentYear, cards)
  {
    var last := Store.LastOfYear(Decimal.Str(currentYear), cards);
    if last == Some(LastOfYearText(currentYear)) then Failure(YearExhausted)
    else Success(NextCarteGriseAfter(currentYear, last))
  }

  /** The guarded generator fails exactly when ZZ99999 of the year is
      stored, and otherwise issues the unguarded generator's number, which
      is of the format and differs from every stored number. */
  lemma NextCarteGriseNumberCheckedIsFresh(year: nat, cards: seq<Store.CarteGrise>)
    requires FourDigitYear(year) && WellFormedYear(year, cards)
    ensures var r := NextCarteGriseNumberChecked(year, cards);
      (r.Failure? <==> exists c :: c in cards && c.num == LastOfYearText(year)) &&
      (r.Success? ==>
        r.value == NextCarteGriseNumber(year, cards) && Formats.IsCarteGriseNumber(r.value) &&
        forall c :: c in cards ==> c.num != r.value)
  {
    if exists c :: c in cards && c.num == LastOfYearText(year) {
      LastOfYearIsZ(year, cards);
    } else {
      NextCarteGriseNumberIsFresh(year, cards);
      NextCarteGriseNumberValid(year, cards);
    }
  }

  /** AA00000 of the year, the number the wrap issues. */
  function WrappedText(year: nat): string {
    Decimal.Str(year) + "AA00000"
  }

  lemma WrappedTextIsNumber(year: nat)
    requires FourDigitYear(year)
    ensures WrappedText(year) == CarteGriseNumbers.Encode(CarteGriseNumbers.CarteGriseNumber(year, LetterPairs.AA, 0))
    ensures Formats.IsCarteGriseNumber(WrappedText(year))
  {
    var a := CarteGriseNumbers.CarteGriseNumber(year, LetterPairs.AA, 0);
    YearField(year);
    assert LetterPairs.Encode(LetterPairs.AA) == "AA";
    assert Decimal.FixedWidth(0, 5) == "00000";
    CarteGriseNumbers.DecodeEncode(a);
  }

  /** After ZZ99999 the generator builds AA00000 of the same year. */
  lemma WrapStep(year: nat)
    requires FourDigitYear(year)
    ensures Formats.IsCarteGriseNumber(LastOfYearText(year))
    ensures NextCarteGriseAfter(year, Some(LastOfYearText(year))) == WrappedText(year)
  {
    var zc := CarteGriseNumbers.CarteGriseNumber(year, LetterPairs.ZZ, 99999);
    LastOfYearTextIsLast(year);
    CarteGriseNumbers.DecodeEncode(zc);
    NextCarteGriseStep(year, LastOfYearText(year));
    LetterPairs.IncrementIsAAIffZZ(LetterPairs.ZZ);
    assert CarteGriseNumbers.Next(zc) == CarteGriseNumbers.CarteGriseNumber(year, LetterPairs.AA, 0);
    WrappedTextIsNumber(year);
  }

  /** Every number of a four-digit year sorts no later than ZZ99999 of the year. */
  lemma AtMostLastOfYear(year: nat, m: string)
    requires FourDigitYear(year) && Formats.IsCarteGriseNumber(m)
    requires CarteGriseNumbers.Decode(m).value.year == year
    ensures LexOrder.LessEq(m, LastOfYearText(year))
  {
    var zc := CarteGriseNumbers.CarteGriseNumber(year, LetterPairs.ZZ, 99999);
    LastOfYearTextIsLast(year);
    var c := CarteGriseNumbers.Decode(m).value;
    CarteGriseNumbers.EncodeDecode(m);
    CarteGriseNumbers.EncodeOrder(c, zc);
    if c != zc {
      CarteGriseNumbers.LastRankIsZZ99999(c);
      assert CarteGriseNumbers.Rank(c) < CarteGriseNumbers.LastRank;
    }
  }

  /** A stored ZZ99999 of the year is the year's last number. */
  lemma LastOfYearIsZ(year: nat, cards: seq<Store.CarteGrise>)
    requires FourDigitYear(year) && WellFormedYear(year, cards)
    requires exists c :: c in cards && c.num == LastOfYearText(year)
    ensures Store.LastOfYear(Decimal.Str(year), cards) == Some(LastOfYearText(year))
  {
    var z := LastOfYearText(year);
    var last := Store.LastOfYear(Decimal.Str(year), cards);
    assert Decimal.Str(year) <= z;
    var m := last.value;
    LastOfYearHasYear(year, cards);
    AtMostLastOfYear(year, m);
    LexOrder.LessEqAntisymmetric(m, z);
  }

  /** The text of a number of a four-digit year, with the year printed by `str`. */
  lemma YearText(c: CarteGriseNumbers.CarteGriseNumber)
    requires FourDigitYear(c.year)
    ensures CarteGriseNumbers.Encode(c)
      == Decimal.Str(c.year) + LetterPairs.Encode(c.letters) + Decimal.FixedWidth(c.serial, 5)
    ensures Formats.IsCarteGriseNumber(CarteGriseNumbers.Encode(c))
  {
    YearField(c.year);
    CarteGriseNumbers.DecodeEncode(c);
  }

  /** With one number of the year stored, the generator issues its step. */
  lemma OneStoredStep(c: CarteGriseNumbers.CarteGriseNumber, num: string, next: string, plate: string)
    requires FourDigitYear(c.year)
    requires num == CarteGriseNumbers.Encode(c) && next == CarteGriseNumbers.Encode(CarteGriseNumbers.Next(c))
    ensures WellFormedYear(c.year, [Store.CarteGrise(num, plate)])
    ensures NextCarteGriseNumber(c.year, [Store.CarteGrise(num, plate)]) == next
  {
    var cards := [Store.CarteGrise(num, plate)];
    YearText(c);
    assert Decimal.Str(c.year) <= num;
    assert WellFormedYear(c.year, cards);
    var last := Store.LastOfYear(Decimal.Str(c.year), cards);
    assert last == Some(num);
    CarteGriseNumbers.DecodeEncode(c);
    NextCarteGriseStep(c.year, num);
  }

  /** The test suite's steps within a year: AA00001 to AA00002, AA00010 to
      AA00011, and AA99999 to AB00000, the carry into the letters. */
  lemma NextCarteGriseStepExample(year: nat)
    requires FourDigitYear(year)
    ensures var cards := [Store.CarteGrise(Decimal.Str(year) + "AA00001", "AA010AA")];
      WellFormedYear(year, cards) && NextCarteGriseNumber(year, cards) == Decimal.Str(year) + "AA00002"
  {
    SerialTexts();
    assert "AA" + "00001" == "AA00001" && "AA" + "00002" == "AA00002";
    OneStoredExample(CarteGriseNumbers.CarteGriseNumber(year, LetterPairs.AA, 1), "AA", "00001", "AA", "00002", "AA010AA");
  }

  lemma NextCarteGriseTensExample(year: nat)
    requires FourDigitYear(year)
    ensures var cards := [Store.CarteGrise(Decimal.Str(year) + "AA00010", "AA010AA")];
      WellFormedYear(year, cards) && NextCarteGriseNumber(year, cards) == Decimal.Str(year) + "AA00011"
  {
    SerialTexts();
    assert "AA" + "00010" == "AA00010" && "AA" + "00011" == "AA00011";
    OneStoredExample(CarteGriseNumbers.CarteGriseNumber(year, LetterPairs.AA, 10), "AA", "00010", "AA", "00011", "AA010AA");
  }

  lemma NextCarteGriseCarryExample(year: nat)
    requires FourDigitYear(year)
    ensures var cards := [Store.CarteGrise(Decimal.Str(year) + "AA99999", "AA010AA")];
      WellFormedYear(year, cards) && NextCarteGriseNumber(year, cards) == Decimal.Str(year) + "AB00000"
  {
    SerialTexts();
    assert "AA" + "99999" == "AA99999" && "AB" + "00000" == "AB00000";
    OneStoredExample(CarteGriseNumbers.CarteGriseNumber(year, LetterPairs.AA, 99999), "AA", "99999", "AB", "00000", "AA010AA");
  }

  /** The serial fields and letter pairs the examples use. */
  lemma SerialTexts()
    ensures Decimal.FixedWidth(0, 5) == "00000" && Decimal.FixedWidth(1, 5) == "00001"
    ensures Decimal.FixedWidth(2, 5) == "00002" && Decimal.FixedWidth(10, 5) == "00010"
    ensures Decimal.FixedWidth(11, 5) == "00011" && Decimal.FixedWidth(99999, 5) == "99999"
    ensures LetterPairs.Encode(LetterPairs.AA) == "AA" && LetterPairs.Encode(LetterPairs.LetterPair(0, 1)) == "AB"
  {
  }

  /** Helper for the examples: one stored number given by its letter and
      serial texts, and its step given the same way. */
  lemma OneStoredExample(a: CarteGriseNumbers.CarteGriseNumber, l1: string, s1: string, l2: string, s2: string, plate: string)
    requires FourDigitYear(a.year)
    requires LetterPairs.Encode(a.letters) == l1 && Decimal.FixedWidth(a.serial, 5) == s1
    requires var b := CarteGriseNumbers.Next(a);
      LetterPairs.Encode(b.letters) == l2 && Decimal.FixedWidth(b.serial, 5) == s2
    ensures var cards := [Store.CarteGrise(Decimal.Str(a.year) + (l1 + s1), plate)];
      WellFormedYear(a.year, cards) && NextCarteGriseNumber(a.year, cards) == Decimal.Str(a.year) + (l2 + s2)
  {
    var b := CarteGriseNumbers.Next(a);
    YearText(a);
    YearText(b);
    assert b.year == a.year;
    assert CarteGriseNumbers.Encode(a) == Decimal.Str(a.year) + (l1 + s1);
    assert CarteGriseNumbers.Encode(b) == Decimal.Str(a.year) + (l2 + s2);
    OneStoredStep(a, Decimal.Str(a.year) + (l1 + s1), Decimal.Str(a.year) + (l2 + s2), plate);
  }
}
