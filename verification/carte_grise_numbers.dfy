/**
  Carte-grise numbers `YYYYLLNNNNN` as records: a four-digit year, a letter
  pair and a five-digit serial. Within a year the letter pair and the serial
  form one counter: the serial counts 00000..99999 and carries into the
  letter pair, so a year holds 676 * 100000 numbers, and the counter wraps
  silently from ZZ99999 to AA00000.
 */
module CarteGriseNumbers {
  import opened Wrappers
  import Decimal
  import LetterPairs
  import Formats
  import LexOrder

  type Year = y: int | 0 <= y < 10000
  type Serial = n: int | 0 <= n < 100000

  datatype CarteGriseNumber = CarteGriseNumber(year: Year, letters: LetterPairs.LetterPair, serial: Serial)

  /** The value of the largest number of a year, ZZ99999. */
  const LastRank := 67599999

  /** The first number issued in a year: AA00001. */
  function First(year: Year): CarteGriseNumber {
    CarteGriseNumber(year, LetterPairs.AA, 1)
  }

  /** The position of a number in its year's counter: the letter pair is the
      high-order part, the serial the low-order part. */
  function Rank(c: CarteGriseNumber): int {
    LetterPairs.Rank(c.letters) * 100000 + c.serial
  }

  function Encode(c: CarteGriseNumber): (s: string)
    ensures |s| == 11
  {
    Decimal.FixedWidth(c.year, 4) + LetterPairs.Encode(c.letters) + Decimal.FixedWidth(c.serial, 5)
  }

  /** Reads the three fields back; `None` when the text is not of the format. */
  function Decode(s: string): (r: Option<CarteGriseNumber>)
    ensures r.Some? <==> Formats.IsCarteGriseNumber(s)
  {
    if Formats.IsCarteGriseNumber(s) then
      Formats.CarteGriseNumberFields(s);
      assert Decimal.Pow10(4) == 10000 && Decimal.Pow10(5) == 100000;
      var year := Decimal.ParseDigits(s[..4]);
      var letters := LetterPairs.Decode(s[4..6]).value;
      var serial := Decimal.ParseDigits(s[6..]);
      Some(CarteGriseNumber(year, letters, serial))
    else None
  }

  /** Every record encodes to text of the format, which decodes back to it. */
  lemma DecodeEncode(c: CarteGriseNumber)
    ensures Formats.IsCarteGriseNumber(Encode(c))
    ensures Decode(Encode(c)) == Some(c)
  {
    var s := Encode(c);
    var y, l, n := Decimal.FixedWidth(c.year, 4), LetterPairs.Encode(c.letters), Decimal.FixedWidth(c.serial, 5);
    assert s[..4] == y && s[4..6] == l && s[6..] == n;
    Formats.CarteGriseNumberFields(s);
    assert Decimal.Pow10(4) == 10000 && Decimal.Pow10(5) == 100000;
    Decimal.ParseFixedWidth(c.year, 4);
    Decimal.ParseFixedWidth(c.serial, 5);
    LetterPairs.DecodeEncode(c.letters);
  }

  /** Every text of the format is the encoding of the record it decodes to. */
  lemma EncodeDecode(s: string)
    requires Formats.IsCarteGriseNumber(s)
    ensures Encode(Decode(s).value) == s
  {
    Formats.CarteGriseNumberFields(s);
    var c := Decode(s).value;
    Decimal.FixedWidthParse(s[..4]);
    Decimal.FixedWidthParse(s[6..]);
    assert s == s[..4] + s[4..6] + s[6..];
  }

  lemma EncodeInjective(a: CarteGriseNumber, b: CarteGriseNumber)
    requires Encode(a) == Encode(b)
    ensures a == b
  {
    DecodeEncode(a);
    DecodeEncode(b);
  }

  /** The counter step within a year: the serial advances; past 99999 it
      restarts at 00000 and the letter pair advances. The year is kept. */
  function Next(c: CarteGriseNumber): CarteGriseNumber {
    if c.serial < 99999 then c.(serial := c.serial + 1)
    else c.(letters := LetterPairs.Increment(c.letters), serial := 0)
  }

  /** The step keeps the year and adds one to the position in the year,
      except that the last number of the year, ZZ99999, goes to AA00000. */
  lemma NextRank(c: CarteGriseNumber)
    ensures Next(c).year == c.year
    ensures Rank(Next(c)) == if Rank(c) == LastRank then 0 else Rank(c) + 1
  {
    LetterPairs.IncrementRank(c.letters);
    if c.serial == 99999 {
      assert Rank(c) == LastRank <==> LetterPairs.Rank(c.letters) == 675;
    }
  }

  /** The position in the year identifies the number within the year. */
  lemma RankInjective(a: CarteGriseNumber, b: CarteGriseNumber)
    requires a.year == b.year && Rank(a) == Rank(b)
    ensures a == b
  {
    LetterPairs.RankInjective(a.letters, b.letters);
  }

  /** The only number whose successor wraps is ZZ99999. */
  lemma LastRankIsZZ99999(c: CarteGriseNumber)
    ensures Rank(c) == LastRank <==> c.letters == LetterPairs.ZZ && c.serial == 99999
  {
    if Rank(c) == LastRank {
      LetterPairs.RankInjective(c.letters, LetterPairs.ZZ);
    }
  }

  /** Zero padding makes text order agree with record order: first by year,
      then by position in the year. */
  lemma EncodeOrder(a: CarteGriseNumber, b: CarteGriseNumber)
    ensures LexOrder.Less(Encode(a), Encode(b)) <==>
      a.year < b.year || (a.year == b.year && Rank(a) < Rank(b))
  {
    EncodeOrderFields(a, b);
  }

  /** Text order compares the year, then the letter pair, then the serial. */
  lemma EncodeOrderFields(a: CarteGriseNumber, b: CarteGriseNumber)
    ensures LexOrder.Less(Encode(a), Encode(b)) <==>
      a.year < b.year || (a.year == b.year &&
        (LetterPairs.Rank(a.letters) < LetterPairs.Rank(b.letters) ||
         (a.letters == b.letters && a.serial < b.serial)))
  {
    var ya, la, na := Decimal.FixedWidth(a.year, 4), LetterPairs.Encode(a.letters), Decimal.FixedWidth(a.serial, 5);
    var yb, lb, nb := Decimal.FixedWidth(b.year, 4), LetterPairs.Encode(b.letters), Decimal.FixedWidth(b.serial, 5);
    LexOrder.Concat(ya + la, na, yb + lb, nb);
    LexOrder.Concat(ya, la, yb, lb);
    LexOrder.ConcatEq(ya, la, yb, lb);
    YearOrder(a.year, b.year);
    SerialOrder(a.serial, b.serial);
    LetterPairs.EncodeOrder(a.letters, b.letters);
    LetterPairs.DecodeEncode(a.letters);
    LetterPairs.DecodeEncode(b.letters);
  }

  /** The year field orders and identifies years. */
  lemma YearOrder(m: Year, n: Year)
    ensures LexOrder.Less(Decimal.FixedWidth(m, 4), Decimal.FixedWidth(n, 4)) <==> m < n
    ensures Decimal.FixedWidth(m, 4) == Decimal.FixedWidth(n, 4) <==> m == n
  {
    assert Decimal.Pow10(4) == 10000;
    Decimal.FixedWidthOrder(m, n, 4);
    if Decimal.FixedWidth(m, 4) == Decimal.FixedWidth(n, 4) {
      Decimal.FixedWidthInjective(m, n, 4);
    }
  }

  /** The serial field orders serials. */
  lemma SerialOrder(m: Serial, n: Serial)
    ensures LexOrder.Less(Decimal.FixedWidth(m, 5), Decimal.FixedWidth(n, 5)) <==> m < n
  {
    assert Decimal.Pow10(5) == 100000;
    Decimal.FixedWidthOrder(m, n, 5);
  }

  /** Except at the wrap, the next number sorts after the one it follows. */
  lemma NextIsGreater(c: CarteGriseNumber)
    requires Rank(c) != LastRank
    ensures LexOrder.Less(Encode(c), Encode(Next(c)))
  {
    NextRank(c);
    EncodeOrder(c, Next(c));
  }
}
