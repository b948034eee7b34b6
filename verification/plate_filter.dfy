/**
  The plate filters of the carte-grise list: a plate prefix and a plate
  suffix, compared without regard to case, and an inclusive range on the
  three-digit number in the middle of the plate. The range is applied in
  Python over the records left by the other filters: a record passes when
  its plate has seven characters, its middle parses as an integer and every
  bound that is given parses and holds; the list keeps the records whose
  numbers passed, and is empty when none did.
 */
module PlateFilter {
  import opened Wrappers
  import Decimal
  import LetterPairs
  import Formats
  import PlateNumbers
  import Store

  /** The four request parameters, as the text the request carries; an
      absent parameter is the empty string. */
  datatype PlateQuery = PlateQuery(startsWith: string, endsWith: string, min: string, max: string)

  /** Upper case for ASCII letters; other characters are kept. */
  function UpperChar(c: char): (u: char)
    ensures 'a' <= c <= 'z' ==> u as int == c as int - 32
    ensures !('a' <= c <= 'z') ==> u == c
  {
    if 'a' <= c <= 'z' then (c as int - 32) as char else c
  }

  function Upper(s: string): (r: string)
    ensures |r| == |s| && forall i :: 0 <= i < |s| ==> r[i] == UpperChar(s[i])
  {
    if |s| == 0 then [] else [UpperChar(s[0])] + Upper(s[1..])
  }

  /** `istartswith`: `s` starts with `p`, case aside. */
  predicate IStartsWith(s: string, p: string) {
    |p| <= |s| && Upper(s[..|p|]) == Upper(p)
  }

  /** `iendswith`: `s` ends with `p`, case aside. */
  predicate IEndsWith(s: string, p: string) {
    |p| <= |s| && Upper(s[|s| - |p|..]) == Upper(p)
  }

  /** The ASCII whitespace `int()` strips: space, and tab through carriage
      return. */
  predicate IsSpace(c: char) {
    c == ' ' || '\t' <= c <= '\r'
  }

  /** `s` without its leading and trailing whitespace. */
  function Strip(s: string): (r: string)
    ensures |r| <= |s|
    ensures |r| > 0 ==> !IsSpace(r[0]) && !IsSpace(r[|r| - 1])
    decreases |s|
  {
    if |s| > 0 && IsSpace(s[0]) then Strip(s[1..])
    else if |s| > 0 && IsSpace(s[|s| - 1]) then Strip(s[..|s| - 1])
    else s
  }

  /** `r` is the slice `s[i..j]` and everything outside it is whitespace. */
  ghost predicate TrimmedTo(s: string, r: string, i: int, j: int) {
    0 <= i <= j <= |s| && r == s[i..j] &&
    forall k :: 0 <= k < i || j <= k < |s| ==> IsSpace(s[k])
  }

  /** What the strip removes: the result is a slice of `s`, and everything
      outside the slice is whitespace. With the ends of the result not
      whitespace, this is exactly the text between the leading and the
      trailing whitespace. */
  lemma {:induction false} StripTrims(s: string)
    ensures exists i, j :: TrimmedTo(s, Strip(s), i, j)
    decreases |s|
  {
    if |s| > 0 && IsSpace(s[0]) {
      StripTrims(s[1..]);
      var i, j :| TrimmedTo(s[1..], Strip(s[1..]), i, j);
      TrimmedFront(s, Strip(s), i, j);
    } else if |s| > 0 && IsSpace(s[|s| - 1]) {
      StripTrims(s[..|s| - 1]);
      var i, j :| TrimmedTo(s[..|s| - 1], Strip(s[..|s| - 1]), i, j);
      TrimmedBack(s, Strip(s), i, j);
    } else {
      assert TrimmedTo(s, Strip(s), 0, |s|);
    }
  }

  /** A whitespace character in front widens what was trimmed. */
  lemma TrimmedFront(s: string, r: string, i: int, j: int)
    requires |s| > 0 && IsSpace(s[0]) && TrimmedTo(s[1..], r, i, j)
    ensures TrimmedTo(s, r, i + 1, j + 1)
  {
  }

  /** A whitespace character at the end widens what was trimmed. */
  lemma TrimmedBack(s: string, r: string, i: int, j: int)
    requires |s| > 0 && IsSpace(s[|s| - 1]) && TrimmedTo(s[..|s| - 1], r, i, j)
    ensures TrimmedTo(s, r, i, j)
  {
  }

  /** Decimal digits with single underscores between them, as `int()`
      accepts them: a digit, then digits, each possibly preceded by one
      underscore. */
  predicate Grouped(u: string) {
    |u| > 0 && Decimal.IsDigit(u[0]) && GroupedFrom(u, 1)
  }

  /** The rest of a grouped string from position `i`, which follows a digit. */
  predicate GroupedFrom(u: string, i: nat)
    requires i <= |u|
    decreases |u| - i
  {
    i == |u| ||
    (Decimal.IsDigit(u[i]) && GroupedFrom(u, i + 1)) ||
    (u[i] == '_' && i + 1 < |u| && Decimal.IsDigit(u[i + 1]) && GroupedFrom(u, i + 2))
  }

  /** The digits of `u`, in order, everything else dropped. */
  function DigitsOf(u: string): (r: string)
    ensures Decimal.AllDigits(r) && |r| <= |u|
  {
    if |u| == 0 then []
    else (if Decimal.IsDigit(u[0]) then [u[0]] else []) + DigitsOf(u[1..])
  }

  /** The most digits `int()` reads from text in base 10: CPython's default
      `sys.int_max_str_digits`. Underscores do not count; leading zeros do. */
  const MaxStrDigits := 4300

  /** The value of an optionally signed grouped digit string; `None` when
      it is not one, or when it holds more than `MaxStrDigits` digits. */
  function ParseSigned(t: string): Option<int> {
    if |t| > 0 && (t[0] == '-' || t[0] == '+') then
      var u := t[1..];
      if !Grouped(u) || |DigitsOf(u)| > MaxStrDigits then None
      else if t[0] == '-' then Some(-(Decimal.ParseDigits(DigitsOf(u)) as int))
      else Some(Decimal.ParseDigits(DigitsOf(u)))
    else if Grouped(t) && |DigitsOf(t)| <= MaxStrDigits then Some(Decimal.ParseDigits(DigitsOf(t)))
    else None
  }

  /** Python's `int(s)` in base 10 on ASCII text: surrounding whitespace,
      an optional sign, then at most `MaxStrDigits` digits with single
      underscores between them; `None` where `int()` raises `ValueError`. */
  function PyInt(s: string): Option<int> {
    ParseSigned(Strip(s))
  }

  /** A non-empty string of digits parses as its value, unless it is longer
      than the digit limit, where `int()` raises. */
  lemma PyIntDigits(s: string)
    requires |s| > 0 && Decimal.AllDigits(s)
    ensures PyInt(s) == if |s| <= MaxStrDigits then Some(Decimal.ParseDigits(s)) else None
  {
    assert !IsSpace(s[0]) && !IsSpace(s[|s| - 1]);
    assert Strip(s) == s;
    GroupedDigits(s, 1);
    DigitsOfDigits(s);
    assert s[0] != '-' && s[0] != '+' && Grouped(s);
  }

  lemma {:induction false} GroupedDigits(u: string, i: nat)
    requires i <= |u| && Decimal.AllDigits(u)
    ensures GroupedFrom(u, i)
    decreases |u| - i
  {
    if i < |u| {
      GroupedDigits(u, i + 1);
    }
  }

  lemma {:induction false} DigitsOfDigits(u: string)
    requires Decimal.AllDigits(u)
    ensures DigitsOf(u) == u
  {
    if |u| > 0 {
      DigitsOfDigits(u[1..]);
    }
  }

  /** A given bound is met: an empty bound imposes nothing, one that does
      not parse fails the record. */
  predicate MinOk(min: string, d: int) {
    min == "" || (PyInt(min).Some? && d >= PyInt(min).value)
  }

  predicate MaxOk(max: string, d: int) {
    max == "" || (PyInt(max).Some? && d <= PyInt(max).value)
  }

  /** Whether the range filter is on: either bound is non-empty. */
  predicate HasRange(q: PlateQuery) {
    q.min != "" || q.max != ""
  }

  /** The range test on one plate, exceptions counted as failures. */
  predicate InRange(q: PlateQuery, plate: string) {
    |plate| == 7 && PyInt(plate[2..5]).Some? &&
    MinOk(q.min, PyInt(plate[2..5]).value) && MaxOk(q.max, PyInt(plate[2..5]).value)
  }

  /** The prefix and suffix filters on one plate: each applies when its
      input is non-empty, against the upper-cased input. */
  predicate TextOk(q: PlateQuery, plate: string) {
    (q.startsWith == "" || IStartsWith(plate, Upper(q.startsWith))) &&
    (q.endsWith == "" || IEndsWith(plate, Upper(q.endsWith)))
  }

  /** The query set after the prefix and suffix filters: the records whose
      plate passes both, in store order. */
  function KeepText(q: PlateQuery, cards: seq<Store.CarteGrise>): (r: seq<Store.CarteGrise>)
    ensures forall c :: c in r <==> c in cards && TextOk(q, c.plate)
  {
    if |cards| == 0 then []
    else
      assert forall c :: c in cards <==> c == cards[0] || c in cards[1..] by {
        assert cards == [cards[0]] + cards[1..];
      }
      (if TextOk(q, cards[0].plate) then [cards[0]] else []) + KeepText(q, cards[1..])
  }

  /** The loop over the records: the numbers of those that pass the range test. */
  function RangeNums(q: PlateQuery, cards: seq<Store.CarteGrise>): (r: seq<string>)
    ensures forall n :: n in r <==> exists c :: c in cards && c.num == n && InRange(q, c.plate)
    ensures (forall c :: c in cards ==> !InRange(q, c.plate)) ==> r == []
  {
    if |cards| == 0 then []
    else
      assert forall c :: c in cards <==> c == cards[0] || c in cards[1..] by {
        assert cards == [cards[0]] + cards[1..];
      }
      (if InRange(q, cards[0].plate) then [cards[0].num] else []) + RangeNums(q, cards[1..])
  }

  /** `filter(num__in=nums)`: the records whose number is listed, in order. */
  function KeepNums(cards: seq<Store.CarteGrise>, nums: seq<string>): (r: seq<Store.CarteGrise>)
    ensures forall c :: c in r <==> c in cards && c.num in nums
  {
    if |cards| == 0 then []
    else
      assert forall c :: c in cards <==> c == cards[0] || c in cards[1..] by {
        assert cards == [cards[0]] + cards[1..];
      }
      (if cards[0].num in nums then [cards[0]] else []) + KeepNums(cards[1..], nums)
  }

  /** The plate filters as written: prefix and suffix, then the range over
      what is left, kept by number, or nothing when no number passed. */
  function FilterPlates(q: PlateQuery, cards: seq<Store.CarteGrise>): seq<Store.CarteGrise> {
    var byText := KeepText(q, cards);
    if HasRange(q) then
      var nums := RangeNums(q, byText);
      if |nums| > 0 then KeepNums(byText, nums) else []
    else byText
  }

  /** What a record must satisfy to be listed: every non-empty filter holds. */
  predicate Matches(q: PlateQuery, plate: string) {
    (q.startsWith == "" || IStartsWith(plate, q.startsWith)) &&
    (q.endsWith == "" || IEndsWith(plate, q.endsWith)) &&
    (!HasRange(q) || InRange(q, plate))
  }

  /** No two stored records share a number: `num` is the primary key. */
  predicate UniqueNums(cards: seq<Store.CarteGrise>) {
    forall i, j :: 0 <= i < |cards| && 0 <= j < |cards| && cards[i].num == cards[j].num ==> i == j
  }

  /** The records the list is meant to hold, in store order: those whose
      plate passes every non-empty filter. */
  function Listed(q: PlateQuery, cards: seq<Store.CarteGrise>): (r: seq<Store.CarteGrise>)
    ensures forall c :: c in r <==> c in cards && Matches(q, c.plate)
  {
    if |cards| == 0 then []
    else
      assert forall c :: c in cards <==> c == cards[0] || c in cards[1..] by {
        assert cards == [cards[0]] + cards[1..];
      }
      (if Matches(q, cards[0].plate) then [cards[0]] else []) + Listed(q, cards[1..])
  }

  /** The records whose plate passes the range test, in order. */
  function KeepInRange(q: PlateQuery, cards: seq<Store.CarteGrise>): seq<Store.CarteGrise> {
    if |cards| == 0 then []
    else (if InRange(q, cards[0].plate) then [cards[0]] else []) + KeepInRange(q, cards[1..])
  }

  lemma UpperIdempotent(s: string)
    ensures Upper(Upper(s)) == Upper(s)
  {
  }

  /** The filters upper-case the input before the case-blind comparison,
      which changes nothing. */
  lemma UpperedPattern(plate: string, p: string)
    ensures IStartsWith(plate, Upper(p)) <==> IStartsWith(plate, p)
    ensures IEndsWith(plate, Upper(p)) <==> IEndsWith(plate, p)
  {
    UpperIdempotent(p);
  }

  /** Within one store, a number identifies the record. */
  lemma SameNumSameCard(cards: seq<Store.CarteGrise>, a: Store.CarteGrise, b: Store.CarteGrise)
    requires UniqueNums(cards) && a in cards && b in cards && a.num == b.num
    ensures a == b
  {
    var i :| 0 <= i < |cards| && cards[i] == a;
    var j :| 0 <= j < |cards| && cards[j] == b;
  }

  /** The list holds exactly the stored records whose plate passes every
      non-empty filter, in store order: keeping records by the numbers that
      passed the range test keeps no other record, because numbers are
      unique. */
  lemma FilterPlatesIsListed(q: PlateQuery, cards: seq<Store.CarteGrise>)
    requires UniqueNums(cards)
    ensures FilterPlates(q, cards) == Listed(q, cards)
  {
    var byText := KeepText(q, cards);
    if HasRange(q) {
      var nums := RangeNums(q, byText);
      forall c | c in byText
        ensures c.num in nums <==> InRange(q, c.plate)
      {
        if c.num in nums {
          var c' :| c' in byText && c'.num == c.num && InRange(q, c'.plate);
          SameNumSameCard(cards, c, c');
        }
      }
      KeepNumsInRange(q, byText, nums);
      if |nums| == 0 {
        KeepInRangeNone(q, byText);
      }
    }
    TextThenRange(q, cards);
  }

  /** Keeping by the numbers that passed is keeping the records that pass. */
  lemma {:induction false} KeepNumsInRange(q: PlateQuery, xs: seq<Store.CarteGrise>, nums: seq<string>)
    requires forall c :: c in xs ==> (c.num in nums <==> InRange(q, c.plate))
    ensures KeepNums(xs, nums) == KeepInRange(q, xs)
  {
    if |xs| > 0 {
      assert xs[0] in xs;
      assert forall c :: c in xs[1..] ==> c in xs;
      KeepNumsInRange(q, xs[1..], nums);
    }
  }

  lemma {:induction false} KeepInRangeNone(q: PlateQuery, xs: seq<Store.CarteGrise>)
    requires forall c :: c in xs ==> !InRange(q, c.plate)
    ensures KeepInRange(q, xs) == []
  {
    if |xs| > 0 {
      assert xs[0] in xs;
      assert forall c :: c in xs[1..] ==> c in xs;
      KeepInRangeNone(q, xs[1..]);
    }
  }

  /** The filters one after the other select what all of them together select. */
  lemma TextThenRange(q: PlateQuery, cards: seq<Store.CarteGrise>)
    ensures HasRange(q) ==> KeepInRange(q, KeepText(q, cards)) == Listed(q, cards)
    ensures !HasRange(q) ==> KeepText(q, cards) == Listed(q, cards)
  {
    if HasRange(q) {
      TextThenRangeOn(q, cards);
    } else {
      TextOnly(q, cards);
    }
  }

  lemma {:induction false} TextThenRangeOn(q: PlateQuery, cards: seq<Store.CarteGrise>)
    requires HasRange(q)
    ensures KeepInRange(q, KeepText(q, cards)) == Listed(q, cards)
  {
    if |cards| > 0 {
      var x, rest := cards[0], cards[1..];
      MatchesIsTextAndRange(q, x.plate);
      TextThenRangeOn(q, rest);
      var t := KeepText(q, rest);
      if TextOk(q, x.plate) {
        assert KeepText(q, cards) == [x] + t;
        KeepInRangeCons(q, x, t);
      } else {
        assert KeepText(q, cards) == t;
      }
    }
  }

  lemma {:induction false} TextOnly(q: PlateQuery, cards: seq<Store.CarteGrise>)
    requires !HasRange(q)
    ensures KeepText(q, cards) == Listed(q, cards)
  {
    if |cards| > 0 {
      MatchesIsTextAndRange(q, cards[0].plate);
      TextOnly(q, cards[1..]);
    }
  }

  lemma KeepInRangeCons(q: PlateQuery, x: Store.CarteGrise, t: seq<Store.CarteGrise>)
    ensures KeepInRange(q, [x] + t) == (if InRange(q, x.plate) then [x] else []) + KeepInRange(q, t)
  {
    assert ([x] + t)[1..] == t;
  }

  /** A record matches when it passes the text filters and, if a range is
      given, the range test. */
  lemma MatchesIsTextAndRange(q: PlateQuery, plate: string)
    ensures Matches(q, plate) <==> TextOk(q, plate) && (!HasRange(q) || InRange(q, plate))
  {
    UpperedPattern(plate, q.startsWith);
    UpperedPattern(plate, q.endsWith);
  }

  /** A plate of the format is its own upper case. */
  lemma UpperOfPlate(s: string)
    requires Formats.IsPlateNumber(s)
    ensures Upper(s) == s
  {
    forall i | 0 <= i < |s|
      ensures UpperChar(s[i]) == s[i]
    {
      assert Formats.InClass(Formats.PlatePattern[i], s[i]);
    }
  }

  /** On plates of the format the prefix filter is a plain prefix test of
      the upper-cased input. */
  lemma PrefixOnPlates(plate: string, p: string)
    requires Formats.IsPlateNumber(plate)
    ensures IStartsWith(plate, p) <==> Upper(p) <= plate
  {
    UpperOfPlate(plate);
    if |p| <= |plate| {
      assert Upper(plate[..|p|]) == Upper(plate)[..|p|];
    }
  }

  /** On plates of the format the suffix filter is a plain suffix test of
      the upper-cased input. */
  lemma SuffixOnPlates(plate: string, p: string)
    requires Formats.IsPlateNumber(plate)
    ensures IEndsWith(plate, p) <==> |p| <= |plate| && plate[|plate| - |p|..] == Upper(p)
  {
    UpperOfPlate(plate);
    if |p| <= |plate| {
      assert Upper(plate[|plate| - |p|..]) == Upper(plate)[|plate| - |p|..];
    }
  }

  /** On plates of the format the range test compares the plate's number
      with the bounds: inclusive at both ends, an empty bound imposing
      nothing. */
  lemma RangeOnPlates(q: PlateQuery, plate: string)
    requires Formats.IsPlateNumber(plate)
    ensures InRange(q, plate) <==>
      MinOk(q.min, PlateNumbers.Decode(plate).value.digits) &&
      MaxOk(q.max, PlateNumbers.Decode(plate).value.digits)
  {
    Formats.PlateNumberFields(plate);
    PyIntDigits(plate[2..5]);
  }

  /** With both bounds given as numbers, a plate of the format is in range
      exactly when its number lies between them. */
  lemma RangeBetween(q: PlateQuery, plate: string, lo: int, hi: int)
    requires Formats.IsPlateNumber(plate)
    requires q.min != "" && PyInt(q.min) == Some(lo) && q.max != "" && PyInt(q.max) == Some(hi)
    ensures InRange(q, plate) <==> lo <= PlateNumbers.Decode(plate).value.digits <= hi
  {
    RangeOnPlates(q, plate);
  }

  /** With a range given, only plates of seven characters whose middle
      parses are listed. */
  lemma FilterPlatesRangeExcludes(q: PlateQuery, cards: seq<Store.CarteGrise>)
    requires HasRange(q) && UniqueNums(cards)
    ensures forall c :: c in FilterPlates(q, cards) ==> |c.plate| == 7 && PyInt(c.plate[2..5]).Some?
  {
    FilterPlatesIsListed(q, cards);
  }

  /** A non-empty bound that does not parse fails every record, so nothing
      is listed. */
  lemma FilterPlatesBadBound(q: PlateQuery, cards: seq<Store.CarteGrise>)
    requires (q.min != "" && PyInt(q.min).None?) || (q.max != "" && PyInt(q.max).None?)
    ensures FilterPlates(q, cards) == []
  {
    var byText := KeepText(q, cards);
    var nums := RangeNums(q, byText);
    assert forall c: Store.CarteGrise :: !InRange(q, c.plate);
  }

  /** A lower bound of more digits than `int()` reads lists nothing, even
      when its value is small: every record's range test raises. */
  lemma FilterPlatesLongBound(q: PlateQuery, cards: seq<Store.CarteGrise>)
    requires Decimal.AllDigits(q.min) && |q.min| > MaxStrDigits
    ensures FilterPlates(q, cards) == []
  {
    PyIntDigits(q.min);
    FilterPlatesBadBound(q, cards);
  }

  /** The store of the list's tests: three records, plates BE123AA, CD456BB
      and BE025AC. */
  function Fixture(): seq<Store.CarteGrise> {
    [Store.CarteGrise("2024AA12345", "BE123AA"),
     Store.CarteGrise("2024BB23456", "CD456BB"),
     Store.CarteGrise("2024CC34567", "BE025AC")]
  }

  /** Over three records, the list is each record that matches, in order. */
  lemma ListedThree(q: PlateQuery, a: Store.CarteGrise, b: Store.CarteGrise, c: Store.CarteGrise)
    ensures Listed(q, [a, b, c]) ==
      (if Matches(q, a.plate) then [a] else []) + (if Matches(q, b.plate) then [b] else []) +
      (if Matches(q, c.plate) then [c] else [])
  {
    assert [a, b, c][1..] == [b, c] && [b, c][1..] == [c] && [c][1..] == [];
    assert Listed(q, [c]) == (if Matches(q, c.plate) then [c] else []);
    assert Listed(q, [b, c]) == (if Matches(q, b.plate) then [b] else []) + Listed(q, [c]);
  }

  lemma FixtureUnique()
    ensures UniqueNums(Fixture())
  {
  }

  /** Which of the three plates match each query of the tests. */
  lemma PrefixMatches()
    ensures Matches(PlateQuery("BE", "", "", ""), "BE123AA")
    ensures !Matches(PlateQuery("BE", "", "", ""), "CD456BB")
    ensures Matches(PlateQuery("BE", "", "", ""), "BE025AC")
  {
    assert "BE123AA"[..2] == "BE" && "CD456BB"[..2] == "CD" && "BE025AC"[..2] == "BE";
  }

  lemma SuffixMatches()
    ensures !Matches(PlateQuery("", "AC", "", ""), "BE123AA")
    ensures !Matches(PlateQuery("", "AC", "", ""), "CD456BB")
    ensures Matches(PlateQuery("", "AC", "", ""), "BE025AC")
  {
    assert "BE123AA"[5..] == "AA" && "CD456BB"[5..] == "BB" && "BE025AC"[5..] == "AC";
  }

  /** `int()` of three digits is their value, most significant first. */
  lemma PyIntThree(s: string, x: char, y: char, z: char)
    requires |s| == 3 && s[0] == x && s[1] == y && s[2] == z
    requires Decimal.IsDigit(x) && Decimal.IsDigit(y) && Decimal.IsDigit(z)
    ensures PyInt(s) == Some(100 * Decimal.DigitValue(x) + 10 * Decimal.DigitValue(y) + Decimal.DigitValue(z))
  {
    assert s == [x, y, z];
    PyIntDigits(s);
    assert s[..2] == [x, y] && [x, y][..1] == [x] && [x][..0] == [];
    assert Decimal.ParseDigits([x]) == Decimal.DigitValue(x);
    assert Decimal.ParseDigits([x, y]) == 10 * Decimal.DigitValue(x) + Decimal.DigitValue(y);
  }

  /** `int()` of two digits. */
  lemma PyIntTwo(s: string, x: char, y: char)
    requires |s| == 2 && s[0] == x && s[1] == y && Decimal.IsDigit(x) && Decimal.IsDigit(y)
    ensures PyInt(s) == Some(10 * Decimal.DigitValue(x) + Decimal.DigitValue(y))
  {
    assert s == [x, y];
    PyIntDigits(s);
    assert s[..1] == [x] && [x][..0] == [];
    assert Decimal.ParseDigits([x]) == Decimal.DigitValue(x);
  }

  /** The number in the middle of a plate, as `int()` reads it. */
  lemma MiddleValue(plate: string, x: char, y: char, z: char)
    requires |plate| == 7 && plate[2] == x && plate[3] == y && plate[4] == z
    requires Decimal.IsDigit(x) && Decimal.IsDigit(y) && Decimal.IsDigit(z)
    ensures PyInt(plate[2..5]) == Some(100 * Decimal.DigitValue(x) + 10 * Decimal.DigitValue(y) + Decimal.DigitValue(z))
  {
    PyIntThree(plate[2..5], x, y, z);
  }

  /** With both bounds given and parsing, a seven-character plate whose
      middle parses is in range exactly when its value lies between them. */
  lemma InRangeBetween(q: PlateQuery, plate: string, d: int, lo: int, hi: int)
    requires |plate| == 7 && PyInt(plate[2..5]) == Some(d)
    requires q.min != "" && PyInt(q.min) == Some(lo) && q.max != "" && PyInt(q.max) == Some(hi)
    ensures InRange(q, plate) <==> lo <= d <= hi
  {
  }

  /** A plate against a query with both bounds and no text filter: it
      matches exactly when its number lies between the bounds. */
  lemma RangeOnly(q: PlateQuery, plate: string, x: char, y: char, z: char, lo: int, hi: int)
    requires q.startsWith == "" && q.endsWith == ""
    requires q.min != "" && PyInt(q.min) == Some(lo) && q.max != "" && PyInt(q.max) == Some(hi)
    requires |plate| == 7 && plate[2] == x && plate[3] == y && plate[4] == z
    requires Decimal.IsDigit(x) && Decimal.IsDigit(y) && Decimal.IsDigit(z)
    ensures Matches(q, plate) <==>
      (lo <= 100 * Decimal.DigitValue(x) + 10 * Decimal.DigitValue(y) + Decimal.DigitValue(z) <= hi)
  {
    MiddleValue(plate, x, y, z);
    InRangeBetween(q, plate, 100 * Decimal.DigitValue(x) + 10 * Decimal.DigitValue(y) + Decimal.DigitValue(z), lo, hi);
  }

  /** No lower-case ASCII letter occurs in `s`. */
  predicate NoLower(s: string) {
    forall i :: 0 <= i < |s| ==> !('a' <= s[i] <= 'z')
  }

  /** Text without lower-case letters is its own upper case. */
  lemma UpperNoLower(s: string)
    requires NoLower(s)
    ensures Upper(s) == s
  {
  }

  /** The same with a prefix filter as well; with no lower case on either
      side, the prefix test is a plain prefix test. */
  lemma PrefixAndRange(q: PlateQuery, plate: string, x: char, y: char, z: char, lo: int, hi: int)
    requires q.startsWith != "" && q.endsWith == "" && NoLower(q.startsWith) && NoLower(plate)
    requires q.min != "" && PyInt(q.min) == Some(lo) && q.max != "" && PyInt(q.max) == Some(hi)
    requires |plate| == 7 && plate[2] == x && plate[3] == y && plate[4] == z
    requires Decimal.IsDigit(x) && Decimal.IsDigit(y) && Decimal.IsDigit(z)
    ensures Matches(q, plate) <==> (q.startsWith <= plate &&
      lo <= 100 * Decimal.DigitValue(x) + 10 * Decimal.DigitValue(y) + Decimal.DigitValue(z) <= hi)
  {
    MiddleValue(plate, x, y, z);
    InRangeBetween(q, plate, 100 * Decimal.DigitValue(x) + 10 * Decimal.DigitValue(y) + Decimal.DigitValue(z), lo, hi);
    UpperNoLower(q.startsWith);
    if |q.startsWith| <= |plate| {
      UpperNoLower(plate[..|q.startsWith|]);
    }
  }

  /** The fixture's plates against the range 20..30. The query and the
      plates are described character by character, so that the proof does
      not evaluate `int()` on literal text. */
  lemma RangeMatches(q: PlateQuery, a: string, b: string, c: string)
    requires q.startsWith == "" && q.endsWith == ""
    requires |q.min| == 2 && q.min[0] == '2' && q.min[1] == '0'
    requires |q.max| == 2 && q.max[0] == '3' && q.max[1] == '0'
    requires |a| == 7 && a[2] == '1' && a[3] == '2' && a[4] == '3'
    requires |b| == 7 && b[2] == '4' && b[3] == '5' && b[4] == '6'
    requires |c| == 7 && c[2] == '0' && c[3] == '2' && c[4] == '5'
    ensures !Matches(q, a) && !Matches(q, b) && Matches(q, c)
  {
    PyIntTwo(q.min, '2', '0');
    PyIntTwo(q.max, '3', '0');
    RangeOnly(q, a, '1', '2', '3', 20, 30);
    RangeOnly(q, b, '4', '5', '6', 20, 30);
    RangeOnly(q, c, '0', '2', '5', 20, 30);
  }

  /** The fixture's plates against the prefix BE with the range 100..200. */
  lemma CombinedMatches(q: PlateQuery, a: string, b: string, c: string)
    requires |q.startsWith| == 2 && q.startsWith[0] == 'B' && q.startsWith[1] == 'E' && q.endsWith == ""
    requires |q.min| == 3 && q.min[0] == '1' && q.min[1] == '0' && q.min[2] == '0'
    requires |q.max| == 3 && q.max[0] == '2' && q.max[1] == '0' && q.max[2] == '0'
    requires NoLower(a) && |a| == 7 && a[0] == 'B' && a[1] == 'E' && a[2] == '1' && a[3] == '2' && a[4] == '3'
    requires NoLower(b) && |b| == 7 && b[0] == 'C' && b[2] == '4' && b[3] == '5' && b[4] == '6'
    requires NoLower(c) && |c| == 7 && c[2] == '0' && c[3] == '2' && c[4] == '5'
    ensures Matches(q, a) && !Matches(q, b) && !Matches(q, c)
  {
    PyIntThree(q.min, '1', '0', '0');
    PyIntThree(q.max, '2', '0', '0');
    assert NoLower(q.startsWith);
    PrefixAndRange(q, a, '1', '2', '3', 100, 200);
    PrefixAndRange(q, b, '4', '5', '6', 100, 200);
    PrefixAndRange(q, c, '0', '2', '5', 100, 200);
    assert a[..2] == q.startsWith;
  }

  /** Prefix BE lists BE123AA and BE025AC. */
  lemma PrefixExample()
    ensures FilterPlates(PlateQuery("BE", "", "", ""), Fixture()) == [Fixture()[0], Fixture()[2]]
  {
    FixtureUnique();
    FilterPlatesIsListed(PlateQuery("BE", "", "", ""), Fixture());
    ListedThree(PlateQuery("BE", "", "", ""), Fixture()[0], Fixture()[1], Fixture()[2]);
    PrefixMatches();
  }

  /** Suffix AC lists BE025AC alone. */
  lemma SuffixExample()
    ensures FilterPlates(PlateQuery("", "AC", "", ""), Fixture()) == [Fixture()[2]]
  {
    FixtureUnique();
    FilterPlatesIsListed(PlateQuery("", "AC", "", ""), Fixture());
    ListedThree(PlateQuery("", "AC", "", ""), Fixture()[0], Fixture()[1], Fixture()[2]);
    SuffixMatches();
  }

  /** Three records with the fixture's plates and distinct numbers. */
  predicate FixtureLike(a: Store.CarteGrise, b: Store.CarteGrise, c: Store.CarteGrise) {
    a.plate == "BE123AA" && b.plate == "CD456BB" && c.plate == "BE025AC" &&
    a.num != b.num && a.num != c.num && b.num != c.num
  }

  /** The characters of the fixture's plates the examples look at. */
  lemma FixtureChars()
    ensures NoLower("BE123AA") && "BE123AA"[0] == 'B' && "BE123AA"[1] == 'E'
    ensures "BE123AA"[2] == '1' && "BE123AA"[3] == '2' && "BE123AA"[4] == '3'
    ensures NoLower("CD456BB") && "CD456BB"[0] == 'C'
    ensures "CD456BB"[2] == '4' && "CD456BB"[3] == '5' && "CD456BB"[4] == '6'
    ensures NoLower("BE025AC")
    ensures "BE025AC"[2] == '0' && "BE025AC"[3] == '2' && "BE025AC"[4] == '5'
  {
  }

  lemma UniqueThree(a: Store.CarteGrise, b: Store.CarteGrise, c: Store.CarteGrise)
    requires a.num != b.num && a.num != c.num && b.num != c.num
    ensures UniqueNums([a, b, c])
  {
  }

  /** The range 20..30 lists BE025AC alone. The query is given character
      by character: its bounds are the texts "20" and "30". */
  lemma RangeExample(q: PlateQuery, a: Store.CarteGrise, b: Store.CarteGrise, c: Store.CarteGrise)
    requires q.startsWith == "" && q.endsWith == ""
    requires |q.min| == 2 && q.min[0] == '2' && q.min[1] == '0'
    requires |q.max| == 2 && q.max[0] == '3' && q.max[1] == '0'
    requires FixtureLike(a, b, c)
    ensures FilterPlates(q, [a, b, c]) == [c]
  {
    FixtureChars();
    RangeMatches(q, a.plate, b.plate, c.plate);
    UniqueThree(a, b, c);
    FilterPlatesIsListed(q, [a, b, c]);
    ListedThree(q, a, b, c);
  }

  /** Prefix BE with the range 100..200 lists BE123AA alone. */
  lemma CombinedExample(q: PlateQuery, a: Store.CarteGrise, b: Store.CarteGrise, c: Store.CarteGrise)
    requires |q.startsWith| == 2 && q.startsWith[0] == 'B' && q.startsWith[1] == 'E' && q.endsWith == ""
    requires |q.min| == 3 && q.min[0] == '1' && q.min[1] == '0' && q.min[2] == '0'
    requires |q.max| == 3 && q.max[0] == '2' && q.max[1] == '0' && q.max[2] == '0'
    requires FixtureLike(a, b, c)
    ensures FilterPlates(q, [a, b, c]) == [a]
  {
    FixtureChars();
    CombinedMatches(q, a.plate, b.plate, c.plate);
    UniqueThree(a, b, c);
    FilterPlatesIsListed(q, [a, b, c]);
    ListedThree(q, a, b, c);
  }
}
