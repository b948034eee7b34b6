/**
  The store of cartes grises, reduced to the two identifiers each record
  carries, and the "last issued" lookups over it. A lookup sorts the
  identifiers in descending text order and takes the first, which is the
  greatest identifier in text order.
 */
module Store {
  import opened Wrappers
  import LexOrder

  /** A stored carte grise: its number and its plate. */
  datatype CarteGrise = CarteGrise(num: string, plate: string)

  /** The carte-grise numbers of the store, in store order. */
  function Nums(cards: seq<CarteGrise>): (r: seq<string>)
    ensures |r| == |cards|
    ensures forall i :: 0 <= i < |cards| ==> r[i] == cards[i].num
  {
    if |cards| == 0 then [] else [cards[0].num] + Nums(cards[1..])
  }

  /** The plates of the store, in store order. */
  function Plates(cards: seq<CarteGrise>): (r: seq<string>)
    ensures |r| == |cards|
    ensures forall i :: 0 <= i < |cards| ==> r[i] == cards[i].plate
  {
    if |cards| == 0 then [] else [cards[0].plate] + Plates(cards[1..])
  }

  /** The strings of `xs` that start with `prefix`, in order. */
  function WithPrefix(xs: seq<string>, prefix: string): (r: seq<string>)
    ensures forall x :: x in r <==> x in xs && prefix <= x
  {
    if |xs| == 0 then []
    else
      var rest := WithPrefix(xs[1..], prefix);
      assert forall x :: x in xs <==> x == xs[0] || x in xs[1..] by {
        assert xs == [xs[0]] + xs[1..];
      }
      if prefix <= xs[0] then [xs[0]] + rest else rest
  }

  /** The last carte-grise number issued: the greatest stored number, of any
      year, or `None` when the store is empty. */
  function LastCarteGriseNumber(cards: seq<CarteGrise>): (r: Option<string>)
    ensures r.None? <==> |cards| == 0
    ensures r.Some? ==> exists c :: c in cards && c.num == r.value
    ensures r.Some? ==> forall c :: c in cards ==> LexOrder.LessEq(c.num, r.value)
  {
    var r := LexOrder.Greatest(Nums(cards));
    if r.Some? then
      assert forall c :: c in cards ==> c.num in Nums(cards) by {
        forall c | c in cards ensures c.num in Nums(cards) {
          var i :| 0 <= i < |cards| && cards[i] == c;
          assert Nums(cards)[i] == c.num;
        }
      }
      var i :| 0 <= i < |cards| && Nums(cards)[i] == r.value;
      assert cards[i] in cards;
      r
    else r
  }

  /** The last plate issued: the greatest stored plate, or `None` when the
      store is empty. */
  function LastPlateNumber(cards: seq<CarteGrise>): (r: Option<string>)
    ensures r.None? <==> |cards| == 0
    ensures r.Some? ==> exists c :: c in cards && c.plate == r.value
    ensures r.Some? ==> forall c :: c in cards ==> LexOrder.LessEq(c.plate, r.value)
  {
    var r := LexOrder.Greatest(Plates(cards));
    if r.Some? then
      assert forall c :: c in cards ==> c.plate in Plates(cards) by {
        forall c | c in cards ensures c.plate in Plates(cards) {
          var i :| 0 <= i < |cards| && cards[i] == c;
          assert Plates(cards)[i] == c.plate;
        }
      }
      var i :| 0 <= i < |cards| && Plates(cards)[i] == r.value;
      assert cards[i] in cards;
      r
    else r
  }

  /** The last carte-grise number of a year, as the generator looks it up:
      the greatest stored number that starts with the printed year. */
  function LastOfYear(year: string, cards: seq<CarteGrise>): (r: Option<string>)
    ensures r.None? <==> forall c :: c in cards ==> !(year <= c.num)
    ensures r.Some? ==> year <= r.value && exists c :: c in cards && c.num == r.value
    ensures r.Some? ==> forall c :: c in cards && year <= c.num ==> LexOrder.LessEq(c.num, r.value)
  {
    var xs := WithPrefix(Nums(cards), year);
    var r := LexOrder.Greatest(xs);
    assert forall c :: c in cards ==> c.num in Nums(cards) by {
      forall c | c in cards ensures c.num in Nums(cards) {
        var i :| 0 <= i < |cards| && cards[i] == c;
        assert Nums(cards)[i] == c.num;
      }
    }
    if r.Some? then
      var i :| 0 <= i < |cards| && Nums(cards)[i] == r.value;
      assert cards[i] in cards;
      r
    else
      assert forall c :: c in cards && year <= c.num ==> c.num in xs;
      r
  }

  /** Nothing is stored, so there is no last number and no last plate. */
  lemma LookupEmptyExample()
    ensures LastCarteGriseNumber([]) == None && LastPlateNumber([]) == None
  {
  }

  /** Of two stored cartes grises, the lookups return the later number and
      the later plate. */
  lemma LastOfTwo(a: CarteGrise, b: CarteGrise)
    ensures LexOrder.Less(a.num, b.num) ==> LastCarteGriseNumber([a, b]) == Some(b.num)
    ensures LexOrder.Less(a.plate, b.plate) ==> LastPlateNumber([a, b]) == Some(b.plate)
  {
    if LexOrder.Less(a.num, b.num) {
      LexOrder.Asymmetric(a.num, b.num);
      LexOrder.Irreflexive(a.num);
      assert [a, b][1] == b;
    }
    if LexOrder.Less(a.plate, b.plate) {
      LexOrder.Asymmetric(a.plate, b.plate);
      LexOrder.Irreflexive(a.plate);
      assert [a, b][1] == b;
    }
  }

  /** The lookups on the stores of the test suite. */
  lemma LastCarteGriseNumberExample()
    ensures LastCarteGriseNumber([CarteGrise("2026AA00001", "AA010AA"), CarteGrise("2026AA00005", "AA011AA")])
      == Some("2026AA00005")
  {
    assert "2026AA00001" == "2026AA0000" + "1" && "2026AA00005" == "2026AA0000" + "5";
    LexOrder.Concat("2026AA0000", "1", "2026AA0000", "5");
    LastOfTwo(CarteGrise("2026AA00001", "AA010AA"), CarteGrise("2026AA00005", "AA011AA"));
  }

  lemma LastPlateNumberExample()
    ensures LastPlateNumber([CarteGrise("2026AA00001", "AA010AA"), CarteGrise("2026AA00002", "AB025ZZ")])
      == Some("AB025ZZ")
  {
    assert "AA010AA" == "A" + "A010AA" && "AB025ZZ" == "A" + "B025ZZ";
    LexOrder.Concat("A", "A010AA", "A", "B025ZZ");
    LastOfTwo(CarteGrise("2026AA00001", "AA010AA"), CarteGrise("2026AA00002", "AB025ZZ"));
  }
}
