/**
  The two-letter counter shared by both identifier formats: two upper-case
  letters read as a base-26 number, most significant letter first, that
  counts AA, AB, ..., AZ, BA, ..., ZZ and then wraps to AA.
 */
module LetterPairs {
  import opened Wrappers
  import LexOrder

  /** An upper-case letter, as its position in the alphabet (A = 0). */
  type Letter = i: int | 0 <= i < 26

  datatype LetterPair = LetterPair(first: Letter, second: Letter)

  const AA := LetterPair(0, 0)
  const ZZ := LetterPair(25, 25)

  predicate IsUpper(c: char) {
    'A' <= c <= 'Z'
  }

  function LetterChar(l: Letter): (c: char)
    ensures IsUpper(c)
  {
    ('A' as int + l) as char
  }

  function LetterOf(c: char): (l: Letter)
    requires IsUpper(c)
    ensures LetterChar(l) == c
  {
    c as int - 'A' as int
  }

  /** The value of the pair as a two-digit base-26 number. */
  function Rank(p: LetterPair): int {
    26 * p.first + p.second
  }

  /** The typed counter step: the second letter advances; past Z it becomes
      A and carries into the first letter, which wraps from Z to A with no
      further carry. */
  function Increment(p: LetterPair): LetterPair {
    if p.second < 25 then LetterPair(p.first, p.second + 1)
    else if p.first < 25 then LetterPair(p.first + 1, 0)
    else LetterPair(0, 0)
  }

  /** The step adds one to the pair's value, modulo 676: ZZ (value 675)
      goes to AA (value 0). */
  lemma IncrementRank(p: LetterPair)
    ensures Rank(Increment(p)) == if Rank(p) == 675 then 0 else Rank(p) + 1
  {
    if p.second < 25 {
      assert Rank(p) <= 26 * 25 + 24;
    }
  }

  function Encode(p: LetterPair): (s: string)
    ensures |s| == 2 && IsUpper(s[0]) && IsUpper(s[1])
  {
    [LetterChar(p.first), LetterChar(p.second)]
  }

  predicate IsLetterPair(s: string) {
    |s| == 2 && IsUpper(s[0]) && IsUpper(s[1])
  }

  function Decode(s: string): (r: Option<LetterPair>)
    ensures r.Some? <==> IsLetterPair(s)
    ensures r.Some? ==> Encode(r.value) == s
  {
    if IsLetterPair(s) then Some(LetterPair(LetterOf(s[0]), LetterOf(s[1]))) else None
  }

  lemma DecodeEncode(p: LetterPair)
    ensures Decode(Encode(p)) == Some(p)
  {
  }

  /**
    `_incrementer_lettres` as written: it works on the code points of the
    first two characters of its argument. The second advances by one; when
    it passes 'Z' it becomes 'A' and the first advances, becoming 'A' in
    turn if it passes 'Z'.
   */
  function IncrementLetters(s: string): (r: string)
    requires |s| >= 2
    ensures |r| == 2
  {
    var second := s[1] as int + 1;
    if second > 'Z' as int then
      var first := s[0] as int + 1;
      [if first > 'Z' as int then 'A' else first as char, 'A']
    else
      [s[0], second as char]
  }

  /** On two upper-case letters the string increment is the counter step. */
  lemma IncrementLettersIsIncrement(s: string)
    requires IsLetterPair(s)
    ensures IncrementLetters(s) == Encode(Increment(Decode(s).value))
  {
  }

  /** The pair that comes back to AA is exactly ZZ, so an increment that
      yields "AA" means the pair overflowed. */
  lemma IncrementIsAAIffZZ(p: LetterPair)
    ensures Increment(p) == AA <==> p == ZZ
  {
    if p != ZZ {
      assert Rank(p) != 675 by {
        if Rank(p) == 675 {
          RankInjective(p, ZZ);
        }
      }
      IncrementRank(p);
      assert Rank(Increment(p)) != Rank(AA);
    }
  }

  lemma IncrementLettersIsAAIffZZ(s: string)
    requires IsLetterPair(s)
    ensures IncrementLetters(s) == "AA" <==> s == "ZZ"
  {
    var p := Decode(s).value;
    IncrementLettersIsIncrement(s);
    IncrementIsAAIffZZ(p);
    if IncrementLetters(s) == "AA" {
      assert Encode(Increment(p)) == Encode(AA);
      assert Increment(p) == AA by {
        DecodeEncode(Increment(p));
        DecodeEncode(AA);
      }
    }
  }

  /** `n` steps of the counter from `p`. */
  function Iterate(p: LetterPair, n: nat): LetterPair {
    if n == 0 then p else Increment(Iterate(p, n - 1))
  }

  /** Before the counter reaches ZZ, `n` steps add `n` to its value. */
  lemma {:induction false} IterateNoWrap(p: LetterPair, n: nat)
    requires Rank(p) + n < 676
    ensures Rank(Iterate(p, n)) == Rank(p) + n
  {
    if n > 0 {
      IterateNoWrap(p, n - 1);
      IncrementRank(Iterate(p, n - 1));
      assert Iterate(p, n) == Increment(Iterate(p, n - 1));
    }
  }

  /** `n` steps are `a` steps followed by the remaining `n - a`. */
  lemma {:induction false} IterateSplit(p: LetterPair, n: nat, a: nat)
    requires a <= n
    ensures Iterate(p, n) == Iterate(Iterate(p, a), n - a)
  {
    if n > a {
      IterateSplit(p, n - 1, a);
    }
  }

  lemma RankInjective(p: LetterPair, q: LetterPair)
    requires Rank(p) == Rank(q)
    ensures p == q
  {
  }

  /** Counting from AA (the pair of value 0), the n-th pair is the one
      whose value is n, so a cycle from AA meets every pair exactly once. */
  lemma CountFromAA(start: LetterPair, n: nat)
    requires Rank(start) == 0 && n < 676
    ensures Rank(Iterate(start, n)) == n
  {
    IterateNoWrap(start, n);
  }

  /** From any pair, the counter reaches AA after 676 minus the pair's value steps. */
  lemma ReachesAA(p: LetterPair)
    ensures Rank(Iterate(p, 676 - Rank(p))) == 0
  {
    var k := 675 - Rank(p);
    IterateNoWrap(p, k);
    IncrementRank(Iterate(p, k));
    assert Iterate(p, k + 1) == Increment(Iterate(p, k));
  }

  /** After 676 steps the counter is back where it started. */
  lemma CycleReturns(p: LetterPair)
    ensures Iterate(p, 676) == p
  {
    var k := 676 - Rank(p);
    var q := Iterate(p, k);
    ReachesAA(p);
    IterateSplit(p, 676, k);
    CountFromAA(q, 676 - k);
    RankInjective(Iterate(q, 676 - k), p);
  }

  /** Before reaching AA the counter's value only grows. */
  lemma CycleNotBeforeNoWrap(p: LetterPair, n: nat)
    requires 0 < n && Rank(p) + n < 676
    ensures Rank(Iterate(p, n)) != Rank(p)
  {
    IterateNoWrap(p, n);
  }

  /** After passing AA the counter's value stays below the start's. */
  lemma CycleNotBeforeWrapped(p: LetterPair, n: nat, k: nat)
    requires k == 676 - Rank(p) && k <= n < 676
    ensures Rank(Iterate(p, n)) < Rank(p)
  {
    var q := Iterate(p, k);
    ReachesAA(p);
    assert Rank(q) == 0;
    IterateSplit(p, n, k);
    assert Iterate(p, n) == Iterate(q, n - k);
    CountFromAA(q, n - k);
    assert Rank(Iterate(q, n - k)) == n - k;
  }

  /** Fewer than 676 steps never bring the counter back to its start. */
  lemma CycleNotBefore(p: LetterPair, n: nat)
    requires 0 < n < 676
    ensures Iterate(p, n) != p
  {
    var r := Rank(p);
    if n < 676 - r {
      CycleNotBeforeNoWrap(p, n);
    } else {
      CycleNotBeforeWrapped(p, n, 676 - r);
    }
    assert Rank(Iterate(p, n)) != r;
  }

  /** The counter is a single cycle of length 676: it returns to its start
      after 676 steps and not before. */
  lemma Cycle(p: LetterPair, n: nat)
    requires 0 < n <= 676
    ensures Iterate(p, n) == p <==> n == 676
  {
    if n == 676 {
      CycleReturns(p);
    } else {
      CycleNotBefore(p, n);
    }
  }

  /** String order on encoded pairs is numeric order on their values. */
  lemma EncodeOrder(p: LetterPair, q: LetterPair)
    ensures LexOrder.Less(Encode(p), Encode(q)) <==> Rank(p) < Rank(q)
  {
    var a, b := Encode(p), Encode(q);
    assert a[1..] == [a[1]] && b[1..] == [b[1]];
    assert LexOrder.Less(a[1..], b[1..]) <==> p.second < q.second by {
      assert a[1..][1..] == [] && b[1..][1..] == [];
    }
    assert a[0] < b[0] <==> p.first < q.first;
  }

  /** Test vectors of `_incrementer_lettres`. */
  lemma IncrementLettersExamples()
    ensures IncrementLetters("AA") == "AB"
    ensures IncrementLetters("AM") == "AN"
    ensures IncrementLetters("AB") == "AC"
    ensures IncrementLetters("AY") == "AZ"
    ensures IncrementLetters("AZ") == "BA"
    ensures IncrementLetters("ZZ") == "AA"
  {
  }
}
