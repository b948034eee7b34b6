/**
  The order in which identifiers are looked up: Python's `<` on `str`
  (code point by code point, a proper prefix sorting first), and the
  greatest element of a collection under it, which is what
  `order_by('-field').first()` returns.
 */
module LexOrder {
  import opened Wrappers

  /** Lexicographic "strictly less" on strings. */
  predicate Less(a: string, b: string)
    decreases |a|
  {
    if |a| == 0 then |b| > 0
    else if |b| == 0 then false
    else a[0] < b[0] || (a[0] == b[0] && Less(a[1..], b[1..]))
  }

  predicate LessEq(a: string, b: string) {
    a == b || Less(a, b)
  }

  lemma {:induction false} Irreflexive(a: string)
    ensures !Less(a, a)
  {
    if |a| > 0 {
      Irreflexive(a[1..]);
    }
  }

  lemma {:induction false} Transitive(a: string, b: string, c: string)
    requires Less(a, b) && Less(b, c)
    ensures Less(a, c)
  {
    if |a| > 0 && |b| > 0 && |c| > 0 && a[0] == b[0] == c[0] {
      Transitive(a[1..], b[1..], c[1..]);
    }
  }

  lemma {:induction false} Trichotomy(a: string, b: string)
    ensures Less(a, b) || a == b || Less(b, a)
  {
    if |a| > 0 && |b| > 0 && a[0] == b[0] {
      Trichotomy(a[1..], b[1..]);
      if a[1..] == b[1..] {
        assert a == [a[0]] + a[1..] && b == [b[0]] + b[1..];
      }
    }
  }

  lemma Asymmetric(a: string, b: string)
    requires Less(a, b)
    ensures !Less(b, a)
  {
    if Less(b, a) {
      Transitive(a, b, a);
      Irreflexive(a);
    }
  }

  /** Comparing two concatenations whose first parts have the same length
      compares the first parts, and the second parts only on a tie. */
  lemma {:induction false} Concat(a1: string, a2: string, b1: string, b2: string)
    requires |a1| == |b1|
    ensures Less(a1 + a2, b1 + b2) <==> Less(a1, b1) || (a1 == b1 && Less(a2, b2))
  {
    if |a1| > 0 {
      assert (a1 + a2)[0] == a1[0] && (b1 + b2)[0] == b1[0];
      assert (a1 + a2)[1..] == a1[1..] + a2;
      assert (b1 + b2)[1..] == b1[1..] + b2;
      Concat(a1[1..], a2, b1[1..], b2);
      if a1[0] == b1[0] && a1[1..] == b1[1..] {
        assert a1 == [a1[0]] + a1[1..] && b1 == [b1[0]] + b1[1..];
      }
    } else {
      assert a1 + a2 == a2 && b1 + b2 == b2;
    }
  }

  /** Two concatenations with equally long first parts are equal exactly
      when both parts are. */
  lemma ConcatEq(a1: string, a2: string, b1: string, b2: string)
    requires |a1| == |b1|
    ensures a1 + a2 == b1 + b2 <==> a1 == b1 && a2 == b2
  {
    if a1 + a2 == b1 + b2 {
      assert a1 == (a1 + a2)[..|a1|] && b1 == (b1 + b2)[..|b1|];
      assert a2 == (a1 + a2)[|a1|..] && b2 == (b1 + b2)[|b1|..];
    }
  }

  /** The greatest string of `xs`, or `None` when `xs` is empty. */
  function Greatest(xs: seq<string>): (r: Option<string>)
    ensures r.None? <==> |xs| == 0
    ensures r.Some? ==> r.value in xs && forall x :: x in xs ==> LessEq(x, r.value)
  {
    if |xs| == 0 then None
    else
      var rest := Greatest(xs[1..]);
      assert forall x :: x in xs <==> x == xs[0] || x in xs[1..] by {
        assert xs == [xs[0]] + xs[1..];
      }
      if rest.None? then Some(xs[0])
      else if Less(rest.value, xs[0]) then
        assert forall x :: x in xs[1..] ==> Less(x, xs[0]) by {
          forall x | x in xs[1..] ensures Less(x, xs[0]) {
            if x != rest.value {
              Transitive(x, rest.value, xs[0]);
            }
          }
        }
        Some(xs[0])
      else
        Trichotomy(rest.value, xs[0]);
        Some(rest.value)
  }

  /** An element that every element of `xs` is at most is the one `Greatest` returns. */
  lemma GreatestIsUnique(xs: seq<string>, m: string)
    requires m in xs && forall x :: x in xs ==> LessEq(x, m)
    ensures Greatest(xs) == Some(m)
  {
    var g := Greatest(xs).value;
    if g != m {
      assert Less(g, m) && Less(m, g);
      Asymmetric(g, m);
    }
  }

  lemma LessEqAntisymmetric(a: string, b: string)
    requires LessEq(a, b) && LessEq(b, a)
    ensures a == b
  {
    if a != b {
      Asymmetric(a, b);
    }
  }
}
