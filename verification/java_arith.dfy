/** Java's integer `/` and `%`, which truncate toward zero, and the ceiling
    built from them the way the partitioner writes it. Dafny's own `/` and `%`
    are Euclidean, so the two agree only on non-negative operands. */
module JavaArith {

  function Abs(a: int): (r: nat)
    ensures r == a || r == -a
  {
    if a < 0 then -a else a
  }

  /** Java's `a / b`: the quotient of the magnitudes, negated when the signs differ. */
  function Div(a: int, b: int): int
    requires b != 0
  {
    if (a < 0) == (b < 0) then Abs(a) / Abs(b) else -(Abs(a) / Abs(b))
  }

  /** Java's `a % b`: the remainder of the magnitudes, with the sign of `a`. */
  function Rem(a: int, b: int): int
    requires b != 0
  {
    if a < 0 then -(Abs(a) % Abs(b)) else Abs(a) % Abs(b)
  }

  /** The identity the Java language fixes between `/` and `%`: the quotient
      times the divisor plus the remainder gives back the dividend, the
      remainder is smaller than the divisor in magnitude and never has a sign
      opposite to the dividend's. */
  lemma DivRemIdentity(a: int, b: int)
    requires b != 0
    ensures Div(a, b) * b + Rem(a, b) == a
    ensures Abs(Rem(a, b)) < Abs(b)
    ensures a >= 0 ==> Rem(a, b) >= 0
    ensures a < 0 ==> Rem(a, b) <= 0
  {
    var q, m := Abs(a) / Abs(b), Abs(a) % Abs(b);
    assert q * Abs(b) + m == Abs(a);
    if b < 0 {
      assert Abs(b) == -b;
      assert q * Abs(b) == -(q * b);
    }
  }

  /** On non-negative operands Java's division is Dafny's division. */
  lemma DivOfNonNegative(a: int, b: int)
    requires a >= 0 && b > 0
    ensures Div(a, b) == a / b
    ensures Rem(a, b) == a % b
  {
  }

  /** The group count as the partitioner computes it: the truncated quotient,
      plus one more group when the division leaves a remainder. */
  function CeilGroups(x: int, b: int): int
    requires b != 0
  {
    Div(x, b) + (if Rem(x, b) == 0 then 0 else 1)
  }

  /** The textbook ceiling of `x / b` for a non-negative `x` and positive `b`. */
  function Ceil(x: nat, b: nat): nat
    requires b > 0
  {
    (x + b - 1) / b
  }

  /** `g` groups of `b` each hold `x` items with none left over and no group
      empty: the first `g - 1` groups hold fewer than `x`, all `g` hold at least `x`. */
  ghost predicate ExactCover(g: int, x: int, b: int) {
    (g - 1) * b < x <= g * b
  }

  /** Quotient plus one for a remainder is the ceiling. */
  lemma CeilGroupsIsCeil(x: nat, b: nat)
    requires b > 0
    ensures CeilGroups(x, b) == Ceil(x, b)
  {
    DivOfNonNegative(x, b);
    var q, m := x / b, x % b;
    assert x == q * b + m && 0 <= m < b;
    if m == 0 {
      assert x + b - 1 == q * b + (b - 1);
      DivUnique(x + b - 1, b, q, b - 1);
    } else {
      assert x + b - 1 == (q + 1) * b + (m - 1);
      DivUnique(x + b - 1, b, q + 1, m - 1);
    }
  }

  /** Multiplying by a non-negative factor keeps an inequality. */
  lemma MulMonotone(a: int, a': int, c: nat)
    requires a <= a'
    ensures a * c <= a' * c
  {
    assert a' * c - a * c == (a' - a) * c;
  }

  /** A quotient is determined by any decomposition with an in-range remainder. */
  lemma DivUnique(a: nat, b: nat, q: int, m: int)
    requires b > 0 && 0 <= m < b && a == q * b + m
    ensures a / b == q
  {
    var q', m' := a / b, a % b;
    assert a == q' * b + m';
    if q > q' {
      MulMonotone(q' + 1, q, b);
    } else if q < q' {
      MulMonotone(q + 1, q', b);
    }
  }

  /** For a positive dimension the computed group count covers it exactly,
      so the last group holds between 1 and `b` items. */
  lemma CeilGroupsExactCover(x: nat, b: nat)
    requires x > 0 && b > 0
    ensures ExactCover(CeilGroups(x, b), x, b)
    ensures 1 <= x - (CeilGroups(x, b) - 1) * b <= b
  {
    DivOfNonNegative(x, b);
    var q, m := x / b, x % b;
    assert x == q * b + m && 0 <= m < b;
    if m == 0 {
      assert CeilGroups(x, b) == q;
      assert (q - 1) * b == x - b;
    } else {
      assert CeilGroups(x, b) == q + 1;
      assert (q + 1) * b == x - m + b;
    }
  }

  /** A dimension of at most `b` items is one group. */
  lemma CeilGroupsOfOneGroup(x: nat, b: nat)
    requires 0 < x <= b
    ensures CeilGroups(x, b) == 1
  {
    DivOfNonNegative(x, b);
    if x == b {
      DivUnique(x, b, 1, 0);
    } else {
      DivUnique(x, b, 0, x);
    }
  }

  /** Taking one full group of `b` off a longer dimension leaves one group fewer. */
  lemma CeilGroupsStep(x: nat, b: nat)
    requires 0 < b < x
    ensures CeilGroups(x, b) == CeilGroups(x - b, b) + 1
  {
    DivOfNonNegative(x, b);
    DivOfNonNegative(x - b, b);
    var q, m := x / b, x % b;
    assert x == q * b + m && 0 <= m < b;
    assert x - b == (q - 1) * b + m;
    DivUnique(x - b, b, q - 1, m);
  }

  /** Only one group count covers a dimension exactly, so the ceiling is the
      only count the partitioner could use without an empty or missing group. */
  lemma ExactCoverUnique(g: int, g': int, x: int, b: nat)
    requires b > 0
    requires ExactCover(g, x, b) && ExactCover(g', x, b)
    ensures g == g'
  {
    if g < g' {
      MulMonotone(g, g' - 1, b);
    } else if g' < g {
      MulMonotone(g', g - 1, b);
    }
  }

  /** The 1-based id of the group that holds item `i`, items numbered from 0. */
  function GroupOf(i: nat, b: nat): nat
    requires b > 0
  {
    i / b + 1
  }

  /** The first item, numbered from 0, of the 1-based group `k`. */
  function GroupStart(k: int, b: nat): int {
    (k - 1) * b
  }

  /** With `g` the computed group count the group ids are exactly `1..g`:
      every item of the dimension gets an id in range, and every id in range
      starts at an item of the dimension and is that item's id. */
  lemma GroupIdsDense(x: nat, b: nat)
    requires x > 0 && b > 0
    ensures forall i :: 0 <= i < x ==> 1 <= GroupOf(i, b) <= CeilGroups(x, b)
    ensures forall k :: 1 <= k <= CeilGroups(x, b) ==>
              0 <= GroupStart(k, b) < x && GroupOf(GroupStart(k, b), b) == k
  {
    var g := CeilGroups(x, b);
    CeilGroupsExactCover(x, b);
    forall i | 0 <= i < x
      ensures 1 <= GroupOf(i, b) <= g
    {
      var q := i / b;
      assert q * b <= i;
      if q >= g {
        MulMonotone(g, q, b);
      }
    }
    forall k | 1 <= k <= g
      ensures 0 <= GroupStart(k, b) < x && GroupOf(GroupStart(k, b), b) == k
    {
      MulMonotone(0, k - 1, b);
      MulMonotone(k - 1, g - 1, b);
      DivUnique((k - 1) * b, b, k - 1, 0);
    }
  }
}
