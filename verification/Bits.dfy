/** Bitwise operations on unsigned words, and the arithmetic they come to where operands do not
    overlap. */
module Bits {
  import opened Blocks

  lemma ModUnique(x: int, m: nat, k: int, r: nat)
    requires r < m && x == m * k + r
    ensures x % m == r
  {
    var d := x / m - k;
    assert m * d == r - x % m by {
      assert x == m * (x / m) + x % m;
    }
    if d >= 1 {
      MulOrder(1, d, m);
    } else if d <= -1 {
      MulOrder(1, -d, m);
    }
  }

  lemma ModSmall(x: nat, m: nat)
    requires x < m
    ensures x % m == x
  {
    ModUnique(x, m, 0, x);
  }

  function PowerOfTwo(k: nat): (p: nat)
    ensures p > 0
  {
    if k == 0 then 1 else 2 * PowerOfTwo(k - 1)
  }

  datatype Op = And | Or | Xor

  function OneBit(op: Op, x: nat, y: nat): (r: nat)
    requires x < 2 && y < 2
    ensures r < 2
  {
    match op
    case And => if x == 1 && y == 1 then 1 else 0
    case Or => if x == 1 || y == 1 then 1 else 0
    case Xor => if x == y then 0 else 1
  }

  /** The operation on the low k bits of two numbers. */
  function Bitwise(op: Op, a: nat, b: nat, k: nat): (r: nat)
    ensures r < PowerOfTwo(k)
  {
    if k == 0 then 0 else OneBit(op, a % 2, b % 2) + 2 * Bitwise(op, a / 2, b / 2, k - 1)
  }

  lemma {:induction false} PowerSum(i: nat, j: nat)
    ensures PowerOfTwo(i + j) == PowerOfTwo(i) * PowerOfTwo(j)
  {
    if i > 0 {
      PowerSum(i - 1, j);
      Doubled(PowerOfTwo(i - 1), PowerOfTwo(j));
    }
  }

  lemma Doubled(p: nat, q: nat)
    ensures 2 * (p * q) == (2 * p) * q
  {
  }

  /** Exclusive or is undone by itself, and changes a number unless the other is zero. */
  lemma {:induction false} XorTwice(a: nat, b: nat, k: nat)
    requires a < PowerOfTwo(k) && b < PowerOfTwo(k)
    ensures Bitwise(Xor, Bitwise(Xor, a, b, k), b, k) == a
    ensures Bitwise(Xor, a, b, k) == a <==> b == 0
  {
    if k > 0 {
      var r, half := Bitwise(Xor, a, b, k), Bitwise(Xor, a / 2, b / 2, k - 1);
      XorTwice(a / 2, b / 2, k - 1);
      assert r / 2 == half && r % 2 == OneBit(Xor, a % 2, b % 2);
    }
  }

  /** Exclusive or with all ones complements. */
  lemma {:induction false} XorOnes(a: nat, k: nat)
    requires a < PowerOfTwo(k)
    ensures Bitwise(Xor, a, PowerOfTwo(k) - 1, k) == PowerOfTwo(k) - 1 - a
  {
    if k > 0 {
      var ones := PowerOfTwo(k) - 1;
      assert ones % 2 == 1 && ones / 2 == PowerOfTwo(k - 1) - 1;
      XorOnes(a / 2, k - 1);
    }
  }

  lemma {:induction false} WithZero(a: nat, k: nat)
    requires a < PowerOfTwo(k)
    ensures Bitwise(Xor, a, 0, k) == a && Bitwise(Or, 0, a, k) == a
  {
    if k > 0 {
      WithZero(a / 2, k - 1);
    }
  }

  /** A mask of i ones keeps the remainder. */
  lemma {:induction false} AndMask(a: nat, i: nat, k: nat)
    requires i <= k
    ensures Bitwise(And, a, PowerOfTwo(i) - 1, k) == a % PowerOfTwo(i)
  {
    if i == 0 {
      AndZero(a, k);
    } else {
      var ones := PowerOfTwo(i) - 1;
      assert ones % 2 == 1 && ones / 2 == PowerOfTwo(i - 1) - 1;
      AndMask(a / 2, i - 1, k - 1);
      HalfRemainder(a, PowerOfTwo(i - 1));
    }
  }

  lemma {:induction false} AndZero(a: nat, k: nat)
    ensures Bitwise(And, a, 0, k) == 0
  {
    if k > 0 {
      AndZero(a / 2, k - 1);
    }
  }

  lemma HalfRemainder(a: nat, m: nat)
    requires m > 0
    ensures a % (2 * m) == a % 2 + 2 * (a / 2 % m)
  {
    var h := a / 2;
    var r := a % 2 + 2 * (h % m);
    assert a == 2 * h + a % 2 && h == m * (h / m) + h % m;
    assert a == 2 * m * (h / m) + r;
    ModUnique(a, 2 * m, h / m, r);
  }

  /** Numbers that share no bit are or-ed by adding them. */
  lemma {:induction false} OrAdds(a: nat, b: nat, i: nat, k: nat)
    requires i <= k && a < PowerOfTwo(i) && b * PowerOfTwo(i) < PowerOfTwo(k)
    ensures Bitwise(Or, a, b * PowerOfTwo(i), k) == a + b * PowerOfTwo(i)
  {
    var c := b * PowerOfTwo(i);
    if i == 0 {
      assert c == b;
      WithZero(b, k);
    } else {
      var half := b * PowerOfTwo(i - 1);
      assert c == 2 * half;
      OrAdds(a / 2, b, i - 1, k - 1);
    }
  }
}
