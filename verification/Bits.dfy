/** Unbounded non-negative integers read as bit strings: the operators behind the replay bitmap
    and the XOR parity. */
module Bits {
  import opened Common

  predicate Bit(n: nat, i: nat) {
    if i == 0 then n % 2 == 1 else Bit(n / 2, i - 1)
  }

  /** n << k */
  function Shl(n: nat, k: nat): nat {
    if k == 0 then n else 2 * Shl(n, k - 1)
  }

  datatype Gate = And | Or | Xor {
    predicate Out(x: bool, y: bool) {
      match this
      case And => x && y
      case Or => x || y
      case Xor => x != y
    }
  }

  /** a & b, a | b or a ^ b */
  function Combine(g: Gate, a: nat, b: nat): nat
    decreases a + b
  {
    if a == 0 && b == 0 then 0
    else 2 * Combine(g, a / 2, b / 2) + if g.Out(a % 2 == 1, b % 2 == 1) then 1 else 0
  }

  function BitLength(n: nat): nat {
    if n == 0 then 0 else 1 + BitLength(n / 2)
  }

  lemma {:induction false} ZeroBit(i: nat)
    ensures !Bit(0, i)
  {
    if i > 0 {
      ZeroBit(i - 1);
    }
  }

  lemma {:induction false} CombineBit(g: Gate, a: nat, b: nat, i: nat)
    ensures Bit(Combine(g, a, b), i) == g.Out(Bit(a, i), Bit(b, i))
    decreases a + b, i
  {
    if a == 0 && b == 0 {
      ZeroBit(i);
    } else if i > 0 {
      assert Combine(g, a, b) / 2 == Combine(g, a / 2, b / 2);
      CombineBit(g, a / 2, b / 2, i - 1);
    }
  }

  lemma {:induction false} ShlBit(n: nat, k: nat, i: nat)
    ensures Bit(Shl(n, k), i) == (i >= k && Bit(n, i - k))
  {
    if k > 0 && i > 0 {
      ShlBit(n, k - 1, i - 1);
    }
  }

  /** (1 << k) - 1 has exactly the bits below k. */
  lemma {:induction false} OnesBit(k: nat, i: nat)
    ensures Shl(1, k) >= 1
    ensures Bit(Shl(1, k) - 1, i) == (i < k)
  {
    if k == 0 {
      ZeroBit(i);
    } else {
      OnesBit(k - 1, if i == 0 then 0 else i - 1);
      var m: nat := Shl(1, k - 1) - 1;
      assert Shl(1, k) - 1 == 2 * m + 1;
      assert Bit(2 * m + 1, i) == (i == 0 || Bit(m, i - 1)) by {
        assert (2 * m + 1) / 2 == m && (2 * m + 1) % 2 == 1;
      }
    }
  }

  /** A number is determined by its bits. */
  lemma {:induction false} Extensional(a: nat, b: nat)
    requires forall i: nat :: Bit(a, i) == Bit(b, i)
    ensures a == b
    decreases a + b
  {
    assert Bit(a, 0) == Bit(b, 0);
    if a != 0 || b != 0 {
      forall i: nat
        ensures Bit(a / 2, i) == Bit(b / 2, i)
      {
        assert Bit(a, i + 1) == Bit(b, i + 1);
      }
      Extensional(a / 2, b / 2);
    }
  }

  lemma {:induction false} BitLengthBound(n: nat, k: nat)
    requires forall i: nat :: i >= k ==> !Bit(n, i)
    ensures BitLength(n) <= k
  {
    if k == 0 {
      forall i: nat
        ensures Bit(n, i) == Bit(0, i)
      {
        ZeroBit(i);
      }
      Extensional(n, 0);
    } else {
      forall i: nat | i >= k - 1
        ensures !Bit(n / 2, i)
      {
        assert !Bit(n, i + 1);
      }
      BitLengthBound(n / 2, k - 1);
    }
  }

  lemma {:induction false} BeyondLength(n: nat, i: nat)
    requires BitLength(n) <= i
    ensures !Bit(n, i)
  {
    if n == 0 {
      ZeroBit(i);
    } else {
      BeyondLength(n / 2, i - 1);
    }
  }

  lemma {:induction false} CombineBound(g: Gate, a: nat, b: nat, k: nat)
    requires a < Shl(1, k) && b < Shl(1, k)
    ensures Combine(g, a, b) < Shl(1, k)
  {
    if k > 0 {
      CombineBound(g, a / 2, b / 2, k - 1);
    }
  }

  /** One step of the parity computation: a ^ b on bytes. */
  function XorByte(a: byte, b: byte): byte {
    assert Shl(1, 8) == 256;
    CombineBound(Xor, a, b, 8);
    Combine(Xor, a, b)
  }

  lemma XorZero(a: byte)
    ensures XorByte(a, 0) == a == XorByte(0, a)
  {
    forall i: nat
      ensures Bit(Combine(Xor, a, 0), i) == Bit(a, i) == Bit(Combine(Xor, 0, a), i)
    {
      CombineBit(Xor, a, 0, i);
      CombineBit(Xor, 0, a, i);
      ZeroBit(i);
    }
    Extensional(XorByte(a, 0), a);
    Extensional(XorByte(0, a), a);
  }

  lemma XorSelf(a: byte)
    ensures XorByte(a, a) == 0
  {
    forall i: nat
      ensures Bit(Combine(Xor, a, a), i) == Bit(0, i)
    {
      CombineBit(Xor, a, a, i);
      ZeroBit(i);
    }
    Extensional(XorByte(a, a), 0);
  }

  lemma XorAssoc(a: byte, b: byte, c: byte)
    ensures XorByte(XorByte(a, b), c) == XorByte(a, XorByte(b, c))
  {
    forall i: nat
      ensures Bit(XorByte(XorByte(a, b), c), i) == Bit(XorByte(a, XorByte(b, c)), i)
    {
      CombineBit(Xor, XorByte(a, b), c, i);
      CombineBit(Xor, a, b, i);
      CombineBit(Xor, a, XorByte(b, c), i);
      CombineBit(Xor, b, c, i);
    }
    Extensional(XorByte(XorByte(a, b), c), XorByte(a, XorByte(b, c)));
  }

  lemma XorComm(a: byte, b: byte)
    ensures XorByte(a, b) == XorByte(b, a)
  {
    forall i: nat
      ensures Bit(XorByte(a, b), i) == Bit(XorByte(b, a), i)
    {
      CombineBit(Xor, a, b, i);
      CombineBit(Xor, b, a, i);
    }
    Extensional(XorByte(a, b), XorByte(b, a));
  }

  /** XORing the same byte into both sides cancels. */
  lemma XorCancel(a: byte, b: byte, x: byte)
    ensures XorByte(XorByte(a, x), XorByte(b, x)) == XorByte(a, b)
  {
    XorComm(b, x);
    XorAssoc(a, x, XorByte(x, b));
    XorAssoc(x, x, b);
    XorSelf(x);
    XorZero(b);
  }
}
