/**
 * 64-bit words as numbers: bitwise operations, and the formulas that recover a carry or a borrow
 * from the top bits (proton/crypto/bn256/cloudflare/gfp_generic.go).
 */
module Words {

  const W: nat := 0x1_0000_0000_0000_0000
  const HALF: nat := 0x8000_0000_0000_0000

  type Word = n: nat | n < 0x1_0000_0000_0000_0000

  function Pow2(k: nat): (p: nat)
    ensures p > 0
  {
    if k == 0 then 1 else 2 * Pow2(k - 1)
  }

  /** The low n bits of a and b combined bit by bit. */
  function Bits(f: (bool, bool) -> bool, a: nat, b: nat, n: nat): (r: nat)
    ensures r < Pow2(n)
  {
    if n == 0 then 0 else 2 * Bits(f, a / 2, b / 2, n - 1) + if f(a % 2 == 1, b % 2 == 1) then 1 else 0
  }

  /** The top bit of a combination is the combination of the top bits. */
  lemma {:induction false} TopBit(f: (bool, bool) -> bool, a: nat, b: nat, n: nat)
    requires n > 0 && a < Pow2(n) && b < Pow2(n)
    ensures Bits(f, a, b, n) >= Pow2(n - 1) <==> f(a >= Pow2(n - 1), b >= Pow2(n - 1))
  {
    if n > 1 {
      TopBit(f, a / 2, b / 2, n - 1);
    } else {
      assert Pow2(0) == 1 && Pow2(1) == 2;
      assert Bits(f, a / 2, b / 2, 0) == 0;
    }
  }

  lemma {:induction false} Low(f: (bool, bool) -> bool, a: nat, b: nat, n: nat)
    requires n > 0 && a < 2 && b < 2 && !f(false, false)
    ensures Bits(f, a, b, n) == if f(a == 1, b == 1) then 1 else 0
  {
    Nothing(f, n - 1);
  }

  lemma {:induction false} Nothing(f: (bool, bool) -> bool, n: nat)
    requires !f(false, false)
    ensures Bits(f, 0, 0, n) == 0
  {
    if n > 0 {
      Nothing(f, n - 1);
    }
  }

  /** Combining with all ones or all zeros by a function that picks one side there. */
  lemma {:induction false} Pick(f: (bool, bool) -> bool, a: nat, b: nat, n: nat, ones: bool)
    requires a < Pow2(n) && b == (if ones then Pow2(n) - 1 else 0) && forall x :: f(x, ones) == x
    ensures Bits(f, a, b, n) == a
  {
    if n > 0 {
      Pick(f, a / 2, b / 2, n - 1, ones);
      assert ones ==> b % 2 == 1;
    }
  }

  lemma {:induction false} Clear(f: (bool, bool) -> bool, a: nat, n: nat)
    requires forall x :: !f(x, false)
    ensures Bits(f, a, 0, n) == 0
  {
    if n > 0 {
      Clear(f, a / 2, n - 1);
    }
  }

  lemma {:induction false} PowAdd(a: nat, b: nat)
    ensures Pow2(a + b) == Pow2(a) * Pow2(b)
  {
    if a > 0 {
      PowAdd(a - 1, b);
      assert 2 * (Pow2(a - 1) * Pow2(b)) == (2 * Pow2(a - 1)) * Pow2(b);
    }
  }

  lemma Powers()
    ensures Pow2(64) == W && Pow2(63) == HALF
  {
    assert Pow2(8) == 256;
    assert Pow2(16) == 0x1_0000;
    PowAdd(16, 16);
    PowAdd(32, 31);
    PowAdd(16, 15);
    assert Pow2(16) == 2 * Pow2(15);
    assert Pow2(64) == 2 * Pow2(63);
  }

  // ---- machine operations ----

  function And(a: Word, b: Word): (r: Word) {
    Powers();
    Bits((x, y) => x && y, a, b, 64)
  }

  function Or(a: Word, b: Word): (r: Word) {
    Powers();
    Bits((x, y) => x || y, a, b, 64)
  }

  function AndNot(a: Word, b: Word): (r: Word) {
    Powers();
    Bits((x, y) => x && !y, a, b, 64)
  }

  function Not(a: Word): (r: Word) {
    W - 1 - a
  }

  function Add(a: Word, b: Word): (r: Word) {
    (a + b) % W
  }

  function Sub(a: Word, b: Word): (r: Word) {
    (a - b) % W
  }

  predicate Top(a: Word) {
    a >= HALF
  }

  lemma Tops(a: Word, b: Word)
    ensures Top(And(a, b)) <==> Top(a) && Top(b)
    ensures Top(Or(a, b)) <==> Top(a) || Top(b)
    ensures Top(AndNot(a, b)) <==> Top(a) && !Top(b)
    ensures Top(Not(a)) <==> !Top(a)
  {
    Powers();
    TopBit((x, y) => x && y, a, b, 64);
    TopBit((x, y) => x || y, a, b, 64);
    TopBit((x, y) => x && !y, a, b, 64);
  }

  /** (a&b | (a|b)&^c) >> 63. */
  function CarryOut(a: Word, b: Word, c: Word): (r: nat) {
    Or(And(a, b), AndNot(Or(a, b), c)) / HALF
  }

  /** (b&^a | (b|^a)&c) >> 63. */
  function BorrowOut(a: Word, b: Word, c: Word): (r: nat) {
    Or(AndNot(b, a), And(Or(b, Not(a)), c)) / HALF
  }

  /** The sum and the formula together are the true sum. */
  lemma CarryTrue(a: Word, b: Word, carry: nat)
    requires carry <= 1
    ensures var c := Add(Add(a, b), carry); CarryOut(a, b, c) <= 1 && c + W * CarryOut(a, b, c) == a + b + carry
  {
    var c := Add(Add(a, b), carry);
    CarryTops(a, b, c);
    SumWraps(a, b, carry);
    hide And;
    hide Or;
    hide AndNot;
  }

  lemma CarryTops(a: Word, b: Word, c: Word)
    ensures CarryOut(a, b, c) == if (Top(a) && Top(b)) || ((Top(a) || Top(b)) && !Top(c)) then 1 else 0
  {
    Tops(a, b);
    Tops(Or(a, b), c);
    Tops(And(a, b), AndNot(Or(a, b), c));
    hide And;
    hide Or;
    hide AndNot;
  }

  lemma SumWraps(a: Word, b: Word, carry: nat)
    requires carry <= 1
    ensures var (c, s) := (Add(Add(a, b), carry), a + b + carry); c == if s < W then s else s - W
  {}

  /** The difference and the formula together are the true difference. */
  lemma BorrowTrue(a: Word, b: Word, borrow: nat)
    requires borrow <= 1
    ensures var c := Sub(Sub(a, b), borrow); BorrowOut(a, b, c) <= 1 && c - W * BorrowOut(a, b, c) == a - b - borrow
  {
    var c := Sub(Sub(a, b), borrow);
    BorrowTops(a, b, c);
    DifferenceWraps(a, b, borrow);
    hide And;
    hide Or;
    hide AndNot;
  }

  lemma BorrowTops(a: Word, b: Word, c: Word)
    ensures BorrowOut(a, b, c) == if (Top(b) && !Top(a)) || ((Top(b) || !Top(a)) && Top(c)) then 1 else 0
  {
    Tops(b, a);
    Tops(a, a);
    Tops(b, Not(a));
    Tops(Or(b, Not(a)), c);
    Tops(AndNot(b, a), And(Or(b, Not(a)), c));
    hide And;
    hide Or;
    hide AndNot;
  }

  lemma DifferenceWraps(a: Word, b: Word, borrow: nat)
    requires borrow <= 1
    ensures var (c, s) := (Sub(Sub(a, b), borrow), a - b - borrow); c == if s >= 0 then s else s + W
  {}

  /** (x & mask) | (y & ^mask) with a mask of ones or zeros picks x or y. */
  lemma Select(x: Word, y: Word, ones: bool)
    ensures var mask: Word := if ones then W - 1 else 0; Or(And(x, mask), And(y, Not(mask))) == if ones then x else y
  {
    Powers();
    Pick((p, q) => p && q, x, W - 1, 64, true);
    Pick((p, q) => p && q, y, W - 1, 64, true);
    Clear((p, q) => p && q, x, 64);
    Clear((p, q) => p && q, y, 64);
    Pick((p, q) => p || q, x, 0, 64, false);
    OrComm(y);
  }

  lemma OrComm(y: Word)
    ensures Or(0, y) == y
  {
    Powers();
    LeftZero(y, 64);
  }

  lemma {:induction false} LeftZero(y: nat, n: nat)
    requires y < Pow2(n)
    ensures Bits((p, q) => p || q, 0, y, n) == y
  {
    if n > 0 {
      LeftZero(y / 2, n - 1);
    }
  }

  /** Negating a flag makes a mask. */
  lemma Mask(c: Word)
    requires c < 2
    ensures Sub(0, c) == if c == 1 then W - 1 else 0
  {}

  /** carry &^ head for flags. */
  lemma Flags(a: Word, b: Word)
    requires a < 2 && b < 2
    ensures AndNot(a, b) == if a == 1 && b == 0 then 1 else 0
  {
    Low((x, y) => x && !y, a, b, 64);
  }
}
