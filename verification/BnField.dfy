/**
 * Montgomery arithmetic in the bn256 base field, in portable 64-bit code
 * (proton/crypto/bn256/cloudflare/gfp_generic.go). Field elements are four words, least first.
 */
module BnField {
  import opened Words

  // ---- numbers in words ----

  function Pow(b: nat, k: nat): (p: nat)
    ensures b > 0 ==> p > 0
  {
    if k == 0 then 1 else b * Pow(b, k - 1)
  }

  function Val(s: seq<nat>, b: nat): (v: nat) {
    if s == [] then 0 else s[0] + b * Val(s[1..], b)
  }

  lemma {:induction false} ValSnoc(s: seq<nat>, x: nat, b: nat)
    ensures Val(s + [x], b) == Val(s, b) + x * Pow(b, |s|)
  {
    if s == [] {
      assert Val([x], b) == x + b * Val([], b);
    } else {
      ValSnoc(s[1..], x, b);
      assert (s + [x])[1..] == s[1..] + [x];
      Distribute(b, Val(s[1..], b), x, Pow(b, |s| - 1));
    }
  }

  lemma Distribute(b: nat, v: nat, x: nat, p: nat)
    ensures b * (v + x * p) == b * v + x * (b * p)
  {}

  lemma {:induction false} ValBound(s: seq<nat>, b: nat)
    requires b > 0 && forall i :: 0 <= i < |s| ==> s[i] < b
    ensures Val(s, b) < Pow(b, |s|)
  {
    if s != [] {
      ValBound(s[1..], b);
      TimesLess(b, Val(s[1..], b), Pow(b, |s| - 1));
      assert s[0] < b;
    }
  }

  lemma TimesLess(b: nat, v: nat, p: nat)
    requires v < p
    ensures b * v + b <= b * p
  {
    assert b * (v + 1) <= b * p;
  }

  /** One word of an addition. */
  lemma AddStep(z: seq<nat>, x: seq<nat>, y: seq<nat>, i: nat, carry: nat, zi: nat, carry': nat)
    requires |z| == i < |x| && i < |y| && zi + W * carry' == x[i] + y[i] + carry
    requires Val(z, W) + carry * Pow(W, i) == Val(x[..i], W) + Val(y[..i], W)
    ensures Val(z + [zi], W) + carry' * Pow(W, i + 1) == Val(x[..i + 1], W) + Val(y[..i + 1], W)
  {
    var p := Pow(W, i);
    ValSnoc(z, zi, W);
    ValSnoc(x[..i], x[i], W);
    ValSnoc(y[..i], y[i], W);
    assert x[..i + 1] == x[..i] + [x[i]] && y[..i + 1] == y[..i] + [y[i]];
    SumTimes(zi, carry', x[i], y[i], carry, p);
  }

  lemma SumTimes(z: nat, c: nat, x: nat, y: nat, d: nat, p: nat)
    requires z + W * c == x + y + d
    ensures z * p + c * (W * p) == x * p + y * p + d * p
  {
    assert z * p + c * (W * p) == (z + W * c) * p;
    assert (x + y + d) * p == x * p + y * p + d * p;
  }

  /** One word of a subtraction. */
  lemma SubStep(z: seq<nat>, x: seq<nat>, y: seq<nat>, i: nat, borrow: nat, zi: nat, borrow': nat)
    requires |z| == i < |x| && i < |y| && zi - W * borrow' == x[i] - y[i] - borrow
    requires Val(z, W) - borrow * Pow(W, i) == Val(x[..i], W) - Val(y[..i], W)
    ensures Val(z + [zi], W) - borrow' * Pow(W, i + 1) == Val(x[..i + 1], W) - Val(y[..i + 1], W)
  {
    var p := Pow(W, i);
    ValSnoc(z, zi, W);
    ValSnoc(x[..i], x[i], W);
    ValSnoc(y[..i], y[i], W);
    assert x[..i + 1] == x[..i] + [x[i]] && y[..i + 1] == y[..i] + [y[i]];
    SumTimes(x[i], borrow', zi, y[i], borrow, p);
  }

  // ---- the field ----

  const R: nat := 0x1_0000000000000000_0000000000000000_0000000000000000_0000000000000000

  const P2: seq<Word> := [0x3c208c16d87cfd47, 0x97816a916871ca8d, 0xb85045b68181585d, 0x30644e72e131a029]
  const P: nat := 0x30644e72e131a029_b85045b68181585d_97816a916871ca8d_3c208c16d87cfd47

  const NP2: seq<Word> := [0x87d20782e4866389, 0x9ede7d651eca6ac9, 0xd8afcbd01833da80, 0xf57a22b791888c6b]
  const NP: nat := 0xf57a22b791888c6b_d8afcbd01833da80_9ede7d651eca6ac9_87d20782e4866389

  lemma Constants()
    ensures |P2| == 4 && Val(P2, W) == P && |NP2| == 4 && Val(NP2, W) == NP && Pow(W, 4) == R
    ensures 4 * P < R && NP * P % R == R - 1
  {
    Four(P2);
    Four(NP2);
  }

  lemma Four(s: seq<nat>)
    requires |s| == 4
    ensures Val(s, W) == s[0] + W * (s[1] + W * (s[2] + W * s[3])) && Pow(W, 4) == R
  {
    assert s[3..][1..] == [] && s[2..][1..] == s[3..] && s[1..][1..] == s[2..];
    assert Val(s[3..], W) == s[3] + W * Val([], W) == s[3];
    assert Val(s[2..], W) == s[2] + W * s[3];
    assert Val(s[1..], W) == s[1] + W * (s[2] + W * s[3]);
    assert Pow(W, 2) == W * W;
  }

  /** x - p in words, with the final borrow. */
  method SubPrime(x: seq<Word>) returns (b: seq<Word>, carry: Word)
    requires |x| == 4
    ensures |b| == 4 && carry < 2 && Val(b, W) - carry * R == Val(x, W) - P
  {
    hide BorrowOut;
    hide Sub;
    Constants();
    b, carry := [], 0;
    for i := 0 to 4
      invariant |b| == i && carry < 2
      invariant Val(b, W) - carry * Pow(W, i) == Val(x[..i], W) - Val(P2[..i], W)
    {
      BorrowTrue(x[i], P2[i], carry);
      var bi := Sub(Sub(x[i], P2[i]), carry);
      var borrow := BorrowOut(x[i], P2[i], bi);
      SubStep(b, x, P2, i, carry, bi, borrow);
      b, carry := b + [bi], borrow;
    }
    assert x[..4] == x && P2[..4] == P2;
  }

  lemma Reduced(v: nat, head: nat, d: nat, borrow: nat)
    requires head < 2 && borrow < 2 && v < R && d < R && v + head * R < 2 * P && d - borrow * R == v - P
    ensures (v + head * R) % P == if borrow == 1 && head == 0 then v else d
  {
    Constants();
    var n := v + head * R;
    if n < P {
      assert head == 0;
    } else {
      assert n - P < P;
      assert n % P == n - P;
    }
  }

  /** gfpCarry: a number below twice the prime, with its overflow in head, is reduced. */
  method GfpCarry(a: array<Word>, head: Word)
    requires a.Length == 4 && head < 2 && Val(a[..], W) + head * R < 2 * P
    modifies a
    ensures Val(a[..], W) == old(Val(a[..], W) + head * R) % P
  {
    hide AndNot;
    hide And;
    hide Or;
    hide Sub;
    hide Val;
    ghost var x := a[..];
    var b, carry := SubPrime(a[..]);
    ValRange(x);
    ValRange(b);
    Reduced(Val(x, W), head, Val(b, W), carry);
    Flags(carry, head);
    ghost var keep := carry == 1 && head == 0;
    carry := AndNot(carry, head);
    Mask(carry);
    carry := Sub(0, carry);
    var ncarry := Not(carry);
    for i := 0 to 4
      invariant forall k :: 0 <= k < i ==> a[k] == if keep then x[k] else b[k]
      invariant forall k :: i <= k < 4 ==> a[k] == x[k]
    {
      Select(a[i], b[i], keep);
      a[i] := Or(And(a[i], carry), And(b[i], ncarry));
    }
    assert a[..] == if keep then x else b;
  }

  lemma ValRange(s: seq<Word>)
    requires |s| == 4
    ensures Val(s, W) < R
  {
    Constants();
    ValBound(s, W);
  }

  /** x + y in words, with the final carry. */
  method AddWords(x: seq<Word>, y: seq<Word>) returns (z: seq<Word>, carry: Word)
    requires |x| == |y|
    ensures |z| == |x| && carry < 2 && Val(z, W) + carry * Pow(W, |x|) == Val(x, W) + Val(y, W)
  {
    hide CarryOut;
    hide Add;
    z, carry := [], 0;
    for i := 0 to |x|
      invariant |z| == i && carry < 2
      invariant Val(z, W) + carry * Pow(W, i) == Val(x[..i], W) + Val(y[..i], W)
    {
      CarryTrue(x[i], y[i], carry);
      var zi := Add(Add(x[i], y[i]), carry);
      var next := CarryOut(x[i], y[i], zi);
      AddStep(z, x, y, i, carry, zi, next);
      z, carry := z + [zi], next;
    }
    assert x[..|x|] == x && y[..|x|] == y;
  }

  ghost predicate InField(a: array<Word>)
    reads a
  {
    a.Length == 4 && Val(a[..], W) < P
  }

  /** gfpAdd. The arrays may be the same. */
  method GfpAdd(c: array<Word>, a: array<Word>, b: array<Word>)
    requires c.Length == 4 && InField(a) && InField(b)
    modifies c
    ensures Val(c[..], W) == old(Val(a[..], W) + Val(b[..], W)) % P
  {
    hide CarryOut;
    hide Add;
    Constants();
    hide Val;
    NoWords();
    ghost var (x, y) := (a[..], b[..]);
    var carry: Word := 0;
    assert x[..0] == [] == y[..0] == c[..0];
    for i := 0 to 4
      invariant carry < 2 && forall k :: i <= k < 4 ==> a[k] == x[k] && b[k] == y[k]
      invariant Val(c[..i], W) + carry * Pow(W, i) == Val(x[..i], W) + Val(y[..i], W)
    {
      var (ai, bi) := (a[i], b[i]);
      CarryTrue(ai, bi, carry);
      var ci := Add(Add(ai, bi), carry);
      var next := CarryOut(ai, bi, ci);
      ghost var z := c[..i];
      AddStep(z, x, y, i, carry, ci, next);
      c[i] := ci;
      assert c[..i + 1] == z + [ci];
      carry := next;
    }
    assert c[..4] == c[..] && x[..4] == x && y[..4] == y;
    GfpCarry(c, carry);
  }

  /** p - x in words: nothing is borrowed in the end. */
  method PrimeMinus(x: seq<Word>) returns (t: seq<Word>)
    requires |x| == 4 && Val(x, W) <= P
    ensures |t| == 4 && Val(t, W) == P - Val(x, W)
  {
    hide BorrowOut;
    hide Sub;
    Constants();
    var carry: Word := 0;
    t := [];
    for i := 0 to 4
      invariant |t| == i && carry < 2
      invariant Val(t, W) - carry * Pow(W, i) == Val(P2[..i], W) - Val(x[..i], W)
    {
      BorrowTrue(P2[i], x[i], carry);
      var ti := Sub(Sub(P2[i], x[i]), carry);
      var borrow := BorrowOut(P2[i], x[i], ti);
      SubStep(t, P2, x, i, carry, ti, borrow);
      t, carry := t + [ti], borrow;
    }
    assert x[..4] == x && P2[..4] == P2;
    ValRange(t);
  }

  /** gfpNeg. The arrays may be the same. */
  method GfpNeg(c: array<Word>, a: array<Word>)
    requires c.Length == 4 && InField(a)
    modifies c
    ensures Val(c[..], W) == old(P - Val(a[..], W)) % P
  {
    hide Val;
    var t := PrimeMinus(a[..]);
    forall i | 0 <= i < 4 {
      c[i] := t[i];
    }
    assert c[..] == t;
    GfpCarry(c, 0);
  }

  /** gfpSub. The arrays may be the same. */
  method GfpSub(c: array<Word>, a: array<Word>, b: array<Word>)
    requires c.Length == 4 && InField(a) && InField(b)
    modifies c
    ensures Val(c[..], W) == old(Val(a[..], W) - Val(b[..], W)) % P
  {
    hide Val;
    hide Pow;
    ghost var (x, y) := (Val(a[..], W), Val(b[..], W));
    var t := PrimeMinus(b[..]);
    var z, carry := AddWords(a[..], t);
    forall i | 0 <= i < 4 {
      c[i] := z[i];
    }
    assert c[..] == z;
    Constants();
    GfpCarry(c, carry);
    SubMod(x, y);
  }

  lemma SubMod(x: nat, y: nat)
    ensures (x + (P - y)) % P == (x - y) % P
  {}

  // ---- multiplication ----

  const Q: nat := 0x1_0000

  lemma Assoc(x: nat, y: nat, z: nat)
    ensures x * (y * z) == x * y * z
  {}

  lemma {:induction false} PowSum(b: nat, i: nat, j: nat)
    ensures Pow(b, i + j) == Pow(b, i) * Pow(b, j)
  {
    if i > 0 {
      PowSum(b, i - 1, j);
      Assoc(b, Pow(b, i - 1), Pow(b, j));
    }
  }

  lemma {:induction false} PowFour(i: nat)
    ensures Pow(Q, 4 * i) == Pow(W, i)
  {
    if i > 0 {
      PowFour(i - 1);
      PowSum(Q, 4, 4 * (i - 1));
      assert Pow(Q, 2) == Q * Q;
      assert Pow(Q, 4) == W;
    }
  }

  /** Adding to one digit. */
  lemma {:induction false} ValAt(s: seq<nat>, k: nat, x: nat, b: nat)
    requires k < |s|
    ensures Val(s[k := s[k] + x], b) == Val(s, b) + x * Pow(b, k)
  {
    var t := s[k := s[k] + x];
    if k == 0 {
      assert t[1..] == s[1..];
    } else {
      ValAt(s[1..], k - 1, x, b);
      assert t[1..] == s[1..][k - 1 := s[1..][k - 1] + x];
      Distribute(b, Val(s[1..], b), x, Pow(b, k - 1));
    }
  }

  /** Four 16-bit pieces of a word. */
  function Quarter(a: Word, k: nat): (q: nat)
    requires k < 4
  {
    match k
    case 0 => a % Q
    case 1 => a / Q % Q
    case 2 => a / 0x1_0000_0000 % Q
    case 3 => a / 0x1_0000_0000_0000
  }

  /** Two 32-bit pieces of a word. */
  function Half(a: Word, k: nat): (h: nat)
    requires k < 2
  {
    if k == 0 then a % 0x1_0000_0000 else a / 0x1_0000_0000
  }

  function Times(x: nat, y: nat): (p: nat) {
    x * y
  }

  /** The partial products of one word by another, by weight. */
  function Products(a: Word, b: Word): (xs: seq<nat>)
    ensures |xs| == 6
  {
    var (a0, a1, a2, a3) := (Quarter(a, 0), Quarter(a, 1), Quarter(a, 2), Quarter(a, 3));
    var (b0, b2) := (Half(b, 0), Half(b, 1));
    [Times(a0, b0), Times(a1, b0), Times(a2, b0) + Times(a0, b2), Times(a3, b0) + Times(a1, b2), Times(a2, b2),
      Times(a3, b2)]
  }

  lemma Pieces(a: Word, b: Word)
    ensures a == Quarter(a, 0) + Q * (Quarter(a, 1) + Q * (Quarter(a, 2) + Q * Quarter(a, 3)))
    ensures b == Half(b, 0) + Q * Q * Half(b, 1)
    ensures forall k :: 0 <= k < 4 ==> Quarter(a, k) < Q
    ensures forall k :: 0 <= k < 2 ==> Half(b, k) < 0x1_0000_0000
  {
    Quarters(a);
  }

  lemma Quarters(a: Word)
    ensures a == Quarter(a, 0) + Q * (Quarter(a, 1) + Q * (Quarter(a, 2) + Q * Quarter(a, 3)))
  {
    var (x, y) := (a / Q, a / 0x1_0000_0000);
    assert x / Q == y;
    assert a == Q * x + a % Q && x == Q * y + x % Q && y == Q * (y / Q) + y % Q;
    assert y / Q == a / 0x1_0000_0000_0000;
  }

  lemma MulMono(x: nat, y: nat, c: nat)
    requires x <= c
    ensures x * y <= c * y
  {
    assert (c - x) * y >= 0;
  }

  lemma ProductBound(x: nat, y: nat)
    requires x < Q && y < 0x1_0000_0000
    ensures Times(x, y) < 0x1_0000_0000_0000
  {
    MulMono(x, y, Q - 1);
  }

  /** No partial product comes near the word size, and together they are the product. */
  lemma ProductsTrue(a: Word, b: Word)
    ensures Val(Products(a, b), Q) == a * b
    ensures forall r :: 0 <= r < 6 ==> Products(a, b)[r] < 0x2_0000_0000_0000
  {
    Pieces(a, b);
    hide Quarter;
    hide Half;
    var (a0, a1, a2, a3) := (Quarter(a, 0), Quarter(a, 1), Quarter(a, 2), Quarter(a, 3));
    var (b0, b2) := (Half(b, 0), Half(b, 1));
    ProductBound(a0, b0);
    ProductBound(a1, b0);
    ProductBound(a2, b0);
    ProductBound(a3, b0);
    ProductBound(a0, b2);
    ProductBound(a1, b2);
    ProductBound(a2, b2);
    ProductBound(a3, b2);
    Six(Products(a, b));
    Expand(a0, a1, a2, a3, b0, b2);
  }

  lemma Six(s: seq<nat>)
    requires |s| == 6
    ensures Val(s, Q) == s[0] + Q * (s[1] + Q * (s[2] + Q * (s[3] + Q * (s[4] + Q * s[5]))))
  {
    assert s[5..][1..] == [] && s[4..][1..] == s[5..] && s[3..][1..] == s[4..] && s[2..][1..] == s[3..] &&
      s[1..][1..] == s[2..];
    assert Val(s[5..], Q) == s[5] + Q * Val([], Q) == s[5];
    assert Val(s[4..], Q) == s[4] + Q * s[5];
    assert Val(s[3..], Q) == s[3] + Q * (s[4] + Q * s[5]);
    assert Val(s[2..], Q) == s[2] + Q * (s[3] + Q * (s[4] + Q * s[5]));
    assert Val(s[1..], Q) == s[1] + Q * (s[2] + Q * (s[3] + Q * (s[4] + Q * s[5])));
  }

  lemma Expand(a0: nat, a1: nat, a2: nat, a3: nat, b0: nat, b2: nat)
    ensures
      a0 * b0 + Q * (a1 * b0 + Q * (a2 * b0 + a0 * b2 + Q * (a3 * b0 + a1 * b2 + Q * (a2 * b2 + Q * (a3 * b2))))) ==
      (a0 + Q * (a1 + Q * (a2 + Q * a3))) * (b0 + Q * Q * b2)
  {
    var a := a0 + Q * (a1 + Q * (a2 + Q * a3));
    assert a * b0 == a0 * b0 + Q * (a1 * b0) + Q * Q * (a2 * b0) + Q * Q * Q * (a3 * b0);
    assert a * b2 == a0 * b2 + Q * (a1 * b2) + Q * Q * (a2 * b2) + Q * Q * Q * (a3 * b2);
    assert a * (b0 + Q * Q * b2) == a * b0 + Q * Q * (a * b2);
  }

  const STEP: nat := 0x2_0000_0000_0000

  /** The digits of the buffer are far from the word size. */
  ghost predicate Below(s: seq<nat>, n: nat) {
    forall k :: 0 <= k < |s| ==> s[k] <= n
  }

  /** The partial products of one pair of words are added in at their weight. */
  method Deposit(buff: array<Word>, off: nat, a: Word, b: Word, ghost n: nat)
    requires off + 6 <= buff.Length && Below(buff[..], n * STEP) && n < 32
    modifies buff
    ensures Below(buff[..], (n + 1) * STEP)
    ensures Val(buff[..], Q) == old(Val(buff[..], Q)) + Pow(Q, off) * (a * b)
  {
    hide Products;
    hide Val;
    hide Pow;
    ProductsTrue(a, b);
    var xs := Products(a, b);
    ghost var s := buff[..];
    NoDigits();
    for r := 0 to 6
      invariant forall k :: 0 <= k < buff.Length ==> buff[k] <= n * STEP + if off <= k < off + r then STEP else 0
      invariant forall k :: off + r <= k < buff.Length ==> buff[k] == s[k]
      invariant Val(buff[..], Q) == Val(s, Q) + Pow(Q, off) * Val(xs[..r], Q)
    {
      ghost var t := buff[..];
      DepositOne(t, off, xs, r);
      buff[off + r] := Add(buff[off + r], xs[r]);
      assert buff[..] == t[off + r := t[off + r] + xs[r]];
    }
    assert xs[..6] == xs;
  }

  lemma NoDigits()
    ensures Val([], Q) == 0
  {}

  lemma DepositOne(t: seq<nat>, off: nat, xs: seq<nat>, r: nat)
    requires r < |xs| && off + r < |t|
    ensures Val(t[off + r := t[off + r] + xs[r]], Q) + Pow(Q, off) * Val(xs[..r], Q) ==
      Val(t, Q) + Pow(Q, off) * Val(xs[..r + 1], Q)
  {
    ValAt(t, off + r, xs[r], Q);
    ValSnoc(xs[..r], xs[r], Q);
    assert xs[..r + 1] == xs[..r] + [xs[r]];
    PowSum(Q, off, r);
    Weigh(Pow(Q, off), Val(xs[..r], Q), xs[r], Pow(Q, r));
  }

  lemma Weigh(p: nat, v: nat, x: nat, q: nat)
    ensures x * (p * q) + p * v == p * (v + x * q)
  {
    Distribute(p, v, x, q);
  }

  /** One row of partial products. */
  method DepositRow(buff: array<Word>, x: Word, i: nat, b: seq<Word>, last: nat, ghost n: nat)
    requires |b| == 4 && last <= 4 && i < 4 && n <= 4 * i && Below(buff[..], n * STEP)
    requires 4 * (i + last) + 2 <= buff.Length
    modifies buff
    ensures Below(buff[..], (n + last) * STEP)
    ensures Val(buff[..], Q) == old(Val(buff[..], Q)) + x * Pow(W, i) * Val(b[..last], W)
  {
    hide Val;
    hide Pow;
    hide Below;
    NoWords();
    ghost var v := Val(buff[..], Q);
    assert b[..0] == [];
    for j := 0 to last
      invariant Below(buff[..], (n + j) * STEP)
      invariant Val(buff[..], Q) == v + x * Pow(W, i) * Val(b[..j], W)
    {
      PowFour(i + j);
      Deposit(buff, 4 * (i + j), x, b[j], n + j);
      RowStep(x, i, b, j);
    }
  }

  /**
   * The first half of mul and halfMul: all partial products, or only those below 2^256. skipped
   * counts what is left out, in units of 2^256.
   */
  method Accumulate(a: seq<Word>, b: seq<Word>, half: bool) returns (buff: array<Word>, ghost skipped: nat)
    requires |a| == 4 && |b| == 4
    ensures fresh(buff) && buff.Length == (if half then 18 else 32)
    ensures Val(buff[..], Q) + skipped * R == Val(a, W) * Val(b, W) && (!half ==> skipped == 0)
  {
    hide Val;
    hide Pow;
    buff := new Word[if half then 18 else 32](_ => 0);
    skipped := 0;
    ZeroDigits(buff[..]);
    NoWords();
    ghost var n := 0;
    for i := 0 to 4
      invariant n <= 4 * i && Below(buff[..], n * STEP) && (!half ==> skipped == 0)
      invariant Val(buff[..], Q) + skipped * R == Val(a[..i], W) * Val(b, W)
    {
      var last := if half then 4 - i else 4;
      DepositRow(buff, a[i], i, b, last, n);
      n := n + last;
      RowEnd(a, b, i, last);
      if half {
        skipped := skipped + a[i] * Val(b[last..], W);
      } else {
        assert b[..4] == b;
      }
    }
    assert a[..4] == a;
  }

  lemma ZeroDigits(s: seq<nat>)
    requires forall k :: 0 <= k < |s| ==> s[k] == 0
    ensures Val(s, Q) == 0 && Below(s, 0)
  {
    if s != [] {
      ZeroDigits(s[1..]);
    }
  }

  lemma NoWords()
    ensures Val([], W) == 0
  {}

  lemma RowStep(x: nat, i: nat, b: seq<nat>, j: nat)
    requires j < |b|
    ensures x * Pow(W, i) * Val(b[..j], W) + Pow(W, i + j) * (x * b[j]) == x * Pow(W, i) * Val(b[..j + 1], W)
  {
    ValSnoc(b[..j], b[j], W);
    assert b[..j + 1] == b[..j] + [b[j]];
    PowSum(W, i, j);
    Row(x, Pow(W, i), Val(b[..j], W), b[j], Pow(W, j));
  }

  lemma Row(x: nat, p: nat, v: nat, y: nat, q: nat)
    ensures x * p * v + p * q * (x * y) == x * p * (v + y * q)
  {
    assert p * q * (x * y) == x * p * (y * q);
  }

  /** The end of a row: everything is in, or what is left has the weight of 2^256. */
  lemma RowEnd(a: seq<nat>, b: seq<nat>, i: nat, last: nat)
    requires i < |a| && |b| == 4 && (last == 4 || last == 4 - i)
    ensures Val(a[..i], W) * Val(b, W) + a[i] * Pow(W, i) * Val(b, W) == Val(a[..i + 1], W) * Val(b, W)
    ensures last == 4 - i ==>
      a[i] * Pow(W, i) * Val(b[..last], W) + a[i] * Val(b[last..], W) * R == a[i] * Pow(W, i) * Val(b, W)
  {
    ValSnoc(a[..i], a[i], W);
    assert a[..i + 1] == a[..i] + [a[i]];
    AddTimes(Val(a[..i], W), a[i] * Pow(W, i), Val(b, W));
    if last == 4 - i {
      ValSplit(b, last, W);
      Constants();
      PowSum(W, i, last);
      Tail(a[i], Pow(W, i), Val(b[..last], W), Val(b[last..], W), Pow(W, last));
    }
  }

  lemma AddTimes(x: nat, y: nat, z: nat)
    ensures (x + y) * z == x * z + y * z
  {}

  lemma Tail(x: nat, p: nat, v: nat, w: nat, q: nat)
    ensures x * p * v + x * w * (p * q) == x * p * (v + q * w)
  {
    assert x * w * (p * q) == x * p * (q * w);
  }

  lemma {:induction false} ValSplit(s: seq<nat>, k: nat, b: nat)
    requires k <= |s|
    ensures Val(s, b) == Val(s[..k], b) + Pow(b, k) * Val(s[k..], b)
    decreases k
  {
    if k == 0 {
      assert s[0..] == s;
    } else {
      ValSplit(s[1..], k - 1, b);
      assert s[1..][..k - 1] == s[..k][1..] && s[1..][k - 1..] == s[k..];
      SplitTimes(b, Val(s[..k][1..], b), Pow(b, k - 1), Val(s[k..], b));
    }
  }

  lemma SplitTimes(b: nat, u: nat, p: nat, w: nat)
    ensures b * (u + p * w) == b * u + b * p * w
  {
    Assoc(b, p, w);
  }

  // ---- gathering the columns ----

  /** Every fourth entry, from position i on. */
  function Column(s: seq<Word>, i: nat, n: nat): (c: seq<Word>)
    requires i < 4 && 4 * n <= |s|
    ensures |c| == n && forall j :: 0 <= j < n ==> c[j] == s[4 * j + i]
  {
    seq(n, j requires 0 <= j < n => s[4 * j + i])
  }

  lemma {:induction false} Columns(s: seq<Word>, n: nat)
    requires 4 * n <= |s|
    ensures Val(s[..4 * n], Q) ==
      Val(Column(s, 0, n), W) + Q * Val(Column(s, 1, n), W) + Q * Q * Val(Column(s, 2, n), W) +
        Q * Q * Q * Val(Column(s, 3, n), W)
  {
    hide Val;
    hide Pow;
    hide Column;
    if n == 0 {
      NoWords();
      NoDigits();
      assert s[..0] == [];
      assert Column(s, 0, 0) == [] && Column(s, 1, 0) == [] && Column(s, 2, 0) == [] && Column(s, 3, 0) == [];
    } else {
      Columns(s, n - 1);
      BlockSnoc(s, n - 1);
      ColumnSnoc(s, 0, n - 1);
      ColumnSnoc(s, 1, n - 1);
      ColumnSnoc(s, 2, n - 1);
      ColumnSnoc(s, 3, n - 1);
    }
  }

  lemma BlockSnoc(s: seq<Word>, n: nat)
    requires 4 * (n + 1) <= |s|
    ensures var (k, p) := (4 * n, Pow(W, n));
      Val(s[..4 * (n + 1)], Q) ==
        Val(s[..k], Q) + s[k] * p + Q * (s[k + 1] * p) + Q * Q * (s[k + 2] * p) + Q * Q * Q * (s[k + 3] * p)
  {
    hide Val;
    hide Pow;
    var (k, t) := (4 * n, s[..4 * (n + 1)]);
    ValSplit(t, k, Q);
    assert t[..k] == s[..k];
    PowFour(n);
    LastFour(t[k..]);
    SameTimes(Pow(W, n), Val(t[k..], Q), s[k] + Q * (s[k + 1] + Q * (s[k + 2] + Q * s[k + 3])));
    Spread(Pow(W, n), s[k], s[k + 1], s[k + 2], s[k + 3]);
  }

  lemma SameTimes(p: nat, x: nat, y: nat)
    requires x == y
    ensures p * x == p * y
  {}

  lemma LastFour(s: seq<nat>)
    requires |s| == 4
    ensures Val(s, Q) == s[0] + Q * (s[1] + Q * (s[2] + Q * s[3]))
  {
    assert s[3..][1..] == [] && s[2..][1..] == s[3..] && s[1..][1..] == s[2..];
    assert Val(s[3..], Q) == s[3] + Q * Val([], Q) == s[3];
    assert Val(s[2..], Q) == s[2] + Q * s[3];
    assert Val(s[1..], Q) == s[1] + Q * (s[2] + Q * s[3]);
  }

  lemma ColumnSnoc(s: seq<Word>, i: nat, n: nat)
    requires i < 4 && 4 * (n + 1) <= |s|
    ensures Val(Column(s, i, n + 1), W) == Val(Column(s, i, n), W) + s[4 * n + i] * Pow(W, n)
  {
    assert Column(s, i, n + 1) == Column(s, i, n) + [s[4 * n + i]];
    ValSnoc(Column(s, i, n), s[4 * n + i], W);
  }

  lemma Spread(p: nat, x0: nat, x1: nat, x2: nat, x3: nat)
    ensures p * (x0 + Q * (x1 + Q * (x2 + Q * x3))) == x0 * p + Q * (x1 * p) + Q * Q * (x2 * p) + Q * Q * Q * (x3 * p)
  {}

  /** Shifting a word left by 16, 32 or 48 bits: what stays, and what goes over into the next word. */
  function Unit(shift: nat): (u: nat)
    requires shift in {16, 32, 48}
  {
    if shift == 16 then 0x1_0000 else if shift == 32 then 0x1_0000_0000 else 0x1_0000_0000_0000
  }

  function Shl(x: Word, shift: nat): (r: Word)
    requires shift in {16, 32, 48}
  {
    x * Unit(shift) % W
  }

  function Over(x: Word, shift: nat): (r: Word)
    requires shift in {16, 32, 48}
  {
    x / Unit(64 - shift)
  }

  lemma ShiftTrue(x: Word, shift: nat, head: nat)
    requires shift in {16, 32, 48} && head < Unit(shift)
    ensures Shl(x, shift) + W * Over(x, shift) == x * Unit(shift) && Over(x, shift) < Unit(shift)
    ensures Shl(x, shift) + head < W
  {
    ShiftBy(x, Unit(shift), Unit(64 - shift), head);
  }

  lemma ShiftBy(x: Word, u: nat, v: nat, head: nat)
    requires u * v == W && u > 0 && v > 0 && head < u
    ensures x * u % W + W * (x / v) == x * u && x / v < u && x * u % W + head < W
  {
    var (q, r) := (x / v, x % v);
    assert x == q * v + r;
    assert x * u == q * (u * v) + r * u;
    assert r * u <= (v - 1) * u == W - u;
    ModW(q, r * u);
    Cancel(q, u, v);
  }

  lemma Cancel(q: nat, u: nat, v: nat)
    requires q * v < u * v
    ensures q < u
  {}

  lemma ModW(q: nat, s: nat)
    requires s < W
    ensures (q * W + s) % W == s
  {}

  /** One column is added in at its weight; lost is what overflows the words. */
  method Fold(x: seq<Word>, y: seq<Word>, shift: nat) returns (z: seq<Word>, ghost lost: nat)
    requires |x| == |y| && shift in {16, 32, 48}
    ensures |z| == |x| && Val(z, W) + lost * Pow(W, |x|) == Val(x, W) + Unit(shift) * Val(y, W)
  {
    hide CarryOut;
    hide Add;
    hide Shl;
    hide Over;
    hide Unit;
    hide Val;
    hide Pow;
    z := [];
    var head: Word, carry: Word := 0, 0;
    NoWords();
    UnitPositive(shift);
    for j := 0 to |x|
      invariant |z| == j && carry < 2 && head < Unit(shift)
      invariant Val(z, W) + (carry + head) * Pow(W, j) == Val(x[..j], W) + Unit(shift) * Val(y[..j], W)
    {
      ShiftTrue(y[j], shift, head);
      var yj := Shl(y[j], shift) + head;
      CarryTrue(x[j], yj, carry);
      var zj := Add(Add(x[j], yj), carry);
      var next := CarryOut(x[j], yj, zj);
      FoldStep(z, x, y, j, Unit(shift), carry + head, zj, next + Over(y[j], shift));
      z, carry, head := z + [zj], next, Over(y[j], shift);
    }
    assert x[..|x|] == x && y[..|x|] == y;
    lost := carry + head;
  }

  lemma UnitPositive(shift: nat)
    requires shift in {16, 32, 48}
    ensures Unit(shift) > 0
  {}

  lemma FoldStep(z: seq<nat>, x: seq<nat>, y: seq<nat>, j: nat, u: nat, c: nat, zj: nat, c': nat)
    requires |z| == j < |x| && j < |y| && zj + W * c' == x[j] + y[j] * u + c
    requires Val(z, W) + c * Pow(W, j) == Val(x[..j], W) + u * Val(y[..j], W)
    ensures Val(z + [zj], W) + c' * Pow(W, j + 1) == Val(x[..j + 1], W) + u * Val(y[..j + 1], W)
  {
    hide Val;
    var p := Pow(W, j);
    ValSnoc(z, zj, W);
    ValSnoc(x[..j], x[j], W);
    ValSnoc(y[..j], y[j], W);
    assert x[..j + 1] == x[..j] + [x[j]] && y[..j + 1] == y[..j] + [y[j]];
    PowStep(j);
    hide Pow;
    FoldTimes(zj, c', x[j], y[j], u, c, p, Val(y[..j], W));
  }

  lemma PowStep(j: nat)
    ensures Pow(W, j + 1) == W * Pow(W, j)
  {}

  lemma FoldTimes(z: nat, c': nat, x: nat, y: nat, u: nat, c: nat, p: nat, v: nat)
    requires z + W * c' == x + y * u + c
    ensures z * p + c' * (W * p) + u * v == x * p + c * p + u * (v + y * p)
  {
    SumTimes(z, c', x, y * u, c, p);
    Distribute(u, v, y, p);
    assert y * u * p == y * (u * p);
  }

  /** The second half of mul and halfMul: the columns between the words are added in. */
  method Gather(s: seq<Word>, n: nat) returns (z: seq<Word>, ghost lost: nat)
    requires 4 * n <= |s|
    ensures |z| == n && Val(z, W) + lost * Pow(W, n) == Val(s[..4 * n], Q)
  {
    hide Val;
    hide Pow;
    Columns(s, n);
    ghost var l1, l2, l3;
    z, l1 := Fold(Column(s, 0, n), Column(s, 1, n), 16);
    z, l2 := Fold(z, Column(s, 2, n), 32);
    z, l3 := Fold(z, Column(s, 3, n), 48);
    lost := l1 + l2 + l3;
    AddTimes3(l1, l2, l3, Pow(W, n));
  }

  lemma AddTimes3(x: nat, y: nat, z: nat, p: nat)
    ensures (x + y + z) * p == x * p + y * p + z * p
  {}

  /** mul: the full product of two four-word numbers. */
  method Mul(a: seq<Word>, b: seq<Word>) returns (z: seq<Word>)
    requires |a| == 4 && |b| == 4
    ensures |z| == 8 && Val(z, W) == Val(a, W) * Val(b, W)
  {
    hide Val;
    hide Pow;
    var buff;
    ghost var skipped, lost;
    buff, skipped := Accumulate(a, b, false);
    z, lost := Gather(buff[..], 8);
    assert buff[..][..32] == buff[..];
    ValRange(a);
    ValRange(b);
    ProductFits(Val(a, W), Val(b, W), lost);
  }

  lemma ProductFits(x: nat, y: nat, lost: nat)
    requires x < R && y < R && lost * Pow(W, 8) <= x * y
    ensures lost == 0
  {
    Constants();
    PowSum(W, 4, 4);
    MulMono(x, y, R - 1);
    assert lost * (R * R) <= (R - 1) * (R - 1);
  }

  /** halfMul: the product of two four-word numbers modulo 2^256. */
  method HalfMul(a: seq<Word>, b: seq<Word>) returns (z: seq<Word>)
    requires |a| == 4 && |b| == 4
    ensures |z| == 4 && Val(z, W) == Val(a, W) * Val(b, W) % R
  {
    hide Val;
    hide Pow;
    var buff;
    ghost var skipped, lost;
    buff, skipped := Accumulate(a, b, true);
    z, lost := Gather(buff[..], 4);
    ghost var s := buff[..];
    ValSplit(s, 16, Q);
    PowFour(4);
    Constants();
    ValRange(z);
    ModuloR(Val(z, W), lost + Val(s[16..], Q) + skipped, Val(a, W) * Val(b, W));
    AddTimes3(lost, Val(s[16..], Q), skipped, R);
  }

  lemma ModuloR(z: nat, k: nat, n: nat)
    requires z < R && z + k * R == n
    ensures n % R == z
  {}

  // ---- Montgomery multiplication ----

  /** gfpMul: c * 2^256 is a * b modulo p, and c is reduced. The arrays may be the same. */
  method GfpMul(c: array<Word>, a: array<Word>, b: array<Word>)
    requires c.Length == 4 && InField(a) && InField(b)
    modifies c
    ensures Val(c[..], W) < P && Val(c[..], W) * R % P == old(Val(a[..], W) * Val(b[..], W)) % P
  {
    hide Val;
    hide Pow;
    ghost var (x, y) := (Val(a[..], W), Val(b[..], W));
    Constants();
    var big := Mul(a[..], b[..]);
    var m := HalfMul(big[..4], NP2);
    var t := Mul(m, P2);
    ghost var n := Val(big, W);
    ghost var low := Val(big[..4], W);
    var z, carry := AddWords(big, t);
    HighHalf(big);
    HighHalf(z);
    ValRange(big[..4]);
    ValRange(m);
    ValRange(z[..4]);
    PowSum(W, 4, 4);
    Cancelled(low, Val(m, W));
    ghost var u := Val(z[4..], W) + carry * R;
    Quotient(x, y, n, low, Val(big[4..], W), Val(m, W), Val(z[..4], W), Val(z[4..], W), carry);
    forall i | 0 <= i < 4 {
      c[i] := z[4 + i];
    }
    assert c[..] == z[4..];
    GfpCarry(c, carry);
    Congruent(u, x * y, Val(m, W));
  }

  lemma HighHalf(s: seq<Word>)
    requires |s| == 8
    ensures Val(s, W) == Val(s[..4], W) + R * Val(s[4..], W)
  {
    Constants();
    ValSplit(s, 4, W);
  }

  /** m is chosen so that adding m * p clears the low half. */
  lemma Cancelled(low: nat, m: nat)
    requires low < R && m == low * NP % R
    ensures (low + m * P) % R == 0
  {
    Constants();
    var k := low * NP / R;
    var j := (NP * P + 1) / R;
    assert low * NP == k * R + m;
    assert NP * P + 1 == j * R;
    Clear2(low, m, k, j);
    MultipleOfR(low * j - k * P, low + m * P);
  }

  lemma Clear2(low: nat, m: nat, k: nat, j: nat)
    requires low * NP == k * R + m && NP * P + 1 == j * R
    ensures low + m * P == (low * j - k * P) * R
  {
    assert m * P == (low * NP - k * R) * P == low * NP * P - k * R * P;
    assert low * (NP * P + 1) == low * (j * R);
    assert low * NP * P + low == low * j * R;
    assert (low * j - k * P) * R == low * j * R - k * P * R;
  }

  lemma MultipleOfR(q: int, n: nat)
    requires n == q * R
    ensures n % R == 0
  {}

  /** The sum has nothing in its low half, and its high half is below 2p. */
  lemma Quotient(x: nat, y: nat, n: nat, low: nat, high: nat, m: nat, zl: nat, zh: nat, carry: nat)
    requires x < P && y < P && n == x * y == low + R * high && low < R && m < R && zl < R && carry < 2
    requires (low + m * P) % R == 0 && zl + R * zh + carry * (R * R) == n + m * P
    ensures zl == 0 && (zh + carry * R) * R == x * y + m * P && zh + carry * R < 2 * P
  {
    Constants();
    var u := zh + carry * R;
    assert u * R == zh * R + carry * (R * R);
    LowZero(zl, u, low, high, m);
    MulMono(x, y, P);
    assert P * y <= P * P;
    MulMono(m, P, R);
    assert P * P + R * P <= 2 * P * R;
    Shorter(u, x * y + m * P);
  }

  lemma LowZero(zl: nat, u: nat, low: nat, high: nat, m: nat)
    requires zl < R && (low + m * P) % R == 0 && zl + u * R == low + R * high + m * P
    ensures zl == 0
  {
    var q := (low + m * P) / R;
    assert low + m * P == q * R;
    assert zl == (q + high - u) * R by {
      assert (q + high - u) * R == q * R + high * R - u * R;
    }
  }

  lemma Shorter(u: nat, n: nat)
    requires u * R == n && n < 2 * P * R
    ensures u < 2 * P
  {}

  lemma Congruent(u: nat, n: nat, m: nat)
    requires u * R == n + m * P
    ensures u % P < P && (u % P) * R % P == n % P
  {
    var q := u / P;
    assert u == q * P + u % P;
    assert (u % P) * R == n + (m - q * R) * P by {
      assert (u - q * P) * R == u * R - q * P * R;
      assert (m - q * R) * P == m * P - q * R * P;
    }
    AddMultiple(n, m - q * R);
  }

  lemma AddMultiple(n: nat, k: int)
    requires n + k * P >= 0
    ensures (n + k * P) % P == n % P
  {}

  /** The result is the only reduced number with that property. */
  lemma MontgomeryUnique(c: nat, d: nat)
    requires c < P && d < P && c * R % P == d * R % P
    ensures c == d
  {
    InverseOfR();
    Separate(c, d, (NP * P + 1) / R);
  }

  lemma InverseOfR()
    ensures R * ((NP * P + 1) / R) == NP * P + 1
  {}

  lemma Separate(c: nat, d: nat, k: nat)
    requires c < P && d < P && c * R % P == d * R % P && R * k == NP * P + 1
    ensures c == d
  {
    var q := c * R / P - d * R / P;
    assert (c - d) * R == q * P;
    assert (c - d) * (R * k) == q * k * P;
    assert (c - d) * (NP * P + 1) == (c - d) * NP * P + (c - d);
    assert c - d == (q * k - (c - d) * NP) * P;
    SmallMultiple(c - d, q * k - (c - d) * NP);
  }

  lemma SmallMultiple(x: int, k: int)
    requires x == k * P && x < P && x + P > 0
    ensures x == 0
  {}
}
