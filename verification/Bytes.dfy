/** Bytes, results and the big-endian integers that RLP headers are made of. */
module Bytes {

  type byte = b: int | 0 <= b < 256

  datatype Option<+T> = None | Some(value: T)

  datatype Result<+T, +E> = Ok(value: T) | Err(error: E)

  const TWO64: int := 0x1_0000_0000_0000_0000

  /** 256 to the n-th power. */
  function Pow256(n: nat): (r: nat)
    ensures r > 0
  {
    if n == 0 then 1 else 256 * Pow256(n - 1)
  }

  /** Shortest big-endian form of n; empty for zero. */
  function ToBE(n: nat): (s: seq<byte>)
    ensures n > 0 ==> |s| > 0 && s[0] != 0
  {
    if n == 0 then [] else ToBE(n / 256) + [n % 256]
  }

  /** The number a big-endian byte string stands for. */
  function FromBE(s: seq<byte>): (n: nat) {
    if s == [] then 0 else 256 * FromBE(s[..|s| - 1]) + s[|s| - 1]
  }

  lemma {:induction false} FromToBE(n: nat)
    ensures FromBE(ToBE(n)) == n
  {
    if n != 0 {
      FromToBE(n / 256);
      assert ToBE(n)[..|ToBE(n)| - 1] == ToBE(n / 256);
    }
  }

  /** Without a leading zero a big-endian string is the shortest one for its number. */
  lemma {:induction false} ToFromBE(s: seq<byte>)
    requires s == [] || s[0] != 0
    ensures ToBE(FromBE(s)) == s
  {
    if s != [] {
      var p := s[..|s| - 1];
      if p != [] {
        FromBEPositive(p);
      }
      ToFromBE(p);
      assert s == p + [s[|s| - 1]];
    }
  }

  lemma {:induction false} FromBEPositive(s: seq<byte>)
    requires s != [] && s[0] != 0
    ensures FromBE(s) > 0
  {
    if |s| > 1 {
      FromBEPositive(s[..|s| - 1]);
    }
  }

  lemma {:induction false} ToBELength(n: nat, k: nat)
    ensures |ToBE(n)| <= k <==> n < Pow256(k)
  {
    if n != 0 && k > 0 {
      ToBELength(n / 256, k - 1);
    }
  }

  lemma {:induction false} FromBEBound(s: seq<byte>)
    ensures FromBE(s) < Pow256(|s|)
  {
    if s != [] {
      FromBEBound(s[..|s| - 1]);
    }
  }

  lemma Pow256Values()
    ensures Pow256(1) == 256
    ensures Pow256(8) == TWO64
  {
    assert Pow256(4) == 0x1_0000_0000;
    assert Pow256(8) == 256 * (256 * (256 * (256 * Pow256(4))));
  }

  /** A header size below 2^64 takes at most eight bytes. */
  lemma SizeOfSize(n: nat)
    requires n < TWO64
    ensures |ToBE(n)| <= 8
    ensures n > 0 ==> |ToBE(n)| >= 1
  {
    Pow256Values();
    ToBELength(n, 8);
  }
}
