/**
 * BLAKE2b block buffering (proton/crypto/blake2b/blake2b.go) against section 3.3 of RFC 7693.
 * The compression function is a parameter; it takes a block as its 128 bytes.
 */
module Blake2b {
  import opened Bytes

  const BLOCK := 128
  const SIZE := 64

  /** Initial state for a digest size and key length, compression, and the 64 output bytes of a state. */
  datatype Core<!S(!new)> = Core(init: (nat, nat) -> S, f: (S, seq<byte>, nat, nat, bool) -> S, out: S -> seq<byte>) {
    ghost predicate Valid() {
      forall s :: |out(s)| == SIZE
    }
  }

  // ---- the definition ----

  /** The 128-bit byte counter, low and high word. */
  function Lo(t: nat): (w: nat) {
    t % TWO64
  }

  function Hi(t: nat): (w: nat) {
    t / TWO64 % TWO64
  }

  function Pad(m: seq<byte>): (b: seq<byte>)
    requires |m| <= BLOCK
    ensures |b| == BLOCK
  {
    m + seq(BLOCK - |m|, _ => 0)
  }

  /** State after the message, t bytes having come before it: whole blocks, then the padded last one. */
  function Absorb<S(!new)>(core: Core<S>, h: S, t: nat, m: seq<byte>): (r: S)
    decreases |m|
  {
    if |m| <= BLOCK then core.f(h, Pad(m), Lo(t + |m|), Hi(t + |m|), true)
    else Absorb(core, core.f(h, m[..BLOCK], Lo(t + BLOCK), Hi(t + BLOCK), false), t + BLOCK, m[BLOCK..])
  }

  /** A key comes first, padded to a block. */
  function KeyBlock(key: seq<byte>): (b: seq<byte>)
    requires |key| <= BLOCK
  {
    if key == [] then [] else Pad(key)
  }

  function Hash<S(!new)>(core: Core<S>, size: nat, key: seq<byte>, m: seq<byte>): (r: seq<byte>)
    requires size <= SIZE && |key| <= BLOCK && core.Valid()
  {
    core.out(Absorb(core, core.init(size, |key|), 0, KeyBlock(key) + m))[..size]
  }

  predicate Aligned(n: nat) {
    n % BLOCK == 0
  }

  /** State after whole blocks, none of them last. */
  function Blocks<S(!new)>(core: Core<S>, h: S, t: nat, m: seq<byte>): (r: S)
    requires Aligned(|m|)
    decreases |m|
  {
    if m == [] then h
    else Blocks(core, core.f(h, m[..BLOCK], Lo(t + BLOCK), Hi(t + BLOCK), false), t + BLOCK, m[BLOCK..])
  }

  lemma WholeSum(a: nat, b: nat)
    requires a % BLOCK == 0 && b % BLOCK == 0
    ensures (a + b) % BLOCK == 0
  {}

  lemma {:induction false} BlocksConcat<S(!new)>(core: Core<S>, h: S, t: nat, a: seq<byte>, b: seq<byte>)
    requires Aligned(|a|) && Aligned(|b|)
    ensures Aligned(|a + b|) && Blocks(core, h, t, a + b) == Blocks(core, Blocks(core, h, t, a), t + |a|, b)
    decreases |a|
  {
    hide Lo;
    hide Hi;
    WholeSum(|a|, |b|);
    if a == [] {
      assert a + b == b;
    } else {
      var h' := core.f(h, a[..BLOCK], Lo(t + BLOCK), Hi(t + BLOCK), false);
      BlocksConcat(core, h', t + BLOCK, a[BLOCK..], b);
      assert (a + b)[..BLOCK] == a[..BLOCK] && (a + b)[BLOCK..] == a[BLOCK..] + b;
    }
  }

  /** Any number of whole blocks can be taken first, as long as the last block is left. */
  lemma {:induction false} AbsorbSplit<S(!new)>(core: Core<S>, h: S, t: nat, a: seq<byte>, b: seq<byte>)
    requires Aligned(|a|) && (a != [] ==> b != [])
    ensures Absorb(core, h, t, a + b) == Absorb(core, Blocks(core, h, t, a), t + |a|, b)
    decreases |a|
  {
    hide Lo;
    hide Hi;
    if a == [] {
      assert a + b == b;
    } else {
      var h' := core.f(h, a[..BLOCK], Lo(t + BLOCK), Hi(t + BLOCK), false);
      AbsorbSplit(core, h', t + BLOCK, a[BLOCK..], b);
      assert (a + b)[..BLOCK] == a[..BLOCK] && (a + b)[BLOCK..] == a[BLOCK..] + b;
    }
  }

  // ---- the counter ----

  /** The 64-bit addition of a block and its carry. */
  function Bump(c: (nat, nat)): (r: (nat, nat)) {
    var c0 := (c.0 + BLOCK) % TWO64;
    (c0, if c0 < BLOCK then (c.1 + 1) % TWO64 else c.1)
  }

  /** The 64-bit subtraction and its borrow. */
  function Retract(c: (nat, nat), n: nat): (r: (nat, nat))
    requires c.0 < TWO64 && c.1 < TWO64 && n <= BLOCK
  {
    ((c.0 - n) % TWO64, if c.0 < n then (c.1 - 1) % TWO64 else c.1)
  }

  lemma HighLow(q: nat, r: nat)
    requires r < TWO64
    ensures Lo(q * TWO64 + r) == r && Hi(q * TWO64 + r) == q % TWO64
  {}

  lemma SuccMod(q: nat)
    ensures (q + 1) % TWO64 == (q % TWO64 + 1) % TWO64
  {}

  lemma Advance(t: nat, n: nat)
    requires n <= BLOCK
    ensures Lo(t + n) == (if Lo(t) + n < TWO64 then Lo(t) + n else Lo(t) + n - TWO64)
    ensures Hi(t + n) == if Lo(t) + n < TWO64 then Hi(t) else (Hi(t) + 1) % TWO64
  {
    var (q, r) := (t / TWO64, t % TWO64);
    assert t == q * TWO64 + r;
    if r + n < TWO64 {
      HighLow(q, r + n);
    } else {
      HighLow(q + 1, r + n - TWO64);
      SuccMod(q);
    }
  }

  lemma BumpCounts(t: nat)
    ensures Bump((Lo(t), Hi(t))) == (Lo(t + BLOCK), Hi(t + BLOCK))
  {
    Advance(t, BLOCK);
  }

  /** Taking back the padding before the last block makes the counter come out at the message length. */
  lemma LastCounts(t: nat, offset: nat)
    requires offset <= BLOCK
    ensures Bump(Retract((Lo(t), Hi(t)), BLOCK - offset)) == (Lo(t + offset), Hi(t + offset))
  {
    Advance(t, offset);
    var (c0, c1, n) := (Lo(t), Hi(t), BLOCK - offset);
    hide Lo;
    hide Hi;
    if c0 < n {
      Wrapped(c0 - n + TWO64, -1);
      Wrapped(c0 + offset, 1);
      BorrowCarry(c1);
    } else {
      Wrapped(c0 - n, 0);
    }
  }

  lemma Wrapped(r: nat, q: int)
    requires r < TWO64
    ensures (r + q * TWO64) % TWO64 == r
  {}

  lemma BorrowCarry(c: nat)
    requires c < TWO64
    ensures ((c - 1) % TWO64 + 1) % TWO64 == c
  {}

  // ---- hashing ----

  /** hashBlocks: whole blocks with one flag, the counter moved on before each. */
  method HashBlocks<S(!new)>(core: Core<S>, h: S, c: (nat, nat), last: bool, blocks: seq<byte>, ghost t: nat)
    returns (h': S, c': (nat, nat))
    requires Aligned(|blocks|) && (!last ==> c == (Lo(t), Hi(t))) && (last ==> |blocks| == BLOCK)
    ensures !last ==> h' == Blocks(core, h, t, blocks) && c' == (Lo(t + |blocks|), Hi(t + |blocks|))
    ensures last ==> h' == core.f(h, blocks, Bump(c).0, Bump(c).1, true)
  {
    hide Lo;
    hide Hi;
    hide Bump;
    h', c' := h, c;
    var i := 0;
    assert blocks[0..] == blocks;
    while i < |blocks|
      invariant 0 <= i <= |blocks| && i % BLOCK == 0
      invariant !last ==> c' == (Lo(t + i), Hi(t + i))
      invariant !last ==> Blocks(core, h, t, blocks) == Blocks(core, h', t + i, blocks[i..])
      invariant last ==> if i == 0 then h' == h && c' == c else h' == core.f(h, blocks, Bump(c).0, Bump(c).1, true)
    {
      BumpCounts(t + i);
      Whole(i, |blocks|);
      c' := Bump(c');
      var m := blocks[i..i + BLOCK];
      assert m == blocks[i..][..BLOCK] && blocks[i..][BLOCK..] == blocks[i + BLOCK..];
      assert |blocks| == BLOCK ==> m == blocks;
      h' := core.f(h', m, c'.0, c'.1, last);
      i := i + BLOCK;
    }
  }

  lemma Whole(i: nat, n: nat)
    requires i < n && i % BLOCK == 0 && n % BLOCK == 0
    ensures i + BLOCK <= n && (n - i) % BLOCK == 0 && (i + BLOCK) % BLOCK == 0 && (n - i - BLOCK) % BLOCK == 0
  {}

  /** The part of a long input that is hashed at once: whole blocks, with something left over. */
  function Bulk(n: nat): (r: nat)
    requires n > BLOCK
    ensures Aligned(r) && 0 < n - r <= BLOCK
  {
    if n % BLOCK == 0 then n - BLOCK else n - n % BLOCK
  }

  /** The last block: the padding is taken off the counter before the block is added. */
  method LastBlock<S(!new)>(core: Core<S>, h: S, c: (nat, nat), m: seq<byte>, ghost t: nat) returns (r: S)
    requires |m| <= BLOCK && c == (Lo(t), Hi(t))
    ensures r == Absorb(core, h, t, m)
  {
    hide Lo;
    hide Hi;
    hide Bump;
    hide Retract;
    var block := Pad(m);
    CounterWords(t);
    var c' := Retract(c, BLOCK - |m|);
    LastCounts(t, |m|);
    r, c' := HashBlocks(core, h, c', true, block, t);
  }

  lemma CounterWords(t: nat)
    ensures Lo(t) < TWO64 && Hi(t) < TWO64
  {}

  /** checkSum: the digest of a whole message. */
  method CheckSum<S(!new)>(core: Core<S>, size: nat, data: seq<byte>) returns (sum: seq<byte>)
    requires size <= SIZE && core.Valid()
    ensures |sum| == SIZE && sum[..size] == Hash(core, size, [], data)
  {
    hide Lo;
    hide Hi;
    hide Absorb;
    var h, c, rest := core.init(size, 0), (0, 0), data;
    CounterStart();
    ghost var t := 0;
    assert data[..0] + data == data;
    assert KeyBlock([]) + data == data;
    if |data| > BLOCK {
      var n := Bulk(|data|);
      h, c := HashBlocks(core, h, c, false, data[..n], 0);
      rest := data[n..];
      t := n;
      AbsorbSplit(core, core.init(size, 0), 0, data[..n], data[n..]);
      assert data[..n] + data[n..] == data;
    }
    h := LastBlock(core, h, c, rest, t);
    var words := 8 * ((size + 7) / 8);
    var full := core.out(h);
    sum := full[..words] + seq(SIZE - words, _ => 0);
  }

  lemma CounterStart()
    ensures Lo(0) == 0 && Hi(0) == 0
  {}

  // ---- streaming ----

  lemma FullBlock(msg: seq<byte>, done: nat, p: seq<byte>, blk: seq<byte>)
    requires done <= |msg| && Aligned(done) && blk == msg[done..] + p && |blk| == BLOCK
    ensures msg + p == msg[..done] + blk && |msg + p| == done + BLOCK && Aligned(BLOCK)
  {}

  lemma NoBlocks<S(!new)>(core: Core<S>, h: S)
    ensures Aligned(0) && Blocks(core, h, 0, []) == h
  {}

  lemma Rejoin(m: seq<byte>, p: seq<byte>, n: nat)
    requires n <= |p|
    ensures m + p[..n] + p[n..] == m + p
  {}

  class Digest<S(!new)> {
    const core: Core<S>
    const size: nat
    const key: seq<byte>
    const block: array<byte>
    var h: S
    var c: (nat, nat)
    var offset: nat
    ghost var msg: seq<byte>

    /**
     * Of everything written so far, the last block, be it full or not, is still in the buffer; the
     * whole blocks before it have been hashed.
     */
    ghost predicate Valid()
      reads this, block
    {
      && core.Valid() && size <= SIZE && |key| <= SIZE && block.Length == BLOCK && offset <= BLOCK && offset <= |msg|
      && (|msg| > 0 ==> offset > 0)
      && var done := |msg| - offset;
      && Aligned(done) && c == (Lo(done), Hi(done))
      && h == Blocks(core, core.init(size, |key|), 0, msg[..done]) && block[..offset] == msg[done..]
    }

    /** newDigest. */
    constructor (core: Core<S>, size: nat, key: seq<byte>)
      requires core.Valid() && size <= SIZE && |key| <= SIZE
      ensures Valid() && this.core == core && this.size == size && this.key == key && msg == KeyBlock(key)
      ensures fresh(block)
    {
      this.core, this.size, this.key := core, size, key;
      var buffer := new byte[BLOCK](_ => 0);
      block := buffer;
      h, c, offset, msg := core.init(size, |key|), (0, 0), 0, [];
      new;
      Reset();
    }

    /** Reset: nothing written, except that a key fills the first block. */
    method Reset()
      requires core.Valid() && size <= SIZE && |key| <= SIZE && block.Length == BLOCK
      modifies this, block
      ensures Valid() && msg == KeyBlock(key)
    {
      hide Lo;
      hide Hi;
      hide Blocks;
      hide Pad;
      hide Aligned;
      h, c, offset := core.init(size, |key|), (0, 0), 0;
      msg := KeyBlock(key);
      CounterStart();
      NoBlocks(core, h);
      if |key| > 0 {
        Fill(0, Pad(key));
        offset := BLOCK;
        assert block[..0] == [];
      }
      assert msg[..0] == [];
    }

    /** copy(block[at:], p), where p fits. */
    method Fill(at: nat, p: seq<byte>)
      requires at + |p| <= block.Length
      modifies block
      ensures block[..at + |p|] == old(block[..at]) + p
    {
      forall i | 0 <= i < |p| {
        block[at + i] := p[i];
      }
      assert block[..at] == old(block[..at]);
      assert block[at..at + |p|] == p;
      assert block[..at + |p|] == block[..at] + block[at..at + |p|];
    }

    /** Everything written has been hashed. */
    ghost predicate Drained()
      reads this, block
    {
      && core.Valid() && size <= SIZE && |key| <= SIZE && block.Length == BLOCK && offset == 0 && Aligned(|msg|)
      && c == (Lo(|msg|), Hi(|msg|)) && h == Blocks(core, core.init(size, |key|), 0, msg)
    }

    /** Write: appends to what has been written. */
    method Write(p: seq<byte>) returns (n: nat)
      requires Valid()
      modifies this, block
      ensures Valid() && msg == old(msg) + p && n == |p|
    {
      hide Aligned;
      hide Blocks;
      hide Lo;
      hide Hi;
      n := |p|;
      if offset == 0 {
        assert msg[..0] == msg == [];
        WriteRest(p);
        return;
      }
      var remaining := BLOCK - offset;
      ghost var done := |msg| - offset;
      if n <= remaining {
        Fill(offset, p);
        offset := offset + n;
        msg := msg + p;
        assert msg[..done] == old(msg)[..done];
        assert msg[done..] == old(msg)[done..] + p;
        return;
      }
      FlushFull(p[..remaining]);
      WriteRest(p[remaining..]);
      Rejoin(old(msg), p, remaining);
    }

    /** The buffer is filled up and hashed; more is to come. */
    method FlushFull(p: seq<byte>)
      requires Valid() && 0 < offset && offset + |p| == BLOCK
      modifies this, block
      ensures Drained() && msg == old(msg) + p
    {
      hide Aligned;
      hide Blocks;
      hide Lo;
      hide Hi;
      ghost var done := |msg| - offset;
      Fill(offset, p);
      assert block[..] == block[..BLOCK];
      FullBlock(msg, done, p, block[..]);
      BlocksConcat(core, core.init(size, |key|), 0, msg[..done], block[..]);
      h, c := HashBlocks(core, h, c, false, block[..], done);
      offset := 0;
      msg := msg + p;
    }

    /** What does not go into a buffer with something in it: whole blocks are hashed, the last is kept. */
    method WriteRest(p: seq<byte>)
      requires Drained() && (msg != [] ==> p != [])
      modifies this, block
      ensures Valid() && msg == old(msg) + p
    {
      hide Aligned;
      hide Bulk;
      hide Blocks;
      hide Lo;
      hide Hi;
      if |p| > BLOCK {
        var nn := Bulk(|p|);
        BlocksConcat(core, core.init(size, |key|), 0, msg, p[..nn]);
        h, c := HashBlocks(core, h, c, false, p[..nn], |msg|);
        msg := msg + p[..nn];
        KeepLast(p[nn..]);
        Rejoin(old(msg), p, nn);
      } else {
        KeepLast(p);
      }
    }

    /** At most a block is put into the empty buffer. */
    method KeepLast(p: seq<byte>)
      requires Drained() && |p| <= BLOCK && (msg != [] ==> p != [])
      modifies this`offset, this`msg, block
      ensures Valid() && msg == old(msg) + p
    {
      hide Aligned;
      hide Blocks;
      hide Lo;
      hide Hi;
      if |p| > 0 {
        Fill(0, p);
        offset := |p|;
      }
      msg := msg + p;
      assert msg[..|old(msg)|] == old(msg) && msg[|old(msg)|..] == p;
      assert block[..0] == [];
    }

    /** Sum: the digest of the key block and everything written. The digest itself is not changed. */
    method Sum(sum: seq<byte>) returns (r: seq<byte>)
      requires Valid()
      ensures r == sum + core.out(Absorb(core, core.init(size, |key|), 0, msg))[..size]
    {
      hide Lo;
      hide Hi;
      hide Absorb;
      hide Aligned;
      hide Blocks;
      ghost var done := |msg| - offset;
      AbsorbSplit(core, core.init(size, |key|), 0, msg[..done], msg[done..]);
      assert msg[..done] + msg[done..] == msg;
      var last := LastBlock(core, h, c, block[..offset], done);
      r := sum + core.out(last)[..size];
    }
  }

  /** Writing a message in any pieces gives the digest of the whole, which for no key is what checkSum computes. */
  method Stream<S(!new)>(core: Core<S>, size: nat, key: seq<byte>, parts: seq<seq<byte>>) returns (r: seq<byte>)
    requires core.Valid() && size <= SIZE && |key| <= SIZE
    ensures r == Hash(core, size, key, Flat(parts))
  {
    hide Lo;
    hide Hi;
    hide Absorb;
    hide Blocks;
    hide KeyBlock;
    hide Flat;
    var d := new Digest(core, size, key);
    FlatStart(KeyBlock(key), parts);
    for i := 0 to |parts|
      invariant d.Valid() && fresh(d) && fresh(d.block) && d.core == core && d.size == size && d.key == key
      invariant d.msg == KeyBlock(key) + Flat(parts[..i])
    {
      var _ := d.Write(parts[i]);
      FlatStep(KeyBlock(key), parts, i);
    }
    r := d.Sum([]);
  }

  function Flat(parts: seq<seq<byte>>): (m: seq<byte>) {
    if parts == [] then [] else parts[0] + Flat(parts[1..])
  }

  lemma FlatStart(k: seq<byte>, parts: seq<seq<byte>>)
    ensures k == k + Flat(parts[..0]) && Flat(parts[..|parts|]) == Flat(parts)
  {
    assert parts[..|parts|] == parts;
  }

  lemma FlatStep(k: seq<byte>, parts: seq<seq<byte>>, i: nat)
    requires i < |parts|
    ensures k + Flat(parts[..i]) + parts[i] == k + Flat(parts[..i + 1])
  {
    assert parts[..i + 1] == parts[..i] + [parts[i]];
    FlatSnoc(parts[..i], parts[i]);
  }

  lemma {:induction false} FlatSnoc(parts: seq<seq<byte>>, p: seq<byte>)
    ensures Flat(parts + [p]) == Flat(parts) + p
  {
    if parts == [] {
      assert Flat([p]) == p + Flat([p][1..]);
    } else {
      FlatSnoc(parts[1..], p);
      assert (parts + [p])[1..] == parts[1..] + [p];
    }
  }
}
