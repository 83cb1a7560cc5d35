/**
 * The block-based stack behind the heaps (common/prque/sstack.go): a list of fixed-size blocks, with
 * the one in use kept at hand, that behaves as one flat sequence. Every element's position is
 * reported to the owner as it changes.
 */
module SStack {
  import opened Bytes

  const BLOCK_SIZE: nat := 4096

  const TWO63: int := 0x8000_0000_0000_0000

  datatype Item<D> = Item(value: D, priority: int)

  // ---- the order ----

  /** 64-bit subtraction. */
  function Sub64(a: int, b: int): (r: int) {
    (a - b + TWO63) % (2 * TWO63) - TWO63
  }

  /** Less compares by subtraction: higher priorities come first. */
  predicate Before(a: int, b: int) {
    Sub64(a, b) > 0
  }

  /** Subtraction compares 64-bit numbers exactly if their difference is a 64-bit number. */
  lemma BeforeExact(a: int, b: int)
    requires -TWO63 <= a < TWO63 && -TWO63 <= b < TWO63
    ensures (Before(a, b) <==> a > b) <==> -TWO63 <= a - b < TWO63
  {
    var d := a - b;
    if d >= TWO63 {
      assert Sub64(a, b) == d - 2 * TWO63;
    } else if d < -TWO63 {
      assert Sub64(a, b) == d + 2 * TWO63;
    }
  }

  /** It does for numbers within 2^63 of each other. */
  lemma BeforeIsGreater(a: int, b: int)
    requires -TWO63 < a - b < TWO63
    ensures Before(a, b) <==> a > b
  {}

  /** It does not for the two extremes. */
  lemma BeforeWraps()
    ensures !Before(TWO63 - 1, -TWO63) && Before(-TWO63, TWO63 - 1)
  {}

  // ---- reported positions ----

  /** Who hears about positions: the owner through setIndex0 or setIndex1, or nobody. */
  datatype Side = Zero | One | Silent

  /** The owner's record: the index last reported for a value. */
  class Reports<D(==)> {
    var index: map<D, int>

    constructor ()
      ensures index == map[]
    {
      index := map[];
    }
  }

  /** setIndex0 and setIndex1: the position in one of the two stacks, made virtual. */
  function SetIndex(side: Side, index: int): (v: int) {
    if side.Zero? then
      if index == -1 then -1 else index + index
    else index + index + 1
  }

  function Noted<D(==)>(side: Side, index: map<D, int>, d: D, pos: int): (r: map<D, int>) {
    if side.Silent? then index else index[d := SetIndex(side, pos)]
  }

  /** The index last reported for every value is that of its position. */
  ghost predicate Reported<D(!new)>(side: Side, items: seq<Item<D>>, index: map<D, int>) {
    !side.Silent? ==>
      forall i :: 0 <= i < |items| ==> items[i].value in index && index[items[i].value] == SetIndex(side, i)
  }

  ghost predicate Absent<D(!new)>(items: seq<Item<D>>, d: D) {
    forall i :: 0 <= i < |items| ==> items[i].value != d
  }

  lemma ReportPush<D(!new)>(side: Side, items: seq<Item<D>>, index: map<D, int>, x: Item<D>)
    requires Reported(side, items, index) && Absent(items, x.value)
    ensures Reported(side, items + [x], Noted(side, index, x.value, |items|))
  {}

  lemma ReportPop<D(!new)>(side: Side, items: seq<Item<D>>, index: map<D, int>, x: Item<D>)
    requires Reported(side, items + [x], index)
    ensures Reported(side, items, Noted(side, index, x.value, -1)) && (!side.Silent? ==> Absent(items, x.value))
  {
    var all := items + [x];
    assert all[|items|] == x && forall i :: 0 <= i < |items| ==> all[i] == items[i];
  }

  function Exchanged<D>(items: seq<Item<D>>, i: nat, j: nat): (r: seq<Item<D>>)
    requires i < |items| && j < |items|
    ensures |r| == |items|
  {
    items[i := items[j]][j := items[i]]
  }

  lemma ReportSwap<D(!new)>(side: Side, items: seq<Item<D>>, index: map<D, int>, i: nat, j: nat)
    requires Reported(side, items, index) && i < |items| && j < |items|
    ensures Reported(side, Exchanged(items, i, j),
      Noted(side, Noted(side, index, items[j].value, i), items[i].value, j))
  {}

  // ---- blocks ----

  /** Where a flat position lies. */
  lemma Position(cur: nat, offset: nat)
    ensures offset < BLOCK_SIZE ==>
      (cur * BLOCK_SIZE + offset) / BLOCK_SIZE == cur && (cur * BLOCK_SIZE + offset) % BLOCK_SIZE == offset
  {}

  lemma Inside(i: nat, n: nat)
    requires i < n * BLOCK_SIZE
    ensures i / BLOCK_SIZE < n && i % BLOCK_SIZE < BLOCK_SIZE
  {}

  lemma SamePlace(i: nat, j: nat)
    requires i / BLOCK_SIZE == j / BLOCK_SIZE && i % BLOCK_SIZE == j % BLOCK_SIZE
    ensures i == j
  {}

  class Stack<D(!new, ==)> {
    const side: Side
    const reports: Reports<D>
    var size: nat
    var capacity: nat
    var offset: int
    var blocks: seq<array<Option<Item<D>>>>
    var active: array<Option<Item<D>>>
    ghost var cur: nat
    ghost var items: seq<Item<D>>

    /** The blocks are separate, and the active one is that of the next or the last position. */
    ghost predicate Shape()
      reads this
    {
      && (forall k :: 0 <= k < |blocks| ==> blocks[k].Length == BLOCK_SIZE)
      && (forall k, l :: 0 <= k < l < |blocks| ==> blocks[k] != blocks[l])
      && capacity == |blocks| * BLOCK_SIZE && size <= capacity
      && cur < |blocks| && active == blocks[cur] && 0 <= offset <= BLOCK_SIZE && size == cur * BLOCK_SIZE + offset
    }

    ghost function Cell(i: nat): (c: Option<Item<D>>)
      requires Shape() && i < capacity
      reads this, blocks
    {
      Inside(i, |blocks|);
      blocks[i / BLOCK_SIZE][i % BLOCK_SIZE]
    }

    /** The flat sequence is what the cells in use hold. */
    ghost predicate Valid()
      reads this, blocks
    {
      Shape() && |items| == size && forall i :: 0 <= i < size ==> Cell(i) == Some(items[i])
    }

    constructor (side: Side, reports: Reports<D>)
      ensures Valid() && items == [] && this.side == side && this.reports == reports && |blocks| == 1
      ensures fresh(blocks[0])
    {
      var first := new Option<Item<D>>[BLOCK_SIZE](_ => None);
      this.side, this.reports := side, reports;
      active, blocks, capacity, size, offset := first, [first], BLOCK_SIZE, 0, 0;
      cur, items := 0, [];
    }

    /** Push: a full stack grows by a block; a full active block gives way to the next one. */
    method Push(x: Item<D>)
      requires Valid()
      modifies this, blocks, reports
      ensures Valid() && items == old(items) + [x] && forall b :: b in blocks ==> b in old(blocks) || fresh(b)
      ensures reports.index == Noted(side, old(reports.index), x.value, |old(items)|)
    {
      hide Noted;
      MakeRoom();
      reports.index := Noted(side, reports.index, x.value, size);
      Position(cur, offset);
      Others(size);
      active[offset] := Some(x);
      items := items + [x];
      offset := offset + 1;
      size := size + 1;
    }

    /** The active block has a free cell at the next position. */
    method MakeRoom()
      requires Valid()
      modifies this
      ensures Valid() && items == old(items) && size == old(size) && size < capacity && 0 <= offset < BLOCK_SIZE
      ensures |blocks| >= |old(blocks)| && blocks[..|old(blocks)|] == old(blocks)
      ensures forall k :: |old(blocks)| <= k < |blocks| ==> fresh(blocks[k])
    {
      if size == capacity {
        Grow();
      } else if offset == BLOCK_SIZE {
        Position(cur + 1, 0);
        cur := cur + 1;
        active := blocks[size / BLOCK_SIZE];
        offset := 0;
      }
    }

    /** A new block is added and becomes the active one. */
    method Grow()
      requires Valid() && size == capacity
      modifies this
      ensures Valid() && items == old(items) && size == old(size) && size < capacity && 0 <= offset < BLOCK_SIZE
      ensures |blocks| == |old(blocks)| + 1 && blocks[..|blocks| - 1] == old(blocks) && fresh(blocks[|blocks| - 1])
    {
      active := new Option<Item<D>>[BLOCK_SIZE](_ => None);
      blocks := blocks + [active];
      capacity := capacity + BLOCK_SIZE;
      offset, cur := 0, |blocks| - 1;
      forall i | 0 <= i < size
        ensures Cell(i) == Some(items[i])
      {
        Inside(i, |blocks| - 1);
      }
    }

    /** Other positions than the given one lie in other cells. */
    lemma Others(n: nat)
      requires Shape() && n < capacity
      ensures forall i :: 0 <= i < capacity && i != n ==>
        i / BLOCK_SIZE < |blocks| && (i / BLOCK_SIZE != n / BLOCK_SIZE || i % BLOCK_SIZE != n % BLOCK_SIZE)
    {
      forall i | 0 <= i < capacity && i != n
        ensures i / BLOCK_SIZE < |blocks| && (i / BLOCK_SIZE != n / BLOCK_SIZE || i % BLOCK_SIZE != n % BLOCK_SIZE)
      {
        Inside(i, |blocks|);
        if i / BLOCK_SIZE == n / BLOCK_SIZE && i % BLOCK_SIZE == n % BLOCK_SIZE {
          SamePlace(i, n);
        }
      }
    }

    /** Pop: the last position, which may lie in the block before the active one. */
    method Pop() returns (x: Item<D>)
      requires Valid() && size > 0
      modifies this, blocks, reports
      ensures Valid() && old(items) == items + [x] && blocks == old(blocks)
      ensures reports.index == Noted(side, old(reports.index), x.value, -1)
    {
      hide Noted;
      StepBack();
      Others(size);
      assert Cell(size) == Some(items[size]);
      x := active[offset].value;
      active[offset] := None;
      reports.index := Noted(side, reports.index, x.value, -1);
      items := items[..size];
    }

    method StepBack()
      requires Valid() && size > 0
      modifies `size, `offset, `active, `cur
      ensures Shape() && size == old(size) - 1 && size / BLOCK_SIZE == cur && size % BLOCK_SIZE == offset
      ensures forall i :: 0 <= i <= size ==> Cell(i) == Some(items[i])
    {
      ghost var n := size - 1;
      assert Cell(n) == Some(items[n]);
      size := size - 1;
      offset := offset - 1;
      if offset < 0 {
        offset := BLOCK_SIZE - 1;
        cur := cur - 1;
        Position(cur, offset);
        active := blocks[size / BLOCK_SIZE];
      }
      Position(cur, offset);
    }

    /** Swap: the cells of two flat positions are exchanged. */
    method Swap(i: nat, j: nat)
      requires Valid() && i < size && j < size
      modifies this, blocks, reports
      ensures Valid() && items == Exchanged(old(items), i, j) && blocks == old(blocks)
      ensures reports.index ==
        Noted(side, Noted(side, old(reports.index), old(items)[j].value, i), old(items)[i].value, j)
    {
      hide Noted;
      Inside(i, |blocks|);
      Inside(j, |blocks|);
      Others(i);
      Others(j);
      var (ib, io, jb, jo) := (i / BLOCK_SIZE, i % BLOCK_SIZE, j / BLOCK_SIZE, j % BLOCK_SIZE);
      assert Cell(i) == Some(items[i]) && Cell(j) == Some(items[j]);
      var a, b := blocks[jb][jo], blocks[ib][io];
      reports.index := Noted(side, Noted(side, reports.index, a.value.value, i), b.value.value, j);
      blocks[ib][io] := a;
      blocks[jb][jo] := b;
      items := Exchanged(items, i, j);
    }

    /** The element at a flat position. */
    method At(i: nat) returns (x: Item<D>)
      requires Valid() && i < size
      ensures x == items[i]
    {
      Inside(i, |blocks|);
      assert Cell(i) == Some(items[i]);
      x := blocks[i / BLOCK_SIZE][i % BLOCK_SIZE].value;
    }

    /** Less: by subtraction of the priorities. */
    method Less(i: nat, j: nat) returns (less: bool)
      requires Valid() && i < size && j < size
      ensures less == Before(items[i].priority, items[j].priority)
    {
      var a := At(i);
      var b := At(j);
      less := Before(a.priority, b.priority);
    }
  }
}
