/** `_sbrk`: the break moves in [_end, _heap_end], and the blocks handed out tile what lies below it. */
module Heap {
  import opened Words

  /** The linker's symbols: both lie in RAM, which starts at 0x20000000. */
  datatype Layout = Layout(end: nat, heapEnd: nat)

  predicate Linked(l: Layout) {
    0x2000_0000 <= l.end <= l.heapEnd < 0x8000_0000
  }

  type Increment = x: int | -0x8000_0000 <= x < 0x8000_0000

  /** `NULL - 1`. */
  const FAILED: nat := 0xFFFF_FFFF

  /** Whether a call succeeds, over the integers. */
  predicate Fits(l: Layout, brk: nat, incr: int) {
    l.end <= brk + incr <= l.heapEnd
  }

  /** The pointer sums wrap at 2^32, but a wrapped sum can never pass both comparisons. */
  lemma WrappedSumNeverFits(l: Layout, brk: nat, incr: Increment)
    requires Linked(l) && l.end <= brk <= l.heapEnd
    ensures l.end <= (brk + incr) % U32 <= l.heapEnd <==> Fits(l, brk, incr)
    ensures Fits(l, brk, incr) ==> (brk + incr) % U32 == brk + incr
  {
    if brk + incr < 0 {
      assert (brk + incr) % U32 == brk + incr + U32;
    } else {
      assert (brk + incr) % U32 == brk + incr;
    }
  }

  // ---- Runs of calls ----

  /** The break after a sequence of calls from start-up. */
  function Break(l: Layout, calls: seq<Increment>): nat
    requires l.end <= l.heapEnd
    ensures l.end <= Break(l, calls) <= l.heapEnd
  {
    if calls == [] then l.end
    else
      var brk, incr := Break(l, calls[..|calls| - 1]), calls[|calls| - 1];
      if Fits(l, brk, incr) then brk + incr else brk
  }

  /** Whether call k succeeded. */
  predicate Granted(l: Layout, calls: seq<Increment>, k: nat)
    requires l.end <= l.heapEnd && k < |calls|
  {
    Fits(l, Break(l, calls[..k]), calls[k])
  }

  /** The sum of the increments of the successful calls among the first n. */
  function GrantedSum(l: Layout, calls: seq<Increment>, n: nat): int
    requires l.end <= l.heapEnd && n <= |calls|
  {
    if n == 0 then 0 else GrantedSum(l, calls, n - 1) + if Granted(l, calls, n - 1) then calls[n - 1] else 0
  }

  lemma BreakNext(l: Layout, calls: seq<Increment>, n: nat)
    requires l.end <= l.heapEnd && n < |calls|
    ensures Break(l, calls[..n + 1])
         == Break(l, calls[..n]) + if Granted(l, calls, n) then calls[n] else 0
  {
    assert calls[..n + 1][..n] == calls[..n];
  }

  /** The break is _end plus the sum of the successful increments. */
  lemma {:induction false} BreakIsSum(l: Layout, calls: seq<Increment>, n: nat)
    requires l.end <= l.heapEnd && n <= |calls|
    ensures Break(l, calls[..n]) == l.end + GrantedSum(l, calls, n)
  {
    if n == 0 {
    } else {
      BreakIsSum(l, calls, n - 1);
      BreakNext(l, calls, n - 1);
    }
  }

  // ---- The blocks handed out ----

  /** What is left of the block call `call` obtained. */
  datatype Block = Block(start: nat, size: nat, call: nat)

  /** Lowering the break to `brk` releases the blocks above it and trims the one across it. */
  function Trim(blocks: seq<Block>, brk: nat): seq<Block> {
    if blocks == [] then []
    else
      var last := blocks[|blocks| - 1];
      if last.start >= brk then Trim(blocks[..|blocks| - 1], brk)
      else if last.start + last.size > brk then blocks[..|blocks| - 1] + [last.(size := brk - last.start)]
      else blocks
  }

  /** What one call makes of the blocks below a break at `brk`. */
  function AfterCall(l: Layout, blocks: seq<Block>, brk: nat, incr: Increment, call: nat): seq<Block> {
    if !Fits(l, brk, incr) || incr == 0 then blocks
    else if incr > 0 then blocks + [Block(brk, incr, call)]
    else Trim(blocks, brk + incr)
  }

  /** The blocks after a run, oldest first. */
  function Blocks(l: Layout, calls: seq<Increment>): seq<Block>
    requires l.end <= l.heapEnd
  {
    if calls == [] then []
    else
      var n := |calls| - 1;
      AfterCall(l, Blocks(l, calls[..n]), Break(l, calls[..n]), calls[n], n)
  }

  /** The blocks are non-empty and cover [lo, hi) without gap or overlap. */
  predicate Tiles(blocks: seq<Block>, lo: nat, hi: nat) {
    if blocks == [] then lo == hi
    else
      var last := blocks[|blocks| - 1];
      last.size > 0 && last.start + last.size == hi && Tiles(blocks[..|blocks| - 1], lo, last.start)
  }

  lemma TilesNext(blocks: seq<Block>, b: Block, lo: nat)
    requires Tiles(blocks, lo, b.start) && b.size > 0
    ensures Tiles(blocks + [b], lo, b.start + b.size)
  {
    assert (blocks + [b])[..|blocks|] == blocks;
  }

  lemma {:induction false} TrimTiles(blocks: seq<Block>, lo: nat, hi: nat, brk: nat)
    requires Tiles(blocks, lo, hi) && lo <= brk <= hi
    ensures Tiles(Trim(blocks, brk), lo, brk)
  {
    if blocks == [] {
    } else {
      var init, last := blocks[..|blocks| - 1], blocks[|blocks| - 1];
      if last.start >= brk {
        TrimTiles(init, lo, last.start, brk);
      } else if last.start + last.size > brk {
        TilesNext(init, last.(size := brk - last.start), lo);
      }
    }
  }

  /** Main result: after any run of calls, what is left of the blocks tiles exactly [_end, break). */
  lemma {:induction false} BlocksTile(l: Layout, calls: seq<Increment>)
    requires l.end <= l.heapEnd
    ensures Tiles(Blocks(l, calls), l.end, Break(l, calls))
  {
    if calls == [] {
    } else {
      var n := |calls| - 1;
      var blocks, brk, incr := Blocks(l, calls[..n]), Break(l, calls[..n]), calls[n];
      BlocksTile(l, calls[..n]);
      if Fits(l, brk, incr) && incr > 0 {
        TilesNext(blocks, Block(brk, incr, n), l.end);
      } else if Fits(l, brk, incr) && incr < 0 {
        TrimTiles(blocks, l.end, brk, brk + incr);
      }
    }
  }

  /** Tiling blocks are in order, disjoint and within bounds. */
  lemma {:induction false} TilesAreDisjoint(blocks: seq<Block>, lo: nat, hi: nat)
    requires Tiles(blocks, lo, hi)
    ensures lo <= hi
    ensures forall j | 0 <= j < |blocks| :: lo <= blocks[j].start && blocks[j].start + blocks[j].size <= hi
    ensures forall i, j | 0 <= i < j < |blocks| :: blocks[i].start + blocks[i].size <= blocks[j].start
    decreases |blocks|
  {
    if blocks == [] {
    } else {
      var init, last := blocks[..|blocks| - 1], blocks[|blocks| - 1];
      TilesAreDisjoint(init, lo, last.start);
      assert forall j | 0 <= j < |init| :: blocks[j] == init[j];
    }
  }

  lemma {:induction false} TrimKeepsBelow(blocks: seq<Block>, lo: nat, hi: nat, brk: nat, b: Block)
    requires Tiles(blocks, lo, hi) && b in blocks && b.start + b.size <= brk
    ensures b in Trim(blocks, brk)
    decreases |blocks|
  {
    var init, last := blocks[..|blocks| - 1], blocks[|blocks| - 1];
    if b in init {
      if last.start >= brk { TrimKeepsBelow(init, lo, last.start, brk, b); }
    } else {
      assert b == last;
    }
  }

  lemma CallKeepsBlock(l: Layout, blocks: seq<Block>, brk: nat, incr: Increment, call: nat, b: Block)
    requires Tiles(blocks, l.end, brk) && b in blocks
    requires Fits(l, brk, incr) ==> b.start + b.size <= brk + incr
    ensures b in AfterCall(l, blocks, brk, incr, call)
  {
    if Fits(l, brk, incr) && incr < 0 { TrimKeepsBelow(blocks, l.end, brk, brk + incr, b); }
  }

  lemma BlocksNext(l: Layout, before: seq<Increment>, incr: Increment)
    requires l.end <= l.heapEnd
    ensures Blocks(l, before + [incr]) == AfterCall(l, Blocks(l, before), Break(l, before), incr, |before|)
  {
    assert (before + [incr])[..|before|] == before;
  }

  /** A block from a successful positive call is still whole after n calls if the break has not moved below
      its end. */
  lemma {:induction false} BlockStaysWhole(l: Layout, calls: seq<Increment>, k: nat, n: nat)
    requires l.end <= l.heapEnd && k < n <= |calls| && Granted(l, calls, k) && calls[k] > 0
    requires forall m | k < m <= n :: Break(l, calls[..m]) >= Break(l, calls[..k]) + calls[k]
    ensures Block(Break(l, calls[..k]), calls[k], k) in Blocks(l, calls[..n])
    decreases n
  {
    var b := Block(Break(l, calls[..k]), calls[k], k);
    var before, brk := calls[..n - 1], Break(l, calls[..n - 1]);
    assert calls[..n] == before + [calls[n - 1]];
    BlocksNext(l, before, calls[n - 1]);
    if k == n - 1 {
    } else {
      BlockStaysWhole(l, calls, k, n - 1);
      BreakNext(l, calls, n - 1);
      BlocksTile(l, before);
      CallKeepsBlock(l, Blocks(l, before), brk, calls[n - 1], n - 1, b);
    }
  }

  /** Two blocks that were never shrunk away do not overlap, and lie in the heap. */
  lemma LiveBlocksAreDisjoint(l: Layout, calls: seq<Increment>, i: nat, j: nat)
    requires l.end <= l.heapEnd && i < |calls| && j < |calls| && i != j
    requires Granted(l, calls, i) && calls[i] > 0 && Granted(l, calls, j) && calls[j] > 0
    requires forall m | i < m <= |calls| :: Break(l, calls[..m]) >= Break(l, calls[..i]) + calls[i]
    requires forall m | j < m <= |calls| :: Break(l, calls[..m]) >= Break(l, calls[..j]) + calls[j]
    ensures
      || Break(l, calls[..i]) + calls[i] <= Break(l, calls[..j])
      || Break(l, calls[..j]) + calls[j] <= Break(l, calls[..i])
    ensures Break(l, calls[..i]) + calls[i] <= Break(l, calls)
  {
    assert calls[..|calls|] == calls;
    BlockStaysWhole(l, calls, i, |calls|);
    BlockStaysWhole(l, calls, j, |calls|);
    BlocksTile(l, calls);
    TilesAreDisjoint(Blocks(l, calls), l.end, Break(l, calls));
  }

  /** Giving back what the last call obtained undoes it: break and blocks are as before. */
  lemma GiveBack(l: Layout, calls: seq<Increment>, incr: Increment)
    requires l.end <= l.heapEnd && incr > 0 && Fits(l, Break(l, calls), incr)
    ensures Break(l, calls + [incr, -incr]) == Break(l, calls)
    ensures Blocks(l, calls + [incr, -incr]) == Blocks(l, calls)
  {
    var brk := Break(l, calls);
    var grown := calls + [incr];
    assert grown[..|calls|] == calls;
    var both := calls + [incr, -incr];
    assert both[..|grown|] == grown;
    BlocksTile(l, calls);
    assert Trim(Blocks(l, calls), brk) == Blocks(l, calls);
    assert Blocks(l, grown)[..|Blocks(l, calls)|] == Blocks(l, calls);
  }

  // ---- The function ----

  class Sbrk {
    const layout: Layout
    var curbrk: nat
    ghost var calls: seq<Increment>

    ghost predicate Valid()
      reads this
    {
      Linked(layout) && curbrk == Break(layout, calls)
    }

    constructor (layout: Layout)
      requires Linked(layout)
      ensures Valid() && this.layout == layout && calls == []
    {
      this.layout := layout;
      curbrk := layout.end;
      calls := [];
    }

    /** `_sbrk`: the old break, or `FAILED` with nothing changed, exactly when the new break would leave the heap. */
    method Call(incr: Increment) returns (p: nat)
      requires Valid()
      modifies this
      ensures Valid() && calls == old(calls) + [incr]
      ensures p == (if layout.end <= old(curbrk) + incr <= layout.heapEnd then old(curbrk) else 0xFFFF_FFFF)
      ensures p == 0xFFFF_FFFF <==> !(layout.end <= old(curbrk) + incr <= layout.heapEnd)
      ensures curbrk == if p == 0xFFFF_FFFF then old(curbrk) else old(curbrk) + incr
      ensures p == 0xFFFF_FFFF ==> curbrk == old(curbrk) && Blocks(layout, calls) == Blocks(layout, old(calls))
    {
      WrappedSumNeverFits(layout, curbrk, incr);
      calls := calls + [incr];
      assert calls[..|calls| - 1] == old(calls);
      if (curbrk + incr) % U32 < layout.end || (curbrk + incr) % U32 > layout.heapEnd {
        return FAILED;
      }
      curbrk := (curbrk + incr) % U32;
      return (curbrk - incr) % U32;
    }
  }
}
