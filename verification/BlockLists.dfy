/**
The sorted interval lists of the memory arena (src/lower-half/mem-wrapper.cpp): the loops that
merge a range into a list, and remove a range from it, in place.  A list is proved against the
set of addresses that it covers.
*/
module BlockLists {
  import opened Common

  /** MmapInfo_t: the range [addr, addr + len). */
  datatype Block = Block(addr: int, len: nat) {
    function End(): int { addr + len }
    predicate Has(a: int) { addr <= a < End() }
  }

  predicate Covers(blocks: seq<Block>, a: int) {
    exists i :: 0 <= i < |blocks| && blocks[i].Has(a)
  }

  /** The two blocks do not overlap or touch. */
  predicate Apart(b: Block, c: Block) { b.End() < c.addr || c.End() < b.addr }

  /** Sorted, disjoint and non-touching. */
  predicate Separated(blocks: seq<Block>) {
    forall i, j :: 0 <= i < j < |blocks| ==> blocks[i].End() < blocks[j].addr
  }

  /** What every list of the arena is: no block is empty or at NULL. */
  predicate Valid(blocks: seq<Block>) { Separated(blocks) && NoneEmpty(blocks) && NoneAtNull(blocks) }

  predicate NoneEmpty(blocks: seq<Block>) { forall i :: 0 <= i < |blocks| ==> blocks[i].len > 0 }
  predicate NoneAtNull(blocks: seq<Block>) { forall i :: 0 <= i < |blocks| ==> blocks[i].addr > 0 }

  predicate PairwiseApart(blocks: seq<Block>) {
    forall i, j :: 0 <= i < j < |blocks| ==> Apart(blocks[i], blocks[j])
  }

  // ---- std::sort() with mem_compare() ----

  function Insert(blocks: seq<Block>, b: Block): seq<Block> {
    if blocks == [] || b.addr < blocks[0].addr then [b] + blocks
    else [blocks[0]] + Insert(blocks[1..], b)
  }

  function Sort(blocks: seq<Block>): seq<Block> {
    if blocks == [] then [] else Insert(Sort(blocks[..|blocks| - 1]), blocks[|blocks| - 1])
  }

  lemma {:induction false} InsertMember(blocks: seq<Block>, b: Block, c: Block)
    ensures c in Insert(blocks, b) <==> c == b || c in blocks
  {
    if blocks != [] && b.addr >= blocks[0].addr {
      InsertMember(blocks[1..], b, c);
      assert blocks == [blocks[0]] + blocks[1..];
    }
  }

  lemma {:induction false} SortMember(blocks: seq<Block>, c: Block)
    ensures c in Sort(blocks) <==> c in blocks
  {
    if blocks != [] {
      var n := |blocks| - 1;
      SortMember(blocks[..n], c);
      InsertMember(Sort(blocks[..n]), blocks[n], c);
      assert blocks == blocks[..n] + [blocks[n]];
    }
  }

  lemma SortCovers(blocks: seq<Block>, a: int)
    ensures Covers(Sort(blocks), a) <==> Covers(blocks, a)
  {
    if Covers(blocks, a) {
      var i :| 0 <= i < |blocks| && blocks[i].Has(a);
      SortMember(blocks, blocks[i]);
      var j :| 0 <= j < |Sort(blocks)| && Sort(blocks)[j] == blocks[i];
    }
    if Covers(Sort(blocks), a) {
      var i :| 0 <= i < |Sort(blocks)| && Sort(blocks)[i].Has(a);
      SortMember(blocks, Sort(blocks)[i]);
      var j :| 0 <= j < |blocks| && blocks[j] == Sort(blocks)[i];
    }
  }

  lemma {:induction false} InsertSeparated(blocks: seq<Block>, b: Block)
    requires Separated(blocks) && forall c :: c in blocks ==> Apart(c, b)
    ensures Separated(Insert(blocks, b))
  {
    assert forall i :: 0 <= i < |blocks| ==> Apart(blocks[i], b);
    if blocks != [] && b.addr >= blocks[0].addr {
      var rest := blocks[1..];
      InsertSeparated(rest, b);
      forall c | c in Insert(rest, b) ensures blocks[0].End() < c.addr {
        InsertMember(rest, b, c);
      }
    }
  }

  lemma {:induction false} SortSeparates(blocks: seq<Block>)
    requires PairwiseApart(blocks)
    ensures Separated(Sort(blocks))
  {
    if blocks != [] {
      var n := |blocks| - 1;
      SortSeparates(blocks[..n]);
      forall c | c in Sort(blocks[..n]) ensures Apart(c, blocks[n]) {
        SortMember(blocks[..n], c);
      }
      InsertSeparated(Sort(blocks[..n]), blocks[n]);
    }
  }

  lemma SameMembers(a: seq<Block>, b: seq<Block>)
    requires forall c :: c in a <==> c in b
    ensures NoneEmpty(a) <==> NoneEmpty(b)
    ensures NoneAtNull(a) <==> NoneAtNull(b)
  {
    assert forall i :: 0 <= i < |a| ==> a[i] in b;
    assert forall i :: 0 <= i < |b| ==> b[i] in a;
    assert NoneEmpty(a) ==> forall c :: c in a ==> c.len > 0;
    assert NoneEmpty(b) ==> forall c :: c in b ==> c.len > 0;
    assert NoneAtNull(a) ==> forall c :: c in a ==> c.addr > 0;
    assert NoneAtNull(b) ==> forall c :: c in b ==> c.addr > 0;
  }

  lemma SortKeeps(blocks: seq<Block>)
    ensures forall a :: Covers(Sort(blocks), a) <==> Covers(blocks, a)
    ensures NoneEmpty(Sort(blocks)) <==> NoneEmpty(blocks)
    ensures NoneAtNull(Sort(blocks)) <==> NoneAtNull(blocks)
  {
    forall a ensures Covers(Sort(blocks), a) <==> Covers(blocks, a) {
      SortCovers(blocks, a);
    }
    forall c ensures c in Sort(blocks) <==> c in blocks {
      SortMember(blocks, c);
    }
    SameMembers(Sort(blocks), blocks);
  }

  /** Blocks that touch are not separated, in whatever order. */
  lemma TouchingIsNotSeparated(blocks: seq<Block>, b: Block, c: Block)
    requires b in blocks && c in blocks && b != c && b.End() == c.addr && b.len > 0 && c.len > 0
    ensures !Separated(Sort(blocks))
  {
    SortMember(blocks, b);
    SortMember(blocks, c);
    var i :| 0 <= i < |Sort(blocks)| && Sort(blocks)[i] == b;
    var j :| 0 <= j < |Sort(blocks)| && Sort(blocks)[j] == c;
  }

  // ---- erase() and push_back() ----

  lemma ErasedCovers(blocks: seq<Block>, i: nat)
    requires i < |blocks|
    ensures forall a :: Covers(blocks, a) <==> Covers(Without(blocks, i), a) || blocks[i].Has(a)
    ensures forall k :: 0 <= k < |blocks| - 1 ==> Without(blocks, i)[k] == blocks[if k < i then k else k + 1]
    ensures PairwiseApart(blocks) ==> PairwiseApart(Without(blocks, i))
  {
    var e := Without(blocks, i);
    assert forall k :: 0 <= k < |e| ==> e[k] == blocks[if k < i then k else k + 1];
    forall a ensures Covers(blocks, a) <==> Covers(e, a) || blocks[i].Has(a) {
      if Covers(blocks, a) && !blocks[i].Has(a) {
        var k :| 0 <= k < |blocks| && blocks[k].Has(a);
        assert e[if k < i then k else k - 1].Has(a);
      }
    }
  }

  lemma PushedCovers(blocks: seq<Block>, b: Block)
    ensures forall a :: Covers(blocks + [b], a) <==> Covers(blocks, a) || b.Has(a)
  {
    forall a ensures Covers(blocks + [b], a) <==> Covers(blocks, a) || b.Has(a) {
      if b.Has(a) {
        assert (blocks + [b])[|blocks|].Has(a);
      }
      if Covers(blocks, a) {
        var k :| 0 <= k < |blocks| && blocks[k].Has(a);
        assert (blocks + [b])[k].Has(a);
      }
    }
  }

  /** The smaller of two addresses, and the larger. */
  function Min(a: int, b: int): int { if a < b then a else b }
  function Max(a: int, b: int): int { if a > b then a else b }

  /** An address of a block of the list, or one past its end. */
  predicate Touches(blocks: seq<Block>, a: int) {
    exists i :: 0 <= i < |blocks| && blocks[i].addr <= a <= blocks[i].End()
  }

  /** The merge loop: the blocks and the merged block cover the union. */
  ghost predicate MergeUnion(was: seq<Block>, block: Block, blocks: seq<Block>, merged: Block) {
    forall a :: Covers(blocks, a) || merged.Has(a) <==> Covers(was, a) || block.Has(a)
  }

  /** The merge loop in a valid list: the blocks before i are behind the merged block. */
  ghost predicate MergeOrder(was: seq<Block>, block: Block, blocks: seq<Block>, merged: Block, i: nat) {
    && i <= |blocks| <= |was| && Valid(blocks) && merged.addr > 0
    && (forall k :: 0 <= k < i ==> blocks[k].End() < merged.addr)
    && (|blocks| == |was| ==> blocks == was && merged == block)
    && (|blocks| < |was| ==> merged.len > 0 && (block.len > 0 || Touches(was, block.addr)))
  }

  ghost predicate Merging(was: seq<Block>, block: Block, blocks: seq<Block>, merged: Block, i: nat) {
    MergeUnion(was, block, blocks, merged) && (Valid(was) ==> MergeOrder(was, block, blocks, merged, i))
  }

  function MergedWith(merged: Block, b: Block): Block {
    var start := Min(b.addr, merged.addr);
    Block(start, Max(b.End(), merged.End()) - start)
  }

  lemma EraseUnion(was: seq<Block>, block: Block, blocks: seq<Block>, merged: Block, i: nat)
    requires MergeUnion(was, block, blocks, merged) && i < |blocks|
    requires blocks[i].End() >= merged.addr && blocks[i].addr <= merged.End()
    ensures MergeUnion(was, block, Without(blocks, i), MergedWith(merged, blocks[i]))
  {
    ErasedCovers(blocks, i);
    var e, m := Without(blocks, i), MergedWith(merged, blocks[i]);
    assert forall a :: m.Has(a) <==> merged.Has(a) || blocks[i].Has(a);
  }

  lemma EraseOrder(was: seq<Block>, block: Block, blocks: seq<Block>, merged: Block, i: nat)
    requires MergeOrder(was, block, blocks, merged, i) && i < |blocks|
    requires blocks[i].End() >= merged.addr && blocks[i].addr <= merged.End()
    ensures MergeOrder(was, block, Without(blocks, i), MergedWith(merged, blocks[i]), i)
  {
    var e := Without(blocks, i);
    assert forall k :: 0 <= k < |e| ==> e[k] == blocks[if k < i then k else k + 1];
  }

  lemma MergeErase(was: seq<Block>, block: Block, blocks: seq<Block>, merged: Block, i: nat)
    requires Merging(was, block, blocks, merged, i) && i < |blocks|
    requires blocks[i].End() >= merged.addr && blocks[i].addr <= merged.End()
    ensures Merging(was, block, Without(blocks, i), MergedWith(merged, blocks[i]), i)
  {
    EraseUnion(was, block, blocks, merged, i);
    if Valid(was) {
      EraseOrder(was, block, blocks, merged, i);
    }
  }

  /** The list covers the union.  A valid list stays sorted and apart, and stays valid exactly if the
      range is not empty, or starts in or at the end of a block. */
  ghost predicate Merged(was: seq<Block>, block: Block, blocks: seq<Block>) {
    && (forall a :: Covers(blocks, a) <==> Covers(was, a) || block.Has(a))
    && (Valid(was) ==>
          && Separated(blocks) && NoneAtNull(blocks)
          && (Valid(blocks) <==> block.len > 0 || Touches(was, block.addr))
          && (!Valid(blocks) ==> block in blocks))
  }

  lemma MergeApart(was: seq<Block>, block: Block, blocks: seq<Block>, merged: Block, i: nat)
    requires MergeOrder(was, block, blocks, merged, i)
    requires i < |blocks| ==> blocks[i].addr > merged.End()
    ensures PairwiseApart(blocks + [merged])
  {
    var r := blocks + [merged];
    assert forall k :: i <= k < |blocks| ==> blocks[k].addr > merged.End();
    forall j, k | 0 <= j < k < |r| ensures Apart(r[j], r[k]) {
    }
  }

  lemma MergeEnd(was: seq<Block>, block: Block, blocks: seq<Block>, merged: Block, i: nat)
    requires Merging(was, block, blocks, merged, i)
    requires i < |blocks| ==> blocks[i].addr > merged.End()
    ensures Merged(was, block, Sort(blocks + [merged]))
  {
    var r := blocks + [merged];
    PushedCovers(blocks, merged);
    SortKeeps(r);
    if Valid(was) {
      MergeApart(was, block, blocks, merged, i);
      SortSeparates(r);
      assert r[|blocks|] == merged;
      assert NoneEmpty(r) <==> merged.len > 0;
      SortMember(r, merged);
    }
  }

  predicate StrictlyInside(blocks: seq<Block>, a: int) {
    exists i :: 0 <= i < |blocks| && blocks[i].addr < a < blocks[i].End()
  }

  function PushNonEmpty(blocks: seq<Block>, b: Block): seq<Block> {
    if b.len > 0 then blocks + [b] else blocks
  }

  /** What is left of b without the range, in order. */
  function Pieces(b: Block, block: Block): seq<Block>
    requires !Outside(b, block)
  {
    (if b.addr < block.addr then [Block(b.addr, block.addr - b.addr)] else []) +
    (if b.End() > block.End() then [Block(block.End(), b.End() - block.End())] else [])
  }

  predicate Outside(b: Block, block: Block) { b.End() <= block.addr || block.End() <= b.addr }

  /** Two pieces of one block touch where an empty range was removed. */
  ghost predicate Torn(blocks: seq<Block>, block: Block) {
    block.len == 0 && exists b, c ::
      b in blocks && c in blocks && b != c && b.len > 0 && c.len > 0 && b.End() == block.addr && c.addr == block.addr
  }

  /** The blocks outside the range are still there. */
  ghost predicate KeepsOutside(was: seq<Block>, block: Block, blocks: seq<Block>) {
    forall b :: b in was && Outside(b, block) ==> b in blocks
  }

  predicate SeparatedTo(blocks: seq<Block>, size: nat)
    requires size <= |blocks|
  {
    forall i, j :: 0 <= i < j < size ==> blocks[i].End() < blocks[j].addr
  }

  /** The remove loop: the first 'size' blocks are blocks of the list, of which those before i are
      done; the others are pieces. */
  ghost predicate Removing(was: seq<Block>, block: Block, blocks: seq<Block>, size: nat, i: nat) {
    && i <= size <= |blocks| && (NoneEmpty(was) ==> NoneEmpty(blocks)) && NoneAtNull(blocks)
    && SeparatedTo(blocks, size) && KeepsOutside(was, block, blocks)
    && (forall k :: 0 <= k < i ==> blocks[k].End() <= block.addr)
    && (forall k :: size <= k < |blocks| ==> Outside(blocks[k], block))
    && (forall a :: !block.Has(a) ==> (Covers(blocks, a) <==> Covers(was, a)))
    && (block.len > 0 ==> PairwiseApart(blocks))
    && (block.len == 0 ==>
          (blocks == was && size == |was|) || (Torn(blocks, block) && StrictlyInside(was, block.addr)))
  }

  /** The four overlap cases of the loop: what it pushes back for the block b that it erased. */
  function PushPieces(blocks: seq<Block>, b: Block, block: Block): seq<Block>
    requires !Outside(b, block)
  {
    var end := b.End();
    if b.addr < block.addr then
      if end > block.addr && end < block.End() then
        PushNonEmpty(blocks, Block(b.addr, b.len - (end - block.addr)))
      else
        PushNonEmpty(PushNonEmpty(blocks, Block(b.addr, b.len - (end - block.addr))),
                     Block(block.End(), end - block.End()))
    else if end > block.End() then PushNonEmpty(blocks, Block(block.End(), end - block.End()))
    else blocks
  }

  lemma PushedPieces(blocks: seq<Block>, b: Block, block: Block)
    requires !Outside(b, block)
    ensures PushPieces(blocks, b, block) == blocks + Pieces(b, block)
  {
  }

  lemma PiecesCover(b: Block, block: Block)
    requires !Outside(b, block)
    ensures forall a :: !block.Has(a) ==> (Covers(Pieces(b, block), a) <==> b.Has(a))
  {
    forall a | !block.Has(a) ensures Covers(Pieces(b, block), a) <==> b.Has(a) {
      if b.Has(a) {
        assert Pieces(b, block)[if a < block.addr then 0 else |Pieces(b, block)| - 1].Has(a);
      }
    }
  }

  lemma ConcatCovers(x: seq<Block>, y: seq<Block>)
    ensures forall a :: Covers(x + y, a) <==> Covers(x, a) || Covers(y, a)
  {
    forall a ensures Covers(x + y, a) <==> Covers(x, a) || Covers(y, a) {
      if Covers(x, a) {
        var k :| 0 <= k < |x| && x[k].Has(a);
        assert (x + y)[k].Has(a);
      }
      if Covers(y, a) {
        var k :| 0 <= k < |y| && y[k].Has(a);
        assert (x + y)[|x| + k].Has(a);
      }
    }
  }

  lemma PiecesApart(blocks: seq<Block>, i: nat, block: Block)
    requires PairwiseApart(blocks) && i < |blocks| && block.len > 0 && !Outside(blocks[i], block)
    ensures PairwiseApart(Without(blocks, i) + Pieces(blocks[i], block))
  {
    ErasedCovers(blocks, i);
    var e, p := Without(blocks, i), Pieces(blocks[i], block);
    forall j, k | 0 <= j < |e| && 0 <= k < |p| ensures Apart(e[j], p[k]) {
      assert Apart(e[j], blocks[i]);
    }
    var r := e + p;
    forall j, k | 0 <= j < k < |r| ensures Apart(r[j], r[k]) {
    }
  }

  /** Removing an empty range from a block tears it. */
  lemma PiecesTorn(blocks: seq<Block>, i: nat, block: Block)
    requires i < |blocks| && block.len == 0 && !Outside(blocks[i], block)
    ensures Torn(Without(blocks, i) + Pieces(blocks[i], block), block)
  {
    var r, p := Without(blocks, i) + Pieces(blocks[i], block), Pieces(blocks[i], block);
    assert |p| == 2 && p[0] in r && p[1] in r;
  }

  lemma EraseCovers(was: seq<Block>, block: Block, blocks: seq<Block>, size: nat, i: nat)
    requires Removing(was, block, blocks, size, i) && i < size && !Outside(blocks[i], block)
    ensures forall a :: !block.Has(a) ==> (Covers(Without(blocks, i) + Pieces(blocks[i], block), a) <==> Covers(was, a))
  {
    ErasedCovers(blocks, i);
    PiecesCover(blocks[i], block);
    ConcatCovers(Without(blocks, i), Pieces(blocks[i], block));
  }

  lemma EraseParts(blocks: seq<Block>, block: Block, size: nat, i: nat)
    requires i < size <= |blocks| && NoneAtNull(blocks) && SeparatedTo(blocks, size)
    requires forall k :: size <= k < |blocks| ==> Outside(blocks[k], block)
    requires !Outside(blocks[i], block)
    ensures var r := Without(blocks, i) + Pieces(blocks[i], block);
            && size - 1 <= |r| && (NoneEmpty(blocks) ==> NoneEmpty(r)) && NoneAtNull(r) && SeparatedTo(r, size - 1)
            && (forall k :: 0 <= k < i ==> r[k] == blocks[k])
            && (forall k :: size - 1 <= k < |r| ==> Outside(r[k], block))
  {
    var e, p := Without(blocks, i), Pieces(blocks[i], block);
    var r := e + p;
    assert forall k :: 0 <= k < |e| ==> r[k] == blocks[if k < i then k else k + 1];
    assert forall k :: |e| <= k < |r| ==> r[k] == p[k - |e|];
  }

  lemma EraseKeeps(was: seq<Block>, block: Block, blocks: seq<Block>, i: nat)
    requires KeepsOutside(was, block, blocks) && i < |blocks| && !Outside(blocks[i], block)
    ensures KeepsOutside(was, block, Without(blocks, i) + Pieces(blocks[i], block))
  {
    assert blocks == blocks[..i] + [blocks[i]] + blocks[i + 1..];
  }

  lemma RemoveErase(was: seq<Block>, block: Block, blocks: seq<Block>, size: nat, i: nat)
    requires Removing(was, block, blocks, size, i) && i < size && !Outside(blocks[i], block)
    ensures Removing(was, block, Without(blocks, i) + Pieces(blocks[i], block), size - 1, i)
  {
    EraseCovers(was, block, blocks, size, i);
    EraseParts(blocks, block, size, i);
    EraseKeeps(was, block, blocks, i);
    if block.len > 0 {
      PiecesApart(blocks, i, block);
    } else {
      PiecesTorn(blocks, i, block);
      assert blocks == was ==> StrictlyInside(was, block.addr);
    }
  }

  lemma RemoveEnd(was: seq<Block>, block: Block, blocks: seq<Block>, size: nat, i: nat)
    requires Separated(was) && NoneAtNull(was) && Removing(was, block, blocks, size, i)
    requires i < size ==> blocks[i].addr >= block.End()
    ensures Removed(was, block, Sort(blocks))
  {
    SortKeeps(blocks);
    RemoveEndCovers(was, block, blocks, size, i);
    forall b | b in was && Outside(b, block) ensures b in Sort(blocks) {
      SortMember(blocks, b);
    }
    if NoneEmpty(was) {
      RemoveEndValid(was, block, blocks, size, i);
    }
  }

  lemma RemoveEndCovers(was: seq<Block>, block: Block, blocks: seq<Block>, size: nat, i: nat)
    requires Removing(was, block, blocks, size, i) && (i < size ==> blocks[i].addr >= block.End())
    ensures forall k :: 0 <= k < |blocks| ==> Outside(blocks[k], block)
    ensures forall a :: block.Has(a) ==> !Covers(blocks, a)
  {
    assert forall k :: i <= k < size ==> blocks[k].addr >= block.End();
  }

  lemma RemoveEndValid(was: seq<Block>, block: Block, blocks: seq<Block>, size: nat, i: nat)
    requires Valid(was) && Removing(was, block, blocks, size, i)
    requires forall k :: 0 <= k < |blocks| ==> Outside(blocks[k], block)
    ensures Valid(Sort(blocks)) <==> block.len > 0 || !StrictlyInside(was, block.addr)
  {
    SortKeeps(blocks);
    if block.len > 0 {
      SortSeparates(blocks);
    } else if blocks == was {
      assert PairwiseApart(was);
      SortSeparates(blocks);
      assert !StrictlyInside(was, block.addr);
    } else {
      var b, c :| b in blocks && c in blocks && b != c && b.len > 0 && c.len > 0 &&
                  b.End() == block.addr && c.addr == block.addr;
      TouchingIsNotSeparated(blocks, b, c);
    }
  }

  /** The list covers the difference, and the blocks outside the range stay.  A valid list stays valid
      exactly if the range is not empty or does not start strictly inside a block. */
  ghost predicate Removed(was: seq<Block>, block: Block, blocks: seq<Block>) {
    && (forall a :: Covers(blocks, a) <==> Covers(was, a) && !block.Has(a))
    && KeepsOutside(was, block, blocks)
    && (Valid(was) ==> (Valid(blocks) <==> block.len > 0 || !StrictlyInside(was, block.addr)))
  }

  /** What the rest of the remove loop makes of the list. */
  function Loop(blocks: seq<Block>, size: nat, i: nat, block: Block): seq<Block>
    requires i <= size <= |blocks|
    decreases size - i
  {
    if i == size then blocks
    else if blocks[i].End() <= block.addr then Loop(blocks, size, i + 1, block)
    else if blocks[i].addr >= block.End() then blocks
    else Loop(Without(blocks, i) + Pieces(blocks[i], block), size - 1, i, block)
  }

  lemma {:induction false} LoopRemoves(was: seq<Block>, block: Block, blocks: seq<Block>, size: nat, i: nat)
    returns (left: nat, last: nat)
    requires Removing(was, block, blocks, size, i)
    ensures var r := Loop(blocks, size, i, block);
            Removing(was, block, r, left, last) && (last < left ==> r[last].addr >= block.End())
    decreases size - i
  {
    if i < size && blocks[i].End() <= block.addr {
      RemovePass(was, block, blocks, size, i);
      left, last := LoopRemoves(was, block, blocks, size, i + 1);
    } else if i < size && blocks[i].addr < block.End() {
      RemoveErase(was, block, blocks, size, i);
      left, last := LoopRemoves(was, block, Without(blocks, i) + Pieces(blocks[i], block), size - 1, i);
    } else {
      left, last := size, i;
    }
  }

  lemma RemovePass(was: seq<Block>, block: Block, blocks: seq<Block>, size: nat, i: nat)
    requires Removing(was, block, blocks, size, i) && i < size && blocks[i].End() <= block.addr
    ensures Removing(was, block, blocks, size, i + 1)
  {
  }

  lemma LoopStart(was: seq<Block>, block: Block)
    requires Separated(was) && NoneAtNull(was)
    ensures Removed(was, block, Sort(Loop(was, |was|, 0, block)))
  {
    var left, last := LoopRemoves(was, block, was, |was|, 0);
    RemoveEnd(was, block, Loop(was, |was|, 0, block), left, last);
  }

  /** The addresses of the blocks still to be looked at rise. */
  predicate Rising(blocks: seq<Block>, size: nat, i: nat, above: int)
    requires i <= size <= |blocks|
  {
    && (forall j :: i <= j < size ==> above < blocks[j].addr)
    && forall j, k :: i <= j < k < size ==> blocks[j].addr < blocks[k].addr
  }

  lemma TurnRises(blocks: seq<Block>, size: nat, i: nat, block: Block, above: int)
    requires i < size <= |blocks| && Rising(blocks, size, i, above) && !Outside(blocks[i], block)
    ensures var next := Without(blocks, i) + Pieces(blocks[i], block);
            size - 1 <= |next| && Rising(next, size - 1, i, blocks[i].addr)
  {
    var next := Without(blocks, i) + Pieces(blocks[i], block);
    assert forall k :: i <= k < size - 1 ==> next[k] == blocks[k + 1];
  }

  class BlockList {
    var blocks: seq<Block>

    constructor ()
      ensures blocks == []
    {
      blocks := [];
    }

    /** merge_overlap_blocks() */
    method Merge(block: Block)
      requires block.addr > 0
      modifies this
      ensures Merged(old(blocks), block, blocks)
    {
      var merged := block;
      var i := 0;
      while i < |blocks|
        invariant 0 <= i <= |blocks| && Merging(old(blocks), block, blocks, merged, i)
        decreases |blocks| - i
      {
        var end := blocks[i].End();
        if end < merged.addr {
          i := i + 1;
        } else if blocks[i].addr > merged.End() {
          break;
        } else {
          MergeErase(old(blocks), block, blocks, merged, i);
          var start := Min(blocks[i].addr, merged.addr);
          merged := Block(start, Max(end, merged.End()) - start);
          blocks := Without(blocks, i);
        }
      }
      MergeEnd(old(blocks), block, blocks, merged, i);
      blocks := Sort(blocks + [merged]);
    }

    /** remove_overlap_blocks(): in a sorted list without overlaps, which may have empty blocks.  The
        loop's test for a block that it meets twice never holds. */
    method Remove(block: Block)
      requires Separated(blocks) && NoneAtNull(blocks)
      modifies this
      ensures Removed(old(blocks), block, blocks)
    {
      var oldStart, oldEnd := 0, 0;
      var size: nat, i: nat := |blocks|, 0;
      while i < size
        invariant i <= size <= |blocks| && Rising(blocks, size, i, 0) && Rising(blocks, size, i, oldStart)
        invariant Loop(blocks, size, i, block) == Loop(old(blocks), |old(blocks)|, 0, block)
        decreases size - i
      {
        var b := blocks[i];
        var end := b.End();
        assert !(b.addr == 0 || (b.addr == oldStart && end == oldEnd));
        oldStart, oldEnd := b.addr, end;
        if end <= block.addr {
          i := i + 1;
        } else if b.addr >= block.End() {
          break;
        } else {
          TurnRises(blocks, size, i, block, 0);
          PushedPieces(Without(blocks, i), blocks[i], block);
          blocks := PushPieces(Without(blocks, i), blocks[i], block);
          size := size - 1;
        }
      }
      assert blocks == Loop(blocks, size, i, block);
      LoopStart(old(blocks), block);
      blocks := Sort(blocks);
    }
  }
}
