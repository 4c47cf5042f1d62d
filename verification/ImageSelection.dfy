/**
What goes into the checkpoint image (src/mpi_plugin.cpp): DMTCP goes through each area of
/proc/self/maps and asks, from an address on, whether to skip it and up to where.  MANA answers
from the list of blocks that the lower half's wrappers keep, and from the upper half's stack.
*/
module ImageSelection {
  import opened Common
  import opened BlockLists

  datatype Range = Range(start: int, end: int)

  /** The answer to one question: skip or save, from the address asked about up to 'upTo'. */
  datatype Answer = Answer(skip: bool, upTo: int)

  /** An address in the upper half: recorded by the wrappers, or in the stack. */
  predicate Upper(regions: seq<Block>, stack: Range, a: int) {
    Covers(regions, a) || stack.start <= a < stack.end
  }

  /** partition_point(): the first region that ends above addr. */
  method FirstEndingAbove(regions: seq<Block>, addr: int) returns (n: nat)
    requires Valid(regions)
    ensures n <= |regions|
    ensures forall i :: 0 <= i < n ==> regions[i].End() <= addr
    ensures forall i :: n <= i < |regions| ==> regions[i].End() > addr
  {
    var low, high := 0, |regions|;
    while low < high
      invariant 0 <= low <= high <= |regions|
      invariant forall i :: 0 <= i < low ==> regions[i].End() <= addr
      invariant forall i :: high <= i < |regions| ==> regions[i].End() > addr
    {
      var mid := (low + high) / 2;
      if regions[mid].End() <= addr {
        low := mid + 1;
      } else {
        high := mid;
      }
    }
    return low;
  }

  /** nextUpperHalfRange(): nothing of the upper half is between addr and the range, all of the range
      is, and without a range nothing is left. */
  method NextRange(regions: seq<Block>, stack: Range, addr: int) returns (range: Option<Range>)
    requires Valid(regions)
    ensures range.None? ==> forall a :: a >= addr ==> !Upper(regions, stack, a)
    ensures range.Some? ==>
              && range.value.end > addr
              && (forall a :: addr <= a < range.value.start ==> !Upper(regions, stack, a))
              && (forall a :: range.value.start <= a < range.value.end ==> Upper(regions, stack, a))
  {
    var n := FirstEndingAbove(regions, addr);
    range := None;
    if n < |regions| {
      range := Some(Range(regions[n].addr, regions[n].End()));
      assert forall a :: regions[n].addr <= a < regions[n].End() ==> regions[n].Has(a);
    }
    if stack.end > addr && (range.None? || stack.start < range.value.start) {
      range := Some(stack);
    }
  }

  /** dmtcp_skip_memory_region_ckpting() for [addr, end) of an area: 'next' is the definition that
      comes after it, if there is one, which may skip some of what this one would save. */
  method Skip(regions: seq<Block>, stack: Range, addr: int, end: int, next: Option<(int, int) -> Answer>)
    returns (answer: Answer)
    requires Valid(regions) && addr < end
    requires next.Some? ==> forall e :: addr < e <= end ==> addr < next.value(addr, e).upTo <= e
    ensures addr < answer.upTo <= end
    ensures !answer.skip ==> forall a :: addr <= a < answer.upTo ==> Upper(regions, stack, a)
    ensures next.None? && answer.skip ==> forall a :: addr <= a < answer.upTo ==> !Upper(regions, stack, a)
  {
    var range := NextRange(regions, stack, addr);
    if range.None? || range.value.start >= end {
      return Answer(true, end);
    }
    if range.value.start > addr {
      return Answer(true, range.value.start);
    }
    var upTo := Min(range.value.end, end);
    return if next.None? then Answer(false, upTo) else next.value(addr, upTo);
  }

  /** DMTCP's loop over an area.  It ends, its pieces of the image are in order and do not overlap,
      it saves only the upper half, and, when MANA's is the last definition, all of it. */
  method SaveArea(regions: seq<Block>, stack: Range, area: Block, next: Option<(int, int) -> Answer>)
    returns (saved: seq<Block>)
    requires Valid(regions)
    requires next.Some? ==> forall a, e :: a < e ==> a < next.value(a, e).upTo <= e
    ensures forall i, j :: 0 <= i < j < |saved| ==> saved[i].End() <= saved[j].addr
    ensures forall a :: Covers(saved, a) ==> area.Has(a) && Upper(regions, stack, a)
    ensures next.None? ==> forall a :: Covers(saved, a) <==> area.Has(a) && Upper(regions, stack, a)
  {
    saved := [];
    var addr := area.addr;
    while addr < area.End()
      invariant area.addr <= addr <= area.End()
      invariant forall i, j :: 0 <= i < j < |saved| ==> saved[i].End() <= saved[j].addr
      invariant forall i :: 0 <= i < |saved| ==> saved[i].End() <= addr
      invariant forall a :: Covers(saved, a) ==> area.addr <= a < addr && Upper(regions, stack, a)
      invariant next.None? ==> forall a :: area.addr <= a < addr && Upper(regions, stack, a) ==> Covers(saved, a)
      decreases area.End() - addr
    {
      var answer := Skip(regions, stack, addr, area.End(), next);
      if !answer.skip {
        var piece := Block(addr, answer.upTo - addr);
        PushedCovers(saved, piece);
        saved := saved + [piece];
      }
      addr := answer.upTo;
    }
  }
}
