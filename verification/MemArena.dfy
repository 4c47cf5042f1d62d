/**
The memory arena of the upper half (src/lower-half/mem-wrapper.cpp): the wrappers of mmap(),
munmap() and mremap(), and the restore at restart, keep a list of allocated blocks and a list
of free blocks.  The results of the kernel's calls are parameters.
*/
module MemArena {
  import opened Common
  import opened BlockLists

  const PAGE_SIZE: nat := 0x1000
  const HUGE_PAGE: nat := 0x200000
  const SIZE_MAX: nat := 0xffff_ffff_ffff_ffff
  const MAX_TRIES: nat := 16

  /** ROUND_UP() for a power of 2, without wrap-around. */
  function RoundUp(x: nat, n: nat): (r: nat)
    requires n > 0
    ensures r >= x && r % n == 0 && r < x + n
  {
    var q := (x + n - 1) / n;
    RoundUpBounds(x, n);
    q * n
  }

  lemma RoundUpBounds(x: nat, n: nat)
    requires n > 0
    ensures var r := (x + n - 1) / n * n; x <= r < x + n && r % n == 0
  {
    var q := (x + n - 1) / n;
    assert q * n + (x + n - 1) % n == x + n - 1;
    MultipleMod(q, n);
  }

  lemma MultipleMod(q: nat, n: nat)
    requires n > 0
    ensures (q * n) % n == 0
  {
    var x := q * n;
    var d, r := x / n, x % n;
    assert x == d * n + r;
    assert d >= q by {
      if d < q {
        MulLess(d, q, n);
      }
    }
    MulMono(q, d, n);
  }

  /** A multiple of n that is at least x is at least x rounded up. */
  lemma RoundUpLeast(x: nat, n: nat, m: nat)
    requires n > 0 && m >= x && m % n == 0
    ensures m >= RoundUp(x, n)
  {
    var q, a := (x + n - 1) / n, m / n;
    assert m == a * n;
    assert q * n == RoundUp(x, n);
    if a < q {
      MulLess(a, q, n);
    } else {
      MulMono(q, a, n);
    }
  }

  /** addr & -addr: the lowest bit of addr. */
  function LowBit(addr: nat): (bit: nat)
    requires addr > 0
    ensures bit > 0
  {
    if addr % 2 == 1 then 1 else 2 * LowBit(addr / 2)
  }

  function Power(k: nat): (n: nat)
    ensures n > 0
  {
    if k == 0 then 1 else 2 * Power(k - 1)
  }

  /** n is the lowest bit of addr exactly if it is the power of 2 by which addr is an odd multiple. */
  lemma {:induction false} LowBitIff(addr: nat, k: nat)
    requires addr > 0
    ensures LowBit(addr) == Power(k) <==> addr % Power(k) == 0 && (addr / Power(k)) % 2 == 1
    decreases k
  {
    if k == 0 {
    } else if addr % 2 == 1 {
      OddIsNoMultiple(addr, Power(k - 1));
    } else {
      LowBitIff(addr / 2, k - 1);
      HalfOf(addr, Power(k - 1));
    }
  }

  lemma OddIsNoMultiple(a: nat, n: nat)
    requires a % 2 == 1 && n > 0
    ensures a % (2 * n) != 0
  {
    var q, r := (a / 2) / n, (a / 2) % n;
    assert a == 2 * (n * q + r) + 1 == 2 * n * q + (2 * r + 1);
    DivUnique(a, 2 * n, q, 2 * r + 1);
  }

  lemma HalfOf(a: nat, n: nat)
    requires a % 2 == 0 && n > 0
    ensures a % (2 * n) == 0 <==> (a / 2) % n == 0
    ensures a / (2 * n) == (a / 2) / n
  {
    var q, r := (a / 2) / n, (a / 2) % n;
    assert a == 2 * (n * q + r) == 2 * n * q + 2 * r;
    DivUnique(a, 2 * n, q, 2 * r);
  }

  lemma DivUnique(a: nat, n: nat, q: nat, r: nat)
    requires n > 0 && r < n && a == n * q + r
    ensures a / n == q && a % n == r
  {
    var p, s := a / n, a % n;
    assert a == n * p + s;
    if p < q {
      MulLess(p, q, n);
    } else if q < p {
      MulLess(q, p, n);
    }
  }

  /** The alignment that next_free_addr() gives to a mapping with this hint: that of the hint,
      from a page to a huge page. */
  function Alignment(hint: nat): (n: nat)
    ensures PAGE_SIZE <= n <= HUGE_PAGE
  {
    if hint > 0 && PAGE_SIZE < LowBit(hint) <= HUGE_PAGE then LowBit(hint) else PAGE_SIZE
  }

  lemma {:induction false} LowBitIsPower(addr: nat) returns (k: nat)
    requires addr > 0
    ensures LowBit(addr) == Power(k)
  {
    k := 0;
    if addr % 2 == 0 {
      k := LowBitIsPower(addr / 2);
      k := k + 1;
    }
  }

  /** A mapping gets the alignment of its hint: a power of 2 above a page, up to a huge page, exactly if
      the hint is an odd multiple of it, and a page if there is none. */
  lemma AlignmentIff(hint: nat, k: nat)
    requires PAGE_SIZE < Power(k) <= HUGE_PAGE
    ensures Alignment(hint) == Power(k) <==> hint > 0 && hint % Power(k) == 0 && (hint / Power(k)) % 2 == 1
    ensures Alignment(hint) == PAGE_SIZE || exists j :: 0 <= j && Alignment(hint) == Power(j)
  {
    if hint > 0 {
      LowBitIff(hint, k);
      var j := LowBitIsPower(hint);
    }
  }

  /** Each address of the range is in the block. */
  predicate Within(addr: int, len: nat, b: Block) { b.addr <= addr && addr + len <= b.End() }

  predicate InSome(blocks: seq<Block>, addr: int, len: nat) {
    exists i :: 0 <= i < |blocks| && Within(addr, len, blocks[i])
  }

  lemma InSomeCovers(blocks: seq<Block>, addr: int, len: nat)
    requires InSome(blocks, addr, len)
    ensures forall a :: addr <= a < addr + len ==> Covers(blocks, a)
  {
    var i :| 0 <= i < |blocks| && Within(addr, len, blocks[i]);
    forall a | addr <= a < addr + len ensures Covers(blocks, a) {
      assert blocks[i].Has(a);
    }
  }

  /** next_free_addr(): the lowest aligned range in a free block, or none if no free block has one. */
  method NextFree(free: seq<Block>, hint: nat, length: nat) returns (addr: Option<int>)
    requires Valid(free)
    ensures addr.Some? ==> addr.value > 0 && addr.value % Alignment(hint) == 0 && InSome(free, addr.value, length)
    ensures addr.Some? ==>
              forall a: nat :: a % Alignment(hint) == 0 && InSome(free, a, length) ==> addr.value <= a
    ensures addr.None? ==> forall a: nat :: a % Alignment(hint) == 0 ==> !InSome(free, a, length)
  {
    var align := Alignment(hint);
    var i := 0;
    while i < |free|
      invariant 0 <= i <= |free|
      invariant forall k, a: nat :: 0 <= k < i && a % align == 0 ==> !Within(a, length, free[k])
    {
      var aligned := RoundUp(free[i].addr, align);
      if aligned - free[i].addr + length <= free[i].len {
        assert Within(aligned, length, free[i]);
        forall a: nat | a % align == 0 && InSome(free, a, length) ensures aligned <= a {
          var k :| 0 <= k < |free| && Within(a, length, free[k]);
          if k == i {
            RoundUpLeast(free[i].addr, align, a);
          }
        }
        return Some(aligned);
      }
      forall a: nat | a % align == 0 ensures !Within(a, length, free[i]) {
        if Within(a, length, free[i]) {
          RoundUpLeast(free[i].addr, align, a);
        }
      }
      i := i + 1;
    }
    return None;
  }

  /** What the kernel answers to mmap_fixed_noreplace(): done, another mapping is there (and the
      mappings that /proc/self/maps then shows), or another error. */
  datatype Answer = Mapped | Exists(mappings: seq<Block>) | Error

  /** One answer for each try; a mapping is not empty. */
  predicate Answers(answers: seq<Answer>) {
    && |answers| == MAX_TRIES
    && forall k, i :: 0 <= k < |answers| && answers[k].Exists? && 0 <= i < |answers[k].mappings| ==>
         answers[k].mappings[i].len > 0
  }

  predicate InTheWay(mapping: Block, addr: int, length: nat) {
    mapping.addr < addr + length && mapping.End() > addr
  }

  /** As /proc/self/maps lists them. */
  predicate InOrder(mappings: seq<Block>) {
    forall i, j :: 0 <= i < j < |mappings| ==> mappings[i].addr <= mappings[j].addr
  }

  /** The loop over the mappings takes address a off the free list: a is in a mapping that ends above
      addr, and no mapping up to it starts at or above the end of the range. */
  predicate Swept(mappings: seq<Block>, addr: int, length: nat, a: int) {
    exists i :: 0 <= i < |mappings| && Sweeps(mappings, i, addr, length, a)
  }

  predicate Sweeps(mappings: seq<Block>, i: nat, addr: int, length: nat, a: int)
    requires i < |mappings|
  {
    mappings[i].Has(a) && mappings[i].End() > addr && !Stops(mappings, i + 1, addr + length)
  }

  predicate Stops(mappings: seq<Block>, n: nat, end: int)
    requires n <= |mappings|
  {
    exists j :: 0 <= j < n && mappings[j].addr >= end
  }

  lemma SweptNext(mappings: seq<Block>, i: nat, addr: int, length: nat, a: int)
    requires i < |mappings| && !Stops(mappings, i, addr + length)
    ensures mappings[i].addr < addr + length ==>
              && !Stops(mappings, i + 1, addr + length)
              && (Swept(mappings[..i + 1], addr, length, a) <==>
                    Swept(mappings[..i], addr, length, a) || (mappings[i].Has(a) && mappings[i].End() > addr))
    ensures mappings[i].addr >= addr + length ==>
              (Swept(mappings, addr, length, a) <==> Swept(mappings[..i], addr, length, a))
  {
    SweptPrefix(mappings, i, addr, length, a);
    if mappings[i].addr < addr + length {
      SweptPrefix(mappings, i + 1, addr, length, a);
      assert Sweeps(mappings, i, addr, length, a) <==> mappings[i].Has(a) && mappings[i].End() > addr;
    }
  }

  lemma SweptPrefix(mappings: seq<Block>, n: nat, addr: int, length: nat, a: int)
    requires n <= |mappings|
    ensures Swept(mappings[..n], addr, length, a) <==>
              exists i :: 0 <= i < n && Sweeps(mappings, i, addr, length, a)
  {
    var m := mappings[..n];
    forall i | 0 <= i < n ensures Sweeps(m, i, addr, length, a) <==> Sweeps(mappings, i, addr, length, a) {
      assert forall j :: 0 <= j <= i ==> m[j] == mappings[j];
      if Stops(mappings, i + 1, addr + length) {
        var j :| 0 <= j < i + 1 && mappings[j].addr >= addr + length;
        assert m[j].addr >= addr + length;
      }
    }
    if Swept(m, addr, length, a) {
      var i :| 0 <= i < |m| && Sweeps(m, i, addr, length, a);
      assert Sweeps(mappings, i, addr, length, a);
    }
    if i :| 0 <= i < n && Sweeps(mappings, i, addr, length, a) {
      assert Sweeps(m, i, addr, length, a);
    }
  }

  /** With the mappings in order, exactly the mappings in the way are taken off. */
  lemma SweptInOrder(mappings: seq<Block>, addr: int, length: nat, a: int)
    requires InOrder(mappings)
    ensures Swept(mappings, addr, length, a) <==>
              exists i :: 0 <= i < |mappings| && mappings[i].Has(a) && InTheWay(mappings[i], addr, length)
  {
    forall i | 0 <= i < |mappings| && mappings[i].Has(a)
      ensures Sweeps(mappings, i, addr, length, a) <==> InTheWay(mappings[i], addr, length)
    {
      assert Stops(mappings, i + 1, addr + length) <==> mappings[i].addr >= addr + length;
    }
  }

  // ---- what a search of the arena answers ----

  /** The addresses that are free at try t, when 'found' are the addresses tried before. */
  ghost predicate FreeAt(first: seq<Block>, length: nat, answers: seq<Answer>, found: seq<int>, t: nat, a: int)
    requires t <= |found| && t <= |answers|
  {
    && Covers(first, a)
    && forall u :: 0 <= u < t && answers[u].Exists? ==> !Swept(answers[u].mappings, found[u], length, a)
  }

  ghost predicate FitsAt(first: seq<Block>, hint: nat, length: nat, answers: seq<Answer>, found: seq<int>, t: nat,
                         addr: int)
    requires t <= |found| && t <= |answers|
  {
    addr > 0 && addr % Alignment(hint) == 0 &&
    forall a :: addr <= a < addr + length ==> FreeAt(first, length, answers, found, t, a)
  }

  /** The lowest aligned range that is free at try t. */
  ghost predicate LowestAt(first: seq<Block>, hint: nat, length: nat, answers: seq<Answer>, found: seq<int>, t: nat,
                           addr: int)
    requires t <= |found| && t <= |answers|
  {
    && FitsAt(first, hint, length, answers, found, t, addr)
    && forall b: nat :: FitsAt(first, hint, length, answers, found, t, b) ==> addr <= b
  }

  ghost predicate Searched(first: seq<Block>, hint: nat, length: nat, answers: seq<Answer>, found: seq<int>) {
    && |found| <= |answers|
    && forall t: nat :: t < |found| ==> LowestAt(first, hint, length, answers, found, t, found[t])
  }

  /** How the arena finds a range for 'length' bytes: each try takes the lowest aligned free range, and
      goes on exactly if another mapping is there.  The result is the range that the kernel mapped, and
      none exactly if the kernel failed, no range was left, or there were 16 tries. */
  ghost predicate Outcome(first: seq<Block>, hint: nat, length: nat, answers: seq<Answer>, found: seq<int>,
                          ret: Option<int>)
    requires |answers| == MAX_TRIES
  {
    && Searched(first, hint, length, answers, found)
    && (forall t :: 0 <= t < |found| - 1 ==> answers[t].Exists?)
    && match ret
       case Some(addr) => found != [] && answers[|found| - 1].Mapped? && addr == found[|found| - 1]
       case None =>
         || (found != [] && answers[|found| - 1].Error?)
         || ((found != [] ==> answers[|found| - 1].Exists?) &&
             (|found| == 16 || forall a: nat :: !FitsAt(first, hint, length, answers, found, |found|, a)))
  }

  /** In a valid list, a range that is not empty is in one block exactly if all of it is covered. */
  lemma InSomeIff(blocks: seq<Block>, addr: int, len: nat)
    requires Valid(blocks) && len > 0
    ensures InSome(blocks, addr, len) <==> forall a :: addr <= a < addr + len ==> Covers(blocks, a)
  {
    if InSome(blocks, addr, len) {
      InSomeCovers(blocks, addr, len);
    }
    if forall a :: addr <= a < addr + len ==> Covers(blocks, a) {
      assert Covers(blocks, addr);
      var i :| 0 <= i < |blocks| && blocks[i].Has(addr);
      EndIsFree(blocks, i);
      assert Within(addr, len, blocks[i]);
    }
  }

  /** The free list is what is free at the next try. */
  ghost predicate IsFreeAt(free: seq<Block>, first: seq<Block>, length: nat, answers: seq<Answer>, found: seq<int>) {
    && |found| <= |answers|
    && forall a :: Covers(free, a) <==> FreeAt(first, length, answers, found, |found|, a)
  }

  lemma FitsIff(free: seq<Block>, first: seq<Block>, hint: nat, length: nat, answers: seq<Answer>, found: seq<int>,
                a: int)
    requires Valid(free) && length > 0 && IsFreeAt(free, first, length, answers, found)
    ensures FitsAt(first, hint, length, answers, found, |found|, a) <==>
              a > 0 && a % Alignment(hint) == 0 && InSome(free, a, length)
  {
    InSomeIff(free, a, length);
  }

  /** What was tried stays as it was when one more address is tried. */
  lemma FitsPrefix(first: seq<Block>, hint: nat, length: nat, answers: seq<Answer>, found: seq<int>, x: int, t: nat,
                   a: int)
    requires t <= |found| && t <= |answers|
    ensures FitsAt(first, hint, length, answers, found + [x], t, a) == FitsAt(first, hint, length, answers, found, t, a)
  {
    forall b ensures FreeAt(first, length, answers, found + [x], t, b) == FreeAt(first, length, answers, found, t, b) {
      assert forall u :: 0 <= u < t ==> (found + [x])[u] == found[u];
    }
  }

  lemma SearchedNext(free: seq<Block>, first: seq<Block>, hint: nat, length: nat, answers: seq<Answer>,
                     found: seq<int>, x: int)
    requires Valid(free) && length > 0 && |found| < |answers| && IsFreeAt(free, first, length, answers, found)
    requires Searched(first, hint, length, answers, found)
    requires x > 0 && x % Alignment(hint) == 0 && InSome(free, x, length)
    requires forall a: nat :: a % Alignment(hint) == 0 && InSome(free, a, length) ==> x <= a
    ensures Searched(first, hint, length, answers, found + [x])
  {
    forall t: nat | t < |found + [x]| ensures LowestAt(first, hint, length, answers, found + [x], t, (found + [x])[t]) {
      forall b: nat | FitsAt(first, hint, length, answers, found + [x], t, b) ensures (found + [x])[t] <= b {
        FitsPrefix(first, hint, length, answers, found, x, t, b);
        if t == |found| {
          FitsIff(free, first, hint, length, answers, found, b);
        } else {
          assert LowestAt(first, hint, length, answers, found, t, found[t]);
        }
      }
      FitsPrefix(first, hint, length, answers, found, x, t, (found + [x])[t]);
      if t == |found| {
        FitsIff(free, first, hint, length, answers, found, x);
      } else {
        assert LowestAt(first, hint, length, answers, found, t, found[t]);
      }
    }
  }

  lemma NoneFits(free: seq<Block>, first: seq<Block>, hint: nat, length: nat, answers: seq<Answer>, found: seq<int>)
    requires Valid(free) && length > 0 && IsFreeAt(free, first, length, answers, found)
    requires forall a: nat :: a % Alignment(hint) == 0 ==> !InSome(free, a, length)
    ensures forall a: nat :: !FitsAt(first, hint, length, answers, found, |found|, a)
  {
    forall a: nat ensures !FitsAt(first, hint, length, answers, found, |found|, a) {
      FitsIff(free, first, hint, length, answers, found, a);
    }
  }

  /** The free list after an answer to the next try. */
  lemma FreeNext(free: seq<Block>, free': seq<Block>, first: seq<Block>, length: nat, answers: seq<Answer>,
                 found: seq<int>, x: int)
    requires |found| < |answers| && IsFreeAt(free, first, length, answers, found)
    requires forall a :: Covers(free', a) <==>
               Covers(free, a) && !(answers[|found|].Exists? && Swept(answers[|found|].mappings, x, length, a))
    ensures IsFreeAt(free', first, length, answers, found + [x])
  {
    forall a ensures Covers(free', a) <==> FreeAt(first, length, answers, found + [x], |found| + 1, a) {
      assert Covers(free, a) <==> FreeAt(first, length, answers, found, |found|, a);
      assert forall u :: 0 <= u < |found| ==> (found + [x])[u] == found[u];
      assert (found + [x])[|found|] == x;
    }
  }

  lemma EndIsFree(blocks: seq<Block>, i: nat)
    requires Valid(blocks) && i < |blocks|
    ensures !Covers(blocks, blocks[i].End())
  {
  }

  ghost predicate Disjoint(a: seq<Block>, b: seq<Block>) { forall x :: !(Covers(a, x) && Covers(b, x)) }

  ghost predicate Subset(a: seq<Block>, b: seq<Block>) { forall x :: Covers(a, x) ==> Covers(b, x) }

  /** mremap() flags. */
  datatype MremapFlags = MremapFlags(mayMove: bool, fixed: bool, dontUnmap: bool, other: bool)

  /** The flags that the kernel rejects. */
  predicate Invalid(flags: MremapFlags) { flags.other || (flags.dontUnmap && !flags.mayMove) }

  /** The kernel maps no range around the address of a mremap() with an old size of 0. */
  predicate Spans(start: int, len: nat, addr: int) { start < addr < start + len }

  /** Where mremap() puts a mapping.  The arena has no part in the calls that are the kernel's alone.
      Otherwise the mapping stays if it fits and the kernel can do that in place; if it does not stay and
      may move, it moves to a range that the arena finds, if the kernel can do that. */
  ghost predicate Placed(notInArena: bool, free: seq<Block>, addr: nat, oldLen: nat, newLen: nat, flags: MremapFlags,
                         elsewhere: Option<nat>, inPlace: bool, moves: bool, answers: seq<Answer>, found: seq<int>,
                         ret: Option<int>)
    requires |answers| == MAX_TRIES
  {
    if notInArena then ret == elsewhere
    else if inPlace && StaysInPlace(free, addr, oldLen, newLen, flags) then ret == Some(addr)
    else if !flags.mayMove then ret == None
    else exists to :: Outcome(free, 0, newLen, answers, found, to) && ret == if moves then to else None
  }

  predicate InRange(start: Option<int>, length: nat, a: int) { start.Some? && start.value <= a < start.value + length }

  /** What is free after a search and a mapping of the range that it found. */
  ghost predicate IsLeft(free: seq<Block>, first: seq<Block>, length: nat, answers: seq<Answer>, found: seq<int>,
                         ret: Option<int>) {
    && |found| <= |answers|
    && forall a :: Covers(free, a) <==>
         FreeAt(first, length, answers, found, |found|, a) && !InRange(ret, length, a)
  }

  /** A range that the arena chooses is aligned, and all of it was free. */
  lemma ChosenWasFree(first: seq<Block>, hint: nat, length: nat, answers: seq<Answer>, found: seq<int>, addr: int)
    requires |answers| == MAX_TRIES && Outcome(first, hint, length, answers, found, Some(addr))
    ensures addr > 0 && addr % Alignment(hint) == 0
    ensures forall a :: addr <= a < addr + length ==> Covers(first, a)
  {
    var t: nat := |found| - 1;
    assert LowestAt(first, hint, length, answers, found, t, found[t]);
    forall a | addr <= a < addr + length ensures Covers(first, a) {
      assert FreeAt(first, length, answers, found, t, a);
    }
  }

  /** max_allocated_addr after a search, also if the mapping then does not move. */
  function MaxAfter(max: nat, length: nat, answers: seq<Answer>, found: seq<int>): (r: int)
    requires |found| <= |answers|
    ensures r >= max
  {
    if found != [] && answers[|found| - 1].Mapped? then Max(max, found[|found| - 1] + length) else max
  }

  predicate StaysInPlace(free: seq<Block>, addr: nat, oldLen: nat, newLen: nat, flags: MremapFlags) {
    !flags.dontUnmap && (newLen <= oldLen || InSome(free, addr + oldLen, newLen - oldLen))
  }

  class Arena {
    const used: BlockList        // allocated_blocks
    const free: BlockList        // free_blocks
    var base: Option<nat>        // arena_base
    var maxAllocated: nat        // max_allocated_addr

    /** The lists are sorted, and no address is in both. */
    ghost predicate Ok()
      reads this, used, free
    {
      && used != free && Valid(used.blocks) && Valid(free.blocks)
      && Disjoint(used.blocks, free.blocks)
    }

    /** Every allocated address is below max_allocated_addr. */
    ghost predicate BelowMax()
      reads this, used
    {
      forall a :: Covers(used.blocks, a) ==> a < maxAllocated
    }

    constructor ()
      ensures Ok() && fresh(used) && fresh(free)
      ensures used.blocks == [] && free.blocks == [] && base == None && maxAllocated == 0
    {
      used := new BlockList();
      free := new BlockList();
      base := None;
      maxAllocated := 0;
    }

    /** A new mapping: from free to allocated. */
    method Record(block: Block)
      requires Ok() && block.len > 0 && block.addr > 0
      modifies used, free
      ensures Ok()
      ensures forall a :: Covers(used.blocks, a) <==> old(Covers(used.blocks, a)) || block.Has(a)
      ensures forall a :: Covers(free.blocks, a) <==> old(Covers(free.blocks, a)) && !block.Has(a)
    {
      used.Merge(block);
      free.Remove(block);
    }

    /** A mapping goes away: from allocated to free. */
    method Forget(block: Block)
      requires Ok() && block.len > 0 && block.addr > 0
      modifies used, free
      ensures Ok()
      ensures forall a :: Covers(used.blocks, a) <==> old(Covers(used.blocks, a)) && !block.Has(a)
      ensures forall a :: Covers(free.blocks, a) <==> old(Covers(free.blocks, a)) || block.Has(a)
    {
      used.Remove(block);
      free.Merge(block);
    }

    /** The mappings in the way of [addr, addr + length) leave the free list. */
    method Avoid(mappings: seq<Block>, addr: int, length: nat)
      requires Ok() && forall i :: 0 <= i < |mappings| ==> mappings[i].len > 0
      modifies free
      ensures Ok()
      ensures forall a :: Covers(free.blocks, a) <==> old(Covers(free.blocks, a)) && !Swept(mappings, addr, length, a)
    {
      var i := 0;
      while i < |mappings|
        invariant 0 <= i <= |mappings| && Ok() && !Stops(mappings, i, addr + length)
        invariant forall a :: Covers(free.blocks, a) <==>
                    old(Covers(free.blocks, a)) && !Swept(mappings[..i], addr, length, a)
      {
        forall a {
          SweptNext(mappings, i, addr, length, a);
        }
        if mappings[i].addr >= addr + length {
          return;
        }
        if mappings[i].End() > addr {
          free.Remove(mappings[i]);
        }
        i := i + 1;
      }
      assert mappings[..i] == mappings;
    }

    /** arena_mmap(): a range at the arena's next fit, which was free.  'found' has the addresses that
        it tried. */
    method ArenaMmap(hint: nat, length: nat, answers: seq<Answer>) returns (addr: Option<int>, ghost found: seq<int>)
      requires Ok() && Answers(answers)
      modifies this`maxAllocated, free
      ensures Ok()
      ensures addr.Some? ==>
                addr.value > 0 && addr.value % Alignment(hint) == 0 && InSome(free.blocks, addr.value, length)
      ensures length > 0 ==> Outcome(old(free.blocks), hint, length, answers, found, addr)
      ensures IsFreeAt(free.blocks, old(free.blocks), length, answers, found)
      ensures maxAllocated == if addr.Some? then Max(old(maxAllocated), addr.value + length) else old(maxAllocated)
    {
      found := [];
      var tries := 0;
      while tries < MAX_TRIES
        invariant |found| == tries <= MAX_TRIES && Ok() && maxAllocated == old(maxAllocated)
        invariant IsFreeAt(free.blocks, old(free.blocks), length, answers, found)
        invariant forall t :: 0 <= t < tries ==> answers[t].Exists?
        invariant length > 0 ==> Searched(old(free.blocks), hint, length, answers, found)
      {
        ghost var before := free.blocks;
        addr := NextFree(free.blocks, hint, length);
        if addr.None? {
          if length > 0 {
            NoneFits(before, old(free.blocks), hint, length, answers, found);
          }
          return None, found;
        }
        if length > 0 {
          SearchedNext(before, old(free.blocks), hint, length, answers, found, addr.value);
        }
        if answers[tries].Exists? {
          Avoid(answers[tries].mappings, addr.value, length);
        }
        FreeNext(before, free.blocks, old(free.blocks), length, answers, found, addr.value);
        found := found + [addr.value];
        if answers[tries].Mapped? {
          if addr.value + length > maxAllocated {
            maxAllocated := addr.value + length;
          }
          return addr, found;
        } else if answers[tries].Error? {
          return None, found;
        }
        tries := tries + 1;
      }
      return None, found;
    }

    /** The arena, and not the caller, chooses where mmap() maps. */
    predicate Chosen(addr: nat, fixed: bool)
      reads this
    {
      base.Some? && (addr == 0 || !fixed || (maxAllocated != 0 && addr > maxAllocated))
    }

    /** A mapping where the arena finds room. */
    method MapInArena(hint: nat, length: nat, answers: seq<Answer>) returns (ret: Option<int>, ghost found: seq<int>)
      requires Ok() && Answers(answers) && length > 0
      modifies this`maxAllocated, used, free
      ensures Ok() && Outcome(old(free.blocks), hint, length, answers, found, ret)
      ensures ret.Some? ==> ret.value > 0
      ensures ret.None? ==> used.blocks == old(used.blocks)
      ensures forall a :: Covers(used.blocks, a) <==> old(Covers(used.blocks, a)) || InRange(ret, length, a)
      ensures IsLeft(free.blocks, old(free.blocks), length, answers, found, ret)
      ensures maxAllocated == if ret.Some? then Max(old(maxAllocated), ret.value + length) else old(maxAllocated)
    {
      ret, found := ArenaMmap(hint, length, answers);
      if ret.Some? {
        Record(Block(ret.value, length));
      }
    }

    /** A mapping at the kernel's answer to the caller's address. */
    method MapAt(kernel: Option<nat>, length: nat)
      requires Ok() && length > 0 && kernel != Some(0)
      modifies used, free
      ensures Ok()
      ensures kernel.None? ==> used.blocks == old(used.blocks)
      ensures forall a :: Covers(used.blocks, a) <==> old(Covers(used.blocks, a)) || InRange(kernel, length, a)
      ensures forall a :: Covers(free.blocks, a) <==> old(Covers(free.blocks, a)) && !InRange(kernel, length, a)
    {
      if kernel.Some? {
        Record(Block(kernel.value, length));
      }
    }

    /** __mmap_wrapper(): 'kernel' is the answer to a mmap() at the caller's address.  mmap() of no
        bytes fails.  max_allocated_addr stays above everything allocated exactly if the arena chose the
        address or the caller's range ends below it. */
    method Mmap(addr: nat, size: nat, fixed: bool, kernel: Option<nat>, answers: seq<Answer>)
      returns (ret: Option<int>, ghost found: seq<int>)
      requires Ok() && Answers(answers)
      requires kernel != Some(0)
      modifies this`maxAllocated, used, free
      ensures Ok()
      ensures if size == 0 then ret == None
              else if old(Chosen(addr, fixed))
              then Outcome(old(free.blocks), addr, RoundUp(size, PAGE_SIZE), answers, found, ret)
              else ret == kernel && found == []
      ensures ret.Some? ==> ret.value > 0
      ensures ret.None? ==> used.blocks == old(used.blocks)
      ensures forall a :: Covers(used.blocks, a) <==>
                old(Covers(used.blocks, a)) || InRange(ret, RoundUp(size, PAGE_SIZE), a)
      ensures IsLeft(free.blocks, old(free.blocks), RoundUp(size, PAGE_SIZE), answers, found, ret)
      ensures maxAllocated == if ret.Some? && old(Chosen(addr, fixed))
                              then Max(old(maxAllocated), ret.value + RoundUp(size, PAGE_SIZE)) else old(maxAllocated)
      ensures old(BelowMax()) ==>
                (BelowMax() <==>
                   ret.None? || old(Chosen(addr, fixed)) || ret.value + RoundUp(size, PAGE_SIZE) <= maxAllocated)
    {
      var length := RoundUp(size, PAGE_SIZE);
      ret, found := None, [];
      if length == 0 {
        return;
      }
      if Chosen(addr, fixed) {
        ret, found := MapInArena(addr, length, answers);
      } else {
        MapAt(kernel, length);
        ret := kernel;
      }
      assert ret.Some? ==> InRange(ret, length, ret.value + length - 1);
    }

    /** __munmap_wrapper(): 'ok' is the kernel's answer; munmap() of no bytes fails. */
    method Munmap(addr: nat, size: nat, ok: bool) returns (done: bool)
      requires Ok()
      modifies used, free
      ensures Ok()
      ensures done <==> addr > 0 && size > 0 && ok
      ensures done ==>
        && (forall a :: Covers(used.blocks, a) <==>
              old(Covers(used.blocks, a)) && !(addr <= a < addr + RoundUp(size, PAGE_SIZE)))
        && (forall a :: Covers(free.blocks, a) <==>
              old(Covers(free.blocks, a)) || addr <= a < addr + RoundUp(size, PAGE_SIZE))
      ensures !done ==> used.blocks == old(used.blocks) && free.blocks == old(free.blocks)
    {
      var length := RoundUp(size, PAGE_SIZE);
      if addr == 0 || length == 0 || !ok {
        return false;
      }
      Forget(Block(addr, length));
      return true;
    }

    /** is_free_range() */
    method IsFreeRange(addr: int, len: nat) returns (yes: bool)
      ensures yes <==> InSome(free.blocks, addr, len)
    {
      var i := 0;
      while i < |free.blocks|
        invariant 0 <= i <= |free.blocks|
        invariant forall k :: 0 <= k < i ==> !Within(addr, len, free.blocks[k])
      {
        if Within(addr, len, free.blocks[i]) {
          return true;
        }
        i := i + 1;
      }
      return false;
    }

    /** The kernel alone decides about the mremap(). */
    predicate NotInArena(oldLen: nat, flags: MremapFlags)
      reads this
    {
      base.None? || oldLen == 0 || flags.fixed || Invalid(flags)
    }

    /** Where __mremap_wrapper() puts the mapping: 'inPlace' and 'moves' are the kernel's answers,
        'elsewhere' the answer to a call that the arena has no part in. */
    method Place(addr: nat, oldLen: nat, newLen: nat, flags: MremapFlags, elsewhere: Option<nat>, inPlace: bool,
                 moves: bool, answers: seq<Answer>) returns (ret: Option<int>, ghost found: seq<int>)
      requires Ok() && Answers(answers) && addr > 0 && elsewhere != Some(0)
      modifies this`maxAllocated, free
      ensures Ok() && Subset(free.blocks, old(free.blocks))
      ensures ret.Some? ==> ret.value > 0
      ensures oldLen == 0 ==> free.blocks == old(free.blocks) && (ret.Some? ==> elsewhere == Some(ret.value))
      ensures NotInArena(oldLen, flags) ==> (ret.Some? <==> elsewhere.Some?)
      ensures ret.Some? && !NotInArena(oldLen, flags) ==>
                || (ret.value == addr && !flags.dontUnmap &&
                    (newLen <= oldLen || InSome(old(free.blocks), addr + oldLen, newLen - oldLen)))
                || (flags.mayMove && InSome(free.blocks, ret.value, newLen))
      ensures newLen > 0 ==>
                Placed(NotInArena(oldLen, flags), old(free.blocks), addr, oldLen, newLen, flags, elsewhere, inPlace,
                       moves, answers, found, ret)
      ensures IsFreeAt(free.blocks, old(free.blocks), newLen, answers, found)
      ensures newLen > 0 ==> maxAllocated == MaxAfter(old(maxAllocated), newLen, answers, found)
      ensures maxAllocated >= old(maxAllocated)
    {
      found := [];
      if NotInArena(oldLen, flags) {
        return if elsewhere.Some? then Some(elsewhere.value) else None, found;
      }
      ret := None;
      if !flags.dontUnmap {
        var fits := newLen <= oldLen;
        if !fits {
          fits := IsFreeRange(addr + oldLen, newLen - oldLen);
        }
        if fits && inPlace {
          return Some(addr), found;
        }
      }
      if flags.mayMove {
        ret, found := ArenaMmap(0, newLen, answers);
        if !moves {
          ret := None;
        }
      }
    }

    /** The lists after a mapping moved: 'keep' leaves the old one.  For an empty old range, they stay
        as they should exactly if it touches a free block. */
    method Move(from: Block, keep: bool, to: Block)
      requires Ok() && from.addr > 0 && to.addr > 0 && to.len > 0
      requires from.len == 0 ==> !Spans(to.addr, to.len, from.addr)
      modifies used, free
      ensures forall a :: Covers(used.blocks, a) <==>
                to.Has(a) || (old(Covers(used.blocks, a)) && (keep || !from.Has(a)))
      ensures forall a :: Covers(free.blocks, a) <==>
                !to.Has(a) && (old(Covers(free.blocks, a)) || (!keep && from.Has(a)))
      ensures keep || from.len > 0 ==> Ok()
      ensures !keep && from.len == 0 ==> (Ok() <==> Touches(old(free.blocks), from.addr))
    {
      if !keep {
        if from.len == 0 {
          TouchesFree(used.blocks, free.blocks, from.addr);
        }
        used.Remove(from);
        free.Merge(from);
      }
      ghost var torn := free.blocks;
      used.Merge(to);
      free.Remove(to);
      if !Valid(torn) {
        assert Outside(from, to) && from in free.blocks;
      }
    }

    /** __mremap_wrapper() with rounded sizes. */
    method Remap(addr: nat, oldLen: nat, newLen: nat, flags: MremapFlags, elsewhere: Option<nat>, inPlace: bool,
                 moves: bool, answers: seq<Answer>) returns (ret: Option<int>, ghost found: seq<int>)
      requires Ok() && Answers(answers) && elsewhere != Some(0) && addr > 0 && newLen > 0
      requires oldLen == 0 && elsewhere.Some? ==> !Spans(elsewhere.value, newLen, addr)
      modifies this`maxAllocated, used, free
      ensures ret.None? || oldLen > 0 || flags.dontUnmap ==> Ok()
      ensures ret.Some? && oldLen == 0 && !flags.dontUnmap ==> (Ok() <==> Touches(old(free.blocks), addr))
      ensures ret.None? ==> used.blocks == old(used.blocks)
      ensures ret.Some? ==> forall a :: Covers(used.blocks, a) <==>
                InRange(ret, newLen, a) ||
                (old(Covers(used.blocks, a)) && (flags.dontUnmap || !(addr <= a < addr + oldLen)))
      ensures Placed(NotInArena(oldLen, flags), old(free.blocks), addr, oldLen, newLen, flags, elsewhere, inPlace,
                     moves, answers, found, ret)
      ensures |found| <= |answers|
      ensures ret.Some? ==> forall a :: Covers(free.blocks, a) <==>
                && !InRange(ret, newLen, a)
                && (FreeAt(old(free.blocks), newLen, answers, found, |found|, a) ||
                    (!flags.dontUnmap && addr <= a < addr + oldLen))
      ensures var max := MaxAfter(old(maxAllocated), newLen, answers, found);
              maxAllocated == if ret.Some? then Max(max, ret.value + newLen) else max
    {
      ret, found := Place(addr, oldLen, newLen, flags, elsewhere, inPlace, moves, answers);
      if ret.Some? {
        Move(Block(addr, oldLen), flags.dontUnmap, Block(ret.value, newLen));
        if ret.value + newLen > maxAllocated {
          maxAllocated := ret.value + newLen;
        }
      }
    }

    /** __mremap_wrapper(); mremap() of NULL or to no bytes fails.  With an old size of 0 (a second
        mapping of shared pages), the lists stay as they should exactly if the address touches a free
        block. */
    method Mremap(addr: nat, oldSize: nat, newSize: nat, flags: MremapFlags, elsewhere: Option<nat>, inPlace: bool,
                  moves: bool, answers: seq<Answer>) returns (ret: Option<int>, ghost found: seq<int>)
      requires Ok() && Answers(answers) && elsewhere != Some(0)
      requires oldSize == 0 && elsewhere.Some? ==> !Spans(elsewhere.value, RoundUp(newSize, PAGE_SIZE), addr)
      modifies this`maxAllocated, used, free
      ensures ret.None? || oldSize > 0 || flags.dontUnmap ==> Ok()
      ensures ret.Some? && oldSize == 0 && !flags.dontUnmap ==> (Ok() <==> Touches(old(free.blocks), addr))
      ensures ret.Some? ==> forall a :: Covers(used.blocks, a) <==>
                || InRange(ret, RoundUp(newSize, PAGE_SIZE), a)
                || (old(Covers(used.blocks, a)) &&
                    (flags.dontUnmap || !(addr <= a < addr + RoundUp(oldSize, PAGE_SIZE))))
      ensures ret.None? ==> used.blocks == old(used.blocks)
      ensures if addr == 0 || newSize == 0 then ret == None
              else Placed(base.None? || oldSize == 0 || flags.fixed || flags.other ||
                          (flags.dontUnmap && !flags.mayMove), old(free.blocks), addr, RoundUp(oldSize, PAGE_SIZE),
                          RoundUp(newSize, PAGE_SIZE), flags, elsewhere, inPlace, moves, answers, found, ret)
      ensures |found| <= |answers|
      ensures ret.Some? ==> forall a :: Covers(free.blocks, a) <==>
                && !InRange(ret, RoundUp(newSize, PAGE_SIZE), a)
                && (FreeAt(old(free.blocks), RoundUp(newSize, PAGE_SIZE), answers, found, |found|, a) ||
                    (!flags.dontUnmap && addr <= a < addr + RoundUp(oldSize, PAGE_SIZE)))
      ensures addr > 0 && newSize > 0 ==>
                var length := RoundUp(newSize, PAGE_SIZE);
                var max := MaxAfter(old(maxAllocated), length, answers, found);
                maxAllocated == if ret.Some? then Max(max, ret.value + length) else max
      ensures old(BelowMax()) ==> BelowMax()
    {
      var oldLen, newLen := RoundUp(oldSize, PAGE_SIZE), RoundUp(newSize, PAGE_SIZE);
      ret, found := None, [];
      if addr > 0 && newLen > 0 {
        ret, found := Remap(addr, oldLen, newLen, flags, elsewhere, inPlace, moves, answers);
      }
    }

    /** restore_mmap(), at restart; mmap() at NULL or of no bytes fails. */
    method RestoreMmap(addr: nat, size: nat, ok: bool)
      requires Ok() && BelowMax()
      modifies this`maxAllocated, used, free
      ensures Ok() && BelowMax()
      ensures maxAllocated == Max(old(maxAllocated), addr + RoundUp(size, PAGE_SIZE))
      ensures ok && addr > 0 && size > 0 ==> forall a :: Covers(used.blocks, a) <==>
                old(Covers(used.blocks, a)) || addr <= a < addr + RoundUp(size, PAGE_SIZE)
      ensures ok && addr > 0 && size > 0 ==> forall a :: Covers(free.blocks, a) <==>
                old(Covers(free.blocks, a)) && !(addr <= a < addr + RoundUp(size, PAGE_SIZE))
      ensures !(ok && addr > 0 && size > 0) ==> used.blocks == old(used.blocks) && free.blocks == old(free.blocks)
    {
      var length := RoundUp(size, PAGE_SIZE);
      if addr + length > maxAllocated {
        maxAllocated := addr + length;
      }
      if ok && addr > 0 && length > 0 {
        Record(Block(addr, length));
      }
    }

    /** init_mem_arena_after_restore(): the arena starts above everything that was restored and ends
        at the first mapping above; it is usable exactly if something was restored and there is room. */
    method InitAfterRestore(firstAbove: Option<nat>)
      requires Ok() && BelowMax()
      requires firstAbove.Some? ==> firstAbove.value >= RoundUp(maxAllocated, PAGE_SIZE)
      modifies this`base, free
      ensures base == if maxAllocated > 0 then Some(RoundUp(maxAllocated, PAGE_SIZE)) else None
      ensures used != free && Disjoint(used.blocks, free.blocks)
      ensures var start := RoundUp(maxAllocated, PAGE_SIZE);
              forall a :: Covers(free.blocks, a) <==>
                start <= a < if firstAbove.Some? then firstAbove.value else start + SIZE_MAX / 2
      ensures Ok() <==> maxAllocated > 0 && firstAbove != Some(RoundUp(maxAllocated, PAGE_SIZE))
    {
      var start := RoundUp(maxAllocated, PAGE_SIZE);
      base := if start > 0 then Some(start) else None;
      var len := if firstAbove.Some? then firstAbove.value - start else SIZE_MAX / 2;
      free.blocks := [Block(start, len)];
      assert Valid(free.blocks) <==> free.blocks[0].len > 0 && free.blocks[0].addr > 0;
    }
  }

  /** An address that touches a free block is not inside an allocated one. */
  lemma TouchesFree(used: seq<Block>, free: seq<Block>, a: int)
    requires Valid(used) && Valid(free) && Disjoint(used, free)
    ensures Touches(free, a) ==> !StrictlyInside(used, a)
  {
    if Touches(free, a) && StrictlyInside(used, a) {
      var i :| 0 <= i < |free| && free[i].addr <= a <= free[i].End();
      var j :| 0 <= j < |used| && used[j].addr < a < used[j].End();
      var x := if a < free[i].End() then a else a - 1;
      assert free[i].Has(x) && used[j].Has(x);
      assert Covers(free, x) && Covers(used, x);
    }
  }

  /** mremap() with an old size of 0 breaks the lists of an arena without a free block at the
      address. */
  method EmptyMremapTears() returns (arena: Arena)
    ensures fresh(arena) && !arena.Ok()
  {
    arena := new Arena();
    var answers := seq(MAX_TRIES, _ => Error);
    var ret, found := arena.Mmap(0x1000, 0x2000, true, Some(0x1000), answers);
    if arena.free.blocks != [] {
      assert Covers(arena.free.blocks, arena.free.blocks[0].addr);
    }
    assert ret.Some? && !Touches(arena.free.blocks, 0x2000);
    var flags := MremapFlags(true, false, false, false);
    ret, found := arena.Mremap(0x2000, 0, 0x1000, flags, Some(0x9000), false, false, answers);
  }

  /** A fixed mapping that starts below max_allocated_addr and ends above it is not below it. */
  method FixedMmapPassesMax() returns (arena: Arena)
    ensures fresh(arena) && arena.Ok() && arena.base.Some? && !arena.BelowMax()
  {
    arena := new Arena();
    arena.RestoreMmap(0x1000, 0x1000, true);
    assert RoundUp(0x1000, PAGE_SIZE) == 0x1000;
    arena.InitAfterRestore(None);
    assert RoundUp(0x2000, PAGE_SIZE) == 0x2000 && !arena.Chosen(0x1000, true);
    var ret, found := arena.Mmap(0x1000, 0x2000, true, Some(0x1000), seq(MAX_TRIES, _ => Error));
  }
}
