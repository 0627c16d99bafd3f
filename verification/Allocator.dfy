/** The heap allocator: ALLOCATE, FREE and RESIZE over the arena. */
module Allocators {
  import opened Arenas

  const EINVAL := 22
  const ADDRESS_RANGE := 0x1_0000_0000
  const ADDRESS_LIMIT := 0x8000_0000

  /** The cells asked for: one for a request of zero bytes. */
  function Request(n: int): int {
    Aligned(if n == 0 then CELL else n)
  }

  /** The address rounded up to a cell, as a cell of its own. */
  function AlignedAddress(a: int): int {
    Aligned(a) % ADDRESS_RANGE
  }

  /** The search for n bytes gets to the end of the arena. */
  predicate SearchEnds(n: int, sizes: seq<int>) {
    var r := Searched(n, sizes);
    r.index == |r.sizes|
  }

  lemma RequestRegular(n: int)
    requires n >= 0
    ensures Request(n) > 0 && Regular(Request(n)) && Request(n) % 4 == 0
    ensures if n == 0 then Request(n) == 4 else n <= Request(n) < n + 4
  {
  }

  class Allocator {
    /** The break at the first use. */
    const start: int

    var memory: Memory
    /** The arena, or zero before its first use. */
    var arenap: int
    /** The break: the kernel's, and the one cached. */
    var top: int
    var bcache: int
    ghost var sizes: seq<int>

    constructor (start: int)
      requires start > 0 && start % CELL == 0 && start + CELL < ADDRESS_LIMIT
      ensures Valid() && this.start == start && sizes == []
    {
      this.start := start;
      memory, arenap, top, bcache, sizes := map[], 0, start, 0, [];
    }

    /** Where the arena ends once it is there: one cell after its last header. */
    ghost function End(): int
      reads this
    {
      start + Span(sizes) + CELL
    }

    ghost predicate Valid()
      reads this
    {
      && start > 0 && start % CELL == 0 && End() < ADDRESS_LIMIT
      && if arenap == 0 then sizes == [] && top == start && forall x :: x >= start ==> Fetch(memory, x) == 0
         else arenap == start && top == bcache == End() && Tiles(memory, start, sizes)
    }

    /** The blocks in use. */
    ghost function Used(): map<int, int>
      reads this
    {
      Live(start, sizes)
    }

    /** What the size check finds for an address: zero when it is outside the arena
        or its block is free. */
    ghost function Known(addr: int): int
      reads this
    {
      var a := AlignedAddress(addr);
      if start + CELL <= a < End() + 1 && Fetch(memory, a - CELL) >= 0 then Fetch(memory, a - CELL) else 0
    }

    /** An address that the size check refuses, or one that was handed out. */
    ghost predicate Honest(addr: int)
      reads this
    {
      0 <= addr < ADDRESS_RANGE && (Known(addr) == 0 || AlignedAddress(addr) in Used())
    }

    /** What every operation keeps: the contents of some blocks in use. */
    twostate predicate Keeps(live: map<int, int>)
      reads this
    {
      Kept(old(memory), memory, live)
    }

    method Store(value: int, a: int)
      modifies this`memory
      ensures memory == old(memory)[a := value]
    {
      memory := memory[a := value];
    }

    /** Change the break; zero asks for it. */
    method AllocB(a: int) returns (r: int)
      requires a == 0 || a >= top
      modifies this`top, this`bcache
      ensures top == (if a == 0 then old(top) else a) && bcache == top && r == top
    {
      if a != 0 { top := a; }
      bcache := top;
      r := top;
    }

    /** The address of the arena, which is set up empty on first use.  The zero is
        stored at the new break; the header itself is fresh memory. */
    method Arena() returns (a: int)
      requires Valid()
      modifies this`memory, this`arenap, this`top, this`bcache
      ensures Valid() && arenap != 0 && a == start
      ensures forall x :: Fetch(memory, x) == Fetch(old(memory), x)
      ensures old(arenap) != 0 ==> memory == old(memory)
    {
      if arenap == 0 {
        assert Fetch(memory, start) == 0;
        arenap := AllocB(0);
        var r := AllocB(arenap + CELL);
        Store(0, r);
        SpanOne(0);
      }
      a := arenap;
    }

    /** The size of the block at an address, or zero. */
    method AllocSize(addr: int) returns (n: int)
      requires Valid() && 0 <= addr < ADDRESS_RANGE
      modifies this`memory, this`arenap, this`top, this`bcache
      ensures Valid() && arenap != 0 && n == old(Known(addr)) == Known(addr) && n >= 0
      ensures forall x :: Fetch(memory, x) == Fetch(old(memory), x)
    {
      var arena := Arena();
      var a := AlignedAddress(addr);
      if arena + CELL <= a < bcache + 1 {
        n := Fetch(memory, a - CELL);
        if n < 0 { n := 0; }
      } else {
        n := 0;
      }
    }

    /** Coalesce the free blocks from block i on into block i. */
    method AllocDefrag(a: int, ghost i: nat)
      requires Valid() && arenap != 0 && i <= |sizes| && a == Header(start, sizes, i)
      modifies this`memory, this`sizes
      ensures Valid() && i <= |sizes| && a == Header(start, sizes, i)
      ensures sizes[..i] == old(sizes[..i]) && sizes[i..] == Coalesced(old(sizes[i..])) && |sizes| <= |old(sizes)|
      ensures Used() == old(Used()) && Keeps(old(Used()))
    {
      hide Span, Live, Holds, Kept, Coalesced;
      ghost var live, m0, head := Used(), memory, sizes[..i];
      KeptReflexive(memory, live);
      HeaderRead(memory, start, sizes, i);
      while Fetch(memory, a) < 0
        invariant Valid() && arenap != 0 && i <= |sizes| <= |old(sizes)| && a == Header(start, sizes, i)
        invariant sizes[..i] == head && Coalesced(sizes[i..]) == Coalesced(old(sizes[i..]))
        invariant Used() == live && Kept(m0, memory, live)
        invariant Fetch(memory, a) == if i == |sizes| then 0 else sizes[i]
        decreases |sizes|
      {
        HeaderRead(memory, start, sizes, i + 1);
        HeaderRead(memory, start, sizes, i);
        var next := a + CELL + Abs(Fetch(memory, a));
        if Fetch(memory, next) >= 0 {
          CoalescedStops(sizes[i..]);
          return;
        }
        ghost var m1 := memory;
        Store(Fetch(memory, next) - CELL + Fetch(memory, a), a);
        MergeStep(start, sizes, i, m1, memory);
        KeptTransitive(m0, m1, memory, live);
        sizes := Merged(sizes, i);
        HeaderRead(memory, start, sizes, i);
      }
      CoalescedStops(sizes[i..]);
    }

    /** Locate a block that serves n bytes, or the end of the arena. */
    method AllocSlot(n: int, addr1: int) returns (a: int, ghost i: nat)
      requires Valid() && arenap != 0 && addr1 == start && n > 0
      modifies this`memory, this`sizes
      ensures Valid() && Search(sizes, i) == Searched(n, old(sizes)) && i <= |sizes| && a == Header(start, sizes, i)
      ensures Used() == old(Used()) && Keeps(old(Used()))
    {
      hide Span, Live, Holds, Kept, Coalesced, Searched, Tiles;
      ghost var live, m0 := Used(), memory;
      KeptReflexive(memory, live);
      a, i := addr1, 0;
      HeaderStart(start, sizes);
      assert sizes[0..] == sizes;
      while true
        invariant Valid() && arenap != 0 && i <= |sizes| && a == Header(start, sizes, i)
        invariant Before(sizes[..i], Searched(n, sizes[i..])) == Searched(n, old(sizes))
        invariant Used() == live && Kept(m0, memory, live)
        decreases |sizes| - i
      {
        ghost var rest, m1 := sizes[i..], memory;
        AllocDefrag(a, i);
        KeptTransitive(m0, m1, memory, live);
        HeaderRead(memory, start, sizes, i);
        PassBlock(n, sizes, i, rest);
        var length := Fetch(memory, a);
        if length == 0 {
          return;
        }
        if length < 0 {
          length := -length;
          if length - n == 0 { return; }
          if !(length - n < 2 * CELL) { return; }
        }
        a := a + CELL + length;
        i := i + 1;
      }
    }

    /** Room for a request: when no free block fits, the break can be extended and
        addresses stay small. */
    ghost predicate Room(n: int)
      reads this
    {
      SearchEnds(Request(n), sizes) ==> End() + CELL + Request(n) < ADDRESS_LIMIT
    }

    /** Allocate n bytes.  Requests for a negative size are refused; all others get
        the block that first fit finds, apart from all blocks in use, whose
        contents stay as they are. */
    method Allocate(n: int) returns (addr: int, code: int)
      requires Valid() && (n >= 0 ==> Room(n))
      modifies this
      ensures Valid() && Keeps(old(Used()))
      ensures n < 0 ==> addr == 0 && code == 22 && sizes == old(sizes)
      ensures n >= 0 ==> arenap != 0
      ensures n >= 0 ==>
        code == 0 && addr == NewAddress(start, Request(n), old(sizes)) && sizes == Allocated(Request(n), old(sizes))
      ensures n >= 0 ==> addr !in old(Used()) && Used() == old(Used())[addr := Request(n)]
    {
      hide Span, Live, Holds, Kept, Searched, Tiles, Allocated, Regular, Request;
      ghost var live, m0 := Used(), memory;
      KeptReflexive(memory, live);
      if n < 0 {
        return 0, EINVAL;
      }
      RequestRegular(n);
      ValidSound();
      AllocatedLive(start, Request(n), sizes);
      AllocatedMeaning(Request(n), sizes);
      var size := if n == 0 then CELL else n;
      size := Aligned(size);
      assert size == Request(n) by { RequestMeaning(n); }
      var arena := Arena();
      KeptSame(m0, memory, live);
      ghost var i;
      ghost var m1 := memory;
      var a;
      a, i := AllocSlot(size, arena);
      KeptTransitive(m0, m1, memory, live);
      FirstFit(size, old(sizes));
      ghost var m2 := memory;
      TakeSlot(size, a, i);
      KeptTransitive(m0, m2, memory, live);
      return a + CELL, 0;
    }

    /** Take the block that the search has found: a new one, all of it, or its front. */
    method TakeSlot(size: int, a: int, ghost i: nat)
      requires Valid() && arenap != 0 && i <= |sizes| && a == Header(start, sizes, i) && size > 0 && Regular(size)
      requires i == |sizes| ==> End() + CELL + size < ADDRESS_LIMIT
      requires i < |sizes| ==> sizes[i] < 0 && Fits(-sizes[i], size)
      modifies this`memory, this`sizes, this`top, this`bcache
      ensures Valid() && Keeps(old(Used()))
      ensures i == |old(sizes)| ==> sizes == old(sizes) + [size]
      ensures i < |old(sizes)| && old(sizes)[i] == -size ==> sizes == old(sizes)[..i] + ([size] + old(sizes)[i + 1..])
      ensures i < |old(sizes)| && old(sizes)[i] != -size ==>
        sizes == old(sizes)[..i] + ([size, size + CELL + old(sizes)[i]] + old(sizes)[i + 1..])
    {
      hide Span, Live, Holds, Kept, Tiles, Regular;
      HeaderRead(memory, start, sizes, i);
      ghost var m0 := memory;
      if Fetch(memory, a) == 0 {
        Store(size, a);
        var end := AllocB(a + size + 2 * CELL);
        Store(0, end - CELL);
        Extended(start, size, sizes, m0, memory);
        sizes := sizes + [size];
      } else if -Fetch(memory, a) == size {
        Store(size, a);
        TakenWhole(start, size, sizes, i, m0, memory);
        sizes := sizes[..i] + ([size] + sizes[i + 1..]);
      } else {
        var free := Fetch(memory, a);
        Store(size, a);
        var next := a + size + CELL;
        Store(free + CELL + size, next);
        TakenInPart(start, size, sizes, i, m0, memory);
        sizes := sizes[..i] + ([size, size + CELL + free] + sizes[i + 1..]);
      }
    }

    /** Blocks in use are disjoint, inside the arena, and lie on cells. */
    lemma ValidApart()
      requires Valid()
      ensures Apart(Used(), start, End() - CELL)
      ensures forall p :: p in Used() ==> p % CELL == 0 && Used()[p] % CELL == 0
    {
      if arenap != 0 { LiveApart(memory, start, sizes); }
    }

    lemma ValidSound()
      requires Valid()
      ensures Sound(sizes)
    {
      if arenap != 0 { HoldsSound(memory, start, sizes); }
    }

    /** Give the block at an address back.  The cell before any address that is not
        refused is negated and nothing else changes; for one that was handed out,
        that frees the block. */
    method Free(addr: int) returns (code: int)
      requires Valid() && 0 <= addr < ADDRESS_RANGE
      modifies this
      ensures old(Known(addr)) == 0 ==> code == 22 && forall x :: Fetch(memory, x) == Fetch(old(memory), x)
      ensures old(Known(addr)) != 0 ==>
        var h := AlignedAddress(addr) - CELL;
        code == 0 && forall x :: Fetch(memory, x) == if x == h then -Fetch(old(memory), x) else Fetch(old(memory), x)
      ensures old(Honest(addr)) ==> Valid() && Keeps(old(Used()))
      ensures old(Known(addr)) == 0 ==> Valid() && sizes == old(sizes)
      ensures old(Known(addr)) != 0 && AlignedAddress(addr) in old(Used()) ==>
        && Freed(start, old(sizes), sizes, AlignedAddress(addr))
        && Used() == old(Used()) - {AlignedAddress(addr)}
    {
      hide Span, Live, Holds, Kept, Tiles, Freed;
      ghost var live, m0 := Used(), memory;
      var n := AllocSize(addr);
      KeptSame(m0, memory, live);
      if n == 0 {
        return EINVAL;
      }
      ghost var m1 := memory;
      GiveBack(AlignedAddress(addr) - CELL);
      if AlignedAddress(addr) in live {
        KeptTransitive(m0, m1, memory, live);
      }
      return 0;
    }

    /** Negate a header; when it is that of a block in use, the block is free then. */
    method GiveBack(h: int)
      requires Valid() && arenap != 0
      modifies this`memory, this`sizes
      ensures memory == old(memory)[h := -Fetch(old(memory), h)]
      ensures h + CELL in old(Used()) ==>
        && Valid() && Keeps(old(Used())) && Used() == old(Used()) - {h + CELL}
        && Freed(start, old(sizes), sizes, h + CELL)
    {
      hide Span, Live, Holds, Kept, Tiles, Sound;
      ghost var m0 := memory;
      ghost var inUse := h + CELL in Used();
      Store(-Fetch(memory, h), h);
      if inUse {
        FreeBlock(h, m0);
      }
    }

    ghost method FreeBlock(h: int, m0: Memory)
      requires arenap == start > 0 && h + CELL in Used() && Tiles(m0, start, sizes)
      requires start % CELL == 0 && End() < ADDRESS_LIMIT && top == bcache == End()
      requires memory == m0[h := -Fetch(m0, h)]
      modifies this`sizes
      ensures Valid() && Kept(m0, memory, old(Used())) && Used() == old(Used()) - {h + CELL}
      ensures Freed(start, old(sizes), sizes, h + CELL)
    {
      hide Span, Live, Holds, Kept, Tiles, Sound;
      ghost var i := LiveIndex(start, sizes, h + CELL);
      TilesSound(m0, start, sizes);
      HeaderRead(m0, start, sizes, i);
      FreedLive(start, sizes, i);
      Negated(start, sizes, i, m0, memory);
      sizes := sizes[i := -sizes[i]];
    }

    /** Copy cells to a place apart. */
    method Move(src: int, dst: int, bytes: int)
      requires bytes >= 0 && bytes % CELL == 0 && (src + bytes <= dst || dst + bytes <= src)
      modifies this`memory
      ensures forall k :: 0 <= k < bytes && k % CELL == 0 ==> Fetch(memory, dst + k) == Fetch(old(memory), src + k)
      ensures forall z :: z < dst || dst + bytes <= z ==> Fetch(memory, z) == Fetch(old(memory), z)
    {
      var k := 0;
      while k < bytes
        invariant 0 <= k <= bytes && k % CELL == 0
        invariant forall z :: z < dst || dst + bytes <= z ==> Fetch(memory, z) == Fetch(old(memory), z)
        invariant forall j :: 0 <= j < k && j % CELL == 0 ==> Fetch(memory, dst + j) == Fetch(old(memory), src + j)
      {
        Store(Fetch(memory, src + k), dst + k);
        k := k + CELL;
      }
    }

    /** A program writes into a block of its own. */
    method Poke(value: int, z: int, ghost p: int)
      requires Valid() && p in Used() && p <= z < p + Used()[p]
      modifies this`memory
      ensures Valid() && Keeps(old(Used()) - {p}) && Fetch(memory, z) == value
    {
      hide Span, Live, Holds, Kept, Tiles;
      assert arenap != 0 by { NoneUsed(start); }
      ghost var m0 := memory;
      Store(value, z);
      WrittenInside(start, sizes, p, m0, memory);
    }

    /** Move the contents of a block to a larger one, and give it back. */
    method Relocate(a: int, size: int, previous: int) returns (r: int)
      requires Valid() && arenap != 0 && a in Used() && previous == Used()[a] && size > previous
      requires Regular(size) && Room(size)
      modifies this
      ensures Valid() && r == NewAddress(start, size, old(sizes)) && Used() == (old(Used()) - {a})[r := size]
      ensures Freed(start, Allocated(size, old(sizes)), sizes, a)
      ensures Keeps(old(Used()) - {a})
      ensures forall k :: 0 <= k < previous && k % CELL == 0 ==> Fetch(memory, r + k) == Fetch(old(memory), a + k)
    {
      hide Span, Live, Holds, Kept, Tiles, Searched, Allocated, Request, Freed, Sound;
      ghost var live, m0 := Used(), memory;
      ValidApart();
      RequestAligned(size);
      var code;
      r, code := Allocate(size);
      ghost var live1, m1 := Used(), memory;
      ValidApart();
      AwayFrom(live1, a, r, start, start + Span(sizes));
      TakeOver(a, r, previous);
      RelocatedKept(m0, m1, memory, live, live1, a, r);
    }

    /** Give a block back and copy its contents to another one. */
    method TakeOver(a: int, r: int, previous: int)
      requires Valid() && arenap != 0 && a in Used() && r in Used() && previous == Used()[a] && previous < Used()[r]
      requires a + previous <= r || r + Used()[r] <= a
      requires previous > 0 && previous % CELL == 0
      modifies this`memory, this`sizes
      ensures Freed(start, old(sizes), sizes, a)
      ensures Valid() && Used() == old(Used()) - {a} && Keeps(old(Used()) - {a} - {r})
      ensures forall k :: 0 <= k < previous && k % CELL == 0 ==> Fetch(memory, r + k) == Fetch(old(memory), a + k)
    {
      hide Span, Live, Holds, Kept, Tiles, Freed;
      ghost var live, m1 := Used(), memory;
      GiveBack(a - CELL);
      ghost var m2 := memory;
      Move(a, r, previous);
      WrittenInside(start, sizes, r, m2, memory);
      KeptPart(m1, m2, live, live - {a} - {r});
      KeptTransitive(m1, m2, memory, live - {a} - {r});
      forall k | 0 <= k < previous && k % CELL == 0 ensures Fetch(memory, r + k) == Fetch(m1, a + k) {
        KeptCell(m1, m2, live, a, a + k);
      }
    }

    /** Change the size of the block at an address: in place when it does not grow,
        with the rest given back when that makes a block of its own, and otherwise
        by moving to a new block. */
    method Resize(addr: int, n: int) returns (r: int, code: int)
      requires Valid() && Honest(addr) && (0 < Known(addr) < Request(n) ==> Room(n))
      modifies this
      ensures Valid() && Keeps(old(Used()) - {AlignedAddress(addr)})
      ensures n < 0 || old(Known(addr)) == 0 ==> r == 0 && code == 22 && sizes == old(sizes)
      ensures n >= 0 && old(Known(addr)) != 0 ==>
        Resized(start, old(sizes), sizes, old(memory), memory, AlignedAddress(addr), Request(n), r) && code == 0
        && Request(n) <= Used()[r] < Request(n) + 8
    {
      hide Span, Live, Holds, Kept, Tiles, Sound, Request, Allocated, Searched, Shrunk;
      ghost var live, m0, s0 := Used(), memory, sizes;
      var a := AlignedAddress(addr);
      KeptReflexive(memory, live);
      KeptFewer(memory, memory, live, a);
      if n < 0 {
        return 0, EINVAL;
      }
      RequestRegular(n);
      var size := if n == 0 then CELL else n;
      var known := AllocSize(addr);
      KeptSame(m0, memory, live);
      KeptFewer(m0, memory, live, a);
      if known == 0 {
        return 0, EINVAL;
      }
      size := Aligned(size);
      assert size == Request(n) by { RequestMeaning(n); }
      ghost var m1 := memory;
      var previous := Fetch(memory, a - CELL);
      ghost var i := LiveIndex(start, sizes, a);
      HeaderRead(memory, start, sizes, i);
      if size > previous {
        RequestAligned(size);
        r := Relocate(a, size, previous);
        KeptTransitive(m0, m1, memory, live - {a});
        return r, 0;
      }
      if previous - size < 2 * CELL {
        NotShrunk(start, sizes, a, size);
        return a, 0;
      }
      var h := a - CELL;
      Store(size, h);
      var next := h + size + CELL;
      Store(size - previous + CELL, next);
      ShrunkInPlace(start, size, sizes, i, m1, memory);
      sizes := sizes[..i] + ([size, size - previous + CELL] + sizes[i + 1..]);
      KeptTransitive(m0, m1, memory, live - {a});
      return a, 0;
    }
  }

  // ----- memory -----

  lemma KeptReflexive(m: Memory, live: map<int, int>)
    ensures Kept(m, m, live)
  {
  }

  lemma KeptTransitive(m0: Memory, m1: Memory, m2: Memory, live: map<int, int>)
    requires Kept(m0, m1, live) && Kept(m1, m2, live)
    ensures Kept(m0, m2, live)
  {
  }

  // ----- coalescing -----

  /** Blocks i and i + 1 as one. */
  function Merged(sizes: seq<int>, i: nat): seq<int>
    requires i + 1 < |sizes|
  {
    sizes[..i] + ([sizes[i] + sizes[i + 1] - CELL] + sizes[i + 2..])
  }

  lemma CoalescedStops(sizes: seq<int>)
    requires sizes == [] || sizes[0] >= 0 || (|sizes| >= 2 ==> sizes[1] >= 0)
    ensures Coalesced(sizes) == sizes
  {
  }

  lemma CoalescedGoes(sizes: seq<int>)
    requires |sizes| >= 2 && sizes[0] < 0 && sizes[1] < 0
    ensures Coalesced(sizes) == Coalesced([sizes[0] + sizes[1] - CELL] + sizes[2..])
  {
  }

  /** Writing the merged size over the first header merges two free blocks. */
  lemma MergeStep(a: int, sizes: seq<int>, i: nat, m1: Memory, m2: Memory)
    requires Tiles(m1, a, sizes) && i + 1 < |sizes| && sizes[i] < 0 && sizes[i + 1] < 0
    requires m2 == m1[Header(a, sizes, i) := sizes[i] + sizes[i + 1] - CELL]
    ensures var merged := Merged(sizes, i);
      && Tiles(m2, a, merged) && Span(merged) == Span(sizes) && Live(a, merged) == Live(a, sizes)
      && merged[..i] == sizes[..i] && Coalesced(merged[i..]) == Coalesced(sizes[i..])
      && Header(a, merged, i) == Header(a, sizes, i)
    ensures Kept(m1, m2, Live(a, sizes))
  {
    hide Live, Holds, Span, Kept, Coalesced, Regular;
    var x, s, f, g, y := sizes[..i], sizes[i] + sizes[i + 1] - CELL, sizes[i], sizes[i + 1], sizes[i + 2..];
    assert sizes == x + ([f, g] + y);
    assert sizes[i..] == [f, g] + y && Merged(sizes, i)[i..] == [s] + y && Merged(sizes, i)[..i] == x;
    assert ([f, g] + y)[2..] == y;
    CoalescedGoes([f, g] + y);
    HeaderRead(m1, a, sizes, i);
    HeaderRead(m1, a, sizes, i + 1);
    FreeKept(a, sizes, i, m1, m2);
    MergedPair(a + Span(x), f, g, y);
    HoldsOne(m2, a + Span(x), s);
    LiveThen(a, x, [f, g] + y);
    LiveThen(a, x, [s] + y);
    Replaced(m1, m2, a, x, [f, g], [s], y);
  }

  lemma HoldsOne(m: Memory, a: int, s: int)
    requires Fetch(m, a) == s && Regular(s)
    ensures Holds(m, a, [s])
  {
  }

  lemma MergedPair(h: int, f: int, g: int, y: seq<int>)
    requires f < 0 && g < 0 && Regular(f) && Regular(g)
    ensures var s := f + g - CELL;
      Span([s]) == Span([f, g]) == CELL - s && Regular(s) && Live(h, [s] + y) == Live(h, [f, g] + y)
  {
    assert [f, g] + y == [f] + ([g] + y) && [f, g] == [f] + [g];
    LiveRest(h, f + g - CELL, y);
    LiveRest(h, f, [g] + y);
    LiveRest(h + CELL - f, g, y);
    SpanOne(f + g - CELL);
    SpanThen([f], [g]);
    SpanOne(f);
    SpanOne(g);
  }

  lemma HeaderStart(a: int, sizes: seq<int>)
    ensures Header(a, sizes, 0) == a
  {
  }

  // ----- searching -----

  /** A search that has passed some blocks. */
  function Before(x: seq<int>, r: Search): Search {
    Search(x + r.sizes, |x| + r.index)
  }

  /** One step of the search, at block i once it is coalesced: it is the one to
      take, or the search goes on behind it. */
  lemma PassBlock(n: int, sizes: seq<int>, i: nat, rest: seq<int>)
    requires i <= |sizes| && sizes[i..] == Coalesced(rest)
    ensures var r := Before(sizes[..i], Searched(n, rest));
      if i == |sizes| || (sizes[i] < 0 && Fits(-sizes[i], n)) then r == Search(sizes, i)
      else r == Before(sizes[..i + 1], Searched(n, sizes[i + 1..]))
  {
    hide Coalesced;
    var c := sizes[i..];
    assert sizes == sizes[..i] + c;
    if i < |sizes| && !(c[0] < 0 && Fits(-c[0], n)) {
      assert c[0] == sizes[i] && c[1..] == sizes[i + 1..] && sizes[..i + 1] == sizes[..i] + [sizes[i]];
      var r := Searched(n, c[1..]);
      assert sizes[..i] + ([c[0]] + r.sizes) == sizes[..i + 1] + r.sizes;
    }
  }

  // ----- taking a block -----

  lemma {:induction false} HoldsSound(m: Memory, a: int, sizes: seq<int>)
    requires Holds(m, a, sizes)
    ensures Sound(sizes)
    decreases |sizes|
  {
    if sizes != [] {
      HoldsSound(m, a + CELL + Abs(sizes[0]), sizes[1..]);
    }
  }

  lemma TilesSound(m: Memory, a: int, sizes: seq<int>)
    requires Tiles(m, a, sizes)
    ensures Sound(sizes)
  {
    HoldsSound(m, a, sizes);
  }

  lemma KeptSame(m1: Memory, m2: Memory, live: map<int, int>)
    requires forall x :: Fetch(m2, x) == Fetch(m1, x)
    ensures Kept(m1, m2, live)
  {
  }

  lemma RequestMeaning(n: int)
    ensures Request(n) == Aligned(if n == 0 then CELL else n)
  {
  }

  lemma AllocatedMeaning(n: int, sizes: seq<int>)
    ensures var r := Searched(n, sizes); var c, i := r.sizes, r.index;
      && (forall a :: NewAddress(a, n, sizes) == Header(a, c, i) + CELL)
      && (i == |c| ==> Allocated(n, sizes) == c + [n])
      && (i < |c| && c[i] == -n ==> Allocated(n, sizes) == c[..i] + ([n] + c[i + 1..]))
      && (i < |c| && c[i] != -n ==> Allocated(n, sizes) == c[..i] + ([n, n + CELL + c[i]] + c[i + 1..]))
  {
    hide Searched, Span, Live;
  }

  /** A new block at the end, and a new end. */
  lemma Extended(a: int, n: int, sizes: seq<int>, m1: Memory, m2: Memory)
    requires Tiles(m1, a, sizes) && Regular(n) && n > 0
    requires var h := a + Span(sizes); m2 == m1[h := n][h + CELL + n := 0]
    ensures Tiles(m2, a, sizes + [n]) && Span(sizes + [n]) == Span(sizes) + CELL + n && Kept(m1, m2, Live(a, sizes))
  {
    HoldsSame(m1, m2, a, sizes);
    HoldsThen(m2, a, sizes, [n]);
    HoldsOne(m2, a + Span(sizes), n);
    SpanThen(sizes, [n]);
    SpanOne(n);
    hide Span, Live, Holds;
    forall p, z | p in Live(a, sizes) && p <= z < p + Live(a, sizes)[p] ensures Fetch(m1, z) == Fetch(m2, z) {
      LiveRange(a, sizes, p);
    }
  }

  /** What is written inside a free block changes no block in use. */
  lemma FreeKept(a: int, sizes: seq<int>, i: nat, m1: Memory, m2: Memory)
    requires i < |sizes| && sizes[i] < 0
    requires var h := Header(a, sizes, i);
      forall z :: z < h || h + CELL + Abs(sizes[i]) <= z ==> Fetch(m1, z) == Fetch(m2, z)
    ensures Kept(m1, m2, Live(a, sizes))
  {
    hide Live, Span;
    var h := Header(a, sizes, i);
    forall p, z | p in Live(a, sizes) && p <= z < p + Live(a, sizes)[p] ensures Fetch(m1, z) == Fetch(m2, z) {
      if h <= z < h + CELL + Abs(sizes[i]) { FreeIsNotLive(a, sizes, i, p, z); }
    }
  }

  lemma TakenWhole(a: int, n: int, sizes: seq<int>, i: nat, m1: Memory, m2: Memory)
    requires Tiles(m1, a, sizes) && i < |sizes| && sizes[i] == -n && Regular(n) && n > 0
    requires m2 == m1[Header(a, sizes, i) := n]
    ensures var s := sizes[..i] + ([n] + sizes[i + 1..]); Tiles(m2, a, s) && Span(s) == Span(sizes)
    ensures Kept(m1, m2, Live(a, sizes))
  {
    hide Live, Holds, Span, Kept;
    var x, y := sizes[..i], sizes[i + 1..];
    assert sizes == x + ([-n] + y);
    HoldsOne(m2, a + Span(x), n);
    SpanOne(n);
    SpanOne(-n);
    FreeKept(a, sizes, i, m1, m2);
    Replaced(m1, m2, a, x, [-n], [n], y);
  }

  lemma TakenInPart(a: int, n: int, sizes: seq<int>, i: nat, m1: Memory, m2: Memory)
    requires Tiles(m1, a, sizes) && i < |sizes| && sizes[i] < 0 && -sizes[i] - n >= 2 * CELL && Regular(n) && n > 0
    requires Regular(sizes[i])
    requires var h := Header(a, sizes, i); m2 == m1[h := n][h + CELL + n := n + CELL + sizes[i]]
    ensures var s := sizes[..i] + ([n, n + CELL + sizes[i]] + sizes[i + 1..]); Tiles(m2, a, s) && Span(s) == Span(sizes)
    ensures Kept(m1, m2, Live(a, sizes))
  {
    hide Live, Holds, Span, Kept;
    var x, y, f := sizes[..i], sizes[i + 1..], sizes[i];
    var g := n + CELL + f;
    assert sizes == x + ([f] + y);
    HoldsTwo(m2, a + Span(x), n, g);
    SpanOne(f);
    FreeKept(a, sizes, i, m1, m2);
    Replaced(m1, m2, a, x, [f], [n, g], y);
  }

  lemma HoldsTwo(m: Memory, a: int, n: int, g: int)
    requires Fetch(m, a) == n && Fetch(m, a + CELL + Abs(n)) == g && Regular(n) && Regular(g)
    ensures Holds(m, a, [n, g]) && Span([n, g]) == 2 * CELL + Abs(n) + Abs(g)
  {
    assert [n, g] == [n] + [g];
    HoldsOne(m, a, n);
    HoldsOne(m, a + CELL + Abs(n), g);
    SpanOne(n);
    SpanOne(g);
    HoldsThen(m, a, [n], [g]);
    SpanThen([n], [g]);
  }

  // ----- giving back and resizing -----

  /** The block at p has been negated, and no other header has changed. */
  ghost predicate Freed(a: int, before: seq<int>, after: seq<int>, p: int) {
    exists i ::
      0 <= i < |before| && before[i] > 0 && Header(a, before, i) + CELL == p && after == before[i := -before[i]]
  }

  /** The block at p has been cut to q bytes and the rest of it made a free block,
      if the rest is large enough for one. */
  ghost predicate Shrunk(a: int, before: seq<int>, after: seq<int>, p: int, q: int)
    requires p in Live(a, before)
  {
    var s := Live(a, before)[p];
    if s - q < 2 * CELL then after == before
    else exists i :: 0 <= i < |before| && before[i] == s && Header(a, before, i) + CELL == p
           && after == before[..i] + ([q, q - s + CELL] + before[i + 1..])
  }

  /** The block at p has been resized to q bytes and is now at r, with as much of
      its contents as fits. */
  ghost predicate Resized(a: int, before: seq<int>, after: seq<int>, m1: Memory, m2: Memory, p: int, q: int, r: int) {
    var live, now := Live(a, before), Live(a, after);
    && p in live && r in now && q <= now[r] < q + 8
    && (forall k :: 0 <= k < live[p] && k < q && k % CELL == 0 ==> Fetch(m2, r + k) == Fetch(m1, p + k))
    && if q > live[p] then
         r == NewAddress(a, q, before) && now == (live - {p})[r := q] && Freed(a, Allocated(q, before), after, p)
       else
         r == p && now == live[p := if live[p] - q < 2 * CELL then live[p] else q] && Shrunk(a, before, after, p, q)
  }

  lemma NotShrunk(a: int, sizes: seq<int>, p: int, q: int)
    requires p in Live(a, sizes) && Live(a, sizes)[p] - q < 2 * CELL
    ensures Shrunk(a, sizes, sizes, p, q)
  {
  }

  lemma NoneUsed(a: int)
    ensures Live(a, []) == map[]
  {
  }

  lemma RequestAligned(n: int)
    requires n > 0 && Regular(n)
    ensures Request(n) == n
  {
  }

  lemma KeptFewer(m1: Memory, m2: Memory, live: map<int, int>, p: int)
    requires Kept(m1, m2, live)
    ensures Kept(m1, m2, live - {p})
  {
  }

  lemma KeptPart(m1: Memory, m2: Memory, live: map<int, int>, part: map<int, int>)
    requires Kept(m1, m2, live) && forall p :: p in part ==> p in live && part[p] == live[p]
    ensures Kept(m1, m2, part)
  {
  }

  lemma KeptCell(m1: Memory, m2: Memory, live: map<int, int>, p: int, z: int)
    requires Kept(m1, m2, live) && p in live && p <= z < p + live[p]
    ensures Fetch(m1, z) == Fetch(m2, z)
  {
  }

  /** Over an allocation, a release and a copy, the other blocks are kept, and the
      copy is of what was there at first. */
  lemma RelocatedKept(m0: Memory, m1: Memory, m2: Memory, live: map<int, int>, live1: map<int, int>, a: int, r: int)
    requires a in live && r !in live && r in live1 && live1 == live[r := live1[r]]
    requires Kept(m0, m1, live) && Kept(m1, m2, live1 - {a} - {r})
    requires forall k :: 0 <= k < live[a] && k % CELL == 0 ==> Fetch(m2, r + k) == Fetch(m1, a + k)
    ensures Kept(m0, m2, live - {a})
    ensures forall k :: 0 <= k < live[a] && k % CELL == 0 ==> Fetch(m2, r + k) == Fetch(m0, a + k)
  {
    hide Kept;
    assert live1 - {a} - {r} == live - {a};
    KeptFewer(m0, m1, live, a);
    KeptTransitive(m0, m1, m2, live - {a});
    forall k | 0 <= k < live[a] && k % CELL == 0 ensures Fetch(m2, r + k) == Fetch(m0, a + k) {
      KeptCell(m0, m1, live, a, a + k);
    }
  }

  lemma AwayFrom(live: map<int, int>, p: int, q: int, lo: int, hi: int)
    requires Apart(live, lo, hi) && p in live && q in live && p != q
    ensures p + live[p] <= q || q + live[q] <= p
  {
  }

  /** No header belongs to the contents of a block in use. */
  lemma HeaderIsNotLive(a: int, sizes: seq<int>, i: nat, p: int)
    requires i < |sizes| && p in Live(a, sizes)
    ensures !(p <= Header(a, sizes, i) < p + Live(a, sizes)[p])
  {
    var x, y := sizes[..i], sizes[i + 1..];
    var h := a + Span(x);
    assert sizes == x + ([sizes[i]] + y);
    LiveAround(a, x, sizes[i], y);
    hide Live, Span;
    if p in Live(a, x) {
      LiveRange(a, x, p);
    } else if p in Live(h + CELL + Abs(sizes[i]), y) {
      LiveRange(h + CELL + Abs(sizes[i]), y, p);
    }
  }

  lemma Negated(a: int, sizes: seq<int>, i: nat, m1: Memory, m2: Memory)
    requires Tiles(m1, a, sizes) && i < |sizes| && sizes[i] > 0 && Regular(sizes[i])
    requires m2 == m1[Header(a, sizes, i) := -sizes[i]]
    ensures Tiles(m2, a, sizes[i := -sizes[i]]) && Kept(m1, m2, Live(a, sizes))
  {
    hide Live, Holds, Span;
    var x, n, y := sizes[..i], sizes[i], sizes[i + 1..];
    assert sizes == x + ([n] + y) && sizes[i := -n] == x + ([-n] + y);
    HoldsOne(m2, a + Span(x), -n);
    SpanOne(n);
    SpanOne(-n);
    Replaced(m1, m2, a, x, [n], [-n], y);
    forall p, z | p in Live(a, sizes) && p <= z < p + Live(a, sizes)[p] ensures Fetch(m1, z) == Fetch(m2, z) {
      if z == Header(a, sizes, i) { HeaderIsNotLive(a, sizes, i, p); }
    }
  }

  /** Writing inside the contents of a block changes no header and no other block in use. */
  lemma WrittenInside(a: int, sizes: seq<int>, p: int, m1: Memory, m2: Memory)
    requires Tiles(m1, a, sizes) && p in Live(a, sizes)
    requires forall z :: z < p || p + Live(a, sizes)[p] <= z ==> Fetch(m1, z) == Fetch(m2, z)
    ensures Tiles(m2, a, sizes) && Kept(m1, m2, Live(a, sizes) - {p})
  {
    var i := LiveIndex(a, sizes, p);
    HeaderRead(m1, a, sizes, i);
    var x, n, y := sizes[..i], sizes[i], sizes[i + 1..];
    assert sizes == x + ([n] + y);
    HoldsOne(m2, a + Span(x), n);
    SpanOne(n);
    LiveApart(m1, a, sizes);
    hide Live, Holds, Span;
    Replaced(m1, m2, a, x, [n], [n], y);
  }

  lemma ShrunkInPlace(a: int, q: int, sizes: seq<int>, i: nat, m1: Memory, m2: Memory)
    requires Tiles(m1, a, sizes) && i < |sizes| && sizes[i] - q >= 2 * CELL && Regular(q) && q > 0 && Regular(sizes[i])
    requires var h := Header(a, sizes, i); m2 == m1[h := q][h + CELL + q := q - sizes[i] + CELL]
    ensures var s, p := sizes[..i] + ([q, q - sizes[i] + CELL] + sizes[i + 1..]), Header(a, sizes, i) + CELL;
      && Tiles(m2, a, s) && Span(s) == Span(sizes) && p in Live(a, sizes) && Live(a, sizes)[p] == sizes[i]
      && Live(a, s) == Live(a, sizes)[p := q] && Kept(m1, m2, Live(a, sizes) - {p}) && Shrunk(a, sizes, s, p, q)
    ensures var p := Header(a, sizes, i) + CELL; forall z :: p <= z < p + q ==> Fetch(m2, z) == Fetch(m1, z)
  {
    hide Live, Holds, Span, Kept;
    var x, y, n := sizes[..i], sizes[i + 1..], sizes[i];
    var h, g := a + Span(x), q - n + CELL;
    assert sizes == x + ([n] + y);
    HoldsTwo(m2, h, q, g);
    SpanOne(n);
    ShrunkLive(a, x, n, q, y);
    LiveApart(m1, a, sizes);
    Replaced(m1, m2, a, x, [n], [q, g], y);
    ShrunkKept(h, n, q, m1, m2, Live(a, sizes), a, a + Span(sizes));
  }

  lemma ShrunkKept(h: int, n: int, q: int, m1: Memory, m2: Memory, live: map<int, int>, lo: int, hi: int)
    requires Apart(live, lo, hi) && h + CELL in live && live[h + CELL] == n && n - q >= 2 * CELL && q > 0
    requires forall z :: z != h && z != h + CELL + q ==> Fetch(m1, z) == Fetch(m2, z)
    ensures Kept(m1, m2, live - {h + CELL})
  {
  }

  lemma ShrunkLive(a: int, x: seq<int>, n: int, q: int, y: seq<int>)
    requires n - q >= 2 * CELL && q > 0
    ensures var before, after, p := x + ([n] + y), x + ([q, q - n + CELL] + y), a + Span(x) + CELL;
      p in Live(a, before) && Live(a, before)[p] == n && Live(a, after) == Live(a, before)[p := q]
  {
    hide Live, Span;
    var h, g := a + Span(x), q - n + CELL;
    LiveRest(h + CELL + q, g, y);
    assert [q, g] + y == [q] + ([g] + y);
    LiveAround(a, x, n, y);
    LiveAround(a, x, q, [g] + y);
    Aside(a, x, h + CELL + n, y);
  }

  // ----- refused addresses -----

  lemma HeaderAligned(m: Memory, a: int, sizes: seq<int>, i: nat)
    requires Tiles(m, a, sizes) && i <= |sizes| && a % CELL == 0
    ensures Header(a, sizes, i) % CELL == 0
  {
    assert sizes == sizes[..i] + sizes[i..];
    HoldsThen(m, a, sizes[..i], sizes[i..]);
    SpanAligned(m, a, sizes[..i]);
  }

  /** The block of an address that has been freed and not allocated again is refused. */
  lemma FreeIsRefused(a: Allocator, i: nat)
    requires a.Valid() && a.arenap != 0 && i < |a.sizes| && a.sizes[i] < 0
    ensures a.Known(Header(a.start, a.sizes, i) + CELL) == 0
  {
    HeaderAligned(a.memory, a.start, a.sizes, i);
    HeaderRead(a.memory, a.start, a.sizes, i);
  }

  /** So is every address that does not lie in the arena, behind its first header. */
  lemma OutsideIsRefused(a: Allocator, addr: int)
    requires 0 <= addr && addr + 3 < ADDRESS_RANGE && (addr <= a.start || addr > a.End())
    requires a.Valid()
    ensures a.Known(addr) == 0
  {
  }

  /** The address of a block in use is known with its size. */
  lemma UsedIsKnown(a: Allocator, p: int)
    requires a.Valid() && a.arenap != 0 && p in a.Used()
    ensures AlignedAddress(p) == p && a.Known(p) == a.Used()[p] && a.Honest(p)
  {
    hide Live, Span, Holds;
    var i := LiveIndex(a.start, a.sizes, p);
    HeaderRead(a.memory, a.start, a.sizes, i);
    LiveApart(a.memory, a.start, a.sizes);
  }
}
