/** The heap arena: blocks with signed size headers, one after the other, up to
    a zero header. */
module Arenas {

  const CELL := 4

  /** Memory by cells; cells of a fresh break read as zero. */
  type Memory = map<int, int>

  function Fetch(m: Memory, a: int): int {
    if a in m then m[a] else 0
  }

  function Abs(n: int): nat {
    if n < 0 then -n else n
  }

  /** Rounded up to whole cells. */
  function Aligned(n: int): int {
    (n + 3) / 4 * 4
  }

  /** What some blocks take, headers included. */
  function Span(sizes: seq<int>): nat {
    if sizes == [] then 0 else CELL + Abs(sizes[0]) + Span(sizes[1..])
  }

  predicate Regular(n: int) {
    n != 0 && n % CELL == 0
  }

  /** Blocks of these sizes lie one after the other from address a on. */
  predicate Holds(m: Memory, a: int, sizes: seq<int>)
    decreases |sizes|
  {
    sizes == [] || (Fetch(m, a) == sizes[0] && Regular(sizes[0]) && Holds(m, a + CELL + Abs(sizes[0]), sizes[1..]))
  }

  /** They tile the arena up to its zero header. */
  predicate Tiles(m: Memory, a: int, sizes: seq<int>) {
    Holds(m, a, sizes) && Fetch(m, a + Span(sizes)) == 0
  }

  /** The blocks in use: address handed out, and size. */
  function Live(a: int, sizes: seq<int>): map<int, int>
    decreases |sizes|
  {
    if sizes == [] then map[]
    else
      var rest := Live(a + CELL + Abs(sizes[0]), sizes[1..]);
      if sizes[0] > 0 then rest[a + CELL := sizes[0]] else rest
  }

  /** The contents of the blocks in use are the same in both memories. */
  ghost predicate Kept(m1: Memory, m2: Memory, live: map<int, int>) {
    forall p, x :: p in live && p <= x < p + live[p] ==> Fetch(m1, x) == Fetch(m2, x)
  }

  // ----- blocks in a row -----

  lemma {:induction false} SpanThen(x: seq<int>, y: seq<int>)
    ensures Span(x + y) == Span(x) + Span(y)
  {
    if x == [] {
      assert x + y == y;
    } else {
      assert (x + y)[1..] == x[1..] + y;
      SpanThen(x[1..], y);
    }
  }

  lemma {:induction false} HoldsThen(m: Memory, a: int, x: seq<int>, y: seq<int>)
    ensures Holds(m, a, x + y) <==> Holds(m, a, x) && Holds(m, a + Span(x), y)
    decreases |x|
  {
    if x == [] {
      assert x + y == y;
    } else {
      assert (x + y)[1..] == x[1..] + y;
      HoldsThen(m, a + CELL + Abs(x[0]), x[1..], y);
    }
  }

  lemma {:induction false} LiveThen(a: int, x: seq<int>, y: seq<int>)
    ensures Live(a, x + y) == Live(a + Span(x), y) + Live(a, x)
    decreases |x|
  {
    if x == [] {
      assert x + y == y;
    } else {
      assert (x + y)[1..] == x[1..] + y;
      LiveThen(a + CELL + Abs(x[0]), x[1..], y);
    }
  }

  /** Nothing that is written outside some blocks changes them. */
  lemma {:induction false} HoldsSame(m1: Memory, m2: Memory, a: int, sizes: seq<int>)
    requires Holds(m1, a, sizes) && forall x :: a <= x < a + Span(sizes) ==> Fetch(m1, x) == Fetch(m2, x)
    ensures Holds(m2, a, sizes)
    decreases |sizes|
  {
    if sizes != [] {
      HoldsSame(m1, m2, a + CELL + Abs(sizes[0]), sizes[1..]);
    }
  }

  /** Blocks in the middle are replaced by others that take as much. */
  lemma Replaced(m1: Memory, m2: Memory, a: int, x: seq<int>, before: seq<int>, after: seq<int>, y: seq<int>)
    requires Tiles(m1, a, x + (before + y)) && Span(after) == Span(before)
    requires var lo, hi := a + Span(x), a + Span(x) + Span(before);
      (forall z :: z < lo || hi <= z ==> Fetch(m1, z) == Fetch(m2, z)) && Holds(m2, lo, after)
    ensures Tiles(m2, a, x + (after + y)) && Span(x + (after + y)) == Span(x + (before + y))
  {
    SpanThen(x, before + y);
    SpanThen(before, y);
    SpanThen(x, after + y);
    SpanThen(after, y);
    HoldsThen(m1, a, x, before + y);
    HoldsThen(m1, a + Span(x), before, y);
    hide Span;
    HoldsSame(m1, m2, a, x);
    HoldsSame(m1, m2, a + Span(x) + Span(before), y);
    HoldsThen(m2, a + Span(x), after, y);
    HoldsThen(m2, a, x, after + y);
  }

  /** The header of block i. */
  function Header(a: int, sizes: seq<int>, i: nat): int
    requires i <= |sizes|
  {
    a + Span(sizes[..i])
  }

  lemma {:induction false} HeaderRead(m: Memory, a: int, sizes: seq<int>, i: nat)
    requires Tiles(m, a, sizes) && i <= |sizes|
    ensures Fetch(m, Header(a, sizes, i)) == if i == |sizes| then 0 else sizes[i]
    ensures i < |sizes| ==> Regular(sizes[i]) && Header(a, sizes, i + 1) == Header(a, sizes, i) + CELL + Abs(sizes[i])
    ensures i < |sizes| ==> Header(a, sizes, i) + CELL + Abs(sizes[i]) <= a + Span(sizes)
    ensures if i == |sizes| then Header(a, sizes, i) == a + Span(sizes) else Header(a, sizes, i) < a + Span(sizes)
  {
    var x, y := sizes[..i], sizes[i..];
    assert sizes == x + y;
    HoldsThen(m, a, x, y);
    SpanThen(x, y);
    if i < |sizes| {
      assert sizes[..i + 1] == x + [sizes[i]];
      SpanThen(x, [sizes[i]]);
    } else {
      assert x == sizes;
    }
  }

  /** Headers lie on cells. */
  lemma {:induction false} SpanAligned(m: Memory, a: int, sizes: seq<int>)
    requires Holds(m, a, sizes)
    ensures Span(sizes) % CELL == 0
    decreases |sizes|
  {
    if sizes != [] {
      SpanAligned(m, a + CELL + Abs(sizes[0]), sizes[1..]);
      SumAligned(Abs(sizes[0]), Span(sizes[1..]));
    }
  }

  lemma SumAligned(n: int, span: int)
    requires n % CELL == 0 && span % CELL == 0
    ensures (CELL + n + span) % CELL == 0
  {
  }

  /** Blocks in use lie inside the arena and apart from each other. */
  ghost predicate Apart(live: map<int, int>, lo: int, hi: int) {
    && (forall p :: p in live ==> lo + CELL <= p && 0 < live[p] && p + live[p] <= hi)
    && (forall p, q :: p in live && q in live && p < q ==> p + live[p] + CELL <= q)
  }

  lemma {:induction false} LiveApart(m: Memory, a: int, sizes: seq<int>)
    requires Holds(m, a, sizes)
    ensures Apart(Live(a, sizes), a, a + Span(sizes))
    ensures a % CELL == 0 ==> forall p :: p in Live(a, sizes) ==> p % CELL == 0 && Live(a, sizes)[p] % CELL == 0
    decreases |sizes|
  {
    if sizes != [] {
      LiveApart(m, a + CELL + Abs(sizes[0]), sizes[1..]);
    }
  }

  lemma {:induction false} LiveRange(a: int, sizes: seq<int>, p: int)
    requires p in Live(a, sizes)
    ensures a + CELL <= p && 0 < Live(a, sizes)[p] && p + Live(a, sizes)[p] <= a + Span(sizes)
    decreases |sizes|
  {
    if p != a + CELL || sizes[0] <= 0 {
      LiveRange(a + CELL + Abs(sizes[0]), sizes[1..], p);
    }
  }

  /** Blocks in use to the left and to the right of one block. */
  lemma LiveAround(a: int, x: seq<int>, n: int, y: seq<int>)
    ensures var h := a + Span(x);
      Live(a, x + ([n] + y)) ==
        (Live(h + CELL + Abs(n), y) + if n > 0 then map[h + CELL := n] else map[]) + Live(a, x)
  {
    LiveThen(a, x, [n] + y);
    LiveThen(a + Span(x), [n], y);
    SpanOne(n);
    assert Live(a + Span(x), [n]) == if n > 0 then map[a + Span(x) + CELL := n] else map[];
  }

  lemma SpanOne(n: int)
    ensures Span([n]) == CELL + Abs(n) && Span([]) == 0
  {
  }

  lemma SpanMiddle(x: seq<int>, n: int, y: seq<int>)
    ensures Span(x + ([n] + y)) == Span(x) + CELL + Abs(n) + Span(y)
  {
    SpanThen(x, [n] + y);
    SpanThen([n], y);
    SpanOne(n);
  }

  // ----- coalescing -----

  /** A free block with all the free blocks right after it. */
  function Coalesced(sizes: seq<int>): seq<int>
    decreases |sizes|
  {
    if |sizes| >= 2 && sizes[0] < 0 && sizes[1] < 0 then Coalesced([sizes[0] + sizes[1] - CELL] + sizes[2..]) else sizes
  }

  /** A block of that length serves a request of n: exactly, or with enough left
      over for another block. */
  predicate Fits(length: int, n: int) {
    length == n || length - n >= 2 * CELL
  }

  datatype Search = Search(sizes: seq<int>, index: nat)

  /** First fit: coalesce as far as the search goes, and stop at the first free
      block that fits or at the end. */
  function Searched(n: int, sizes: seq<int>): (r: Search)
    ensures r.index <= |r.sizes|
    decreases |sizes|
  {
    var c := Coalesced(sizes);
    CoalescedShorter(sizes);
    if c == [] || (c[0] < 0 && Fits(-c[0], n)) then Search(c, 0)
    else
      var r := Searched(n, c[1..]);
      Search([c[0]] + r.sizes, r.index + 1)
  }

  lemma {:induction false} CoalescedShorter(sizes: seq<int>)
    ensures |Coalesced(sizes)| <= |sizes|
    decreases |sizes|
  {
    if |sizes| >= 2 && sizes[0] < 0 && sizes[1] < 0 {
      CoalescedShorter([sizes[0] + sizes[1] - CELL] + sizes[2..]);
    }
  }

  /** The blocks after allocating n: a new one at the end, or in the place found. */
  function Allocated(n: int, sizes: seq<int>): seq<int> {
    var r := Searched(n, sizes);
    var c, i := r.sizes, r.index;
    if i == |c| then c + [n]
    else if c[i] == -n then c[..i] + ([n] + c[i + 1..])
    else c[..i] + ([n, n + CELL + c[i]] + c[i + 1..])
  }

  predicate Sound(sizes: seq<int>) {
    forall i :: 0 <= i < |sizes| ==> Regular(sizes[i])
  }

  /** Coalescing keeps the extent and the blocks in use, and leaves no free block
      right after a free first block. */
  lemma {:induction false} CoalescedKeeps(a: int, sizes: seq<int>)
    requires Sound(sizes)
    ensures Sound(Coalesced(sizes)) && Span(Coalesced(sizes)) == Span(sizes)
    ensures Live(a, Coalesced(sizes)) == Live(a, sizes)
    ensures var c := Coalesced(sizes); !(|c| >= 2 && c[0] < 0 && c[1] < 0)
    ensures sizes != [] ==> Coalesced(sizes) != [] && (sizes[0] < 0 <==> Coalesced(sizes)[0] < 0)
    decreases |sizes|
  {
    if |sizes| >= 2 && sizes[0] < 0 && sizes[1] < 0 {
      var s := [sizes[0] + sizes[1] - CELL] + sizes[2..];
      assert s[1..] == sizes[2..] == sizes[1..][1..];
      CoalescedKeeps(a, s);
    }
  }

  /** The search keeps the extent and the blocks in use. */
  lemma {:induction false} SearchedKeeps(n: int, a: int, sizes: seq<int>)
    requires Sound(sizes)
    ensures var c := Searched(n, sizes).sizes; Sound(c) && Span(c) == Span(sizes) && Live(a, c) == Live(a, sizes)
    decreases |sizes|
  {
    var c := Coalesced(sizes);
    CoalescedShorter(sizes);
    CoalescedKeeps(a, sizes);
    if c != [] && !(c[0] < 0 && Fits(-c[0], n)) {
      var r := Searched(n, c[1..]);
      SearchedKeeps(n, a + CELL + Abs(c[0]), c[1..]);
      assert ([c[0]] + r.sizes)[1..] == r.sizes;
    }
  }

  /** No block before the one found is free and fits, none of them is free right
      before a free one, and the one found is free and fits. */
  ghost predicate FirstFitting(n: int, r: Search) {
    && r.index <= |r.sizes|
    && (forall j :: 0 <= j < r.index ==> r.sizes[j] > 0 || !Fits(-r.sizes[j], n))
    && (forall j :: 0 <= j < r.index && j + 1 < |r.sizes| ==> r.sizes[j] > 0 || r.sizes[j + 1] > 0)
    && (r.index < |r.sizes| ==> r.sizes[r.index] < 0 && Fits(-r.sizes[r.index], n))
  }

  /** The search stops at the lowest free block that fits. */
  lemma {:induction false} FirstFit(n: int, sizes: seq<int>)
    requires Sound(sizes)
    ensures FirstFitting(n, Searched(n, sizes))
    decreases |sizes|
  {
    var c := Coalesced(sizes);
    CoalescedShorter(sizes);
    CoalescedKeeps(0, sizes);
    hide Coalesced, Span, Live, Fits;
    if c != [] && !(c[0] < 0 && Fits(-c[0], n)) {
      FirstFit(n, c[1..]);
      SearchedHead(n, c[1..]);
      FirstFitAfter(n, c[0], Searched(n, c[1..]), c[1..]);
    }
  }

  /** The first block does not fit, and the search goes on behind it. */
  lemma FirstFitAfter(n: int, first: int, r: Search, rest: seq<int>)
    requires first != 0 && (first > 0 || !Fits(-first, n)) && FirstFitting(n, r)
    requires |r.sizes| > 0 ==> rest != [] && (r.sizes[0] < 0 <==> rest[0] < 0) && r.sizes[0] != 0
    requires rest != [] ==> first > 0 || rest[0] > 0
    ensures FirstFitting(n, Search([first] + r.sizes, r.index + 1))
  {
    hide Fits;
    var s := [first] + r.sizes;
    forall j | 0 <= j < r.index + 1 ensures s[j] > 0 || !Fits(-s[j], n) {
      if j > 0 { assert s[j] == r.sizes[j - 1]; }
    }
    forall j | 0 <= j < r.index + 1 && j + 1 < |s| ensures s[j] > 0 || s[j + 1] > 0 {
      if j > 0 { assert s[j] == r.sizes[j - 1] && s[j + 1] == r.sizes[j]; }
    }
  }

  /** The first block stays free or in use. */
  lemma SearchedHead(n: int, sizes: seq<int>)
    requires Sound(sizes)
    ensures var c := Searched(n, sizes).sizes; |c| > 0 ==> sizes != [] && (c[0] < 0 <==> sizes[0] < 0)
  {
    CoalescedKeeps(0, sizes);
  }

  /** While some free block fits, the search ends before the end: merging a block
      with its neighbours adds two cells or more. */
  lemma {:induction false} SearchSucceeds(n: int, sizes: seq<int>, k: nat)
    requires Sound(sizes) && k < |sizes| && sizes[k] < 0 && Fits(-sizes[k], n)
    ensures var r := Searched(n, sizes); r.index < |r.sizes|
    decreases |sizes|
  {
    var c := Coalesced(sizes);
    CoalescedShorter(sizes);
    CoalescedKeeps(0, sizes);
    var j := CoalescedFits(n, sizes, k);
    if !(c[0] < 0 && Fits(-c[0], n)) {
      SearchSucceeds(n, c[1..], j - 1);
    }
  }

  lemma {:induction false} CoalescedFits(n: int, sizes: seq<int>, k: nat) returns (j: nat)
    requires Sound(sizes) && k < |sizes| && sizes[k] < 0 && Fits(-sizes[k], n)
    ensures j < |Coalesced(sizes)| && Coalesced(sizes)[j] < 0 && Fits(-Coalesced(sizes)[j], n)
    decreases |sizes|
  {
    if |sizes| >= 2 && sizes[0] < 0 && sizes[1] < 0 {
      var s := [sizes[0] + sizes[1] - CELL] + sizes[2..];
      j := CoalescedFits(n, s, if k < 2 then 0 else k - 1);
    } else {
      j := k;
    }
  }

  // ----- allocating -----

  /** The address that allocating n hands out. */
  function NewAddress(a: int, n: int, sizes: seq<int>): int {
    var r := Searched(n, sizes);
    Header(a, r.sizes, r.index) + CELL
  }

  /** Allocating adds one block in use, of the size asked for and apart from all
      others; the extent grows only when no free block was found. */
  lemma AllocatedLive(a: int, n: int, sizes: seq<int>)
    requires Sound(sizes) && Regular(n) && n > 0
    ensures var p, live := NewAddress(a, n, sizes), Live(a, sizes);
      && Sound(Allocated(n, sizes)) && p !in live && Live(a, Allocated(n, sizes)) == live[p := n]
    ensures var r := Searched(n, sizes);
      Span(Allocated(n, sizes)) == Span(sizes) + if r.index == |r.sizes| then CELL + n else 0
  {
    hide Span, Live, Searched, Sound;
    var r := Searched(n, sizes);
    var c, i := r.sizes, r.index;
    SearchedKeeps(n, a, sizes);
    FirstFit(n, sizes);
    AllocatedInto(a, n, c, i);
  }

  lemma AllocatedInto(a: int, n: int, c: seq<int>, i: nat)
    requires Sound(c) && Regular(n) && n > 0 && i <= |c| && (i < |c| ==> c[i] < 0 && Fits(-c[i], n))
    ensures var s := if i == |c| then c + [n] else if c[i] == -n then c[..i] + ([n] + c[i + 1..])
      else c[..i] + ([n, n + CELL + c[i]] + c[i + 1..]);
      var p := Header(a, c, i) + CELL;
      && Sound(s) && p !in Live(a, c) && Live(a, s) == Live(a, c)[p := n]
      && Span(s) == Span(c) + if i == |c| then CELL + n else 0
  {
    var x := c[..i];
    if i == |c| {
      assert x == c;
      AtEnd(a, n, c);
    } else {
      var y := c[i + 1..];
      assert c == x + ([c[i]] + y);
      SpanMiddle(x, c[i], y);
      assert Sound(x) && Sound(y) && Regular(c[i]);
      hide Live, Span, Sound;
      if c[i] == -n { Exactly(a, n, x, y); } else { Splitting(a, n, x, c[i], y); }
    }
  }

  lemma AtEnd(a: int, n: int, c: seq<int>)
    requires Sound(c) && Regular(n) && n > 0
    ensures var p := a + Span(c) + CELL;
      Sound(c + [n]) && p !in Live(a, c) && Live(a, c + [n]) == Live(a, c)[p := n]
      && Span(c + [n]) == Span(c) + CELL + n
  {
    LiveAround(a, c, n, []);
    SpanMiddle(c, n, []);
    assert c + [n] == c + ([n] + []);
    assert Live(a + Span(c) + CELL + n, []) == map[];
    hide Live, Span;
    forall p | p in Live(a, c) ensures p < a + Span(c) + CELL { LiveRange(a, c, p); }
  }

  /** The blocks in use below and above a place. */
  lemma Aside(a: int, x: seq<int>, top: int, y: seq<int>)
    requires top >= a + Span(x) + CELL
    ensures forall p :: p in Live(a, x) ==> p < a + Span(x) + CELL
    ensures forall p :: p in Live(top, y) ==> p > a + Span(x) + CELL
  {
    hide Live, Span;
    var h := a + Span(x);
    forall p | p in Live(a, x) ensures p < h + CELL { LiveRange(a, x, p); }
    forall p | p in Live(top, y) ensures p > h + CELL { LiveRange(top, y, p); }
  }

  lemma SoundMiddle(x: seq<int>, mid: seq<int>, y: seq<int>)
    requires Sound(x) && Sound(mid) && Sound(y)
    ensures Sound(x + (mid + y))
  {
  }

  /** A free block taken as a whole. */
  lemma Exactly(a: int, n: int, x: seq<int>, y: seq<int>)
    requires Regular(n) && n > 0 && Sound(x) && Sound(y)
    ensures var p, before, s := a + Span(x) + CELL, x + ([-n] + y), x + ([n] + y);
      Sound(s) && p !in Live(a, before) && Live(a, s) == Live(a, before)[p := n] && Span(s) == Span(before)
  {
    hide Live, Span, Sound;
    SoundMiddle(x, [n], y);
    LiveAround(a, x, n, y);
    LiveAround(a, x, -n, y);
    SpanMiddle(x, n, y);
    SpanMiddle(x, -n, y);
    Aside(a, x, a + Span(x) + CELL + n, y);
  }

  /** A free block taken in part. */
  lemma Splitting(a: int, n: int, x: seq<int>, f: int, y: seq<int>)
    requires Regular(n) && n > 0 && Sound(x) && Sound(y) && Regular(f) && -f - n >= 2 * CELL
    ensures var p, before, s := a + Span(x) + CELL, x + ([f] + y), x + ([n, n + CELL + f] + y);
      Sound(s) && p !in Live(a, before) && Live(a, s) == Live(a, before)[p := n] && Span(s) == Span(before)
  {
    SoundMiddle(x, [n, n + CELL + f], y);
    hide Live, Span, Sound;
    SplitSpan(n, x, f, y);
    SplitLive(a, n, x, f, y);
  }

  lemma SplitSpan(n: int, x: seq<int>, f: int, y: seq<int>)
    requires n > 0 && -f - n >= 2 * CELL
    ensures Span(x + ([n, n + CELL + f] + y)) == Span(x + ([f] + y))
  {
    hide Span;
    var g := n + CELL + f;
    assert [n, g] + y == [n] + ([g] + y);
    SpanMiddle(x, f, y);
    SpanMiddle(x, n, [g] + y);
    SpanThen([g], y);
    SpanOne(g);
  }

  lemma SplitLive(a: int, n: int, x: seq<int>, f: int, y: seq<int>)
    requires n > 0 && -f - n >= 2 * CELL
    ensures var p, before, s := a + Span(x) + CELL, x + ([f] + y), x + ([n, n + CELL + f] + y);
      p !in Live(a, before) && Live(a, s) == Live(a, before)[p := n]
  {
    hide Live, Span;
    var h, g := a + Span(x), n + CELL + f;
    var q, top := h + CELL + n, h + CELL - f;
    LiveRest(q, g, y);
    assert [n, g] + y == [n] + ([g] + y);
    LiveAround(a, x, f, y);
    LiveAround(a, x, n, [g] + y);
    Aside(a, x, top, y);
  }

  /** A free block hides nothing of what comes after it. */
  lemma LiveRest(a: int, g: int, y: seq<int>)
    requires g < 0
    ensures Live(a, [g] + y) == Live(a + CELL - g, y)
  {
    assert ([g] + y)[1..] == y;
  }

  /** Freeing a block and asking for as much again never extends the arena. */
  lemma FreeThenAllocate(a: int, n: int, sizes: seq<int>, i: nat)
    requires Sound(sizes) && i < |sizes| && sizes[i] == n && n > 0
    ensures Span(Allocated(n, sizes[i := -n])) == Span(sizes)
  {
    hide Span, Live, Searched, Allocated;
    var freed := sizes[i := -n];
    SearchSucceeds(n, freed, i);
    AllocatedLive(a, n, freed);
    FreedSpan(sizes, i);
  }

  lemma FreedSpan(sizes: seq<int>, i: nat)
    requires i < |sizes|
    ensures Span(sizes[i := -sizes[i]]) == Span(sizes)
  {
    hide Span;
    var n, x, y := sizes[i], sizes[..i], sizes[i + 1..];
    assert sizes == x + ([n] + y) && sizes[i := -n] == x + ([-n] + y);
    SpanMiddle(x, n, y);
    SpanMiddle(x, -n, y);
  }

  /** Freeing removes exactly that block from those in use. */
  lemma FreedLive(a: int, sizes: seq<int>, i: nat)
    requires Sound(sizes) && i < |sizes| && sizes[i] > 0
    ensures var p, live := Header(a, sizes, i) + CELL, Live(a, sizes);
      p in live && live[p] == sizes[i] && Live(a, sizes[i := -sizes[i]]) == live - {p}
      && Span(sizes[i := -sizes[i]]) == Span(sizes)
  {
    hide Live, Span;
    var n, x, y := sizes[i], sizes[..i], sizes[i + 1..];
    var h := a + Span(x);
    FreedSpan(sizes, i);
    assert sizes == x + ([n] + y) && sizes[i := -n] == x + ([-n] + y);
    LiveAround(a, x, n, y);
    LiveAround(a, x, -n, y);
    forall p | p in Live(a, x) ensures p < h + CELL { LiveRange(a, x, p); }
    var top := h + CELL + n;
    forall p | p in Live(top, y) ensures p > h + CELL { LiveRange(top, y, p); }
  }

  /** Every block in use has a place in the row. */
  lemma {:induction false} LiveIndex(a: int, sizes: seq<int>, p: int) returns (i: nat)
    requires p in Live(a, sizes)
    ensures i < |sizes| && sizes[i] > 0 && sizes[i] == Live(a, sizes)[p] && p == Header(a, sizes, i) + CELL
    decreases |sizes|
  {
    if sizes[0] > 0 && p == a + CELL {
      i := 0;
    } else {
      var k := LiveIndex(a + CELL + Abs(sizes[0]), sizes[1..], p);
      i := k + 1;
      assert sizes[..i][1..] == sizes[1..][..k];
    }
  }

  /** No header of a free block, and nothing inside one, belongs to a block in use. */
  lemma FreeIsNotLive(a: int, sizes: seq<int>, i: nat, p: int, z: int)
    requires i < |sizes| && sizes[i] < 0 && p in Live(a, sizes)
    requires Header(a, sizes, i) <= z < Header(a, sizes, i) + CELL + Abs(sizes[i])
    ensures !(p <= z < p + Live(a, sizes)[p])
  {
    var x, y := sizes[..i], sizes[i + 1..];
    var h := a + Span(x);
    assert sizes == x + ([sizes[i]] + y);
    LiveAround(a, x, sizes[i], y);
    if p in Live(a, x) {
      LiveRange(a, x, p);
    } else {
      LiveRange(h + CELL + Abs(sizes[i]), y, p);
    }
  }
}
