/** Programs with CATCH and THROW: the machine with its chain of handlers, and
    exceptions as they are meant. */
module Handlers {
  import opened Exceptions

  datatype Prog = Prim(op: nat) | Seq(first: Prog, second: Prog) | If(yes: Prog, no: Prog) | Execute | Catch | Throw

  /** What an operation comes to: a new state, or an exception. */
  datatype Effect = Fine(st: State) | Raise(code: int, st: State)

  /** Everything that programs are made of: the operations, the words behind
      execution tokens, and what is left in uncovered stack cells. */
  datatype World = World(b: Bases, prim: (nat, State) -> Effect, word: int -> Prog, stale: (State, nat) -> int)

  // ----- the machine -----

  /** What is still to do on the host stack. */
  datatype Item = Do(p: Prog) | EndCatch

  datatype Halt = Finished(st: State) | Aborted(code: int) | Quit | Double | Stuck

  datatype Config = Running(kont: seq<Item>, st: State) | Halted(h: Halt)

  /** How deep the return stack is when the handler's frame is on top, or zero. */
  function Base(w: World, st: State): int {
    if st.handler == 0 then 0 else FrameTop(w.b, st)
  }

  /** Operations leave the exception frames alone. */
  predicate Respects(k: int, before: State, after: State) {
    && after.handler == before.handler && after.ehflag == before.ehflag && after.stackeh == before.stackeh
    && 0 <= k <= |before.r| && k <= |after.r| && after.r[..k] == before.r[..k]
  }

  function Push(st: State, v: int): State {
    st.(d := st.d + [v])
  }

  function Pop(st: State): State
    requires st.d != []
  {
    st.(d := st.d[..|st.d| - 1])
  }

  function Top(st: State): int
    requires st.d != []
  {
    st.d[|st.d| - 1]
  }

  function Raised(kont: seq<Item>, st: State, code: int): Config {
    Running([Do(Throw)] + kont, Push(st, code))
  }

  function StaleAt(w: World, st: State): nat -> int {
    (i: nat) => w.stale(st, i)
  }

  /** THROW with the handler's frame in place. */
  function Resumed(w: World, kont: seq<Item>, st: State): Config
    requires st.d != []
  {
    if !HasFrame(w.b, st) then Halted(Stuck)
    else
      var k := FrameTop(w.b, st);
      if Depth(w.b.sp0, st.r[k - 4]) == 0 then Halted(Double)
      else if !(0 <= st.r[k - 1] <= |kont|) then Halted(Stuck)
      else Running(kont[|kont| - st.r[k - 1]..], Unwound(w.b, st, StaleAt(w, st)))
  }

  function ThrowStep(w: World, kont: seq<Item>, st: State): Config {
    if st.d == [] then Raised(kont, st, UNDERFLOW)
    else
      var code := Top(st);
      if code == 0 then Running(kont, Pop(st))
      else if st.ehflag then Halted(Double)
      else if code == -6 || st.handler == 0 then Halted(if code == -56 then Quit else Aborted(code))
      else Resumed(w, kont, st)
  }

  /** One step. */
  function Step(w: World, c: Config): Config {
    if c.Halted? then c
    else if c.kont == [] then Halted(Finished(c.st))
    else
      var rest, st := c.kont[1..], c.st;
      match c.kont[0]
      case EndCatch =>
        if |st.r| < 4 || |st.r| != Base(w, st) then Halted(Stuck) else Running(rest, Left(st))
      case Do(p) =>
        match p
        case Seq(a, b) => Running([Do(a), Do(b)] + rest, st)
        case If(a, b) =>
          if st.d == [] then Raised(rest, st, UNDERFLOW)
          else Running([Do(if Top(st) != 0 then a else b)] + rest, Pop(st))
        case Prim(op) =>
          (var e := w.prim(op, st);
           if !Respects(Base(w, st), st, e.st) then Halted(Stuck)
           else if e.Fine? then Running(rest, e.st) else Raised(rest, e.st, e.code))
        case Execute =>
          if st.d == [] then Raised(rest, st, UNDERFLOW) else Running([Do(w.word(Top(st)))] + rest, Pop(st))
        case Catch =>
          (var entered := Entered(w.b, st, |rest|);
           if st.d == [] then Raised([EndCatch] + rest, entered, UNDERFLOW)
           else Running([Do(w.word(Top(st))), EndCatch] + rest, Pop(entered)))
        case Throw => ThrowStep(w, rest, st)
  }

  function Steps(w: World, c: Config, n: nat): Config
    decreases n
  {
    if n == 0 then c else Steps(w, Step(w, c), n - 1)
  }

  // ----- the chain of handlers -----

  /** The frame at depth k saves a host stack height, a handler and depths. */
  predicate Framed(w: World, r: seq<int>, k: int, height: nat) {
    && 4 <= k <= |r| && r[k - 1] == height && r[k - 3] >= 0
    && var depth := Depth(w.b.sp0, r[k - 4]); depth >= 0 && r[k - 4] == Pointer(w.b.sp0, depth)
  }

  /** Every CATCH under way has its frame on the return stack: the innermost one is
      the handler, each frame holds the next handler, and the last one holds zero. */
  predicate Linked(w: World, kont: seq<Item>, r: seq<int>, handler: int)
    decreases |kont|
  {
    if kont == [] then handler == 0
    else if kont[0].Do? then Linked(w, kont[1..], r, handler)
    else
      var k := Depth(w.b.rp0, handler);
      && handler != 0 && handler == Pointer(w.b.rp0, k) && Framed(w, r, k, |kont| - 1)
      && Linked(w, kont[1..], r[..k - 4], r[k - 2])
  }

  predicate Orderly(w: World, c: Config) {
    c.Running? ==> Linked(w, c.kont, c.st.r, c.st.handler) && !c.st.ehflag && !c.st.stackeh
  }

  /** The handlers from the innermost on. */
  function Chain(w: World, kont: seq<Item>, r: seq<int>, handler: int): seq<int>
    requires Linked(w, kont, r, handler)
    decreases |kont|
  {
    if kont == [] then [0]
    else if kont[0].Do? then Chain(w, kont[1..], r, handler)
    else var k := Depth(w.b.rp0, handler); [handler] + Chain(w, kont[1..], r[..k - 4], r[k - 2])
  }

  /** A chain of frames at strictly decreasing addresses, below a bound, that ends in zero. */
  ghost predicate Descends(c: seq<int>, bound: int) {
    && c != [] && c[|c| - 1] == 0
    && (forall i :: 0 <= i < |c| - 1 ==> c[i + 1] < c[i] < bound)
  }

  lemma DescendsFrom(first: int, rest: seq<int>, bound: int, lower: int)
    requires Descends(rest, lower) && first < bound && lower <= bound && rest[0] < first
    ensures Descends([first] + rest, bound)
  {
    var c := [first] + rest;
    forall i | 0 <= i < |c| - 1 ensures c[i + 1] < c[i] < bound {
      if i > 0 { assert c[i] == rest[i - 1] && c[i + 1] == rest[i]; }
    }
  }

  /** The chain of handlers descends. */
  lemma {:induction false} ChainDescends(w: World, kont: seq<Item>, r: seq<int>, handler: int)
    requires Linked(w, kont, r, handler)
    ensures var c := Chain(w, kont, r, handler);
      Descends(c, w.b.rp0 + CELL * |r|) && c[0] == handler && (handler == 0 || 0 < handler < w.b.rp0 + CELL * |r|)
    decreases |kont|
  {
    if kont == [] {
    } else if kont[0].Do? {
      ChainDescends(w, kont[1..], r, handler);
    } else {
      var k := Depth(w.b.rp0, handler);
      var rest := Chain(w, kont[1..], r[..k - 4], r[k - 2]);
      ChainDescends(w, kont[1..], r[..k - 4], r[k - 2]);
      FrameAbove(w, r, k);
      hide Linked, Depth, Descends, Framed;
      DescendsFrom(handler, rest, w.b.rp0 + CELL * |r|, w.b.rp0 + CELL * (k - 4));
    }
  }

  lemma FrameAbove(w: World, r: seq<int>, k: int)
    requires 4 <= k <= |r|
    ensures var h := Pointer(w.b.rp0, k);
      0 < h < w.b.rp0 + CELL * |r| && w.b.rp0 + CELL * (k - 4) <= h && |r[..k - 4]| == k - 4
  {
  }

  /** Only the return stack below the handler's frame matters for the chain. */
  lemma {:induction false} LinkedPrefix(w: World, kont: seq<Item>, r: seq<int>, r2: seq<int>, handler: int)
    requires Linked(w, kont, r, handler)
    requires var k := if handler == 0 then 0 else Depth(w.b.rp0, handler);
      0 <= k <= |r| && k <= |r2| && r[..k] == r2[..k]
    ensures Linked(w, kont, r2, handler)
    decreases |kont|
  {
    if kont != [] {
      if kont[0].Do? {
        LinkedPrefix(w, kont[1..], r, r2, handler);
      } else {
        var k := Depth(w.b.rp0, handler);
        assert r[..k][..k - 4] == r[..k - 4] && r2[..k][..k - 4] == r2[..k - 4];
        assert r[..k][k - 1] == r2[..k][k - 1] && r[..k][k - 2] == r2[..k][k - 2];
        assert r[..k][k - 3] == r2[..k][k - 3] && r[..k][k - 4] == r2[..k][k - 4];
      }
    }
  }

  /** The handler's frame lies in the return stack. */
  lemma {:induction false} LinkedBase(w: World, kont: seq<Item>, st: State)
    requires Linked(w, kont, st.r, st.handler)
    ensures 0 <= Base(w, st) <= |st.r|
    ensures st.handler != 0 ==> exists j :: 0 <= j < |kont| && Innermost(w, kont, st, j)
    decreases |kont|
  {
    if kont != [] {
      if kont[0].Do? {
        LinkedBase(w, kont[1..], st);
        if st.handler != 0 {
          var j :| 0 <= j < |kont| - 1 && Innermost(w, kont[1..], st, j);
          assert kont[1..][j + 1..] == kont[j + 2..];
          assert Innermost(w, kont, st, j + 1);
        }
      } else {
        assert Innermost(w, kont, st, 0);
      }
    }
  }

  /** Item j of the host stack is the innermost CATCH under way, and the handler's
      frame is its own. */
  predicate Innermost(w: World, kont: seq<Item>, st: State, j: nat) {
    var k := FrameTop(w.b, st);
    && j < |kont| && kont[j].EndCatch? && (forall i :: 0 <= i < j ==> kont[i].Do?)
    && Framed(w, st.r, k, |kont| - j - 1) && Linked(w, kont[j + 1..], st.r[..k - 4], st.r[k - 2])
  }

  /** After the CATCH at item j, with depths as its frame has recorded them, the
      code on top and the previous handler back; a CATCH that found no xt cannot be
      resumed. */
  predicate ResumedAt(w: World, kont: seq<Item>, st: State, j: nat, c: Config)
    requires st.d != [] && j < |kont| && 4 <= FrameTop(w.b, st) <= |st.r|
  {
    var k := FrameTop(w.b, st);
    var depth := Depth(w.b.sp0, st.r[k - 4]);
    if depth == 0 then c == Halted(Double)
    else
      && c.Running? && c.kont == kont[j + 1..] && c.st.r == st.r[..k - 4] && c.st.handler == st.r[k - 2]
      && !c.st.ehflag && !c.st.stackeh
      && |c.st.d| == depth && c.st.d[depth - 1] == Top(st) && |c.st.f| == st.r[k - 3]
      && (forall i :: 0 <= i < depth - 1 && i < |st.d| - 1 ==> c.st.d[i] == st.d[i])
      && (forall i :: 0 <= i < |c.st.f| && i < |st.f| ==> c.st.f[i] == st.f[i])
  }

  /** A THROW resumes the innermost CATCH. */
  lemma ThrowResumes(w: World, kont: seq<Item>, st: State)
    requires Linked(w, kont, st.r, st.handler) && !st.ehflag && st.handler != 0
    requires st.d != [] && Top(st) != 0 && Top(st) != -6
    ensures exists j ::
      0 <= j < |kont| && Innermost(w, kont, st, j) && ResumedAt(w, kont, st, j, ThrowStep(w, kont, st))
  {
    hide Linked;
    LinkedBase(w, kont, st);
    var j :| 0 <= j < |kont| && Innermost(w, kont, st, j);
    var k := FrameTop(w.b, st);
    assert kont[|kont| - st.r[k - 1]..] == kont[j + 1..];
    assert ResumedAt(w, kont, st, j, ThrowStep(w, kont, st));
  }

  /** Every step keeps the chain of handlers and leaves no flag up. */
  lemma StepOrderly(w: World, c: Config)
    requires Orderly(w, c)
    ensures Orderly(w, Step(w, c))
  {
    if c.Running? && c.kont != [] {
      var rest, st := c.kont[1..], c.st;
      if c.kont[0].EndCatch? {
        EndCatchOrderly(w, c);
      } else if c.kont[0].p.Catch? {
        CatchOrderly(w, c);
      } else if c.kont[0].p.Throw? {
        ThrowOrderly(w, rest, st);
      } else if c.kont[0].p.Prim? {
        var e := w.prim(c.kont[0].p.op, st);
        if Respects(Base(w, st), st, e.st) {
          LinkedPrefix(w, rest, st.r, e.st.r, st.handler);
        }
      }
    }
  }

  lemma EndCatchOrderly(w: World, c: Config)
    requires Orderly(w, c) && c.Running? && c.kont != [] && c.kont[0].EndCatch?
    ensures Orderly(w, Step(w, c))
  {
  }

  lemma CatchOrderly(w: World, c: Config)
    requires Orderly(w, c) && c.Running? && c.kont != [] && c.kont[0] == Do(Catch)
    ensures Orderly(w, Step(w, c))
  {
    var rest, st := c.kont[1..], c.st;
    var entered := Entered(w.b, st, |rest|);
    var k := |entered.r|;
    assert entered.r[..k - 4] == st.r;
    assert ([EndCatch] + rest)[1..] == rest;
    assert Linked(w, [EndCatch] + rest, entered.r, entered.handler);
    var p := if st.d == [] then Throw else w.word(Top(st));
    assert ([Do(p)] + ([EndCatch] + rest))[1..] == [EndCatch] + rest;
    assert [Do(p), EndCatch] + rest == [Do(p)] + ([EndCatch] + rest);
  }

  lemma ThrowOrderly(w: World, kont: seq<Item>, st: State)
    requires Linked(w, kont, st.r, st.handler) && !st.ehflag && !st.stackeh
    ensures Orderly(w, ThrowStep(w, kont, st))
  {
    hide Linked;
    if st.d == [] {
      RaisedLinked(w, kont, st);
    } else if Top(st) != 0 && Top(st) != -6 && st.handler != 0 {
      ThrowResumes(w, kont, st);
    }
  }

  lemma RaisedLinked(w: World, kont: seq<Item>, st: State)
    requires Linked(w, kont, st.r, st.handler)
    ensures Linked(w, [Do(Throw)] + kont, st.r, st.handler)
  {
    assert ([Do(Throw)] + kont)[1..] == kont;
  }

  /** So the chain is there after any number of steps. */
  lemma {:induction false} RunOrderly(w: World, c: Config, n: nat)
    requires Orderly(w, c)
    ensures Orderly(w, Steps(w, c, n))
    decreases n
  {
    if n > 0 {
      StepOrderly(w, c);
      RunOrderly(w, Step(w, c), n - 1);
    }
  }

  lemma StartOrderly(w: World, p: Prog, st: State)
    requires st.handler == 0 && !st.ehflag && !st.stackeh
    ensures Orderly(w, Running([Do(p)], st))
  {
    assert [Do(p)][1..] == [];
  }

  /** A program started outside any CATCH: after any number of steps the handlers
      form a chain of descending frames that ends in zero, and no flag is up. */
  lemma ProgramOrderly(w: World, p: Prog, st: State, n: nat)
    requires st.handler == 0 && !st.ehflag && !st.stackeh
    ensures var c := Steps(w, Running([Do(p)], st), n);
      c.Running? ==>
        && Linked(w, c.kont, c.st.r, c.st.handler) && !c.st.ehflag && !c.st.stackeh
        && Descends(Chain(w, c.kont, c.st.r, c.st.handler), w.b.rp0 + CELL * |c.st.r|)
  {
    StartOrderly(w, p, st);
    RunOrderly(w, Running([Do(p)], st), n);
    var c := Steps(w, Running([Do(p)], st), n);
    if c.Running? {
      ChainDescends(w, c.kont, c.st.r, c.st.handler);
    }
    hide Linked, Descends, Steps;
  }
}
