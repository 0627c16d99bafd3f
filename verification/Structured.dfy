/** Exceptions as they are meant, without frames or handlers, and the machine's
    agreement with them. */
module StructuredExceptions {
  import opened Exceptions
  import opened Handlers

  datatype Result = Normal(st: State) | Raising(code: int, st: State) | Ended(h: Halt) | OutOfFuel

  /** An exception: zero is none, and return stack underflow and exceptions
      outside any CATCH end the program. */
  function Raise(k: nat, code: int, st: State): Result {
    if code == 0 then Normal(st)
    else if code == -6 || k == 0 then Ended(if code == -56 then Quit else Aborted(code))
    else Raising(code, st)
  }

  /** What CATCH makes of the way its word ended: the depths before, and zero or the code. */
  function Caught(w: World, st: State, k: nat, r: Result): Result
    requires st.d != []
  {
    match r
    case Normal(st1) =>
      if |st1.r| != k then Ended(Stuck) else Normal(st1.(d := st1.d + [0], r := st.r, handler := st.handler))
    case Raising(code, st1) =>
      Normal(State(Fit(st1.d, |st.d|, StaleAt(w, Push(st1, code)))[..|st.d| - 1] + [code], st.r,
                   FitFloat(st1.f, |st.f|), st.handler, false, false))
    case other => other
  }

  /** Run p, below k cells of return stack that belong to a CATCH (none when k is
      zero) and on a host stack of that height.  Fuel bounds the nesting of words. */
  function Exec(w: World, p: Prog, st: State, k: nat, height: nat, fuel: nat): Result
    decreases fuel, p
  {
    match p
    case Seq(a, b) =>
      (match Exec(w, a, st, k, height + 1, fuel)
       case Normal(st1) => Exec(w, b, st1, k, height, fuel)
       case other => other)
    case If(a, b) =>
      if st.d == [] then Raise(k, UNDERFLOW, st) else Exec(w, if Top(st) != 0 then a else b, Pop(st), k, height, fuel)
    case Prim(op) =>
      (var e := w.prim(op, st);
       if !Respects(k, st, e.st) then Ended(Stuck) else if e.Fine? then Normal(e.st) else Raise(k, e.code, e.st))
    case Execute =>
      if st.d == [] then Raise(k, UNDERFLOW, st)
      else if fuel == 0 then OutOfFuel
      else Exec(w, w.word(Top(st)), Pop(st), k, height, fuel - 1)
    case Catch =>
      if st.d == [] then Ended(Double)
      else if fuel == 0 then OutOfFuel
      else
        var k1 := |st.r| + 4;
        Caught(w, st, k1, Exec(w, w.word(Top(st)), Pop(Entered(w.b, st, height)), k1, height + 1, fuel - 1))
    case Throw => if st.d == [] then Raise(k, UNDERFLOW, st) else Raise(k, Top(st), Pop(st))
  }

  // ----- the machine does the same -----

  lemma {:induction false} StepsThen(w: World, c: Config, n: nat, m: nat)
    ensures Steps(w, c, n + m) == Steps(w, Steps(w, c, n), m)
    decreases n
  {
    if n > 0 {
      StepsThen(w, Step(w, c), n - 1, m);
    }
  }

  lemma StepsOne(w: World, c: Config)
    ensures Steps(w, c, 1) == Step(w, c) && Steps(w, c, 0) == c
  {
    assert Steps(w, Step(w, c), 0) == Step(w, c);
  }

  /** The machine stands in state st below k protected cells, and no exception is on its way. */
  predicate Stands(w: World, st: State, k: nat) {
    && k == Base(w, st) && k <= |st.r| && (st.handler != 0 ==> k > 0) && !st.ehflag && !st.stackeh
  }

  /** After n steps from [p] + kont the machine is where result r says: done with p,
      about to throw above kont, halted, or still running. */
  predicate Agrees(w: World, p: Prog, kont: seq<Item>, st: State, k: nat, r: Result, fuel: nat, n: nat,
                   above: seq<Item>) {
    var c := Steps(w, Running([Do(p)] + kont, st), n);
    match r
    case Normal(st1) => c == Running(kont, st1) && Respects(k, st, st1)
    case Raising(code, st1) =>
      && c == Running([Do(Throw)] + (above + kont), Push(st1, code)) && Respects(k, st, st1)
      && code != 0 && code != -6 && k > 0
    case Ended(h) => c == Halted(h)
    case OutOfFuel => c.Running? && n >= fuel
  }

  /** An exception raised by p itself. */
  lemma RaiseAgrees(w: World, p: Prog, kont: seq<Item>, st: State, k: nat, code: int, st1: State, fuel: nat)
    returns (n: nat)
    requires Stands(w, st, k) && Respects(k, st, st1)
    requires Step(w, Running([Do(p)] + kont, st)) == Handlers.Raised(kont, st1, code)
    ensures Agrees(w, p, kont, st, k, Raise(k, code, st1), fuel, n, [])
  {
    var c := Running([Do(p)] + kont, st);
    var thrown := Push(st1, code);
    assert Pop(thrown) == st1;
    assert [] + kont == kont && ([Do(Throw)] + kont)[1..] == kont;
    StepsOne(w, c);
    StepsThen(w, c, 1, 1);
    StepsOne(w, Handlers.Raised(kont, st1, code));
    n := if Raise(k, code, st1).Raising? then 1 else 2;
  }

  /** THROW itself. */
  lemma ThrowAgrees(w: World, kont: seq<Item>, st: State, k: nat, fuel: nat) returns (n: nat)
    requires Stands(w, st, k) && st.d != []
    ensures Agrees(w, Throw, kont, st, k, Raise(k, Top(st), Pop(st)), fuel, n, [])
  {
    var c := Running([Do(Throw)] + kont, st);
    assert Push(Pop(st), Top(st)) == st;
    assert [] + kont == kont && ([Do(Throw)] + kont)[1..] == kont;
    StepsOne(w, c);
    n := if Raise(k, Top(st), Pop(st)).Raising? then 0 else 1;
  }

  /** The machine agrees with every run of a program, exceptions, aborts and all. */
  lemma {:induction false} MachineAgrees(w: World, p: Prog, kont: seq<Item>, st: State, k: nat, fuel: nat)
    returns (n: nat, above: seq<Item>)
    requires Stands(w, st, k)
    ensures Agrees(w, p, kont, st, k, Exec(w, p, st, k, |kont|, fuel), fuel, n, above)
    decreases fuel, p
  {
    var c := Running([Do(p)] + kont, st);
    assert ([Do(p)] + kont)[1..] == kont;
    StepsOne(w, c);
    above := [];
    match p
    case Seq(a, b) =>
      n, above := SeqAgrees(w, p, kont, st, k, fuel);
    case If(a, b) =>
      if st.d == [] {
        n := RaiseAgrees(w, p, kont, st, k, UNDERFLOW, st, fuel);
      } else {
        var q := if Top(st) != 0 then a else b;
        n, above := MachineAgrees(w, q, kont, Pop(st), k, fuel);
        StepsThen(w, c, 1, n);
        n := n + 1;
      }
    case Prim(op) =>
      var e := w.prim(op, st);
      if Respects(k, st, e.st) && e.Raise? {
        n := RaiseAgrees(w, p, kont, st, k, e.code, e.st, fuel);
      } else {
        n := 1;
      }
    case Execute =>
      if st.d == [] {
        n := RaiseAgrees(w, p, kont, st, k, UNDERFLOW, st, fuel);
      } else if fuel == 0 {
        n := 0;
      } else {
        n, above := MachineAgrees(w, w.word(Top(st)), kont, Pop(st), k, fuel - 1);
        StepsThen(w, c, 1, n);
        n := n + 1;
      }
    case Catch =>
      n := CatchAgrees(w, kont, st, k, fuel);
    case Throw =>
      if st.d == [] {
        n := RaiseAgrees(w, p, kont, st, k, UNDERFLOW, st, fuel);
      } else {
        n := ThrowAgrees(w, kont, st, k, fuel);
      }
  }

  lemma {:induction false} SeqAgrees(w: World, p: Prog, kont: seq<Item>, st: State, k: nat, fuel: nat)
    returns (n: nat, above: seq<Item>)
    requires p.Seq? && Stands(w, st, k)
    ensures Agrees(w, p, kont, st, k, Exec(w, p, st, k, |kont|, fuel), fuel, n, above)
    decreases fuel, p, 0
  {
    var c := Running([Do(p)] + kont, st);
    assert ([Do(p)] + kont)[1..] == kont;
    var after := [Do(p.second)] + kont;
    assert [Do(p.first), Do(p.second)] + kont == [Do(p.first)] + after;
    StepsOne(w, c);
    var n1, above1 := MachineAgrees(w, p.first, after, st, k, fuel);
    StepsThen(w, c, 1, n1);
    var r := Exec(w, p.first, st, k, |after|, fuel);
    above := above1;
    n := 1 + n1;
    if r.Normal? {
      var n2, above2 := MachineAgrees(w, p.second, kont, r.st, k, fuel);
      StepsThen(w, c, n, n2);
      n := n + n2;
      above := above2;
    } else if r.Raising? {
      above := above1 + [Do(p.second)];
      assert above1 + after == above + kont;
    }
  }

  lemma {:induction false} CatchAgrees(w: World, kont: seq<Item>, st: State, k: nat, fuel: nat) returns (n: nat)
    requires Stands(w, st, k)
    ensures Agrees(w, Catch, kont, st, k, Exec(w, Catch, st, k, |kont|, fuel), fuel, n, [])
    decreases fuel, Catch, 0
  {
    hide Step, Caught;
    if st.d == [] {
      EmptyCatch(w, kont, st, k);
      n := 2;
    } else if fuel == 0 {
      n := 0;
    } else {
      var after, start, q := [EndCatch] + kont, Pop(Entered(w.b, st, |kont|)), w.word(Top(st));
      CatchStarts(w, kont, st, k);
      var n1, above1 := MachineAgrees(w, q, after, start, |st.r| + 4, fuel - 1);
      n := CatchEnds(w, kont, st, k, Exec(w, q, start, |st.r| + 4, |after|, fuel - 1), fuel, n1, above1);
    }
  }

  /** CATCH with an xt to execute. */
  lemma CatchStarts(w: World, kont: seq<Item>, st: State, k: nat)
    requires Stands(w, st, k) && st.d != []
    ensures var start := Pop(Entered(w.b, st, |kont|));
      && Step(w, Running([Do(Catch)] + kont, st)) == Running([Do(w.word(Top(st)))] + ([EndCatch] + kont), start)
      && Stands(w, start, |st.r| + 4)
  {
    assert ([Do(Catch)] + kont)[1..] == kont;
    DepthPointer(w.b.rp0, |st.r| + 4);
    assert [Do(w.word(Top(st))), EndCatch] + kont == [Do(w.word(Top(st)))] + ([EndCatch] + kont);
  }

  /** From the end of the word executed to the end of CATCH. */
  lemma CatchEnds(w: World, kont: seq<Item>, st: State, k: nat, r: Result, fuel: nat, n1: nat, above: seq<Item>)
    returns (n: nat)
    requires Stands(w, st, k) && st.d != [] && fuel > 0
    requires Agrees(w, w.word(Top(st)), [EndCatch] + kont, Pop(Entered(w.b, st, |kont|)), |st.r| + 4, r, fuel - 1, n1,
                    above)
    ensures Agrees(w, Catch, kont, st, k, Caught(w, st, |st.r| + 4, r), fuel, n, [])
  {
    hide Step;
    var c, after := Running([Do(Catch)] + kont, st), [EndCatch] + kont;
    CatchStarts(w, kont, st, k);
    StepsOne(w, c);
    StepsThen(w, c, 1, n1);
    n := 1 + n1;
    if r.Normal? {
      LeaveAgrees(w, kont, st, k, r.st);
      StepsOne(w, Running(after, r.st));
      StepsThen(w, c, n, 1);
      n := n + 1;
    } else if r.Raising? {
      UnwindAgrees(w, above, kont, st, k, r.code, r.st);
      StepsOne(w, Running([Do(Throw)] + (above + after), Push(r.st, r.code)));
      StepsThen(w, c, n, 1);
      n := n + 1;
    }
  }

  /** CATCH on an empty data stack: the underflow is caught by the CATCH itself, whose
      recorded depth leaves no room for the code. */
  lemma EmptyCatch(w: World, kont: seq<Item>, st: State, k: nat)
    requires Stands(w, st, k) && st.d == []
    ensures Steps(w, Running([Do(Catch)] + kont, st), 2) == Halted(Double)
  {
    var c, entered := Running([Do(Catch)] + kont, st), Entered(w.b, st, |kont|);
    assert ([Do(Catch)] + kont)[1..] == kont;
    StepsOne(w, c);
    StepsThen(w, c, 1, 1);
    var after := [EndCatch] + kont;
    assert ([Do(Throw)] + after)[1..] == after;
    DepthPointer(w.b.rp0, |st.r| + 4);
    DepthPointer(w.b.sp0, 0);
    StepsOne(w, Handlers.Raised(after, entered, UNDERFLOW));
  }

  /** The word of a CATCH has returned. */
  lemma LeaveAgrees(w: World, kont: seq<Item>, st: State, k: nat, st1: State)
    requires Stands(w, st, k) && st.d != []
    requires Respects(|st.r| + 4, Pop(Entered(w.b, st, |kont|)), st1)
    ensures match Caught(w, st, |st.r| + 4, Normal(st1))
      case Normal(st2) => Step(w, Running([EndCatch] + kont, st1)) == Running(kont, st2) && Respects(k, st, st2)
      case Ended(h) => Step(w, Running([EndCatch] + kont, st1)) == Halted(h)
      case _ => false
  {
    var k1, entered := |st.r| + 4, Entered(w.b, st, |kont|);
    assert ([EndCatch] + kont)[1..] == kont;
    DepthPointer(w.b.rp0, k1);
    FramePart(st, entered.r, st1.r, k1);
  }

  /** What lies below and in a frame that is still there. */
  lemma FramePart(st: State, framed: seq<int>, r: seq<int>, k1: nat)
    requires k1 == |st.r| + 4 == |framed| <= |r| && framed[..|st.r|] == st.r && r[..k1] == framed[..k1]
    ensures r[..k1 - 4] == st.r
    ensures r[k1 - 4] == framed[k1 - 4] && r[k1 - 3] == framed[k1 - 3] && r[k1 - 2] == framed[k1 - 2]
    ensures r[k1 - 1] == framed[k1 - 1]
  {
    assert r[..k1][..k1 - 4] == r[..k1 - 4];
    forall i | 0 <= i < k1 ensures r[i] == framed[i] {
      assert r[..k1][i] == framed[..k1][i];
    }
  }

  /** An exception reaches its CATCH. */
  lemma UnwindAgrees(w: World, above: seq<Item>, kont: seq<Item>, st: State, k: nat, code: int, st1: State)
    requires Stands(w, st, k) && st.d != [] && code != 0 && code != -6
    requires Respects(|st.r| + 4, Pop(Entered(w.b, st, |kont|)), st1)
    ensures var r := Caught(w, st, |st.r| + 4, Raising(code, st1));
      && r.Normal? && Respects(k, st, r.st)
      && Step(w, Running([Do(Throw)] + (above + ([EndCatch] + kont)), Push(st1, code))) == Running(kont, r.st)
  {
    var k1, entered, thrown := |st.r| + 4, Entered(w.b, st, |kont|), Push(st1, code);
    var all := above + ([EndCatch] + kont);
    assert ([Do(Throw)] + all)[1..] == all;
    DepthPointer(w.b.rp0, k1);
    DepthPointer(w.b.sp0, |st.d|);
    FramePart(st, entered.r, st1.r, k1);
    assert all[|all| - |kont|..] == kont;
    assert thrown.d[..|thrown.d| - 1] == st1.d && Top(thrown) == code;
  }

  // ----- whole programs -----

  /** A program on its own: the machine finishes, aborts or quits exactly as the
      program means, and runs on forever exactly when that never ends. */
  lemma ProgramAgrees(w: World, p: Prog, st: State, fuel: nat) returns (n: nat)
    requires st.handler == 0 && !st.ehflag && !st.stackeh
    ensures var r := Exec(w, p, st, 0, 0, fuel);
      match r
      case Normal(st1) => Steps(w, Running([Do(p)], st), n) == Halted(Finished(st1))
      case Raising(_, _) => false
      case Ended(h) => Steps(w, Running([Do(p)], st), n) == Halted(h)
      case OutOfFuel => Steps(w, Running([Do(p)], st), n).Running? && n >= fuel
  {
    var above;
    n, above := MachineAgrees(w, p, [], st, 0, fuel);
    assert [Do(p)] + [] == [Do(p)];
    var r := Exec(w, p, st, 0, 0, fuel);
    if r.Normal? {
      StepsThen(w, Running([Do(p)], st), n, 1);
      StepsOne(w, Running([], r.st));
      n := n + 1;
    }
  }
}
