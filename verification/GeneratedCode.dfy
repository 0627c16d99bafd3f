/** Whole stretches of straight-line and branching opcodes, and the program
    generated for them. */
module GeneratedCode {
  import opened Cells
  import opened Machine
  import opened X86
  import opened Codegen

  predicate AllLocal(t: Table) {
    forall i :: 0 <= i < |t| ==> IsLocal(t[i])
  }

  /** The code of all opcodes, one after the other. */
  function Generated(t: Table, optimize: bool): seq<Instr>
    requires AllLocal(t)
  {
    if t == [] then [] else Emit(t[0], optimize) + Generated(t[1..], optimize)
  }

  /** Where the code of opcode i starts. */
  function Offset(t: Table, optimize: bool, i: nat): nat
    requires AllLocal(t) && i <= |t|
  {
    if i == 0 then 0 else |Emit(t[0], optimize)| + Offset(t[1..], optimize, i - 1)
  }

  // ----- the machine, one opcode at a time -----

  datatype Spot = Here(pc: nat, st: State) | Stopped(o: Outcome)

  function Move(env: Env, t: Table, s: Spot): Spot
    requires AllLocal(t)
  {
    if s.Stopped? then s
    else if s.pc >= |t| then Stopped(Stuck(s.st))
    else
      var op := t[s.pc];
      if op.IsPlain() then
        match Plain(env, op, s.st)
        case Done(st) => Here(s.pc + 1, st)
        case trap => Stopped(trap)
      else if op.Branch? && Taken(op.condition, s.st) then Here(Machine.IndexOf(t, Label(op.target)), s.st)
      else Here(s.pc + 1, s.st)
  }

  function MoveBy(env: Env, t: Table, s: Spot, m: nat): Spot
    requires AllLocal(t)
    decreases m
  {
    if m == 0 then s else MoveBy(env, t, Move(env, t, s), m - 1)
  }

  /** A move is one opcode of a run, and a taken branch takes a unit of fuel. */
  lemma MoveIsRun(env: Env, t: Table, pc: nat, st: State, fuel: nat)
    requires AllLocal(t)
    ensures match Move(env, t, Here(pc, st))
      case Stopped(o) => Run(t, env, pc, st, fuel) == o
      case Here(q, st2) =>
        if pc < |t| && t[pc].Branch? && Taken(t[pc].condition, st)
        then Run(t, env, pc, st, fuel + 1) == Run(t, env, q, st2, fuel)
        else Run(t, env, pc, st, fuel) == Run(t, env, q, st2, fuel)
  {
  }

  /** Every push on the way finds room. */
  predicate Roomy(env: Env, t: Table, s: Spot, m: nat)
    requires AllLocal(t)
    decreases m
  {
    m == 0 || ((s.Here? && s.pc < |t| ==> Room(t[s.pc], s.st)) && Roomy(env, t, Move(env, t, s), m - 1))
  }

  // ----- positions -----

  lemma {:induction false} CodeAt(t: Table, optimize: bool, i: nat)
    requires AllLocal(t) && i < |t|
    ensures var p, code, c := Offset(t, optimize, i), Generated(t, optimize), Emit(t[i], optimize);
      && Offset(t, optimize, i + 1) == p + |c| <= |code|
      && forall k :: 0 <= k < |c| ==> code[p + k] == c[k]
  {
    hide Emit, IsLocal, Generated, Offset;
    GeneratedUnfolds(t, optimize, i);
    if i > 0 {
      CodeAt(t[1..], optimize, i - 1);
      Shifted(Emit(t[0], optimize), Generated(t[1..], optimize), Offset(t[1..], optimize, i - 1), Emit(t[i], optimize));
    }
  }

  lemma GeneratedUnfolds(t: Table, optimize: bool, i: nat)
    requires AllLocal(t) && i < |t|
    ensures Generated(t, optimize) == Emit(t[0], optimize) + Generated(t[1..], optimize)
    ensures Offset(t, optimize, i) == if i == 0 then 0 else |Emit(t[0], optimize)| + Offset(t[1..], optimize, i - 1)
    ensures Offset(t, optimize, i + 1) == |Emit(t[0], optimize)| + Offset(t[1..], optimize, i)
    ensures Offset(t[1..], optimize, 0) == 0 && AllLocal(t[1..]) && (i > 0 ==> t[1..][i - 1] == t[i])
  {
    hide Emit;
  }

  lemma Shifted(first: seq<Instr>, tail: seq<Instr>, q: nat, c: seq<Instr>)
    requires q + |c| <= |tail| && forall k :: 0 <= k < |c| ==> tail[q + k] == c[k]
    ensures var code := first + tail; forall k :: 0 <= k < |c| ==> code[|first| + q + k] == c[k]
  {
    var code := first + tail;
    forall k | 0 <= k < |c| ensures code[|first| + q + k] == c[k] {
      assert code[|first| + q + k] == tail[q + k];
    }
  }

  lemma {:induction false} OffsetEnd(t: Table, optimize: bool)
    requires AllLocal(t)
    ensures Offset(t, optimize, |t|) == |Generated(t, optimize)|
  {
    if t != [] {
      OffsetEnd(t[1..], optimize);
    }
  }

  lemma FindSkips(a: seq<Instr>, b: seq<Instr>, n: int)
    requires LabelLine(n) !in a
    ensures FindLabel(a + b, n) == |a| + FindLabel(b, n)
  {
    var code, q := a + b, FindLabel(b, n);
    forall i | 0 <= i < |a| + q ensures code[i] != LabelLine(n) {
      if i < |a| { assert code[i] in a; } else { assert code[i] == b[i - |a|]; }
    }
    FindsFirst(code, n, |a| + q);
  }

  lemma FindsFirst(code: seq<Instr>, n: int, p: nat)
    requires p <= |code| && (p < |code| ==> code[p] == LabelLine(n))
    requires forall i :: 0 <= i < p ==> code[i] != LabelLine(n)
    ensures FindLabel(code, n) == p
  {
  }

  lemma OnlyLabelsLabel(op: Opcode, optimize: bool, n: int)
    requires IsLocal(op) && op != Label(n)
    ensures LabelLine(n) !in Emit(op, optimize)
  {
  }

  /** Jumps find the code of the opcode that branches go to. */
  lemma {:induction false} LabelFound(t: Table, optimize: bool, n: int)
    requires AllLocal(t)
    ensures Machine.IndexOf(t, Label(n)) <= |t|
    ensures FindLabel(Generated(t, optimize), n) == Offset(t, optimize, Machine.IndexOf(t, Label(n)))
  {
    hide Emit;
    if t != [] {
      var first, rest := Emit(t[0], optimize), t[1..];
      if t[0] == Label(n) {
        assert first == [LabelLine(n)] by { LabelCode(n, optimize); }
        assert Generated(t, optimize)[0] == LabelLine(n);
      } else {
        OnlyLabelsLabel(t[0], optimize, n);
        FindSkips(first, Generated(rest, optimize), n);
        LabelFound(rest, optimize, n);
      }
    }
  }

  lemma LabelCode(n: int, optimize: bool)
    ensures Emit(Label(n), optimize) == [LabelLine(n)]
  {
  }

  // ----- running the code of one opcode -----

  predicate NoJumps(c: seq<Instr>) {
    forall k :: 0 <= k < |c| ==> !c[k].Jmp? && !c[k].JumpIf?
  }

  lemma {:induction false} AdvanceThen(w: World, code: seq<Instr>, p: Place, n: nat, m: nat)
    ensures AdvanceBy(w, code, p, n + m) == AdvanceBy(w, code, AdvanceBy(w, code, p, n), m)
    decreases n
  {
    if n > 0 {
      AdvanceThen(w, code, Advance(w, code, p), n - 1, m);
    }
  }

  lemma {:induction false} AdvanceEnded(w: World, code: seq<Instr>, p: Place, n: nat)
    requires !p.At?
    ensures AdvanceBy(w, code, p, n) == p
    decreases n
  {
    if n > 0 {
      AdvanceEnded(w, code, p, n - 1);
    }
  }

  /** Instructions without jumps run one after the other. */
  lemma {:induction false} AdvanceSteps(w: World, code: seq<Instr>, p: nat, c: seq<Instr>, k: nat, x: Cpu)
    requires NoJumps(c) && k <= |c| && p + |c| <= |code| && forall j :: 0 <= j < |c| ==> code[p + j] == c[j]
    ensures match Steps(w, c, k, x)
      case Next(y) => AdvanceBy(w, code, X86.At(p + k, x), |c| - k) == X86.At(p + |c|, y)
      case Exception(e, y) => AdvanceBy(w, code, X86.At(p + k, x), |c| - k) == Ended(e, y)
      case HostFault => AdvanceBy(w, code, X86.At(p + k, x), |c| - k) == Fault
    decreases |c| - k
  {
    hide Step;
    if k < |c| {
      assert code[p + k] == c[k];
      var e := Step(w, c[k], x);
      if e.Next? {
        AdvanceSteps(w, code, p, c, k + 1, e.cpu);
      } else {
        AdvanceEnded(w, code, Advance(w, code, X86.At(p + k, x)), |c| - k - 1);
      }
    }
  }

  lemma PlainHasNoJumps(op: Opcode, optimize: bool)
    requires op.IsPlain() || op.Label? || op.NoOp?
    ensures NoJumps(Emit(op, optimize))
  {
  }

  /** The place in the code that a spot in the table corresponds to. */
  ghost predicate Corresponds(w: World, t: Table, optimize: bool, s: Spot, p: Place, host: seq<Cell>)
    requires AllLocal(t)
  {
    match s
    case Here(pc, st) => pc <= |t| && p.At? && p.pc == Offset(t, optimize, pc) && Stands(w, p.cpu, st)
      && p.cpu.host == host
    case Stopped(Trap(code, st)) => p.Ended? && p.code == code && Carries(w, p.cpu, st.core)
    case Stopped(Stuck(_)) => p == Fault
    case _ => false
  }

  lemma PlainMoves(w: World, t: Table, optimize: bool, i: nat, st: State, x: Cpu) returns (n: nat)
    requires AllLocal(t) && i < |t| && t[i].IsPlain() && Stands(w, x, st) && Outside(w) && Room(t[i], st)
    ensures Corresponds(w, t, optimize, Move(w.env, t, Here(i, st)),
                        AdvanceBy(w, Generated(t, optimize), X86.At(Offset(t, optimize, i), x), n), x.host)
  {
    hide Steps, Stands, Outside, Emit, Plain, Room, IsLocal, Step, Simple, Generated, Offset, NoJumps, AdvanceBy,
      Advance;
    CodeAt(t, optimize, i);
    PlainHasNoJumps(t[i], optimize);
    PlainAgrees(w, t[i], optimize, x, st);
    AdvanceSteps(w, Generated(t, optimize), Offset(t, optimize, i), Emit(t[i], optimize), 0, x);
    n := |Emit(t[i], optimize)|;
  }

  lemma MarkerMoves(w: World, t: Table, optimize: bool, i: nat, st: State, x: Cpu) returns (n: nat)
    requires AllLocal(t) && i < |t| && (t[i].NoOp? || t[i].Label?) && Stands(w, x, st)
    ensures Corresponds(w, t, optimize, Move(w.env, t, Here(i, st)),
                        AdvanceBy(w, Generated(t, optimize), X86.At(Offset(t, optimize, i), x), n), x.host)
  {
    CodeAt(t, optimize, i);
    hide IsLocal, Simple, AdvanceBy, Advance;
    var c := Emit(t[i], optimize);
    n := |c|;
    AdvanceSteps(w, Generated(t, optimize), Offset(t, optimize, i), c, 0, x);
    if t[i].Label? { StepsOne(w, c[0], x); }
    hide Stands, Generated, Offset;
  }

  lemma BranchMoves(w: World, t: Table, optimize: bool, i: nat, st: State, x: Cpu) returns (n: nat)
    requires AllLocal(t) && i < |t| && t[i].Branch? && Stands(w, x, st)
    ensures Corresponds(w, t, optimize, Move(w.env, t, Here(i, st)),
                        AdvanceBy(w, Generated(t, optimize), X86.At(Offset(t, optimize, i), x), n), x.host)
    ensures n > 0
  {
    hide Stands, Generated, Offset, FindLabel, Step, Holds, IsLocal, Emit, JumpCode, Simple, AdvanceBy;
    CodeAt(t, optimize, i);
    LabelFound(t, optimize, t[i].target);
    BranchCode(t[i], optimize);
    var code, p, c := Generated(t, optimize), Offset(t, optimize, i), JumpCode(t[i].condition, t[i].target);
    assert code[p + 0] == c[0];
    if t[i].condition.Always? {
      n := 1;
      AdvanceOne(w, code, X86.At(p, x));
    } else {
      n := 2;
      assert code[p + 1] == c[1];
      TestAgrees(w, t[i].condition, t[i].target, x, st);
      TestIsNoJump(t[i].condition, t[i].target);
      hide Taken, Advance;
      JumpsAfterTest(w, code, p, c, x);
    }
  }

  lemma BranchCode(op: Opcode, optimize: bool)
    requires op.Branch?
    ensures Emit(op, optimize) == JumpCode(op.condition, op.target)
    ensures op.condition.Always? ==> JumpCode(op.condition, op.target) == [Jmp(op.target)]
    ensures !op.condition.Always? ==> |JumpCode(op.condition, op.target)| == 2
  {
  }

  /** A test and a conditional jump. */
  lemma JumpsAfterTest(w: World, code: seq<Instr>, p: nat, c: seq<Instr>, x: Cpu)
    requires |c| == 2 && p + 2 <= |code| && code[p] == c[0] && code[p + 1] == c[1] && NoJumps([c[0]]) && c[1].JumpIf?
    requires Step(w, c[0], x).Next?
    ensures var y := Step(w, c[0], x).cpu;
      AdvanceBy(w, code, X86.At(p, x), 2) ==
        X86.At(if Holds(c[1].test, y.flags) then FindLabel(code, c[1].number) else p + 2, y)
  {
    hide Step, Holds, FindLabel;
    assert ![c[0]][0].Jmp? && ![c[0]][0].JumpIf?;
    AdvanceOne(w, code, X86.At(p, x));
    AdvanceThen(w, code, X86.At(p, x), 1, 1);
    AdvanceOne(w, code, X86.At(p + 1, Step(w, c[0], x).cpu));
  }

  lemma TestIsNoJump(condition: Condition, target: int)
    requires !condition.Always?
    ensures NoJumps([JumpCode(condition, target)[0]])
  {
  }

  lemma AdvanceOne(w: World, code: seq<Instr>, p: Place)
    ensures AdvanceBy(w, code, p, 1) == Advance(w, code, p)
  {
    assert AdvanceBy(w, code, Advance(w, code, p), 0) == Advance(w, code, p);
  }

  lemma MoveCorresponds(w: World, t: Table, optimize: bool, i: nat, st: State, x: Cpu) returns (n: nat)
    requires AllLocal(t) && i <= |t| && Stands(w, x, st) && Outside(w) && (i < |t| ==> Room(t[i], st))
    ensures Corresponds(w, t, optimize, Move(w.env, t, Here(i, st)),
                        AdvanceBy(w, Generated(t, optimize), X86.At(Offset(t, optimize, i), x), n), x.host)
    ensures var s := Move(w.env, t, Here(i, st)); s.Here? ==> s.pc <= |t| && (n > 0 || s.pc == i + 1)
  {
    hide Stands, Outside, Emit, Plain, Room, Generated, Offset, Corresponds;
    if i == |t| {
      OffsetEnd(t, optimize);
      n := 1;
      AdvanceOne(w, Generated(t, optimize), X86.At(Offset(t, optimize, i), x));
      OffTheEnd(w, t, optimize, st, x);
    } else if t[i].IsPlain() {
      n := PlainMoves(w, t, optimize, i, st, x);
    } else if t[i].Branch? {
      n := BranchMoves(w, t, optimize, i, st, x);
    } else {
      assert IsLocal(t[i]);
      n := MarkerMoves(w, t, optimize, i, st, x);
    }
  }

  lemma OffTheEnd(w: World, t: Table, optimize: bool, st: State, x: Cpu)
    requires AllLocal(t)
    ensures Corresponds(w, t, optimize, Move(w.env, t, Here(|t|, st)),
                        Advance(w, Generated(t, optimize), X86.At(|Generated(t, optimize)|, x)), x.host)
  {
  }

  /** However many opcodes the machine runs, the generated code gets to the same
      place in the same state, or ends with the same exception and the same stacks
      and memory. */
  lemma {:induction false} CodeFollows(w: World, t: Table, optimize: bool, i: nat, st: State, x: Cpu, m: nat)
    returns (n: nat)
    requires AllLocal(t) && i <= |t| && Stands(w, x, st) && Outside(w) && Roomy(w.env, t, Here(i, st), m)
    ensures Corresponds(w, t, optimize, MoveBy(w.env, t, Here(i, st), m),
                        AdvanceBy(w, Generated(t, optimize), X86.At(Offset(t, optimize, i), x), n), x.host)
    ensures var s := MoveBy(w.env, t, Here(i, st), m); s.Here? ==> s.pc <= |t| && n * (|t| + 1) + s.pc >= m + i
    decreases m
  {
    hide Stands, Outside, Room, Move, Generated, Offset;
    var code, p := Generated(t, optimize), X86.At(Offset(t, optimize, i), x);
    if m == 0 {
      n := 0;
    } else {
      var n1 := MoveCorresponds(w, t, optimize, i, st, x);
      var next, q := Move(w.env, t, Here(i, st)), AdvanceBy(w, code, p, n1);
      if next.Here? {
        var n2 := CodeFollows(w, t, optimize, next.pc, next.st, q.cpu, m - 1);
        AdvanceThen(w, code, p, n1, n2);
        n := n1 + n2;
        Progress(n1, n2, |t| + 1);
      } else {
        StoppedStays(w.env, t, next, m - 1);
        n := n1;
      }
    }
  }

  lemma Progress(n1: nat, n2: nat, length: nat)
    ensures (n1 + n2) * length == n1 * length + n2 * length
    ensures n1 > 0 ==> n1 * length >= length
    ensures n1 == 0 ==> n1 * length == 0
  {
    if n1 > 0 { Times(1, n1, length); }
  }

  lemma {:induction false} StoppedStays(env: Env, t: Table, s: Spot, m: nat)
    requires AllLocal(t) && s.Stopped?
    ensures MoveBy(env, t, s, m) == s
    decreases m
  {
    if m > 0 {
      StoppedStays(env, t, s, m - 1);
    }
  }

  // ----- traps -----

  /** A run that ends is some number of moves. */
  lemma {:induction false} RunIsMoves(env: Env, t: Table, pc: nat, st: State, fuel: nat) returns (m: nat)
    requires AllLocal(t) && Run(t, env, pc, st, fuel) != Timeout
    ensures MoveBy(env, t, Here(pc, st), m) == Stopped(Run(t, env, pc, st, fuel))
    decreases fuel, |t| - pc
  {
    var next := Move(env, t, Here(pc, st));
    MoveIsRun(env, t, pc, st, fuel);
    if next.Stopped? {
      m := 1;
      assert MoveBy(env, t, next, 0) == next;
    } else {
      var rest;
      if t[pc].Branch? && Taken(t[pc].condition, st) {
        assert fuel > 0;
        MoveIsRun(env, t, pc, st, fuel - 1);
        rest := RunIsMoves(env, t, next.pc, next.st, fuel - 1);
      } else {
        assert next.pc == pc + 1;
        rest := RunIsMoves(env, t, next.pc, next.st, fuel);
      }
      m := rest + 1;
    }
  }

  /** And moves that end are a run. */
  lemma {:induction false} MovesAreRun(env: Env, t: Table, pc: nat, st: State, m: nat, o: Outcome)
    requires AllLocal(t) && MoveBy(env, t, Here(pc, st), m) == Stopped(o) && o != Timeout
    ensures Run(t, env, pc, st, m) == o
    decreases m
  {
    hide Move;
    var next := Move(env, t, Here(pc, st));
    MoveIsRun(env, t, pc, st, m);
    if next.Stopped? {
      StoppedStays(env, t, next, m - 1);
    } else {
      MovesAreRun(env, t, next.pc, next.st, m - 1, o);
      MoveIsRun(env, t, pc, st, m - 1);
      RunMonotone(t, env, next.pc, next.st, m - 1, m);
    }
  }

  /** Every push finds room, however long the run. */
  ghost predicate AlwaysRoomy(env: Env, t: Table, s: Spot)
    requires AllLocal(t)
  {
    forall m: nat :: Roomy(env, t, s, m)
  }

  /** A place is the end of a run by a trap, with its code, its stacks and its memory. */
  ghost predicate TrappedAt(w: World, p: Place, o: Outcome) {
    o.Trap? && p.Ended? && p.code == o.code && Carries(w, p.cpu, o.state.core)
  }

  /** When the machine traps, the generated code ends with that trap. */
  lemma TrapFollows(w: World, t: Table, optimize: bool, i: nat, st: State, x: Cpu, fuel: nat) returns (n: nat)
    requires AllLocal(t) && i <= |t| && Stands(w, x, st) && Outside(w) && AlwaysRoomy(w.env, t, Here(i, st))
    requires Run(t, w.env, i, st, fuel).Trap?
    ensures TrappedAt(w, AdvanceBy(w, Generated(t, optimize), X86.At(Offset(t, optimize, i), x), n),
                      Run(t, w.env, i, st, fuel))
  {
    hide Stands, Outside, Roomy, Run, MoveBy, AdvanceBy, Carries, Generated, Offset;
    var m := RunIsMoves(w.env, t, i, st, fuel);
    n := CodeFollows(w, t, optimize, i, st, x, m);
  }

  /** And when the generated code ends, the machine has trapped like that. */
  lemma TrapComes(w: World, t: Table, optimize: bool, i: nat, st: State, x: Cpu, n: nat) returns (fuel: nat)
    requires AllLocal(t) && i <= |t| && Stands(w, x, st) && Outside(w) && AlwaysRoomy(w.env, t, Here(i, st))
    requires AdvanceBy(w, Generated(t, optimize), X86.At(Offset(t, optimize, i), x), n).Ended?
    ensures TrappedAt(w, AdvanceBy(w, Generated(t, optimize), X86.At(Offset(t, optimize, i), x), n),
                      Run(t, w.env, i, st, fuel))
  {
    hide Stands, Outside, Roomy, Run, MoveBy, AdvanceBy, Carries, Generated, Offset;
    var length := |t| + 1;
    var m := (n + 1) * length;
    var code, p := Generated(t, optimize), X86.At(Offset(t, optimize, i), x);
    var k := CodeFollows(w, t, optimize, i, st, x, m);
    if k < n {
      AdvanceThen(w, code, p, k, n - k);
    } else {
      AdvanceThen(w, code, p, n, k - n);
      AdvanceEnded(w, code, AdvanceBy(w, code, p, n), k - n);
    }
    fuel := m;
    var s := MoveBy(w.env, t, Here(i, st), m);
    if s.Here? {
      TooFew(k, n, length);
    }
    if k < n {
      AdvanceEnded(w, code, AdvanceBy(w, code, p, k), n - k);
    }
    MovesAreRun(w.env, t, i, st, m, s.o);
  }

  lemma TooFew(k: nat, n: nat, length: nat)
    requires k * length + length > (n + 1) * length
    ensures k > n
  {
    if k <= n { Times(k, n, length); }
  }
}
