/** The code generated for opcodes, and that it does what they do. */
module Codegen {
  import opened Cells
  import opened Machine
  import opened X86

  function CpuReg(r: Register): Reg {
    if r.R0? then EAX else EDX
  }

  /** Short forms for adding plus or minus one, or nothing at all. */
  function AddCode(v: int, r: Reg, optimize: bool): seq<Instr> {
    if optimize && v == 1 then [Inc(r)]
    else if optimize && v == -1 then [Dec(r)]
    else if optimize && v == 0 then []
    else [AddImmediate(v, r)]
  }

  function SubtractCode(v: int, r: Reg, optimize: bool): seq<Instr> {
    if optimize && v == 1 then [Dec(r)]
    else if optimize && v == -1 then [Inc(r)]
    else if optimize && v == 0 then []
    else [SubImmediate(v, r)]
  }

  function LoadCode(v: int, r: Reg, optimize: bool): seq<Instr> {
    if optimize && (v == 1 || v == -1 || v == 0) then
      [XorSelf(r)] + if v == 1 then [Inc(r)] else if v == -1 then [Dec(r)] else []
    else [MovImmediate(v, r)]
  }

  /** The stack routines work on eax, so the other register is exchanged with it. */
  function Exchanged(r: Reg, i: Instr): seq<Instr> {
    if r == EAX then [i] else [Xchg(r, EAX), i, Xchg(EAX, r)]
  }

  function JumpCode(condition: Condition, target: int): seq<Instr> {
    match condition
    case Always => [Jmp(target)]
    case Zero(r) => [TestSelf(CpuReg(r)), JumpIf(Test.Equal, target)]
    case NonZero(r) => [TestSelf(CpuReg(r)), JumpIf(Test.NotEqual, target)]
    case Greater(r) => [TestSelf(CpuReg(r)), JumpIf(Test.Greater, target)]
    case Less(r) => [TestSelf(CpuReg(r)), JumpIf(Test.Less, target)]
    case GreaterEqual(r) => [TestSelf(CpuReg(r)), JumpIf(GreaterOrEqual, target)]
    case LessEqual(r) => [TestSelf(CpuReg(r)), JumpIf(LessOrEqual, target)]
    case Equal(a, b) => [CmpReg(CpuReg(a), CpuReg(b)), JumpIf(Test.Equal, target)]
    case NotEqual(a, b) => [CmpReg(CpuReg(a), CpuReg(b)), JumpIf(Test.NotEqual, target)]
  }

  /** Straight-line and branching opcodes. */
  predicate IsLocal(op: Opcode) {
    op.IsPlain() || op.NoOp? || op.Label? || op.Branch?
  }

  function Emit(op: Opcode, optimize: bool): seq<Instr>
    requires IsLocal(op)
  {
    match op
    case NoOp => []
    case Label(n) => [LabelLine(n)]
    case Branch(condition, target) => JumpCode(condition, target)
    case LoadValue(r, v) => LoadCode(v, CpuReg(r), optimize)
    case LoadRegister(r, with) => [MovReg(CpuReg(with), CpuReg(r))]
    case LoadSymbol(r, s) => [Lea(OfSymbol(s), CpuReg(r))]
    case LoadSymbolIndirect(r, s) => [MovFrom(s, CpuReg(r))]
    case LoadData(r, d) => [Lea(OfData(d), CpuReg(r))]
    case StoreSymbolIndirect(r, s) => [MovTo(CpuReg(r), s)]
    case Push(r, stack) => Exchanged(CpuReg(r), CallPush(stack))
    case Pop(r, stack) => Exchanged(CpuReg(r), CallPop(stack))
    case AddValue(r, v) => AddCode(v, CpuReg(r), optimize)
    case AddRegister(r, other) => [AddReg(CpuReg(other), CpuReg(r))]
    case SubtractValue(r, v) => SubtractCode(v, CpuReg(r), optimize)
    case SubtractRegister(r, other) => [SubReg(CpuReg(other), CpuReg(r))]
  }

  /** Optimized code never moves, adds or subtracts zero, one or minus one as a number;
      code that is not optimized always names the number. */
  lemma ShortForms(op: Opcode, k: nat)
    requires IsLocal(op)
    ensures k < |Emit(op, true)| ==>
      var i := Emit(op, true)[k];
      i.MovImmediate? || i.AddImmediate? || i.SubImmediate? ==> !(-1 <= i.v <= 1)
    ensures op.LoadValue? ==> Emit(op, false) == [MovImmediate(op.value, CpuReg(op.reg))]
    ensures op.AddValue? ==> Emit(op, false) == [AddImmediate(op.value, CpuReg(op.reg))]
    ensures op.SubtractValue? ==> Emit(op, false) == [SubImmediate(op.value, CpuReg(op.reg))]
  {
  }

  // ----- what the processor's state stands for -----

  predicate Within(base: Cell, cells: int, a: Cell) {
    base <= a < base + 4 * cells
  }

  /** Cells that belong to the stacks. */
  predicate Owned(l: Layout, a: Cell) {
    a == l.dindex || a == l.rindex || Within(l.dbase, DATA_SIZE + SPARE, a) || Within(l.rbase, RETURN_SIZE + SPARE, a)
  }

  predicate Separate(l: Layout) {
    && l.dbase + 4 * (DATA_SIZE + SPARE) <= CELL_RANGE && l.rbase + 4 * (RETURN_SIZE + SPARE) <= CELL_RANGE
    && (l.dbase + 4 * (DATA_SIZE + SPARE) <= l.rbase || l.rbase + 4 * (RETURN_SIZE + SPARE) <= l.dbase)
    && l.dindex != l.rindex
    && !Within(l.dbase, DATA_SIZE + SPARE, l.dindex) && !Within(l.dbase, DATA_SIZE + SPARE, l.rindex)
    && !Within(l.rbase, RETURN_SIZE + SPARE, l.dindex) && !Within(l.rbase, RETURN_SIZE + SPARE, l.rindex)
  }

  /** Array and index hold the stack. */
  ghost predicate Holding(x: Cpu, base: Cell, index: Cell, s: seq<Cell>, size: int) {
    && |s| <= size && x.Fetch(index) == |s|
    && forall i :: 0 <= i < |s| && base + 4 * i < CELL_RANGE ==> x.Fetch(base + 4 * i) == s[i]
  }

  /** The processor has the stacks and the memory of the machine. */
  ghost predicate Carries(w: World, x: Cpu, core: Core) {
    && x.fpu == core.fstack && |x.fpu| <= FLOAT_SIZE
    && Holding(x, w.layout.dbase, w.layout.dindex, core.dstack, DATA_SIZE)
    && Holding(x, w.layout.rbase, w.layout.rindex, core.rstack, RETURN_SIZE)
    && (forall a: Cell :: !Owned(w.layout, a) ==> x.Fetch(a) == core.Fetch(a))
  }

  /** Processor state x stands for machine state st; flags and the other registers
      do not matter. */
  ghost predicate Stands(w: World, x: Cpu, st: State) {
    x.eax == st.r0 && x.edx == st.r1 && Carries(w, x, st.core)
  }

  /** Symbols are not placed on the stacks. */
  ghost predicate Outside(w: World) {
    Separate(w.layout) && forall s :: !Owned(w.layout, w.env.symbolAddress(s))
  }

  // ----- the stack routines -----

  lemma LineEnd(w: World, code: seq<Instr>, x: Cpu)
    ensures Line(w, code, |code|, x) == Next(x)
  {
  }

  lemma LinePushHost(w: World, code: seq<Instr>, k: nat, x: Cpu, r: Reg)
    requires k < |code| && code[k] == PushHost(r)
    ensures Line(w, code, k, x) == Line(w, code, k + 1, x.(host := x.host + [x.Get(r)]))
  {
  }

  lemma LinePopHost(w: World, code: seq<Instr>, k: nat, x: Cpu, r: Reg)
    requires k < |code| && code[k] == PopHost(r) && x.host != []
    ensures Line(w, code, k, x) == Line(w, code, k + 1, x.(host := x.host[..|x.host| - 1]).Set(r, x.host[|x.host| - 1]))
  {
  }

  lemma LineMovImmediate(w: World, code: seq<Instr>, k: nat, x: Cpu, v: int, r: Reg)
    requires k < |code| && code[k] == MovImmediate(v, r)
    ensures Line(w, code, k, x) == Line(w, code, k + 1, x.Set(r, Wrap(v)))
  {
  }

  lemma LineMovAddress(w: World, code: seq<Instr>, k: nat, x: Cpu, a: Cell, r: Reg)
    requires k < |code| && code[k] == MovAddress(a, r)
    ensures Line(w, code, k, x) == Line(w, code, k + 1, x.Set(r, a))
  {
  }

  lemma LineLoad(w: World, code: seq<Instr>, k: nat, x: Cpu, f: Reg, r: Reg)
    requires k < |code| && code[k] == Load(f, r)
    ensures Line(w, code, k, x) == Line(w, code, k + 1, x.Set(r, x.Fetch(x.Get(f))))
  {
  }

  lemma LineLoadIndexed(w: World, code: seq<Instr>, k: nat, x: Cpu, bs: Reg, ix: Reg, r: Reg)
    requires k < |code| && code[k] == LoadIndexed(bs, ix, r)
    ensures Line(w, code, k, x) == Line(w, code, k + 1, x.Set(r, x.Fetch(Indexed(x.Get(bs), x.Get(ix)))))
  {
  }

  lemma LineStoreIndexed(w: World, code: seq<Instr>, k: nat, x: Cpu, r: Reg, bs: Reg, ix: Reg)
    requires k < |code| && code[k] == StoreIndexed(r, bs, ix)
    ensures Line(w, code, k, x) == Line(w, code, k + 1, x.Store(Indexed(x.Get(bs), x.Get(ix)), x.Get(r)))
  {
  }

  lemma LineIncMemory(w: World, code: seq<Instr>, k: nat, x: Cpu, r: Reg)
    requires k < |code| && code[k] == IncMemory(r)
    ensures Line(w, code, k, x) ==
      Line(w, code, k + 1, x.Store(x.Get(r), Wrap(x.Fetch(x.Get(r)) + 1)).(flags := w.noise(IncMemory(r), x)))
  {
  }

  lemma LineDecMemory(w: World, code: seq<Instr>, k: nat, x: Cpu, r: Reg)
    requires k < |code| && code[k] == DecMemory(r)
    ensures Line(w, code, k, x) ==
      Line(w, code, k + 1, x.Store(x.Get(r), Wrap(x.Fetch(x.Get(r)) - 1)).(flags := w.noise(DecMemory(r), x)))
  {
  }

  lemma LineCmpMemory(w: World, code: seq<Instr>, k: nat, x: Cpu, v: Reg, r: Reg)
    requires k < |code| && code[k] == CmpMemory(v, r)
    ensures Line(w, code, k, x) == Line(w, code, k + 1, x.(flags := Compared(x.Fetch(x.Get(r)), x.Get(v))))
  {
  }

  lemma LineCmpMemoryZero(w: World, code: seq<Instr>, k: nat, x: Cpu, r: Reg)
    requires k < |code| && code[k] == CmpMemoryZero(r)
    ensures Line(w, code, k, x) == Line(w, code, k + 1, x.(flags := Compared(x.Fetch(x.Get(r)), 0)))
  {
  }

  lemma ComparedBelow(a: Cell, b: Cell)
    ensures Compared(a, b).cf == (a < b) && Compared(a, b).zf == (a == b)
  {
  }

  /** Up to the test, a push saves registers and loads addresses. */
  lemma PushHeadRuns(w: World, stack: Stack, x: Cpu) returns (y: Cpu)
    requires !stack.FloatStack?
    ensures Line(w, PushHead(w.layout, stack), 0, x) == Next(y)
    ensures y.flags.cf == (x.Fetch(X86.IndexOf(w.layout, stack)) < SizeOf(stack))
    ensures y == x.(ecx := SizeOf(stack), edx := Wrap(OverflowCode(stack)), esi := X86.IndexOf(w.layout, stack),
                    edi := BaseOf(w.layout, stack), host := x.host + [x.ecx, x.edx], flags := y.flags)
  {
    hide Line, Simple, Compared;
    var l := w.layout;
    var c, base, index := PushHead(l, stack), BaseOf(l, stack), X86.IndexOf(l, stack);
    var x3 := PushSaves(w, stack, x);
    var x4 := x3.(edi := base);
    var x5 := x4.(esi := index);
    var x6 := x5.(edx := Wrap(OverflowCode(stack)));
    y := x6.(flags := Compared(x6.Fetch(x6.esi), x6.ecx));
    LineMovAddress(w, c, 3, x3, base, EDI);
    LineMovAddress(w, c, 4, x4, index, ESI);
    LineMovImmediate(w, c, 5, x5, OverflowCode(stack), EDX);
    LineCmpMemory(w, c, 6, x6, ECX, ESI);
    LineEnd(w, c, y);
    ComparedBelow(x6.Fetch(x6.esi), x6.ecx);
  }

  lemma PushSaves(w: World, stack: Stack, x: Cpu) returns (x3: Cpu)
    requires !stack.FloatStack?
    ensures Line(w, PushHead(w.layout, stack), 0, x) == Line(w, PushHead(w.layout, stack), 3, x3)
    ensures x3 == x.(ecx := SizeOf(stack), host := x.host + [x.ecx, x.edx])
  {
    hide Line, Simple;
    var c := PushHead(w.layout, stack);
    var x1 := x.(host := x.host + [x.ecx]);
    var x2 := x1.(host := x1.host + [x.edx]);
    x3 := x2.(ecx := SizeOf(stack));
    LinePushHost(w, c, 0, x, ECX);
    LinePushHost(w, c, 1, x1, EDX);
    LineMovImmediate(w, c, 2, x2, SizeOf(stack), ECX);
    assert x.host + [x.ecx] + [x.edx] == x.host + [x.ecx, x.edx];
  }

  /** After the test, a push stores eax ... */
  lemma PushStores(w: World, y: Cpu) returns (x4: Cpu)
    ensures Line(w, PushTail(), 0, y) == Line(w, PushTail(), 4, x4)
    ensures x4 == y.Store(Indexed(y.edi, y.Fetch(y.esi)), y.eax)
  {
    hide Line, Simple, Indexed;
    var c := PushTail();
    var x1 := y.(host := y.host + [y.esi]);
    var x2 := x1.(esi := x1.Fetch(x1.esi));
    var x3 := x2.Store(Indexed(x2.edi, x2.esi), x2.eax);
    x4 := x3.(host := y.host, esi := y.esi);
    assert x3.host[..|x3.host| - 1] == y.host;
    LinePushHost(w, c, 0, y, ESI);
    LineLoad(w, c, 1, x1, ESI, ESI);
    LineStoreIndexed(w, c, 2, x2, EAX, EDI, ESI);
    LinePopHost(w, c, 3, x3, ESI);
  }

  /** ... counts, and restores registers. */
  lemma PushTailRuns(w: World, y: Cpu, ecx: Cell, edx: Cell, host: seq<Cell>) returns (z: Cpu)
    requires y.host == host + [ecx, edx]
    ensures Line(w, PushTail(), 0, y) == Next(z)
    ensures var n := y.Fetch(y.esi); var stored := y.Store(Indexed(y.edi, n), y.eax);
      && z.memory == stored.Store(y.esi, Wrap(stored.Fetch(y.esi) + 1)).memory
      && z.eax == y.eax && z.ecx == ecx && z.edx == edx && z.esi == y.esi && z.edi == y.edi
      && z.host == host && z.fpu == y.fpu
  {
    hide Line, Simple, Indexed;
    var c := PushTail();
    var x4 := PushStores(w, y);
    var x5 := x4.Store(x4.esi, Wrap(x4.Fetch(x4.esi) + 1)).(flags := w.noise(IncMemory(ESI), x4));
    var x6 := x5.(host := host + [ecx], edx := edx);
    z := x6.(host := host, ecx := ecx);
    assert y.host[..|y.host| - 1] == host + [ecx] && (host + [ecx])[..|host|] == host;
    LineIncMemory(w, c, 4, x4, ESI);
    LinePopHost(w, c, 5, x5, EDX);
    LinePopHost(w, c, 6, x6, ECX);
    LineEnd(w, c, z);
  }

  lemma PopHeadRuns(w: World, stack: Stack, x: Cpu) returns (y: Cpu)
    requires !stack.FloatStack?
    ensures Line(w, PopHead(w.layout, stack), 0, x) == Next(y)
    ensures (!y.flags.cf && !y.flags.zf) <==> x.Fetch(X86.IndexOf(w.layout, stack)) > 0
    ensures y == x.(edx := Wrap(Underflow(stack)), esi := X86.IndexOf(w.layout, stack),
                    edi := BaseOf(w.layout, stack), host := x.host + [x.edx], flags := y.flags)
  {
    hide Line, Simple, Compared;
    var l := w.layout;
    var c, base, index := PopHead(l, stack), BaseOf(l, stack), X86.IndexOf(l, stack);
    var x1 := x.(host := x.host + [x.edx]);
    var x2 := x1.(edi := base);
    var x3 := x2.(esi := index);
    var x4 := x3.(edx := Wrap(Underflow(stack)));
    y := x4.(flags := Compared(x4.Fetch(x4.esi), 0));
    LinePushHost(w, c, 0, x, EDX);
    LineMovAddress(w, c, 1, x1, base, EDI);
    LineMovAddress(w, c, 2, x2, index, ESI);
    LineMovImmediate(w, c, 3, x3, Underflow(stack), EDX);
    LineCmpMemoryZero(w, c, 4, x4, ESI);
    LineEnd(w, c, y);
    ComparedBelow(x4.Fetch(x4.esi), 0);
  }

  lemma PopTailRuns(w: World, y: Cpu, edx: Cell, host: seq<Cell>) returns (z: Cpu)
    requires y.host == host + [edx]
    ensures Line(w, PopTail(), 0, y) == Next(z)
    ensures var n := Wrap(y.Fetch(y.esi) - 1); var counted := y.Store(y.esi, n);
      && z.memory == counted.memory && z.eax == counted.Fetch(Indexed(y.edi, n))
      && z.ecx == y.ecx && z.edx == edx && z.esi == n && z.edi == y.edi && z.host == host && z.fpu == y.fpu
  {
    hide Line, Simple;
    var c := PopTail();
    var x1 := y.Store(y.esi, Wrap(y.Fetch(y.esi) - 1)).(flags := w.noise(DecMemory(ESI), y));
    var x2 := x1.(esi := x1.Fetch(x1.esi));
    var x3 := x2.(eax := x2.Fetch(Indexed(x2.edi, x2.esi)));
    z := x3.(host := host, edx := edx);
    assert y.host[..|y.host| - 1] == host;
    LineDecMemory(w, c, 0, y, ESI);
    LineLoad(w, c, 1, x1, ESI, ESI);
    LineLoadIndexed(w, c, 2, x2, EDI, ESI, EAX);
    LinePopHost(w, c, 3, x3, EDX);
    LineEnd(w, c, z);
  }

  /** A push routine puts eax on the stack and keeps eax, ecx and edx; esi and edi
      are lost to the addresses of index and stack, except for floats. */
  lemma PushStands(w: World, stack: Stack, x: Cpu, st: State) returns (z: Cpu)
    requires Stands(w, x, st) && Separate(w.layout)
    requires |st.core.Get(stack)| < if stack.DataStack? then 4080 else if stack.ReturnStack? then 2032 else 6
    ensures PushRoutine(w, stack, x) == Next(z) && Stands(w, z, PushOn(st, stack, x.eax))
    ensures z.eax == x.eax && z.ecx == x.ecx && z.edx == x.edx && z.host == x.host
    ensures z.esi == (if stack.FloatStack? then x.esi else X86.IndexOf(w.layout, stack))
    ensures z.edi == (if stack.FloatStack? then x.edi else BaseOf(w.layout, stack))
  {
    hide Stands, Separate, Line, PushOn;
    if stack.FloatStack? {
      z := x.(fpu := x.fpu + [x.eax], flags := w.noise(CallPush(stack), x));
      PushedFloat(w, x, z, st);
    } else {
      z := PushMemory(w, stack, x, st);
    }
  }

  lemma PushedFloat(w: World, x: Cpu, z: Cpu, st: State)
    requires Stands(w, x, st) && |st.core.fstack| < FLOAT_SIZE && z == x.(fpu := x.fpu + [x.eax], flags := z.flags)
    ensures |x.fpu| == |st.core.fstack| && Stands(w, z, PushOn(st, FloatStack, x.eax))
  {
    hide Holding;
    HoldingSame(x, z, w.layout.dbase, w.layout.dindex, st.core.dstack, DATA_SIZE);
    HoldingSame(x, z, w.layout.rbase, w.layout.rindex, st.core.rstack, RETURN_SIZE);
  }

  lemma PushMemory(w: World, stack: Stack, x: Cpu, st: State) returns (z: Cpu)
    requires Stands(w, x, st) && Separate(w.layout) && |st.core.Get(stack)| < SizeOf(stack) && !stack.FloatStack?
    ensures PushRoutine(w, stack, x) == Next(z) && Stands(w, z, PushOn(st, stack, x.eax))
    ensures z.eax == x.eax && z.ecx == x.ecx && z.edx == x.edx && z.host == x.host
    ensures z.esi == X86.IndexOf(w.layout, stack) && z.edi == BaseOf(w.layout, stack)
  {
    hide Stands, Separate, Line, PushOn, Indexed;
    IndexCounts(w, stack, x, st);
    var y := PushHeadRuns(w, stack, x);
    z := PushTailRuns(w, y, x.ecx, x.edx, x.host);
    PushedStands(w, stack, x, z, st);
  }

  lemma IndexCounts(w: World, stack: Stack, x: Cpu, st: State)
    requires Stands(w, x, st) && !stack.FloatStack?
    ensures x.Fetch(X86.IndexOf(w.layout, stack)) == |st.core.Get(stack)|
  {
  }

  /** On a full stack a push routine raises overflow, with stacks and memory as they
      were; no stack exception is being handled already. */
  lemma PushFull(w: World, stack: Stack, x: Cpu, st: State)
    requires Stands(w, x, st)
    requires |st.core.Get(stack)| == if stack.DataStack? then 4080 else if stack.ReturnStack? then 2032 else 6
    ensures var e := PushRoutine(w, stack, x);
      && e.Exception? && Carries(w, e.cpu, st.core)
      && e.code == if stack.DataStack? then -3 else if stack.ReturnStack? then -5 else -44
  {
    if !stack.FloatStack? {
      var y := PushHeadRuns(w, stack, x);
      SignedWrap(OverflowCode(stack));
    }
  }

  /** The stack holds one more value, and nothing outside it has changed. */
  lemma HoldingPushed(x: Cpu, z: Cpu, base: Cell, index: Cell, s: seq<Cell>, size: int, v: Cell)
    requires Holding(x, base, index, s, size) && |s| < size && base + 4 * size <= CELL_RANGE
    requires !Within(base, size, index)
    requires var stored := x.Store(Indexed(base, x.Fetch(index)), v);
      z.memory == stored.Store(index, Wrap(stored.Fetch(index) + 1)).memory
    ensures Holding(z, base, index, s + [v], size)
    ensures forall a: Cell :: a != index && !Within(base, size, a) ==> z.Fetch(a) == x.Fetch(a)
  {
  }

  lemma HoldingPopped(x: Cpu, z: Cpu, base: Cell, index: Cell, s: seq<Cell>, size: int)
    requires Holding(x, base, index, s, size) && s != [] && base + 4 * size <= CELL_RANGE && !Within(base, size, index)
    requires var n := Wrap(x.Fetch(index) - 1); var counted := x.Store(index, n);
      z.memory == counted.memory && z.eax == counted.Fetch(Indexed(base, n))
    ensures Holding(z, base, index, s[..|s| - 1], size) && z.eax == s[|s| - 1]
    ensures forall a: Cell :: a != index && !Within(base, size, a) ==> z.Fetch(a) == x.Fetch(a)
  {
  }

  lemma HoldingSame(x: Cpu, z: Cpu, base: Cell, index: Cell, s: seq<Cell>, size: int)
    requires Holding(x, base, index, s, size) && z.Fetch(index) == x.Fetch(index)
    requires forall a: Cell :: Within(base, size, a) ==> z.Fetch(a) == x.Fetch(a)
    ensures Holding(z, base, index, s, size)
  {
  }

  lemma PushedStands(w: World, stack: Stack, x: Cpu, z: Cpu, st: State)
    requires Stands(w, x, st) && Separate(w.layout) && |st.core.Get(stack)| < SizeOf(stack) && !stack.FloatStack?
    requires var l := w.layout; var index := X86.IndexOf(l, stack); var n := x.Fetch(index);
      var stored := x.Store(Indexed(BaseOf(l, stack), n), x.eax);
      z.memory == stored.Store(index, Wrap(stored.Fetch(index) + 1)).memory
    requires z.eax == x.eax && z.edx == x.edx && z.fpu == x.fpu
    ensures Stands(w, z, PushOn(st, stack, x.eax))
  {
    var l := w.layout;
    hide Holding, Indexed;
    HoldingPushed(x, z, BaseOf(l, stack), X86.IndexOf(l, stack), st.core.Get(stack), SizeOf(stack), x.eax);
    if stack.DataStack? {
      HoldingSame(x, z, l.rbase, l.rindex, st.core.rstack, RETURN_SIZE);
    } else {
      HoldingSame(x, z, l.dbase, l.dindex, st.core.dstack, DATA_SIZE);
    }
  }

  /** A pop routine takes the top into eax, keeps ecx and edx, and loses esi and
      edi, except for floats; or it raises underflow with stacks and memory as they
      were. */
  lemma PopStands(w: World, stack: Stack, x: Cpu, st: State) returns (z: Cpu)
    requires Stands(w, x, st) && Separate(w.layout)
    ensures match PopFrom(st, R0, stack)
      case Done(st2) =>
        && PopRoutine(w, stack, x) == Next(z) && Stands(w, z, st2) && z.ecx == x.ecx && z.edx == x.edx
        && z.host == x.host
        && z.esi == (if stack.FloatStack? then x.esi else |st.core.Get(stack)| - 1)
        && z.edi == (if stack.FloatStack? then x.edi else BaseOf(w.layout, stack))
      case _ => var e := PopRoutine(w, stack, x);
        && e.Exception? && Carries(w, e.cpu, st.core)
        && e.code == if stack.DataStack? then -4 else if stack.ReturnStack? then -6 else -45
  {
    z := x;
    if stack.FloatStack? {
      if |x.fpu| > 0 {
        z := x.(eax := x.fpu[|x.fpu| - 1], fpu := x.fpu[..|x.fpu| - 1], flags := w.noise(CallPop(stack), x));
      }
    } else {
      z := PopMemory(w, stack, x, st);
    }
  }

  lemma PopMemory(w: World, stack: Stack, x: Cpu, st: State) returns (z: Cpu)
    requires Stands(w, x, st) && Separate(w.layout) && !stack.FloatStack?
    ensures match PopFrom(st, R0, stack)
      case Done(st2) =>
        && PopRoutine(w, stack, x) == Next(z) && Stands(w, z, st2) && z.ecx == x.ecx && z.edx == x.edx
        && z.host == x.host
        && z.esi == (if stack.FloatStack? then x.esi else |st.core.Get(stack)| - 1)
        && z.edi == (if stack.FloatStack? then x.edi else BaseOf(w.layout, stack))
      case _ => var e := PopRoutine(w, stack, x);
        e.Exception? && e.code == Underflow(stack) && Carries(w, e.cpu, st.core)
  {
    hide Line, PopHead, PopTail, Compared;
    z := x;
    var y := PopHeadRuns(w, stack, x);
    assert x.Fetch(X86.IndexOf(w.layout, stack)) == |st.core.Get(stack)|;
    if st.core.Get(stack) != [] {
      z := PopTailRuns(w, y, x.edx, x.host);
      PoppedStands(w, stack, x, z, st);
    }
    hide Stands, Holding;
  }

  lemma PoppedStands(w: World, stack: Stack, x: Cpu, z: Cpu, st: State)
    requires Stands(w, x, st) && Separate(w.layout) && st.core.Get(stack) != [] && !stack.FloatStack?
    requires var l := w.layout; var index := X86.IndexOf(l, stack); var n := Wrap(x.Fetch(index) - 1);
      var counted := x.Store(index, n);
      z.memory == counted.memory && z.eax == counted.Fetch(Indexed(BaseOf(l, stack), n))
    requires z.edx == x.edx && z.fpu == x.fpu
    ensures PopFrom(st, R0, stack).Done? && Stands(w, z, PopFrom(st, R0, stack).state)
  {
    var l := w.layout;
    hide Holding, Indexed;
    HoldingPopped(x, z, BaseOf(l, stack), X86.IndexOf(l, stack), st.core.Get(stack), SizeOf(stack));
    if stack.DataStack? {
      HoldingSame(x, z, l.rbase, l.rindex, st.core.rstack, RETURN_SIZE);
    } else {
      HoldingSame(x, z, l.dbase, l.dindex, st.core.dstack, DATA_SIZE);
    }
  }

  // ----- opcode by opcode -----

  /** Instructions of a program, from number k on, one after the other. */
  function Steps(w: World, code: seq<Instr>, k: nat, x: Cpu): Ending
    decreases |code| - k
  {
    if k >= |code| then Next(x)
    else
      match Step(w, code[k], x)
      case Next(y) => Steps(w, code, k + 1, y)
      case other => other
  }

  /** The processor has done what the machine does, or raised the same exception. */
  ghost predicate Agrees(w: World, e: Ending, o: Outcome, host: seq<Cell>) {
    match o
    case Done(st) => e.Next? && Stands(w, e.cpu, st) && e.cpu.host == host
    case Trap(code, st) => e.Exception? && e.code == code && Carries(w, e.cpu, st.core)
    case _ => false
  }

  /** There is room for what the opcode pushes. */
  predicate Room(op: Opcode, st: State) {
    op.Push? ==> |st.core.Get(op.stack)| < SizeOf(op.stack)
  }

  lemma StepsOne(w: World, i: Instr, x: Cpu)
    ensures Steps(w, [i], 0, x) == Step(w, i, x)
  {
    hide Step;
    if Step(w, i, x).Next? {
      assert Steps(w, [i], 1, Step(w, i, x).cpu) == Next(Step(w, i, x).cpu);
    }
  }

  lemma StepsThree(w: World, a: Instr, b: Instr, c: Instr, x: Cpu, y: Cpu)
    requires Step(w, a, x) == Next(y)
    ensures var code := [a, b, c];
      match Step(w, b, y)
      case Next(z) => Steps(w, code, 0, x) == Step(w, c, z)
      case other => Steps(w, code, 0, x) == other
  {
    hide Step;
    var code := [a, b, c];
    assert Steps(w, code, 0, x) == Steps(w, code, 1, y);
    if Step(w, b, y).Next? {
      var z := Step(w, b, y).cpu;
      assert Steps(w, code, 1, y) == Steps(w, code, 2, z);
      if Step(w, c, z).Next? {
        assert Steps(w, code, 3, Step(w, c, z).cpu) == Next(Step(w, c, z).cpu);
      }
    }
  }

  lemma StepsTwo(w: World, a: Instr, b: Instr, x: Cpu, y: Cpu)
    requires Step(w, a, x) == Next(y)
    ensures Steps(w, [a, b], 0, x) == Step(w, b, y)
  {
    hide Step;
    var code := [a, b];
    assert Steps(w, code, 0, x) == Steps(w, code, 1, y);
    if Step(w, b, y).Next? {
      assert Steps(w, code, 2, Step(w, b, y).cpu) == Next(Step(w, b, y).cpu);
    }
  }

  /** A register changed on both sides. */
  lemma RegisterStands(w: World, x: Cpu, y: Cpu, st: State, r: Register, v: Cell)
    requires Stands(w, x, st) && y.Get(CpuReg(r)) == v && y == x.Set(CpuReg(r), v).(flags := y.flags)
    ensures Stands(w, y, st.SetReg(r, v)) && y.host == x.host
  {
  }

  lemma LoadAgrees(w: World, r: Register, v: int, optimize: bool, x: Cpu, st: State)
    requires Stands(w, x, st)
    ensures Agrees(w, Steps(w, LoadCode(v, CpuReg(r), optimize), 0, x), Done(st.SetReg(r, Wrap(v))), x.host)
  {
    hide Stands;
    var reg := CpuReg(r);
    if optimize && (v == 1 || v == -1 || v == 0) {
      var y := x.Set(reg, 0).(flags := w.noise(XorSelf(reg), x));
      if v == 0 {
        StepsOne(w, XorSelf(reg), x);
        assert [XorSelf(reg)] + [] == [XorSelf(reg)];
        RegisterStands(w, x, y, st, r, 0);
      } else {
        var i := if v == 1 then Inc(reg) else Dec(reg);
        assert [XorSelf(reg)] + [i] == [XorSelf(reg), i];
        StepsTwo(w, XorSelf(reg), i, x, y);
        RegisterStands(w, x, y.Set(reg, Wrap(v)).(flags := w.noise(i, y)), st, r, Wrap(v));
      }
    } else {
      StepsOne(w, MovImmediate(v, reg), x);
      RegisterStands(w, x, x.Set(reg, Wrap(v)), st, r, Wrap(v));
    }
  }

  /** Adding v is the same as one step up or down, or none, when v is that small. */
  lemma AddAgrees(w: World, r: Register, v: int, optimize: bool, subtract: bool, x: Cpu, st: State)
    requires Stands(w, x, st)
    ensures var code := if subtract then SubtractCode(v, CpuReg(r), optimize) else AddCode(v, CpuReg(r), optimize);
      var sum := Wrap(st.Reg(r) + if subtract then -v else v);
      Agrees(w, Steps(w, code, 0, x), Done(st.SetReg(r, sum)), x.host)
  {
    var reg := CpuReg(r);
    assert x.Get(reg) == st.Reg(r);
    hide Stands;
    var code := if subtract then SubtractCode(v, reg, optimize) else AddCode(v, reg, optimize);
    var sum := Wrap(st.Reg(r) + if subtract then -v else v);
    if code == [] {
      RegisterStands(w, x, x, st, r, sum);
    } else {
      assert code == [code[0]];
      StepsOne(w, code[0], x);
      RegisterStands(w, x, x.Set(reg, sum).(flags := w.noise(code[0], x)), st, r, sum);
    }
  }

  /** Pushing edx through eax: the two are exchanged before and after. */
  lemma PushAgrees(w: World, r: Register, stack: Stack, x: Cpu, st: State)
    requires Stands(w, x, st) && Separate(w.layout) && |st.core.Get(stack)| < SizeOf(stack)
    ensures Agrees(w, Steps(w, Exchanged(CpuReg(r), CallPush(stack)), 0, x), Done(PushOn(st, stack, st.Reg(r))), x.host)
  {
    hide PushRoutine, PopRoutine, Carries, Separate, Simple, Steps;
    if r.R0? {
      var z := PushStands(w, stack, x, st);
      StepsOne(w, CallPush(stack), x);
    } else {
      var y, st2 := x.(eax := x.edx, edx := x.eax), State(st.r1, st.r0, st.core);
      Exchange(w, x, st);
      var z := PushStands(w, stack, y, st2);
      StepsThree(w, Xchg(EDX, EAX), CallPush(stack), Xchg(EAX, EDX), x, y);
      ExchangeBack(w, z, PushOn(st2, stack, y.eax));
    }
  }

  lemma Exchange(w: World, x: Cpu, st: State)
    requires Stands(w, x, st)
    ensures Step(w, Xchg(EDX, EAX), x) == Next(x.(eax := x.edx, edx := x.eax))
    ensures Stands(w, x.(eax := x.edx, edx := x.eax), State(st.r1, st.r0, st.core))
  {
  }

  lemma ExchangeBack(w: World, z: Cpu, st: State)
    requires Stands(w, z, st)
    ensures Step(w, Xchg(EAX, EDX), z) == Next(z.(eax := z.edx, edx := z.eax))
    ensures Stands(w, z.(eax := z.edx, edx := z.eax), State(st.r1, st.r0, st.core))
  {
  }

  lemma PopAgrees(w: World, r: Register, stack: Stack, x: Cpu, st: State)
    requires Stands(w, x, st) && Separate(w.layout)
    ensures Agrees(w, Steps(w, Exchanged(CpuReg(r), CallPop(stack)), 0, x), PopFrom(st, r, stack), x.host)
  {
    hide PushRoutine, PopRoutine, Carries, Separate, Simple, Steps;
    if r.R0? {
      var z := PopStands(w, stack, x, st);
      StepsOne(w, CallPop(stack), x);
    } else {
      var y, st2 := x.(eax := x.edx, edx := x.eax), State(st.r1, st.r0, st.core);
      Exchange(w, x, st);
      var z := PopStands(w, stack, y, st2);
      StepsThree(w, Xchg(EDX, EAX), CallPop(stack), Xchg(EAX, EDX), x, y);
      if PopFrom(st2, R0, stack).Done? {
        ExchangeBack(w, z, PopFrom(st2, R0, stack).state);
      }
    }
  }

  lemma MoveAgrees(w: World, op: Opcode, optimize: bool, x: Cpu, st: State)
    requires Stands(w, x, st) && Outside(w)
    requires op.LoadRegister? || op.LoadSymbol? || op.LoadSymbolIndirect? || op.LoadData?
    ensures Agrees(w, Steps(w, Emit(op, optimize), 0, x), Plain(w.env, op, st), x.host)
  {
    var code, o := Emit(op, optimize), Plain(w.env, op, st);
    StepsOne(w, code[0], x);
    var y := Step(w, code[0], x).cpu;
    RegisterStands(w, x, y, st, op.reg, o.state.Reg(op.reg));
    hide Steps;
  }

  lemma SumAgrees(w: World, op: Opcode, optimize: bool, x: Cpu, st: State)
    requires Stands(w, x, st) && Outside(w)
    requires op.AddRegister? || op.SubtractRegister?
    ensures Agrees(w, Steps(w, Emit(op, optimize), 0, x), Plain(w.env, op, st), x.host)
  {
    hide Wrap;
    var code, o := Emit(op, optimize), Plain(w.env, op, st);
    StepsOne(w, code[0], x);
    var y := Step(w, code[0], x).cpu;
    RegisterStands(w, x, y, st, op.reg, o.state.Reg(op.reg));
    hide Steps;
  }

  lemma StoreAgrees(w: World, op: Opcode, optimize: bool, x: Cpu, st: State)
    requires Stands(w, x, st) && Outside(w) && op.StoreSymbolIndirect?
    ensures Agrees(w, Steps(w, Emit(op, optimize), 0, x), Plain(w.env, op, st), x.host)
  {
    var code := Emit(op, optimize);
    StepsOne(w, code[0], x);
    var a, v := w.env.symbolAddress(op.symbol), st.Reg(op.reg);
    var y := x.Store(a, v);
    OutsideHolding(x, w.layout, true, st.core.dstack, a, v);
    OutsideHolding(x, w.layout, false, st.core.rstack, a, v);
    hide Steps, Holding;
  }

  /** A store outside the stacks leaves them alone. */
  lemma OutsideHolding(x: Cpu, l: Layout, data: bool, s: seq<Cell>, a: Cell, v: Cell)
    requires Separate(l) && !Owned(l, a)
    requires Holding(x, if data then l.dbase else l.rbase, if data then l.dindex else l.rindex, s,
                     if data then DATA_SIZE else RETURN_SIZE)
    ensures Holding(x.Store(a, v), if data then l.dbase else l.rbase, if data then l.dindex else l.rindex, s,
                    if data then DATA_SIZE else RETURN_SIZE)
  {
  }

  /** The code of every opcode that neither branches nor calls does what it does,
      from whatever flags: same registers, stacks and memory, or the same exception. */
  lemma PlainAgrees(w: World, op: Opcode, optimize: bool, x: Cpu, st: State)
    requires op.IsPlain() && Stands(w, x, st) && Outside(w) && Room(op, st)
    ensures Agrees(w, Steps(w, Emit(op, optimize), 0, x), Plain(w.env, op, st), x.host)
  {
    hide Steps, Stands, Outside, LoadCode, AddCode, SubtractCode, Exchanged;
    assert Separate(w.layout) by { OutsideSeparate(w); }
    match op
    case LoadValue(r, v) => LoadAgrees(w, r, v, optimize, x, st);
    case AddValue(r, v) => AddAgrees(w, r, v, optimize, false, x, st);
    case SubtractValue(r, v) => AddAgrees(w, r, v, optimize, true, x, st);
    case Push(r, stack) => PushAgrees(w, r, stack, x, st);
    case Pop(r, stack) => PopAgrees(w, r, stack, x, st);
    case StoreSymbolIndirect(_, _) => StoreAgrees(w, op, optimize, x, st);
    case LoadRegister(_, _) => MoveAgrees(w, op, optimize, x, st);
    case LoadSymbol(_, _) => MoveAgrees(w, op, optimize, x, st);
    case LoadSymbolIndirect(_, _) => MoveAgrees(w, op, optimize, x, st);
    case LoadData(_, _) => MoveAgrees(w, op, optimize, x, st);
    case AddRegister(_, _) => SumAgrees(w, op, optimize, x, st);
    case SubtractRegister(_, _) => SumAgrees(w, op, optimize, x, st);
  }

  lemma OutsideSeparate(w: World)
    requires Outside(w)
    ensures Separate(w.layout)
  {
  }

  /** The test in front of a jump makes the flags say whether it is taken, whatever
      they were before. */
  lemma TestAgrees(w: World, condition: Condition, target: int, x: Cpu, st: State)
    requires Stands(w, x, st) && !condition.Always?
    ensures var code := JumpCode(condition, target);
      && |code| == 2 && code[1].JumpIf? && code[1].number == target
      && Step(w, code[0], x).Next? && var y := Step(w, code[0], x).cpu;
      Stands(w, y, st) && y.host == x.host && (Holds(code[1].test, y.flags) <==> Taken(condition, st))
  {
    FlagsOf(w, condition, target, x, st);
    var y := Step(w, JumpCode(condition, target)[0], x).cpu;
    FlagsDoNotMatter(w, x, y.flags, st);
    hide Stands;
  }

  lemma FlagsOf(w: World, condition: Condition, target: int, x: Cpu, st: State)
    requires x.eax == st.r0 && x.edx == st.r1 && !condition.Always?
    ensures var code := JumpCode(condition, target);
      && |code| == 2 && code[1].JumpIf? && code[1].number == target && Step(w, code[0], x).Next?
      && var y := Step(w, code[0], x).cpu;
        y == x.(flags := y.flags) && (Holds(code[1].test, y.flags) <==> Taken(condition, st))
  {
  }

  lemma FlagsDoNotMatter(w: World, x: Cpu, flags: Flags, st: State)
    requires Stands(w, x, st)
    ensures Stands(w, x.(flags := flags), st)
  {
  }
}
