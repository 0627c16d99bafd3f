/** The processor that the generated code runs on: registers, flags, memory, and
    the routines that push and pop. */
module X86 {
  import opened Cells
  import opened Machine

  datatype Reg = EAX | ECX | EDX | ESI | EDI

  datatype Flags = Flags(zf: bool, sf: bool, of: bool, cf: bool)

  datatype Cpu = Cpu(eax: Cell, ecx: Cell, edx: Cell, esi: Cell, edi: Cell, flags: Flags,
                     host: seq<Cell>, fpu: seq<Cell>, memory: map<Cell, Cell>)
  {
    function Get(r: Reg): Cell {
      match r
      case EAX => eax
      case ECX => ecx
      case EDX => edx
      case ESI => esi
      case EDI => edi
    }

    function Set(r: Reg, v: Cell): Cpu {
      match r
      case EAX => this.(eax := v)
      case ECX => this.(ecx := v)
      case EDX => this.(edx := v)
      case ESI => this.(esi := v)
      case EDI => this.(edi := v)
    }

    function Fetch(a: Cell): Cell {
      if a in memory then memory[a] else 0
    }

    function Store(a: Cell, v: Cell): Cpu {
      this.(memory := memory[a := v])
    }
  }

  datatype Test = Equal | NotEqual | Greater | Less | GreaterOrEqual | LessOrEqual

  /** Addresses are those of symbols or of data. */
  datatype Name = OfSymbol(symbol: Symbol) | OfData(data: int)

  datatype Instr =
    | XorSelf(r: Reg)
    | Inc(r: Reg)
    | Dec(r: Reg)
    | MovImmediate(v: int, r: Reg)
    | MovReg(from: Reg, to: Reg)
    | Lea(name: Name, r: Reg)
    | MovFrom(symbol: Symbol, r: Reg)
    | MovTo(r: Reg, symbol: Symbol)
    | Xchg(a: Reg, b: Reg)
    | AddImmediate(v: int, r: Reg)
    | AddReg(from: Reg, to: Reg)
    | SubImmediate(v: int, r: Reg)
    | SubReg(from: Reg, to: Reg)
    | CallPush(stack: Stack)
    | CallPop(stack: Stack)
    | TestSelf(r: Reg)
    | CmpReg(a: Reg, b: Reg)
    | JumpIf(test: Test, number: int)
    | Jmp(number: int)
    | LabelLine(number: int)
    // in the stack routines only
    | PushHost(r: Reg)
    | PopHost(r: Reg)
    | MovAddress(address: Cell, r: Reg)
    | Load(from: Reg, to: Reg)
    | LoadIndexed(base: Reg, index: Reg, to: Reg)
    | StoreIndexed(from: Reg, base: Reg, index: Reg)
    | IncMemory(at: Reg)
    | DecMemory(at: Reg)
    | CmpMemory(with: Reg, at: Reg)
    | CmpMemoryZero(at: Reg)

  /** Where the stacks are. */
  datatype Layout = Layout(dbase: Cell, dindex: Cell, rbase: Cell, rindex: Cell)

  const DATA_SIZE: int := 4080
  const RETURN_SIZE: int := 2032
  const FLOAT_SIZE: int := 6
  const SPARE: int := 16

  /** The world: addresses, stacks, and whatever arithmetic leaves in the flags. */
  datatype World = World(env: Env, layout: Layout, noise: (Instr, Cpu) -> Flags)

  datatype Ending = Next(cpu: Cpu) | Exception(code: int, cpu: Cpu) | HostFault

  function AddressOf(env: Env, name: Name): Cell {
    match name
    case OfSymbol(s) => env.symbolAddress(s)
    case OfData(d) => env.dataAddress(d)
  }

  /** The flags after subtracting b from a. */
  function Compared(a: Cell, b: Cell): Flags {
    var d := Signed(a) - Signed(b);
    Flags(a == b, Wrap(d) >= SIGN_BIT, !(-SIGN_BIT <= d < SIGN_BIT), a < b)
  }

  function Indexed(base: Cell, index: Cell): Cell {
    Wrap(base + 4 * index)
  }

  /** An instruction that is neither a call nor a jump. */
  function Simple(w: World, i: Instr, x: Cpu): Ending {
    match i
    case XorSelf(r) => Next(x.Set(r, 0).(flags := w.noise(i, x)))
    case Inc(r) => Next(x.Set(r, Wrap(x.Get(r) + 1)).(flags := w.noise(i, x)))
    case Dec(r) => Next(x.Set(r, Wrap(x.Get(r) - 1)).(flags := w.noise(i, x)))
    case MovImmediate(v, r) => Next(x.Set(r, Wrap(v)))
    case MovReg(from, to) => Next(x.Set(to, x.Get(from)))
    case Lea(name, r) => Next(x.Set(r, AddressOf(w.env, name)))
    case MovFrom(s, r) => Next(x.Set(r, x.Fetch(w.env.symbolAddress(s))))
    case MovTo(r, s) => Next(x.Store(w.env.symbolAddress(s), x.Get(r)))
    case Xchg(a, b) => Next(x.Set(a, x.Get(b)).Set(b, x.Get(a)))
    case AddImmediate(v, r) => Next(x.Set(r, Wrap(x.Get(r) + v)).(flags := w.noise(i, x)))
    case AddReg(from, to) => Next(x.Set(to, Wrap(x.Get(to) + x.Get(from))).(flags := w.noise(i, x)))
    case SubImmediate(v, r) => Next(x.Set(r, Wrap(x.Get(r) - v)).(flags := w.noise(i, x)))
    case SubReg(from, to) => Next(x.Set(to, Wrap(x.Get(to) - x.Get(from))).(flags := w.noise(i, x)))
    case TestSelf(r) => Next(x.(flags := Flags(x.Get(r) == 0, x.Get(r) >= SIGN_BIT, false, false)))
    case CmpReg(a, b) => Next(x.(flags := Compared(x.Get(b), x.Get(a))))
    case LabelLine(_) => Next(x)
    case PushHost(r) => Next(x.(host := x.host + [x.Get(r)]))
    case PopHost(r) =>
      if x.host == [] then HostFault else Next(x.(host := x.host[..|x.host| - 1]).Set(r, x.host[|x.host| - 1]))
    case MovAddress(a, r) => Next(x.Set(r, a))
    case Load(from, to) => Next(x.Set(to, x.Fetch(x.Get(from))))
    case LoadIndexed(base, index, to) => Next(x.Set(to, x.Fetch(Indexed(x.Get(base), x.Get(index)))))
    case StoreIndexed(from, base, index) => Next(x.Store(Indexed(x.Get(base), x.Get(index)), x.Get(from)))
    case IncMemory(at) => Next(x.Store(x.Get(at), Wrap(x.Fetch(x.Get(at)) + 1)).(flags := w.noise(i, x)))
    case DecMemory(at) => Next(x.Store(x.Get(at), Wrap(x.Fetch(x.Get(at)) - 1)).(flags := w.noise(i, x)))
    case CmpMemory(with, at) => Next(x.(flags := Compared(x.Fetch(x.Get(at)), x.Get(with))))
    case CmpMemoryZero(at) => Next(x.(flags := Compared(x.Fetch(x.Get(at)), 0)))
    case _ => HostFault
  }

  /** Instructions one after the other, from number k on. */
  function Line(w: World, code: seq<Instr>, k: nat, x: Cpu): Ending
    decreases |code| - k
  {
    if k >= |code| then Next(x)
    else
      match Simple(w, code[k], x)
      case Next(y) => Line(w, code, k + 1, y)
      case other => other
  }

  // ----- the stack routines -----

  function BaseOf(l: Layout, stack: Stack): Cell {
    if stack.ReturnStack? then l.rbase else l.dbase
  }

  function IndexOf(l: Layout, stack: Stack): Cell {
    if stack.ReturnStack? then l.rindex else l.dindex
  }

  function SizeOf(stack: Stack): int {
    match stack
    case DataStack => DATA_SIZE
    case ReturnStack => RETURN_SIZE
    case FloatStack => FLOAT_SIZE
  }

  function OverflowCode(stack: Stack): int {
    match stack
    case DataStack => -3
    case ReturnStack => -5
    case FloatStack => -44
  }

  /** _dpush and _rpush up to the comparison of the index with the size. */
  function PushHead(l: Layout, stack: Stack): seq<Instr> {
    [PushHost(ECX), PushHost(EDX), MovImmediate(SizeOf(stack), ECX), MovAddress(BaseOf(l, stack), EDI),
     MovAddress(IndexOf(l, stack), ESI), MovImmediate(OverflowCode(stack), EDX), CmpMemory(ECX, ESI)]
  }

  /** The rest, when the index is below the size. */
  function PushTail(): seq<Instr> {
    [PushHost(ESI), Load(ESI, ESI), StoreIndexed(EAX, EDI, ESI), PopHost(ESI), IncMemory(ESI), PopHost(EDX),
     PopHost(ECX)]
  }

  function PopHead(l: Layout, stack: Stack): seq<Instr> {
    [PushHost(EDX), MovAddress(BaseOf(l, stack), EDI), MovAddress(IndexOf(l, stack), ESI),
     MovImmediate(Underflow(stack), EDX), CmpMemoryZero(ESI)]
  }

  function PopTail(): seq<Instr> {
    [DecMemory(ESI), Load(ESI, ESI), LoadIndexed(EDI, ESI, EAX), PopHost(EDX)]
  }

  /** Push EAX; the float stack is the processor's own. */
  function PushRoutine(w: World, stack: Stack, x: Cpu): Ending {
    if stack.FloatStack? then
      if |x.fpu| >= FLOAT_SIZE then Exception(OverflowCode(stack), x)
      else Next(x.(fpu := x.fpu + [x.eax], flags := w.noise(CallPush(stack), x)))
    else
      match Line(w, PushHead(w.layout, stack), 0, x)
      case Next(y) => if y.flags.cf then Line(w, PushTail(), 0, y) else Exception(Signed(y.edx), y)
      case other => other
  }

  /** Pop into EAX. */
  function PopRoutine(w: World, stack: Stack, x: Cpu): Ending {
    if stack.FloatStack? then
      if |x.fpu| == 0 then Exception(Underflow(stack), x)
      else Next(x.(eax := x.fpu[|x.fpu| - 1], fpu := x.fpu[..|x.fpu| - 1], flags := w.noise(CallPop(stack), x)))
    else
      match Line(w, PopHead(w.layout, stack), 0, x)
      case Next(y) => if !y.flags.cf && !y.flags.zf then Line(w, PopTail(), 0, y) else Exception(Signed(y.edx), y)
      case other => other
  }

  function Step(w: World, i: Instr, x: Cpu): Ending {
    match i
    case CallPush(stack) => PushRoutine(w, stack, x)
    case CallPop(stack) => PopRoutine(w, stack, x)
    case _ => Simple(w, i, x)
  }

  /** Whether a conditional jump is taken. */
  predicate Holds(test: Test, f: Flags) {
    match test
    case Equal => f.zf
    case NotEqual => !f.zf
    case Greater => !f.zf && f.sf == f.of
    case Less => f.sf != f.of
    case GreaterOrEqual => f.sf == f.of
    case LessOrEqual => f.zf || f.sf != f.of
  }

  // ----- programs -----

  /** A jump goes to the first line with its label. */
  function FindLabel(code: seq<Instr>, number: int): (p: nat)
    ensures p <= |code| && (p < |code| ==> code[p] == LabelLine(number))
    ensures forall q :: 0 <= q < p ==> code[q] != LabelLine(number)
  {
    if code == [] || code[0] == LabelLine(number) then 0 else 1 + FindLabel(code[1..], number)
  }

  datatype Place = At(pc: nat, cpu: Cpu) | Ended(code: int, cpu: Cpu) | Fault

  /** One instruction of a program. */
  function Advance(w: World, code: seq<Instr>, p: Place): Place {
    if !p.At? then p
    else if p.pc >= |code| then Fault
    else
      match code[p.pc]
      case Jmp(n) => At(FindLabel(code, n), p.cpu)
      case JumpIf(test, n) => if Holds(test, p.cpu.flags) then At(FindLabel(code, n), p.cpu) else At(p.pc + 1, p.cpu)
      case i =>
        (match Step(w, i, p.cpu)
         case Next(y) => At(p.pc + 1, y)
         case Exception(c, y) => Ended(c, y)
         case HostFault => Fault)
  }

  function AdvanceBy(w: World, code: seq<Instr>, p: Place, n: nat): Place
    decreases n
  {
    if n == 0 then p else AdvanceBy(w, code, Advance(w, code, p), n - 1)
  }
}
