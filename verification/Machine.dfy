/** The intermediate code of the compiler and the machine that runs it.

    The opcode table is a flat sequence of opcodes; words are delimited by
    Define and EndDefine, branches name labels, calls name symbols.  The machine
    has two registers, three unbounded stacks and a memory of cells.  Everything
    outside the table (words of other modules, lines of assembler) is an
    arbitrary function of the whole machine state. */
module Machine {
  import opened Cells

  // ----- opcodes -----

  type Symbol = string

  datatype Register = R0 | R1

  datatype Stack = DataStack | ReturnStack | FloatStack

  datatype Condition =
    | Always
    | Zero(reg: Register)
    | NonZero(reg: Register)
    | Greater(reg: Register)
    | Less(reg: Register)
    | GreaterEqual(reg: Register)
    | LessEqual(reg: Register)
    | Equal(reg1: Register, reg2: Register)
    | NotEqual(reg1: Register, reg2: Register)

  datatype Opcode =
    | NoOp
    | Label(number: int)
    | Define(symbol: Symbol)
    | EndDefine(symbol: Symbol)
    | Call(symbol: Symbol)
    | Assembly(text: string)
    | Branch(condition: Condition, target: int)
    | LoadValue(reg: Register, value: int)
    | LoadRegister(reg: Register, with: Register)
    | LoadSymbol(reg: Register, symbol: Symbol)
    | LoadSymbolIndirect(reg: Register, symbol: Symbol)
    | LoadData(reg: Register, data: int)
    | StoreSymbolIndirect(reg: Register, symbol: Symbol)
    | Push(reg: Register, stack: Stack)
    | Pop(reg: Register, stack: Stack)
    | AddValue(reg: Register, value: int)
    | AddRegister(reg: Register, other: Register)
    | SubtractValue(reg: Register, value: int)
    | SubtractRegister(reg: Register, other: Register)
  {
    /** An unconditional branch. */
    predicate IsJump() {
      Branch? && condition.Always?
    }

    /** Anything that is not a mere marker in the table. */
    predicate IsExecutable() {
      !NoOp? && !Label?
    }

    /** An opcode that only touches registers, stacks and memory. */
    predicate IsPlain() {
      !NoOp? && !Label? && !Define? && !EndDefine? && !Call? && !Assembly? && !Branch?
    }
  }

  type Table = seq<Opcode>

  /** The first position of op in t, or the length of t when it does not occur. */
  function IndexOf(t: Table, op: Opcode): (i: nat)
    ensures i <= |t|
    ensures i < |t| ==> t[i] == op
    ensures forall j :: 0 <= j < i ==> t[j] != op
  {
    if t == [] then 0 else if t[0] == op then 0 else 1 + IndexOf(t[1..], op)
  }

  /** The lines of assembler from position pc up to the first other opcode. */
  function AssemblyBlock(t: Table, pc: nat): (block: seq<string>)
    requires pc <= |t|
    ensures pc + |block| <= |t|
    ensures pc < |t| && t[pc].Assembly? ==> |block| > 0 && t[pc + |block| - 1].Assembly?
    ensures forall k :: 0 <= k < |block| ==> t[pc + k] == Assembly(block[k])
    ensures pc + |block| < |t| ==> !t[pc + |block|].Assembly?
    decreases |t| - pc
  {
    if pc < |t| && t[pc].Assembly? then [t[pc].text] + AssemblyBlock(t, pc + 1) else []
  }

  // ----- machine state -----

  /** What a Forth program can see: the stacks (top last) and the memory. */
  datatype Core = Core(dstack: seq<Cell>, rstack: seq<Cell>, fstack: seq<Cell>, memory: map<Cell, Cell>)
  {
    function Get(stack: Stack): seq<Cell> {
      match stack
      case DataStack => dstack
      case ReturnStack => rstack
      case FloatStack => fstack
    }

    function Set(stack: Stack, contents: seq<Cell>): Core {
      match stack
      case DataStack => this.(dstack := contents)
      case ReturnStack => this.(rstack := contents)
      case FloatStack => this.(fstack := contents)
    }

    function Fetch(address: Cell): Cell {
      if address in memory then memory[address] else 0
    }

    function Store(address: Cell, value: Cell): Core {
      this.(memory := memory[address := value])
    }
  }

  datatype State = State(r0: Cell, r1: Cell, core: Core)
  {
    function Reg(reg: Register): Cell {
      if reg.R0? then r0 else r1
    }

    function SetReg(reg: Register, value: Cell): State {
      if reg.R0? then this.(r0 := value) else this.(r1 := value)
    }
  }

  /** How a run ends.  Timeout means that the fuel given was not enough. */
  datatype Outcome = Done(state: State) | Trap(code: int, state: State) | Stuck(state: State) | Timeout

  /** The world outside the table.  A word or a line of assembler that never
      returns answers Timeout. */
  datatype Env = Env(
    external: (Symbol, State) -> Outcome,
    assembly: (seq<string>, State) -> Outcome,
    symbolAddress: Symbol -> Cell,
    dataAddress: int -> Cell)

  // ----- execution -----

  predicate Taken(condition: Condition, st: State) {
    match condition
    case Always => true
    case Zero(reg) => st.Reg(reg) == 0
    case NonZero(reg) => st.Reg(reg) != 0
    case Greater(reg) => Signed(st.Reg(reg)) > 0
    case Less(reg) => Signed(st.Reg(reg)) < 0
    case GreaterEqual(reg) => Signed(st.Reg(reg)) >= 0
    case LessEqual(reg) => Signed(st.Reg(reg)) <= 0
    case Equal(reg1, reg2) => st.Reg(reg1) == st.Reg(reg2)
    case NotEqual(reg1, reg2) => st.Reg(reg1) != st.Reg(reg2)
  }

  /** The exception code of a pop from an empty stack. */
  function Underflow(stack: Stack): int {
    match stack
    case DataStack => -4
    case ReturnStack => -6
    case FloatStack => -45
  }

  function PushOn(st: State, stack: Stack, value: Cell): State {
    st.(core := st.core.Set(stack, st.core.Get(stack) + [value]))
  }

  function PopFrom(st: State, reg: Register, stack: Stack): Outcome {
    var contents := st.core.Get(stack);
    if |contents| == 0 then Trap(Underflow(stack), st)
    else
      Done(st.(core := st.core.Set(stack, contents[..|contents| - 1]))
             .SetReg(reg, contents[|contents| - 1]))
  }

  /** One opcode that neither branches nor calls. */
  function Plain(env: Env, op: Opcode, st: State): (o: Outcome)
    requires op.IsPlain()
    ensures o.Done? || o.Trap?
  {
    match op
    case LoadValue(reg, v) => Done(st.SetReg(reg, Wrap(v)))
    case LoadRegister(reg, from) => Done(st.SetReg(reg, st.Reg(from)))
    case LoadSymbol(reg, s) => Done(st.SetReg(reg, env.symbolAddress(s)))
    case LoadSymbolIndirect(reg, s) => Done(st.SetReg(reg, st.core.Fetch(env.symbolAddress(s))))
    case LoadData(reg, d) => Done(st.SetReg(reg, env.dataAddress(d)))
    case StoreSymbolIndirect(reg, s) =>
      Done(st.(core := st.core.Store(env.symbolAddress(s), st.Reg(reg))))
    case Push(reg, stack) => Done(PushOn(st, stack, st.Reg(reg)))
    case Pop(reg, stack) => PopFrom(st, reg, stack)
    case AddValue(reg, v) => Done(st.SetReg(reg, Wrap(st.Reg(reg) + v)))
    case AddRegister(reg, other) => Done(st.SetReg(reg, Wrap(st.Reg(reg) + st.Reg(other))))
    case SubtractValue(reg, v) => Done(st.SetReg(reg, Wrap(st.Reg(reg) - v)))
    case SubtractRegister(reg, other) => Done(st.SetReg(reg, Wrap(st.Reg(reg) - st.Reg(other))))
  }

  /** Run the table from position pc until the word it is in returns.  Fuel
      bounds the number of branches taken in a row and the nesting of calls. */
  function Run(t: Table, env: Env, pc: nat, st: State, fuel: nat): Outcome
    decreases fuel, |t| - pc, 1
  {
    if pc >= |t| then Stuck(st)
    else if t[pc].IsPlain() then
      match Plain(env, t[pc], st)
      case Done(next) => Run(t, env, pc + 1, next, fuel)
      case trap => trap
    else
      match t[pc]
      case Define(_) => Stuck(st)
      case EndDefine(_) => Done(st)
      case Call(s) =>
        (match CallWord(t, env, s, st, fuel)
         case Done(next) => Run(t, env, pc + 1, next, fuel)
         case other => other)
      case Assembly(_) =>
        (var block := AssemblyBlock(t, pc);
         match env.assembly(block, st)
         case Done(next) => Run(t, env, pc + |block|, next, fuel)
         case other => other)
      case Branch(condition, target) =>
        if !Taken(condition, st) then Run(t, env, pc + 1, st, fuel)
        else if fuel == 0 then Timeout
        else Run(t, env, IndexOf(t, Label(target)), st, fuel - 1)
      case _ => Run(t, env, pc + 1, st, fuel)
  }

  /** Call a word: run its definition in the table, or leave it to the world outside. */
  function CallWord(t: Table, env: Env, s: Symbol, st: State, fuel: nat): Outcome
    decreases fuel, 0, 0
  {
    var d := IndexOf(t, Define(s));
    if d == |t| then env.external(s, st)
    else if fuel == 0 then Timeout
    else Run(t, env, d + 1, st, fuel - 1)
  }

  /** More fuel never changes the outcome of a run that has ended. */
  lemma {:induction false} RunMonotone(t: Table, env: Env, pc: nat, st: State, f: nat, g: nat)
    requires f <= g && Run(t, env, pc, st, f) != Timeout
    ensures Run(t, env, pc, st, g) == Run(t, env, pc, st, f)
    decreases f, |t| - pc, 1
  {
    if pc >= |t| {
    } else if t[pc].IsPlain() {
      if Plain(env, t[pc], st).Done? {
        RunMonotone(t, env, pc + 1, Plain(env, t[pc], st).state, f, g);
      }
    } else {
      match t[pc]
      case Define(_) =>
      case EndDefine(_) =>
      case Call(s) =>
        CallMonotone(t, env, s, st, f, g);
        if CallWord(t, env, s, st, f).Done? {
          RunMonotone(t, env, pc + 1, CallWord(t, env, s, st, f).state, f, g);
        }
      case Assembly(_) =>
        var block := AssemblyBlock(t, pc);
        if env.assembly(block, st).Done? {
          RunMonotone(t, env, pc + |block|, env.assembly(block, st).state, f, g);
        }
      case Branch(condition, target) =>
        if !Taken(condition, st) {
          RunMonotone(t, env, pc + 1, st, f, g);
        } else {
          RunMonotone(t, env, IndexOf(t, Label(target)), st, f - 1, g - 1);
        }
      case _ =>
        RunMonotone(t, env, pc + 1, st, f, g);
    }
  }

  lemma {:induction false} CallMonotone(t: Table, env: Env, s: Symbol, st: State, f: nat, g: nat)
    requires f <= g && CallWord(t, env, s, st, f) != Timeout
    ensures CallWord(t, env, s, st, g) == CallWord(t, env, s, st, f)
    decreases f, 0, 0
  {
    var d := IndexOf(t, Define(s));
    if d < |t| {
      RunMonotone(t, env, d + 1, st, f - 1, g - 1);
    }
  }
}
