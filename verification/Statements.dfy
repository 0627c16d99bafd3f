/** Statements of the language: the opcodes the parser emits for them, and what
    they mean on their own, without labels, jumps or registers. */
module Statements {
  import opened Letters
  import opened Options
  import opened Cells
  import opened Machine

  /** Elsewhere stands for a definition in the middle of top-level code: it
      takes labels, but its opcodes go somewhere else. */
  datatype Stmt =
    | Empty
    | Elsewhere(labels: nat)
    | Sequence(first: Stmt, second: Stmt)
    | Literal(value: int)
    | FloatLiteral(bits: int)
    | Address(symbol: Symbol)
    | Constant(symbol: Symbol)
    | FloatConstant(symbol: Symbol)
    | SetConstant(symbol: Symbol)
    | SetFloatConstant(symbol: Symbol)
    | CountedString(data: int)
    | StringLiteral(data: int, size: int)
    | PrintString(data: int, size: int)
    | AbortString(data: int, size: int)
    | Word(symbol: Symbol)
    | Recurse
    | Exit
    | Leave
    | QueryLeave
    | While
    | If(thenPart: Stmt)
    | IfElse(thenPart: Stmt, elsePart: Stmt)
    | DoLoop(query: bool, body: Stmt, plus: bool)
    | BeginUntil(body: Stmt)
    | BeginAgain(body: Stmt)
    | Case(body: Stmt)
    | Of(test: Stmt, body: Stmt, rest: Stmt)
    | Conditional(name: string, negated: bool, thenPart: Stmt, elsePart: Stmt)

  const TYPE_WORD: Symbol := "v4__type"
  const ABORT_WORD: Symbol := "v4__abortquote"

  /** Where a statement stands: the innermost break label, the exit label, the
      word being defined, and the names given on the command line. */
  datatype Context = Context(breakLabel: Option<int>, exitLabel: int, self: Option<Symbol>, definitions: set<string>)

  /** Whether the first branch of a conditional is the active one; the names given
      are in lower case. */
  predicate Selected(definitions: set<string>, name: string, negated: bool) {
    (ToLower(name) in definitions) != negated
  }

  // ----- emitted code -----

  /** How many labels a statement takes. */
  function Labels(definitions: set<string>, s: Stmt): nat {
    match s
    case Elsewhere(k) => k
    case Sequence(a, b) => Labels(definitions, a) + Labels(definitions, b)
    case AbortString(_, _) => 1
    case If(a) => 1 + Labels(definitions, a)
    case IfElse(a, b) => 1 + Labels(definitions, a) + 1 + Labels(definitions, b)
    case DoLoop(_, body, plus) => 3 + Labels(definitions, body) + if plus then 1 else 0
    case BeginUntil(body) => 2 + Labels(definitions, body)
    case BeginAgain(body) => 2 + Labels(definitions, body)
    case Case(body) => 1 + Labels(definitions, body)
    case Of(test, body, rest) => Labels(definitions, test) + 1 + Labels(definitions, body) + Labels(definitions, rest)
    case Conditional(name, negated, a, b) =>
      if Selected(definitions, name, negated) then Labels(definitions, a) else Labels(definitions, b)
    case _ => 0
  }

  function Jump(n: int): Opcode {
    Branch(Always, n)
  }

  function IfCode(n: int): Table {
    [Pop(R0, DataStack), Branch(Zero(R0), n)]
  }

  /** Take limit and start off the data stack; with ?DO skip the loop when they are equal. */
  function DoCode(query: bool, skip: int): Table {
    [Pop(R1, DataStack), Pop(R0, DataStack)] + if query then [Branch(Equal(R0, R1), skip)] else []
  }

  function EnterCode(): Table {
    [Push(R0, ReturnStack), Push(R1, ReturnStack)]
  }

  /** Put limit and index back and leave their difference in R1. */
  function CompareCode(): Table {
    [Pop(R0, ReturnStack), Push(R0, ReturnStack), Push(R1, ReturnStack), SubtractRegister(R1, R0)]
  }

  function LoopCode(top: int): Table {
    [Pop(R1, ReturnStack), AddValue(R1, 1)] + CompareCode() + [Branch(NonZero(R1), top)]
  }

  function PlusLoopCode(top: int, end: int, reverse: int): Table {
    [Pop(R0, DataStack), Pop(R1, ReturnStack), AddRegister(R1, R0)] + [Branch(Less(R0), reverse)]
    + CompareCode() + [Branch(Less(R1), top), Jump(end)]
    + [Label(reverse)] + CompareCode() + [Branch(GreaterEqual(R1), top)]
  }

  function UnloopCode(): Table {
    [Pop(R0, ReturnStack), Pop(R0, ReturnStack)]
  }

  function OfCode(n: int): Table {
    [Pop(R1, DataStack), Pop(R0, DataStack), Push(R0, DataStack)] + [Branch(NotEqual(R0, R1), n)]
  }

  function StringCode(data: int, size: int): Table {
    [LoadData(R0, data), Push(R0, DataStack), LoadValue(R0, size), Push(R0, DataStack)]
  }

  /** The code of IF and of OF around the code of their parts. */
  function IfElseRow(n: int, m: int, a: Table, b: Table): Table {
    IfCode(n) + a + [Jump(m), Label(n)] + b + [Label(m)]
  }

  function OfRow(c: Context, m: int, test: Table, body: Table, rest: Table): Table {
    test + OfCode(m) + body + (if c.breakLabel.Some? then [Jump(c.breakLabel.value)] else []) + [Label(m)] + rest
  }

  /** The opcodes for a statement whose first label is n. */
  function Code(c: Context, s: Stmt, n: int): Table
    decreases s
  {
    match s
    case Empty => []
    case Elsewhere(_) => []
    case Sequence(a, b) => Code(c, a, n) + Code(c, b, n + Labels(c.definitions, a))
    case Literal(v) => [LoadValue(R0, v), Push(R0, DataStack)]
    case FloatLiteral(v) => [LoadValue(R0, v), Push(R0, FloatStack)]
    case Address(x) => [LoadSymbol(R0, x), Push(R0, DataStack)]
    case Constant(x) => [LoadSymbolIndirect(R0, x), Push(R0, DataStack)]
    case FloatConstant(x) => [LoadSymbolIndirect(R0, x), Push(R0, FloatStack)]
    case SetConstant(x) => [Pop(R0, DataStack), StoreSymbolIndirect(R0, x)]
    case SetFloatConstant(x) => [Pop(R0, FloatStack), StoreSymbolIndirect(R0, x)]
    case CountedString(d) => [LoadData(R0, d), Push(R0, DataStack)]
    case StringLiteral(d, size) => StringCode(d, size)
    case PrintString(d, size) => StringCode(d, size) + [Call(TYPE_WORD)]
    case AbortString(d, size) => IfCode(n) + StringCode(d, size) + [Call(ABORT_WORD)] + [Label(n)]
    case Word(x) => [Call(x)]
    case Recurse => if c.self.Some? then [Call(c.self.value)] else []
    case Exit => [Jump(c.exitLabel)]
    case Leave => if c.breakLabel.Some? then [Jump(c.breakLabel.value)] else []
    case QueryLeave =>
      if c.breakLabel.Some? then [Pop(R0, DataStack), Branch(NonZero(R0), c.breakLabel.value)] else []
    case While =>
      if c.breakLabel.Some? then [Pop(R0, DataStack), Branch(Zero(R0), c.breakLabel.value)] else []
    case If(a) => IfCode(n) + Code(c, a, n + 1) + [Label(n)]
    case IfElse(a, b) =>
      var m := n + 1 + Labels(c.definitions, a);
      IfElseRow(n, m, Code(c, a, n + 1), Code(c, b, m + 1))
    case DoLoop(query, body, plus) =>
      var skip, top, end := n, n + 1, n + 2;
      var inner := c.(breakLabel := Some(end));
      var loop := if plus then PlusLoopCode(top, end, n + 3 + Labels(c.definitions, body)) else LoopCode(top);
      DoCode(query, skip) + EnterCode() + [Label(top)] + Code(inner, body, n + 3) + loop
      + [Label(end)] + UnloopCode() + [Label(skip)]
    case BeginUntil(body) =>
      var inner := c.(breakLabel := Some(n + 1));
      [Label(n)] + Code(inner, body, n + 2) + IfCode(n) + [Label(n + 1)]
    case BeginAgain(body) =>
      var inner := c.(breakLabel := Some(n + 1));
      [Label(n)] + Code(inner, body, n + 2) + [Jump(n)] + [Label(n + 1)]
    case Case(body) =>
      var inner := c.(breakLabel := Some(n));
      Code(inner, body, n + 1) + [Label(n)] + [Pop(R0, DataStack)]
    case Of(test, body, rest) =>
      var m := n + Labels(c.definitions, test);
      OfRow(c, m, Code(c, test, n), Code(c, body, m + 1), Code(c, rest, m + 1 + Labels(c.definitions, body)))
    case Conditional(name, negated, a, b) =>
      if Selected(c.definitions, name, negated) then Code(c, a, n) else Code(c, b, n)
  }

  lemma CodeOfSequence(c: Context, a: Stmt, b: Stmt, n: int)
    ensures Code(c, Sequence(a, b), n) == Code(c, a, n) + Code(c, b, n + Labels(c.definitions, a))
  {
    hide IfElseRow, OfRow, Labels;
  }

  lemma CodeOfIf(c: Context, a: Stmt, n: int)
    ensures Code(c, If(a), n) == IfCode(n) + Code(c, a, n + 1) + [Label(n)]
    ensures |IfCode(n)| == 2
  {
    hide IfElseRow, OfRow, Labels;
  }

  lemma CodeOfUntil(c: Context, body: Stmt, n: int)
    ensures Code(c, BeginUntil(body), n) ==
      [Label(n)] + Code(c.(breakLabel := Some(n + 1)), body, n + 2) + IfCode(n) + [Label(n + 1)]
    ensures |IfCode(n)| == 2
  {
    hide IfElseRow, OfRow, Labels;
  }

  lemma CodeOfAgain(c: Context, body: Stmt, n: int)
    ensures Code(c, BeginAgain(body), n) ==
      [Label(n)] + Code(c.(breakLabel := Some(n + 1)), body, n + 2) + [Jump(n)] + [Label(n + 1)]
  {
    hide IfElseRow, OfRow, Labels;
  }

  lemma CodeOfCase(c: Context, body: Stmt, n: int)
    ensures Code(c, Case(body), n) ==
      Code(c.(breakLabel := Some(n)), body, n + 1) + [Label(n)] + [Pop(R0, DataStack)]
  {
    hide IfElseRow, OfRow, Labels;
  }

  lemma CodeOfAbort(c: Context, d: int, size: int, n: int)
    ensures Code(c, AbortString(d, size), n) == IfCode(n) + StringCode(d, size) + [Call(ABORT_WORD)] + [Label(n)]
    ensures |IfCode(n)| == 2 && |StringCode(d, size)| == 4
  {
    hide IfElseRow, OfRow, Labels;
  }

  lemma CodeOfIfElse(c: Context, a: Stmt, b: Stmt, n: int)
    ensures var m := n + 1 + Labels(c.definitions, a);
      Code(c, IfElse(a, b), n) == IfElseRow(n, m, Code(c, a, n + 1), Code(c, b, m + 1))
  {
    hide IfElseRow, OfRow, IfCode, Labels;
  }

  lemma CodeOfOf(c: Context, test: Stmt, body: Stmt, rest: Stmt, n: int)
    ensures var m := n + Labels(c.definitions, test);
      Code(c, Of(test, body, rest), n) ==
        OfRow(c, m, Code(c, test, n), Code(c, body, m + 1), Code(c, rest, m + 1 + Labels(c.definitions, body)))
  {
    hide IfElseRow, OfRow, OfCode, Labels;
  }

  // ----- meaning -----

  /** How a statement ends.  Broke leaves the innermost loop or case, Exited
      leaves the word; OutOfFuel means that the fuel given was not enough. */
  datatype Result =
    | Normal(core: Core)
    | Broke(core: Core)
    | Exited(core: Core)
    | Trapped(code: int, core: Core)
    | Wrong(core: Core)
    | OutOfFuel

  /** The words of a program: those with statements and those in assembler. */
  datatype Program = Program(words: map<Symbol, Stmt>, codes: map<Symbol, seq<string>>, definitions: set<string>)

  /** What a program sees of a machine outcome. */
  function Seen(o: Outcome): Result {
    match o
    case Done(st) => Normal(st.core)
    case Trap(code, st) => Trapped(code, st.core)
    case Stuck(st) => Wrong(st.core)
    case Timeout => OutOfFuel
  }

  /** A word that has no statements: assembler, or a word of another module. */
  function Outside(p: Program, env: Env, s: Symbol, core: Core): Result {
    var st := State(0, 0, core);
    if s !in p.codes then Seen(env.external(s, st))
    else if p.codes[s] == [] then Normal(core)
    else Seen(env.assembly(p.codes[s], st))
  }

  function PushTo(core: Core, stack: Stack, v: Cell): Core {
    core.Set(stack, core.Get(stack) + [v])
  }

  predicate Has(core: Core, stack: Stack) {
    core.Get(stack) != []
  }

  function Top(core: Core, stack: Stack): Cell
    requires Has(core, stack)
  {
    core.Get(stack)[|core.Get(stack)| - 1]
  }

  function Drop(core: Core, stack: Stack): Core
    requires Has(core, stack)
  {
    core.Set(stack, core.Get(stack)[..|core.Get(stack)| - 1])
  }

  /** The exception of taking a value off an empty stack. */
  function Fault(core: Core, stack: Stack): Result {
    Trapped(Underflow(stack), core)
  }

  /** The loop goes on after counting index up to next. */
  predicate GoesOn(plus: bool, step: Cell, next: Cell, limit: Cell) {
    if !plus then next != limit
    else if Signed(step) < 0 then Signed(Wrap(next - limit)) >= 0
    else Signed(Wrap(next - limit)) < 0
  }

  /** LOOP and +LOOP: count, put limit and index back; Broke when the loop is over. */
  function Count(plus: bool, core: Core): Result {
    if !plus then CountBy(false, 1, core)
    else if !Has(core, DataStack) then Fault(core, DataStack)
    else CountBy(true, Top(core, DataStack), Drop(core, DataStack))
  }

  function CountBy(plus: bool, step: Cell, core: Core): Result {
    if !Has(core, ReturnStack) then Fault(core, ReturnStack)
    else
      var next, core1 := Wrap(Top(core, ReturnStack) + step), Drop(core, ReturnStack);
      if !Has(core1, ReturnStack) then Fault(core1, ReturnStack)
      else
        var counted := PushTo(core1, ReturnStack, next);
        if GoesOn(plus, step, next, Top(core1, ReturnStack)) then Normal(counted) else Broke(counted)
  }

  /** Drop limit and index from the return stack. */
  function Unloop(core: Core): Result {
    if !Has(core, ReturnStack) then Fault(core, ReturnStack)
    else
      var core1 := Drop(core, ReturnStack);
      if !Has(core1, ReturnStack) then Fault(core1, ReturnStack) else Normal(Drop(core1, ReturnStack))
  }

  /** The statements that neither branch nor call. */
  predicate IsLeaf(s: Stmt) {
    s.Empty? || s.Elsewhere? || s.Literal? || s.FloatLiteral? || s.Address? || s.Constant? || s.FloatConstant? ||
    s.SetConstant? || s.SetFloatConstant? || s.CountedString? || s.StringLiteral?
  }

  function StringOn(env: Env, data: int, size: int, core: Core): Core {
    PushTo(PushTo(core, DataStack, env.dataAddress(data)), DataStack, Wrap(size))
  }

  function StoreTop(env: Env, x: Symbol, stack: Stack, core: Core): Result {
    if !Has(core, stack) then Fault(core, stack)
    else Normal(Drop(core, stack).Store(env.symbolAddress(x), Top(core, stack)))
  }

  function Leaf(env: Env, s: Stmt, core: Core): Result
    requires IsLeaf(s)
  {
    match s
    case Empty => Normal(core)
    case Elsewhere(_) => Normal(core)
    case Literal(v) => Normal(PushTo(core, DataStack, Wrap(v)))
    case FloatLiteral(v) => Normal(PushTo(core, FloatStack, Wrap(v)))
    case Address(x) => Normal(PushTo(core, DataStack, env.symbolAddress(x)))
    case Constant(x) => Normal(PushTo(core, DataStack, core.Fetch(env.symbolAddress(x))))
    case FloatConstant(x) => Normal(PushTo(core, FloatStack, core.Fetch(env.symbolAddress(x))))
    case SetConstant(x) => StoreTop(env, x, DataStack, core)
    case SetFloatConstant(x) => StoreTop(env, x, FloatStack, core)
    case CountedString(d) => Normal(PushTo(core, DataStack, env.dataAddress(d)))
    case StringLiteral(d, size) => Normal(StringOn(env, d, size, core))
  }

  /** Call a word of the program or one from outside. */
  function CallStmt(p: Program, env: Env, s: Symbol, core: Core, fuel: nat): Result
    decreases fuel, 0, Empty, 0
  {
    if s !in p.words then Outside(p, env, s, core)
    else if fuel == 0 then OutOfFuel
    else
      match Exec(p, env, s, p.words[s], core, fuel - 1)
      case Exited(core1) => Normal(core1)
      case other => other
  }

  /** Run statement s of word self. */
  function Exec(p: Program, env: Env, self: Symbol, s: Stmt, core: Core, fuel: nat): Result
    decreases fuel, 1, s, 0
  {
    if IsLeaf(s) then Leaf(env, s, core)
    else
      match s
      case Sequence(a, b) =>
        (match Exec(p, env, self, a, core, fuel)
         case Normal(core1) => Exec(p, env, self, b, core1, fuel)
         case other => other)
      case PrintString(d, size) => CallStmt(p, env, TYPE_WORD, StringOn(env, d, size, core), fuel)
      case AbortString(d, size) =>
        if !Has(core, DataStack) then Fault(core, DataStack)
        else if Top(core, DataStack) == 0 then Normal(Drop(core, DataStack))
        else CallStmt(p, env, ABORT_WORD, StringOn(env, d, size, Drop(core, DataStack)), fuel)
      case Word(x) => CallStmt(p, env, x, core, fuel)
      case Recurse => CallStmt(p, env, self, core, fuel)
      case Exit => Exited(core)
      case Leave => Broke(core)
      case QueryLeave =>
        if !Has(core, DataStack) then Fault(core, DataStack)
        else if Top(core, DataStack) != 0 then Broke(Drop(core, DataStack))
        else Normal(Drop(core, DataStack))
      case While =>
        if !Has(core, DataStack) then Fault(core, DataStack)
        else if Top(core, DataStack) == 0 then Broke(Drop(core, DataStack))
        else Normal(Drop(core, DataStack))
      case If(a) =>
        if !Has(core, DataStack) then Fault(core, DataStack)
        else if Top(core, DataStack) == 0 then Normal(Drop(core, DataStack))
        else Exec(p, env, self, a, Drop(core, DataStack), fuel)
      case IfElse(a, b) =>
        if !Has(core, DataStack) then Fault(core, DataStack)
        else Exec(p, env, self, if Top(core, DataStack) == 0 then b else a, Drop(core, DataStack), fuel)
      case DoLoop(query, body, plus) =>
        if !Has(core, DataStack) then Fault(core, DataStack)
        else
          var start, core1 := Top(core, DataStack), Drop(core, DataStack);
          if !Has(core1, DataStack) then Fault(core1, DataStack)
          else
            var limit, core2 := Top(core1, DataStack), Drop(core1, DataStack);
            if query && start == limit then Normal(core2)
            else Loop(p, env, self, body, plus, PushTo(PushTo(core2, ReturnStack, limit), ReturnStack, start), fuel)
      case BeginUntil(body) => Until(p, env, self, body, core, fuel)
      case BeginAgain(body) => Again(p, env, self, body, core, fuel)
      case Case(body) =>
        (match Exec(p, env, self, body, core, fuel)
         case Normal(core1) => EndCase(core1)
         case Broke(core1) => EndCase(core1)
         case other => other)
      case Of(test, body, rest) =>
        (match Exec(p, env, self, test, core, fuel)
         case Normal(core1) =>
           (match Compare(core1)
            case Normal(core2) =>
              (match Exec(p, env, self, body, core2, fuel)
               case Normal(core3) => Broke(core3)
               case other => other)
            case Broke(core2) => Exec(p, env, self, rest, core2, fuel)
            case other => other)
         case other => other)
      case Conditional(name, negated, a, b) =>
        Exec(p, env, self, if Selected(p.definitions, name, negated) then a else b, core, fuel)
  }

  /** ENDCASE drops the top of the stack. */
  function EndCase(core: Core): Result {
    if !Has(core, DataStack) then Fault(core, DataStack) else Normal(Drop(core, DataStack))
  }

  /** OF drops the test value and keeps the selector; Broke when they differ. */
  function Compare(core: Core): Result {
    if !Has(core, DataStack) then Fault(core, DataStack)
    else
      var value, core1 := Top(core, DataStack), Drop(core, DataStack);
      if !Has(core1, DataStack) then Fault(core1, DataStack)
      else if Top(core1, DataStack) == value then Normal(core1)
      else Broke(core1)
  }

  /** The iterations of a DO loop. */
  function Loop(p: Program, env: Env, self: Symbol, body: Stmt, plus: bool, core: Core, fuel: nat): Result
    decreases fuel, 1, body, 1
  {
    match Exec(p, env, self, body, core, fuel)
    case Normal(core1) =>
      (match Count(plus, core1)
       case Normal(core2) => if fuel == 0 then OutOfFuel else Loop(p, env, self, body, plus, core2, fuel - 1)
       case Broke(core2) => Unloop(core2)
       case other => other)
    case Broke(core1) => Unloop(core1)
    case other => other
  }

  /** The iterations of BEGIN .. UNTIL. */
  function Until(p: Program, env: Env, self: Symbol, body: Stmt, core: Core, fuel: nat): Result
    decreases fuel, 1, body, 1
  {
    match Exec(p, env, self, body, core, fuel)
    case Normal(core1) =>
      if !Has(core1, DataStack) then Fault(core1, DataStack)
      else if Top(core1, DataStack) != 0 then Normal(Drop(core1, DataStack))
      else if fuel == 0 then OutOfFuel
      else Until(p, env, self, body, Drop(core1, DataStack), fuel - 1)
    case Broke(core1) => Normal(core1)
    case other => other
  }

  /** The iterations of BEGIN .. REPEAT and BEGIN .. AGAIN. */
  function Again(p: Program, env: Env, self: Symbol, body: Stmt, core: Core, fuel: nat): Result
    decreases fuel, 1, body, 1
  {
    match Exec(p, env, self, body, core, fuel)
    case Normal(core1) => if fuel == 0 then OutOfFuel else Again(p, env, self, body, core1, fuel - 1)
    case Broke(core1) => Normal(core1)
    case other => other
  }
}
