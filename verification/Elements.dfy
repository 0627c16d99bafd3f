/** Whole source files: definitions, CODE words, declarations and top-level
    statements, the opcodes the parser leaves for them, and the definitions that
    the table is made of in the end. */
module Elements {
  import opened Options
  import opened Machine
  import opened Statements
  import opened Compilation
  import opened AssemblerLines

  const MAIN: Symbol := "main"

  datatype Source =
    | Nothing
    | Both(first: Source, second: Source)
    | Definition(name: Symbol, body: Stmt)
    | Noname(name: Symbol, body: Stmt)
    | Assembler(name: Symbol, lines: seq<string>)
    | Declaration(name: Symbol)
    | Statement(body: Stmt)
    | Choice(test: string, negated: bool, thenPart: Source, elsePart: Source)

  /** Top-level statements leave through label 0 and belong to no word. */
  function TopContext(definitions: set<string>): Context {
    Context(None, 0, None, definitions)
  }

  /** The statements of word x leave through label n. */
  function WordContext(definitions: set<string>, x: Symbol, n: int): Context {
    Context(None, n, Some(x), definitions)
  }

  function Chosen(definitions: set<string>, s: Source): Source
    requires s.Choice?
  {
    if Selected(definitions, s.test, s.negated) then s.thenPart else s.elsePart
  }

  /** How many labels a source takes. */
  function LabelCount(definitions: set<string>, s: Source): nat {
    match s
    case Both(a, b) => LabelCount(definitions, a) + LabelCount(definitions, b)
    case Definition(_, body) => 1 + Labels(definitions, body)
    case Noname(_, body) => 1 + Labels(definitions, body)
    case Statement(body) => Labels(definitions, body)
    case Choice(_, _, _, _) => LabelCount(definitions, Chosen(definitions, s))
    case _ => 0
  }

  // ----- definitions -----

  datatype Content = Body(c: Context, body: Stmt, n: int) | Lines(lines: seq<string>)

  /** A definition in the table. */
  datatype Block = Block(name: Symbol, content: Content)

  /** The lines without their comments, as far as anything is left of them. */
  function Written(lines: seq<string>): seq<string> {
    if lines == [] then []
    else
      var code := CodePart(lines[|lines| - 1]);
      Written(lines[..|lines| - 1]) + if code == "" then [] else [code]
  }

  function LineCode(lines: seq<string>): (t: Table)
    ensures |t| == |lines| && forall i :: 0 <= i < |t| ==> t[i] == Assembly(lines[i])
  {
    if lines == [] then [] else [Assembly(lines[0])] + LineCode(lines[1..])
  }

  /** What stands between Define and EndDefine. */
  function InnerCode(content: Content): Table {
    match content
    case Body(c, body, n) => Code(c, body, n) + [Label(c.exitLabel)]
    case Lines(lines) => LineCode(lines)
  }

  function BlockCode(b: Block): Table {
    [Define(b.name)] + InnerCode(b.content) + [EndDefine(b.name)]
  }

  /** One definition after the other. */
  function Join(blocks: seq<Block>): Table {
    if blocks == [] then [] else BlockCode(blocks[0]) + Join(blocks[1..])
  }

  function WordBlock(definitions: set<string>, x: Symbol, body: Stmt, n: int): Block {
    Block(x, Body(WordContext(definitions, x, n), body, n + 1))
  }

  /** The definitions in a source whose first label is n. */
  function Blocks(definitions: set<string>, s: Source, n: int): seq<Block> {
    match s
    case Both(a, b) => Blocks(definitions, a, n) + Blocks(definitions, b, n + LabelCount(definitions, a))
    case Definition(x, body) => [WordBlock(definitions, x, body, n)]
    case Noname(x, body) => [WordBlock(definitions, x, body, n)]
    case Assembler(x, lines) => [Block(x, Lines(Written(lines)))]
    case Choice(_, _, _, _) => Blocks(definitions, Chosen(definitions, s), n)
    case _ => []
  }

  /** What is left at top level: the statements, and the addresses of nameless words. */
  function MainStmt(definitions: set<string>, s: Source): Stmt {
    match s
    case Both(a, b) => Sequence(MainStmt(definitions, a), MainStmt(definitions, b))
    case Definition(_, body) => Elsewhere(1 + Labels(definitions, body))
    case Noname(x, body) => Sequence(Elsewhere(1 + Labels(definitions, body)), Address(x))
    case Statement(body) => body
    case Choice(_, _, _, _) => MainStmt(definitions, Chosen(definitions, s))
    case _ => Empty
  }

  /** The main statement takes the labels of the whole source. */
  lemma {:induction false} MainTakes(definitions: set<string>, s: Source)
    ensures Labels(definitions, MainStmt(definitions, s)) == LabelCount(definitions, s)
  {
    if s.Both? {
      MainTakes(definitions, s.first);
      MainTakes(definitions, s.second);
    } else if s.Choice? {
      MainTakes(definitions, Chosen(definitions, s));
    }
  }

  function MainCode(definitions: set<string>, s: Source, n: int): Table {
    Code(TopContext(definitions), MainStmt(definitions, s), n)
  }

  /** The opcodes in the order in which the parser emits them. */
  function Raw(definitions: set<string>, s: Source, n: int): Table {
    match s
    case Both(a, b) => Raw(definitions, a, n) + Raw(definitions, b, n + LabelCount(definitions, a))
    case Definition(x, body) => BlockCode(WordBlock(definitions, x, body, n))
    case Noname(x, body) => BlockCode(WordBlock(definitions, x, body, n)) + [LoadSymbol(R0, x), Push(R0, DataStack)]
    case Assembler(x, lines) => BlockCode(Block(x, Lines(Written(lines))))
    case Statement(body) => Code(TopContext(definitions), body, n)
    case Choice(_, _, _, _) => Raw(definitions, Chosen(definitions, s), n)
    case _ => []
  }

  /** Every statement of a source has around it what it needs. */
  predicate Sound(definitions: set<string>, s: Source) {
    match s
    case Both(a, b) => Sound(definitions, a) && Sound(definitions, b)
    case Definition(x, body) => Scoped(WordContext(definitions, x, 0), body)
    case Noname(x, body) => Scoped(WordContext(definitions, x, 0), body)
    case Statement(body) => Scoped(TopContext(definitions), body)
    case Choice(_, _, _, _) => Sound(definitions, Chosen(definitions, s))
    case _ => true
  }

  /** The definitions of the finished table: those of the source, and the main
      word when there is top-level code. */
  function AllBlocks(definitions: set<string>, s: Source): seq<Block> {
    Blocks(definitions, s, 1)
    + if MainCode(definitions, s, 1) == [] then []
      else [Block(MAIN, Body(TopContext(definitions), MainStmt(definitions, s), 1))]
  }

  function BlockNames(blocks: seq<Block>): (names: seq<Symbol>)
    ensures |names| == |blocks| && forall i :: 0 <= i < |names| ==> names[i] == blocks[i].name
  {
    if blocks == [] then [] else [blocks[0].name] + BlockNames(blocks[1..])
  }

  ghost predicate Distinct(names: seq<Symbol>) {
    forall i, j :: 0 <= i < j < |names| ==> names[i] != names[j]
  }

  function WordsOf(blocks: seq<Block>): map<Symbol, Stmt> {
    if blocks == [] then map[]
    else if blocks[0].content.Body? then WordsOf(blocks[1..])[blocks[0].name := blocks[0].content.body]
    else WordsOf(blocks[1..])
  }

  function CodesOf(blocks: seq<Block>): map<Symbol, seq<string>> {
    if blocks == [] then map[]
    else if blocks[0].content.Lines? then CodesOf(blocks[1..])[blocks[0].name := blocks[0].content.lines]
    else CodesOf(blocks[1..])
  }

  /** The program a source stands for. */
  function ProgramOf(definitions: set<string>, s: Source): Program {
    var blocks := AllBlocks(definitions, s);
    Program(WordsOf(blocks), CodesOf(blocks), definitions)
  }

  // ----- the main word -----

  /** Opcodes outside and inside definitions, and whether the next one is outside. */
  datatype Halves = Halves(main: Table, functions: Table, inMain: bool)

  function Sorted(h: Halves, op: Opcode): Halves {
    var inMain := h.inMain && !op.Define?;
    Halves(if inMain then h.main + [op] else h.main, if inMain then h.functions else h.functions + [op],
           inMain || op.EndDefine?)
  }

  function Split(h: Halves, t: Table): Halves {
    if t == [] then h else Sorted(Split(h, t[..|t| - 1]), t[|t| - 1])
  }

  /** The table with a main word made of the opcodes outside definitions. */
  function WithMain(t: Table): Table {
    var h := Split(Halves([], [], true), t);
    if h.main == [] then t else h.functions + [Define(MAIN)] + h.main + [Label(0), EndDefine(MAIN)]
  }
}
