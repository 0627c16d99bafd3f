/** Programs from source to optimized table. */
module Programs {
  import opened Machine
  import opened Simulation
  import opened Shape
  import opened Stepping
  import opened Statements
  import opened Compilation
  import opened CompiledLoops
  import opened ParserStates
  import opened Layout
  import opened Elements
  import opened Definitions
  import opened Reading
  import opened Joined
  import SmallWords
  import opened Optimizer

  // ----- labels -----

  lemma BlockTimes(b: Block, l: int)
    ensures Times(BlockCode(b), l) == match b.content
      case Body(c, body, n) => Times(Code(c, body, n), l) + Between(c.exitLabel, l, c.exitLabel + 1)
      case Lines(_) => 0
  {
    hide Times, InnerCode;
    var inner := InnerCode(b.content);
    TimesThen([Define(b.name)] + inner, [EndDefine(b.name)], l);
    TimesThen([Define(b.name)], inner, l);
    NotThere([Define(b.name)], l);
    NotThere([EndDefine(b.name)], l);
    InnerTimes(b.content, l);
  }

  lemma InnerTimes(content: Content, l: int)
    ensures Times(InnerCode(content), l) == match content
      case Body(c, body, n) => Times(Code(c, body, n), l) + Between(c.exitLabel, l, c.exitLabel + 1)
      case Lines(_) => 0
  {
    hide Times, Code;
    match content
    case Body(c, body, n) =>
      TimesThen(Code(c, body, n), [Label(c.exitLabel)], l);
      OneLabel(c.exitLabel, l);
    case Lines(lines) =>
      NotThere(LineCode(lines), l);
  }

  lemma WordTimes(definitions: set<string>, x: Symbol, body: Stmt, n: int, l: int)
    requires Whole(body)
    ensures Times(BlockCode(WordBlock(definitions, x, body, n)), l) == Between(n, l, n + 1 + Labels(definitions, body))
  {
    hide Times, BlockCode, Code, Labels;
    BlockTimes(WordBlock(definitions, x, body, n), l);
    CodeLabels(WordContext(definitions, x, n), body, n + 1, l);
  }

  /** The parser emits every label that it takes exactly once. */
  lemma {:induction false} RawLabels(definitions: set<string>, s: Source, n: int, l: int)
    requires Lawful(s)
    ensures Times(Raw(definitions, s, n), l) == Between(n, l, n + LabelCount(definitions, s))
    decreases s
  {
    hide Times, BlockCode, Code, Whole, Grammatical, CaseBody;
    match s
    case Both(a, b) =>
      var k := n + LabelCount(definitions, a);
      RawLabels(definitions, a, n, l);
      RawLabels(definitions, b, k, l);
      TimesThen(Raw(definitions, a, n), Raw(definitions, b, k), l);
    case Definition(x, body) =>
      GrammaticalWhole(body);
      WordTimes(definitions, x, body, n, l);
    case Noname(x, body) =>
      GrammaticalWhole(body);
      WordTimes(definitions, x, body, n, l);
      NotThere([LoadSymbol(R0, x), Push(R0, DataStack)], l);
      TimesThen(BlockCode(WordBlock(definitions, x, body, n)), [LoadSymbol(R0, x), Push(R0, DataStack)], l);
    case Assembler(x, lines) =>
      BlockTimes(Block(x, Lines(Written(lines))), l);
    case Statement(body) =>
      GrammaticalWhole(body);
      CodeLabels(TopContext(definitions), body, n, l);
    case Choice(_, _, _, _) =>
      RawLabels(definitions, Chosen(definitions, s), n, l);
    case _ =>
      NotThere([], l);
  }

  /** In the finished table every label occurs at most once. */
  lemma FinishedLabels(definitions: set<string>, s: Source)
    requires Lawful(s)
    ensures UniqueLabels(Join(AllBlocks(definitions, s)))
  {
    hide WithMain, Raw, Join, AllBlocks, Times;
    var raw := Raw(definitions, s, 1);
    WithMainIsJoin(definitions, s);
    WithMainKeeps(raw);
    forall l ensures Once(WithMain(raw), Label(l)) {
      RawLabels(definitions, s, 1, l);
      TimesIsCount(raw, l);
    }
  }

  lemma TimesIsCount(t: Table, l: int)
    ensures Times(t, l) == multiset(t)[Label(l)]
  {
  }

  // ----- contents of the definitions -----

  /** A definition whose statements have around them what they need. */
  predicate Proper(definitions: set<string>, b: Block) {
    b.content.Body? ==>
      var c := b.content.c;
      c.breakLabel.None? && c.definitions == definitions && (c.self.Some? ==> c.self.value == b.name)
      && Scoped(c, b.content.body)
  }

  predicate AllProper(definitions: set<string>, blocks: seq<Block>) {
    forall i :: 0 <= i < |blocks| ==> Proper(definitions, blocks[i])
  }

  lemma {:induction false} BlocksProper(definitions: set<string>, s: Source, n: int)
    requires Sound(definitions, s)
    ensures AllProper(definitions, Blocks(definitions, s, n))
    decreases s
  {
    hide Scoped;
    match s
    case Both(a, b) =>
      BlocksProper(definitions, a, n);
      BlocksProper(definitions, b, n + LabelCount(definitions, a));
    case Definition(x, body) => ScopedAnyLabels(WordContext(definitions, x, 0), WordContext(definitions, x, n), body);
    case Noname(x, body) => ScopedAnyLabels(WordContext(definitions, x, 0), WordContext(definitions, x, n), body);
    case Choice(_, _, _, _) => BlocksProper(definitions, Chosen(definitions, s), n);
    case _ =>
  }

  lemma {:induction false} MainScoped(definitions: set<string>, s: Source)
    requires Sound(definitions, s)
    ensures Scoped(TopContext(definitions), MainStmt(definitions, s))
  {
    match s
    case Both(a, b) => MainScoped(definitions, a); MainScoped(definitions, b);
    case Choice(_, _, _, _) => MainScoped(definitions, Chosen(definitions, s));
    case _ =>
  }

  lemma AllBlocksProper(definitions: set<string>, s: Source)
    requires Sound(definitions, s)
    ensures AllProper(definitions, AllBlocks(definitions, s))
  {
    hide Scoped, MainCode, Blocks;
    BlocksProper(definitions, s, 1);
    MainScoped(definitions, s);
  }

  // ----- looking up words -----

  lemma {:induction false} WordIndex(blocks: seq<Block>, x: Symbol) returns (i: nat)
    requires x in WordsOf(blocks)
    ensures i < |blocks| && blocks[i].name == x && blocks[i].content.Body?
    ensures blocks[i].content.body == WordsOf(blocks)[x]
  {
    if blocks[0].content.Body? && blocks[0].name == x {
      i := 0;
    } else {
      var k := WordIndex(blocks[1..], x);
      i := k + 1;
    }
  }

  lemma {:induction false} CodeIndex(blocks: seq<Block>, x: Symbol) returns (i: nat)
    requires x in CodesOf(blocks)
    ensures i < |blocks| && blocks[i].name == x && blocks[i].content.Lines?
    ensures blocks[i].content.lines == CodesOf(blocks)[x]
  {
    if blocks[0].content.Lines? && blocks[0].name == x {
      i := 0;
    } else {
      var k := CodeIndex(blocks[1..], x);
      i := k + 1;
    }
  }

  lemma {:induction false} NamesCovered(blocks: seq<Block>, x: Symbol)
    ensures x in BlockNames(blocks) <==> x in WordsOf(blocks) || x in CodesOf(blocks)
  {
    if blocks != [] {
      NamesCovered(blocks[1..], x);
    }
  }

  lemma SameName(blocks: seq<Block>, i: nat, j: nat)
    requires i < |blocks| && j < |blocks| && blocks[i].name == blocks[j].name && Distinct(BlockNames(blocks))
    ensures i == j
  {
    assert BlockNames(blocks)[i] == BlockNames(blocks)[j];
  }

  lemma NotBoth(blocks: seq<Block>, x: Symbol)
    requires Distinct(BlockNames(blocks)) && x in CodesOf(blocks)
    ensures x !in WordsOf(blocks)
  {
    var i := CodeIndex(blocks, x);
    if x in WordsOf(blocks) {
      var j := WordIndex(blocks, x);
      SameName(blocks, i, j);
    }
  }

  // ----- the finished table holds the program -----

  lemma WordPlaced(definitions: set<string>, blocks: seq<Block>, x: Symbol)
    requires Distinct(BlockNames(blocks)) && AllProper(definitions, blocks) && x in WordsOf(blocks)
    ensures exists c, n :: Placed(Join(blocks), Program(WordsOf(blocks), CodesOf(blocks), definitions), x, c, n)
  {
    hide Code, Scoped, Distinct, At, Join, IndexOf, WordsOf, CodesOf;
    var i := WordIndex(blocks, x);
    var d := BlockPlace(blocks, i);
    var t, b := Join(blocks), blocks[i];
    assert Proper(definitions, b);
    var c, n := b.content.c, b.content.n;
    var rest := Code(c, b.content.body, n) + [Label(c.exitLabel), EndDefine(x)];
    assert BlockCode(b) == [Define(x)] + rest;
    AtSplit(t, d, [Define(x)], rest);
    AtBounds(t, d, [Define(x)]);
    assert Placed(t, Program(WordsOf(blocks), CodesOf(blocks), definitions), x, c, n);
  }

  lemma AtBounds(t: Table, p: nat, code: Table)
    requires At(t, p, code)
    ensures p + |code| <= |t|
  {
  }

  lemma LinesPlaced(definitions: set<string>, blocks: seq<Block>, x: Symbol)
    requires Distinct(BlockNames(blocks)) && x in CodesOf(blocks)
    ensures CodePlaced(Join(blocks), Program(WordsOf(blocks), CodesOf(blocks), definitions), x)
  {
    hide Distinct, At, Join, IndexOf, WordsOf, CodesOf;
    var i := CodeIndex(blocks, x);
    var d := BlockPlace(blocks, i);
    var t, lines := Join(blocks), blocks[i].content.lines;
    assert BlockCode(blocks[i]) == [Define(x)] + (LineCode(lines) + [EndDefine(x)]);
    AtSplit(t, d, [Define(x)], LineCode(lines) + [EndDefine(x)]);
    AtSplit(t, d + 1, LineCode(lines), [EndDefine(x)]);
    AtOne(t, d + 1 + |lines|, EndDefine(x));
    LinesAt(t, d + 1, lines);
  }

  lemma JoinUndefined(blocks: seq<Block>, x: Symbol)
    requires Distinct(BlockNames(blocks)) && x !in BlockNames(blocks)
    ensures IndexOf(Join(blocks), Define(x)) == |Join(blocks)|
  {
    JoinDefines(blocks, x);
  }

  /** A source that is read without complaint compiles to a table that the
      optimizer accepts, in which branches stay in their definitions. */
  lemma FinishedWellFormed(definitions: set<string>, s: Source)
    requires Lawful(s) && Sound(definitions, s) && Distinct(BlockNames(AllBlocks(definitions, s)))
    ensures var t := Join(AllBlocks(definitions, s)); WellFormed(t) && BranchesStay(t)
  {
    var blocks := AllBlocks(definitions, s);
    hide AllBlocks, Scoped, Distinct, Join, BranchesStay, Lawful, Sound;
    AllBlocksProper(definitions, s);
    forall i | 0 <= i < |blocks| ensures ExitsHere(blocks[i].content) {
      assert Proper(definitions, blocks[i]);
    }
    JoinShape(blocks);
    StayingTargetsExist(Join(blocks));
    FinishedLabels(definitions, s);
    forall x ensures Once(Join(blocks), Define(x)) {
      JoinDefines(blocks, x);
    }
  }

  /** The finished table holds the program that the source stands for. */
  lemma FinishedCompiled(definitions: set<string>, s: Source, env: Env)
    requires Lawful(s) && Sound(definitions, s) && Distinct(BlockNames(AllBlocks(definitions, s))) && RegisterBlind(env)
    ensures Compiled(Join(AllBlocks(definitions, s)), ProgramOf(definitions, s), env)
  {
    hide AllBlocks, Scoped, Distinct, Join, Lawful, Sound, UniqueLabels, RegisterBlind, Placed, CodePlaced, WordsOf,
      CodesOf;
    var blocks, p := AllBlocks(definitions, s), ProgramOf(definitions, s);
    AllBlocksProper(definitions, s);
    FinishedLabels(definitions, s);
    forall x | x in p.words ensures exists c, n :: Placed(Join(blocks), p, x, c, n) {
      WordPlaced(definitions, blocks, x);
    }
    forall x | x in p.codes ensures x !in p.words && CodePlaced(Join(blocks), p, x) {
      NotBoth(blocks, x);
      LinesPlaced(definitions, blocks, x);
    }
    forall x | x !in p.words && x !in p.codes ensures IndexOf(Join(blocks), Define(x)) == |Join(blocks)| {
      NamesCovered(blocks, x);
      JoinUndefined(blocks, x);
    }
  }

  // ----- what programs do -----

  /** A word of the program can end with result r. */
  ghost predicate CanEnd(p: Program, env: Env, x: Symbol, core: Core, r: Result) {
    exists fuel: nat :: CallStmt(p, env, x, core, fuel) == r
  }

  /** A word of the table can end in a way that looks like r. */
  ghost predicate Shows(t: Table, env: Env, x: Symbol, st: State, r: Result) {
    exists h: nat :: CallWord(t, env, x, st, h) != Timeout && Seen(CallWord(t, env, x, st, h)) == r
  }

  /** Compiled words end exactly as their statements do, and run forever exactly when those do. */
  lemma CompiledCalls(t: Table, p: Program, env: Env, x: Symbol, st: State, r: Result)
    requires Compiled(t, p, env) && !r.OutOfFuel?
    ensures CanEnd(p, env, x, st.core, r) <==> Shows(t, env, x, st, r)
  {
    hide Compiled, CallStmt, CallWord;
    if CanEnd(p, env, x, st.core, r) {
      var fuel: nat :| CallStmt(p, env, x, st.core, fuel) == r;
      CallEmitted(t, p, env, x, st, fuel);
      SeenShows(t, env, x, st, r, fuel);
    }
    if Shows(t, env, x, st, r) {
      var h: nat :| CallWord(t, env, x, st, h) != Timeout && Seen(CallWord(t, env, x, st, h)) == r;
      CallEmitted(t, p, env, x, st, h);
      SeenSame(t, env, x, st, CallStmt(p, env, x, st.core, h), h);
    }
  }

  lemma SeenShows(t: Table, env: Env, x: Symbol, st: State, r: Result, fuel: nat)
    requires CallSeen(t, env, x, st, r, fuel) && !r.OutOfFuel?
    ensures Shows(t, env, x, st, r)
  {
    hide CallWord;
    var o: Outcome, need: nat :| CallEnds(t, env, x, st, o, need) && Seen(o) == r;
    assert CallWord(t, env, x, st, need) == o;
  }

  /** A call that ends within the fuel of the statements is what they say. */
  lemma SeenSame(t: Table, env: Env, x: Symbol, st: State, r: Result, h: nat)
    requires CallSeen(t, env, x, st, r, h) && CallWord(t, env, x, st, h) != Timeout
    ensures r == Seen(CallWord(t, env, x, st, h))
  {
    hide CallWord;
    if !r.OutOfFuel? {
      var o: Outcome, need: nat :| CallEnds(t, env, x, st, o, need) && Seen(o) == r;
      assert CallWord(t, env, x, st, h) == if h < need then Timeout else o;
    }
  }

  lemma EquivalentShows(t: Table, u: Table, env: Env, x: Symbol, st: State, r: Result)
    requires Equivalent(t, u, env) && Shows(t, env, x, st, r)
    ensures Shows(u, env, x, st, r)
  {
    hide CallWord, Equivalent;
    var h: nat :| CallWord(t, env, x, st, h) != Timeout && Seen(CallWord(t, env, x, st, h)) == r;
    var o := CallWord(t, env, x, st, h);
    assert CallReaches(t, env, x, st, o);
    EquivalentCalls(t, u, env, x, st, o);
    var g: nat :| CallWord(u, env, x, st, g) == o;
  }

  /** From source to optimized table: after any number of optimizer rounds, every
      word called in any state ends exactly as the statements of its source do. */
  lemma SourceToOptimized(definitions: set<string>, s: Source, env: Env, rounds: nat, x: Symbol, st: State, r: Result)
    requires Lawful(s) && Sound(definitions, s) && Distinct(BlockNames(AllBlocks(definitions, s)))
    requires RegisterBlind(env) && SmallWords.LibraryBooleans(WithMain(Raw(definitions, s, 1)), env) && !r.OutOfFuel?
    ensures CanEnd(ProgramOf(definitions, s), env, x, st.core, r)
      <==> Shows(Rounds(WithMain(Raw(definitions, s, 1)), rounds), env, x, st, r)
  {
    hide Compiled, WellFormed, BranchesStay, RegisterBlind, SmallWords.LibraryBooleans, Equivalent, Shows, CanEnd,
      Lawful, Sound, Rounds, WithMain, Raw, AllBlocks, Join, Distinct;
    var t := WithMain(Raw(definitions, s, 1));
    WithMainIsJoin(definitions, s);
    FinishedWellFormed(definitions, s);
    FinishedCompiled(definitions, s, env);
    RoundsPreserve(t, env, rounds);
    CompiledCalls(t, ProgramOf(definitions, s), env, x, st, r);
    EquivalentBack(t, Rounds(t, rounds), env);
    if Shows(t, env, x, st, r) { EquivalentShows(t, Rounds(t, rounds), env, x, st, r); }
    if Shows(Rounds(t, rounds), env, x, st, r) { EquivalentShows(Rounds(t, rounds), t, env, x, st, r); }
  }

  lemma EquivalentBack(t: Table, u: Table, env: Env)
    requires Equivalent(t, u, env)
    ensures Equivalent(u, t, env)
  {
  }
}
