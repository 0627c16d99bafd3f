/** Reading whole sources: which code comes out, and which names are taken. */
module Reading {
  import opened Options
  import opened Machine
  import opened Statements
  import opened Compilation
  import opened Elements
  import opened ParserStates

  /** Every statement of a source follows the grammar. */
  predicate Lawful(s: Source) {
    match s
    case Both(a, b) => Lawful(a) && Lawful(b)
    case Definition(_, body) => Grammatical(body)
    case Noname(_, body) => Grammatical(body)
    case Statement(body) => Grammatical(body)
    case Choice(_, _, a, b) => Lawful(a) && Lawful(b)
    case _ => true
  }

  /** The names that a source defines, in order. */
  function Names(definitions: set<string>, s: Source): seq<Symbol> {
    match s
    case Both(a, b) => Names(definitions, a) + Names(definitions, b)
    case Definition(x, _) => [x]
    case Noname(x, _) => [x]
    case Assembler(x, _) => [x]
    case Choice(_, _, _, _) => Names(definitions, Chosen(definitions, s))
    case _ => []
  }

  /** The names that a source gives to words and variables, in order. */
  function NewNames(definitions: set<string>, s: Source): seq<Symbol> {
    match s
    case Both(a, b) => NewNames(definitions, a) + NewNames(definitions, b)
    case Definition(x, _) => [x]
    case Noname(x, _) => [x]
    case Assembler(x, _) => [x]
    case Declaration(x) => [x]
    case Choice(_, _, _, _) => NewNames(definitions, Chosen(definitions, s))
    case _ => []
  }

  lemma {:induction false} NamesAreNew(d: set<string>, s: Source)
    ensures forall x :: x in Names(d, s) ==> x in NewNames(d, s)
    ensures Distinct(NewNames(d, s)) ==> Distinct(Names(d, s))
  {
    if s.Both? {
      NamesAreNew(d, s.first);
      NamesAreNew(d, s.second);
      if Distinct(NewNames(d, s)) {
        DistinctParts(NewNames(d, s.first), NewNames(d, s.second));
        DistinctWhole(Names(d, s.first), Names(d, s.second), NewNames(d, s.first), NewNames(d, s.second));
      }
    } else if s.Choice? {
      NamesAreNew(d, Chosen(d, s));
    }
  }

  lemma DistinctParts(a: seq<Symbol>, b: seq<Symbol>)
    requires Distinct(a + b)
    ensures Distinct(a) && Distinct(b) && forall x :: x in a ==> x !in b
  {
    var all := a + b;
    forall i, j | 0 <= i < j < |a| ensures a[i] != a[j] {
      assert all[i] != all[j];
    }
    forall i, j | 0 <= i < j < |b| ensures b[i] != b[j] {
      assert all[|a| + i] != all[|a| + j];
    }
    forall i, j | 0 <= i < |a| && 0 <= j < |b| ensures a[i] != b[j] {
      assert all[i] != all[|a| + j];
    }
  }

  lemma DistinctWhole(a: seq<Symbol>, b: seq<Symbol>, p: seq<Symbol>, q: seq<Symbol>)
    requires Distinct(a) && Distinct(b)
    requires (forall x :: x in a ==> x in p) && (forall x :: x in b ==> x in q) && forall x :: x in p ==> x !in q
    ensures Distinct(a + b)
  {
    var all := a + b;
    forall i, j | 0 <= i < j < |all| ensures all[i] != all[j] {
      if i < |a| <= j {
        assert all[i] in p && all[j] in q;
      }
    }
  }

  lemma BlockNamesThen(a: seq<Block>, b: seq<Block>)
    ensures BlockNames(a + b) == BlockNames(a) + BlockNames(b)
  {
  }

  lemma BlockNamesFew(b: Block)
    ensures BlockNames([b]) == [b.name] && BlockNames([]) == []
  {
  }

  lemma {:induction false} NamesOfBlocks(definitions: set<string>, s: Source, n: int)
    ensures BlockNames(Blocks(definitions, s, n)) == Names(definitions, s)
    decreases s
  {
    hide BlockNames;
    match s
    case Both(a, b) =>
      NamesOfBlocks(definitions, a, n);
      NamesOfBlocks(definitions, b, n + LabelCount(definitions, a));
      BlockNamesThen(Blocks(definitions, a, n), Blocks(definitions, b, n + LabelCount(definitions, a)));
    case Definition(x, body) => BlockNamesFew(WordBlock(definitions, x, body, n));
    case Noname(x, body) => BlockNamesFew(WordBlock(definitions, x, body, n));
    case Assembler(x, lines) => BlockNamesFew(Block(x, Lines(Written(lines))));
    case Choice(_, _, _, _) => NamesOfBlocks(definitions, Chosen(definitions, s), n);
    case _ => BlockNamesFew(Block(MAIN, Lines([])));
  }

  /** When a whole source is read without complaint, its definitions and the
      main word have distinct names. */
  lemma FinishedNames(v: View, w: View, s: Source)
    requires v.labelSequence == 1 && Complete(v, w, s)
    ensures Distinct(BlockNames(AllBlocks(v.frame.definitions, s)))
  {
    var d := v.frame.definitions;
    NamesAreNew(d, s);
    NamesOfBlocks(d, s, 1);
    var main := Block(MAIN, Body(TopContext(d), MainStmt(d, s), 1));
    BlockNamesFew(main);
    BlockNamesThen(Blocks(d, s, 1), [main]);
    assert AllBlocks(d, s) == Blocks(d, s, 1) || AllBlocks(d, s) == Blocks(d, s, 1) + [main];
    hide Blocks, MainCode, Names, NewNames, AllBlocks;
  }

  /** Names that were not taken before and are taken now; the main word is not
      among them when there is code outside definitions. */
  ghost predicate Fresh(a: Notebook, b: Notebook, names: seq<Symbol>) {
    && Distinct(names)
    && (forall x :: x in names ==> x !in a.symbols && x in b.symbols)
    && (b.implicitMain ==> MAIN !in names)
  }

  lemma FreshThen(a: Notebook, b: Notebook, c: Notebook, names1: seq<Symbol>, names2: seq<Symbol>)
    requires Fresh(a, b, names1) && Fresh(b, c, names2) && Later(a, b, None) && Later(b, c, None)
    requires b.implicitMain ==> MAIN in b.symbols
    requires c.errors == b.errors
    ensures Fresh(a, c, names1 + names2)
  {
    var names := names1 + names2;
    forall i, j | 0 <= i < j < |names| ensures names[i] != names[j] {
      if i < |names1| <= j {
        assert names1[i] in b.symbols && names2[j - |names1|] !in b.symbols;
      }
    }
  }

  /** Outside definitions. */
  predicate AtTop(v: View) {
    && v.frame.currentDefinition.None? && v.frame.exitLabel == 0 && v.breakStack == []
    && (v.notes.implicitMain ==> MAIN in v.notes.symbols)
  }

  /** What stays as it is from one element of a source to the next, errors or not. */
  predicate SamePlace(v: View, w: View) {
    && w.frame == v.frame.(anonymous := w.frame.anonymous)
    && w.labelStack == v.labelStack && w.breakStack == v.breakStack
  }

  /** The code of the source is there, and its names are taken. */
  ghost predicate Complete(v: View, w: View, s: Source) {
    var d := v.frame.definitions;
    && w.table == v.table + Raw(d, s, v.labelSequence)
    && w.labelSequence == v.labelSequence + LabelCount(d, s)
    && Sound(d, s) && Fresh(v.notes, w.notes, NewNames(d, s))
    && (MainCode(d, s, v.labelSequence) != [] ==> w.notes.implicitMain)
  }

  /** Source s has been read. */
  ghost predicate Consumes(v: View, w: View, s: Source) {
    if !v.Active() then w == v
    else SamePlace(v, w) && Later(v.notes, w.notes, None) && (w.notes.errors == v.notes.errors ==> Complete(v, w, s))
  }

  lemma StaysAtTop(v: View, w: View, s: Source)
    requires AtTop(v) && Consumes(v, w, s)
    ensures AtTop(w)
  {
  }

  lemma NothingMain(definitions: set<string>, s: Source, n: int)
    requires s.Nothing? || s.Definition? || s.Assembler? || s.Declaration?
    ensures MainCode(definitions, s, n) == []
  {
  }

  lemma BothMain(definitions: set<string>, s: Source, n: int)
    requires s.Both? && MainCode(definitions, s.first, n) == []
    requires MainCode(definitions, s.second, n + LabelCount(definitions, s.first)) == []
    ensures MainCode(definitions, s, n) == []
  {
    MainTakes(definitions, s.first);
  }

  lemma ConsumesNothing(v: View, s: Source)
    requires s.Nothing? && AtTop(v)
    ensures Consumes(v, v, s)
  {
    NothingMain(v.frame.definitions, s, v.labelSequence);
  }

  lemma ConsumesBoth(v0: View, v1: View, v2: View, s: Source)
    requires s.Both? && AtTop(v0) && Consumes(v0, v1, s.first) && Consumes(v1, v2, s.second)
    ensures Consumes(v0, v2, s)
  {
    hide Raw, LabelCount, MainCode, Fresh, AllTrue, Sound;
    StaysAtTop(v0, v1, s.first);
    LaterTransitive();
    if v0.Active() && v2.notes.errors == v0.notes.errors {
      CompleteBoth(v0, v1, v2, s);
    }
  }

  lemma CompleteBoth(v0: View, v1: View, v2: View, s: Source)
    requires s.Both? && AtTop(v1) && SamePlace(v0, v1)
    requires Later(v0.notes, v1.notes, None) && Later(v1.notes, v2.notes, None) && v2.notes.errors == v0.notes.errors
    requires v1.notes.errors == v0.notes.errors ==> Complete(v0, v1, s.first)
    requires v2.notes.errors == v1.notes.errors ==> Complete(v1, v2, s.second)
    ensures Complete(v0, v2, s)
  {
    hide MainCode, Fresh, Raw, LabelCount, Sound, NewNames;
    var d, n := v0.frame.definitions, v0.labelSequence;
    FreshThenWhen(v0, v1, v2, s);
    if MainCode(d, s.first, n) == [] && MainCode(d, s.second, n + LabelCount(d, s.first)) == [] {
      BothMain(d, s, n);
    }
    BothParts(d, s, n);
  }

  lemma BothParts(d: set<string>, s: Source, n: int)
    requires s.Both?
    ensures Raw(d, s, n) == Raw(d, s.first, n) + Raw(d, s.second, n + LabelCount(d, s.first))
    ensures LabelCount(d, s) == LabelCount(d, s.first) + LabelCount(d, s.second)
    ensures Sound(d, s) == (Sound(d, s.first) && Sound(d, s.second))
    ensures NewNames(d, s) == NewNames(d, s.first) + NewNames(d, s.second)
  {
  }

  lemma FreshThenWhen(v0: View, v1: View, v2: View, s: Source)
    requires s.Both? && AtTop(v1)
    requires Later(v0.notes, v1.notes, None) && Later(v1.notes, v2.notes, None) && v2.notes.errors == v0.notes.errors
    requires var d := v0.frame.definitions;
      Fresh(v0.notes, v1.notes, NewNames(d, s.first)) && Fresh(v1.notes, v2.notes, NewNames(d, s.second))
    ensures var d := v0.frame.definitions; Fresh(v0.notes, v2.notes, NewNames(d, s.first) + NewNames(d, s.second))
  {
    var d := v0.frame.definitions;
    FreshThen(v0.notes, v1.notes, v2.notes, NewNames(d, s.first), NewNames(d, s.second));
  }

  lemma ConsumesStatement(v: View, w: View, s: Source)
    requires s.Statement? && AtTop(v) && Reads(v, w, s.body)
    ensures Consumes(v, w, s)
  {
    hide Code, Labels, Scoped;
  }

  lemma ConsumesDeclaration(v: View, w: View, s: Source)
    requires s.Declaration? && AtTop(v) && w == if v.Active() then Named(v, s.name) else v
    ensures Consumes(v, w, s)
  {
    NothingMain(v.frame.definitions, s, v.labelSequence);
    hide MainCode;
    assert v.table + [] == v.table;
  }

  lemma StacksInside(v0: View, v2: View, x: Symbol, body: Stmt, anonymous: bool)
    requires v0.Active() && Reads(Opened(v0, x, anonymous), v2, body)
    ensures v2.Active() && v2.labelStack == v0.labelStack + [v0.labelSequence] && v2.breakStack == v0.breakStack
    ensures v2.frame == Opened(v0, x, anonymous).frame
  {
  }

  /** The code of a word: definition, statements, exit label, end. */
  lemma WordCode(d: set<string>, x: Symbol, body: Stmt, n: int, before: Table)
    ensures before + [Define(x)] + Code(WordContext(d, x, n), body, n + 1) + [Label(n), EndDefine(x)]
      == before + BlockCode(WordBlock(d, x, body, n))
  {
    hide Code;
  }

  /** What the end of a word does, as far as it matters afterwards. */
  lemma EndedWrote(v: View)
    requires v.labelStack != []
    ensures var w := Ended(v);
      && w.frame == v.frame.(exitLabel := 0, currentDefinition := None)
      && w.labelStack == Popped(v.labelStack) && w.breakStack == v.breakStack && w.labelSequence == v.labelSequence
    ensures v.frame.currentDefinition.None? ==> Ended(v).notes == v.notes && Ended(v).table == v.table
    ensures v.frame.currentDefinition.Some? ==>
      var w, x := Ended(v), v.frame.currentDefinition.value;
      && Later(v.notes, w.notes, None) && (v.frame.anonymous ==> w.notes.implicitMain)
      && (!v.frame.anonymous ==> w.notes == v.notes)
      && w.table == v.table + [Label(Last(v.labelStack)), EndDefine(x)]
           + if v.frame.anonymous then [LoadSymbol(R0, x), Push(R0, DataStack)] else []
  {
  }

  /** What a word leaves when there are no complaints. */
  lemma WordClosed(v0: View, v2: View, w: View, x: Symbol, body: Stmt, anonymous: bool)
    requires AtTop(v0) && v0.Active() && Reads(Opened(v0, x, anonymous), v2, body) && v2.labelStack != []
    requires w == Ended(v2)
    ensures SamePlace(v0, w) && Later(v0.notes, w.notes, None)
    ensures w.notes.errors == v0.notes.errors ==>
      var d, n := v0.frame.definitions, v0.labelSequence;
      && w.table ==
        v0.table + BlockCode(WordBlock(d, x, body, n))
          + (if anonymous then [LoadSymbol(R0, x), Push(R0, DataStack)] else [])
      && w.labelSequence == n + 1 + Labels(d, body) && Scoped(WordContext(d, x, n), body)
      && x !in v0.notes.symbols && x in w.notes.symbols && (anonymous ==> w.notes.implicitMain)
      && (w.notes.implicitMain ==> x != MAIN)
  {
    hide Code, Labels, Scoped, AllTrue, BlockCode;
    PopPush(v0.labelStack, v0.labelSequence);
    EndedWrote(v2);
    hide Ended, Emitted;
    WordCode(v0.frame.definitions, x, body, v0.labelSequence, v0.table);
  }

  lemma ConsumesWord(v0: View, v2: View, w: View, s: Source)
    requires s.Definition? || s.Noname?
    requires AtTop(v0) && v0.Active() && Reads(Opened(v0, s.name, s.Noname?), v2, s.body) && v2.labelStack != []
    requires w == Ended(v2)
    ensures Consumes(v0, w, s)
  {
    hide Code, Labels, Scoped, AllTrue, BlockCode, Later, MainCode, Reads, Ended;
    var d, n := v0.frame.definitions, v0.labelSequence;
    WordClosed(v0, v2, w, s.name, s.body, s.Noname?);
    if s.Definition? { NothingMain(d, s, n); }
    if w.notes.errors == v0.notes.errors {
      ScopedAnyLabels(WordContext(d, s.name, n), WordContext(d, s.name, 0), s.body);
    }
  }

  lemma CodeWordCode(x: Symbol, lines: seq<string>, before: Table)
    ensures before + [Define(x)] + LineCode(lines) + [EndDefine(x)] == before + BlockCode(Block(x, Lines(lines)))
  {
  }

  lemma ConsumesAssembler(v0: View, v2: View, w: View, s: Source)
    requires s.Assembler? && AtTop(v0) && v0.Active()
    requires var v1 := CodeOpened(v0, s.name); v2 == v1.(table := v1.table + LineCode(Written(s.lines)))
    requires w == if v2.frame.currentDefinition.Some?
      then v2.(frame := v2.frame.(currentDefinition := None),
               table := v2.table + [EndDefine(v2.frame.currentDefinition.value)]) else v2
    ensures Consumes(v0, w, s)
  {
    hide MainCode, BlockCode, LineCode, AllTrue;
    NothingMain(v0.frame.definitions, s, v0.labelSequence);
    CodeWordCode(s.name, Written(s.lines), v0.table);
  }

  lemma LineCodeThen(lines: seq<string>, line: string)
    ensures LineCode(lines + [line]) == LineCode(lines) + [Assembly(line)]
  {
  }
}
