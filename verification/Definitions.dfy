/** The finished table is one definition after the other, and it has the shape
    that the optimizer and the meaning of programs rely on. */
module Definitions {
  import opened Machine
  import opened Shape
  import opened Statements
  import opened Layout
  import opened Elements

  // ----- sorting opcodes into main and functions -----

  lemma {:induction false} SplitThen(h: Halves, t: Table, u: Table)
    ensures Split(h, t + u) == Split(Split(h, t), u)
    decreases |u|
  {
    if u == [] {
      assert t + u == t;
    } else {
      assert (t + u)[..|t + u| - 1] == t + u[..|u| - 1];
      SplitThen(h, t, u[..|u| - 1]);
    }
  }

  /** Opcodes without markers all go the same way. */
  lemma {:induction false} SplitUnmarked(h: Halves, t: Table)
    requires forall op :: op in t ==> Unmarked(op)
    ensures Split(h, t) == if h.inMain then h.(main := h.main + t) else h.(functions := h.functions + t)
  {
    if t == [] {
      assert h.main + t == h.main && h.functions + t == h.functions;
    } else {
      var u := t[..|t| - 1];
      assert t == u + [t[|t| - 1]] && t[|t| - 1] in t;
      SplitUnmarked(h, u);
      assert h.main + t == h.main + u + [t[|t| - 1]];
      assert h.functions + t == h.functions + u + [t[|t| - 1]];
    }
  }

  lemma SplitOne(h: Halves, op: Opcode)
    ensures Split(h, [op]) == Sorted(h, op)
  {
    assert [op][..0] == [];
  }

  lemma InnerUnmarked(content: Content, op: Opcode)
    requires op in InnerCode(content)
    ensures Unmarked(op)
  {
    if content.Body? && op in Code(content.c, content.body, content.n) {
      CodeOrdinary(content.c, content.body, content.n, op);
    }
  }

  lemma SplitBlock(m: Table, f: Table, b: Block)
    ensures Split(Halves(m, f, true), BlockCode(b)) == Halves(m, f + BlockCode(b), true)
  {
    hide Split, InnerCode;
    var h, inner := Halves(m, f, true), InnerCode(b.content);
    forall op | op in inner ensures Unmarked(op) {
      InnerUnmarked(b.content, op);
    }
    SplitThen(h, [Define(b.name)] + inner, [EndDefine(b.name)]);
    SplitThen(h, [Define(b.name)], inner);
    SplitOne(h, Define(b.name));
    SplitUnmarked(Halves(m, f + [Define(b.name)], false), inner);
    SplitOne(Halves(m, f + [Define(b.name)] + inner, false), EndDefine(b.name));
    assert f + [Define(b.name)] + inner + [EndDefine(b.name)] == f + BlockCode(b);
  }

  lemma SplitCode(m: Table, f: Table, c: Context, s: Stmt, n: int)
    ensures Split(Halves(m, f, true), Code(c, s, n)) == Halves(m + Code(c, s, n), f, true)
  {
    hide Split, Code;
    forall op | op in Code(c, s, n) ensures Unmarked(op) {
      CodeOrdinary(c, s, n, op);
    }
    SplitUnmarked(Halves(m, f, true), Code(c, s, n));
  }

  lemma {:induction false} JoinThen(a: seq<Block>, b: seq<Block>)
    ensures Join(a + b) == Join(a) + Join(b)
  {
    if a == [] {
      assert a + b == b;
    } else {
      assert (a + b)[1..] == a[1..] + b;
      JoinThen(a[1..], b);
    }
  }

  lemma JoinOne(b: Block)
    ensures Join([b]) == BlockCode(b)
  {
  }

  lemma MainOfBoth(definitions: set<string>, s: Source, n: int)
    requires s.Both?
    ensures MainCode(definitions, s, n) ==
      MainCode(definitions, s.first, n) + MainCode(definitions, s.second, n + LabelCount(definitions, s.first))
    ensures Labels(definitions, MainStmt(definitions, s)) ==
      Labels(definitions, MainStmt(definitions, s.first)) + Labels(definitions, MainStmt(definitions, s.second))
  {
    hide Code, Labels, LabelCount;
    MainTakes(definitions, s.first);
    MainIsSequence(definitions, s);
    CodeOfSequence(TopContext(definitions), MainStmt(definitions, s.first), MainStmt(definitions, s.second), n);
    LabelsOfSequence(definitions, MainStmt(definitions, s.first), MainStmt(definitions, s.second));
    hide MainStmt;
  }

  lemma MainIsSequence(definitions: set<string>, s: Source)
    requires s.Both?
    ensures MainStmt(definitions, s) == Sequence(MainStmt(definitions, s.first), MainStmt(definitions, s.second))
  {
  }

  lemma LabelsOfSequence(definitions: set<string>, a: Stmt, b: Stmt)
    ensures Labels(definitions, Sequence(a, b)) == Labels(definitions, a) + Labels(definitions, b)
  {
  }

  /** Sorting separates the definitions from the top-level code, both in order. */
  lemma {:induction false} SplitRaw(definitions: set<string>, s: Source, n: int, m: Table, f: Table)
    ensures Split(Halves(m, f, true), Raw(definitions, s, n)) ==
      Halves(m + MainCode(definitions, s, n), f + Join(Blocks(definitions, s, n)), true)
    decreases s
  {
    hide Split, Code, BlockCode;
    match s
    case Both(a, b) =>
      var k := n + LabelCount(definitions, a);
      SplitThen(Halves(m, f, true), Raw(definitions, a, n), Raw(definitions, b, k));
      SplitRaw(definitions, a, n, m, f);
      SplitRaw(definitions, b, k, m + MainCode(definitions, a, n), f + Join(Blocks(definitions, a, n)));
      SplitBoth(definitions, s, n, m, f);
    case Definition(x, body) =>
      SplitBlock(m, f, WordBlock(definitions, x, body, n));
      JoinOne(WordBlock(definitions, x, body, n));
      MainNothing(definitions, s, n, m);
    case Noname(x, body) =>
      SplitNoname(definitions, s, n, m, f);
    case Assembler(x, lines) =>
      SplitBlock(m, f, Block(x, Lines(Written(lines))));
      JoinOne(Block(x, Lines(Written(lines))));
      MainNothing(definitions, s, n, m);
    case Statement(body) =>
      SplitCode(m, f, TopContext(definitions), body, n);
    case Choice(_, _, _, _) =>
      SplitRaw(definitions, Chosen(definitions, s), n, m, f);
    case _ =>
      SplitCode(m, f, TopContext(definitions), Empty, n);
      MainNothing(definitions, s, n, m);
  }

  lemma MainNothing(definitions: set<string>, s: Source, n: int, m: Table)
    requires s.Definition? || s.Assembler? || s.Nothing? || s.Declaration?
    ensures MainCode(definitions, s, n) == [] && m + MainCode(definitions, s, n) == m
    ensures Code(TopContext(definitions), Empty, n) == []
  {
  }

  lemma SplitBoth(definitions: set<string>, s: Source, n: int, m: Table, f: Table)
    requires s.Both?
    ensures var k := n + LabelCount(definitions, s.first);
      && m + MainCode(definitions, s.first, n) + MainCode(definitions, s.second, k) == m + MainCode(definitions, s, n)
      && f + Join(Blocks(definitions, s.first, n)) + Join(Blocks(definitions, s.second, k)) ==
        f + Join(Blocks(definitions, s, n))
  {
    hide MainCode, Join;
    var k := n + LabelCount(definitions, s.first);
    MainOfBoth(definitions, s, n);
    JoinThen(Blocks(definitions, s.first, n), Blocks(definitions, s.second, k));
    Associate(m, MainCode(definitions, s.first, n), MainCode(definitions, s.second, k));
    Associate(f, Join(Blocks(definitions, s.first, n)), Join(Blocks(definitions, s.second, k)));
  }

  lemma Associate(a: Table, b: Table, c: Table)
    ensures a + b + c == a + (b + c)
  {
  }

  lemma SplitNoname(definitions: set<string>, s: Source, n: int, m: Table, f: Table)
    requires s.Noname?
    ensures Split(Halves(m, f, true), Raw(definitions, s, n)) ==
      Halves(m + MainCode(definitions, s, n), f + Join(Blocks(definitions, s, n)), true)
  {
    hide Split, BlockCode;
    var b := WordBlock(definitions, s.name, s.body, n);
    var address := Code(TopContext(definitions), Address(s.name), n);
    assert Raw(definitions, s, n) == BlockCode(b) + address;
    SplitThen(Halves(m, f, true), BlockCode(b), address);
    SplitBlock(m, f, b);
    JoinOne(b);
    SplitCode(m, f + BlockCode(b), TopContext(definitions), Address(s.name), n);
    NonameMain(definitions, s, n);
  }

  // ----- the finished table -----

  /** Without top-level code, the parser has emitted nothing but definitions. */
  lemma {:induction false} RawWithoutMain(definitions: set<string>, s: Source, n: int)
    requires MainCode(definitions, s, n) == []
    ensures Raw(definitions, s, n) == Join(Blocks(definitions, s, n))
  {
    hide BlockCode, Code;
    match s
    case Both(a, b) =>
      var k := n + LabelCount(definitions, a);
      MainOfBoth(definitions, s, n);
      RawWithoutMain(definitions, a, n);
      RawWithoutMain(definitions, b, k);
      JoinThen(Blocks(definitions, a, n), Blocks(definitions, b, k));
    case Definition(x, body) => JoinOne(WordBlock(definitions, x, body, n));
    case Noname(x, body) => NonameMain(definitions, s, n);
    case Assembler(x, lines) => JoinOne(Block(x, Lines(Written(lines))));
    case Choice(_, _, _, _) => RawWithoutMain(definitions, Chosen(definitions, s), n);
    case _ =>
  }

  /** A nameless word leaves its address on the stack. */
  lemma NonameMain(definitions: set<string>, s: Source, n: int)
    requires s.Noname?
    ensures MainCode(definitions, s, n) == Code(TopContext(definitions), Address(s.name), n)
      == [LoadSymbol(R0, s.name), Push(R0, DataStack)]
  {
    var c, k := TopContext(definitions), 1 + Labels(definitions, s.body);
    assert Code(c, Elsewhere(k), n) == [];
    assert Code(c, Address(s.name), n + k) == [LoadSymbol(R0, s.name), Push(R0, DataStack)];
  }

  /** The main synthesizer turns what the parser emits into a row of definitions,
      those of the source in order and the main word last. */
  lemma WithMainIsJoin(definitions: set<string>, s: Source)
    ensures WithMain(Raw(definitions, s, 1)) == Join(AllBlocks(definitions, s))
  {
    hide Split, Raw, Join, MainCode, Blocks;
    var m := MainCode(definitions, s, 1);
    SplitRaw(definitions, s, 1, [], []);
    assert [] + m == m && [] + Join(Blocks(definitions, s, 1)) == Join(Blocks(definitions, s, 1));
    if m == [] {
      RawWithoutMain(definitions, s, 1);
      assert AllBlocks(definitions, s) == Blocks(definitions, s, 1);
    } else {
      var main := Block(MAIN, Body(TopContext(definitions), MainStmt(definitions, s), 1));
      MainBlock(definitions, s);
      JoinThen(Blocks(definitions, s, 1), [main]);
      JoinOne(main);
      hide BlockCode;
      assert Join(Blocks(definitions, s, 1)) + [Define(MAIN)] + m + [Label(0), EndDefine(MAIN)]
          == Join(Blocks(definitions, s, 1)) + ([Define(MAIN)] + m + [Label(0), EndDefine(MAIN)]);
    }
  }

  lemma MainBlock(definitions: set<string>, s: Source)
    ensures BlockCode(Block(MAIN, Body(TopContext(definitions), MainStmt(definitions, s), 1))) ==
      [Define(MAIN)] + MainCode(definitions, s, 1) + [Label(0), EndDefine(MAIN)]
  {
    hide Code;
  }

  // ----- every opcode is kept once -----

  function Opcodes(h: Halves): multiset<Opcode> {
    multiset(h.main) + multiset(h.functions)
  }

  lemma SortedKeeps(h: Halves, op: Opcode)
    ensures Opcodes(Sorted(h, op)) == Opcodes(h) + multiset{op}
  {
  }

  lemma {:induction false} SplitKeeps(h: Halves, t: Table)
    ensures Opcodes(Split(h, t)) == Opcodes(h) + multiset(t)
  {
    if t != [] {
      var u, op := t[..|t| - 1], t[|t| - 1];
      assert t == u + [op];
      assert multiset(t) == multiset(u) + multiset{op};
      SplitKeeps(h, u);
      SortedKeeps(Split(h, u), op);
      hide Opcodes, Sorted;
    }
  }

  /** Making the main word keeps every opcode and adds its own three. */
  lemma WithMainKeeps(t: Table)
    ensures WithMain(t) == t ||
      multiset(WithMain(t)) == multiset(t) + multiset{Define(MAIN), Label(0), EndDefine(MAIN)}
  {
    var h := Split(Halves([], [], true), t);
    SplitKeeps(Halves([], [], true), t);
    hide Split;
    MainWrapped(h.functions, h.main);
  }

  lemma MainWrapped(f: Table, m: Table)
    ensures multiset(f + [Define(MAIN)] + m + [Label(0), EndDefine(MAIN)]) ==
      multiset(m) + multiset(f) + multiset{Define(MAIN), Label(0), EndDefine(MAIN)}
  {
    assert multiset([Define(MAIN)]) == multiset{Define(MAIN)};
    assert multiset([Label(0), EndDefine(MAIN)]) == multiset{Label(0), EndDefine(MAIN)};
  }
}
