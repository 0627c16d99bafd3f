/** Conditional compilation is erasure: a source means what it means with its
    inactive branches deleted. */
module Erasure {
  import opened Options
  import opened Machine
  import opened Statements
  import opened Compilation
  import opened Elements
  import opened ParserStates
  import opened Reading

  /** A statement without its conditionals. */
  function Erased(d: set<string>, s: Stmt): Stmt {
    match s
    case Sequence(a, b) => Sequence(Erased(d, a), Erased(d, b))
    case If(a) => If(Erased(d, a))
    case IfElse(a, b) => IfElse(Erased(d, a), Erased(d, b))
    case DoLoop(query, body, plus) => DoLoop(query, Erased(d, body), plus)
    case BeginUntil(body) => BeginUntil(Erased(d, body))
    case BeginAgain(body) => BeginAgain(Erased(d, body))
    case Case(body) => Case(Erased(d, body))
    case Of(test, body, rest) => Of(Erased(d, test), Erased(d, body), Erased(d, rest))
    case Conditional(name, negated, a, b) => if Selected(d, name, negated) then Erased(d, a) else Erased(d, b)
    case _ => s
  }

  function ErasedSource(d: set<string>, s: Source): Source {
    match s
    case Both(a, b) => Both(ErasedSource(d, a), ErasedSource(d, b))
    case Definition(x, body) => Definition(x, Erased(d, body))
    case Noname(x, body) => Noname(x, Erased(d, body))
    case Statement(body) => Statement(Erased(d, body))
    case Choice(_, _, _, _) => ErasedSource(d, Chosen(d, s))
    case _ => s
  }

  predicate Unconditional(s: Stmt) {
    match s
    case Sequence(a, b) => Unconditional(a) && Unconditional(b)
    case If(a) => Unconditional(a)
    case IfElse(a, b) => Unconditional(a) && Unconditional(b)
    case DoLoop(_, body, _) => Unconditional(body)
    case BeginUntil(body) => Unconditional(body)
    case BeginAgain(body) => Unconditional(body)
    case Case(body) => Unconditional(body)
    case Of(test, body, rest) => Unconditional(test) && Unconditional(body) && Unconditional(rest)
    case Conditional(_, _, _, _) => false
    case _ => true
  }

  predicate UnconditionalSource(s: Source) {
    match s
    case Both(a, b) => UnconditionalSource(a) && UnconditionalSource(b)
    case Definition(_, body) => Unconditional(body)
    case Noname(_, body) => Unconditional(body)
    case Statement(body) => Unconditional(body)
    case Choice(_, _, _, _) => false
    case _ => true
  }

  lemma {:induction false} ErasedLabels(d: set<string>, any: set<string>, s: Stmt)
    ensures Labels(any, Erased(d, s)) == Labels(d, s)
  {
    match s
    case Sequence(a, b) => ErasedLabels(d, any, a); ErasedLabels(d, any, b);
    case If(a) => ErasedLabels(d, any, a);
    case IfElse(a, b) => ErasedLabels(d, any, a); ErasedLabels(d, any, b);
    case DoLoop(_, body, _) => ErasedLabels(d, any, body);
    case BeginUntil(body) => ErasedLabels(d, any, body);
    case BeginAgain(body) => ErasedLabels(d, any, body);
    case Case(body) => ErasedLabels(d, any, body);
    case Of(test, body, rest) => ErasedLabels(d, any, test); ErasedLabels(d, any, body); ErasedLabels(d, any, rest);
    case Conditional(name, negated, a, b) => ErasedLabels(d, any, if Selected(d, name, negated) then a else b);
    case _ =>
  }

  lemma {:induction false} ErasedUnconditional(d: set<string>, s: Stmt)
    ensures Unconditional(Erased(d, s))
  {
    match s
    case Sequence(a, b) => ErasedUnconditional(d, a); ErasedUnconditional(d, b);
    case If(a) => ErasedUnconditional(d, a);
    case IfElse(a, b) => ErasedUnconditional(d, a); ErasedUnconditional(d, b);
    case DoLoop(_, body, _) => ErasedUnconditional(d, body);
    case BeginUntil(body) => ErasedUnconditional(d, body);
    case BeginAgain(body) => ErasedUnconditional(d, body);
    case Case(body) => ErasedUnconditional(d, body);
    case Of(test, body, rest) => ErasedUnconditional(d, test); ErasedUnconditional(d, body);
      ErasedUnconditional(d, rest);
    case Conditional(name, negated, a, b) => ErasedUnconditional(d, if Selected(d, name, negated) then a else b);
    case _ =>
  }

  /** A statement and what is left of it emit the same opcodes, whatever names
      are given when the latter is compiled. */
  lemma {:induction false} ErasedCode(c: Context, any: set<string>, s: Stmt, n: int)
    ensures Code(c.(definitions := any), Erased(c.definitions, s), n) == Code(c, s, n)
    decreases s, 1
  {
    hide Code, Erased;
    if s.IfElse? {
      ErasedIfElse(c, any, s, n);
    } else if s.Of? {
      ErasedOf(c, any, s, n);
    } else if s.DoLoop? || s.BeginUntil? || s.BeginAgain? || s.Case? {
      ErasedLoop(c, any, s, n);
    } else if s.Sequence? || s.If? || s.Conditional? {
      ErasedPlain(c, any, s, n);
    } else {
      ErasedLeaf(c, any, s, n);
    }
  }

  lemma ErasedLeaf(c: Context, any: set<string>, s: Stmt, n: int)
    requires !s.IfElse? && !s.Of? && !s.DoLoop? && !s.BeginUntil? && !s.BeginAgain? && !s.Case? && !s.Sequence?
    requires !s.If? && !s.Conditional?
    ensures Code(c.(definitions := any), Erased(c.definitions, s), n) == Code(c, s, n)
  {
    hide IfCode, StringCode;
  }

  lemma {:induction false} ErasedPlain(c: Context, any: set<string>, s: Stmt, n: int)
    requires s.Sequence? || s.If? || s.Conditional?
    ensures Code(c.(definitions := any), Erased(c.definitions, s), n) == Code(c, s, n)
    decreases s, 0
  {
    hide IfCode, Labels;
    if s.Sequence? {
      ErasedLabels(c.definitions, any, s.first);
      ErasedCode(c, any, s.first, n);
      ErasedCode(c, any, s.second, n + Labels(c.definitions, s.first));
    } else if s.If? {
      ErasedCode(c, any, s.thenPart, n + 1);
    } else {
      ErasedCode(c, any, if Selected(c.definitions, s.name, s.negated) then s.thenPart else s.elsePart, n);
    }
  }

  lemma {:induction false} ErasedIfElse(c: Context, any: set<string>, s: Stmt, n: int)
    requires s.IfElse?
    ensures Code(c.(definitions := any), Erased(c.definitions, s), n) == Code(c, s, n)
    decreases s, 0
  {
    hide Code, IfCode, Labels;
    var d, e := c.definitions, c.(definitions := any);
    CodeOfIfElse(c, s.thenPart, s.elsePart, n);
    CodeOfIfElse(e, Erased(d, s.thenPart), Erased(d, s.elsePart), n);
    ErasedLabels(c.definitions, any, s.thenPart);
    ErasedCode(c, any, s.thenPart, n + 1);
    ErasedCode(c, any, s.elsePart, n + 1 + Labels(c.definitions, s.thenPart) + 1);
  }

  lemma {:induction false} ErasedOf(c: Context, any: set<string>, s: Stmt, n: int)
    requires s.Of?
    ensures Code(c.(definitions := any), Erased(c.definitions, s), n) == Code(c, s, n)
    decreases s, 0
  {
    hide Code, OfCode, Labels;
    var d, m := c.definitions, n + Labels(c.definitions, s.test);
    CodeOfOf(c, s.test, s.body, s.rest, n);
    CodeOfOf(c.(definitions := any), Erased(d, s.test), Erased(d, s.body), Erased(d, s.rest), n);
    ErasedLabels(d, any, s.test);
    ErasedLabels(d, any, s.body);
    ErasedCode(c, any, s.test, n);
    ErasedCode(c, any, s.body, m + 1);
    ErasedCode(c, any, s.rest, m + 1 + Labels(d, s.body));
  }

  lemma {:induction false} ErasedLoop(c: Context, any: set<string>, s: Stmt, n: int)
    requires s.DoLoop? || s.BeginUntil? || s.BeginAgain? || s.Case?
    ensures Code(c.(definitions := any), Erased(c.definitions, s), n) == Code(c, s, n)
    decreases s, 0
  {
    hide IfCode, DoCode, EnterCode, LoopCode, PlusLoopCode, UnloopCode;
    if s.DoLoop? {
      ErasedLabels(c.definitions, any, s.body);
      ErasedCode(c.(breakLabel := Some(n + 2)), any, s.body, n + 3);
    } else if s.Case? {
      ErasedCode(c.(breakLabel := Some(n)), any, s.body, n + 1);
    } else {
      ErasedCode(c.(breakLabel := Some(n + 1)), any, s.body, n + 2);
    }
  }

  /** What is left stands where it should exactly when the active parts did. */
  lemma {:induction false} ErasedScoped(c: Context, any: set<string>, s: Stmt)
    ensures Scoped(c.(definitions := any), Erased(c.definitions, s)) == Scoped(c, s)
    decreases s, 1
  {
    if s.DoLoop? || s.BeginUntil? || s.BeginAgain? || s.Case? {
      ErasedScopedLoop(c, any, s);
    } else if s.Sequence? {
      ErasedScoped(c, any, s.first);
      ErasedScoped(c, any, s.second);
    } else if s.If? {
      ErasedScoped(c, any, s.thenPart);
    } else if s.IfElse? {
      ErasedScoped(c, any, s.thenPart);
      ErasedScoped(c, any, s.elsePart);
    } else if s.Of? {
      ErasedScoped(c, any, s.test);
      ErasedScoped(c, any, s.body);
      ErasedScoped(c, any, s.rest);
    } else if s.Conditional? {
      ErasedScoped(c, any, if Selected(c.definitions, s.name, s.negated) then s.thenPart else s.elsePart);
    }
  }

  lemma {:induction false} ErasedScopedLoop(c: Context, any: set<string>, s: Stmt)
    requires s.DoLoop? || s.BeginUntil? || s.BeginAgain? || s.Case?
    ensures Scoped(c.(definitions := any), Erased(c.definitions, s)) == Scoped(c, s)
    decreases s, 0
  {
    ErasedScoped(c.(breakLabel := Some(0)), any, s.body);
  }

  /** A source and what is left of it when its inactive branches are deleted
      emit the same opcodes, take the same labels, define the same names and
      pass the same checks. */
  lemma {:induction false} ConditionalIsErasure(d: set<string>, any: set<string>, s: Source, n: int)
    ensures UnconditionalSource(ErasedSource(d, s))
    ensures LabelCount(any, ErasedSource(d, s)) == LabelCount(d, s)
    ensures Raw(any, ErasedSource(d, s), n) == Raw(d, s, n)
    ensures Names(any, ErasedSource(d, s)) == Names(d, s) && Sound(any, ErasedSource(d, s)) == Sound(d, s)
    decreases s
  {
    hide Code, Labels, Scoped, Erased, Unconditional;
    match s
    case Both(a, b) =>
      ConditionalIsErasure(d, any, a, n);
      ConditionalIsErasure(d, any, b, n + LabelCount(d, a));
    case Definition(x, body) => ErasedWord(d, any, x, body, n);
    case Noname(x, body) => ErasedWord(d, any, x, body, n);
    case Statement(body) =>
      ErasedLabels(d, any, body);
      ErasedUnconditional(d, body);
      ErasedCode(TopContext(d), any, body, n);
      ErasedScoped(TopContext(d), any, body);
    case Choice(_, _, _, _) => ConditionalIsErasure(d, any, Chosen(d, s), n);
    case _ =>
  }

  lemma ErasedWord(d: set<string>, any: set<string>, x: Symbol, body: Stmt, n: int)
    ensures BlockCode(WordBlock(any, x, Erased(d, body), n)) == BlockCode(WordBlock(d, x, body, n))
    ensures Labels(any, Erased(d, body)) == Labels(d, body) && Unconditional(Erased(d, body))
    ensures Scoped(WordContext(any, x, 0), Erased(d, body)) == Scoped(WordContext(d, x, 0), body)
  {
    ErasedLabels(d, any, body);
    ErasedUnconditional(d, body);
    ErasedCode(WordContext(d, x, n), any, body, n + 1);
    ErasedScoped(WordContext(d, x, 0), any, body);
    hide Code, Labels, Scoped, Erased, Unconditional;
  }

  // ----- what is left is a source of its own -----

  lemma {:induction false} ErasedGrammatical(d: set<string>, s: Stmt)
    ensures Grammatical(s) ==> Grammatical(Erased(d, s))
    ensures CaseBody(s) ==> CaseBody(Erased(d, s))
  {
    match s
    case Sequence(a, b) => ErasedGrammatical(d, a); ErasedGrammatical(d, b);
    case If(a) => ErasedGrammatical(d, a);
    case IfElse(a, b) => ErasedGrammatical(d, a); ErasedGrammatical(d, b);
    case DoLoop(_, body, _) => ErasedGrammatical(d, body);
    case BeginUntil(body) => ErasedGrammatical(d, body);
    case BeginAgain(body) => ErasedGrammatical(d, body);
    case Case(body) => ErasedGrammatical(d, body);
    case Of(test, body, rest) =>
      ErasedGrammatical(d, test);
      ErasedGrammatical(d, body);
      ErasedGrammatical(d, rest);
    case Conditional(_, _, a, b) =>
      ErasedGrammatical(d, a);
      ErasedGrammatical(d, b);
      GrammaticalIsBody(Erased(d, s));
    case _ =>
  }

  lemma GrammaticalIsBody(s: Stmt)
    ensures Grammatical(s) ==> CaseBody(s)
  {
  }

  lemma {:induction false} ErasedLawful(d: set<string>, s: Source)
    requires Lawful(s)
    ensures Lawful(ErasedSource(d, s))
  {
    match s
    case Both(a, b) => ErasedLawful(d, a); ErasedLawful(d, b);
    case Definition(_, body) => ErasedGrammatical(d, body);
    case Noname(_, body) => ErasedGrammatical(d, body);
    case Statement(body) => ErasedGrammatical(d, body);
    case Choice(_, _, _, _) => ErasedLawful(d, Chosen(d, s));
    case _ =>
  }

  lemma {:induction false} ErasedMain(d: set<string>, s: Source)
    ensures MainStmt(d, ErasedSource(d, s)) == Erased(d, MainStmt(d, s))
  {
    match s
    case Both(a, b) => ErasedMain(d, a); ErasedMain(d, b);
    case Definition(_, body) => ErasedLabels(d, d, body);
    case Noname(_, body) => ErasedLabels(d, d, body);
    case Choice(_, _, _, _) => ErasedMain(d, Chosen(d, s));
    case _ =>
  }

  /** And its finished table has definitions of the same names. */
  lemma ErasedNames(d: set<string>, s: Source)
    ensures BlockNames(AllBlocks(d, ErasedSource(d, s))) == BlockNames(AllBlocks(d, s))
  {
    hide Blocks, Names, ErasedSource, MainStmt, Code, Raw, Sound, LabelCount;
    var e := ErasedSource(d, s);
    ConditionalIsErasure(d, d, s, 1);
    NamesOfBlocks(d, s, 1);
    NamesOfBlocks(d, e, 1);
    ErasedMain(d, s);
    ErasedCode(TopContext(d), d, MainStmt(d, s), 1);
    assert TopContext(d).(definitions := d) == TopContext(d);
    BlockNamesThen(Blocks(d, s, 1), [Block(MAIN, Body(TopContext(d), MainStmt(d, s), 1))]);
    BlockNamesThen(Blocks(d, e, 1), [Block(MAIN, Body(TopContext(d), MainStmt(d, e), 1))]);
    BlockNamesThen(Blocks(d, s, 1), []);
    BlockNamesThen(Blocks(d, e, 1), []);
    BlockNamesFew(Block(MAIN, Body(TopContext(d), MainStmt(d, s), 1)));
    BlockNamesFew(Block(MAIN, Body(TopContext(d), MainStmt(d, e), 1)));
  }
}
