/** The calls that statements and sources make, in the order of the grammar, and
    what they come to. */
module Grammar {
  import opened Options
  import opened Machine
  import opened Statements
  import opened Compilation
  import opened AssemblerLines
  import opened Elements
  import opened ParserStates
  import opened Reading
  import opened Tokens
  import opened CleanSources
  import Erasure

  /** The calls for a statement. */
  function StmtTokens(s: Stmt): seq<Token> {
    match s
    case Empty => []
    case Elsewhere(_) => []
    case Sequence(a, b) => StmtTokens(a) + StmtTokens(b)
    case If(a) => [IfToken] + StmtTokens(a) + [ThenToken]
    case IfElse(a, b) => [IfToken] + StmtTokens(a) + [ElseToken] + StmtTokens(b) + [ThenToken]
    case DoLoop(query, body, plus) => [DoToken(query)] + StmtTokens(body) + [if plus then PlusLoopToken else LoopToken]
    case BeginUntil(body) => [BeginToken] + StmtTokens(body) + [UntilToken]
    case BeginAgain(body) => [BeginToken] + StmtTokens(body) + [RepeatToken]
    case Case(body) => [CaseToken] + StmtTokens(body) + [EndcaseToken]
    case Of(test, body, rest) => StmtTokens(test) + [OfToken] + StmtTokens(body) + [EndofToken] + StmtTokens(rest)
    case Conditional(name, negated, a, b) =>
      [CondIfToken(name, negated)] + StmtTokens(a) + [CondElseToken] + StmtTokens(b) + [CondThenToken]
    case _ => [Single(s)]
  }

  function LineTokens(lines: seq<string>): seq<Token> {
    if lines == [] then [] else LineTokens(lines[..|lines| - 1]) + [LineToken(lines[|lines| - 1])]
  }

  /** The calls for a source. */
  function SourceTokens(s: Source): seq<Token> {
    match s
    case Nothing => []
    case Both(a, b) => SourceTokens(a) + SourceTokens(b)
    case Definition(x, body) => [ColonToken(x)] + StmtTokens(body) + [SemicolonToken]
    case Noname(x, body) => [NonameToken(x)] + StmtTokens(body) + [SemicolonToken]
    case Assembler(x, lines) => [CodeToken(x)] + LineTokens(lines) + [EndCodeToken]
    case Declaration(x) => [VariableToken(x)]
    case Statement(body) => StmtTokens(body)
    case Choice(test, negated, a, b) =>
      [CondIfToken(test, negated)] + SourceTokens(a) + [CondElseToken] + SourceTokens(b) + [CondThenToken]
  }

  // ----- statements -----

  /** Calls lead from one state of the parser to another. */
  predicate Leads(v: View, tokens: seq<Token>, w: View) {
    Drive(false, v, tokens) == Some(w)
  }

  lemma LeadsThen(v: View, a: seq<Token>, w: View, b: seq<Token>, x: View)
    requires Leads(v, a, w) && Leads(w, b, x)
    ensures Leads(v, a + b, x)
  {
    DriveThen(false, v, a, b);
    hide Drive;
  }

  lemma LeadsOne(v: View, t: Token, w: View)
    requires Step(v, t) == Some(w)
    ensures Leads(v, [t], w)
  {
    DriveOne(v, t);
    hide Drive, Step;
  }

  lemma LeadsNowhere(v: View)
    ensures Leads(v, [], v)
  {
  }

  /** Calls around others. */
  lemma LeadsAround(v0: View, first: Token, v1: View, inner: seq<Token>, v2: View, last: Token, v3: View)
    requires Step(v0, first) == Some(v1) && Leads(v1, inner, v2) && Step(v2, last) == Some(v3)
    ensures Leads(v0, [first] + inner + [last], v3)
  {
    hide Leads, Step;
    LeadsOne(v0, first, v1);
    LeadsThen(v0, [first], v1, inner, v2);
    LeadsOne(v2, last, v3);
    LeadsThen(v0, [first] + inner, v2, [last], v3);
  }

  lemma SingleReads(v: View, s: Stmt)
    requires v.Active() && IsSingle(s)
    ensures Reads(v, SingleEffect(v, s), s)
  {
    hide Code, Emitted, Labels, Scoped, AllTrue;
    var code := Code(v.Here(), s, v.labelSequence);
    EmittedWrote(v, code, 0);
    EmittedWrote(v, code, 1);
    SingleCounts(v.Here(), s);
    if s.SetConstant? || s.SetFloatConstant? {
      EmittedWrote(Knowing(v, s.symbol), code, 0);
      KnowingWrote(v, s.symbol, code, 0);
    } else if s.PrintString? || s.AbortString? {
      var x := if s.PrintString? then TYPE_WORD else ABORT_WORD;
      EmittedWrote(Knowing(v, x), code, if s.PrintString? then 0 else 1);
      KnowingWrote(v, x, code, if s.PrintString? then 0 else 1);
    }
  }

  lemma KnowingWrote(v: View, x: Symbol, code: Table, k: nat)
    ensures var w := Emitted(Knowing(v, x), code, k);
      && w.frame == v.frame && w.table == v.table + code && w.labelSequence == v.labelSequence + k
      && w.labelStack == v.labelStack && w.breakStack == v.breakStack && v.notes.symbols <= w.notes.symbols
      && (v.frame.currentDefinition.Some? ==> w.notes.implicitMain == v.notes.implicitMain)
  {
  }

  lemma SingleCounts(c: Context, s: Stmt)
    requires IsSingle(s)
    ensures Labels(c.definitions, s) == if s.AbortString? then 1 else 0
    ensures Scoped(c, s) <==> (s.Recurse? ==> c.self.Some?) && (NeedsBreak(s) ==> c.breakLabel.Some?)
  {
  }

  // ----- handlers that open, turn and close structures -----

  /** A handler that takes effect writes its code and leaves these stacks. */
  lemma Writing(v: View, t: Token, w: View, code: Table, k: nat, labels: seq<int>, breaks: seq<int>)
    requires v.Active() && !t.IsConditional() && Effect(v, t) == Some(w)
    requires w == Emitted(v, code, k).(labelStack := labels, breakStack := breaks)
    ensures Step(v, t) == Some(w) && Acts(v, w, code, k, labels, breaks) && Wrote(v, w, code, k) && w.Active()
  {
    EmittedWrote(v, code, k);
    hide AllTrue, Effect, Emitted;
  }

  lemma IfStep(v: View) returns (w: View)
    requires v.Active()
    ensures Step(v, IfToken) == Some(w) && w.Active()
    ensures var n := v.labelSequence; Acts(v, w, IfCode(n), 1, v.labelStack + [n], v.breakStack)
  {
    hide IfCode, AllTrue, Emitted;
    var n := v.labelSequence;
    w := Emitted(v, IfCode(n), 1).(labelStack := v.labelStack + [n]);
    EmittedStacks(v, IfCode(n), 1);
    Writing(v, IfToken, w, IfCode(n), 1, v.labelStack + [n], v.breakStack);
  }

  lemma EmittedStacks(v: View, code: Table, k: nat)
    ensures Emitted(v, code, k).labelStack == v.labelStack && Emitted(v, code, k).breakStack == v.breakStack
  {
  }

  lemma ThenStep(v: View) returns (w: View)
    requires v.Active() && v.labelStack != []
    ensures Step(v, ThenToken) == Some(w)
    ensures Acts(v, w, [Label(Last(v.labelStack))], 0, Popped(v.labelStack), v.breakStack)
  {
    hide AllTrue, Emitted;
    var code := [Label(Last(v.labelStack))];
    w := Emitted(v, code, 0).(labelStack := Popped(v.labelStack));
    EmittedStacks(v, code, 0);
    Writing(v, ThenToken, w, code, 0, Popped(v.labelStack), v.breakStack);
  }

  lemma ElseStep(v: View) returns (w: View)
    requires v.Active() && v.labelStack != []
    ensures Step(v, ElseToken) == Some(w) && w.Active()
    ensures var m := v.labelSequence;
      Acts(v, w, [Jump(m), Label(Last(v.labelStack))], 1, Popped(v.labelStack) + [m], v.breakStack)
  {
    hide AllTrue, Emitted;
    var m := v.labelSequence;
    var code := [Jump(m), Label(Last(v.labelStack))];
    w := Emitted(v, code, 1).(labelStack := Popped(v.labelStack) + [m]);
    EmittedStacks(v, code, 1);
    Writing(v, ElseToken, w, code, 1, Popped(v.labelStack) + [m], v.breakStack);
  }

  lemma DoStep(v: View, query: bool) returns (w: View)
    requires v.Active()
    ensures Step(v, DoToken(query)) == Some(w) && w.Active() && w.frame == v.frame
    ensures var n := v.labelSequence;
      Acts(v, w, DoCode(query, n) + EnterCode() + [Label(n + 1)], 3, v.labelStack + [n, n + 1, n + 2],
           v.breakStack + [n + 2])
  {
    hide AllTrue, Emitted, DoCode, EnterCode;
    var n := v.labelSequence;
    var code := DoCode(query, n) + EnterCode() + [Label(n + 1)];
    w := Emitted(v, code, 3).(labelStack := v.labelStack + [n, n + 1, n + 2], breakStack := v.breakStack + [n + 2]);
    EmittedStacks(v, code, 3);
    Writing(v, DoToken(query), w, code, 3, v.labelStack + [n, n + 1, n + 2], v.breakStack + [n + 2]);
  }

  lemma LoopStep(v: View, plus: bool) returns (w: View)
    requires v.Active() && |v.labelStack| >= 3 && v.breakStack != []
    ensures Step(v, if plus then PlusLoopToken else LoopToken) == Some(w)
    ensures var k := |v.labelStack|;
      var skip, top, end := v.labelStack[k - 3], v.labelStack[k - 2], v.labelStack[k - 1];
      var loop := if plus then PlusLoopCode(top, end, v.labelSequence) else LoopCode(top);
      Acts(v, w, loop + [Label(end)] + UnloopCode() + [Label(skip)], if plus then 1 else 0, v.labelStack[..k - 3],
           Popped(v.breakStack))
  {
    hide AllTrue, Emitted, LoopCode, PlusLoopCode, UnloopCode;
    var k := |v.labelStack|;
    var skip, top, end := v.labelStack[k - 3], v.labelStack[k - 2], v.labelStack[k - 1];
    var loop := if plus then PlusLoopCode(top, end, v.labelSequence) else LoopCode(top);
    var code, taken: nat := loop + [Label(end)] + UnloopCode() + [Label(skip)], if plus then 1 else 0;
    w := Emitted(v, code, taken).(labelStack := v.labelStack[..k - 3], breakStack := Popped(v.breakStack));
    Writing(v, if plus then PlusLoopToken else LoopToken, w, code, taken, v.labelStack[..k - 3], Popped(v.breakStack));
  }

  lemma BeginStep(v: View) returns (w: View)
    requires v.Active()
    ensures Step(v, BeginToken) == Some(w) && w.Active() && w.frame == v.frame
    ensures var n := v.labelSequence;
      && w.labelStack == v.labelStack + [n, n + 1] && w.breakStack == v.breakStack + [n + 1]
      && Acts(v, w, [Label(n)], 2, v.labelStack + [n, n + 1], v.breakStack + [n + 1])
  {
    hide AllTrue, Emitted;
    var n := v.labelSequence;
    w := Emitted(v, [Label(n)], 2).(labelStack := v.labelStack + [n, n + 1], breakStack := v.breakStack + [n + 1]);
    Writing(v, BeginToken, w, [Label(n)], 2, v.labelStack + [n, n + 1], v.breakStack + [n + 1]);
  }

  lemma BackStep(v: View, until: bool) returns (w: View)
    requires v.Active() && |v.labelStack| >= 2 && v.breakStack != []
    ensures Step(v, if until then UntilToken else RepeatToken) == Some(w)
    ensures var k := |v.labelStack|; var top, end := v.labelStack[k - 2], v.labelStack[k - 1];
      Acts(v, w, (if until then IfCode(top) else [Jump(top)]) + [Label(end)], 0, v.labelStack[..k - 2],
           Popped(v.breakStack))
  {
    hide AllTrue, Emitted, IfCode;
    var k := |v.labelStack|;
    var top, end := v.labelStack[k - 2], v.labelStack[k - 1];
    var code := (if until then IfCode(top) else [Jump(top)]) + [Label(end)];
    w := Emitted(v, code, 0).(labelStack := v.labelStack[..k - 2], breakStack := Popped(v.breakStack));
    Writing(v, if until then UntilToken else RepeatToken, w, code, 0, v.labelStack[..k - 2], Popped(v.breakStack));
  }

  lemma CaseStep(v: View) returns (w: View)
    requires v.Active()
    ensures Step(v, CaseToken) == Some(w) && w.Active() && w.frame == v.frame
    ensures var n := v.labelSequence; Acts(v, w, [], 1, v.labelStack + [n], v.breakStack + [n])
  {
    hide AllTrue, Emitted;
    var n := v.labelSequence;
    w := Emitted(v, [], 1).(labelStack := v.labelStack + [n], breakStack := v.breakStack + [n]);
    Writing(v, CaseToken, w, [], 1, v.labelStack + [n], v.breakStack + [n]);
  }

  lemma EndcaseStep(v: View) returns (w: View)
    requires v.Active() && v.labelStack != [] && v.breakStack != []
    ensures Step(v, EndcaseToken) == Some(w)
    ensures Acts(v, w, [Label(Last(v.labelStack))] + [Opcode.Pop(R0, DataStack)], 0, Popped(v.labelStack),
                 Popped(v.breakStack))
  {
    hide AllTrue, Emitted;
    var code := [Label(Last(v.labelStack))] + [Opcode.Pop(R0, DataStack)];
    w := Emitted(v, code, 0).(labelStack := Popped(v.labelStack), breakStack := Popped(v.breakStack));
    Writing(v, EndcaseToken, w, code, 0, Popped(v.labelStack), Popped(v.breakStack));
  }

  lemma OfStep(v: View) returns (w: View)
    requires v.Active()
    ensures Step(v, OfToken) == Some(w) && w.Active() && w.frame == v.frame
    ensures var m := v.labelSequence; Acts(v, w, OfCode(m), 1, v.labelStack + [m], v.breakStack)
  {
    hide AllTrue, Emitted, OfCode;
    var m := v.labelSequence;
    w := Emitted(v, OfCode(m), 1).(labelStack := v.labelStack + [m]);
    EmittedStacks(v, OfCode(m), 1);
    Writing(v, OfToken, w, OfCode(m), 1, v.labelStack + [m], v.breakStack);
  }

  lemma EndofStep(v: View) returns (w: View)
    requires v.Active() && v.labelStack != [] && v.breakStack != []
    ensures Step(v, EndofToken) == Some(w) && w.Active() && w.frame == v.frame
    ensures Acts(v, w, [Jump(Last(v.breakStack))] + [Label(Last(v.labelStack))], 0, Popped(v.labelStack), v.breakStack)
  {
    hide AllTrue, Emitted;
    var code := [Jump(Last(v.breakStack))] + [Label(Last(v.labelStack))];
    w := Emitted(v, code, 0).(labelStack := Popped(v.labelStack));
    EmittedStacks(v, code, 0);
    Writing(v, EndofToken, w, code, 0, Popped(v.labelStack), v.breakStack);
  }

  // ----- whole statements -----

  /** A statement that may stand here. */
  predicate Fitting(v: View, s: Stmt) {
    v.Active() && Erasure.Unconditional(s) && (Grammatical(s) || (s.Of? && CaseBody(s) && v.breakStack != []))
  }

  /** The calls for a statement leave both label stacks as they were, errors or
      not, and without errors emit exactly its code. */
  lemma {:induction false} StatementReads(v: View, s: Stmt) returns (w: View)
    requires Fitting(v, s)
    ensures Leads(v, StmtTokens(s), w) && Reads(v, w, s) && Judged(v, w, EventsAt(v, s))
    decreases s, 1
  {
    hide Reads, Leads, AllTrue, Judged, EventsAt;
    if IsSingle(s) {
      w := SingleEffect(v, s);
      SingleReads(v, s);
      SingleLeads(v, s);
      SingleAt(v, s);
    } else if s.Sequence? {
      w := SequenceReads(v, s);
    } else if s.If? {
      w := IfReads(v, s);
    } else if s.IfElse? {
      w := IfElseReads(v, s);
    } else if s.DoLoop? {
      w := DoReads(v, s);
    } else if s.BeginUntil? || s.BeginAgain? {
      w := BeginReads(v, s);
    } else if s.Case? {
      w := CaseReads(v, s);
    } else if s.Of? {
      w := ClauseReads(v, s);
    } else {
      w := v;
      EmptyReads(v, s);
    }
  }

  lemma SingleLeads(v: View, s: Stmt)
    requires v.Active() && IsSingle(s)
    ensures Leads(v, StmtTokens(s), SingleEffect(v, s))
  {
    LeadsOne(v, Single(s), SingleEffect(v, s));
    hide Leads, SingleEffect, AllTrue;
  }

  lemma EmptyReads(v: View, s: Stmt)
    requires v.Active() && s.Empty?
    ensures Leads(v, StmtTokens(s), v) && Reads(v, v, s) && Judged(v, v, EventsAt(v, s))
  {
    EmptyAt(v, s);
    hide EventsAt, Judged;
    LeadsNowhere(v);
    LaterTransitive();
    hide AllTrue, Later, Leads;
  }

  lemma {:induction false} SequenceReads(v: View, s: Stmt) returns (w: View)
    requires s.Sequence? && Fitting(v, s)
    ensures Leads(v, StmtTokens(s), w) && Reads(v, w, s) && Judged(v, w, EventsAt(v, s))
    decreases s, 0
  {
    hide Reads, Leads, AllTrue, Judged, EventsAt;
    var v1 := StatementReads(v, s.first);
    ReadsKeeps(v, v1, s.first);
    w := StatementReads(v1, s.second);
    ReadsSequence(v, v1, w, s);
    SequenceAt(v, v1, w, s);
    LeadsThen(v, StmtTokens(s.first), v1, StmtTokens(s.second), w);
  }

  /** The statement inside a structure leaves the stacks as its opening handler has. */
  lemma KeptInside(v: View, w: View, s: Stmt)
    requires Reads(v, w, s)
    ensures w.frame == v.frame && w.labelStack == v.labelStack && w.breakStack == v.breakStack
    ensures v.Active() ==> w.Active()
  {
  }

  /** A handler that writes stays where it is; only loops and CASE go inside. */
  lemma ActsPlace(v: View, w: View, code: Table, k: int, labels: seq<int>, breaks: seq<int>)
    requires v.Active() && Acts(v, w, code, k, labels, breaks)
    ensures w.frame == v.frame && w.breakStack == breaks
  {
    hide Later;
  }

  lemma {:induction false} IfReads(v: View, s: Stmt) returns (w: View)
    requires s.If? && Fitting(v, s)
    ensures Leads(v, StmtTokens(s), w) && Reads(v, w, s) && Judged(v, w, EventsAt(v, s))
    decreases s, 0
  {
    hide Reads, Leads, AllTrue, Step, IfCode, Wrote;
    var v1 := IfStep(v);
    var v2 := StatementReads(v1, s.thenPart);
    KeptInside(v1, v2, s.thenPart);
    w := ThenStep(v2);
    ActsPlace(v, v1, IfCode(v.labelSequence), 1, v.labelStack + [v.labelSequence], v.breakStack);
    AroundAt(v, IfToken, v1, s.thenPart, v2, ThenToken, w);
    ReadsIf(v, v1, v2, w, s);
    LeadsAround(v, IfToken, v1, StmtTokens(s.thenPart), v2, ThenToken, w);
  }

  lemma IfElseJudged(v: View, v1: View, v2: View, v3: View, v4: View, w: View, s: Stmt)
    requires s.IfElse? && v.Active() && v2.Active() && v4.Active()
    requires v2.labelStack != [] && v2.frame == v1.frame && v2.breakStack == v1.breakStack && v4.frame == v3.frame
    requires Step(v, IfToken) == Some(v1) && Step(v2, ElseToken) == Some(v3) && Step(v4, ThenToken) == Some(w)
    requires var n := v.labelSequence; Acts(v, v1, IfCode(n), 1, v.labelStack + [n], v.breakStack)
    requires var m := v2.labelSequence;
      Acts(v2, v3, [Jump(m), Label(Last(v2.labelStack))], 1, Popped(v2.labelStack) + [m], v2.breakStack)
    requires Judged(v1, v2, EventsAt(v1, s.thenPart)) && Judged(v3, v4, EventsAt(v3, s.elsePart))
    ensures Judged(v, w, EventsAt(v, s))
  {
    hide Judged, Step, AllTrue, IfCode, Acts, Last, Popped;
    ActsPlace(v, v1, IfCode(v.labelSequence), 1, v.labelStack + [v.labelSequence], v.breakStack);
    ActsPlace(v2, v3, [Jump(v2.labelSequence), Label(Last(v2.labelStack))], 1,
              Popped(v2.labelStack) + [v2.labelSequence], v2.breakStack);
    AroundAt(v, IfToken, v1, s.thenPart, v2, ElseToken, v3);
    var c := Claims(AtTopLevel(v));
    BehindAt(v, v3, c + EventsAt(v1, s.thenPart) + c, s.elsePart, v4, ThenToken, w);
  }

  lemma {:induction false} IfElseReads(v: View, s: Stmt) returns (w: View)
    requires s.IfElse? && Fitting(v, s)
    ensures Leads(v, StmtTokens(s), w) && Reads(v, w, s) && Judged(v, w, EventsAt(v, s))
    decreases s, 0
  {
    hide Reads, Leads, AllTrue, Step, IfCode, Wrote;
    var v1 := IfStep(v);
    var v2 := StatementReads(v1, s.thenPart);
    KeptInside(v1, v2, s.thenPart);
    var v3 := ElseStep(v2);
    var v4 := StatementReads(v3, s.elsePart);
    KeptInside(v3, v4, s.elsePart);
    w := ThenStep(v4);
    IfElseJudged(v, v1, v2, v3, v4, w, s);
    ReadsIfElse(v, v1, v2, v3, v4, w, s);
    LeadsAround(v, IfToken, v1, StmtTokens(s.thenPart), v2, ElseToken, v3);
    LeadsThen(v, [IfToken] + StmtTokens(s.thenPart) + [ElseToken], v3, StmtTokens(s.elsePart), v4);
    LeadsOne(v4, ThenToken, w);
    LeadsThen(v, [IfToken] + StmtTokens(s.thenPart) + [ElseToken] + StmtTokens(s.elsePart), v4, [ThenToken], w);
  }

  /** Loops and CASE around a statement. */
  lemma LoopJudged(v: View, first: Token, v1: View, s: Stmt, v2: View, last: Token, w: View)
    requires v.Active() && v2.Active() && IsStructure(first) && IsStructure(last)
    requires Step(v, first) == Some(v1) && Step(v2, last) == Some(w)
    requires v1.frame == v.frame && v2.frame == v1.frame && v1.breakStack != [] && Judged(v1, v2, EventsAt(v1, s))
    ensures var top := AtTopLevel(v);
      Judged(v, w, Claims(top) + StmtEvents(v.frame.definitions, top, true, s) + Claims(top))
  {
    hide Judged, Step, AllTrue;
    AroundAt(v, first, v1, s, v2, last, w);
  }

  lemma {:induction false} DoReads(v: View, s: Stmt) returns (w: View)
    requires s.DoLoop? && Fitting(v, s)
    ensures Leads(v, StmtTokens(s), w) && Reads(v, w, s) && Judged(v, w, EventsAt(v, s))
    decreases s, 0
  {
    hide Reads, Leads, AllTrue, Step, Wrote, DoCode, EnterCode, LoopCode, PlusLoopCode, UnloopCode;
    var v1 := DoStep(v, s.query);
    var v2 := StatementReads(v1, s.body);
    KeptInside(v1, v2, s.body);
    w := LoopStep(v2, s.plus);
    LoopJudged(v, DoToken(s.query), v1, s.body, v2, if s.plus then PlusLoopToken else LoopToken, w);
    ReadsDo(v, v1, v2, w, s);
    LeadsAround(v, DoToken(s.query), v1, StmtTokens(s.body), v2, if s.plus then PlusLoopToken else LoopToken, w);
  }

  lemma {:induction false} BeginReads(v: View, s: Stmt) returns (w: View)
    requires (s.BeginUntil? || s.BeginAgain?) && Fitting(v, s)
    ensures Leads(v, StmtTokens(s), w) && Reads(v, w, s) && Judged(v, w, EventsAt(v, s))
    decreases s, 0
  {
    hide Reads, Leads, AllTrue, Step, Acts, IfCode, Judged, EventsAt, StmtEvents;
    var v1 := BeginStep(v);
    var v2 := StatementReads(v1, s.body);
    KeptInside(v1, v2, s.body);
    w := BackStep(v2, s.BeginUntil?);
    LoopEvents(v, s);
    LoopJudged(v, BeginToken, v1, s.body, v2, if s.BeginUntil? then UntilToken else RepeatToken, w);
    ReadsBegin(v, v1, v2, w, s);
    LeadsAround(v, BeginToken, v1, StmtTokens(s.body), v2, if s.BeginUntil? then UntilToken else RepeatToken, w);
  }

  lemma {:induction false} CaseReads(v: View, s: Stmt) returns (w: View)
    requires s.Case? && Fitting(v, s)
    ensures Leads(v, StmtTokens(s), w) && Reads(v, w, s) && Judged(v, w, EventsAt(v, s))
    decreases s, 0
  {
    hide Reads, Leads, AllTrue, Step, Wrote;
    var v1 := CaseStep(v);
    var v2 := StatementReads(v1, s.body);
    KeptInside(v1, v2, s.body);
    w := EndcaseStep(v2);
    LoopJudged(v, CaseToken, v1, s.body, v2, EndcaseToken, w);
    ReadsCase(v, v1, v2, w, s);
    LeadsAround(v, CaseToken, v1, StmtTokens(s.body), v2, EndcaseToken, w);
  }

  lemma RestFits(v: View, s: Stmt, w: View)
    requires s.Of? && Fitting(v, s) && w.Active() && w.breakStack == v.breakStack
    ensures Fitting(w, s.rest)
  {
    assert CaseBody(s.rest);
    hide AllTrue;
  }

  lemma ClauseJudged(v: View, v1: View, v2: View, v3: View, v4: View, w: View, s: Stmt)
    requires s.Of? && v1.Active() && v3.Active() && Step(v1, OfToken) == Some(v2) && Step(v3, EndofToken) == Some(v4)
    requires v1.frame == v.frame && v2.frame == v.frame && v3.frame == v.frame && v4.frame == v.frame
    requires v1.breakStack == v.breakStack && v2.breakStack == v.breakStack && v4.breakStack == v.breakStack
    requires Judged(v, v1, EventsAt(v, s.test)) && Judged(v2, v3, EventsAt(v2, s.body))
    requires Judged(v4, w, EventsAt(v4, s.rest))
    ensures Judged(v, w, EventsAt(v, s))
  {
    StructureJudged(v1, OfToken, v2);
    JudgedGrows(v1, v2, Claims(AtTopLevel(v)));
    JudgedGrows(v4, w, EventsAt(v4, s.rest));
    hide Judged, Step, AllTrue;
    var c := Claims(AtTopLevel(v));
    JudgedThen(v, v1, v2, EventsAt(v, s.test), c);
    BehindAt(v, v2, EventsAt(v, s.test) + c, s.body, v3, EndofToken, v4);
    JudgedThen(v, v4, w, EventsAt(v, s.test) + c + EventsAt(v2, s.body) + c, EventsAt(v4, s.rest));
  }

  lemma {:induction false} ClauseReads(v: View, s: Stmt) returns (w: View)
    requires s.Of? && Fitting(v, s)
    ensures Leads(v, StmtTokens(s), w) && Reads(v, w, s) && Judged(v, w, EventsAt(v, s))
    decreases s, 0
  {
    hide Reads, Leads, AllTrue, Step, Wrote, OfCode;
    var v1 := StatementReads(v, s.test);
    KeptInside(v, v1, s.test);
    var v2 := OfStep(v1);
    var v3 := StatementReads(v2, s.body);
    KeptInside(v2, v3, s.body);
    var v4 := EndofStep(v3);
    AfterClause(v1, v2, v3, v4);
    RestFits(v, s, v4);
    w := StatementReads(v4, s.rest);
    ClauseJudged(v, v1, v2, v3, v4, w, s);
    ReadsClause(v, v1, v2, v3, v4, w, s);
    var test, body, rest := StmtTokens(s.test), StmtTokens(s.body), StmtTokens(s.rest);
    LeadsOne(v1, OfToken, v2);
    LeadsThen(v, test, v1, [OfToken], v2);
    LeadsThen(v, test + [OfToken], v2, body, v3);
    LeadsOne(v3, EndofToken, v4);
    LeadsThen(v, test + [OfToken] + body, v3, [EndofToken], v4);
    LeadsThen(v, test + [OfToken] + body + [EndofToken], v4, rest, w);
  }

  // ----- whole sources -----

  lemma {:induction false} LinesLead(v: View, lines: seq<string>)
    requires v.Active()
    ensures Leads(v, LineTokens(lines), v.(table := v.table + LineCode(Written(lines))))
    decreases |lines|
  {
    hide LineCode, AllTrue, CodePart;
    if lines == [] {
      LeadsNowhere(v);
      NoLines(v);
    } else {
      var front, line := lines[..|lines| - 1], lines[|lines| - 1];
      var w := v.(table := v.table + LineCode(Written(front)));
      LinesLead(v, front);
      LineStep(w, line);
      LinesAdded(v, lines);
      LeadsThen(v, LineTokens(front), w, [LineToken(line)], LineAdded(w, line));
      hide Leads;
    }
  }

  lemma LinesAdded(v: View, lines: seq<string>)
    requires lines != []
    ensures var front, line := lines[..|lines| - 1], lines[|lines| - 1];
      LineAdded(v.(table := v.table + LineCode(Written(front))), line) ==
        v.(table := v.table + LineCode(Written(lines)))
  {
    hide LineCode, CodePart;
    var front, line := lines[..|lines| - 1], lines[|lines| - 1];
    LineCodeThen(Written(front), CodePart(line));
    var code := LineCode(Written(front));
    assert v.table + (code + [Assembly(CodePart(line))]) == (v.table + code) + [Assembly(CodePart(line))];
    assert Written(front) + [] == Written(front);
  }

  lemma NoLines(v: View)
    ensures v.table + LineCode(Written([])) == v.table
  {
  }

  function LineAdded(v: View, line: string): View {
    if CodePart(line) == "" then v else v.(table := v.table + [Assembly(CodePart(line))])
  }

  lemma LineStep(v: View, line: string)
    requires v.Active()
    ensures Leads(v, [LineToken(line)], LineAdded(v, line))
  {
    LeadsOne(v, LineToken(line), LineAdded(v, line));
    hide Leads, AllTrue, CodePart;
  }

  /** A source that may stand here. */
  predicate SourceFits(v: View, s: Source) {
    v.Active() && AtTop(v) && Lawful(s) && Erasure.UnconditionalSource(s)
  }

  /** The calls for a source leave the parser where it was, errors or not; without
      errors they emit exactly the code of the source and give its names. */
  lemma {:induction false} SourceConsumes(v: View, s: Source) returns (w: View)
    requires SourceFits(v, s)
    ensures Leads(v, SourceTokens(s), w) && Consumes(v, w, s) && Settled(v, w, s) && AtTop(w) && w.Active()
    decreases s
  {
    hide Leads, AllTrue, Consumes, Settled, Reads, AtTop, Grammatical, Judged, EventsAt;
    if s.Both? {
      var v1 := SourceConsumes(v, s.first);
      w := SourceConsumes(v1, s.second);
      SameDefinitions(v, v1, s.first);
      BothSettled(v, v1, w, s);
      ConsumesBoth(v, v1, w, s);
      LeadsThen(v, SourceTokens(s.first), v1, SourceTokens(s.second), w);
    } else if s.Definition? || s.Noname? {
      w := WordConsumes(v, s);
    } else if s.Assembler? {
      w := CodeConsumes(v, s);
    } else if s.Declaration? {
      w := Named(v, s.name);
      VariableLeads(v, s);
      ConsumesDeclaration(v, w, s);
      DeclarationSettled(v, s);
    } else if s.Statement? {
      w := StatementReads(v, s.body);
      ConsumesStatement(v, w, s);
      TopPlace(v);
      StatementSettled(v, w, s);
    } else {
      w := v;
      LeadsNowhere(v);
      NothingSettled(v, s);
      ConsumesNothing(v, s);
    }
    StaysAtTop(v, w, s);
    ConsumesActive(v, w, s);
  }

  lemma SameDefinitions(v: View, w: View, s: Source)
    requires Consumes(v, w, s)
    ensures w.frame.definitions == v.frame.definitions
  {
  }

  lemma TopPlace(v: View)
    requires AtTop(v)
    ensures AtTopLevel(v) && v.breakStack == []
  {
  }

  lemma ConsumesActive(v: View, w: View, s: Source)
    requires Consumes(v, w, s) && v.Active()
    ensures w.Active()
  {
  }

  lemma VariableLeads(v: View, s: Source)
    requires v.Active() && s.Declaration?
    ensures Leads(v, SourceTokens(s), Named(v, s.name))
  {
    LeadsOne(v, VariableToken(s.name), Named(v, s.name));
    hide Leads, AllTrue, Named;
  }

  lemma WordConsumes(v: View, s: Source) returns (w: View)
    requires (s.Definition? || s.Noname?) && SourceFits(v, s)
    ensures Leads(v, SourceTokens(s), w) && Consumes(v, w, s) && Settled(v, w, s)
  {
    var first := if s.Noname? then NonameToken(s.name) else ColonToken(s.name);
    var v1 := Opened(v, s.name, s.Noname?);
    assert Step(v, first) == Some(v1);
    hide Leads, AllTrue, Consumes, Settled, Reads, Judged, EventsAt;
    var v2 := StatementReads(v1, s.body);
    StacksInside(v, v2, s.name, s.body, s.Noname?);
    w := Ended(v2);
    SemicolonStep(v2);
    WordSettled(v, v1, v2, w, s);
    hide Opened, Step, Ended;
    ConsumesWord(v, v2, w, s);
    LeadsAround(v, first, v1, StmtTokens(s.body), v2, SemicolonToken, w);
  }

  lemma SemicolonStep(v: View)
    requires v.Active() && v.labelStack != []
    ensures Step(v, SemicolonToken) == Some(Ended(v))
  {
    hide AllTrue, Ended;
  }

  lemma CodeConsumes(v: View, s: Source) returns (w: View)
    requires s.Assembler? && SourceFits(v, s)
    ensures Leads(v, SourceTokens(s), w) && Consumes(v, w, s) && Settled(v, w, s)
  {
    var v1 := CodeOpened(v, s.name);
    var v2 := v1.(table := v1.table + LineCode(Written(s.lines)));
    w := if v2.frame.currentDefinition.None? then v2
      else v2.(frame := v2.frame.(currentDefinition := None),
               table := v2.table + [EndDefine(v2.frame.currentDefinition.value)]);
    LinesLead(v1, s.lines);
    CodeSteps(v, s.name, v2, w);
    hide Leads, AllTrue, Consumes, Settled, Step, LineCode, Written;
    ConsumesAssembler(v, v2, w, s);
    AssemblerSettled(v, w, s);
    LeadsAround(v, CodeToken(s.name), v1, LineTokens(s.lines), v2, EndCodeToken, w);
  }

  lemma CodeSteps(v: View, x: Symbol, v2: View, w: View)
    requires v.Active() && v2.Active()
    requires w == if v2.frame.currentDefinition.None? then v2
      else v2.(frame := v2.frame.(currentDefinition := None),
               table := v2.table + [EndDefine(v2.frame.currentDefinition.value)])
    ensures Step(v, CodeToken(x)) == Some(CodeOpened(v, x)) && Step(v2, EndCodeToken) == Some(w)
  {
    hide AllTrue, CodeOpened;
  }

  /** The table holds the code of the source, whose definitions have distinct names. */
  ghost predicate Compiles(v: View, s: Source) {
    var d := v.frame.definitions;
    && v.table == Raw(d, s, 1) && v.labelSequence == 1 + LabelCount(d, s)
    && Sound(d, s) && Distinct(BlockNames(AllBlocks(d, s)))
  }

  /** What the parser comes to on the calls for a source: unless it has given up,
      nothing is left open, so that its last checks never complain; and without
      complaints the table holds the code of the source. */
  lemma SourceFinishes(definitions: set<string>, s: Source)
    requires Lawful(s) && Erasure.UnconditionalSource(s)
    ensures Drive(true, Initial(definitions), SourceTokens(s)).Some?
    ensures var w := Drive(true, Initial(definitions), SourceTokens(s)).value;
      && (Finished(w).notes.errors == 0 <==> Clear(SourceEvents(definitions, s)))
      && (!Excessive(w) ==> Finished(w) == w && Closed(w))
      && (Finished(w).notes.errors == 0 ==>
          Finished(w) == w && Closed(w) && Compiles(w, s) && w.frame.definitions == definitions)
  {
    var v := Initial(definitions);
    var w := SourceConsumes(v, s);
    LimitedRun(v, SourceTokens(s));
    FinishesWell(v, w, s);
    SettledClear(v, w, s);
    var run := Drive(true, v, SourceTokens(s)).value;
    if run.notes.errors >= 20 { ExcessiveFails(run); }
    hide Drive, Finished, Consumes, Compiles, Clear;
  }

  lemma ExcessiveFails(v: View)
    requires v.notes.errors >= 20
    ensures Finished(v).notes.errors > 0
  {
  }

  lemma FinishesWell(v: View, w: View, s: Source)
    requires v == Initial(v.frame.definitions) && Consumes(v, w, s)
    ensures SamePlace(v, w) && Closed(w) && (if Excessive(w) then Finished(w).notes.errors > 0 else Finished(w) == w)
    ensures w.notes.errors == 0 ==> Compiles(w, s)
  {
    if w.notes.errors == 0 {
      FinishedNames(v, w, s);
    }
    hide Raw, AllBlocks, Fresh, MainCode;
  }
}
