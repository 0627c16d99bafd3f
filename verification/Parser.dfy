/** The parser's handlers and their label, break and condition stacks. */
module Parsing {
  import opened Letters
  import opened Options
  import opened Machine
  import opened Statements
  import opened Elements
  import opened AssemblerLines
  import opened ParserStates
  import opened Tokens

  class Parser {
    const definitions: set<string>

    var labelSequence: int
    var exitLabel: int
    var labelStack: seq<int>
    var breakStack: seq<int>
    var condStack: seq<bool>
    var currentDefinition: Option<Symbol>
    var anonymous: bool
    var implicitMain: bool
    var symbols: set<Symbol>
    var errorCount: nat
    var table: Table

    constructor (definitions: set<string>)
      ensures Now() == Initial(definitions)
    {
      this.definitions := definitions;
      labelSequence, exitLabel, currentDefinition, anonymous := 1, 0, None, false;
      labelStack, breakStack, condStack := [], [], [];
      implicitMain, symbols, errorCount, table := false, {}, 0, [];
    }

    /** The state as a value. */
    ghost function Now(): View
      reads this
    {
      View(Frame(definitions, exitLabel, currentDefinition, anonymous, condStack), labelSequence, labelStack,
           breakStack, Notebook(implicitMain, symbols, errorCount), table)
    }

    predicate CondState()
      reads this`condStack
    {
      AllTrue(condStack)
    }

    method DetectMain()
      modifies this`symbols, this`implicitMain, this`errorCount
      ensures Now() == Detected(old(Now())) && Wrote(old(Now()), Now(), [], 0)
      ensures if old(currentDefinition).Some? || old(implicitMain) then Now() == old(Now())
        else
          && implicitMain && symbols == old(symbols) + {"main"}
          && errorCount == old(errorCount) + if "main" in old(symbols) then 1 else 0
      ensures currentDefinition.Some? || implicitMain
    {
      if currentDefinition.Some? || implicitMain {
        return;
      }
      if MAIN in symbols {
        errorCount := errorCount + 1;
      } else {
        symbols := symbols + {MAIN};
      }
      implicitMain := true;
    }

    method NewLabel() returns (n: int)
      modifies this`labelSequence
      ensures n == old(labelSequence) && labelSequence == n + 1
    {
      n := labelSequence;
      labelSequence := labelSequence + 1;
    }

    method Emit(code: Table)
      modifies this`table
      ensures table == old(table) + code
    {
      table := table + code;
    }

    // ----- handlers of single tokens -----

    method FIntegerLiteral(v: int)
      modifies this
      ensures old(CondState()) ==> table == old(table) + [LoadValue(R0, v), Push(R0, DataStack)]
      ensures Step(old(Now()), Single(Literal(v))) == Some(Now())
    {
      hide AllTrue;
      if !CondState() { return; }
      DetectMain();
      Emit([LoadValue(R0, v), Push(R0, DataStack)]);
    }

    method FFloatLiteral(bits: int)
      modifies this
      ensures old(CondState()) ==> table == old(table) + [LoadValue(R0, bits), Push(R0, FloatStack)]
      ensures Step(old(Now()), Single(FloatLiteral(bits))) == Some(Now())
    {
      hide AllTrue;
      if !CondState() { return; }
      DetectMain();
      Emit([LoadValue(R0, bits), Push(R0, FloatStack)]);
    }

    /** A name; which opcodes it takes depends on what it names. */
    method FWord(s: Stmt)
      requires s.Word? || s.Address? || s.Constant? || s.FloatConstant?
      modifies this
      ensures old(CondState()) ==> s.symbol in symbols && table == old(table) + Code(old(Now()).Here(), s, 0)
      ensures Step(old(Now()), Single(s)) == Some(Now())
    {
      hide AllTrue, Step, Effect;
      SingleStep(Now(), s);
      if !CondState() { return; }
      DetectMain();
      symbols := symbols + {s.symbol};
      if s.Address? {
        Emit([LoadSymbol(R0, s.symbol), Push(R0, DataStack)]);
      } else if s.Constant? {
        Emit([LoadSymbolIndirect(R0, s.symbol), Push(R0, DataStack)]);
      } else if s.FloatConstant? {
        Emit([LoadSymbolIndirect(R0, s.symbol), Push(R0, FloatStack)]);
      } else {
        Emit([Call(s.symbol)]);
      }
    }

    method FDefinedConstant(x: Symbol, float: bool)
      modifies this
      ensures old(CondState()) && x in old(symbols) ==> errorCount == old(errorCount) + 1 && table == old(table)
      ensures old(CondState()) && x !in old(symbols) ==>
        x in symbols
        && table == old(table) + [Pop(R0, if float then FloatStack else DataStack), StoreSymbolIndirect(R0, x)]
      ensures Step(old(Now()), Single(if float then SetFloatConstant(x) else SetConstant(x))) == Some(Now())
    {
      hide AllTrue, Step, Effect;
      SingleStep(Now(), if float then SetFloatConstant(x) else SetConstant(x));
      if !CondState() { return; }
      if x in symbols {
        errorCount := errorCount + 1;
        return;
      }
      symbols := symbols + {x};
      DetectMain();
      Emit([Pop(R0, if float then FloatStack else DataStack), StoreSymbolIndirect(R0, x)]);
    }

    method FCstring(d: int)
      modifies this
      ensures old(CondState()) ==> table == old(table) + [LoadData(R0, d), Push(R0, DataStack)]
      ensures Step(old(Now()), Single(CountedString(d))) == Some(Now())
    {
      hide AllTrue;
      if !CondState() { return; }
      DetectMain();
      Emit([LoadData(R0, d), Push(R0, DataStack)]);
    }

    method FStringLiteral(d: int, size: int)
      modifies this
      ensures old(CondState()) ==> table == old(table) + StringCode(d, size)
      ensures Step(old(Now()), Single(StringLiteral(d, size))) == Some(Now())
    {
      hide AllTrue;
      if !CondState() { return; }
      DetectMain();
      EmitString(d, size);
    }

    /** Address and size of a string, as four opcodes. */
    method EmitString(d: int, size: int)
      modifies this`table
      ensures table == old(table) + StringCode(d, size)
    {
      Emit([LoadData(R0, d), Push(R0, DataStack)]);
      Emit([LoadValue(R0, size), Push(R0, DataStack)]);
      assert StringCode(d, size) == [LoadData(R0, d), Push(R0, DataStack)] + [LoadValue(R0, size), Push(R0, DataStack)];
    }

    method FPstring(d: int, size: int)
      modifies this
      ensures old(CondState()) ==> table == old(table) + (StringCode(d, size) + [Call(TYPE_WORD)])
      ensures Step(old(Now()), Single(PrintString(d, size))) == Some(Now())
    {
      hide AllTrue, StringCode, Step, Effect;
      SingleStep(Now(), PrintString(d, size));
      if !CondState() { return; }
      symbols := symbols + {TYPE_WORD};
      DetectMain();
      EmitString(d, size);
      Emit([Call(TYPE_WORD)]);
      assert table == old(table) + (StringCode(d, size) + [Call(TYPE_WORD)]);
    }

    method FAstring(d: int, size: int)
      modifies this
      ensures var n := old(labelSequence);
        old(CondState()) ==> table == old(table) + (IfCode(n) + StringCode(d, size) + [Call(ABORT_WORD)] + [Label(n)])
      ensures Step(old(Now()), Single(AbortString(d, size))) == Some(Now())
    {
      hide AllTrue, StringCode, IfCode, Code, Step, Effect;
      SingleStep(Now(), AbortString(d, size));
      if !CondState() { return; }
      symbols := symbols + {ABORT_WORD};
      var noAbort := NewLabel();
      DetectMain();
      EmitAbort(d, size, noAbort);
      CodeOfAbort(old(Now()).Here(), d, size, noAbort);
    }

    /** For a true flag, the string and the call of the word that aborts. */
    method EmitAbort(d: int, size: int, noAbort: int)
      modifies this`table
      ensures table == old(table) + (IfCode(noAbort) + StringCode(d, size) + [Call(ABORT_WORD)] + [Label(noAbort)])
    {
      hide StringCode;
      Emit([Pop(R0, DataStack), Branch(Zero(R0), noAbort)]);
      EmitString(d, size);
      Emit([Call(ABORT_WORD)]);
      Emit([Label(noAbort)]);
      AbortChain(old(table), d, size, noAbort);
    }

    static lemma AbortChain(before: Table, d: int, size: int, n: int)
      ensures before + [Opcode.Pop(R0, DataStack), Branch(Zero(R0), n)] + StringCode(d, size) + [Call(ABORT_WORD)]
        + [Label(n)]
        == before + (IfCode(n) + StringCode(d, size) + [Call(ABORT_WORD)] + [Label(n)])
    {
      hide StringCode;
    }

    method FExit()
      modifies this
      ensures old(CondState()) ==> table == old(table) + [Jump(exitLabel)]
      ensures Step(old(Now()), Single(Exit)) == Some(Now())
    {
      hide AllTrue;
      if !CondState() { return; }
      DetectMain();
      Emit([Jump(exitLabel)]);
    }

    method FRecurse()
      modifies this
      ensures old(CondState()) && currentDefinition.None? ==> errorCount == old(errorCount) + 1 && table == old(table)
      ensures old(CondState()) && currentDefinition.Some? ==> table == old(table) + [Call(currentDefinition.value)]
      ensures Step(old(Now()), Single(Recurse)) == Some(Now())
    {
      hide AllTrue;
      if !CondState() { return; }
      if currentDefinition.None? {
        errorCount := errorCount + 1;
        return;
      }
      DetectMain();
      Emit([Call(currentDefinition.value)]);
    }

    method FLeave()
      modifies this
      ensures old(CondState()) && breakStack == [] ==> errorCount == old(errorCount) + 1 && table == old(table)
      ensures old(CondState()) && breakStack != [] ==> table == old(table) + [Jump(Last(breakStack))]
      ensures Step(old(Now()), Single(Leave)) == Some(Now())
    {
      hide AllTrue;
      if !CondState() { return; }
      if breakStack == [] {
        errorCount := errorCount + 1;
        return;
      }
      DetectMain();
      Emit([Jump(Last(breakStack))]);
    }

    method FQueryLeave()
      modifies this
      ensures old(CondState()) && breakStack == [] ==> errorCount == old(errorCount) + 1 && table == old(table)
      ensures old(CondState()) && breakStack != [] ==>
        table == old(table) + [Pop(R0, DataStack), Branch(NonZero(R0), Last(breakStack))]
      ensures Step(old(Now()), Single(QueryLeave)) == Some(Now())
    {
      hide AllTrue;
      if !CondState() { return; }
      if breakStack == [] {
        errorCount := errorCount + 1;
        return;
      }
      DetectMain();
      Emit([Pop(R0, DataStack), Branch(NonZero(R0), Last(breakStack))]);
    }

    method FWhile()
      modifies this
      ensures old(CondState()) && breakStack == [] ==> errorCount == old(errorCount) + 1 && table == old(table)
      ensures old(CondState()) && breakStack != [] ==>
        table == old(table) + [Pop(R0, DataStack), Branch(Zero(R0), Last(breakStack))]
      ensures Step(old(Now()), Single(While)) == Some(Now())
    {
      hide AllTrue;
      if !CondState() { return; }
      if breakStack == [] {
        errorCount := errorCount + 1;
        return;
      }
      DetectMain();
      Emit([Pop(R0, DataStack), Branch(Zero(R0), Last(breakStack))]);
    }

    // ----- handlers of structures -----

    method FIf()
      modifies this
      ensures var n := old(labelSequence);
        Acts(old(Now()), Now(), IfCode(n), 1, old(labelStack) + [n], old(breakStack))
      ensures Step(old(Now()), IfToken) == Some(Now())
    {
      hide AllTrue;
      if !CondState() { return; }
      var n := NewLabel();
      labelStack := labelStack + [n];
      DetectMain();
      Emit([Pop(R0, DataStack), Branch(Zero(R0), Last(labelStack))]);
    }

    method FThenEndif()
      requires CondState() ==> labelStack != []
      modifies this
      ensures old(CondState()) ==>
        Acts(old(Now()), Now(), [Label(Last(old(labelStack)))], 0, Popped(old(labelStack)), old(breakStack))
      ensures !old(CondState()) ==> Now() == old(Now())
      ensures Step(old(Now()), ThenToken) == Some(Now())
    {
      hide AllTrue;
      if !CondState() { return; }
      DetectMain();
      Emit([Label(Last(labelStack))]);
      labelStack := Popped(labelStack);
    }

    method FElse()
      requires CondState() ==> labelStack != []
      modifies this
      ensures old(CondState()) ==>
        Acts(old(Now()), Now(), [Jump(old(labelSequence)), Label(Last(old(labelStack)))], 1,
             Popped(old(labelStack)) + [old(labelSequence)], old(breakStack))
      ensures !old(CondState()) ==> Now() == old(Now())
      ensures Step(old(Now()), ElseToken) == Some(Now())
    {
      hide AllTrue;
      if !CondState() { return; }
      var over := Last(labelStack);
      labelStack := Popped(labelStack);
      var n := NewLabel();
      labelStack := labelStack + [n];
      DetectMain();
      Emit([Jump(Last(labelStack)), Label(over)]);
    }

    method FDo(query: bool)
      modifies this
      ensures var n := old(labelSequence);
        Acts(old(Now()), Now(), DoCode(query, n) + EnterCode() + [Label(n + 1)], 3,
             old(labelStack) + [n, n + 1, n + 2], old(breakStack) + [n + 2])
      ensures Step(old(Now()), DoToken(query)) == Some(Now())
    {
      hide AllTrue, DoCode, EnterCode;
      if !CondState() { return; }
      DetectMain();
      EmitDo(query);
    }

    /** Take limit and start, with ?DO skip the loop when they are equal, and enter it. */
    method EmitDo(query: bool)
      modifies this`table, this`labelSequence, this`labelStack, this`breakStack
      ensures var n := old(labelSequence);
        && labelSequence == n + 3 && table == old(table) + (DoCode(query, n) + EnterCode() + [Label(n + 1)])
        && labelStack == old(labelStack) + [n, n + 1, n + 2] && breakStack == old(breakStack) + [n + 2]
    {
      hide EnterCode;
      Emit([Pop(R1, DataStack), Pop(R0, DataStack)]);
      var skip := NewLabel();
      labelStack := labelStack + [skip];
      if query {
        Emit([Branch(Equal(R0, R1), Last(labelStack))]);
      }
      assert table == old(table) + DoCode(query, skip);
      hide DoCode;
      EnterIs();
      Emit([Push(R0, ReturnStack), Push(R1, ReturnStack)]);
      var top := NewLabel();
      labelStack := labelStack + [top];
      Emit([Label(Last(labelStack))]);
      var end := NewLabel();
      labelStack := labelStack + [end];
      breakStack := breakStack + [Last(labelStack)];
    }

    static lemma EnterIs()
      ensures EnterCode() == [Push(R0, ReturnStack), Push(R1, ReturnStack)]
    {
    }

    /** The common end of LOOP and +LOOP, once the branches are out. */
    method EndLoop(end: int)
      requires labelStack != [] && breakStack != []
      modifies this`table, this`labelStack, this`breakStack
      ensures table == old(table) + ([Label(end)] + UnloopCode() + [Label(Last(old(labelStack)))])
      ensures labelStack == Popped(old(labelStack)) && breakStack == Popped(old(breakStack))
    {
      Emit([Label(end)]);
      Emit([Pop(R0, ReturnStack), Pop(R0, ReturnStack)]);
      Emit([Label(Last(labelStack))]);
      labelStack := Popped(labelStack);
      breakStack := Popped(breakStack);
    }

    /** Count, compare, and branch back. */
    method EmitLoop(top: int)
      modifies this`table
      ensures table == old(table) + LoopCode(top)
    {
      hide LoopCode;
      Emit([Pop(R1, ReturnStack), AddValue(R1, 1)]);
      Emit([Pop(R0, ReturnStack), Push(R0, ReturnStack), Push(R1, ReturnStack), SubtractRegister(R1, R0)]);
      Emit([Branch(NonZero(R1), top)]);
      LoopChain(old(table), top);
    }

    method FLoop()
      requires CondState() ==> |labelStack| >= 3 && breakStack != []
      modifies this
      ensures old(CondState()) ==>
        var k := |old(labelStack)|;
        var skip, top, end := old(labelStack)[k - 3], old(labelStack)[k - 2], old(labelStack)[k - 1];
        Acts(old(Now()), Now(), LoopCode(top) + [Label(end)] + UnloopCode() + [Label(skip)], 0,
             old(labelStack)[..k - 3], Popped(old(breakStack)))
      ensures !old(CondState()) ==> Now() == old(Now())
      ensures Step(old(Now()), LoopToken) == Some(Now())
    {
      hide AllTrue, UnloopCode, LoopCode, Step, Effect;
      LoopEffect(Now());
      if !CondState() { return; }
      var end := Last(labelStack);
      labelStack := Popped(labelStack);
      DetectMain();
      EmitLoop(Last(labelStack));
      labelStack := Popped(labelStack);
      EndLoop(end);
    }

    method FPlusLoop()
      requires CondState() ==> |labelStack| >= 3 && breakStack != []
      modifies this
      ensures old(CondState()) ==>
        var k := |old(labelStack)|;
        var skip, top, end := old(labelStack)[k - 3], old(labelStack)[k - 2], old(labelStack)[k - 1];
        Acts(old(Now()), Now(),
             PlusLoopCode(top, end, old(labelSequence)) + [Label(end)] + UnloopCode() + [Label(skip)], 1,
               old(labelStack)[..k - 3], Popped(old(breakStack)))
      ensures !old(CondState()) ==> Now() == old(Now())
      ensures Step(old(Now()), PlusLoopToken) == Some(Now())
    {
      hide AllTrue, UnloopCode, PlusLoopCode, Step, Effect;
      LoopEffect(Now());
      if !CondState() { return; }
      var end := Last(labelStack);
      labelStack := Popped(labelStack);
      DetectMain();
      EmitPlusLoop(Last(labelStack), end);
      labelStack := Popped(labelStack);
      EndLoop(end);
    }

    /** Count by the top of the stack; two ways to compare, by the sign of the step. */
    method EmitPlusLoop(top: int, end: int)
      modifies this`table, this`labelSequence
      ensures table == old(table) + PlusLoopCode(top, end, old(labelSequence))
      ensures labelSequence == old(labelSequence) + 1
    {
      hide PlusLoopCode;
      Emit([Pop(R0, DataStack), Pop(R1, ReturnStack), AddRegister(R1, R0)]);
      var reverse := NewLabel();
      Emit([Branch(Less(R0), reverse)]);
      Emit([Pop(R0, ReturnStack), Push(R0, ReturnStack), Push(R1, ReturnStack), SubtractRegister(R1, R0)]);
      Emit([Branch(Less(R1), top), Jump(end)]);
      Emit([Label(reverse)]);
      Emit([Pop(R0, ReturnStack), Push(R0, ReturnStack), Push(R1, ReturnStack), SubtractRegister(R1, R0)]);
      Emit([Branch(GreaterEqual(R1), top)]);
      PlusLoopChain(old(table), top, end, reverse);
    }

    /** The pieces of LOOP and of +LOOP, one after the other. */
    static lemma LoopChain(before: Table, top: int)
      ensures before + [Pop(R1, ReturnStack), AddValue(R1, 1)] + CompareCode() + [Branch(NonZero(R1), top)] ==
        before + LoopCode(top)
    {
      hide CompareCode;
    }

    static lemma PlusLoopChain(before: Table, top: int, end: int, reverse: int)
      ensures before + [Pop(R0, DataStack), Pop(R1, ReturnStack), AddRegister(R1, R0)] + [Branch(Less(R0), reverse)]
        + CompareCode() + [Branch(Less(R1), top), Jump(end)]
        + [Label(reverse)] + CompareCode() + [Branch(GreaterEqual(R1), top)]
        == before + PlusLoopCode(top, end, reverse)
    {
      hide CompareCode;
    }

    method FBegin()
      modifies this
      ensures var n := old(labelSequence);
        Acts(old(Now()), Now(), [Label(n)], 2, old(labelStack) + [n, n + 1], old(breakStack) + [n + 1])
      ensures Step(old(Now()), BeginToken) == Some(Now())
    {
      hide AllTrue, Wrote, Later, Step, Effect;
      BeginEffect(Now());
      if !CondState() { return; }
      DetectMain();
      var n := NewLabel();
      labelStack := labelStack + [n];
      Emit([Label(Last(labelStack))]);
      n := NewLabel();
      labelStack := labelStack + [n];
      breakStack := breakStack + [Last(labelStack)];
      ghost var first := old(labelSequence);
      assert labelStack == old(labelStack) + [first, first + 1];
      EmittedActs(old(Now()), [Label(first)], 2, labelStack, breakStack);
    }

    method FUntil()
      requires CondState() ==> |labelStack| >= 2 && breakStack != []
      modifies this
      ensures old(CondState()) ==>
        var k := |old(labelStack)|; var top, end := old(labelStack)[k - 2], old(labelStack)[k - 1];
        Acts(old(Now()), Now(), IfCode(top) + [Label(end)], 0, old(labelStack)[..k - 2], Popped(old(breakStack)))
      ensures !old(CondState()) ==> Now() == old(Now())
      ensures Step(old(Now()), UntilToken) == Some(Now())
    {
      hide AllTrue, Wrote, Later, Step, Effect;
      BackEffect(Now());
      if !CondState() { return; }
      var end := Last(labelStack);
      labelStack := Popped(labelStack);
      DetectMain();
      Emit([Pop(R0, DataStack), Branch(Zero(R0), Last(labelStack))]);
      labelStack := Popped(labelStack);
      Emit([Label(end)]);
      breakStack := Popped(breakStack);
      ghost var top := old(labelStack)[|old(labelStack)| - 2];
      assert table == old(Detected(Now()).table) + (IfCode(top) + [Label(end)]);
      EmittedActs(old(Now()), IfCode(top) + [Label(end)], 0, labelStack, breakStack);
    }

    method FRepeatAgain()
      requires CondState() ==> |labelStack| >= 2 && breakStack != []
      modifies this
      ensures old(CondState()) ==>
        var k := |old(labelStack)|; var top, end := old(labelStack)[k - 2], old(labelStack)[k - 1];
        Acts(old(Now()), Now(), [Jump(top)] + [Label(end)], 0, old(labelStack)[..k - 2], Popped(old(breakStack)))
      ensures !old(CondState()) ==> Now() == old(Now())
      ensures Step(old(Now()), RepeatToken) == Some(Now())
    {
      hide AllTrue, Step, Effect;
      BackEffect(Now());
      if !CondState() { return; }
      var end := Last(labelStack);
      labelStack := Popped(labelStack);
      DetectMain();
      Emit([Jump(Last(labelStack))]);
      labelStack := Popped(labelStack);
      Emit([Label(end)]);
      breakStack := Popped(breakStack);
    }

    method FCase()
      modifies this
      ensures var n := old(labelSequence);
        Acts(old(Now()), Now(), [], 1, old(labelStack) + [n], old(breakStack) + [n])
      ensures Step(old(Now()), CaseToken) == Some(Now())
    {
      hide AllTrue, Step, Effect;
      CaseEffect(Now());
      if !CondState() { return; }
      DetectMain();
      var n := NewLabel();
      labelStack := labelStack + [n];
      breakStack := breakStack + [Last(labelStack)];
    }

    method FOf()
      modifies this
      ensures var n := old(labelSequence);
        Acts(old(Now()), Now(), OfCode(n), 1, old(labelStack) + [n], old(breakStack))
      ensures Step(old(Now()), OfToken) == Some(Now())
    {
      hide AllTrue, Step, Effect;
      CaseEffect(Now());
      if !CondState() { return; }
      DetectMain();
      Emit([Pop(R1, DataStack), Pop(R0, DataStack), Push(R0, DataStack)]);
      var n := NewLabel();
      labelStack := labelStack + [n];
      Emit([Branch(NotEqual(R0, R1), Last(labelStack))]);
    }

    method FEndof()
      requires CondState() ==> labelStack != [] && breakStack != []
      modifies this
      ensures old(CondState()) ==>
        Acts(old(Now()), Now(), [Jump(Last(old(breakStack)))] + [Label(Last(old(labelStack)))], 0,
             Popped(old(labelStack)), old(breakStack))
      ensures !old(CondState()) ==> Now() == old(Now())
      ensures Step(old(Now()), EndofToken) == Some(Now())
    {
      hide AllTrue, Step, Effect;
      EndEffect(Now());
      if !CondState() { return; }
      DetectMain();
      Emit([Jump(Last(breakStack))]);
      Emit([Label(Last(labelStack))]);
      labelStack := Popped(labelStack);
    }

    method FEndcase()
      requires CondState() ==> labelStack != [] && breakStack != []
      modifies this
      ensures old(CondState()) ==>
        Acts(old(Now()), Now(), [Label(Last(old(labelStack)))] + [Opcode.Pop(R0, DataStack)], 0,
             Popped(old(labelStack)), Popped(old(breakStack)))
      ensures !old(CondState()) ==> Now() == old(Now())
      ensures Step(old(Now()), EndcaseToken) == Some(Now())
    {
      hide AllTrue, Step, Effect;
      EndEffect(Now());
      if !CondState() { return; }
      DetectMain();
      Emit([Label(Last(labelStack))]);
      labelStack := Popped(labelStack);
      breakStack := Popped(breakStack);
      Emit([Pop(R0, DataStack)]);
    }

    // ----- conditional compilation -----

    method FCondIfdef(name: string, negated: bool)
      modifies this`condStack
      ensures condStack == old(condStack) + [(ToLower(name) in definitions) != negated]
      ensures Step(old(Now()), CondIfToken(name, negated)) == Some(Now())
    {
      var isDefined := ToLower(name) in definitions;
      condStack := condStack + [isDefined != negated];
    }

    /** [ELSE] turns the innermost condition; without one it complains. */
    method FCondElse()
      modifies this`condStack, this`errorCount
      ensures if old(condStack) == [] then condStack == [] && errorCount == old(errorCount) + 1
        else
          var k := |old(condStack)| - 1;
          condStack == old(condStack)[..k] + [!old(condStack)[k]] && errorCount == old(errorCount)
      ensures Step(old(Now()), CondElseToken) == Some(Now())
    {
      if condStack == [] {
        errorCount := errorCount + 1;
        return;
      }
      condStack := condStack[|condStack| - 1 := !condStack[|condStack| - 1]];
    }

    /** [THEN] and [ENDIF] close the innermost condition; without one they complain. */
    method FCondThenEndif()
      modifies this`condStack, this`errorCount
      ensures if old(condStack) == [] then condStack == [] && errorCount == old(errorCount) + 1
        else condStack == old(condStack)[..|old(condStack)| - 1] && errorCount == old(errorCount)
      ensures Step(old(Now()), CondThenToken) == Some(Now())
    {
      if condStack == [] {
        errorCount := errorCount + 1;
        return;
      }
      condStack := condStack[..|condStack| - 1];
    }

    // ----- handlers of definitions -----

    method FDefinedword(x: Symbol)
      modifies this
      ensures old(CondState()) ==>
        && exitLabel == old(labelSequence) && labelSequence == old(labelSequence) + 1
        && labelStack == old(labelStack) + [old(labelSequence)] && symbols == old(symbols) + {x}
        && (if x in old(symbols) then errorCount == old(errorCount) + 1 && table == old(table)
            else
              && errorCount == old(errorCount) && table == old(table) + [Define(x)]
              && currentDefinition == Some(x) && !anonymous)
      ensures Step(old(Now()), ColonToken(x)) == Some(Now())
    {
      hide AllTrue, Step, Effect;
      OpenEffect(Now(), x);
      if !CondState() { return; }
      var isDefinable := x !in symbols;
      if !isDefinable {
        errorCount := errorCount + 1;
      }
      exitLabel := labelSequence;
      labelStack := labelStack + [labelSequence];
      labelSequence := labelSequence + 1;
      if !isDefinable { return; }
      symbols := symbols + {x};
      currentDefinition, anonymous := Some(x), false;
      Emit([Define(x)]);
    }

    /** x is the name made up for the word; making it up fails when it is taken. */
    method FNonameword(x: Symbol)
      modifies this
      ensures old(CondState()) ==>
        && exitLabel == old(labelSequence) && labelSequence == old(labelSequence) + 1
        && labelStack == old(labelStack) + [old(labelSequence)] && symbols == old(symbols) + {x}
        && (if x in old(symbols) then errorCount == old(errorCount) + 1 && table == old(table)
            else
              && errorCount == old(errorCount) && table == old(table) + [Define(x)]
              && currentDefinition == Some(x) && anonymous)
      ensures Step(old(Now()), NonameToken(x)) == Some(Now())
    {
      hide AllTrue, Step, Effect;
      OpenEffect(Now(), x);
      if !CondState() { return; }
      exitLabel := labelSequence;
      labelStack := labelStack + [labelSequence];
      labelSequence := labelSequence + 1;
      if x in symbols {
        errorCount := errorCount + 1;
        return;
      }
      symbols := symbols + {x};
      currentDefinition, anonymous := Some(x), true;
      Emit([Define(x)]);
    }

    method FSemicolon()
      requires CondState() ==> labelStack != []
      modifies this
      ensures old(CondState()) ==>
        && labelStack == Popped(old(labelStack)) && exitLabel == 0 && currentDefinition == None
        && (old(currentDefinition).None? ==> table == old(table))
      ensures old(CondState()) && old(currentDefinition).Some? ==>
        var x := old(currentDefinition).value;
        var address := if old(anonymous) then [LoadSymbol(R0, x), Push(R0, DataStack)] else [];
        table == old(table) + [Label(Last(old(labelStack))), EndDefine(x)] + address
      ensures Step(old(Now()), SemicolonToken) == Some(Now())
    {
      hide AllTrue, Step, Effect;
      OpenEffect(Now(), "");
      if !CondState() { return; }
      var exit := Last(labelStack);
      labelStack := Popped(labelStack);
      exitLabel := 0;
      if currentDefinition.None? { return; }
      var x := currentDefinition.value;
      Emit([Label(exit), EndDefine(x)]);
      currentDefinition := None;
      if anonymous {
        DetectMain();
        Emit([LoadSymbol(R0, x), Push(R0, DataStack)]);
      }
    }

    method FCodeword(x: Symbol)
      modifies this
      ensures old(CondState()) ==>
        && symbols == old(symbols) + {x} && exitLabel == old(exitLabel) && labelStack == old(labelStack)
        && (if x in old(symbols) then errorCount == old(errorCount) + 1 && table == old(table)
            else table == old(table) + [Define(x)] && currentDefinition == Some(x))
      ensures Step(old(Now()), CodeToken(x)) == Some(Now())
    {
      hide AllTrue, Step, Effect;
      OpenEffect(Now(), x);
      if !CondState() { return; }
      if x in symbols {
        errorCount := errorCount + 1;
        return;
      }
      symbols := symbols + {x};
      currentDefinition, anonymous := Some(x), false;
      Emit([Define(x)]);
    }

    /** A line of assembler without its comment; a line with nothing else is no line. */
    method FCode(line: string)
      modifies this`table
      ensures table == if old(CondState()) && CodePart(line) != "" then old(table) + [Assembly(CodePart(line))]
        else old(table)
      ensures exists code ::
        Stripped(line, code) && table == old(table) + if old(CondState()) && code != "" then [Assembly(code)] else []
      ensures Step(old(Now()), LineToken(line)) == Some(Now())
    {
      hide AllTrue, StrippedAt;
      CodePartStripped(line);
      if !CondState() { return; }
      var code := StripLine(line);
      if code != "" {
        Emit([Assembly(code)]);
      }
    }

    method FEndCode()
      modifies this`table, this`currentDefinition
      ensures if old(CondState()) && old(currentDefinition).Some?
        then table == old(table) + [EndDefine(old(currentDefinition.value))] && currentDefinition == None
        else table == old(table) && currentDefinition == old(currentDefinition)
      ensures Step(old(Now()), EndCodeToken) == Some(Now())
    {
      hide AllTrue;
      if !CondState() { return; }
      if currentDefinition.Some? {
        Emit([EndDefine(currentDefinition.value)]);
        currentDefinition := None;
      }
    }

    /** VARIABLE and CREATE: a name without code. */
    method FDefinedvariable(x: Symbol)
      modifies this`symbols, this`errorCount
      ensures old(CondState()) ==>
        symbols == old(symbols) + {x} && errorCount == old(errorCount) + if x in old(symbols) then 1 else 0
      ensures Step(old(Now()), VariableToken(x)) == Some(Now())
    {
      hide AllTrue;
      if !CondState() { return; }
      if x in symbols {
        errorCount := errorCount + 1;
        return;
      }
      symbols := symbols + {x};
    }

    // ----- the run of the parser -----

    /** One call as the grammar makes it. */
    method Handle(t: Token)
      requires Step(Now(), t).Some? && (t.Single? ==> IsSingle(t.s))
      modifies this
      ensures Step(old(Now()), t) == Some(Now())
    {
      hide SingleEffect, Acts;
      match t
      case Single(s) => HandleSingle(s);
      case IfToken => FIf();
      case ElseToken => FElse();
      case ThenToken => FThenEndif();
      case DoToken(query) => FDo(query);
      case LoopToken => FLoop();
      case PlusLoopToken => FPlusLoop();
      case BeginToken => FBegin();
      case UntilToken => FUntil();
      case RepeatToken => FRepeatAgain();
      case CaseToken => FCase();
      case OfToken => FOf();
      case EndofToken => FEndof();
      case EndcaseToken => FEndcase();
      case ColonToken(x) => FDefinedword(x);
      case NonameToken(x) => FNonameword(x);
      case SemicolonToken => FSemicolon();
      case CodeToken(x) => FCodeword(x);
      case LineToken(line) => FCode(line);
      case EndCodeToken => FEndCode();
      case VariableToken(x) => FDefinedvariable(x);
      case CondIfToken(test, negated) => FCondIfdef(test, negated);
      case CondElseToken => FCondElse();
      case CondThenToken => FCondThenEndif();
    }

    method HandleSingle(s: Stmt)
      requires IsSingle(s)
      modifies this
      ensures Step(old(Now()), Single(s)) == Some(Now())
    {
      hide Step;
      match s
      case Literal(v) => FIntegerLiteral(v);
      case FloatLiteral(v) => FFloatLiteral(v);
      case Address(_) => FWord(s);
      case Constant(_) => FWord(s);
      case FloatConstant(_) => FWord(s);
      case SetConstant(x) => FDefinedConstant(x, false);
      case SetFloatConstant(x) => FDefinedConstant(x, true);
      case CountedString(d) => FCstring(d);
      case StringLiteral(d, size) => FStringLiteral(d, size);
      case PrintString(d, size) => FPstring(d, size);
      case AbortString(d, size) => FAstring(d, size);
      case Word(_) => FWord(s);
      case Recurse => FRecurse();
      case Exit => FExit();
      case Leave => FLeave();
      case QueryLeave => FQueryLeave();
      case While => FWhile();
    }

    /** At the end of the file no condition may be open. */
    method FEndOfFile()
      modifies this`errorCount
      ensures errorCount == old(errorCount) + if condStack == [] then 0 else 1
    {
      if condStack != [] {
        errorCount := errorCount + 1;
      }
    }

    /** The parser's own last checks: stacks empty, definition and exit label closed. */
    method ParseCleanup()
      modifies this`errorCount
      ensures errorCount == old(errorCount) + if old(errorCount) != 0 then 0 else
        (if labelStack == [] && breakStack == [] && condStack == [] then 0 else 1)
        + (if currentDefinition.None? then 0 else 1) + (if exitLabel == 0 then 0 else 1)
    {
      if errorCount == 0 {
        if !(labelStack == [] && breakStack == [] && condStack == []) {
          errorCount := errorCount + 1;
        }
        if currentDefinition.Some? {
          errorCount := errorCount + 1;
        }
        if exitLabel != 0 {
          errorCount := errorCount + 1;
        }
      }
    }

    /** Make the calls of a whole file, unless there are too many errors, and finish. */
    method Parse(tokens: seq<Token>)
      requires Drive(true, Now(), tokens).Some? && WellMade(tokens)
      modifies this
      ensures Now() == Finished(Drive(true, old(Now()), tokens).value)
      ensures errorCount == 0 ==>
        labelStack == [] && breakStack == [] && condStack == [] && currentDefinition.None? && exitLabel == 0
      ensures var v := Drive(true, old(Now()), tokens).value; var n := v.notes.errors;
        && Now() == v.(notes := v.notes.(errors := errorCount))
        && (n == 0 && Closed(Now()) ==> errorCount == 0)
        && (n >= 20 || condStack != [] ==> errorCount == n + 1)
        && (0 < n < 20 && condStack == [] ==> errorCount == n)
    {
      hide Step;
      var i := 0;
      assert tokens[0..] == tokens;
      while i < |tokens| && errorCount < MAX_ALLOWED_ERRORS
        invariant 0 <= i <= |tokens|
        invariant Drive(true, Now(), tokens[i..]) == Drive(true, old(Now()), tokens)
      {
        assert tokens[i..][0] == tokens[i] && tokens[i..][1..] == tokens[i + 1..];
        Handle(tokens[i]);
        i := i + 1;
      }
      assert Drive(true, old(Now()), tokens) == Some(Now());
      hide Drive;
      if errorCount >= MAX_ALLOWED_ERRORS {
        errorCount := errorCount + 1;
      } else {
        FEndOfFile();
      }
      ParseCleanup();
      FinishedChecks(Drive(true, old(Now()), tokens).value);
      hide Finished, Step;
    }
  }
}
