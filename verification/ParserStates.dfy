/** The state of the parser as a value, what its handlers do to it, and what
    they come to one after another. */
module ParserStates {
  import opened Options
  import opened Machine
  import opened Statements
  import opened Compilation
  import opened Elements

  /** OF stands in the clauses of a CASE only, and a CASE has at least one. */
  predicate Grammatical(s: Stmt)
    decreases s, 0
  {
    match s
    case Sequence(a, b) => Grammatical(a) && Grammatical(b)
    case If(a) => Grammatical(a)
    case IfElse(a, b) => Grammatical(a) && Grammatical(b)
    case DoLoop(_, body, _) => Grammatical(body)
    case BeginUntil(body) => Grammatical(body)
    case BeginAgain(body) => Grammatical(body)
    case Case(body) => body.Of? && CaseBody(body)
    case Of(_, _, _) => false
    case Elsewhere(_) => false
    case Conditional(_, _, a, b) => Grammatical(a) && Grammatical(b)
    case _ => true
  }

  predicate CaseBody(s: Stmt)
    decreases s, 1
  {
    if s.Of? then Grammatical(s.test) && Grammatical(s.body) && CaseBody(s.rest) else Grammatical(s)
  }

  function Last(s: seq<int>): int
    requires s != []
  {
    s[|s| - 1]
  }

  function Popped(s: seq<int>): seq<int>
    requires s != []
  {
    s[..|s| - 1]
  }

  /** What the parser has noted about names, and how often it has complained. */
  datatype Notebook = Notebook(implicitMain: bool, symbols: set<Symbol>, errors: nat)

  /** Notes only accumulate; implicit code claims the name of the main word, with
      an error when that is taken already. */
  ghost predicate Later(a: Notebook, b: Notebook, definition: Option<Symbol>) {
    && a.symbols <= b.symbols && a.errors <= b.errors && (a.implicitMain ==> b.implicitMain)
    && (definition.Some? ==> a.implicitMain == b.implicitMain)
    && (b.implicitMain && !a.implicitMain ==> MAIN in b.symbols && (MAIN !in a.symbols || b.errors > a.errors))
  }

  lemma LaterTransitive()
    ensures forall a, d :: Later(a, a, d)
    ensures forall a, b, c, d :: Later(a, b, d) && Later(b, c, d) ==> Later(a, c, d)
  {
  }

  predicate AllTrue(s: seq<bool>) {
    forall i :: 0 <= i < |s| ==> s[i]
  }

  /** What statements leave alone. */
  datatype Frame = Frame(
    definitions: set<string>,
    exitLabel: int,
    currentDefinition: Option<Symbol>,
    anonymous: bool,
    condStack: seq<bool>)

  /** The state of the parser. */
  datatype View = View(
    frame: Frame,
    labelSequence: int,
    labelStack: seq<int>,
    breakStack: seq<int>,
    notes: Notebook,
    table: Table)
  {
    /** Where the next statement stands. */
    function Here(): Context {
      Context(if breakStack == [] then None else Some(Last(breakStack)), frame.exitLabel, frame.currentDefinition,
              frame.definitions)
    }

    /** Handlers take effect when no enclosing condition is false. */
    predicate Active() {
      AllTrue(frame.condStack)
    }
  }

  function Initial(definitions: set<string>): View {
    View(Frame(definitions, 0, None, false, []), 1, [], [], Notebook(false, {}, 0), [])
  }

  /** Code is added to the table, k labels are taken, and nothing else changes
      but the notes and the two label stacks. */
  ghost predicate Wrote(v: View, w: View, code: Table, k: int) {
    && w.frame == v.frame && w.table == v.table + code && w.labelSequence == v.labelSequence + k
    && Later(v.notes, w.notes, v.frame.currentDefinition)
    && (code != [] ==> v.frame.currentDefinition.Some? || w.notes.implicitMain)
  }

  /** The effect of a handler: none at all while a condition is false. */
  ghost predicate Acts(v: View, w: View, code: Table, k: int, labelStack: seq<int>, breakStack: seq<int>) {
    if v.Active() then Wrote(v, w, code, k) && w.labelStack == labelStack && w.breakStack == breakStack else w == v
  }

  /** A statement leaves both label stacks as they were, errors or not. */
  ghost predicate Kept(v: View, w: View) {
    w.frame == v.frame && w.labelStack == v.labelStack && w.breakStack == v.breakStack
    && Later(v.notes, w.notes, v.frame.currentDefinition)
  }

  /** Nothing happens while a condition is false; otherwise, unless there are
      errors, the code is emitted and what it needs around it is there. */
  ghost predicate Writes(v: View, w: View, code: Table, k: int, sound: bool) {
    if !v.Active() then w == v else Kept(v, w) && (w.notes.errors == v.notes.errors ==> Wrote(v, w, code, k) && sound)
  }

  /** Statement s has been parsed. */
  ghost predicate Reads(v: View, w: View, s: Stmt) {
    Writes(v, w, Code(v.Here(), s, v.labelSequence), Labels(v.frame.definitions, s), Scoped(v.Here(), s))
  }

  /** A word has been opened, unless its name is taken; its exit label is pushed either way. */
  function Opened(v: View, x: Symbol, anonymous: bool): View {
    var n := v.labelSequence;
    var w := Named(v, x).(labelSequence := n + 1, labelStack := v.labelStack + [n]);
    if x in v.notes.symbols then w.(frame := v.frame.(exitLabel := n))
    else w.(frame := v.frame.(exitLabel := n, currentDefinition := Some(x), anonymous := anonymous),
            table := v.table + [Define(x)])
  }

  /** The notes once name x has been given, or found to be taken. */
  function NotesWith(v: View, x: Symbol): Notebook {
    if x in v.notes.symbols then v.notes.(errors := v.notes.errors + 1) else v.notes.(symbols := v.notes.symbols + {x})
  }

  function Named(v: View, x: Symbol): View {
    v.(notes := NotesWith(v, x))
  }

  function CodeOpened(v: View, x: Symbol): View {
    if x in v.notes.symbols then Named(v, x)
    else Named(v, x).(frame := v.frame.(currentDefinition := Some(x), anonymous := false),
                      table := v.table + [Define(x)])
  }

  /** Code outside definitions claims the name of the main word, with a complaint when it is taken. */
  function Detected(v: View): View {
    if v.frame.currentDefinition.Some? || v.notes.implicitMain then v
    else v.(notes := Notebook(true, v.notes.symbols + {MAIN},
                              v.notes.errors + if MAIN in v.notes.symbols then 1 else 0))
  }

  /** Code has been emitted, and k labels taken. */
  function Emitted(v: View, code: Table, k: nat): View {
    var w := Detected(v);
    w.(table := w.table + code, labelSequence := w.labelSequence + k)
  }

  function Complained(v: View): View {
    v.(notes := v.notes.(errors := v.notes.errors + 1))
  }

  function Knowing(v: View, x: Symbol): View {
    v.(notes := v.notes.(symbols := v.notes.symbols + {x}))
  }

  lemma EmittedWrote(v: View, code: Table, k: nat)
    ensures Wrote(v, Emitted(v, code, k), code, k)
    ensures Emitted(v, code, k).labelStack == v.labelStack && Emitted(v, code, k).breakStack == v.breakStack
  {
  }

  lemma EmittedActs(v: View, code: Table, k: nat, labelStack: seq<int>, breakStack: seq<int>)
    requires v.Active()
    ensures Acts(v, Emitted(v, code, k).(labelStack := labelStack, breakStack := breakStack), code, k, labelStack,
                 breakStack)
  {
  }

  /** The end of a word: its exit label and its end; a nameless one leaves its address at top level. */
  function Ended(v: View): View
    requires v.labelStack != []
  {
    var w := v.(frame := v.frame.(exitLabel := 0), labelStack := Popped(v.labelStack));
    if v.frame.currentDefinition.None? then w
    else
      var x := v.frame.currentDefinition.value;
      var closed := w.(frame := w.frame.(currentDefinition := None),
                       table := w.table + [Label(Last(v.labelStack)), EndDefine(x)]);
      if v.frame.anonymous then Emitted(closed, [LoadSymbol(R0, x), Push(R0, DataStack)], 0) else closed
  }

  // ----- handlers in a row -----

  lemma ReadsKeeps(v: View, w: View, s: Stmt)
    requires Reads(v, w, s)
    ensures w.frame == v.frame && w.labelStack == v.labelStack && w.breakStack == v.breakStack
  {
  }

  lemma ErrorsGrow(v: View, w: View)
    requires Later(v.notes, w.notes, v.frame.currentDefinition)
    ensures v.notes.errors <= w.notes.errors
  {
  }

  /** One piece of code after another; where the second stands is known when the first had no errors. */
  lemma WritesThen(v0: View, v1: View, v2: View, code1: Table, code2: Table, k1: int, k2: int, sound1: bool,
                   sound2: bool)
    requires Writes(v0, v1, code1, k1, sound1)
    requires if v1.Active() then Kept(v1, v2) else v2 == v1
    requires v1.notes.errors == v0.notes.errors ==> Writes(v1, v2, code2, k2, sound2)
    ensures Writes(v0, v2, code1 + code2, k1 + k2, sound1 && sound2)
  {
    LaterTransitive();
    hide AllTrue;
    if v0.Active() && v2.notes.errors == v0.notes.errors {
      ErrorsGrow(v0, v1);
      ErrorsGrow(v1, v2);
    }
    hide Later;
  }

  /** A piece of code between two handlers that leave the stacks as they were. */
  lemma WritesBetween(v0: View, v1: View, v2: View, v3: View, head: Table, code: Table, tail: Table, k1: int, k: int,
                      k2: int, sound: bool)
    requires Writes(v1, v2, code, k, sound)
    requires if v0.Active() then Wrote(v0, v1, head, k1) else v1 == v0
    requires v2.Active() ==> v3.frame == v2.frame && Later(v2.notes, v3.notes, v2.frame.currentDefinition)
    requires v2.Active() ==> v3.labelStack == v0.labelStack && v3.breakStack == v0.breakStack
    requires v2.Active() && v2.notes.errors == v0.notes.errors ==> Wrote(v2, v3, tail, k2)
    requires !v2.Active() ==> v3 == v2
    ensures Writes(v0, v3, head + code + tail, k1 + k + k2, sound)
  {
    LaterTransitive();
    hide AllTrue;
    if v0.Active() && v3.notes.errors == v0.notes.errors {
      ErrorsGrow(v0, v1);
      ErrorsGrow(v1, v2);
      ErrorsGrow(v2, v3);
    }
    hide Later;
  }

  /** Like Writes, whatever happens to the stacks. */
  ghost predicate Adds(v: View, w: View, code: Table, k: int, sound: bool) {
    if !v.Active() then w == v
    else
      && w.frame == v.frame && Later(v.notes, w.notes, v.frame.currentDefinition)
      && (w.notes.errors == v.notes.errors ==> Wrote(v, w, code, k) && sound)
  }

  lemma AddsThen(v0: View, v1: View, v2: View, code1: Table, code2: Table, k1: int, k2: int, sound1: bool,
                 sound2: bool, sound: bool)
    requires Adds(v0, v1, code1, k1, sound1) && sound == (sound1 && sound2)
    requires if v1.Active() then v2.frame == v1.frame && Later(v1.notes, v2.notes, v1.frame.currentDefinition)
      else v2 == v1
    requires v1.notes.errors == v0.notes.errors ==> Adds(v1, v2, code2, k2, sound2)
    ensures Adds(v0, v2, code1 + code2, k1 + k2, sound)
  {
    LaterTransitive();
    hide AllTrue;
    if v0.Active() && v2.notes.errors == v0.notes.errors {
      ErrorsGrow(v0, v1);
      ErrorsGrow(v1, v2);
    }
    hide Later;
  }

  lemma AddsWrites(v: View, w: View, code: Table, k: int, sound: bool)
    requires Adds(v, w, code, k, sound) && w.labelStack == v.labelStack && w.breakStack == v.breakStack
    ensures Writes(v, w, code, k, sound)
  {
    hide AllTrue, Later, Wrote;
  }

  lemma PopPush(s: seq<int>, x: int)
    ensures s + [x] != [] && Last(s + [x]) == x && Popped(s + [x]) == s
  {
  }

  lemma PopTwo(s: seq<int>, x: int, y: int)
    ensures var t := s + [x, y]; var k := |t|; k >= 2 && t[k - 2] == x && t[k - 1] == y && t[..k - 2] == s
  {
  }

  lemma PopThree(s: seq<int>, x: int, y: int, z: int)
    ensures var t := s + [x, y, z]; var k := |t|;
      k >= 3 && t[k - 3] == x && t[k - 2] == y && t[k - 1] == z && t[..k - 3] == s
  {
  }

  /** Two statements after each other. */
  lemma ReadsSequence(v0: View, v1: View, v2: View, s: Stmt)
    requires s.Sequence? && Reads(v0, v1, s.first) && Reads(v1, v2, s.second)
    ensures Reads(v0, v2, s)
  {
    LaterTransitive();
    SequenceParts(v0.Here(), s, v0.labelSequence, v0.table);
    hide Code, Labels, Scoped, Later, AllTrue;
  }

  lemma ReadsIf(v0: View, v1: View, v2: View, v3: View, s: Stmt)
    requires s.If? && Reads(v1, v2, s.thenPart)
    requires var n := v0.labelSequence; Acts(v0, v1, IfCode(n), 1, v0.labelStack + [n], v0.breakStack)
    requires v2.Active() ==>
      v2.labelStack != [] && Acts(v2, v3, [Label(Last(v2.labelStack))], 0, Popped(v2.labelStack), v2.breakStack)
    requires !v2.Active() ==> v3 == v2
    ensures Reads(v0, v3, s)
  {
    hide Code, Labels, Scoped, Later, AllTrue, IfCode;
    var c, n := v0.Here(), v0.labelSequence;
    PopPush(v0.labelStack, n);
    IfParts(c, s, n);
    hide Last, Popped;
    WritesBetween(v0, v1, v2, v3, IfCode(n), Code(c, s.thenPart, n + 1), [Label(n)], 1,
                  Labels(c.definitions, s.thenPart), 0, Scoped(c, s.thenPart));
  }

  lemma ReadsIfElse(v0: View, v1: View, v2: View, v3: View, v4: View, v5: View, s: Stmt)
    requires s.IfElse? && Reads(v1, v2, s.thenPart) && Reads(v3, v4, s.elsePart)
    requires var n := v0.labelSequence; Acts(v0, v1, IfCode(n), 1, v0.labelStack + [n], v0.breakStack)
    requires v2.Active() ==> (
      var m := v2.labelSequence;
      v2.labelStack != []
      && Acts(v2, v3, [Jump(m), Label(Last(v2.labelStack))], 1, Popped(v2.labelStack) + [m], v2.breakStack))
    requires !v2.Active() ==> v3 == v2
    requires v4.Active() ==>
      v4.labelStack != [] && Acts(v4, v5, [Label(Last(v4.labelStack))], 0, Popped(v4.labelStack), v4.breakStack)
    requires !v4.Active() ==> v5 == v4
    ensures Reads(v0, v5, s)
  {
    hide Code, Labels, Scoped, Later, AllTrue, IfCode;
    var c, n, m := v0.Here(), v0.labelSequence, v2.labelSequence;
    var k1, k2 := Labels(c.definitions, s.thenPart), Labels(c.definitions, s.elsePart);
    var code1, code2 := Code(c, s.thenPart, n + 1), Code(c, s.elsePart, m + 1);
    var sound1, sound2 := Scoped(c, s.thenPart), Scoped(c, s.elsePart);
    PopPush(v0.labelStack, n);
    PopPush(v0.labelStack, m);
    hide Last, Popped;
    AddsThen(v0, v1, v2, IfCode(n), code1, 1, k1, true, sound1, sound1);
    AddsThen(v0, v2, v3, IfCode(n) + code1, [Jump(m), Label(n)], 1 + k1, 1, sound1, true, sound1);
    AddsThen(v0, v3, v4, IfCode(n) + code1 + [Jump(m), Label(n)], code2, 1 + k1 + 1, k2, sound1, sound2,
             sound1 && sound2);
    AddsThen(v0, v4, v5, IfCode(n) + code1 + [Jump(m), Label(n)] + code2, [Label(m)], 1 + k1 + 1 + k2, 0,
             sound1 && sound2, true, sound1 && sound2);
    AddsWrites(v0, v5, IfCode(n) + code1 + [Jump(m), Label(n)] + code2 + [Label(m)], 1 + k1 + 1 + k2 + 0,
               sound1 && sound2);
    if v0.Active() && v5.notes.errors == v0.notes.errors {
      ErrorsGrow(v0, v1);
      ErrorsGrow(v1, v2);
      ErrorsGrow(v2, v3);
      ErrorsGrow(v3, v4);
      ErrorsGrow(v4, v5);
    }
    IfElseParts(c, s, n);
    WritesAs(v0, v5, IfCode(n) + code1 + [Jump(m), Label(n)] + code2 + [Label(m)], Code(c, s, n),
             1 + k1 + 1 + k2 + 0, Labels(c.definitions, s), sound1 && sound2, Scoped(c, s));
  }

  /** With errors it does not matter what was to be written. */
  lemma WritesAs(v: View, w: View, code: Table, code2: Table, k: int, k2: int, sound: bool, sound2: bool)
    requires Writes(v, w, code, k, sound)
    requires v.Active() && w.notes.errors == v.notes.errors ==> code == code2 && k == k2 && sound == sound2
    ensures Writes(v, w, code2, k2, sound2)
  {
    hide Wrote, AllTrue, Later;
  }

  lemma ReadsDo(v0: View, v1: View, v2: View, v3: View, s: Stmt)
    requires s.DoLoop? && Reads(v1, v2, s.body)
    requires var n := v0.labelSequence;
      Acts(v0, v1, DoCode(s.query, n) + EnterCode() + [Label(n + 1)], 3, v0.labelStack + [n, n + 1, n + 2],
           v0.breakStack + [n + 2])
    requires v2.Active() ==> (
      && |v2.labelStack| >= 3 && v2.breakStack != []
      && (var k := |v2.labelStack|;
      var skip, top, end := v2.labelStack[k - 3], v2.labelStack[k - 2], v2.labelStack[k - 1];
      var loop := if s.plus then PlusLoopCode(top, end, v2.labelSequence) else LoopCode(top);
      Acts(v2, v3, loop + [Label(end)] + UnloopCode() + [Label(skip)], if s.plus then 1 else 0, v2.labelStack[..k - 3],
           Popped(v2.breakStack))))
    requires !v2.Active() ==> v3 == v2
    ensures Reads(v0, v3, s)
  {
    hide Code, Labels, Scoped, Later, AllTrue, DoCode, EnterCode, UnloopCode, LoopCode, PlusLoopCode;
    var c, n := v0.Here(), v0.labelSequence;
    var k, inner := Labels(c.definitions, s.body), c.(breakLabel := Some(n + 2));
    PopThree(v0.labelStack, n, n + 1, n + 2);
    PopPush(v0.breakStack, n + 2);
    DoParts(c, s, n);
    if v0.Active() {
      ErrorsGrow(v0, v1);
      ErrorsGrow(v1, v2);
    }
    hide Last, Popped;
    WritesBetween(v0, v1, v2, v3, DoCode(s.query, n) + EnterCode() + [Label(n + 1)], Code(inner, s.body, n + 3),
                  (if s.plus then PlusLoopCode(n + 1, n + 2, n + 3 + k) else LoopCode(n + 1)) + [Label(n + 2)]
                    + UnloopCode() + [Label(n)], 3, k, if s.plus then 1 else 0, Scoped(inner, s.body));
  }

  lemma ReadsBegin(v0: View, v1: View, v2: View, v3: View, s: Stmt)
    requires (s.BeginUntil? || s.BeginAgain?) && Reads(v1, v2, s.body)
    requires var n := v0.labelSequence; Acts(v0, v1, [Label(n)], 2, v0.labelStack + [n, n + 1], v0.breakStack + [n + 1])
    requires v2.Active() ==> (
      && |v2.labelStack| >= 2 && v2.breakStack != []
      && (var k := |v2.labelStack|;
      var top, end := v2.labelStack[k - 2], v2.labelStack[k - 1];
      var back := if s.BeginUntil? then IfCode(top) else [Jump(top)];
      Acts(v2, v3, back + [Label(end)], 0, v2.labelStack[..k - 2], Popped(v2.breakStack))))
    requires !v2.Active() ==> v3 == v2
    ensures Reads(v0, v3, s)
  {
    hide Code, Labels, Scoped, Later, AllTrue, IfCode;
    var c, n := v0.Here(), v0.labelSequence;
    var inner := c.(breakLabel := Some(n + 1));
    PopTwo(v0.labelStack, n, n + 1);
    PopPush(v0.breakStack, n + 1);
    BeginParts(c, s, n);
    hide Last, Popped;
    WritesBetween(v0, v1, v2, v3, [Label(n)], Code(inner, s.body, n + 2),
                  (if s.BeginUntil? then IfCode(n) else [Jump(n)]) + [Label(n + 1)],
                  2, Labels(c.definitions, s.body), 0, Scoped(inner, s.body));
  }

  lemma ReadsCase(v0: View, v1: View, v2: View, v3: View, s: Stmt)
    requires s.Case? && Reads(v1, v2, s.body)
    requires var n := v0.labelSequence; Acts(v0, v1, [], 1, v0.labelStack + [n], v0.breakStack + [n])
    requires v2.Active() ==> (
      && v2.labelStack != [] && v2.breakStack != []
      && (Acts(v2, v3, [Label(Last(v2.labelStack))] + [Opcode.Pop(R0, DataStack)], 0, Popped(v2.labelStack),
               Popped(v2.breakStack))))
    requires !v2.Active() ==> v3 == v2
    ensures Reads(v0, v3, s)
  {
    hide Code, Labels, Scoped, Later, AllTrue;
    var c, n := v0.Here(), v0.labelSequence;
    var inner := c.(breakLabel := Some(n));
    PopPush(v0.labelStack, n);
    PopPush(v0.breakStack, n);
    CaseParts(c, s, n);
    hide Last, Popped;
    WritesBetween(v0, v1, v2, v3, [], Code(inner, s.body, n + 1), [Label(n)] + [Opcode.Pop(R0, DataStack)],
                  1, Labels(c.definitions, s.body), 0, Scoped(inner, s.body));
  }

  lemma AfterClause(v1: View, v2: View, v3: View, v4: View)
    requires v1.Active() ==> v1.breakStack != []
    requires var m := v1.labelSequence; Acts(v1, v2, OfCode(m), 1, v1.labelStack + [m], v1.breakStack)
    requires v3.frame == v2.frame && v3.labelStack == v2.labelStack && v3.breakStack == v2.breakStack
    requires v3.Active() ==> (
      && v3.labelStack != [] && v3.breakStack != []
      && (Acts(v3, v4, [Jump(Last(v3.breakStack))] + [Label(Last(v3.labelStack))], 0, Popped(v3.labelStack),
               v3.breakStack)))
    requires !v3.Active() ==> v4 == v3
    ensures v4.frame == v1.frame && v4.labelStack == v1.labelStack && v4.breakStack == v1.breakStack
  {
    hide AllTrue, Later, OfCode;
  }

  lemma ReadsClause(v0: View, v1: View, v2: View, v3: View, v4: View, v5: View, s: Stmt)
    requires s.Of? && (v0.Active() ==> v0.breakStack != [])
    requires Reads(v0, v1, s.test) && Reads(v2, v3, s.body) && Reads(v4, v5, s.rest)
    requires var m := v1.labelSequence; Acts(v1, v2, OfCode(m), 1, v1.labelStack + [m], v1.breakStack)
    requires v3.Active() ==> (
      && v3.labelStack != [] && v3.breakStack != []
      && (Acts(v3, v4, [Jump(Last(v3.breakStack))] + [Label(Last(v3.labelStack))], 0, Popped(v3.labelStack),
               v3.breakStack)))
    requires !v3.Active() ==> v4 == v3
    ensures Reads(v0, v5, s)
  {
    hide Code, Labels, Scoped, Later, AllTrue, OfCode;
    var c, m := v0.Here(), v1.labelSequence;
    var k1, k2, k3 := Labels(c.definitions, s.test), Labels(c.definitions, s.body), Labels(c.definitions, s.rest);
    PopPush(v1.labelStack, m);
    hide Popped;
    if v0.Active() {
      ErrorsGrow(v0, v1);
      ErrorsGrow(v1, v2);
      ErrorsGrow(v2, v3);
      ErrorsGrow(v3, v4);
      ErrorsGrow(v4, v5);
      var end := [Jump(Last(v0.breakStack))] + [Label(m)];
      WritesBetween(v1, v2, v3, v4, OfCode(m), Code(c, s.body, m + 1), end, 1, k2, 0, Scoped(c, s.body));
      WritesThen(v0, v1, v4, Code(c, s.test, v0.labelSequence), OfCode(m) + Code(c, s.body, m + 1) + end, k1,
                 1 + k2 + 0, Scoped(c, s.test), Scoped(c, s.body));
      var n3 := m + 1 + k2;
      WritesThen(v0, v4, v5, Code(c, s.test, v0.labelSequence) + (OfCode(m) + Code(c, s.body, m + 1) + end),
                 Code(c, s.rest, n3), k1 + (1 + k2 + 0), k3, Scoped(c, s.test) && Scoped(c, s.body), Scoped(c, s.rest));
      OfParts(c, s, v0.labelSequence);
    }
  }

  // ----- the code of a structure, in the pieces its handlers emit -----

  lemma SequenceParts(c: Context, s: Stmt, n: int, before: Table)
    requires s.Sequence?
    ensures var m := n + Labels(c.definitions, s.first);
      before + Code(c, s.first, n) + Code(c, s.second, m) == before + Code(c, s, n)
  {
  }

  lemma IfParts(c: Context, s: Stmt, n: int)
    requires s.If?
    ensures IfCode(n) + Code(c, s.thenPart, n + 1) + [Label(n)] == Code(c, s, n)
    ensures Labels(c.definitions, s) == 1 + Labels(c.definitions, s.thenPart) && Scoped(c, s) == Scoped(c, s.thenPart)
  {
    hide IfCode;
  }

  lemma IfElseParts(c: Context, s: Stmt, n: int)
    requires s.IfElse?
    ensures var m := n + 1 + Labels(c.definitions, s.thenPart);
      IfCode(n) + Code(c, s.thenPart, n + 1) + [Jump(m), Label(n)] + Code(c, s.elsePart, m + 1) + [Label(m)] ==
        Code(c, s, n)
    ensures Labels(c.definitions, s) == 1 + Labels(c.definitions, s.thenPart) + 1 + Labels(c.definitions, s.elsePart)
    ensures Scoped(c, s) == (Scoped(c, s.thenPart) && Scoped(c, s.elsePart))
  {
    hide IfCode;
  }

  lemma DoParts(c: Context, s: Stmt, n: int)
    requires s.DoLoop?
    ensures var inner, k := c.(breakLabel := Some(n + 2)), Labels(c.definitions, s.body);
      var tail := if s.plus then PlusLoopCode(n + 1, n + 2, n + 3 + k) else LoopCode(n + 1);
      && DoCode(s.query, n) + EnterCode() + [Label(n + 1)] + Code(inner, s.body, n + 3)
           + (tail + [Label(n + 2)] + UnloopCode() + [Label(n)]) == Code(c, s, n)
      && Labels(c.definitions, s) == 3 + k + (if s.plus then 1 else 0)
      && Scoped(c, s) == Scoped(inner, s.body)
  {
    hide DoCode, EnterCode, UnloopCode, PlusLoopCode, LoopCode;
    ScopedAnyLabels(c.(breakLabel := Some(n + 2)), c.(breakLabel := Some(0)), s.body);
  }

  lemma BeginParts(c: Context, s: Stmt, n: int)
    requires s.BeginUntil? || s.BeginAgain?
    ensures var inner, k := c.(breakLabel := Some(n + 1)), Labels(c.definitions, s.body);
      var back := if s.BeginUntil? then IfCode(n) else [Jump(n)];
      && [Label(n)] + Code(inner, s.body, n + 2) + (back + [Label(n + 1)]) == Code(c, s, n)
      && Labels(c.definitions, s) == 2 + k && Scoped(c, s) == Scoped(inner, s.body)
  {
    hide IfCode;
    ScopedAnyLabels(c.(breakLabel := Some(n + 1)), c.(breakLabel := Some(0)), s.body);
  }

  lemma CaseParts(c: Context, s: Stmt, n: int)
    requires s.Case?
    ensures var inner, k := c.(breakLabel := Some(n)), Labels(c.definitions, s.body);
      && [] + Code(inner, s.body, n + 1) + ([Label(n)] + [Opcode.Pop(R0, DataStack)]) == Code(c, s, n)
      && Labels(c.definitions, s) == 1 + k && Scoped(c, s) == Scoped(inner, s.body)
  {
    ScopedAnyLabels(c.(breakLabel := Some(n)), c.(breakLabel := Some(0)), s.body);
  }

  lemma OfParts(c: Context, s: Stmt, n: int)
    requires s.Of? && c.breakLabel.Some?
    ensures var m := n + Labels(c.definitions, s.test); var k := m + 1 + Labels(c.definitions, s.body);
      && Code(c, s.test, n) + (OfCode(m) + Code(c, s.body, m + 1) + ([Jump(c.breakLabel.value)] + [Label(m)]))
           + Code(c, s.rest, k) == Code(c, s, n)
      && Labels(c.definitions, s) == k - n + Labels(c.definitions, s.rest)
      && Scoped(c, s) == (Scoped(c, s.test) && Scoped(c, s.body) && Scoped(c, s.rest))
  {
    hide OfCode, Code, Labels, Scoped;
    OfCounts(c, s, n);
    CodeOfOf(c, s.test, s.body, s.rest, n);
    var m := n + Labels(c.definitions, s.test);
    Regrouped(Code(c, s.test, n), OfCode(m), Code(c, s.body, m + 1), [Jump(c.breakLabel.value)], [Label(m)],
              Code(c, s.rest, m + 1 + Labels(c.definitions, s.body)));
  }

  lemma OfCounts(c: Context, s: Stmt, n: int)
    requires s.Of? && c.breakLabel.Some?
    ensures Labels(c.definitions, s) ==
      Labels(c.definitions, s.test) + 1 + Labels(c.definitions, s.body) + Labels(c.definitions, s.rest)
    ensures Scoped(c, s) == (Scoped(c, s.test) && Scoped(c, s.body) && Scoped(c, s.rest))
  {
    hide Code;
  }

  lemma Regrouped(a: Table, o: Table, b: Table, j: Table, l: Table, r: Table)
    ensures a + o + b + j + l + r == a + (o + b + (j + l)) + r
  {
  }
}
