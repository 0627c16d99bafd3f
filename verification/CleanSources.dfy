/** Which sources the compiler takes: what they do to names, in order, and when that
    is cause for complaint. */
module CleanSources {
  import opened Options
  import opened Machine
  import opened Statements
  import opened Elements
  import opened ParserStates
  import opened Tokens

  /** Code outside definitions, which belongs to the main word; a name that is used; a
      name that is given; a word that has no place here. */
  datatype Event = Claim | Take(name: Symbol) | Give(name: Symbol) | Fault

  function Claims(top: bool): seq<Event> {
    if top then [Claim] else []
  }

  /** What a statement without parts does, at top level or not, in a loop or CASE or not. */
  function SingleEvents(top: bool, inside: bool, s: Stmt): seq<Event> {
    match s
    case Address(x) => Claims(top) + [Take(x)]
    case Constant(x) => Claims(top) + [Take(x)]
    case FloatConstant(x) => Claims(top) + [Take(x)]
    case Word(x) => Claims(top) + [Take(x)]
    case SetConstant(x) => [Give(x)] + Claims(top)
    case SetFloatConstant(x) => [Give(x)] + Claims(top)
    case PrintString(_, _) => [Take("v4__type")] + Claims(top)
    case AbortString(_, _) => [Take("v4__abortquote")] + Claims(top)
    case Recurse => if top then [Fault] else []
    case Leave => if inside then Claims(top) else [Fault]
    case QueryLeave => if inside then Claims(top) else [Fault]
    case While => if inside then Claims(top) else [Fault]
    case _ => Claims(top)
  }

  /** What a statement does, in order. */
  function StmtEvents(d: set<string>, top: bool, inside: bool, s: Stmt): seq<Event>
    decreases s
  {
    match s
    case Empty => []
    case Elsewhere(_) => []
    case Sequence(a, b) => StmtEvents(d, top, inside, a) + StmtEvents(d, top, inside, b)
    case If(a) => Claims(top) + StmtEvents(d, top, inside, a) + Claims(top)
    case IfElse(a, b) =>
      Claims(top) + StmtEvents(d, top, inside, a) + Claims(top) + StmtEvents(d, top, inside, b) + Claims(top)
    case DoLoop(_, body, _) => Claims(top) + StmtEvents(d, top, true, body) + Claims(top)
    case BeginUntil(body) => Claims(top) + StmtEvents(d, top, true, body) + Claims(top)
    case BeginAgain(body) => Claims(top) + StmtEvents(d, top, true, body) + Claims(top)
    case Case(body) => Claims(top) + StmtEvents(d, top, true, body) + Claims(top)
    case Of(test, body, rest) =>
      StmtEvents(d, top, inside, test) + Claims(top) + StmtEvents(d, top, inside, body) + Claims(top)
      + StmtEvents(d, top, inside, rest)
    case Conditional(name, negated, a, b) => StmtEvents(d, top, inside, if Selected(d, name, negated) then a else b)
    case _ => SingleEvents(top, inside, s)
  }

  /** What a source does, in order. */
  function SourceEvents(d: set<string>, s: Source): seq<Event> {
    match s
    case Nothing => []
    case Both(a, b) => SourceEvents(d, a) + SourceEvents(d, b)
    case Definition(x, body) => [Give(x)] + StmtEvents(d, false, false, body)
    case Noname(x, body) => [Give(x)] + StmtEvents(d, false, false, body) + [Claim]
    case Assembler(x, _) => [Give(x)]
    case Declaration(x) => [Give(x)]
    case Statement(body) => StmtEvents(d, true, false, body)
    case Choice(_, _, _, _) => SourceEvents(d, Chosen(d, s))
  }

  // ----- when there is nothing to complain about -----

  /** Name x is known before event i. */
  predicate Known(es: seq<Event>, i: nat, x: Symbol) {
    exists j :: 0 <= j < i && j < |es| && (es[j] == Take(x) || es[j] == Give(x) || (es[j] == Claim && x == "main"))
  }

  predicate Claimed(es: seq<Event>, i: nat) {
    exists j :: 0 <= j < i && j < |es| && es[j] == Claim
  }

  predicate ClearAt(es: seq<Event>, i: nat)
    requires i < |es|
  {
    && es[i] != Fault
    && (es[i].Give? ==> !Known(es, i, es[i].name))
    && (es[i] == Claim ==> Claimed(es, i) || !Known(es, i, "main"))
  }

  /** Every name that is given is new, and no word stands where it has no place; the
      main word is given with the first code outside definitions. */
  predicate Clear(es: seq<Event>) {
    forall i :: 0 <= i < |es| ==> ClearAt(es, i)
  }

  // ----- one event after the other -----

  /** Whether there is a main word, and all names that are known. */
  datatype Names = Names(main: bool, known: set<Symbol>)

  function After(n: Names, e: Event): Option<Names> {
    match e
    case Claim =>
      if n.main then Some(n) else if MAIN in n.known then None else Some(Names(true, n.known + {MAIN}))
    case Take(x) => Some(n.(known := n.known + {x}))
    case Give(x) => if x in n.known then None else Some(n.(known := n.known + {x}))
    case Fault => None
  }

  function AfterAll(n: Names, es: seq<Event>): Option<Names>
    decreases |es|
  {
    if es == [] then Some(n)
    else
      match After(n, es[0])
      case None => None
      case Some(m) => AfterAll(m, es[1..])
  }

  lemma {:induction false} AfterThen(n: Names, a: seq<Event>, b: seq<Event>)
    ensures AfterAll(n, a + b) ==
      match AfterAll(n, a)
      case None => None
      case Some(m) => AfterAll(m, b)
    decreases |a|
  {
    hide After;
    if a == [] {
      assert a + b == b;
    } else {
      assert (a + b)[0] == a[0] && (a + b)[1..] == a[1..] + b;
      var next := After(n, a[0]);
      if next.Some? { AfterThen(next.value, a[1..], b); }
    }
  }

  lemma AfterOne(n: Names, e: Event)
    ensures AfterAll(n, [e]) == After(n, e)
  {
    assert [e][1..] == [];
    hide After;
  }

  /** The names known after k events. */
  ghost predicate Holds(es: seq<Event>, k: nat, n: Names) {
    (n.main <==> Claimed(es, k)) && forall x :: x in n.known <==> Known(es, k, x)
  }

  lemma HoldsNext(es: seq<Event>, k: nat, n: Names)
    requires k < |es| && Holds(es, k, n)
    ensures After(n, es[k]).Some? <==> ClearAt(es, k)
    ensures After(n, es[k]).Some? ==> Holds(es, k + 1, After(n, es[k]).value)
  {
    assert MAIN in n.known <==> Known(es, k, "main");
    ClaimedNext(es, k);
    forall x ensures Known(es, k + 1, x) <==>
      Known(es, k, x) || es[k] == Take(x) || es[k] == Give(x) || (es[k] == Claim && x == "main") {
      KnownNext(es, k, x);
    }
    hide Known, Claimed;
    if es[k] == Claim && n.main {
      MainKnown(es, k);
    }
  }

  lemma KnownNext(es: seq<Event>, k: nat, x: Symbol)
    requires k < |es|
    ensures Known(es, k + 1, x) <==>
      Known(es, k, x) || es[k] == Take(x) || es[k] == Give(x) || (es[k] == Claim && x == "main")
  {
  }

  lemma ClaimedNext(es: seq<Event>, k: nat)
    requires k < |es|
    ensures Claimed(es, k + 1) <==> Claimed(es, k) || es[k] == Claim
  {
  }

  lemma MainKnown(es: seq<Event>, k: nat)
    requires Claimed(es, k)
    ensures Known(es, k, "main")
  {
  }

  lemma {:induction false} ClearUpTo(es: seq<Event>, k: nat)
    requires k <= |es|
    ensures AfterAll(Names(false, {}), es[..k]).Some? <==> forall i :: 0 <= i < k ==> ClearAt(es, i)
    ensures var n := AfterAll(Names(false, {}), es[..k]); n.Some? ==> Holds(es, k, n.value)
    decreases k
  {
    hide After, ClearAt, Holds;
    if k == 0 {
      NothingKnown(es);
    } else {
      var start := Names(false, {});
      assert es[..k] == es[..k - 1] + [es[k - 1]];
      ClearUpTo(es, k - 1);
      AfterThen(start, es[..k - 1], [es[k - 1]]);
      var n := AfterAll(start, es[..k - 1]);
      hide AfterAll;
      if n.Some? {
        AfterOne(n.value, es[k - 1]);
        HoldsNext(es, k - 1, n.value);
      }
    }
  }

  lemma NothingKnown(es: seq<Event>)
    ensures Holds(es, 0, Names(false, {}))
  {
  }

  /** Event by event, all goes well exactly when all is clear. */
  lemma ClearIs(es: seq<Event>)
    ensures AfterAll(Names(false, {}), es).Some? <==> Clear(es)
  {
    assert es[..|es|] == es;
    ClearUpTo(es, |es|);
    hide AfterAll, ClearAt;
  }

  // ----- what the parser's handlers do to names -----

  predicate AtTopLevel(v: View) {
    v.frame.currentDefinition.None?
  }

  function Noted(v: View): Names {
    Names(v.notes.implicitMain, v.notes.symbols)
  }

  /** From v to w the parser has noted these events; there is a complaint exactly when
      one of them is cause for it. */
  ghost predicate Judged(v: View, w: View, es: seq<Event>) {
    match AfterAll(Noted(v), es)
    case None => w.notes.errors > v.notes.errors
    case Some(n) => w.notes.errors == v.notes.errors && Noted(w) == n
  }

  lemma JudgedThen(v0: View, v1: View, v2: View, a: seq<Event>, b: seq<Event>)
    requires Judged(v0, v1, a) && v2.notes.errors >= v1.notes.errors
    requires AfterAll(Noted(v0), a).Some? ==> Judged(v1, v2, b)
    ensures Judged(v0, v2, a + b)
  {
    AfterThen(Noted(v0), a, b);
    hide AfterAll;
  }

  lemma JudgedGrows(v: View, w: View, es: seq<Event>)
    requires Judged(v, w, es)
    ensures w.notes.errors >= v.notes.errors
  {
  }

  lemma JudgedAround(v0: View, v1: View, v2: View, v3: View, a: seq<Event>, es: seq<Event>, b: seq<Event>)
    requires Judged(v0, v1, a) && Judged(v1, v2, es) && Judged(v2, v3, b)
    ensures Judged(v0, v3, a + es + b)
  {
    JudgedGrows(v1, v2, es);
    JudgedGrows(v2, v3, b);
    hide Judged, AfterAll;
    JudgedThen(v0, v1, v2, a, es);
    JudgedThen(v0, v2, v3, a + es, b);
  }

  lemma JudgedNothing(v: View)
    ensures Judged(v, v, [])
  {
  }

  /** Only the notes matter. */
  lemma JudgedAs(v: View, w: View, x: View, es: seq<Event>)
    requires Judged(v, w, es) && x.notes == w.notes
    ensures Judged(v, x, es)
  {
    hide AfterAll;
  }

  lemma EmittedJudged(v: View, code: Table, k: nat)
    ensures Judged(v, Emitted(v, code, k), Claims(AtTopLevel(v)))
  {
    if AtTopLevel(v) { AfterOne(Noted(v), Claim); }
    hide AfterAll;
    assert AfterAll(Noted(v), []) == Some(Noted(v)) by { JudgedNothing(v); }
  }

  lemma KnowingJudged(v: View, x: Symbol)
    ensures Judged(v, Knowing(v, x), [Take(x)])
    ensures x !in v.notes.symbols ==> Judged(v, Knowing(v, x), [Give(x)])
    ensures Judged(v, Named(v, x), [Give(x)])
    ensures Judged(v, Complained(v), [Fault]) && (x in v.notes.symbols ==> AfterAll(Noted(v), [Give(x)]).None?)
  {
    AfterOne(Noted(v), Take(x));
    AfterOne(Noted(v), Give(x));
    AfterOne(Noted(v), Fault);
    hide AfterAll;
  }

  lemma SingleJudged(v: View, s: Stmt)
    requires v.Active() && IsSingle(s)
    ensures Judged(v, SingleEffect(v, s), SingleEvents(AtTopLevel(v), v.breakStack != [], s))
  {
    hide Code, Emitted, AfterAll, Judged, AllTrue;
    var code, top := Code(v.Here(), s, v.labelSequence), AtTopLevel(v);
    EmittedJudged(v, code, 0);
    if IsName(s) {
      NameJudged(v, s.symbol, code);
    } else if s.SetConstant? || s.SetFloatConstant? {
      ConstantJudged(v, s.symbol, code);
    } else if s.PrintString? {
      HandedJudged(v, TYPE_WORD, code, 0);
    } else if s.AbortString? {
      HandedJudged(v, ABORT_WORD, code, 1);
    } else {
      KnowingJudged(v, "");
    }
  }

  lemma NameJudged(v: View, x: Symbol, code: Table)
    ensures Judged(v, Knowing(Emitted(v, code, 0), x), Claims(AtTopLevel(v)) + [Take(x)])
  {
    hide Emitted, AfterAll, Judged;
    var w := Emitted(v, code, 0);
    EmittedJudged(v, code, 0);
    KnowingJudged(w, x);
    JudgedThen(v, w, Knowing(w, x), Claims(AtTopLevel(v)), [Take(x)]);
  }

  lemma HandedJudged(v: View, x: Symbol, code: Table, k: nat)
    ensures Judged(v, Emitted(Knowing(v, x), code, k), [Take(x)] + Claims(AtTopLevel(v)))
  {
    hide Emitted, AfterAll;
    var w := Knowing(v, x);
    KnowingJudged(v, x);
    EmittedJudged(w, code, k);
    JudgedGrows(w, Emitted(w, code, k), Claims(AtTopLevel(v)));
    hide Judged;
    JudgedThen(v, w, Emitted(w, code, k), [Take(x)], Claims(AtTopLevel(v)));
  }

  lemma ConstantJudged(v: View, x: Symbol, code: Table)
    ensures Judged(v, if x in v.notes.symbols then Complained(v) else Emitted(Knowing(v, x), code, 0),
                   [Give(x)] + Claims(AtTopLevel(v)))
  {
    hide Emitted, AfterAll, Judged;
    KnowingJudged(v, x);
    if x in v.notes.symbols {
      assert Named(v, x) == Complained(v);
      JudgedThen(v, Named(v, x), Complained(v), [Give(x)], Claims(AtTopLevel(v)));
    } else {
      var w := Knowing(v, x);
      EmittedJudged(w, code, 0);
      JudgedGrows(w, Emitted(w, code, 0), Claims(AtTopLevel(v)));
      JudgedThen(v, w, Emitted(w, code, 0), [Give(x)], Claims(AtTopLevel(v)));
    }
  }

  /** The handlers that open, turn and close structures. */
  predicate IsStructure(t: Token) {
    !t.Single? && !t.ColonToken? && !t.NonameToken? && !t.SemicolonToken? && !t.CodeToken? && !t.LineToken?
    && !t.EndCodeToken? && !t.VariableToken? && !t.IsConditional()
  }

  lemma StructureJudged(v: View, t: Token, w: View)
    requires v.Active() && IsStructure(t) && Step(v, t) == Some(w)
    ensures Judged(v, w, Claims(AtTopLevel(v)))
  {
    hide IfCode, DoCode, EnterCode, LoopCode, UnloopCode, PlusLoopCode, OfCode, AllTrue, Judged, Emitted, Last, Popped;
    forall code, k: nat, x: View | x.notes == Emitted(v, code, k).notes ensures Judged(v, x, Claims(AtTopLevel(v))) {
      EmittedJudged(v, code, k);
      JudgedAs(v, Emitted(v, code, k), x, Claims(AtTopLevel(v)));
    }
  }

  // ----- statements -----

  /** What a statement does where the parser is. */
  function EventsAt(v: View, s: Stmt): seq<Event> {
    StmtEvents(v.frame.definitions, AtTopLevel(v), v.breakStack != [], s)
  }

  lemma LoopEvents(v: View, s: Stmt)
    requires s.DoLoop? || s.BeginUntil? || s.BeginAgain? || s.Case?
    ensures var top := AtTopLevel(v);
      EventsAt(v, s) == Claims(top) + StmtEvents(v.frame.definitions, top, true, s.body) + Claims(top)
  {
  }

  lemma SingleAt(v: View, s: Stmt)
    requires v.Active() && IsSingle(s)
    ensures Judged(v, SingleEffect(v, s), EventsAt(v, s))
  {
    SingleJudged(v, s);
    hide SingleEffect, Judged, AllTrue;
  }

  lemma EmptyAt(v: View, s: Stmt)
    requires s.Empty?
    ensures Judged(v, v, EventsAt(v, s))
  {
    JudgedNothing(v);
    hide Judged;
  }

  lemma SequenceAt(v: View, v1: View, w: View, s: Stmt)
    requires s.Sequence? && v1.frame == v.frame && v1.breakStack == v.breakStack
    requires Judged(v, v1, EventsAt(v, s.first)) && Judged(v1, w, EventsAt(v1, s.second))
    ensures Judged(v, w, EventsAt(v, s))
  {
    JudgedGrows(v1, w, EventsAt(v1, s.second));
    hide Judged;
    JudgedThen(v, v1, w, EventsAt(v, s.first), EventsAt(v1, s.second));
  }

  /** A statement between two handlers. */
  lemma AroundAt(v: View, first: Token, v1: View, s: Stmt, v2: View, last: Token, w: View)
    requires v.Active() && v2.Active() && IsStructure(first) && IsStructure(last)
    requires Step(v, first) == Some(v1) && Step(v2, last) == Some(w)
    requires AtTopLevel(v1) == AtTopLevel(v) && AtTopLevel(v2) == AtTopLevel(v) && Judged(v1, v2, EventsAt(v1, s))
    ensures Judged(v, w, Claims(AtTopLevel(v)) + EventsAt(v1, s) + Claims(AtTopLevel(v)))
  {
    StructureJudged(v, first, v1);
    StructureJudged(v2, last, w);
    hide Judged, EventsAt, Step, AllTrue;
    JudgedAround(v, v1, v2, w, Claims(AtTopLevel(v)), EventsAt(v1, s), Claims(AtTopLevel(v)));
  }

  /** Another statement, and a handler. */
  lemma BehindAt(v: View, w0: View, es: seq<Event>, s: Stmt, w1: View, last: Token, w2: View)
    requires w1.Active() && IsStructure(last) && Step(w1, last) == Some(w2)
    requires AtTopLevel(w1) == AtTopLevel(v) && Judged(v, w0, es) && Judged(w0, w1, EventsAt(w0, s))
    ensures Judged(v, w2, es + EventsAt(w0, s) + Claims(AtTopLevel(v)))
  {
    StructureJudged(w1, last, w2);
    hide EventsAt, Step, AllTrue;
    hide Judged;
    JudgedAround(v, w0, w1, w2, es, EventsAt(w0, s), Claims(AtTopLevel(v)));
  }

  // ----- words -----

  lemma OpenedJudged(v: View, x: Symbol, anonymous: bool)
    ensures Judged(v, Opened(v, x, anonymous), [Give(x)]) && Judged(v, CodeOpened(v, x), [Give(x)])
  {
    KnowingJudged(v, x);
    hide Judged;
    JudgedAs(v, Named(v, x), Opened(v, x, anonymous), [Give(x)]);
    JudgedAs(v, Named(v, x), CodeOpened(v, x), [Give(x)]);
  }

  lemma EndedJudged(v: View)
    requires v.labelStack != [] && v.frame.currentDefinition.Some?
    ensures Judged(v, Ended(v), if v.frame.anonymous then [Claim] else [])
  {
    var x := v.frame.currentDefinition.value;
    var closed := v.(frame := v.frame.(exitLabel := 0, currentDefinition := None), labelStack := Popped(v.labelStack),
                     table := v.table + [Label(Last(v.labelStack)), EndDefine(x)]);
    JudgedNothing(v);
    EmittedJudged(closed, [LoadSymbol(R0, x), Push(R0, DataStack)], 0);
    hide AfterAll, Last, Popped;
  }

  /** A word: its name, its statements, and its end. */
  lemma WordJudged(v: View, v1: View, v2: View, w: View, x: Symbol, es: seq<Event>, anonymous: bool)
    requires v1 == Opened(v, x, anonymous) && v2.labelStack != [] && v2.frame == v1.frame && w == Ended(v2)
    requires v2.notes.errors >= v1.notes.errors
    requires v1.frame.currentDefinition.Some? ==> Judged(v1, v2, es)
    requires AtTopLevel(v)
    ensures Judged(v, w, [Give(x)] + es + if anonymous then [Claim] else [])
  {
    OpenedJudged(v, x, anonymous);
    WordErrors(v2, "", true);
    var last := if anonymous then [Claim] else [];
    hide Ended, Judged, AfterAll;
    if x in v.notes.symbols {
      KnowingJudged(v, x);
      JudgedThen(v, v1, v2, [Give(x)], es);
      AfterThen(Noted(v), [Give(x)], es);
      JudgedThen(v, v2, w, [Give(x)] + es, last);
    } else {
      EndedJudged(v2);
      JudgedThen(v, v1, v2, [Give(x)], es);
      JudgedThen(v, v2, w, [Give(x)] + es, last);
    }
  }

  // ----- sources -----

  /** Source s has been judged. */
  ghost predicate Settled(v: View, w: View, s: Source) {
    Judged(v, w, SourceEvents(v.frame.definitions, s))
  }

  lemma BothSettled(v: View, v1: View, w: View, s: Source)
    requires s.Both? && v1.frame.definitions == v.frame.definitions && Settled(v, v1, s.first)
    requires Settled(v1, w, s.second)
    ensures Settled(v, w, s)
  {
    var d := v.frame.definitions;
    JudgedGrows(v1, w, SourceEvents(d, s.second));
    hide Judged;
    JudgedThen(v, v1, w, SourceEvents(d, s.first), SourceEvents(d, s.second));
  }

  lemma WordSettled(v: View, v1: View, v2: View, w: View, s: Source)
    requires (s.Definition? || s.Noname?) && AtTopLevel(v) && v.breakStack == [] && v1 == Opened(v, s.name, s.Noname?)
    requires v2.labelStack != [] && v2.frame == v1.frame && w == Ended(v2) && Judged(v1, v2, EventsAt(v1, s.body))
    ensures Settled(v, w, s)
  {
    JudgedGrows(v1, v2, EventsAt(v1, s.body));
    hide Judged, Ended;
    var es := StmtEvents(v.frame.definitions, false, false, s.body);
    WordJudged(v, v1, v2, w, s.name, es, s.Noname?);
    assert [Give(s.name)] + es + [] == [Give(s.name)] + es;
  }

  lemma AssemblerSettled(v: View, w: View, s: Source)
    requires s.Assembler? && w.notes == CodeOpened(v, s.name).notes
    ensures Settled(v, w, s)
  {
    OpenedJudged(v, s.name, false);
    hide Judged, CodeOpened;
    JudgedAs(v, CodeOpened(v, s.name), w, [Give(s.name)]);
  }

  lemma DeclarationSettled(v: View, s: Source)
    requires s.Declaration?
    ensures Settled(v, Named(v, s.name), s)
  {
    KnowingJudged(v, s.name);
    hide Judged, Named;
  }

  lemma StatementSettled(v: View, w: View, s: Source)
    requires s.Statement? && AtTopLevel(v) && v.breakStack == [] && Judged(v, w, EventsAt(v, s.body))
    ensures Settled(v, w, s)
  {
    hide Judged;
  }

  lemma NothingSettled(v: View, s: Source)
    requires s.Nothing?
    ensures Settled(v, v, s)
  {
    JudgedNothing(v);
    hide Judged;
  }

  /** From the start there are no complaints exactly when all is clear. */
  lemma SettledClear(v: View, w: View, s: Source)
    requires v == Initial(v.frame.definitions) && Settled(v, w, s)
    ensures w.notes.errors == 0 <==> Clear(SourceEvents(v.frame.definitions, s))
  {
    ClearIs(SourceEvents(v.frame.definitions, s));
    hide AfterAll, Clear, SourceEvents;
  }
}
