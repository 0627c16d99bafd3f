/** The calls that the grammar makes of the parser's handlers, and what each of
    them does to the state of the parser. */
module Tokens {
  import opened Options
  import opened Machine
  import opened Statements
  import opened AssemblerLines
  import opened ParserStates

  /** A single stands for a literal, a name, a string, or a word like EXIT, which
      are statements by themselves. */
  datatype Token =
    | Single(s: Stmt)
    | IfToken | ElseToken | ThenToken
    | DoToken(query: bool) | LoopToken | PlusLoopToken
    | BeginToken | UntilToken | RepeatToken
    | CaseToken | OfToken | EndofToken | EndcaseToken
    | ColonToken(name: Symbol) | NonameToken(name: Symbol) | SemicolonToken
    | CodeToken(name: Symbol) | LineToken(line: string) | EndCodeToken
    | VariableToken(name: Symbol)
    | CondIfToken(test: string, negated: bool) | CondElseToken | CondThenToken
  {
    predicate IsConditional() {
      CondIfToken? || CondElseToken? || CondThenToken?
    }
  }

  predicate IsSingle(s: Stmt) {
    || s.Literal? || s.FloatLiteral? || s.Address? || s.Constant? || s.FloatConstant?
    || s.SetConstant? || s.SetFloatConstant? || s.CountedString? || s.StringLiteral? || s.PrintString? || s.AbortString?
    || s.Word? || s.Recurse? || s.Exit? || s.Leave? || s.QueryLeave? || s.While?
  }

  /** Singles are statements by themselves. */
  predicate WellMade(tokens: seq<Token>) {
    forall i :: 0 <= i < |tokens| && tokens[i].Single? ==> IsSingle(tokens[i].s)
  }

  /** Statements that take the name they mention. */
  predicate IsName(s: Stmt) {
    s.Word? || s.Address? || s.Constant? || s.FloatConstant?
  }

  predicate NeedsBreak(s: Stmt) {
    s.Leave? || s.QueryLeave? || s.While?
  }

  function SingleEffect(v: View, s: Stmt): View {
    var code := Code(v.Here(), s, v.labelSequence);
    if !IsSingle(s) then v
    else if IsName(s) then Knowing(Emitted(v, code, 0), s.symbol)
    else if s.SetConstant? || s.SetFloatConstant? then
      if s.symbol in v.notes.symbols then Complained(v) else Emitted(Knowing(v, s.symbol), code, 0)
    else if s.PrintString? then Emitted(Knowing(v, TYPE_WORD), code, 0)
    else if s.AbortString? then Emitted(Knowing(v, ABORT_WORD), code, 1)
    else if s.Recurse? && v.frame.currentDefinition.None? then Complained(v)
    else if NeedsBreak(s) && v.breakStack == [] then Complained(v)
    else Emitted(v, code, 0)
  }

  /** What a handler does when it takes effect.  Handlers rely on the labels that
      others have left; without them the compiler stops on an assertion. */
  function Effect(v: View, t: Token): Option<View> {
    var n, labels, breaks := v.labelSequence, v.labelStack, v.breakStack;
    var k := |labels|;
    match t
    case Single(s) => Some(SingleEffect(v, s))
    case IfToken => Some(Emitted(v, IfCode(n), 1).(labelStack := labels + [n]))
    case ElseToken =>
      if k < 1 then None
      else Some(Emitted(v, [Jump(n), Label(Last(labels))], 1).(labelStack := Popped(labels) + [n]))
    case ThenToken =>
      if k < 1 then None else Some(Emitted(v, [Label(Last(labels))], 0).(labelStack := Popped(labels)))
    case DoToken(query) =>
      Some(Emitted(v, DoCode(query, n) + EnterCode() + [Label(n + 1)], 3)
             .(labelStack := labels + [n, n + 1, n + 2], breakStack := breaks + [n + 2]))
    case LoopToken =>
      if k < 3 || breaks == [] then None
      else
        var skip, top, end := labels[k - 3], labels[k - 2], labels[k - 1];
        Some(Emitted(v, LoopCode(top) + [Label(end)] + UnloopCode() + [Label(skip)], 0)
               .(labelStack := labels[..k - 3], breakStack := Popped(breaks)))
    case PlusLoopToken =>
      if k < 3 || breaks == [] then None
      else
        var skip, top, end := labels[k - 3], labels[k - 2], labels[k - 1];
        Some(Emitted(v, PlusLoopCode(top, end, n) + [Label(end)] + UnloopCode() + [Label(skip)], 1)
               .(labelStack := labels[..k - 3], breakStack := Popped(breaks)))
    case BeginToken =>
      Some(Emitted(v, [Label(n)], 2).(labelStack := labels + [n, n + 1], breakStack := breaks + [n + 1]))
    case UntilToken =>
      if k < 2 || breaks == [] then None
      else
        Some(Emitted(v, IfCode(labels[k - 2]) + [Label(labels[k - 1])], 0)
               .(labelStack := labels[..k - 2], breakStack := Popped(breaks)))
    case RepeatToken =>
      if k < 2 || breaks == [] then None
      else
        Some(Emitted(v, [Jump(labels[k - 2])] + [Label(labels[k - 1])], 0)
               .(labelStack := labels[..k - 2], breakStack := Popped(breaks)))
    case CaseToken => Some(Emitted(v, [], 1).(labelStack := labels + [n], breakStack := breaks + [n]))
    case OfToken => Some(Emitted(v, OfCode(n), 1).(labelStack := labels + [n]))
    case EndofToken =>
      if k < 1 || breaks == [] then None
      else Some(Emitted(v, [Jump(Last(breaks))] + [Label(Last(labels))], 0).(labelStack := Popped(labels)))
    case EndcaseToken =>
      if k < 1 || breaks == [] then None
      else
        Some(Emitted(v, [Label(Last(labels))] + [Opcode.Pop(R0, DataStack)], 0)
               .(labelStack := Popped(labels), breakStack := Popped(breaks)))
    case ColonToken(x) => Some(Opened(v, x, false))
    case NonameToken(x) => Some(Opened(v, x, true))
    case SemicolonToken => if k < 1 then None else Some(Ended(v))
    case CodeToken(x) => Some(CodeOpened(v, x))
    case LineToken(line) => Some(if CodePart(line) == "" then v else v.(table := v.table + [Assembly(CodePart(line))]))
    case EndCodeToken =>
      Some(if v.frame.currentDefinition.None? then v
           else v.(frame := v.frame.(currentDefinition := None),
                   table := v.table + [EndDefine(v.frame.currentDefinition.value)]))
    case VariableToken(x) => Some(Named(v, x))
    case _ => Some(v)
  }

  function WithConditions(v: View, conditions: seq<bool>): View {
    v.(frame := v.frame.(condStack := conditions))
  }

  /** A call as the grammar makes it: the handlers of conditions always run, all
      others only while no condition is false. */
  function Step(v: View, t: Token): Option<View> {
    var conditions := v.frame.condStack;
    var k := |conditions|;
    match t
    case CondIfToken(test, negated) =>
      Some(WithConditions(v, conditions + [Selected(v.frame.definitions, test, negated)]))
    case CondElseToken =>
      Some(if k == 0 then Complained(v) else WithConditions(v, conditions[k - 1 := !conditions[k - 1]]))
    case CondThenToken =>
      Some(if k == 0 then Complained(v) else WithConditions(v, conditions[..k - 1]))
    case _ => if v.Active() then Effect(v, t) else Some(v)
  }

  lemma BeginEffect(v: View)
    ensures Step(v, BeginToken) == Some(if !v.Active() then v else
      Emitted(v, [Label(v.labelSequence)], 2)
        .(labelStack := v.labelStack + [v.labelSequence, v.labelSequence + 1],
          breakStack := v.breakStack + [v.labelSequence + 1]))
  {
  }

  lemma BackEffect(v: View)
    requires v.Active() ==> |v.labelStack| >= 2 && v.breakStack != []
    ensures var k := |v.labelStack|;
      && Step(v, UntilToken) == Some(if !v.Active() then v else
        Emitted(v, IfCode(v.labelStack[k - 2]) + [Label(v.labelStack[k - 1])], 0)
          .(labelStack := v.labelStack[..k - 2], breakStack := Popped(v.breakStack)))
      && Step(v, RepeatToken) == Some(if !v.Active() then v else
        Emitted(v, [Jump(v.labelStack[k - 2])] + [Label(v.labelStack[k - 1])], 0)
          .(labelStack := v.labelStack[..k - 2], breakStack := Popped(v.breakStack)))
  {
    hide Emitted, IfCode;
  }

  lemma LoopEffect(v: View)
    requires v.Active() ==> |v.labelStack| >= 3 && v.breakStack != []
    ensures var k := |v.labelStack|;
      && Step(v, LoopToken) == Some(if !v.Active() then v else
        var skip, top, end := v.labelStack[k - 3], v.labelStack[k - 2], v.labelStack[k - 1];
        Emitted(v, LoopCode(top) + [Label(end)] + UnloopCode() + [Label(skip)], 0)
          .(labelStack := v.labelStack[..k - 3], breakStack := Popped(v.breakStack)))
      && Step(v, PlusLoopToken) == Some(if !v.Active() then v else
        var skip, top, end := v.labelStack[k - 3], v.labelStack[k - 2], v.labelStack[k - 1];
        Emitted(v, PlusLoopCode(top, end, v.labelSequence) + [Label(end)] + UnloopCode() + [Label(skip)], 1)
          .(labelStack := v.labelStack[..k - 3], breakStack := Popped(v.breakStack)))
  {
    hide Emitted, LoopCode, PlusLoopCode, UnloopCode;
  }

  lemma CaseEffect(v: View)
    ensures var n := v.labelSequence;
      && Step(v, CaseToken) == Some(if !v.Active() then v else
        Emitted(v, [], 1).(labelStack := v.labelStack + [n], breakStack := v.breakStack + [n]))
      && Step(v, OfToken) == Some(if !v.Active() then v else
        Emitted(v, OfCode(n), 1).(labelStack := v.labelStack + [n]))
  {
    hide Emitted, OfCode;
  }

  lemma EndEffect(v: View)
    requires v.Active() ==> v.labelStack != [] && v.breakStack != []
    ensures Step(v, EndofToken) == Some(if !v.Active() then v else
      Emitted(v, [Jump(Last(v.breakStack))] + [Label(Last(v.labelStack))], 0).(labelStack := Popped(v.labelStack)))
    ensures Step(v, EndcaseToken) == Some(if !v.Active() then v else
      Emitted(v, [Label(Last(v.labelStack))] + [Opcode.Pop(R0, DataStack)], 0)
        .(labelStack := Popped(v.labelStack), breakStack := Popped(v.breakStack)))
  {
    hide Emitted;
  }

  lemma SingleStep(v: View, s: Stmt)
    ensures Step(v, Single(s)) == Some(if v.Active() then SingleEffect(v, s) else v)
  {
    hide SingleEffect;
  }

  lemma OpenEffect(v: View, x: Symbol)
    ensures Step(v, ColonToken(x)) == Some(if v.Active() then Opened(v, x, false) else v)
    ensures Step(v, NonameToken(x)) == Some(if v.Active() then Opened(v, x, true) else v)
    ensures Step(v, CodeToken(x)) == Some(if v.Active() then CodeOpened(v, x) else v)
    ensures v.labelStack != [] ==> Step(v, SemicolonToken) == Some(if v.Active() then Ended(v) else v)
    ensures !v.Active() ==> Step(v, SemicolonToken) == Some(v)
  {
    hide Opened, CodeOpened, Ended;
  }

  const MAX_ALLOWED_ERRORS: nat := 20

  predicate Excessive(v: View) {
    v.notes.errors >= MAX_ALLOWED_ERRORS
  }

  /** Calls one after the other.  With the limit on errors, the parser gives up
      before the next call when there are too many. */
  function Drive(limited: bool, v: View, tokens: seq<Token>): Option<View>
    decreases |tokens|
  {
    if tokens == [] || (limited && Excessive(v)) then Some(v)
    else
      match Step(v, tokens[0])
      case None => None
      case Some(w) => Drive(limited, w, tokens[1..])
  }

  /** The end of the file, or giving up, and the parser's own last checks. */
  function Finished(v: View): View {
    var w :=
      if Excessive(v) then Complained(v)
      else if v.frame.condStack != [] then Complained(v)
      else v;
    if w.notes.errors > 0 then w
    else
      w.(notes := w.notes.(errors :=
        (if w.labelStack == [] && w.breakStack == [] && w.frame.condStack == [] then 0 else 1)
        + (if w.frame.currentDefinition.None? then 0 else 1) + (if w.frame.exitLabel == 0 then 0 else 1)))
  }

  /** The complaints that a run ends with, of which there were n before its end. */
  function Complaints(n: nat, v: View): nat {
    if n >= 20 || v.frame.condStack != [] then n + 1
    else if n > 0 then n
    else
      (if v.labelStack == [] && v.breakStack == [] then 0 else 1)
      + (if v.frame.currentDefinition.None? then 0 else 1) + (if v.frame.exitLabel == 0 then 0 else 1)
  }

  /** Nothing is left open. */
  predicate Closed(v: View) {
    && v.labelStack == [] && v.breakStack == [] && v.frame.condStack == []
    && v.frame.currentDefinition.None? && v.frame.exitLabel == 0
  }

  /** The last checks change nothing but the number of complaints; there are none in
      the end exactly when there were none before and nothing is left open. */
  lemma FinishedChecks(v: View)
    ensures var w, n := Finished(v), v.notes.errors;
      && w == v.(notes := v.notes.(errors := Complaints(n, v)))
      && (w.notes.errors == 0 <==> n == 0 && Closed(w))
  {
  }

  // ----- calls in a row -----

  lemma {:induction false} DriveThen(limited: bool, v: View, a: seq<Token>, b: seq<Token>)
    ensures Drive(limited, v, a + b) ==
      match Drive(limited, v, a)
      case None => None
      case Some(w) => Drive(limited, w, b)
    decreases |a|
  {
    hide Step;
    if a == [] {
      assert a + b == b;
    } else {
      assert (a + b)[0] == a[0] && (a + b)[1..] == a[1..] + b;
      if !(limited && Excessive(v)) && Step(v, a[0]).Some? {
        DriveThen(limited, Step(v, a[0]).value, a[1..], b);
      }
    }
  }

  lemma DriveOne(v: View, t: Token)
    ensures Drive(false, v, [t]) == Step(v, t)
  {
    hide Step;
    if Step(v, t).Some? {
      assert Drive(false, Step(v, t).value, [t][1..]) == Step(v, t);
    }
  }

  lemma EmittedErrors(v: View)
    ensures forall code, k: nat :: Emitted(v, code, k).notes.errors >= v.notes.errors
  {
  }

  lemma SingleErrors(v: View, s: Stmt)
    ensures SingleEffect(v, s).notes.errors >= v.notes.errors
  {
    hide Code;
    EmittedErrors(v);
  }

  lemma WordErrors(v: View, x: Symbol, anonymous: bool)
    ensures Opened(v, x, anonymous).notes.errors >= v.notes.errors && CodeOpened(v, x).notes.errors >= v.notes.errors
    ensures v.labelStack != [] ==> Ended(v).notes.errors >= v.notes.errors
  {
  }

  /** Complaints never go away. */
  lemma StepErrors(v: View, t: Token)
    requires Step(v, t).Some?
    ensures Step(v, t).value.notes.errors >= v.notes.errors
  {
    hide Emitted, SingleEffect, Opened, CodeOpened, Ended, IfCode, DoCode, EnterCode, LoopCode, UnloopCode,
      PlusLoopCode, OfCode, AllTrue, Selected, CodePart;
    EmittedErrors(v);
    if t.Single? {
      SingleErrors(v, t.s);
    } else if t.ColonToken? || t.NonameToken? || t.CodeToken? {
      WordErrors(v, t.name, t.NonameToken?);
    } else if t.SemicolonToken? {
      WordErrors(v, "", true);
    }
  }

  lemma {:induction false} DriveErrors(limited: bool, v: View, tokens: seq<Token>)
    requires Drive(limited, v, tokens).Some?
    ensures Drive(limited, v, tokens).value.notes.errors >= v.notes.errors
    decreases |tokens|
  {
    hide Step;
    if tokens != [] && !(limited && Excessive(v)) {
      StepErrors(v, tokens[0]);
      DriveErrors(limited, Step(v, tokens[0]).value, tokens[1..]);
    }
  }

  /** The limit on errors only shortens a run that has twenty of them; when they are
      there nothing more is read. */
  lemma {:induction false} LimitedRun(v: View, tokens: seq<Token>)
    requires Drive(false, v, tokens).Some?
    ensures Drive(true, v, tokens).Some?
    ensures var all, run := Drive(false, v, tokens).value, Drive(true, v, tokens).value;
      run == all || (run.notes.errors >= 20 && all.notes.errors >= 20)
    ensures v.notes.errors >= 20 ==> Drive(true, v, tokens).value == v
    decreases |tokens|
  {
    hide Step;
    if tokens != [] {
      if Excessive(v) {
        DriveErrors(false, v, tokens);
      } else {
        LimitedRun(Step(v, tokens[0]).value, tokens[1..]);
      }
    }
  }
}
