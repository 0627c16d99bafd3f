/** The emitted opcodes do what the statements mean. */
module Compilation {
  import opened Options
  import opened Machine
  import opened Shape
  import opened Statements
  import opened Stepping

  // ----- compiled programs -----

  /** LEAVE, WHILE and the like stand in a loop or case, RECURSE in a word. */
  predicate Scoped(c: Context, s: Stmt)
    decreases s
  {
    match s
    case Sequence(a, b) => Scoped(c, a) && Scoped(c, b)
    case Recurse => c.self.Some?
    case Leave => c.breakLabel.Some?
    case QueryLeave => c.breakLabel.Some?
    case While => c.breakLabel.Some?
    case If(a) => Scoped(c, a)
    case IfElse(a, b) => Scoped(c, a) && Scoped(c, b)
    case DoLoop(_, body, _) => Scoped(c.(breakLabel := Some(0)), body)
    case BeginUntil(body) => Scoped(c.(breakLabel := Some(0)), body)
    case BeginAgain(body) => Scoped(c.(breakLabel := Some(0)), body)
    case Case(body) => Scoped(c.(breakLabel := Some(0)), body)
    case Of(test, body, rest) => c.breakLabel.Some? && Scoped(c, test) && Scoped(c, body) && Scoped(c, rest)
    case Conditional(name, negated, a, b) => Scoped(c, if Selected(c.definitions, name, negated) then a else b)
    case _ => true
  }

  /** Scoping does not depend on which labels are used. */
  lemma {:induction false} ScopedAnyLabels(c: Context, c2: Context, s: Stmt)
    requires c.breakLabel.Some? == c2.breakLabel.Some? && c.self == c2.self && c.definitions == c2.definitions
    ensures Scoped(c, s) == Scoped(c2, s)
    decreases s
  {
    match s
    case Sequence(a, b) => ScopedAnyLabels(c, c2, a); ScopedAnyLabels(c, c2, b);
    case If(a) => ScopedAnyLabels(c, c2, a);
    case IfElse(a, b) => ScopedAnyLabels(c, c2, a); ScopedAnyLabels(c, c2, b);
    case DoLoop(_, body, _) => ScopedAnyLabels(c.(breakLabel := Some(0)), c2.(breakLabel := Some(0)), body);
    case BeginUntil(body) => ScopedAnyLabels(c.(breakLabel := Some(0)), c2.(breakLabel := Some(0)), body);
    case BeginAgain(body) => ScopedAnyLabels(c.(breakLabel := Some(0)), c2.(breakLabel := Some(0)), body);
    case Case(body) => ScopedAnyLabels(c.(breakLabel := Some(0)), c2.(breakLabel := Some(0)), body);
    case Of(test, body, rest) =>
      ScopedAnyLabels(c, c2, test); ScopedAnyLabels(c, c2, body); ScopedAnyLabels(c, c2, rest);
    case Conditional(name, negated, a, b) =>
      ScopedAnyLabels(c, c2, if Selected(c.definitions, name, negated) then a else b);
    case _ =>
  }

  /** The code of word s of the program is in the table, as the parser lays it out. */
  ghost predicate Placed(t: Table, p: Program, s: Symbol, c: Context, n: int)
    requires s in p.words
  {
    var d := IndexOf(t, Define(s));
    && c.breakLabel.None? && c.definitions == p.definitions && (c.self.Some? ==> c.self.value == s)
    && Scoped(c, p.words[s])
    && d < |t| && At(t, d + 1, Code(c, p.words[s], n) + [Label(c.exitLabel), EndDefine(s)])
  }

  ghost predicate CodePlaced(t: Table, p: Program, s: Symbol)
    requires s in p.codes
  {
    var d := IndexOf(t, Define(s));
    && d < |t| && AssemblyBlock(t, d + 1) == p.codes[s]
    && d + 1 + |p.codes[s]| < |t| && t[d + 1 + |p.codes[s]|].EndDefine?
  }

  /** The world outside does not look at the registers. */
  ghost predicate RegisterBlind(env: Env) {
    && (forall s, st :: Seen(env.external(s, st)) == Seen(env.external(s, State(0, 0, st.core))))
    && (forall block, st :: Seen(env.assembly(block, st)) == Seen(env.assembly(block, State(0, 0, st.core))))
  }

  ghost predicate Compiled(t: Table, p: Program, env: Env) {
    && UniqueLabels(t) && RegisterBlind(env)
    && (forall s :: s in p.words ==> exists c, n :: Placed(t, p, s, c, n))
    && (forall s :: s in p.codes ==> s !in p.words && CodePlaced(t, p, s))
    && (forall s :: s !in p.words && s !in p.codes ==> IndexOf(t, Define(s)) == |t|)
  }

  // ----- putting pieces together -----

  lemma PlainThen(t: Table, env: Env, c: Context, p: nat, code: Table, st: State, next: nat, res: Result, fuel: nat)
    requires AllPlain(code) && At(t, p, code)
    requires var o := PlainCode(env, code, st);
      if o.Done? then Matches(t, env, c, p + |code|, o.state, next, res, fuel) else Seen(o) == res
    ensures Matches(t, env, c, p, st, next, res, fuel)
  {
    hide Run, At, Arrives;
    var o := PlainCode(env, code, st);
    PlainSteps(t, env, p, code, st);
    if o.Done? {
      StepsThenMatches(t, env, c, p, st, p + |code|, o.state, 0, 0, next, res, fuel, fuel);
    } else {
      assert EndsSeen(t, env, p, st, res);
    }
  }

  lemma SkipThen(t: Table, env: Env, c: Context, p: nat, st: State, next: nat, res: Result, fuel: nat)
    requires p < |t| && (t[p].Label? || t[p].NoOp?)
    requires Matches(t, env, c, p + 1, st, next, res, fuel)
    ensures Matches(t, env, c, p, st, next, res, fuel)
  {
    hide Run, Matches;
    SkipStep(t, env, p, st);
    StepsThenMatches(t, env, c, p, st, p + 1, st, 0, 0, next, res, fuel, fuel);
  }

  /** A branch; the way taken may have one unit of fuel less. */
  lemma BranchThen(t: Table, env: Env, c: Context, p: nat, st: State, next: nat, res: Result, fuel: nat, fuel2: nat)
    requires p < |t| && t[p].Branch? && fuel <= fuel2 + 1
    requires if Taken(t[p].condition, st)
             then Matches(t, env, c, IndexOf(t, Label(t[p].target)), st, next, res, fuel2)
             else Matches(t, env, c, p + 1, st, next, res, fuel)
    ensures Matches(t, env, c, p, st, next, res, fuel)
  {
    hide Run, Matches;
    BranchStep(t, env, p, st);
    if Taken(t[p].condition, st) {
      StepsThenMatches(t, env, c, p, st, IndexOf(t, Label(t[p].target)), st, 1, 1, next, res, fuel, fuel2);
    } else {
      StepsThenMatches(t, env, c, p, st, p + 1, st, 0, 0, next, res, fuel, fuel);
    }
  }

  /** A taken branch without fuel gets nowhere. */
  lemma BranchWithoutFuel(t: Table, env: Env, c: Context, p: nat, st: State, next: nat)
    requires p < |t| && t[p].Branch? && Taken(t[p].condition, st)
    ensures Matches(t, env, c, p, st, next, OutOfFuel, 0)
  {
  }

  lemma ArrivedMatches(t: Table, env: Env, c: Context, p: nat, st: State, fuel: nat)
    ensures Matches(t, env, c, p, st, p, Normal(st.core), fuel)
    ensures c.breakLabel.Some? && p == IndexOf(t, Label(c.breakLabel.value)) ==>
      forall next: nat :: Matches(t, env, c, p, st, next, Broke(st.core), fuel)
    ensures p == IndexOf(t, Label(c.exitLabel)) ==>
      forall next: nat :: Matches(t, env, c, p, st, next, Exited(st.core), fuel)
  {
    hide Run;
    StepsHere(t, env, p, st);
    assert Arrives(t, env, p, st, p, st.core);
  }

  /** When the run gets to mid, what it does from there is what it does. */
  lemma AfterArrival(t: Table, env: Env, c: Context, p: nat, st: State, mid: nat, core: Core,
                     next: nat, res: Result, fuel: nat)
    requires Arrives(t, env, p, st, mid, core)
    requires forall st2: State :: st2.core == core ==> Matches(t, env, c, mid, st2, next, res, fuel)
    ensures Matches(t, env, c, p, st, next, res, fuel)
  {
    hide Run, Matches, Steps;
    var st2: State, k: nat, need: nat :| st2.core == core && Steps(t, env, p, st, mid, st2, k, need);
    StepsThenMatches(t, env, c, p, st, mid, st2, k, need, next, res, fuel, fuel);
  }

  /** Other ways to end do not depend on the position after the statement, nor
      on the break label unless they break. */
  lemma OtherResult(t: Table, env: Env, c: Context, inner: Context, p: nat, st: State, next: nat, next2: nat,
                    res: Result, fuel: nat)
    requires Matches(t, env, inner, p, st, next, res, fuel)
    requires !res.Normal? && (res.Broke? ==> c.breakLabel == inner.breakLabel) && c.exitLabel == inner.exitLabel
    ensures Matches(t, env, c, p, st, next2, res, fuel)
  {
  }

  // ----- calls -----

  ghost predicate CallSeen(t: Table, env: Env, x: Symbol, st: State, res: Result, fuel: nat) {
    if res.OutOfFuel? then forall h: nat :: h <= fuel ==> CallWord(t, env, x, st, h) == Timeout
    else exists o: Outcome, need: nat :: CallEnds(t, env, x, st, o, need) && Seen(o) == res
  }

  ghost predicate CallEnds(t: Table, env: Env, x: Symbol, st: State, o: Outcome, need: nat) {
    o != Timeout && forall h: nat :: CallWord(t, env, x, st, h) == if h < need then Timeout else o
  }

  lemma CallThen(t: Table, env: Env, c: Context, p: nat, x: Symbol, st: State, res: Result, fuel: nat)
    requires p < |t| && t[p] == Call(x) && CallSeen(t, env, x, st, res, fuel)
    requires !res.Broke? && !res.Exited?
    ensures Matches(t, env, c, p, st, p + 1, res, fuel)
  {
    if !res.OutOfFuel? {
      var o: Outcome, need: nat :| CallEnds(t, env, x, st, o, need) && Seen(o) == res;
      forall h: nat ensures Run(t, env, p, st, h) ==
        if h < need then Timeout else if o.Done? then Run(t, env, p + 1, o.state, h) else o {
        assert CallWord(t, env, x, st, h) == if h < need then Timeout else o;
      }
      if o.Done? {
        assert Steps(t, env, p, st, p + 1, o.state, 0, need);
        assert Arrives(t, env, p, st, p + 1, o.state.core);
      } else {
        assert Ends(t, env, p, st, o, need);
        assert EndsSeen(t, env, p, st, res);
      }
    } else {
      forall h: nat | h <= fuel ensures Run(t, env, p, st, h) == Timeout {
        assert CallWord(t, env, x, st, h) == Timeout;
      }
    }
  }

  lemma OutsideCall(t: Table, p: Program, env: Env, x: Symbol, st: State, fuel: nat)
    requires Compiled(t, p, env) && x !in p.words
    ensures CallSeen(t, env, x, st, Outside(p, env, x, st.core), fuel)
  {
    hide Run, UniqueLabels, Placed, CallWord, CodePlaced, CallSeen, Outside, RegisterBlind;
    var o := OutsideOutcome(p, env, x, st);
    if x !in p.codes {
      ExternalCall(t, env, x, st);
      CallEndsSeen(t, env, x, st, o, 0, fuel);
    } else {
      CodeCall(t, p, env, x, st, o);
      CallEndsSeen(t, env, x, st, o, 1, fuel);
    }
  }

  /** Words outside the program do not look at registers. */
  lemma OutsideOutcome(p: Program, env: Env, x: Symbol, st: State) returns (o: Outcome)
    requires RegisterBlind(env)
    ensures Seen(o) == Outside(p, env, x, st.core)
    ensures o == if x !in p.codes then env.external(x, st)
      else if p.codes[x] == [] then Done(st) else env.assembly(p.codes[x], st)
  {
    o := if x !in p.codes then env.external(x, st)
      else if p.codes[x] == [] then Done(st) else env.assembly(p.codes[x], st);
  }

  lemma ExternalCall(t: Table, env: Env, x: Symbol, st: State)
    requires IndexOf(t, Define(x)) == |t|
    ensures forall h: nat :: CallWord(t, env, x, st, h) == env.external(x, st)
  {
    hide Run;
  }

  lemma CallEndsSeen(t: Table, env: Env, x: Symbol, st: State, o: Outcome, need: nat, fuel: nat)
    requires forall h: nat :: CallWord(t, env, x, st, h) == if h < need then Timeout else o
    ensures CallSeen(t, env, x, st, Seen(o), fuel)
  {
    hide CallWord;
    if o != Timeout {
      assert CallEnds(t, env, x, st, o, need);
    }
  }

  lemma CodeCall(t: Table, p: Program, env: Env, x: Symbol, st: State, o: Outcome)
    requires x in p.codes && CodePlaced(t, p, x)
    requires o == if p.codes[x] == [] then Done(st) else env.assembly(p.codes[x], st)
    ensures forall h: nat :: CallWord(t, env, x, st, h) == if h == 0 then Timeout else o
  {
    hide Run, AssemblyBlock;
    var d := IndexOf(t, Define(x));
    forall h: nat ensures CallWord(t, env, x, st, h) == if h == 0 then Timeout else o {
      if h > 0 { BlockReturns(t, env, d + 1, st, h - 1); }
    }
  }

  lemma BlockReturns(t: Table, env: Env, q: nat, st: State, h: nat)
    requires q < |t| && var n := |AssemblyBlock(t, q)|; q + n < |t| && t[q + n].EndDefine?
    ensures Run(t, env, q, st, h) == if AssemblyBlock(t, q) == [] then Done(st)
      else env.assembly(AssemblyBlock(t, q), st)
  {
  }
}
