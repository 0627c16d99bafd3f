/** Steps of the machine through emitted code, counted exactly in fuel. */
module Stepping {
  import opened Machine
  import opened Shape
  import opened Statements

  /** t holds code from position p on. */
  ghost predicate At(t: Table, p: nat, code: Table) {
    p + |code| <= |t| && t[p..p + |code|] == code
  }

  lemma AtSplit(t: Table, p: nat, a: Table, b: Table)
    requires At(t, p, a + b)
    ensures At(t, p, a) && At(t, p + |a|, b)
  {
    assert t[p..p + |a + b|] == a + b;
    assert t[p..p + |a|] == (a + b)[..|a|];
    assert t[p + |a|..p + |a| + |b|] == (a + b)[|a|..];
  }

  lemma AtOne(t: Table, p: nat, op: Opcode)
    requires At(t, p, [op])
    ensures p < |t| && t[p] == op
  {
    assert t[p..p + 1][0] == op;
  }

  lemma AtTwo(t: Table, p: nat, op1: Opcode, op2: Opcode)
    requires At(t, p, [op1, op2])
    ensures p + 1 < |t| && t[p] == op1 && t[p + 1] == op2
  {
    assert t[p..p + 2][0] == op1 && t[p..p + 2][1] == op2;
  }

  lemma LabelAt(t: Table, p: nat, n: int)
    requires UniqueLabels(t) && p < |t| && t[p] == Label(n)
    ensures IndexOf(t, Label(n)) == p
  {
    assert Once(t, Label(n));
    IndexOfOnce(t, Label(n), p);
  }

  /** The run from (p, st) is the run from (q, st2), after k units of fuel; it
      needs at least need units. */
  ghost predicate Steps(t: Table, env: Env, p: nat, st: State, q: nat, st2: State, k: nat, need: nat) {
    k <= need && forall h: nat :: Run(t, env, p, st, h) == if h < need then Timeout else Run(t, env, q, st2, h - k)
  }

  /** The run from (p, st) ends with outcome o as soon as it has need units of fuel. */
  ghost predicate Ends(t: Table, env: Env, p: nat, st: State, o: Outcome, need: nat) {
    o != Timeout && forall h: nat :: Run(t, env, p, st, h) == if h < need then Timeout else o
  }

  /** The run from (p, st) gets to position q with the given stacks and memory. */
  ghost predicate Arrives(t: Table, env: Env, p: nat, st: State, q: nat, core: Core) {
    exists st2: State, k: nat, need: nat :: st2.core == core && Steps(t, env, p, st, q, st2, k, need)
  }

  ghost predicate EndsSeen(t: Table, env: Env, p: nat, st: State, res: Result) {
    exists o: Outcome, need: nat :: Seen(o) == res && Ends(t, env, p, st, o, need)
  }

  /** The run from (p, st) does what res says; normal completion gets to next. */
  ghost predicate Matches(t: Table, env: Env, c: Context, p: nat, st: State, next: nat, res: Result, fuel: nat) {
    match res
    case Normal(core) => Arrives(t, env, p, st, next, core)
    case Broke(core) => c.breakLabel.Some? && Arrives(t, env, p, st, IndexOf(t, Label(c.breakLabel.value)), core)
    case Exited(core) => Arrives(t, env, p, st, IndexOf(t, Label(c.exitLabel)), core)
    case Trapped(_, _) => EndsSeen(t, env, p, st, res)
    case Wrong(_) => EndsSeen(t, env, p, st, res)
    case OutOfFuel => forall h: nat :: h <= fuel ==> Run(t, env, p, st, h) == Timeout
  }

  // ----- composing steps -----

  lemma StepsHere(t: Table, env: Env, p: nat, st: State)
    ensures Steps(t, env, p, st, p, st, 0, 0)
  {
  }

  lemma StepsThen(t: Table, env: Env, p: nat, st: State, q: nat, st2: State, k: nat, need: nat,
                  r: nat, st3: State, k2: nat, need2: nat)
    requires Steps(t, env, p, st, q, st2, k, need) && Steps(t, env, q, st2, r, st3, k2, need2)
    ensures Steps(t, env, p, st, r, st3, k + k2, if need < need2 + k then need2 + k else need)
  {
    hide Run;
  }

  lemma StepsThenArrives(t: Table, env: Env, p: nat, st: State, q: nat, st2: State, k: nat, need: nat, r: nat,
                         core: Core)
    requires Steps(t, env, p, st, q, st2, k, need) && Arrives(t, env, q, st2, r, core)
    ensures Arrives(t, env, p, st, r, core)
  {
    hide Steps;
    var st3: State, k2: nat, need2: nat :| st3.core == core && Steps(t, env, q, st2, r, st3, k2, need2);
    StepsThen(t, env, p, st, q, st2, k, need, r, st3, k2, need2);
  }

  lemma StepsThenEnds(t: Table, env: Env, p: nat, st: State, q: nat, st2: State, k: nat, need: nat, res: Result)
    requires Steps(t, env, p, st, q, st2, k, need) && EndsSeen(t, env, q, st2, res)
    ensures EndsSeen(t, env, p, st, res)
  {
    hide Run;
    var o: Outcome, need2: nat :| Seen(o) == res && Ends(t, env, q, st2, o, need2);
    assert Ends(t, env, p, st, o, if need < need2 + k then need2 + k else need);
  }

  /** What the run does from q on is what it does from p on. */
  lemma StepsThenMatches(t: Table, env: Env, c: Context, p: nat, st: State, q: nat, st2: State, k: nat, need: nat,
                         next: nat, res: Result, fuel: nat, fuel2: nat)
    requires Steps(t, env, p, st, q, st2, k, need) && Matches(t, env, c, q, st2, next, res, fuel2)
    requires fuel <= fuel2 + k
    ensures Matches(t, env, c, p, st, next, res, fuel)
  {
    hide Run, Arrives, EndsSeen;
    match res
    case Normal(core) => StepsThenArrives(t, env, p, st, q, st2, k, need, next, core);
    case Broke(core) => StepsThenArrives(t, env, p, st, q, st2, k, need, IndexOf(t, Label(c.breakLabel.value)), core);
    case Exited(core) => StepsThenArrives(t, env, p, st, q, st2, k, need, IndexOf(t, Label(c.exitLabel)), core);
    case Trapped(_, _) => StepsThenEnds(t, env, p, st, q, st2, k, need, res);
    case Wrong(_) => StepsThenEnds(t, env, p, st, q, st2, k, need, res);
    case OutOfFuel =>
  }

  // ----- single opcodes -----

  lemma SkipStep(t: Table, env: Env, p: nat, st: State)
    requires p < |t| && (t[p].Label? || t[p].NoOp?)
    ensures Steps(t, env, p, st, p + 1, st, 0, 0)
  {
  }

  lemma BranchStep(t: Table, env: Env, p: nat, st: State)
    requires p < |t| && t[p].Branch?
    ensures if Taken(t[p].condition, st) then Steps(t, env, p, st, IndexOf(t, Label(t[p].target)), st, 1, 1)
            else Steps(t, env, p, st, p + 1, st, 0, 0)
  {
  }

  /** Code of plain opcodes, run on its own. */
  function PlainCode(env: Env, code: Table, st: State): (o: Outcome)
    requires forall k :: 0 <= k < |code| ==> code[k].IsPlain()
    ensures o.Done? || o.Trap?
  {
    if code == [] then Done(st)
    else
      match Plain(env, code[0], st)
      case Done(st2) => PlainCode(env, code[1..], st2)
      case trap => trap
  }

  ghost predicate AllPlain(code: Table) {
    forall k :: 0 <= k < |code| ==> code[k].IsPlain()
  }

  lemma {:induction false} PlainRun(t: Table, env: Env, p: nat, code: Table, st: State, h: nat)
    requires AllPlain(code) && At(t, p, code)
    ensures var o := PlainCode(env, code, st);
      Run(t, env, p, st, h) == if o.Done? then Run(t, env, p + |code|, o.state, h) else o
    decreases |code|
  {
    if code != [] {
      assert [code[0]] + code[1..] == code;
      AtSplit(t, p, [code[0]], code[1..]);
      AtOne(t, p, code[0]);
      var o := Plain(env, code[0], st);
      if o.Done? {
        PlainRun(t, env, p + 1, code[1..], o.state, h);
      }
    }
  }

  lemma PlainSteps(t: Table, env: Env, p: nat, code: Table, st: State)
    requires AllPlain(code) && At(t, p, code)
    ensures var o := PlainCode(env, code, st);
      if o.Done? then Steps(t, env, p, st, p + |code|, o.state, 0, 0) else Ends(t, env, p, st, o, 0)
  {
    hide Run;
    forall h: nat ensures var o := PlainCode(env, code, st);
      Run(t, env, p, st, h) == if o.Done? then Run(t, env, p + |code|, o.state, h) else o {
      PlainRun(t, env, p, code, st, h);
    }
  }

  lemma PlainNext(env: Env, op: Opcode, rest: Table, st: State)
    requires op.IsPlain() && AllPlain(rest) && AllPlain([op] + rest)
    ensures var o := Plain(env, op, st);
      PlainCode(env, [op] + rest, st) == if o.Done? then PlainCode(env, rest, o.state) else o
  {
    assert ([op] + rest)[1..] == rest;
  }
}
