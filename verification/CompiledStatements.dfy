/** Every statement, compiled: the emitted opcodes against its meaning. */
module CompiledStatements {
  import opened Options
  import opened Machine
  import opened Shape
  import opened Statements
  import opened Stepping
  import opened Snippets
  import opened Compilation

  /** From any state, the code for s at position at does what s means. */
  ghost predicate Simulates(t: Table, p: Program, env: Env, c: Context, self: Symbol, s: Stmt, n: int, at: nat,
                            fuel: nat) {
    forall st: State :: Matches(t, env, c, at, st, at + |Code(c, s, n)|, Exec(p, env, self, s, st.core, fuel), fuel)
  }

  // ----- leaves and strings -----

  lemma LeafCase(t: Table, p: Program, env: Env, c: Context, self: Symbol, s: Stmt, n: int, at: nat, fuel: nat)
    requires IsLeaf(s) && At(t, at, Code(c, s, n))
    ensures Simulates(t, p, env, c, self, s, n, at, fuel)
  {
    hide Matches, At, PlainCode, Code, Leaf, AllPlain;
    forall st: State
      ensures Matches(t, env, c, at, st, at + |Code(c, s, n)|, Exec(p, env, self, s, st.core, fuel), fuel) {
      LeafCode(env, c, s, n, st);
      var o := PlainCode(env, Code(c, s, n), st);
      if o.Done? {
        ArrivedMatches(t, env, c, at + |Code(c, s, n)|, o.state, fuel);
      }
      PlainThen(t, env, c, at, Code(c, s, n), st, at + |Code(c, s, n)|, Leaf(env, s, st.core), fuel);
    }
  }

  /** Push a string, then call a word with it. */
  lemma StringCall(t: Table, p: Program, env: Env, c: Context, data: int, size: int, x: Symbol, at: nat, st: State,
                   res: Result, fuel: nat)
    requires At(t, at, StringCode(data, size) + [Call(x)])
    requires forall st2: State :: st2.core == StringOn(env, data, size, st.core) ==> CallSeen(t, env, x, st2, res, fuel)
    requires !res.Broke? && !res.Exited?
    ensures Matches(t, env, c, at, st, at + 5, res, fuel)
  {
    hide Matches, CallSeen, PlainCode, AllPlain;
    var code := StringCode(data, size);
    AtSplit(t, at, code, [Call(x)]);
    AtOne(t, at + 4, Call(x));
    StringCodeRun(env, data, size, st);
    var st2 := PlainCode(env, code, st).state;
    CallThen(t, env, c, at + 4, x, st2, res, fuel);
    PlainThen(t, env, c, at, code, st, at + 5, res, fuel);
  }

  /** Take a flag off the stack and branch on it. */
  lemma FlagThen(t: Table, env: Env, c: Context, at: nat, condition: Condition, target: int, st: State, next: nat,
                 res: Result, fuel: nat, fuel2: nat)
    requires At(t, at, [Pop(R0, DataStack), Branch(condition, target)])
    requires condition == Zero(R0) || condition == NonZero(R0)
    requires fuel <= fuel2 + 1
    requires !Has(st.core, DataStack) ==> res == Fault(st.core, DataStack)
    requires Has(st.core, DataStack) ==>
      var flag := Top(st.core, DataStack);
      var st2 := State(flag, st.r1, Drop(st.core, DataStack));
      if (flag == 0) == condition.Zero?
      then Matches(t, env, c, IndexOf(t, Label(target)), st2, next, res, fuel2) || (fuel == 0 && res == OutOfFuel)
      else Matches(t, env, c, at + 2, st2, next, res, fuel)
    ensures Matches(t, env, c, at, st, next, res, fuel)
  {
    hide Matches, PlainCode;
    var pop, branch := Pop(R0, DataStack), Branch(condition, target);
    AtTwo(t, at, pop, branch);
    assert [pop] + [branch] == [pop, branch];
    AtSplit(t, at, [pop], [branch]);
    PlainOne(env, pop, st);
    PopOutcome(env, R0, DataStack, st);
    if Has(st.core, DataStack) {
      var st2 := State(Top(st.core, DataStack), st.r1, Drop(st.core, DataStack));
      if Taken(condition, st2) && fuel == 0 && res == OutOfFuel {
        BranchWithoutFuel(t, env, c, at + 1, st2, next);
      } else {
        BranchThen(t, env, c, at + 1, st2, next, res, fuel, fuel2);
      }
    }
    PlainThen(t, env, c, at, [pop], st, next, res, fuel);
  }

  // ----- sequences and conditionals -----

  lemma SequenceMeaning(p: Program, env: Env, self: Symbol, a: Stmt, b: Stmt, core: Core, fuel: nat)
    ensures var r := Exec(p, env, self, a, core, fuel);
      Exec(p, env, self, Sequence(a, b), core, fuel) == if r.Normal? then Exec(p, env, self, b, r.core, fuel) else r
  {
  }

  lemma SequenceCase(t: Table, p: Program, env: Env, c: Context, self: Symbol, a: Stmt, b: Stmt, n: int, at: nat,
                     fuel: nat)
    requires Simulates(t, p, env, c, self, a, n, at, fuel)
    requires Simulates(t, p, env, c, self, b, n + Labels(c.definitions, a), at + |Code(c, a, n)|, fuel)
    ensures Simulates(t, p, env, c, self, Sequence(a, b), n, at, fuel)
  {
    hide Matches, Code, Labels, Exec;
    var s, mid := Sequence(a, b), at + |Code(c, a, n)|;
    CodeOfSequence(c, a, b, n);
    var next := at + |Code(c, s, n)|;
    forall st: State ensures Matches(t, env, c, at, st, next, Exec(p, env, self, s, st.core, fuel), fuel) {
      var first := Exec(p, env, self, a, st.core, fuel);
      SequenceMeaning(p, env, self, a, b, st.core, fuel);
      if first.Normal? {
        NormalArrives(t, env, c, at, st, mid, first.core, fuel);
        AfterArrival(t, env, c, at, st, mid, first.core, next, Exec(p, env, self, b, first.core, fuel), fuel);
      } else {
        OtherResult(t, env, c, c, at, st, mid, next, first, fuel);
      }
    }
  }

  lemma NormalArrives(t: Table, env: Env, c: Context, at: nat, st: State, mid: nat, core: Core, fuel: nat)
    requires Matches(t, env, c, at, st, mid, Normal(core), fuel)
    ensures Arrives(t, env, at, st, mid, core)
  {
  }

  lemma BrokeArrives(t: Table, env: Env, c: Context, at: nat, st: State, mid: nat, core: Core, fuel: nat)
    requires Matches(t, env, c, at, st, mid, Broke(core), fuel)
    ensures c.breakLabel.Some? && Arrives(t, env, at, st, IndexOf(t, Label(c.breakLabel.value)), core)
  {
  }

  /** After s comes a label: normal completion runs over it. */
  lemma ThenLabel(t: Table, env: Env, c: Context, at: nat, st: State, mid: nat, res: Result, fuel: nat)
    requires Matches(t, env, c, at, st, mid, res, fuel) && mid < |t| && t[mid].Label?
    ensures Matches(t, env, c, at, st, mid + 1, res, fuel)
  {
    hide Run, Steps;
    if res.Normal? {
      forall st2: State | st2.core == res.core ensures Matches(t, env, c, mid, st2, mid + 1, res, fuel) {
        ArrivedMatches(t, env, c, mid + 1, st2, fuel);
        SkipThen(t, env, c, mid, st2, mid + 1, res, fuel);
      }
      AfterArrival(t, env, c, at, st, mid, res.core, mid + 1, res, fuel);
    } else {
      OtherResult(t, env, c, c, at, st, mid, mid + 1, res, fuel);
    }
  }

  lemma IfLayout(t: Table, c: Context, a: Stmt, n: int, at: nat) returns (end: nat)
    requires UniqueLabels(t) && At(t, at, Code(c, If(a), n))
    ensures end == at + 2 + |Code(c, a, n + 1)| && end + 1 == at + |Code(c, If(a), n)|
    ensures At(t, at, IfCode(n)) && At(t, at + 2, Code(c, a, n + 1))
    ensures end < |t| && t[end] == Label(n) && IndexOf(t, Label(n)) == end
  {
    hide At, UniqueLabels, Code, IfCode, IndexOf;
    var code := Code(c, a, n + 1);
    end := at + 2 + |code|;
    CodeOfIf(c, a, n);
    AtSplit(t, at, IfCode(n) + code, [Label(n)]);
    AtSplit(t, at, IfCode(n), code);
    AtOne(t, end, Label(n));
    LabelAt(t, end, n);
  }

  lemma IfMeaning(p: Program, env: Env, self: Symbol, a: Stmt, core: Core, fuel: nat)
    ensures Exec(p, env, self, If(a), core, fuel) ==
      if !Has(core, DataStack) then Fault(core, DataStack)
      else if Top(core, DataStack) == 0 then Normal(Drop(core, DataStack))
      else Exec(p, env, self, a, Drop(core, DataStack), fuel)
  {
    hide Has, Top, Drop, Fault;
  }

  lemma IfElseMeaning(p: Program, env: Env, self: Symbol, a: Stmt, b: Stmt, core: Core, fuel: nat)
    ensures Exec(p, env, self, IfElse(a, b), core, fuel) ==
      if !Has(core, DataStack) then Fault(core, DataStack)
      else Exec(p, env, self, if Top(core, DataStack) == 0 then b else a, Drop(core, DataStack), fuel)
  {
    hide Has, Top, Drop, Fault;
  }

  lemma CaseMeaning(p: Program, env: Env, self: Symbol, body: Stmt, core: Core, fuel: nat)
    ensures var r := Exec(p, env, self, body, core, fuel);
      Exec(p, env, self, Case(body), core, fuel) == if r.Normal? || r.Broke? then EndCase(r.core) else r
  {
    hide EndCase;
  }

  lemma IfCase(t: Table, p: Program, env: Env, c: Context, self: Symbol, a: Stmt, n: int, at: nat, fuel: nat)
    requires UniqueLabels(t) && At(t, at, Code(c, If(a), n))
    requires Simulates(t, p, env, c, self, a, n + 1, at + 2, fuel)
    ensures Simulates(t, p, env, c, self, If(a), n, at, fuel)
  {
    hide Matches, Code, UniqueLabels, At, Exec;
    var end := IfLayout(t, c, a, n, at);
    forall st: State ensures Matches(t, env, c, at, st, end + 1, Exec(p, env, self, If(a), st.core, fuel), fuel) {
      IfMeaning(p, env, self, a, st.core, fuel);
      var res := Exec(p, env, self, If(a), st.core, fuel);
      if Has(st.core, DataStack) {
        var st2 := State(Top(st.core, DataStack), st.r1, Drop(st.core, DataStack));
        if Top(st.core, DataStack) == 0 {
          AtLabel(t, env, c, end, st2, fuel);
        } else {
          ThenLabel(t, env, c, at + 2, st2, end, res, fuel);
        }
      }
      FlagThen(t, env, c, at, Zero(R0), n, st, end + 1, res, fuel, fuel);
    }
  }

  /** At a label there is nothing more to do. */
  lemma AtLabel(t: Table, env: Env, c: Context, at: nat, st: State, fuel: nat)
    requires at < |t| && t[at].Label?
    ensures Matches(t, env, c, at, st, at + 1, Normal(st.core), fuel)
  {
    hide Matches;
    ArrivedMatches(t, env, c, at + 1, st, fuel);
    SkipThen(t, env, c, at, st, at + 1, Normal(st.core), fuel);
  }

  lemma IfElseLayout(t: Table, c: Context, a: Stmt, b: Stmt, n: int, at: nat) returns (m: int, over: nat, end: nat)
    requires UniqueLabels(t) && At(t, at, Code(c, IfElse(a, b), n))
    ensures m == n + 1 + Labels(c.definitions, a)
    ensures over == at + 2 + |Code(c, a, n + 1)| && end == over + 2 + |Code(c, b, m + 1)|
    ensures end + 1 == at + |Code(c, IfElse(a, b), n)|
    ensures At(t, at, IfCode(n)) && At(t, at + 2, Code(c, a, n + 1)) && At(t, over + 2, Code(c, b, m + 1))
    ensures over + 2 <= end < |t| && t[over] == Jump(m)
    ensures t[over + 1] == Label(n) && IndexOf(t, Label(n)) == over + 1
    ensures t[end] == Label(m) && IndexOf(t, Label(m)) == end
  {
    hide At, UniqueLabels, Code, Labels;
    CodeOfIfElse(c, a, b, n);
    m := n + 1 + Labels(c.definitions, a);
    var code1, code2 := Code(c, a, n + 1), Code(c, b, m + 1);
    over := at + 2 + |code1|;
    end := over + 2 + |code2|;
    AtSplit(t, at, ((IfCode(n) + code1) + [Jump(m), Label(n)]) + code2, [Label(m)]);
    AtSplit(t, at, (IfCode(n) + code1) + [Jump(m), Label(n)], code2);
    AtSplit(t, at, IfCode(n) + code1, [Jump(m), Label(n)]);
    AtSplit(t, at, IfCode(n), code1);
    AtTwo(t, over, Jump(m), Label(n));
    AtOne(t, end, Label(m));
    LabelAt(t, over + 1, n);
    LabelAt(t, end, m);
  }

  lemma IfElseCase(t: Table, p: Program, env: Env, c: Context, self: Symbol, a: Stmt, b: Stmt, n: int, at: nat,
                   fuel: nat)
    requires UniqueLabels(t) && At(t, at, Code(c, IfElse(a, b), n))
    requires Simulates(t, p, env, c, self, a, n + 1, at + 2, fuel)
    requires Simulates(t, p, env, c, self, b, n + 1 + Labels(c.definitions, a) + 1, at + 2 + |Code(c, a, n + 1)| + 2,
                       fuel)
    ensures Simulates(t, p, env, c, self, IfElse(a, b), n, at, fuel)
  {
    hide Matches, Code, UniqueLabels, At, Labels, IfCode, IndexOf, Exec;
    var m, over, end := IfElseLayout(t, c, a, b, n, at);
    forall st: State
      ensures Matches(t, env, c, at, st, end + 1, Exec(p, env, self, IfElse(a, b), st.core, fuel), fuel) {
      IfElseFrom(t, p, env, c, self, a, b, n, at, over, end, st, fuel);
    }
  }

  lemma IfElseFrom(t: Table, p: Program, env: Env, c: Context, self: Symbol, a: Stmt, b: Stmt, n: int, at: nat,
                   over: nat, end: nat, st: State, fuel: nat)
    requires At(t, at, IfCode(n)) && over + 2 <= end < |t|
    requires t[over].IsJump() && IndexOf(t, Label(t[over].target)) == end && t[end].Label?
    requires t[over + 1].Label? && IndexOf(t, Label(n)) == over + 1
    requires forall st2: State :: Matches(t, env, c, at + 2, st2, over, Exec(p, env, self, a, st2.core, fuel), fuel)
    requires forall st2: State :: Matches(t, env, c, over + 2, st2, end, Exec(p, env, self, b, st2.core, fuel), fuel)
    ensures Matches(t, env, c, at, st, end + 1, Exec(p, env, self, IfElse(a, b), st.core, fuel), fuel)
  {
    hide Matches, At, IndexOf, Exec;
    IfElseMeaning(p, env, self, a, b, st.core, fuel);
    var res := Exec(p, env, self, IfElse(a, b), st.core, fuel);
    if Has(st.core, DataStack) {
      var st2 := State(Top(st.core, DataStack), st.r1, Drop(st.core, DataStack));
      if Top(st.core, DataStack) == 0 {
        ThenLabel(t, env, c, over + 2, st2, end, res, fuel);
        SkipThen(t, env, c, over + 1, st2, end + 1, res, fuel);
      } else {
        ThenJump(t, env, c, at + 2, st2, over, end, res, fuel);
      }
    }
    FlagThen(t, env, c, at, Zero(R0), n, st, end + 1, res, fuel, fuel);
  }

  /** A jump to a label runs over it. */
  lemma JumpOverLabel(t: Table, env: Env, c: Context, at: nat, st: State, end: nat, fuel: nat)
    requires at < |t| && t[at].IsJump() && IndexOf(t, Label(t[at].target)) == end < |t|
    ensures Matches(t, env, c, at, st, end + 1, Normal(st.core), fuel)
  {
    hide Matches;
    AtLabel(t, env, c, end, st, fuel);
    BranchThen(t, env, c, at, st, end + 1, Normal(st.core), fuel, fuel);
  }

  /** After s comes a jump to a label further on. */
  lemma ThenJump(t: Table, env: Env, c: Context, at: nat, st: State, mid: nat, end: nat, res: Result, fuel: nat)
    requires Matches(t, env, c, at, st, mid, res, fuel)
    requires mid < |t| && t[mid].IsJump() && IndexOf(t, Label(t[mid].target)) == end < |t|
    ensures Matches(t, env, c, at, st, end + 1, res, fuel)
  {
    hide Matches;
    if res.Normal? {
      NormalArrives(t, env, c, at, st, mid, res.core, fuel);
      forall st2: State | st2.core == res.core ensures Matches(t, env, c, mid, st2, end + 1, res, fuel) {
        JumpOverLabel(t, env, c, mid, st2, end, fuel);
      }
      AfterArrival(t, env, c, at, st, mid, res.core, end + 1, res, fuel);
    } else {
      OtherResult(t, env, c, c, at, st, mid, end + 1, res, fuel);
    }
  }

  // ----- calls and leaving -----

  lemma PrintStringCase(t: Table, p: Program, env: Env, c: Context, self: Symbol, d: int, size: int, n: int, at: nat,
                        fuel: nat)
    requires At(t, at, Code(c, PrintString(d, size), n))
    requires forall st: State :: CallSeen(t, env, TYPE_WORD, st, CallStmt(p, env, TYPE_WORD, st.core, fuel), fuel)
    requires forall core ::
      !CallStmt(p, env, TYPE_WORD, core, fuel).Broke? && !CallStmt(p, env, TYPE_WORD, core, fuel).Exited?
    ensures Simulates(t, p, env, c, self, PrintString(d, size), n, at, fuel)
  {
    hide Matches, CallSeen, At;
    forall st: State
      ensures Matches(t, env, c, at, st, at + 5, Exec(p, env, self, PrintString(d, size), st.core, fuel), fuel) {
      var res := CallStmt(p, env, TYPE_WORD, StringOn(env, d, size, st.core), fuel);
      assert !res.Broke? && !res.Exited?;
      StringCall(t, p, env, c, d, size, TYPE_WORD, at, st, res, fuel);
    }
  }

  lemma AbortMeaning(p: Program, env: Env, self: Symbol, d: int, size: int, core: Core, fuel: nat)
    ensures Exec(p, env, self, AbortString(d, size), core, fuel) ==
      if !Has(core, DataStack) then Fault(core, DataStack)
      else if Top(core, DataStack) == 0 then Normal(Drop(core, DataStack))
      else CallStmt(p, env, ABORT_WORD, StringOn(env, d, size, Drop(core, DataStack)), fuel)
  {
    hide CallStmt, StringOn, Has, Top, Drop;
  }

  lemma AbortLayout(t: Table, c: Context, d: int, size: int, n: int, at: nat)
    requires UniqueLabels(t) && At(t, at, Code(c, AbortString(d, size), n))
    ensures |Code(c, AbortString(d, size), n)| == 8
    ensures At(t, at, IfCode(n)) && At(t, at + 2, StringCode(d, size) + [Call(ABORT_WORD)])
    ensures at + 7 < |t| && t[at + 7] == Label(n) && IndexOf(t, Label(n)) == at + 7
  {
    hide At, UniqueLabels, Code, IfCode, StringCode, IndexOf;
    var call := StringCode(d, size) + [Call(ABORT_WORD)];
    CodeOfAbort(c, d, size, n);
    assert (IfCode(n) + StringCode(d, size)) + [Call(ABORT_WORD)] == IfCode(n) + call;
    AtSplit(t, at, IfCode(n) + call, [Label(n)]);
    AtSplit(t, at, IfCode(n), call);
    AtOne(t, at + 7, Label(n));
    LabelAt(t, at + 7, n);
  }

  lemma AbortStringCase(t: Table, p: Program, env: Env, c: Context, self: Symbol, d: int, size: int, n: int, at: nat,
                        fuel: nat)
    requires UniqueLabels(t) && At(t, at, Code(c, AbortString(d, size), n))
    requires forall st: State :: CallSeen(t, env, ABORT_WORD, st, CallStmt(p, env, ABORT_WORD, st.core, fuel), fuel)
    requires forall core ::
      !CallStmt(p, env, ABORT_WORD, core, fuel).Broke? && !CallStmt(p, env, ABORT_WORD, core, fuel).Exited?
    ensures Simulates(t, p, env, c, self, AbortString(d, size), n, at, fuel)
  {
    hide Matches, CallSeen, At, UniqueLabels, Code, Exec, CallStmt, StringOn, IndexOf, StringCode;
    AbortLayout(t, c, d, size, n, at);
    var s := AbortString(d, size);
    forall st: State ensures Matches(t, env, c, at, st, at + 8, Exec(p, env, self, s, st.core, fuel), fuel) {
      var res := Exec(p, env, self, s, st.core, fuel);
      AbortMeaning(p, env, self, d, size, st.core, fuel);
      if Has(st.core, DataStack) {
        var st2 := State(Top(st.core, DataStack), st.r1, Drop(st.core, DataStack));
        if Top(st.core, DataStack) == 0 {
          AtLabel(t, env, c, at + 7, st2, fuel);
        } else {
          assert res == CallStmt(p, env, ABORT_WORD, StringOn(env, d, size, st2.core), fuel);
          assert !res.Broke? && !res.Exited?;
          StringCall(t, p, env, c, d, size, ABORT_WORD, at + 2, st2, res, fuel);
          ThenLabel(t, env, c, at + 2, st2, at + 7, res, fuel);
        }
      }
      FlagThen(t, env, c, at, Zero(R0), n, st, at + 8, res, fuel, fuel);
    }
  }

  lemma CallCase(t: Table, p: Program, env: Env, c: Context, self: Symbol, s: Stmt, x: Symbol, n: int, at: nat,
                 fuel: nat)
    requires s == Word(x) || (s == Recurse && c.self == Some(x) && x == self)
    requires At(t, at, Code(c, s, n))
    requires forall st: State :: CallSeen(t, env, x, st, CallStmt(p, env, x, st.core, fuel), fuel)
    requires forall core :: !CallStmt(p, env, x, core, fuel).Broke? && !CallStmt(p, env, x, core, fuel).Exited?
    ensures Simulates(t, p, env, c, self, s, n, at, fuel)
  {
    hide Matches, CallSeen;
    AtOne(t, at, Call(x));
    forall st: State ensures Matches(t, env, c, at, st, at + 1, Exec(p, env, self, s, st.core, fuel), fuel) {
      CallThen(t, env, c, at, x, st, Exec(p, env, self, s, st.core, fuel), fuel);
    }
  }

  lemma ExitCase(t: Table, p: Program, env: Env, c: Context, self: Symbol, s: Stmt, n: int, at: nat, fuel: nat)
    requires s == Exit || (s == Leave && c.breakLabel.Some?)
    requires At(t, at, Code(c, s, n))
    ensures Simulates(t, p, env, c, self, s, n, at, fuel)
  {
    hide Matches;
    var target := if s == Exit then c.exitLabel else c.breakLabel.value;
    AtOne(t, at, Jump(target));
    forall st: State ensures Matches(t, env, c, at, st, at + 1, Exec(p, env, self, s, st.core, fuel), fuel) {
      ArrivedMatches(t, env, c, IndexOf(t, Label(target)), st, fuel);
      BranchThen(t, env, c, at, st, at + 1, Exec(p, env, self, s, st.core, fuel), fuel, fuel);
    }
  }

  lemma QuestionCase(t: Table, p: Program, env: Env, c: Context, self: Symbol, s: Stmt, n: int, at: nat, fuel: nat)
    requires (s == While || s == QueryLeave) && c.breakLabel.Some?
    requires At(t, at, Code(c, s, n))
    ensures Simulates(t, p, env, c, self, s, n, at, fuel)
  {
    hide Matches, At;
    var target := c.breakLabel.value;
    var condition := if s == While then Zero(R0) else NonZero(R0);
    forall st: State ensures Matches(t, env, c, at, st, at + 2, Exec(p, env, self, s, st.core, fuel), fuel) {
      var res := Exec(p, env, self, s, st.core, fuel);
      if Has(st.core, DataStack) {
        var st2 := State(Top(st.core, DataStack), st.r1, Drop(st.core, DataStack));
        ArrivedMatches(t, env, c, IndexOf(t, Label(target)), st2, fuel);
        ArrivedMatches(t, env, c, at + 2, st2, fuel);
      }
      FlagThen(t, env, c, at, condition, target, st, at + 2, res, fuel, fuel);
    }
  }

  // ----- CASE -----

  lemma CaseLayout(t: Table, c: Context, body: Stmt, n: int, at: nat) returns (end: nat)
    requires UniqueLabels(t) && At(t, at, Code(c, Case(body), n))
    ensures var inner := c.(breakLabel := Some(n));
      end == at + |Code(inner, body, n + 1)| && At(t, at, Code(inner, body, n + 1))
    ensures end + 2 == at + |Code(c, Case(body), n)|
    ensures end + 1 < |t| && t[end] == Label(n) && IndexOf(t, Label(n)) == end && At(t, end + 1, [Pop(R0, DataStack)])
  {
    hide At, UniqueLabels, Code, IfCode, IndexOf;
    var code := Code(c.(breakLabel := Some(n)), body, n + 1);
    end := at + |code|;
    CodeOfCase(c, body, n);
    AtSplit(t, at, code + [Label(n)], [Pop(R0, DataStack)]);
    AtSplit(t, at, code, [Label(n)]);
    AtOne(t, end, Label(n));
    AtOne(t, end + 1, Pop(R0, DataStack));
    LabelAt(t, end, n);
  }

  /** From the end label of a case: drop the top of the stack. */
  lemma EndCaseRuns(t: Table, env: Env, c: Context, end: nat, st: State, fuel: nat)
    requires end + 1 < |t| && t[end].Label? && At(t, end + 1, [Pop(R0, DataStack)])
    ensures Matches(t, env, c, end, st, end + 2, EndCase(st.core), fuel)
  {
    hide Matches, At, PlainCode;
    PlainOne(env, Pop(R0, DataStack), st);
    PopOutcome(env, R0, DataStack, st);
    if Has(st.core, DataStack) {
      ArrivedMatches(t, env, c, end + 2, State(Top(st.core, DataStack), st.r1, Drop(st.core, DataStack)), fuel);
    }
    PlainThen(t, env, c, end + 1, [Pop(R0, DataStack)], st, end + 2, EndCase(st.core), fuel);
    SkipThen(t, env, c, end, st, end + 2, EndCase(st.core), fuel);
  }

  lemma CaseCase(t: Table, p: Program, env: Env, c: Context, self: Symbol, body: Stmt, n: int, at: nat, fuel: nat)
    requires UniqueLabels(t) && At(t, at, Code(c, Case(body), n))
    requires Simulates(t, p, env, c.(breakLabel := Some(n)), self, body, n + 1, at, fuel)
    ensures Simulates(t, p, env, c, self, Case(body), n, at, fuel)
  {
    hide Matches, Code, UniqueLabels, At, EndCase, Exec;
    var inner := c.(breakLabel := Some(n));
    var end := CaseLayout(t, c, body, n, at);
    forall st: State ensures Matches(t, env, c, at, st, end + 2, Exec(p, env, self, Case(body), st.core, fuel), fuel) {
      var first := Exec(p, env, self, body, st.core, fuel);
      CaseMeaning(p, env, self, body, st.core, fuel);
      if first.Normal? || first.Broke? {
        if first.Normal? {
          NormalArrives(t, env, inner, at, st, end, first.core, fuel);
        } else {
          BrokeArrives(t, env, inner, at, st, end, first.core, fuel);
        }
        forall st2: State | st2.core == first.core
          ensures Matches(t, env, c, end, st2, end + 2, EndCase(first.core), fuel) {
          EndCaseRuns(t, env, c, end, st2, fuel);
        }
        AfterArrival(t, env, c, at, st, end, first.core, end + 2, EndCase(first.core), fuel);
      } else {
        OtherResult(t, env, c, inner, at, st, end, end + 2, first, fuel);
      }
    }
  }

  lemma OfLayout(t: Table, c: Context, test: Stmt, body: Stmt, rest: Stmt, n: int, at: nat)
    returns (m: int, q: nat, jump: nat, end: nat)
    requires UniqueLabels(t) && c.breakLabel.Some? && At(t, at, Code(c, Of(test, body, rest), n))
    ensures m == n + Labels(c.definitions, test) && q == at + |Code(c, test, n)|
    ensures jump == q + 4 + |Code(c, body, m + 1)|
    ensures end == jump + 2 + |Code(c, rest, m + 1 + Labels(c.definitions, body))|
    ensures end == at + |Code(c, Of(test, body, rest), n)|
    ensures At(t, at, Code(c, test, n)) && At(t, q, OfCode(m)) && At(t, q + 4, Code(c, body, m + 1))
    ensures At(t, jump + 2, Code(c, rest, m + 1 + Labels(c.definitions, body)))
    ensures jump + 1 < |t| && t[jump] == Jump(c.breakLabel.value)
    ensures t[jump + 1] == Label(m) && IndexOf(t, Label(m)) == jump + 1
  {
    hide At, UniqueLabels, Code, Labels;
    CodeOfOf(c, test, body, rest, n);
    m := n + Labels(c.definitions, test);
    var code1, code2, code3 := Code(c, test, n), Code(c, body, m + 1),
      Code(c, rest, m + 1 + Labels(c.definitions, body));
    q := at + |code1|;
    jump := q + 4 + |code2|;
    end := jump + 2 + |code3|;
    AtSplit(t, at, (((code1 + OfCode(m)) + code2) + [Jump(c.breakLabel.value)]) + [Label(m)], code3);
    AtSplit(t, at, ((code1 + OfCode(m)) + code2) + [Jump(c.breakLabel.value)], [Label(m)]);
    AtSplit(t, at, (code1 + OfCode(m)) + code2, [Jump(c.breakLabel.value)]);
    AtSplit(t, at, code1 + OfCode(m), code2);
    AtSplit(t, at, code1, OfCode(m));
    AtOne(t, jump, Jump(c.breakLabel.value));
    AtOne(t, jump + 1, Label(m));
    LabelAt(t, jump + 1, m);
  }

  /** OF compares and goes to the body or to the label behind it. */
  lemma OfThen(t: Table, env: Env, c: Context, q: nat, m: int, st: State, next: nat, res: Result, fuel: nat)
    requires At(t, q, OfCode(m))
    requires match Compare(st.core)
      case Normal(core) => forall st2: State :: st2.core == core ==> Matches(t, env, c, q + 4, st2, next, res, fuel)
      case Broke(core) => forall st2: State :: st2.core == core ==>
        Matches(t, env, c, IndexOf(t, Label(m)), st2, next, res, fuel)
      case other => res == other
    ensures Matches(t, env, c, q, st, next, res, fuel)
  {
    hide Matches, PlainCode, At;
    var pops, branch := [Pop(R1, DataStack), Pop(R0, DataStack), Push(R0, DataStack)], Branch(NotEqual(R0, R1), m);
    AtSplit(t, q, pops, [branch]);
    AtOne(t, q + 3, branch);
    OfRun(env, st);
    var o := PlainCode(env, pops, st);
    if o.Done? {
      BranchThen(t, env, c, q + 3, o.state, next, res, fuel, fuel);
    }
    PlainThen(t, env, c, q, pops, st, next, res, fuel);
  }

  /** The body of an OF, then the jump to the end of the case. */
  lemma OfBody(t: Table, p: Program, env: Env, c: Context, self: Symbol, body: Stmt, n: int, at: nat, st: State,
               next: nat, fuel: nat)
    requires c.breakLabel.Some? && Simulates(t, p, env, c, self, body, n, at, fuel)
    requires var jump := at + |Code(c, body, n)|; jump < |t| && t[jump] == Jump(c.breakLabel.value)
    ensures var r := Exec(p, env, self, body, st.core, fuel);
      Matches(t, env, c, at, st, next, if r.Normal? then Broke(r.core) else r, fuel)
  {
    hide Matches, Code, Exec;
    var r := Exec(p, env, self, body, st.core, fuel);
    var jump := at + |Code(c, body, n)|;
    if r.Normal? {
      NormalArrives(t, env, c, at, st, jump, r.core, fuel);
      forall st2: State | st2.core == r.core ensures Matches(t, env, c, jump, st2, next, Broke(r.core), fuel) {
        ArrivedMatches(t, env, c, IndexOf(t, Label(c.breakLabel.value)), st2, fuel);
        BranchThen(t, env, c, jump, st2, next, Broke(r.core), fuel, fuel);
      }
      AfterArrival(t, env, c, at, st, jump, r.core, next, Broke(r.core), fuel);
    } else {
      OtherResult(t, env, c, c, at, st, jump, next, r, fuel);
    }
  }

  /** From OF to the end of its clause and of what follows. */
  lemma OfOn(t: Table, p: Program, env: Env, c: Context, self: Symbol, body: Stmt, rest: Stmt, m: int, q: nat,
             jump: nat, end: nat, st: State, fuel: nat)
    requires c.breakLabel.Some? && At(t, q, OfCode(m))
    requires jump == q + 4 + |Code(c, body, m + 1)| && jump + 1 < |t| && t[jump] == Jump(c.breakLabel.value)
    requires t[jump + 1] == Label(m) && IndexOf(t, Label(m)) == jump + 1
    requires end == jump + 2 + |Code(c, rest, m + 1 + Labels(c.definitions, body))|
    requires Simulates(t, p, env, c, self, body, m + 1, q + 4, fuel)
    requires Simulates(t, p, env, c, self, rest, m + 1 + Labels(c.definitions, body), jump + 2, fuel)
    ensures Matches(t, env, c, q, st, end, OfResult(p, env, self, body, rest, st.core, fuel), fuel)
  {
    hide Matches, Code, At, Labels, Compare, Exec;
    var res := OfResult(p, env, self, body, rest, st.core, fuel);
    forall st2: State | Compare(st.core) == Normal(st2.core) ensures Matches(t, env, c, q + 4, st2, end, res, fuel) {
      OfBody(t, p, env, c, self, body, m + 1, q + 4, st2, end, fuel);
    }
    forall st2: State | Compare(st.core) == Broke(st2.core) ensures Matches(t, env, c, jump + 1, st2, end, res, fuel) {
      SkipThen(t, env, c, jump + 1, st2, end, res, fuel);
    }
    OfThen(t, env, c, q, m, st, end, res, fuel);
  }

  function OfResult(p: Program, env: Env, self: Symbol, body: Stmt, rest: Stmt, core: Core, fuel: nat): Result {
    match Compare(core)
    case Normal(core2) =>
      (var r := Exec(p, env, self, body, core2, fuel);
       if r.Normal? then Broke(r.core) else r)
    case Broke(core2) => Exec(p, env, self, rest, core2, fuel)
    case other => other
  }

  lemma OfMeaning(p: Program, env: Env, self: Symbol, test: Stmt, body: Stmt, rest: Stmt, core: Core, fuel: nat)
    ensures var first := Exec(p, env, self, test, core, fuel);
      Exec(p, env, self, Of(test, body, rest), core, fuel) ==
        if first.Normal? then OfResult(p, env, self, body, rest, first.core, fuel) else first
  {
  }

  lemma OfCase(t: Table, p: Program, env: Env, c: Context, self: Symbol, test: Stmt, body: Stmt, rest: Stmt, n: int,
               at: nat, fuel: nat)
    requires UniqueLabels(t) && c.breakLabel.Some? && At(t, at, Code(c, Of(test, body, rest), n))
    requires Simulates(t, p, env, c, self, test, n, at, fuel)
    requires var m, q := n + Labels(c.definitions, test), at + |Code(c, test, n)|;
      && Simulates(t, p, env, c, self, body, m + 1, q + 4, fuel)
      && Simulates(t, p, env, c, self, rest, m + 1 + Labels(c.definitions, body), q + 4 + |Code(c, body, m + 1)| + 2,
                   fuel)
    ensures Simulates(t, p, env, c, self, Of(test, body, rest), n, at, fuel)
  {
    hide Matches, Code, UniqueLabels, At, Labels, Exec, OfResult;
    var m, q, jump, end := OfLayout(t, c, test, body, rest, n, at);
    var s := Of(test, body, rest);
    forall st: State ensures Matches(t, env, c, at, st, end, Exec(p, env, self, s, st.core, fuel), fuel) {
      var res, first := Exec(p, env, self, s, st.core, fuel), Exec(p, env, self, test, st.core, fuel);
      OfMeaning(p, env, self, test, body, rest, st.core, fuel);
      if first.Normal? {
        NormalArrives(t, env, c, at, st, q, first.core, fuel);
        forall st2: State | st2.core == first.core ensures Matches(t, env, c, q, st2, end, res, fuel) {
          OfOn(t, p, env, c, self, body, rest, m, q, jump, end, st2, fuel);
        }
        AfterArrival(t, env, c, at, st, q, first.core, end, res, fuel);
      } else {
        OtherResult(t, env, c, c, at, st, q, end, first, fuel);
      }
    }
  }
}
