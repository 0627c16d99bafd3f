/** Loops, compiled; and with them the whole language. */
module CompiledLoops {
  import opened Options
  import opened Cells
  import opened Machine
  import opened Shape
  import opened Statements
  import opened Stepping
  import opened Snippets
  import opened Compilation
  import opened CompiledStatements

  // ----- layouts -----

  lemma UntilLayout(t: Table, c: Context, body: Stmt, n: int, at: nat) returns (q: nat)
    requires UniqueLabels(t) && At(t, at, Code(c, BeginUntil(body), n))
    ensures var inner := c.(breakLabel := Some(n + 1));
      q == at + 1 + |Code(inner, body, n + 2)| && At(t, at + 1, Code(inner, body, n + 2))
    ensures q + 3 == at + |Code(c, BeginUntil(body), n)|
    ensures at < q && q + 2 < |t| && t[at] == Label(n) && IndexOf(t, Label(n)) == at
    ensures At(t, q, IfCode(n)) && t[q + 2] == Label(n + 1) && IndexOf(t, Label(n + 1)) == q + 2
  {
    hide At, UniqueLabels, Code, IfCode, IndexOf;
    var code := Code(c.(breakLabel := Some(n + 1)), body, n + 2);
    q := at + 1 + |code|;
    CodeOfUntil(c, body, n);
    AtSplit(t, at, ([Label(n)] + code) + IfCode(n), [Label(n + 1)]);
    AtSplit(t, at, [Label(n)] + code, IfCode(n));
    AtSplit(t, at, [Label(n)], code);
    AtOne(t, at, Label(n));
    AtOne(t, q + 2, Label(n + 1));
    LabelAt(t, at, n);
    LabelAt(t, q + 2, n + 1);
  }

  lemma AgainLayout(t: Table, c: Context, body: Stmt, n: int, at: nat) returns (q: nat)
    requires UniqueLabels(t) && At(t, at, Code(c, BeginAgain(body), n))
    ensures var inner := c.(breakLabel := Some(n + 1));
      q == at + 1 + |Code(inner, body, n + 2)| && At(t, at + 1, Code(inner, body, n + 2))
    ensures q + 2 == at + |Code(c, BeginAgain(body), n)|
    ensures at < q && q + 1 < |t| && t[at] == Label(n) && IndexOf(t, Label(n)) == at
    ensures t[q] == Jump(n) && t[q + 1] == Label(n + 1) && IndexOf(t, Label(n + 1)) == q + 1
  {
    hide At, UniqueLabels, Code, IfCode, IndexOf;
    var code := Code(c.(breakLabel := Some(n + 1)), body, n + 2);
    q := at + 1 + |code|;
    CodeOfAgain(c, body, n);
    AtSplit(t, at, ([Label(n)] + code) + [Jump(n)], [Label(n + 1)]);
    AtSplit(t, at, [Label(n)] + code, [Jump(n)]);
    AtSplit(t, at, [Label(n)], code);
    AtOne(t, at, Label(n));
    AtOne(t, q, Jump(n));
    AtOne(t, q + 1, Label(n + 1));
    LabelAt(t, at, n);
    LabelAt(t, q + 1, n + 1);
  }

  /** The code that ends a DO loop. */
  function TailCode(c: Context, body: Stmt, plus: bool, n: int): Table {
    if plus then PlusLoopCode(n + 1, n + 2, n + 3 + Labels(c.definitions, body)) else LoopCode(n + 1)
  }

  /** Where the parts of a DO loop are: the top label, the counting code, and
      the end label with the code that unloops. */
  ghost predicate DoPlaces(t: Table, c: Context, query: bool, body: Stmt, plus: bool, n: int, at: nat,
                           top: nat, q: nat, end: nat) {
    var inner := c.(breakLabel := Some(n + 2));
    && top == at + |DoCode(query, n)| + 2 && q == top + 1 + |Code(inner, body, n + 3)|
    && end == q + |TailCode(c, body, plus, n)|
    && At(t, at, DoCode(query, n)) && At(t, at + |DoCode(query, n)|, EnterCode())
    && At(t, top + 1, Code(inner, body, n + 3)) && At(t, q, TailCode(c, body, plus, n)) && At(t, end + 1, UnloopCode())
    && top < |t| && end + 3 < |t|
    && t[top] == Label(n + 1) && IndexOf(t, Label(n + 1)) == top
    && t[end] == Label(n + 2) && IndexOf(t, Label(n + 2)) == end
    && t[end + 3] == Label(n) && IndexOf(t, Label(n)) == end + 3
  }

  lemma CodeOfDo(c: Context, query: bool, body: Stmt, plus: bool, n: int)
    ensures Code(c, DoLoop(query, body, plus), n) ==
      ((((((DoCode(query, n) + EnterCode()) + [Label(n + 1)]) + Code(c.(breakLabel := Some(n + 2)), body, n + 3))
         + TailCode(c, body, plus, n)) + [Label(n + 2)]) + UnloopCode()) + [Label(n)]
  {
    hide DoCode, EnterCode, LoopCode, PlusLoopCode, UnloopCode, IfElseRow, OfRow, Labels;
  }

  /** The code of a loop up to its counting code, and from there on. */
  lemma FrontSplit(t: Table, at: nat, start: Table, enter: Table, top: Table, code: Table)
    requires At(t, at, ((start + enter) + top) + code)
    ensures At(t, at, start) && At(t, at + |start|, enter) && At(t, at + |start| + |enter|, top)
    ensures At(t, at + |start| + |enter| + |top|, code)
  {
    hide At;
    AtSplit(t, at, (start + enter) + top, code);
    AtSplit(t, at, start + enter, top);
    AtSplit(t, at, start, enter);
  }

  lemma BackSplit(t: Table, at: nat, front: Table, tail: Table, bottom: Table, unloop: Table, skip: Table)
    requires At(t, at, (((front + tail) + bottom) + unloop) + skip)
    ensures At(t, at, front) && At(t, at + |front|, tail) && At(t, at + |front| + |tail|, bottom)
    ensures At(t, at + |front| + |tail| + |bottom|, unloop) && At(t, at + |front| + |tail| + |bottom| + |unloop|, skip)
  {
    hide At;
    AtSplit(t, at, ((front + tail) + bottom) + unloop, skip);
    AtSplit(t, at, (front + tail) + bottom, unloop);
    AtSplit(t, at, front + tail, bottom);
    AtSplit(t, at, front, tail);
  }

  lemma DoLayout(t: Table, c: Context, query: bool, body: Stmt, plus: bool, n: int, at: nat)
    returns (top: nat, q: nat, end: nat)
    requires UniqueLabels(t) && At(t, at, Code(c, DoLoop(query, body, plus), n))
    ensures DoPlaces(t, c, query, body, plus, n, at, top, q, end)
    ensures end + 4 == at + |Code(c, DoLoop(query, body, plus), n)|
  {
    hide At, UniqueLabels, Code, TailCode, DoCode, IndexOf, EnterCode, UnloopCode;
    assert |EnterCode()| == 2 by { EnterLength(); }
    assert |UnloopCode()| == 2 by { UnloopLength(); }
    CodeOfDo(c, query, body, plus, n);
    var code, tail, do := Code(c.(breakLabel := Some(n + 2)), body, n + 3), TailCode(c, body, plus, n),
      DoCode(query, n);
    top := at + |do| + 2;
    q := top + 1 + |code|;
    end := q + |tail|;
    BackSplit(t, at, ((do + EnterCode()) + [Label(n + 1)]) + code, tail, [Label(n + 2)], UnloopCode(), [Label(n)]);
    FrontSplit(t, at, do, EnterCode(), [Label(n + 1)], code);
    LabelPlace(t, top, n + 1);
    LabelPlace(t, end, n + 2);
    LabelPlace(t, end + 3, n);
  }

  lemma LabelPlace(t: Table, at: nat, n: int)
    requires UniqueLabels(t) && At(t, at, [Label(n)])
    ensures at < |t| && t[at] == Label(n) && IndexOf(t, Label(n)) == at
  {
    hide UniqueLabels, At;
    AtOne(t, at, Label(n));
    LabelAt(t, at, n);
  }

  // ----- the pieces of a DO loop -----

  /** From the end label: drop limit and index. */
  lemma UnloopThen(t: Table, env: Env, c: Context, end: nat, st: State, fuel: nat)
    requires end + 3 < |t| && t[end].Label? && t[end + 3].Label? && At(t, end + 1, UnloopCode())
    ensures Matches(t, env, c, end, st, end + 4, Unloop(st.core), fuel)
  {
    hide Matches, At, PlainCode, UnloopCode, Unloop;
    UnloopRun(env, st);
    var o, res := PlainCode(env, UnloopCode(), st), Unloop(st.core);
    assert |UnloopCode()| == 2 by { UnloopLength(); }
    if o.Done? {
      AtLabel(t, env, c, end + 3, o.state, fuel);
    }
    PlainThen(t, env, c, end + 1, UnloopCode(), st, end + 4, res, fuel);
    SkipThen(t, env, c, end, st, end + 4, res, fuel);
  }

  lemma EnterLength()
    ensures |EnterCode()| == 2
  {
  }

  lemma UnloopLength()
    ensures |UnloopCode()| == 2
  {
  }

  /** What the rest of the loop has to do after counting in state core. */
  ghost predicate Continues(t: Table, env: Env, c: Context, top: nat, end: nat, next: nat, counted: Result,
                            res: Result, fuel: nat) {
    match counted
    case Normal(core) =>
      if fuel == 0 then res == OutOfFuel
      else forall st: State :: st.core == core ==> Matches(t, env, c, top, st, next, res, fuel - 1)
    case Broke(core) => forall st: State :: st.core == core ==> Matches(t, env, c, end, st, next, res, fuel)
    case other => res == counted
  }

  /** The branch back to the top of the loop. */
  lemma BackThen(t: Table, env: Env, c: Context, at: nat, st: State, top: nat, end: nat, next: nat, counted: Result,
                 res: Result, fuel: nat)
    requires at < |t| && t[at].Branch? && IndexOf(t, Label(t[at].target)) == top
    requires Continues(t, env, c, top, end, next, counted, res, fuel)
    requires Taken(t[at].condition, st) ==> counted == Normal(st.core)
    requires !Taken(t[at].condition, st) ==> Matches(t, env, c, at + 1, st, next, res, fuel)
    ensures Matches(t, env, c, at, st, next, res, fuel)
  {
    hide Matches;
    if Taken(t[at].condition, st) && fuel == 0 {
      BranchWithoutFuel(t, env, c, at, st, next);
    } else {
      BranchThen(t, env, c, at, st, next, res, fuel, if fuel == 0 then 0 else fuel - 1);
    }
  }

  lemma DifferenceIsZero(a: Cell, b: Cell)
    ensures Wrap(a - b) == 0 <==> a == b
  {
  }

  /** What LOOP comes to with the next index already off the return stack. */
  function Compare(core: Core, next: Cell): Result {
    if !Has(core, ReturnStack) then Fault(core, ReturnStack)
    else if next != Top(core, ReturnStack) then Normal(PushTo(core, ReturnStack, next))
    else Broke(PushTo(core, ReturnStack, next))
  }

  lemma CountCompares(core: Core)
    ensures Count(false, core) ==
      if !Has(core, ReturnStack) then Fault(core, ReturnStack)
      else Compare(Drop(core, ReturnStack), Wrap(Top(core, ReturnStack) + 1))
  {
    hide Has, Top, Drop, PushTo, Fault, Wrap;
  }

  lemma LoopCompare(t: Table, env: Env, c: Context, top: nat, n: int, q: nat, st: State, next: nat, res: Result,
                    fuel: nat)
    requires At(t, q, CompareCode()) && q + 4 < |t| && t[q + 4] == Branch(NonZero(R1), n) && IndexOf(t, Label(n)) == top
    requires Continues(t, env, c, top, q + 5, next, Compare(st.core, st.r1), res, fuel)
    ensures Matches(t, env, c, q, st, next, res, fuel)
  {
    hide Matches, At, PlainCode, CompareCode, Has, Top, Drop, PushTo, Wrap, IndexOf;
    CompareLength();
    CompareRun(env, st);
    var o := PlainCode(env, CompareCode(), st);
    if o.Done? {
      DifferenceIsZero(st.r1, Top(st.core, ReturnStack));
      BackThen(t, env, c, q + 4, o.state, top, q + 5, next, Compare(st.core, st.r1), res, fuel);
    }
    PlainThen(t, env, c, q, CompareCode(), st, next, res, fuel);
  }

  lemma LoopTail(t: Table, env: Env, c: Context, top: nat, n: int, q: nat, st: State, next: nat, res: Result, fuel: nat)
    requires At(t, q, LoopCode(n)) && IndexOf(t, Label(n)) == top
    requires Continues(t, env, c, top, q + 7, next, Count(false, st.core), res, fuel)
    ensures Matches(t, env, c, q, st, next, res, fuel)
  {
    hide Matches, At, PlainCode, CompareCode, Has, Top, Drop, Wrap, IndexOf, Count, Compare;
    var count := [Pop(R1, ReturnStack), AddValue(R1, 1)];
    CompareLength();
    AtSplit(t, q, count + CompareCode(), [Branch(NonZero(R1), n)]);
    AtSplit(t, q, count, CompareCode());
    AtOne(t, q + 6, Branch(NonZero(R1), n));
    LoopRun(env, st);
    CountCompares(st.core);
    var o := PlainCode(env, count, st);
    if o.Done? {
      LoopCompare(t, env, c, top, n, q + 2, o.state, next, res, fuel);
    }
    PlainThen(t, env, c, q, count, st, next, res, fuel);
  }

  lemma CompareLength()
    ensures |CompareCode()| == 4
  {
  }

  lemma PlusLayout(t: Table, q: nat, top: int, end: int, reverse: int)
    requires UniqueLabels(t) && At(t, q, PlusLoopCode(top, end, reverse))
    ensures At(t, q, [Pop(R0, DataStack), Pop(R1, ReturnStack), AddRegister(R1, R0)])
    ensures q + 15 < |t| && t[q + 3] == Branch(Less(R0), reverse)
    ensures At(t, q + 4, CompareCode()) && t[q + 8] == Branch(Less(R1), top) && t[q + 9] == Jump(end)
    ensures t[q + 10] == Label(reverse) && IndexOf(t, Label(reverse)) == q + 10
    ensures At(t, q + 11, CompareCode()) && t[q + 15] == Branch(GreaterEqual(R1), top)
  {
    hide At, UniqueLabels, CompareCode;
    CompareLength();
    var count := [Pop(R0, DataStack), Pop(R1, ReturnStack), AddRegister(R1, R0)];
    var back, out, again := [Branch(Less(R0), reverse)], [Branch(Less(R1), top), Jump(end)],
      [Branch(GreaterEqual(R1), top)];
    var front := ((count + back) + CompareCode()) + out;
    AtSplit(t, q, (front + [Label(reverse)]) + CompareCode(), again);
    AtSplit(t, q, front + [Label(reverse)], CompareCode());
    AtSplit(t, q, front, [Label(reverse)]);
    AtSplit(t, q, (count + back) + CompareCode(), out);
    AtSplit(t, q, count + back, CompareCode());
    AtSplit(t, q, count, back);
    AtOne(t, q + 3, Branch(Less(R0), reverse));
    AtTwo(t, q + 8, Branch(Less(R1), top), Jump(end));
    AtOne(t, q + 10, Label(reverse));
    AtOne(t, q + 15, Branch(GreaterEqual(R1), top));
    LabelAt(t, q + 10, reverse);
  }

  /** Compare and branch back, counting up or down. */
  lemma PlusCompare(t: Table, env: Env, c: Context, q: nat, st: State, top: nat, end: nat, next: nat, counted: Result,
                    res: Result, fuel: nat)
    requires At(t, q, CompareCode()) && q + 4 < |t| && t[q + 4].Branch?
    requires t[q + 4].condition == Less(R1) || t[q + 4].condition == GreaterEqual(R1)
    requires IndexOf(t, Label(t[q + 4].target)) == top
    requires Continues(t, env, c, top, end, next, counted, res, fuel)
    requires
      if !Has(st.core, ReturnStack) then counted == Fault(st.core, ReturnStack)
      else
        var back := PushTo(st.core, ReturnStack, st.r1);
        var less := Signed(Wrap(st.r1 - Top(st.core, ReturnStack))) < 0;
        counted == if less == t[q + 4].condition.Less? then Normal(back) else Broke(back)
    requires forall st2: State :: counted == Broke(st2.core) ==> Matches(t, env, c, q + 5, st2, next, res, fuel)
    ensures Matches(t, env, c, q, st, next, res, fuel)
  {
    hide Matches, At, PlainCode, CompareCode;
    CompareLength();
    CompareRun(env, st);
    var o := PlainCode(env, CompareCode(), st);
    if o.Done? {
      BackThen(t, env, c, q + 4, o.state, top, end, next, counted, res, fuel);
    }
    PlainThen(t, env, c, q, CompareCode(), st, next, res, fuel);
  }

  /** What +LOOP decides, once step and next index are in the registers. */
  function Decided(st: State): Result {
    if !Has(st.core, ReturnStack) then Fault(st.core, ReturnStack)
    else
      var counted := PushTo(st.core, ReturnStack, st.r1);
      if GoesOn(true, st.r0, st.r1, Top(st.core, ReturnStack)) then Normal(counted) else Broke(counted)
  }

  /** Counting up: go on below the limit, or jump to the end. */
  lemma PlusUp(t: Table, env: Env, c: Context, top: nat, q: nat, st: State, next: nat, res: Result, fuel: nat)
    requires q + 15 < |t| && At(t, q + 4, CompareCode()) && Signed(st.r0) >= 0
    requires t[q + 8].Branch? && t[q + 8].condition == Less(R1) && IndexOf(t, Label(t[q + 8].target)) == top
    requires t[q + 9].IsJump() && IndexOf(t, Label(t[q + 9].target)) == q + 16
    requires Continues(t, env, c, top, q + 16, next, Decided(st), res, fuel)
    ensures Matches(t, env, c, q + 4, st, next, res, fuel)
  {
    hide Matches, At, CompareCode, IndexOf, Signed, Wrap;
    var counted := Decided(st);
    forall st3: State | counted == Broke(st3.core) ensures Matches(t, env, c, q + 9, st3, next, res, fuel) {
      BranchThen(t, env, c, q + 9, st3, next, res, fuel, fuel);
    }
    PlusCompare(t, env, c, q + 4, st, top, q + 16, next, counted, res, fuel);
  }

  /** Counting down: go on while not below the limit. */
  lemma PlusDown(t: Table, env: Env, c: Context, top: nat, q: nat, st: State, next: nat, res: Result, fuel: nat)
    requires q + 15 < |t| && At(t, q + 11, CompareCode()) && Signed(st.r0) < 0 && t[q + 10].Label?
    requires t[q + 15].Branch? && t[q + 15].condition == GreaterEqual(R1) && IndexOf(t, Label(t[q + 15].target)) == top
    requires Continues(t, env, c, top, q + 16, next, Decided(st), res, fuel)
    ensures Matches(t, env, c, q + 10, st, next, res, fuel)
  {
    hide Matches, At, CompareCode, IndexOf, Signed, Wrap;
    PlusCompare(t, env, c, q + 11, st, top, q + 16, next, Decided(st), res, fuel);
    SkipThen(t, env, c, q + 10, st, next, res, fuel);
  }

  lemma PlusDecides(t: Table, env: Env, c: Context, top: nat, n: int, e: int, reverse: int, q: nat, st: State,
                    next: nat, res: Result, fuel: nat)
    requires UniqueLabels(t) && At(t, q, PlusLoopCode(n, e, reverse))
    requires IndexOf(t, Label(n)) == top && IndexOf(t, Label(e)) == q + 16
    requires Continues(t, env, c, top, q + 16, next, Decided(st), res, fuel)
    ensures Matches(t, env, c, q + 3, st, next, res, fuel)
  {
    hide Matches, At, CompareCode, UniqueLabels, PlusLoopCode, IndexOf, Continues, Decided, Signed;
    PlusLayout(t, q, n, e, reverse);
    if Signed(st.r0) < 0 {
      PlusDown(t, env, c, top, q, st, next, res, fuel);
    } else {
      PlusUp(t, env, c, top, q, st, next, res, fuel);
    }
    BranchThen(t, env, c, q + 3, st, next, res, fuel, fuel);
  }

  lemma PlusLoopTail(t: Table, env: Env, c: Context, top: nat, n: int, e: int, reverse: int, q: nat, st: State,
                     next: nat, res: Result, fuel: nat)
    requires UniqueLabels(t) && At(t, q, PlusLoopCode(n, e, reverse))
    requires IndexOf(t, Label(n)) == top && IndexOf(t, Label(e)) == q + 16
    requires Continues(t, env, c, top, q + 16, next, Count(true, st.core), res, fuel)
    ensures Matches(t, env, c, q, st, next, res, fuel)
  {
    hide Matches, At, PlainCode, UniqueLabels, PlusLoopCode, Continues, Count, Decided, IndexOf;
    PlusLayout(t, q, n, e, reverse);
    var count := [Pop(R0, DataStack), Pop(R1, ReturnStack), AddRegister(R1, R0)];
    PlusCounts(env, st);
    var o := PlainCode(env, count, st);
    if o.Done? {
      PlusDecides(t, env, c, top, n, e, reverse, q, o.state, next, res, fuel);
    } else {
      FaultContinues(t, env, c, top, q + 16, next, Count(true, st.core), res, fuel);
    }
    PlainThen(t, env, c, q, count, st, next, res, fuel);
  }

  /** Counting off the stacks and deciding is the count of +LOOP. */
  lemma PlusCounts(env: Env, st: State)
    ensures var count := [Pop(R0, DataStack), Pop(R1, ReturnStack), AddRegister(R1, R0)];
      var o := PlainCode(env, count, st);
      && AllPlain(count)
      && if o.Done? then Decided(o.state) == Count(true, st.core)
         else Count(true, st.core).Trapped? && Seen(o) == Count(true, st.core)
  {
    hide PlainCode, GoesOn, Has, Top, Drop, PushTo, Wrap;
    PlusLoopRun(env, st);
  }

  lemma FaultContinues(t: Table, env: Env, c: Context, top: nat, end: nat, next: nat, counted: Result, res: Result,
                       fuel: nat)
    requires counted.Trapped? && Continues(t, env, c, top, end, next, counted, res, fuel)
    ensures res == counted
  {
  }

  // ----- the whole language -----

  /** A call of a word of the program. */
  lemma {:induction false} CallEmitted(t: Table, p: Program, env: Env, x: Symbol, st: State, fuel: nat)
    requires Compiled(t, p, env)
    ensures CallSeen(t, env, x, st, CallStmt(p, env, x, st.core, fuel), fuel)
    ensures var r := CallStmt(p, env, x, st.core, fuel); !r.Broke? && !r.Exited?
    decreases fuel, 0, Empty, 0
  {
    hide Compiled, Placed, Exec, Matches, Code, Scoped;
    if x !in p.words {
      OutsideCall(t, p, env, x, st, fuel);
      OutsideReturns(p, env, x, st.core);
    } else {
      var c, n := PlacementOf(t, p, env, x);
      var d := IndexOf(t, Define(x));
      if fuel == 0 {
        assert CallWord(t, env, x, st, 0) == Timeout;
      } else {
        Emitted(t, p, env, c, x, p.words[x], n, d + 1, fuel - 1);
        WordReturns(t, p, env, x, c, n, st, fuel);
      }
    }
  }

  lemma OutsideReturns(p: Program, env: Env, x: Symbol, core: Core)
    ensures var r := Outside(p, env, x, core); !r.Broke? && !r.Exited?
  {
  }

  /** A word's definition: its code, its exit label and its end. */
  ghost predicate WordEnds(t: Table, p: Program, x: Symbol, c: Context, n: int)
    requires x in p.words
  {
    var d := IndexOf(t, Define(x));
    var end := d + 1 + |Code(c, p.words[x], n)|;
    && d < |t| && At(t, d + 1, Code(c, p.words[x], n))
    && end + 1 < |t| && t[end] == Label(c.exitLabel) && IndexOf(t, Label(c.exitLabel)) == end && t[end + 1].EndDefine?
  }

  lemma PlacementOf(t: Table, p: Program, env: Env, x: Symbol) returns (c: Context, n: int)
    requires Compiled(t, p, env) && x in p.words
    ensures Scoped(c, p.words[x]) && c.definitions == p.definitions && c.breakLabel.None?
    ensures c.self.Some? ==> c.self.value == x
    ensures WordEnds(t, p, x, c, n) && IndexOf(t, Define(x)) < |t|
    ensures At(t, IndexOf(t, Define(x)) + 1, Code(c, p.words[x], n))
  {
    c, n :| Placed(t, p, x, c, n);
    WordBody(t, p, x, c, n);
  }

  lemma WordBody(t: Table, p: Program, x: Symbol, c: Context, n: int)
    requires UniqueLabels(t) && x in p.words && Placed(t, p, x, c, n)
    ensures WordEnds(t, p, x, c, n)
  {
    hide At, UniqueLabels, Code, Scoped;
    var d, code := IndexOf(t, Define(x)), Code(c, p.words[x], n);
    AtSplit(t, d + 1, code, [Label(c.exitLabel), EndDefine(x)]);
    AtTwo(t, d + 1 + |code|, Label(c.exitLabel), EndDefine(x));
    LabelAt(t, d + 1 + |code|, c.exitLabel);
  }

  /** Running off the end of a word and leaving it by EXIT are both returns. */
  lemma WordReturns(t: Table, p: Program, env: Env, x: Symbol, c: Context, n: int, st: State, fuel: nat)
    requires x in p.words && WordEnds(t, p, x, c, n) && c.breakLabel.None? && fuel > 0
    requires Simulates(t, p, env, c, x, p.words[x], n, IndexOf(t, Define(x)) + 1, fuel - 1)
    ensures CallSeen(t, env, x, st, CallStmt(p, env, x, st.core, fuel), fuel)
    ensures var r := CallStmt(p, env, x, st.core, fuel); !r.Broke? && !r.Exited?
  {
    hide Exec, Code, At, Run, Arrives, EndsSeen, CallEnds;
    var d, end := IndexOf(t, Define(x)), IndexOf(t, Label(c.exitLabel));
    var r := Exec(p, env, x, p.words[x], st.core, fuel - 1);
    assert Matches(t, env, c, d + 1, st, end, r, fuel - 1);
    if r.Normal? || r.Exited? {
      ReturnSeen(t, env, x, st, end, r.core);
    } else if r.OutOfFuel? {
      TimeoutSeen(t, env, x, st, fuel);
    } else {
      EndSeen(t, env, x, st, r);
    }
  }

  lemma ReturnSeen(t: Table, env: Env, x: Symbol, st: State, end: nat, core: Core)
    requires IndexOf(t, Define(x)) < |t| && Arrives(t, env, IndexOf(t, Define(x)) + 1, st, end, core)
    requires end + 1 < |t| && t[end].Label? && t[end + 1].EndDefine?
    ensures exists o: Outcome, need: nat :: CallEnds(t, env, x, st, o, need) && Seen(o) == Normal(core)
  {
    hide Run, CallEnds, Steps, Ends, IndexOf;
    var d := IndexOf(t, Define(x));
    var st2: State, k: nat, need: nat :| st2.core == core && Steps(t, env, d + 1, st, end, st2, k, need);
    ReturnEnds(t, env, d + 1, st, end, st2, k, need);
    CallOfEnds(t, env, x, st, Done(st2), need);
  }

  lemma ReturnEnds(t: Table, env: Env, p: nat, st: State, end: nat, st2: State, k: nat, need: nat)
    requires Steps(t, env, p, st, end, st2, k, need) && end + 1 < |t| && t[end].Label? && t[end + 1].EndDefine?
    ensures Ends(t, env, p, st, Done(st2), need)
  {
    ReturnAt(t, env, end, st2);
    hide Run;
  }

  lemma EndSeen(t: Table, env: Env, x: Symbol, st: State, r: Result)
    requires IndexOf(t, Define(x)) < |t| && EndsSeen(t, env, IndexOf(t, Define(x)) + 1, st, r)
    ensures exists o: Outcome, need: nat :: CallEnds(t, env, x, st, o, need) && Seen(o) == r
  {
    hide Ends, CallEnds, Seen, IndexOf;
    var o: Outcome, need: nat :| Seen(o) == r && Ends(t, env, IndexOf(t, Define(x)) + 1, st, o, need);
    CallOfEnds(t, env, x, st, o, need);
  }

  lemma TimeoutSeen(t: Table, env: Env, x: Symbol, st: State, fuel: nat)
    requires IndexOf(t, Define(x)) < |t| && fuel > 0
    requires var d := IndexOf(t, Define(x)) + 1; forall h: nat :: h <= fuel - 1 ==> Run(t, env, d, st, h) == Timeout
    ensures forall h: nat :: h <= fuel ==> CallWord(t, env, x, st, h) == Timeout
  {
    hide Run, CallWord, IndexOf;
    forall h: nat | h <= fuel ensures CallWord(t, env, x, st, h) == Timeout {
      CallSilent(t, env, x, st, h);
    }
  }

  lemma CallSilent(t: Table, env: Env, x: Symbol, st: State, h: nat)
    requires IndexOf(t, Define(x)) < |t| && (h > 0 ==> Run(t, env, IndexOf(t, Define(x)) + 1, st, h - 1) == Timeout)
    ensures CallWord(t, env, x, st, h) == Timeout
  {
  }

  lemma ReturnAt(t: Table, env: Env, end: nat, st: State)
    requires end + 1 < |t| && t[end].Label? && t[end + 1].EndDefine?
    ensures forall h: nat :: Run(t, env, end, st, h) == Done(st)
  {
  }

  lemma CallOfEnds(t: Table, env: Env, x: Symbol, st: State, o: Outcome, need: nat)
    requires IndexOf(t, Define(x)) < |t| && Ends(t, env, IndexOf(t, Define(x)) + 1, st, o, need)
    ensures CallEnds(t, env, x, st, o, need + 1)
  {
  }

  /** All calls of x, as the statement lemmas want them. */
  lemma CallsEmitted(t: Table, p: Program, env: Env, x: Symbol, fuel: nat)
    requires Compiled(t, p, env)
    ensures forall st: State :: CallSeen(t, env, x, st, CallStmt(p, env, x, st.core, fuel), fuel)
    ensures forall core :: !CallStmt(p, env, x, core, fuel).Broke? && !CallStmt(p, env, x, core, fuel).Exited?
    decreases fuel, 0, Empty, 1
  {
    forall st: State ensures CallSeen(t, env, x, st, CallStmt(p, env, x, st.core, fuel), fuel) {
      CallEmitted(t, p, env, x, st, fuel);
    }
    forall core ensures !CallStmt(p, env, x, core, fuel).Broke? && !CallStmt(p, env, x, core, fuel).Exited? {
      CallEmitted(t, p, env, x, State(0, 0, core), fuel);
    }
  }

  /** Statements of one word that call or leave. */
  predicate IsToken(s: Stmt) {
    s.PrintString? || s.AbortString? || s.Word? || s.Recurse? || s.Exit? || s.Leave? || s.QueryLeave? || s.While?
  }

  lemma TokenEmitted(t: Table, p: Program, env: Env, c: Context, self: Symbol, s: Stmt, n: int, at: nat, fuel: nat)
    requires Compiled(t, p, env) && Scoped(c, s) && c.definitions == p.definitions && IsToken(s)
    requires c.self.Some? ==> c.self.value == self
    requires At(t, at, Code(c, s, n))
    ensures Simulates(t, p, env, c, self, s, n, at, fuel)
    decreases fuel, 0, Empty, 2
  {
    hide Compiled, At, Simulates, Exec, Matches, Code, Labels, CallSeen, CallStmt;
    CompiledUnique(t, p, env);
    match s
    case PrintString(d, size) =>
      CallsEmitted(t, p, env, TYPE_WORD, fuel);
      PrintStringCase(t, p, env, c, self, d, size, n, at, fuel);
    case AbortString(d, size) =>
      CallsEmitted(t, p, env, ABORT_WORD, fuel);
      AbortStringCase(t, p, env, c, self, d, size, n, at, fuel);
    case Word(x) =>
      CallsEmitted(t, p, env, x, fuel);
      CallCase(t, p, env, c, self, s, x, n, at, fuel);
    case Recurse =>
      CallsEmitted(t, p, env, self, fuel);
      CallCase(t, p, env, c, self, s, self, n, at, fuel);
    case Exit => ExitCase(t, p, env, c, self, s, n, at, fuel);
    case Leave => ExitCase(t, p, env, c, self, s, n, at, fuel);
    case QueryLeave => QuestionCase(t, p, env, c, self, s, n, at, fuel);
    case While => QuestionCase(t, p, env, c, self, s, n, at, fuel);
  }

  /** The main theorem, statement by statement. */
  lemma {:induction false} Emitted(t: Table, p: Program, env: Env, c: Context, self: Symbol, s: Stmt, n: int, at: nat,
                                   fuel: nat)
    requires Compiled(t, p, env) && Scoped(c, s) && c.definitions == p.definitions
    requires c.self.Some? ==> c.self.value == self
    requires At(t, at, Code(c, s, n))
    ensures Simulates(t, p, env, c, self, s, n, at, fuel)
    decreases fuel, 1, s, 3
  {
    hide Compiled, At, Simulates, Exec, Matches, Code, Labels, CallSeen, CallStmt;
    CompiledUnique(t, p, env);
    if IsLeaf(s) {
      LeafCase(t, p, env, c, self, s, n, at, fuel);
    } else if IsToken(s) {
      TokenEmitted(t, p, env, c, self, s, n, at, fuel);
    } else {
      match s {
        case Sequence(a, b) =>
          CodeOfSequence(c, a, b, n);
          AtSplit(t, at, Code(c, a, n), Code(c, b, n + Labels(c.definitions, a)));
          Emitted(t, p, env, c, self, a, n, at, fuel);
          Emitted(t, p, env, c, self, b, n + Labels(c.definitions, a), at + |Code(c, a, n)|, fuel);
          SequenceCase(t, p, env, c, self, a, b, n, at, fuel);
        case If(a) =>
          var end := IfLayout(t, c, a, n, at);
          Emitted(t, p, env, c, self, a, n + 1, at + 2, fuel);
          IfCase(t, p, env, c, self, a, n, at, fuel);
        case IfElse(_, _) => IfElseEmitted(t, p, env, c, self, s, n, at, fuel);
        case DoLoop(query, body, plus) => DoEmitted(t, p, env, c, self, query, body, plus, n, at, fuel);
        case BeginUntil(body) => UntilEmitted(t, p, env, c, self, body, n, at, fuel);
        case BeginAgain(body) => AgainEmitted(t, p, env, c, self, body, n, at, fuel);
        case Case(body) =>
          var end := CaseLayout(t, c, body, n, at);
          ScopedAnyLabels(c.(breakLabel := Some(0)), c.(breakLabel := Some(n)), body);
          Emitted(t, p, env, c.(breakLabel := Some(n)), self, body, n + 1, at, fuel);
          CaseCase(t, p, env, c, self, body, n, at, fuel);
        case Of(_, _, _) => OfEmitted(t, p, env, c, self, s, n, at, fuel);
        case Conditional(name, negated, a, b) =>
          var chosen := if Selected(c.definitions, name, negated) then a else b;
          CodeOfConditional(c, s, n);
          Emitted(t, p, env, c, self, chosen, n, at, fuel);
          ConditionalCase(t, p, env, c, self, s, chosen, n, at, fuel);
      }
    }
  }

  lemma {:induction false} IfElseEmitted(t: Table, p: Program, env: Env, c: Context, self: Symbol, s: Stmt, n: int,
                                         at: nat, fuel: nat)
    requires s.IfElse? && Compiled(t, p, env) && Scoped(c, s) && c.definitions == p.definitions
    requires c.self.Some? ==> c.self.value == self
    requires At(t, at, Code(c, s, n))
    ensures Simulates(t, p, env, c, self, s, n, at, fuel)
    decreases fuel, 1, s, 0
  {
    hide Compiled, At, Simulates, Exec, Matches, Code, Labels, CallSeen, CallStmt;
    CompiledUnique(t, p, env);
    var a, b := s.thenPart, s.elsePart;
    var m, over, end := IfElseLayout(t, c, a, b, n, at);
    Emitted(t, p, env, c, self, a, n + 1, at + 2, fuel);
    Emitted(t, p, env, c, self, b, m + 1, over + 2, fuel);
    IfElseCase(t, p, env, c, self, a, b, n, at, fuel);
  }

  lemma {:induction false} OfEmitted(t: Table, p: Program, env: Env, c: Context, self: Symbol, s: Stmt, n: int, at: nat,
                                     fuel: nat)
    requires s.Of? && Compiled(t, p, env) && Scoped(c, s) && c.definitions == p.definitions
    requires c.self.Some? ==> c.self.value == self
    requires At(t, at, Code(c, s, n))
    ensures Simulates(t, p, env, c, self, s, n, at, fuel)
    decreases fuel, 1, s, 0
  {
    hide Compiled, At, Simulates, Exec, Matches, Code, Labels, CallSeen, CallStmt;
    CompiledUnique(t, p, env);
    var test, body, rest := s.test, s.body, s.rest;
    var m, q, jump, end := OfLayout(t, c, test, body, rest, n, at);
    Emitted(t, p, env, c, self, test, n, at, fuel);
    Emitted(t, p, env, c, self, body, m + 1, q + 4, fuel);
    Emitted(t, p, env, c, self, rest, m + 1 + Labels(c.definitions, body), jump + 2, fuel);
    OfCase(t, p, env, c, self, test, body, rest, n, at, fuel);
  }

  lemma CodeOfConditional(c: Context, s: Stmt, n: int)
    requires s.Conditional?
    ensures Code(c, s, n) == Code(c, if Selected(c.definitions, s.name, s.negated) then s.thenPart else s.elsePart, n)
  {
  }

  lemma ConditionalCase(t: Table, p: Program, env: Env, c: Context, self: Symbol, s: Stmt, chosen: Stmt, n: int,
                        at: nat, fuel: nat)
    requires s.Conditional? && c.definitions == p.definitions
    requires chosen == if Selected(c.definitions, s.name, s.negated) then s.thenPart else s.elsePart
    requires Simulates(t, p, env, c, self, chosen, n, at, fuel)
    ensures Simulates(t, p, env, c, self, s, n, at, fuel)
  {
    hide Matches;
    forall st: State ensures Exec(p, env, self, s, st.core, fuel) == Exec(p, env, self, chosen, st.core, fuel) {
    }
  }

  lemma CompiledUnique(t: Table, p: Program, env: Env)
    requires Compiled(t, p, env)
    ensures UniqueLabels(t)
  {
  }

  lemma {:induction false} UntilEmitted(t: Table, p: Program, env: Env, c: Context, self: Symbol, body: Stmt, n: int,
                                        at: nat, fuel: nat)
    requires Compiled(t, p, env) && Scoped(c, BeginUntil(body)) && c.definitions == p.definitions
    requires c.self.Some? ==> c.self.value == self
    requires At(t, at, Code(c, BeginUntil(body), n))
    ensures Simulates(t, p, env, c, self, BeginUntil(body), n, at, fuel)
    decreases fuel, 1, body, 4
  {
    hide Compiled, At, Simulates, Exec, Matches, Scoped, Code, Until;
    CompiledUnique(t, p, env);
    var inner := c.(breakLabel := Some(n + 1));
    var q := UntilLayout(t, c, body, n, at);
    ScopedBody(c, BeginUntil(body), body, n + 1);
    Emitted(t, p, env, inner, self, body, n + 2, at + 1, fuel);
    if fuel > 0 {
      UntilEmitted(t, p, env, c, self, body, n, at, fuel - 1);
    }
    UntilStep(t, p, env, c, self, body, n, at, q, fuel);
  }

  lemma ScopedBody(c: Context, s: Stmt, body: Stmt, n: int)
    requires Scoped(c, s)
    requires s == BeginUntil(body) || s == BeginAgain(body) || s == Case(body) || (s.DoLoop? && s.body == body)
    ensures Scoped(c.(breakLabel := Some(n)), body)
  {
    ScopedAnyLabels(c.(breakLabel := Some(0)), c.(breakLabel := Some(n)), body);
  }

  lemma {:induction false} AgainEmitted(t: Table, p: Program, env: Env, c: Context, self: Symbol, body: Stmt, n: int,
                                        at: nat, fuel: nat)
    requires Compiled(t, p, env) && Scoped(c, BeginAgain(body)) && c.definitions == p.definitions
    requires c.self.Some? ==> c.self.value == self
    requires At(t, at, Code(c, BeginAgain(body), n))
    ensures Simulates(t, p, env, c, self, BeginAgain(body), n, at, fuel)
    decreases fuel, 1, body, 4
  {
    hide Compiled, At, Simulates, Exec, Matches, Scoped, Code, Again;
    CompiledUnique(t, p, env);
    var inner := c.(breakLabel := Some(n + 1));
    var q := AgainLayout(t, c, body, n, at);
    ScopedBody(c, BeginAgain(body), body, n + 1);
    Emitted(t, p, env, inner, self, body, n + 2, at + 1, fuel);
    if fuel > 0 {
      AgainEmitted(t, p, env, c, self, body, n, at, fuel - 1);
    }
    AgainStep(t, p, env, c, self, body, n, at, q, fuel);
  }

  /** What is left of BEGIN .. UNTIL after the body. */
  function UntilRest(p: Program, env: Env, self: Symbol, body: Stmt, core: Core, fuel: nat): Result {
    if !Has(core, DataStack) then Fault(core, DataStack)
    else if Top(core, DataStack) != 0 then Normal(Drop(core, DataStack))
    else if fuel == 0 then OutOfFuel
    else Exec(p, env, self, BeginUntil(body), Drop(core, DataStack), fuel - 1)
  }

  lemma UntilMeaning(p: Program, env: Env, self: Symbol, body: Stmt, core: Core, fuel: nat)
    ensures var r := Exec(p, env, self, body, core, fuel);
      Exec(p, env, self, BeginUntil(body), core, fuel) ==
        if r.Normal? then UntilRest(p, env, self, body, r.core, fuel) else if r.Broke? then Normal(r.core) else r
  {
  }

  lemma UntilAfter(t: Table, p: Program, env: Env, c: Context, self: Symbol, body: Stmt, n: int, at: nat, q: nat,
                   st: State, fuel: nat)
    requires q + 3 == at + |Code(c, BeginUntil(body), n)| && q + 2 < |t|
    requires IndexOf(t, Label(n)) == at && At(t, q, IfCode(n)) && t[q + 2].Label?
    requires fuel > 0 ==> Simulates(t, p, env, c, self, BeginUntil(body), n, at, fuel - 1)
    ensures Matches(t, env, c, q, st, q + 3, UntilRest(p, env, self, body, st.core, fuel), fuel)
  {
    hide At, Matches, Code, Exec;
    var res := UntilRest(p, env, self, body, st.core, fuel);
    if Has(st.core, DataStack) && Top(st.core, DataStack) != 0 {
      AtLabel(t, env, c, q + 2, State(Top(st.core, DataStack), st.r1, Drop(st.core, DataStack)), fuel);
    }
    FlagThen(t, env, c, q, Zero(R0), n, st, q + 3, res, fuel, if fuel > 0 then fuel - 1 else 0);
  }

  /** A body left by a break lands on the end label of its loop. */
  lemma BrokenBody(t: Table, env: Env, c: Context, inner: Context, at: nat, st: State, q: nat, end: nat, core: Core,
                   fuel: nat)
    requires Matches(t, env, inner, at, st, q, Broke(core), fuel)
    requires inner.breakLabel.Some? && IndexOf(t, Label(inner.breakLabel.value)) == end < |t| && t[end].Label?
    ensures Matches(t, env, c, at, st, end + 1, Normal(core), fuel)
  {
    hide Matches;
    BrokeArrives(t, env, inner, at, st, q, core, fuel);
    forall st2: State | st2.core == core ensures Matches(t, env, c, end, st2, end + 1, Normal(core), fuel) {
      AtLabel(t, env, c, end, st2, fuel);
    }
    AfterArrival(t, env, c, at, st, end, core, end + 1, Normal(core), fuel);
  }

  lemma UntilStep(t: Table, p: Program, env: Env, c: Context, self: Symbol, body: Stmt, n: int, at: nat, q: nat,
                  fuel: nat)
    requires q == at + 1 + |Code(c.(breakLabel := Some(n + 1)), body, n + 2)|
    requires q + 3 == at + |Code(c, BeginUntil(body), n)|
    requires at < q && q + 2 < |t| && t[at] == Label(n) && IndexOf(t, Label(n)) == at
    requires At(t, q, IfCode(n)) && t[q + 2] == Label(n + 1) && IndexOf(t, Label(n + 1)) == q + 2
    requires Simulates(t, p, env, c.(breakLabel := Some(n + 1)), self, body, n + 2, at + 1, fuel)
    requires fuel > 0 ==> Simulates(t, p, env, c, self, BeginUntil(body), n, at, fuel - 1)
    ensures Simulates(t, p, env, c, self, BeginUntil(body), n, at, fuel)
  {
    hide At, Matches, Code, Exec, UntilRest;
    var inner := c.(breakLabel := Some(n + 1));
    forall st: State
      ensures Matches(t, env, c, at, st, q + 3, Exec(p, env, self, BeginUntil(body), st.core, fuel), fuel) {
      var res, r := Exec(p, env, self, BeginUntil(body), st.core, fuel), Exec(p, env, self, body, st.core, fuel);
      UntilMeaning(p, env, self, body, st.core, fuel);
      if r.Normal? {
        NormalArrives(t, env, inner, at + 1, st, q, r.core, fuel);
        forall st2: State | st2.core == r.core ensures Matches(t, env, c, q, st2, q + 3, res, fuel) {
          UntilAfter(t, p, env, c, self, body, n, at, q, st2, fuel);
        }
        AfterArrival(t, env, c, at + 1, st, q, r.core, q + 3, res, fuel);
      } else if r.Broke? {
        BrokenBody(t, env, c, inner, at + 1, st, q, q + 2, r.core, fuel);
      } else {
        OtherResult(t, env, c, inner, at + 1, st, q, q + 3, r, fuel);
      }
      SkipThen(t, env, c, at, st, q + 3, res, fuel);
    }
  }

  lemma AgainMeaning(p: Program, env: Env, self: Symbol, body: Stmt, core: Core, fuel: nat)
    ensures var r := Exec(p, env, self, body, core, fuel);
      Exec(p, env, self, BeginAgain(body), core, fuel) ==
        if r.Normal? then (if fuel == 0 then OutOfFuel else Exec(p, env, self, BeginAgain(body), r.core, fuel - 1))
        else if r.Broke? then Normal(r.core) else r
  {
  }

  lemma AgainAfter(t: Table, p: Program, env: Env, c: Context, self: Symbol, body: Stmt, n: int, at: nat, q: nat,
                   st: State, fuel: nat)
    requires q + 2 == at + |Code(c, BeginAgain(body), n)| && q < |t|
    requires IndexOf(t, Label(n)) == at && t[q] == Jump(n)
    requires fuel > 0 ==> Simulates(t, p, env, c, self, BeginAgain(body), n, at, fuel - 1)
    ensures var res := if fuel == 0 then OutOfFuel else Exec(p, env, self, BeginAgain(body), st.core, fuel - 1);
      Matches(t, env, c, q, st, q + 2, res, fuel)
  {
    hide Matches, Code, Exec;
    if fuel == 0 {
      BranchWithoutFuel(t, env, c, q, st, q + 2);
    } else {
      BranchThen(t, env, c, q, st, q + 2, Exec(p, env, self, BeginAgain(body), st.core, fuel - 1), fuel, fuel - 1);
    }
  }

  lemma AgainStep(t: Table, p: Program, env: Env, c: Context, self: Symbol, body: Stmt, n: int, at: nat, q: nat,
                  fuel: nat)
    requires q == at + 1 + |Code(c.(breakLabel := Some(n + 1)), body, n + 2)|
    requires q + 2 == at + |Code(c, BeginAgain(body), n)|
    requires at < q && q + 1 < |t| && t[at] == Label(n) && IndexOf(t, Label(n)) == at
    requires t[q] == Jump(n) && t[q + 1] == Label(n + 1) && IndexOf(t, Label(n + 1)) == q + 1
    requires Simulates(t, p, env, c.(breakLabel := Some(n + 1)), self, body, n + 2, at + 1, fuel)
    requires fuel > 0 ==> Simulates(t, p, env, c, self, BeginAgain(body), n, at, fuel - 1)
    ensures Simulates(t, p, env, c, self, BeginAgain(body), n, at, fuel)
  {
    hide At, Matches, Code, Exec;
    var inner := c.(breakLabel := Some(n + 1));
    forall st: State
      ensures Matches(t, env, c, at, st, q + 2, Exec(p, env, self, BeginAgain(body), st.core, fuel), fuel) {
      var res, r := Exec(p, env, self, BeginAgain(body), st.core, fuel), Exec(p, env, self, body, st.core, fuel);
      AgainMeaning(p, env, self, body, st.core, fuel);
      if r.Normal? {
        NormalArrives(t, env, inner, at + 1, st, q, r.core, fuel);
        forall st2: State | st2.core == r.core ensures Matches(t, env, c, q, st2, q + 2, res, fuel) {
          AgainAfter(t, p, env, c, self, body, n, at, q, st2, fuel);
        }
        AfterArrival(t, env, c, at + 1, st, q, r.core, q + 2, res, fuel);
      } else if r.Broke? {
        BrokenBody(t, env, c, inner, at + 1, st, q, q + 1, r.core, fuel);
      } else {
        OtherResult(t, env, c, inner, at + 1, st, q, q + 2, r, fuel);
      }
      SkipThen(t, env, c, at, st, q + 2, res, fuel);
    }
  }

  lemma {:induction false} DoEmitted(t: Table, p: Program, env: Env, c: Context, self: Symbol, query: bool, body: Stmt,
                                     plus: bool, n: int, at: nat, fuel: nat)
    requires Compiled(t, p, env) && Scoped(c, DoLoop(query, body, plus)) && c.definitions == p.definitions
    requires c.self.Some? ==> c.self.value == self
    requires At(t, at, Code(c, DoLoop(query, body, plus), n))
    ensures Simulates(t, p, env, c, self, DoLoop(query, body, plus), n, at, fuel)
    decreases fuel, 1, body, 5
  {
    hide Compiled, At, Simulates, Exec, Matches, Scoped, Code, DoPlaces;
    CompiledUnique(t, p, env);
    var top, q, end := DoLayout(t, c, query, body, plus, n, at);
    ScopedBody(c, DoLoop(query, body, plus), body, n + 2);
    LoopEmitted(t, p, env, c, self, query, body, plus, n, at, top, q, end, fuel);
    DoStart(t, p, env, c, self, query, body, plus, n, at, top, q, end, fuel);
  }

  /** From the top label, the loop does what its iterations do. */
  ghost predicate LoopSimulates(t: Table, p: Program, env: Env, c: Context, self: Symbol, body: Stmt, plus: bool,
                                top: nat, end: nat, fuel: nat) {
    forall st: State :: Matches(t, env, c, top, st, end + 4, Loop(p, env, self, body, plus, st.core, fuel), fuel)
  }

  lemma {:induction false} LoopEmitted(t: Table, p: Program, env: Env, c: Context, self: Symbol, query: bool,
                                       body: Stmt, plus: bool, n: int, at: nat, top: nat, q: nat, end: nat, fuel: nat)
    requires Compiled(t, p, env) && Scoped(c.(breakLabel := Some(n + 2)), body) && c.definitions == p.definitions
    requires c.self.Some? ==> c.self.value == self
    requires DoPlaces(t, c, query, body, plus, n, at, top, q, end)
    ensures LoopSimulates(t, p, env, c, self, body, plus, top, end, fuel)
    decreases fuel, 1, body, 4
  {
    hide Compiled, At, Simulates, Exec, Matches, Scoped, Code, LoopSimulates, TailCode;
    CompiledUnique(t, p, env);
    Emitted(t, p, env, c.(breakLabel := Some(n + 2)), self, body, n + 3, top + 1, fuel);
    if fuel > 0 {
      LoopEmitted(t, p, env, c, self, query, body, plus, n, at, top, q, end, fuel - 1);
    }
    LoopStep(t, p, env, c, self, query, body, plus, n, at, top, q, end, fuel);
  }

  lemma Tail(t: Table, env: Env, c: Context, query: bool, body: Stmt, plus: bool, n: int, at: nat, top: nat, q: nat,
             end: nat, st: State, res: Result, fuel: nat)
    requires UniqueLabels(t) && DoPlaces(t, c, query, body, plus, n, at, top, q, end)
    requires Continues(t, env, c, top, end, end + 4, Count(plus, st.core), res, fuel)
    ensures Matches(t, env, c, q, st, end + 4, res, fuel)
  {
    hide Matches, At, UniqueLabels, Continues, Count, Code, DoCode;
    TailLength(c, body, plus, n);
    if plus {
      PlusLoopTail(t, env, c, top, n + 1, n + 2, n + 3 + Labels(c.definitions, body), q, st, end + 4, res, fuel);
    } else {
      LoopTail(t, env, c, top, n + 1, q, st, end + 4, res, fuel);
    }
  }

  lemma TailLength(c: Context, body: Stmt, plus: bool, n: int)
    ensures |TailCode(c, body, plus, n)| == if plus then 16 else 7
  {
  }

  function LoopRest(p: Program, env: Env, self: Symbol, body: Stmt, plus: bool, core: Core, fuel: nat): Result {
    match Count(plus, core)
    case Normal(core2) => if fuel == 0 then OutOfFuel else Loop(p, env, self, body, plus, core2, fuel - 1)
    case Broke(core2) => Unloop(core2)
    case other => other
  }

  lemma LoopMeaning(p: Program, env: Env, self: Symbol, body: Stmt, plus: bool, core: Core, fuel: nat)
    ensures var r := Exec(p, env, self, body, core, fuel);
      Loop(p, env, self, body, plus, core, fuel) ==
        if r.Normal? then LoopRest(p, env, self, body, plus, r.core, fuel) else if r.Broke? then Unloop(r.core) else r
  {
  }

  /** After the body of a DO loop: count, and go on or unloop. */
  lemma LoopAfter(t: Table, p: Program, env: Env, c: Context, self: Symbol, query: bool, body: Stmt, plus: bool,
                  n: int, at: nat, top: nat, q: nat, end: nat, st: State, fuel: nat)
    requires UniqueLabels(t) && DoPlaces(t, c, query, body, plus, n, at, top, q, end)
    requires fuel > 0 ==> LoopSimulates(t, p, env, c, self, body, plus, top, end, fuel - 1)
    ensures Matches(t, env, c, q, st, end + 4, LoopRest(p, env, self, body, plus, st.core, fuel), fuel)
  {
    hide At, Matches, Code, UniqueLabels, TailCode, DoCode, Exec, Loop, Count, Unloop, LoopSimulates, Continues;
    var res := LoopRest(p, env, self, body, plus, st.core, fuel);
    LoopContinues(t, p, env, c, self, body, plus, top, end, st.core, res, fuel);
    Tail(t, env, c, query, body, plus, n, at, top, q, end, st, res, fuel);
  }

  /** A loop body left by a break unloops. */
  lemma BrokenLoop(t: Table, env: Env, c: Context, inner: Context, at: nat, st: State, q: nat, end: nat, core: Core,
                   fuel: nat)
    requires Matches(t, env, inner, at, st, q, Broke(core), fuel)
    requires inner.breakLabel.Some? && IndexOf(t, Label(inner.breakLabel.value)) == end
    requires end + 3 < |t| && t[end].Label? && t[end + 3].Label? && At(t, end + 1, UnloopCode())
    ensures Matches(t, env, c, at, st, end + 4, Unloop(core), fuel)
  {
    hide Matches, At, Unloop;
    BrokeArrives(t, env, inner, at, st, q, core, fuel);
    forall st2: State | st2.core == core ensures Matches(t, env, c, end, st2, end + 4, Unloop(core), fuel) {
      UnloopThen(t, env, c, end, st2, fuel);
    }
    AfterArrival(t, env, c, at, st, end, core, end + 4, Unloop(core), fuel);
  }

  /** A loop body that completes counts and goes on or unloops. */
  lemma CompletedLoop(t: Table, p: Program, env: Env, c: Context, inner: Context, self: Symbol, query: bool,
                      body: Stmt, plus: bool,
                      n: int, at: nat, top: nat, q: nat, end: nat, st: State, core: Core, fuel: nat)
    requires UniqueLabels(t) && DoPlaces(t, c, query, body, plus, n, at, top, q, end)
    requires fuel > 0 ==> LoopSimulates(t, p, env, c, self, body, plus, top, end, fuel - 1)
    requires Matches(t, env, inner, top + 1, st, q, Normal(core), fuel)
    ensures Matches(t, env, c, top + 1, st, end + 4, LoopRest(p, env, self, body, plus, core, fuel), fuel)
  {
    hide Matches, UniqueLabels, DoPlaces, LoopRest, LoopSimulates;
    NormalArrives(t, env, inner, top + 1, st, q, core, fuel);
    forall st2: State | st2.core == core
      ensures Matches(t, env, c, q, st2, end + 4, LoopRest(p, env, self, body, plus, core, fuel), fuel) {
      LoopAfter(t, p, env, c, self, query, body, plus, n, at, top, q, end, st2, fuel);
    }
    AfterArrival(t, env, c, top + 1, st, q, core, end + 4, LoopRest(p, env, self, body, plus, core, fuel), fuel);
  }

  lemma LoopStep(t: Table, p: Program, env: Env, c: Context, self: Symbol, query: bool, body: Stmt, plus: bool,
                 n: int, at: nat, top: nat, q: nat, end: nat, fuel: nat)
    requires UniqueLabels(t) && DoPlaces(t, c, query, body, plus, n, at, top, q, end)
    requires Simulates(t, p, env, c.(breakLabel := Some(n + 2)), self, body, n + 3, top + 1, fuel)
    requires fuel > 0 ==> LoopSimulates(t, p, env, c, self, body, plus, top, end, fuel - 1)
    ensures LoopSimulates(t, p, env, c, self, body, plus, top, end, fuel)
  {
    hide Matches, UniqueLabels, DoPlaces, Exec, Loop;
    forall st: State ensures Matches(t, env, c, top, st, end + 4, Loop(p, env, self, body, plus, st.core, fuel), fuel) {
      LoopStepFrom(t, p, env, c, self, query, body, plus, n, at, top, q, end, st, fuel);
    }
  }

  /** What the loop comes to, given how its body ended. */
  function AfterBody(p: Program, env: Env, self: Symbol, body: Stmt, plus: bool, r: Result, fuel: nat): Result {
    if r.Normal? then LoopRest(p, env, self, body, plus, r.core, fuel) else if r.Broke? then Unloop(r.core) else r
  }

  lemma BodyThen(t: Table, p: Program, env: Env, c: Context, inner: Context, self: Symbol, query: bool, body: Stmt,
                 plus: bool, n: int, at: nat, top: nat, q: nat, end: nat, st: State, r: Result, fuel: nat)
    requires UniqueLabels(t) && DoPlaces(t, c, query, body, plus, n, at, top, q, end)
    requires fuel > 0 ==> LoopSimulates(t, p, env, c, self, body, plus, top, end, fuel - 1)
    requires inner == c.(breakLabel := Some(n + 2)) && Matches(t, env, inner, top + 1, st, q, r, fuel)
    ensures Matches(t, env, c, top + 1, st, end + 4, AfterBody(p, env, self, body, plus, r, fuel), fuel)
  {
    hide At, Matches, UniqueLabels, DoPlaces, LoopRest, Unloop, LoopSimulates;
    if r.Normal? {
      CompletedLoop(t, p, env, c, inner, self, query, body, plus, n, at, top, q, end, st, r.core, fuel);
    } else if r.Broke? {
      LoopFacts(t, c, query, body, plus, n, at, top, q, end);
      BrokenLoop(t, env, c, inner, top + 1, st, q, end, r.core, fuel);
    } else {
      OtherResult(t, env, c, inner, top + 1, st, q, end + 4, r, fuel);
    }
  }

  lemma LoopStepFrom(t: Table, p: Program, env: Env, c: Context, self: Symbol, query: bool, body: Stmt, plus: bool,
                     n: int, at: nat, top: nat, q: nat, end: nat, st: State, fuel: nat)
    requires UniqueLabels(t) && DoPlaces(t, c, query, body, plus, n, at, top, q, end)
    requires Simulates(t, p, env, c.(breakLabel := Some(n + 2)), self, body, n + 3, top + 1, fuel)
    requires fuel > 0 ==> LoopSimulates(t, p, env, c, self, body, plus, top, end, fuel - 1)
    ensures Matches(t, env, c, top, st, end + 4, Loop(p, env, self, body, plus, st.core, fuel), fuel)
  {
    hide At, Matches, UniqueLabels, DoPlaces, Exec, Loop, LoopRest, Unloop, LoopSimulates, Code;
    var inner := c.(breakLabel := Some(n + 2));
    LoopFacts(t, c, query, body, plus, n, at, top, q, end);
    LoopMeaning(p, env, self, body, plus, st.core, fuel);
    BodyThen(t, p, env, c, inner, self, query, body, plus, n, at, top, q, end, st,
             Exec(p, env, self, body, st.core, fuel), fuel);
    SkipThen(t, env, c, top, st, end + 4, Loop(p, env, self, body, plus, st.core, fuel), fuel);
  }

  lemma LoopFacts(t: Table, c: Context, query: bool, body: Stmt, plus: bool, n: int, at: nat, top: nat, q: nat,
                  end: nat)
    requires DoPlaces(t, c, query, body, plus, n, at, top, q, end)
    ensures q == top + 1 + |Code(c.(breakLabel := Some(n + 2)), body, n + 3)|
    ensures top < |t| && t[top].Label? && end + 3 < |t| && t[end].Label? && t[end + 3].Label?
    ensures IndexOf(t, Label(n + 2)) == end && At(t, end + 1, UnloopCode())
  {
  }

  /** After the body, the rest of the loop is to count and go on. */
  lemma LoopContinues(t: Table, p: Program, env: Env, c: Context, self: Symbol, body: Stmt, plus: bool, top: nat,
                      end: nat, core: Core, res: Result, fuel: nat)
    requires end + 3 < |t| && t[end].Label? && t[end + 3].Label? && At(t, end + 1, UnloopCode())
    requires fuel > 0 ==> LoopSimulates(t, p, env, c, self, body, plus, top, end, fuel - 1)
    requires res == match Count(plus, core)
      case Normal(core2) => if fuel == 0 then OutOfFuel else Loop(p, env, self, body, plus, core2, fuel - 1)
      case Broke(core2) => Unloop(core2)
      case other => other
    ensures Continues(t, env, c, top, end, end + 4, Count(plus, core), res, fuel)
  {
    hide Matches, At, Exec, Loop;
    var counted := Count(plus, core);
    if counted.Broke? {
      forall st: State | st.core == counted.core ensures Matches(t, env, c, end, st, end + 4, res, fuel) {
        UnloopThen(t, env, c, end, st, fuel);
      }
    }
  }

  lemma DoMeaning(p: Program, env: Env, self: Symbol, query: bool, body: Stmt, plus: bool, core: Core, fuel: nat)
    ensures Exec(p, env, self, DoLoop(query, body, plus), core, fuel) ==
      if !Has(core, DataStack) then Fault(core, DataStack)
      else
        var start, core1 := Top(core, DataStack), Drop(core, DataStack);
        if !Has(core1, DataStack) then Fault(core1, DataStack)
        else Entered(p, env, self, query, body, plus, State(Top(core1, DataStack), start, Drop(core1, DataStack)), fuel)
  {
  }

  /** With limit and start in the registers: skip the loop or enter it. */
  function Entered(p: Program, env: Env, self: Symbol, query: bool, body: Stmt, plus: bool, st: State,
                   fuel: nat): Result {
    if query && st.r0 == st.r1 then Normal(st.core)
    else Loop(p, env, self, body, plus, PushTo(PushTo(st.core, ReturnStack, st.r0), ReturnStack, st.r1), fuel)
  }

  lemma SkipOrEnter(t: Table, p: Program, env: Env, c: Context, self: Symbol, query: bool, body: Stmt, plus: bool,
                    n: int, at: nat, top: nat, end: nat, st: State, fuel: nat)
    requires query ==> at < |t| && t[at] == Branch(Equal(R0, R1), n)
    requires IndexOf(t, Label(n)) == end + 3 < |t| && t[end + 3].Label?
    requires top == at + 2 + (if query then 1 else 0) && At(t, top - 2, EnterCode())
    requires LoopSimulates(t, p, env, c, self, body, plus, top, end, fuel)
    ensures Matches(t, env, c, at, st, end + 4, Entered(p, env, self, query, body, plus, st, fuel), fuel)
  {
    hide At, Matches, Loop, LoopSimulates;
    var res := Entered(p, env, self, query, body, plus, st, fuel);
    if !(query && st.r0 == st.r1) {
      EnterThen(t, p, env, c, self, body, plus, top, end, top - 2, st, fuel);
    }
    if query {
      AtLabel(t, env, c, end + 3, st, fuel);
      BranchThen(t, env, c, at, st, end + 4, res, fuel, fuel);
    }
  }

  /** The head of a DO loop: take limit and start, skip or enter. */
  lemma DoStart(t: Table, p: Program, env: Env, c: Context, self: Symbol, query: bool, body: Stmt, plus: bool,
                n: int, at: nat, top: nat, q: nat, end: nat, fuel: nat)
    requires DoPlaces(t, c, query, body, plus, n, at, top, q, end)
    requires end + 4 == at + |Code(c, DoLoop(query, body, plus), n)|
    requires LoopSimulates(t, p, env, c, self, body, plus, top, end, fuel)
    ensures Simulates(t, p, env, c, self, DoLoop(query, body, plus), n, at, fuel)
  {
    hide Matches, Code, DoPlaces, Exec, LoopSimulates;
    forall st: State
      ensures Matches(t, env, c, at, st, end + 4, Exec(p, env, self, DoLoop(query, body, plus), st.core, fuel), fuel) {
      DoStartFrom(t, p, env, c, self, query, body, plus, n, at, top, q, end, st, fuel);
    }
  }

  lemma StartFacts(t: Table, c: Context, query: bool, body: Stmt, plus: bool, n: int, at: nat, top: nat, q: nat,
                   end: nat)
    requires DoPlaces(t, c, query, body, plus, n, at, top, q, end)
    ensures At(t, at, [Pop(R1, DataStack), Pop(R0, DataStack)])
    ensures query ==> at + 2 < |t| && t[at + 2] == Branch(Equal(R0, R1), n)
    ensures top == at + 4 + (if query then 1 else 0) && At(t, top - 2, EnterCode())
    ensures IndexOf(t, Label(n)) == end + 3 < |t| && t[end + 3].Label?
  {
    hide At, Code, TailCode;
    AtSplit(t, at, [Pop(R1, DataStack), Pop(R0, DataStack)], if query then [Branch(Equal(R0, R1), n)] else []);
    if query { AtOne(t, at + 2, Branch(Equal(R0, R1), n)); }
  }

  /** Take start and limit off the data stack. */
  lemma DoPops(t: Table, env: Env, c: Context, at: nat, st: State, next: nat, res: Result, fuel: nat)
    requires At(t, at, [Pop(R1, DataStack), Pop(R0, DataStack)])
    requires !Has(st.core, DataStack) ==> res == Fault(st.core, DataStack)
    requires Has(st.core, DataStack) ==>
      var start, core1 := Top(st.core, DataStack), Drop(st.core, DataStack);
      if !Has(core1, DataStack) then res == Fault(core1, DataStack)
      else Matches(t, env, c, at + 2, State(Top(core1, DataStack), start, Drop(core1, DataStack)), next, res, fuel)
    ensures Matches(t, env, c, at, st, next, res, fuel)
  {
    hide At, Matches, PlainCode, AllPlain;
    DoRun(env, st);
    PlainThen(t, env, c, at, [Pop(R1, DataStack), Pop(R0, DataStack)], st, next, res, fuel);
  }

  lemma DoStartFrom(t: Table, p: Program, env: Env, c: Context, self: Symbol, query: bool, body: Stmt, plus: bool,
                    n: int, at: nat, top: nat, q: nat, end: nat, st: State, fuel: nat)
    requires DoPlaces(t, c, query, body, plus, n, at, top, q, end)
    requires LoopSimulates(t, p, env, c, self, body, plus, top, end, fuel)
    ensures Matches(t, env, c, at, st, end + 4, Exec(p, env, self, DoLoop(query, body, plus), st.core, fuel), fuel)
  {
    hide At, Matches, DoPlaces, EnterCode, Exec, Entered, LoopSimulates;
    StartFacts(t, c, query, body, plus, n, at, top, q, end);
    DoMeaning(p, env, self, query, body, plus, st.core, fuel);
    if Has(st.core, DataStack) && Has(Drop(st.core, DataStack), DataStack) {
      var start, core1 := Top(st.core, DataStack), Drop(st.core, DataStack);
      var st2 := State(Top(core1, DataStack), start, Drop(core1, DataStack));
      SkipOrEnter(t, p, env, c, self, query, body, plus, n, at + 2, top, end, st2, fuel);
    }
    DoPops(t, env, c, at, st, end + 4, Exec(p, env, self, DoLoop(query, body, plus), st.core, fuel), fuel);
  }

  lemma EnterThen(t: Table, p: Program, env: Env, c: Context, self: Symbol, body: Stmt, plus: bool, top: nat, end: nat,
                  at: nat, st: State, fuel: nat)
    requires At(t, at, EnterCode()) && top == at + 2
    requires LoopSimulates(t, p, env, c, self, body, plus, top, end, fuel)
    ensures var core := PushTo(PushTo(st.core, ReturnStack, st.r0), ReturnStack, st.r1);
      Matches(t, env, c, at, st, end + 4, Loop(p, env, self, body, plus, core, fuel), fuel)
  {
    hide At, Matches, PlainCode, Loop, Exec;
    var core := PushTo(PushTo(st.core, ReturnStack, st.r0), ReturnStack, st.r1);
    EnterRun(env, st);
    PlainThen(t, env, c, at, EnterCode(), st, end + 4, Loop(p, env, self, body, plus, core, fuel), fuel);
  }
}
