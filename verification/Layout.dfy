/** What kinds of opcode the code of a statement is made of. */
module Layout {
  import opened Options
  import opened Machine
  import opened Statements
  import opened ParserStates

  // ----- a statement's own opcodes and its parts -----

  datatype Part = Part(c: Context, s: Stmt, n: int)

  function PartCode(p: Part): Table {
    Code(p.c, p.s, p.n)
  }

  /** The statements inside a statement, in order. */
  function Parts(c: Context, s: Stmt, n: int): (ps: seq<Part>)
    ensures |ps| <= 3 && forall i :: 0 <= i < |ps| ==> ps[i].s < s && ps[i].c.exitLabel == c.exitLabel
  {
    match s
    case Sequence(a, b) => [Part(c, a, n), Part(c, b, n + Labels(c.definitions, a))]
    case If(a) => [Part(c, a, n + 1)]
    case IfElse(a, b) => [Part(c, a, n + 1), Part(c, b, n + 2 + Labels(c.definitions, a))]
    case DoLoop(_, body, _) => [Part(c.(breakLabel := Some(n + 2)), body, n + 3)]
    case BeginUntil(body) => [Part(c.(breakLabel := Some(n + 1)), body, n + 2)]
    case BeginAgain(body) => [Part(c.(breakLabel := Some(n + 1)), body, n + 2)]
    case Case(body) => [Part(c.(breakLabel := Some(n)), body, n + 1)]
    case Of(test, body, rest) =>
      var m := n + Labels(c.definitions, test);
      [Part(c, test, n), Part(c, body, m + 1), Part(c, rest, m + 1 + Labels(c.definitions, body))]
    case Conditional(name, negated, a, b) => [Part(c, if Selected(c.definitions, name, negated) then a else b, n)]
    case _ => []
  }

  /** The opcodes before, between and after the first two parts. */
  function Own(c: Context, s: Stmt, n: int, i: nat): Table {
    match s
    case Sequence(_, _) => []
    case If(_) => if i == 0 then IfCode(n) else if i == 1 then [Label(n)] else []
    case IfElse(a, _) =>
      var m := n + 1 + Labels(c.definitions, a);
      if i == 0 then IfCode(n) else if i == 1 then [Jump(m), Label(n)] else [Label(m)]
    case DoLoop(query, body, plus) =>
      var loop := if plus then PlusLoopCode(n + 1, n + 2, n + 3 + Labels(c.definitions, body)) else LoopCode(n + 1);
      if i == 0 then DoCode(query, n) + EnterCode() + [Label(n + 1)]
      else if i == 1 then loop + [Label(n + 2)] + UnloopCode() + [Label(n)] else []
    case BeginUntil(_) => if i == 0 then [Label(n)] else if i == 1 then IfCode(n) + [Label(n + 1)] else []
    case BeginAgain(_) => if i == 0 then [Label(n)] else if i == 1 then [Jump(n)] + [Label(n + 1)] else []
    case Case(_) => if i == 1 then [Label(n)] + [Opcode.Pop(R0, DataStack)] else []
    case Of(test, body, _) =>
      var m := n + Labels(c.definitions, test);
      if i == 1 then OfCode(m)
      else if i == 2 then (if c.breakLabel.Some? then [Jump(c.breakLabel.value)] else []) + [Label(m)] else []
    case Conditional(_, _, _, _) => []
    case _ => if i == 0 then Code(c, s, n) else []
  }

  function PartAt(ps: seq<Part>, i: nat): Table {
    if i < |ps| then PartCode(ps[i]) else []
  }

  /** Code is a statement's own opcodes around the code of its parts. */
  lemma CodeForm(c: Context, s: Stmt, n: int)
    ensures var ps := Parts(c, s, n);
      Code(c, s, n) ==
        Own(c, s, n, 0) + PartAt(ps, 0) + Own(c, s, n, 1) + PartAt(ps, 1) + Own(c, s, n, 2) + PartAt(ps, 2)
  {
    hide Code, PartCode, Own, Parts, PartAt;
    if s.DoLoop? {
      DoForm(c, s, n);
    } else if s.Of? {
      OfForm(c, s, n);
    } else if s.If? || s.IfElse? || s.Case? {
      BranchForm(c, s, n);
    } else if s.BeginUntil? || s.BeginAgain? {
      BeginForm(c, s, n);
    } else if s.Sequence? || s.Conditional? {
      PlainForm(c, s, n);
    } else {
      LeafForm(c, s, n);
    }
  }

  lemma LeafForm(c: Context, s: Stmt, n: int)
    requires !s.DoLoop? && !s.Of? && !s.If? && !s.IfElse? && !s.Case? && !s.BeginUntil? && !s.BeginAgain?
    requires !s.Sequence? && !s.Conditional?
    ensures var ps := Parts(c, s, n);
      Code(c, s, n) ==
        Own(c, s, n, 0) + PartAt(ps, 0) + Own(c, s, n, 1) + PartAt(ps, 1) + Own(c, s, n, 2) + PartAt(ps, 2)
  {
    hide Code;
  }

  lemma DoForm(c: Context, s: Stmt, n: int)
    requires s.DoLoop?
    ensures var ps := Parts(c, s, n);
      Code(c, s, n) ==
        Own(c, s, n, 0) + PartAt(ps, 0) + Own(c, s, n, 1) + PartAt(ps, 1) + Own(c, s, n, 2) + PartAt(ps, 2)
  {
    hide DoCode, EnterCode, LoopCode, PlusLoopCode, UnloopCode;
  }

  lemma OfForm(c: Context, s: Stmt, n: int)
    requires s.Of?
    ensures var ps := Parts(c, s, n);
      Code(c, s, n) ==
        Own(c, s, n, 0) + PartAt(ps, 0) + Own(c, s, n, 1) + PartAt(ps, 1) + Own(c, s, n, 2) + PartAt(ps, 2)
  {
    hide Code, OfCode, Labels, Own, Parts, PartAt, OfRow;
    CodeOfOf(c, s.test, s.body, s.rest, n);
    OfPieces(c, s, n);
    var ps, m := Parts(c, s, n), n + Labels(c.definitions, s.test);
    OfRowForm(c, m, PartAt(ps, 0), PartAt(ps, 1), PartAt(ps, 2));
  }

  lemma OfRowForm(c: Context, m: int, test: Table, body: Table, rest: Table)
    ensures var end := (if c.breakLabel.Some? then [Jump(c.breakLabel.value)] else []) + [Label(m)];
      OfRow(c, m, test, body, rest) == [] + test + OfCode(m) + body + end + rest
  {
    hide OfCode;
  }

  lemma OfPieces(c: Context, s: Stmt, n: int)
    requires s.Of?
    ensures var ps, m := Parts(c, s, n), n + Labels(c.definitions, s.test);
      && PartAt(ps, 0) == Code(c, s.test, n) && PartAt(ps, 1) == Code(c, s.body, m + 1)
      && PartAt(ps, 2) == Code(c, s.rest, m + 1 + Labels(c.definitions, s.body))
      && Own(c, s, n, 0) == [] && Own(c, s, n, 1) == OfCode(m)
      && Own(c, s, n, 2) == (if c.breakLabel.Some? then [Jump(c.breakLabel.value)] else []) + [Label(m)]
  {
    hide Code, OfCode, Labels;
  }

  lemma BranchForm(c: Context, s: Stmt, n: int)
    requires s.If? || s.IfElse? || s.Case?
    ensures var ps := Parts(c, s, n);
      Code(c, s, n) ==
        Own(c, s, n, 0) + PartAt(ps, 0) + Own(c, s, n, 1) + PartAt(ps, 1) + Own(c, s, n, 2) + PartAt(ps, 2)
  {
    hide IfCode;
  }

  lemma BeginForm(c: Context, s: Stmt, n: int)
    requires s.BeginUntil? || s.BeginAgain?
    ensures var ps := Parts(c, s, n);
      Code(c, s, n) ==
        Own(c, s, n, 0) + PartAt(ps, 0) + Own(c, s, n, 1) + PartAt(ps, 1) + Own(c, s, n, 2) + PartAt(ps, 2)
  {
    hide IfCode, Labels;
  }

  lemma PlainForm(c: Context, s: Stmt, n: int)
    requires s.Sequence? || s.Conditional?
    ensures var ps := Parts(c, s, n);
      Code(c, s, n) ==
        Own(c, s, n, 0) + PartAt(ps, 0) + Own(c, s, n, 1) + PartAt(ps, 1) + Own(c, s, n, 2) + PartAt(ps, 2)
  {
  }

  /** An opcode of a statement is its own or belongs to one of its parts. */
  lemma CodeMember(c: Context, s: Stmt, n: int, op: Opcode)
    ensures var ps := Parts(c, s, n);
      op in Code(c, s, n) <==>
        op in Own(c, s, n, 0) || op in Own(c, s, n, 1) || op in Own(c, s, n, 2)
        || op in PartAt(ps, 0) || op in PartAt(ps, 1) || op in PartAt(ps, 2)
  {
    CodeForm(c, s, n);
    hide Code, Own, PartAt, Parts;
  }

  // ----- only statements' own opcodes -----

  /** No markers of definitions, no assembler and no no-ops. */
  predicate Ordinary(op: Opcode) {
    !op.Define? && !op.EndDefine? && !op.Assembly? && !op.NoOp?
  }

  lemma OwnOrdinary(c: Context, s: Stmt, n: int, i: nat, op: Opcode)
    requires op in Own(c, s, n, i)
    ensures Ordinary(op)
  {
    hide IfCode, DoCode, EnterCode, LoopCode, PlusLoopCode, UnloopCode, OfCode, StringCode, Ordinary;
    if Parts(c, s, n) == [] {
      LeafOrdinary(c, s, n, op);
    } else if s.DoLoop? {
      var loop := if s.plus then PlusLoopCode(n + 1, n + 2, n + 3 + Labels(c.definitions, s.body)) else LoopCode(n + 1);
      assert op in (if i == 0 then DoCode(s.query, n) + EnterCode() + [Label(n + 1)]
                    else loop + [Label(n + 2)] + UnloopCode() + [Label(n)]);
      if op.Label? {
        LabelOrdinary(op.number);
      } else {
        SnippetOps(s.query, n, n + 1, n + 2, n + 3 + Labels(c.definitions, s.body), op);
      }
    } else {
      OtherOrdinary(c, s, n, i, op);
    }
  }

  lemma LabelOrdinary(n: int)
    ensures Ordinary(Label(n))
  {
  }

  lemma LeafOrdinary(c: Context, s: Stmt, n: int, op: Opcode)
    requires Parts(c, s, n) == [] && op in Code(c, s, n)
    ensures Ordinary(op)
  {
  }

  lemma OtherOrdinary(c: Context, s: Stmt, n: int, i: nat, op: Opcode)
    requires op in Own(c, s, n, i) && Parts(c, s, n) != [] && !s.DoLoop?
    ensures Ordinary(op)
  {
    hide Code;
  }

  /** The pieces of code that loops are made of: what they are, and where they branch to. */
  lemma SnippetOps(query: bool, n: int, top: int, end: int, reverse: int, op: Opcode)
    requires op in DoCode(query, n) || op in EnterCode() || op in UnloopCode() || op in LoopCode(top)
      || op in PlusLoopCode(top, end, reverse)
    ensures Ordinary(op)
    ensures op.Branch? ==> op.target == n || op.target == top || op.target == end || op.target == reverse
  {
  }

  lemma {:induction false} CodeOrdinary(c: Context, s: Stmt, n: int, op: Opcode)
    requires op in Code(c, s, n)
    ensures Ordinary(op)
    decreases s
  {
    CodeMember(c, s, n, op);
    var ps := Parts(c, s, n);
    hide Code, Own, Parts, Ordinary;
    if op in Own(c, s, n, 0) { OwnOrdinary(c, s, n, 0, op); }
    else if op in Own(c, s, n, 1) { OwnOrdinary(c, s, n, 1, op); }
    else if op in Own(c, s, n, 2) { OwnOrdinary(c, s, n, 2, op); }
    else if op in PartAt(ps, 0) { CodeOrdinary(ps[0].c, ps[0].s, ps[0].n, op); }
    else if op in PartAt(ps, 1) { CodeOrdinary(ps[1].c, ps[1].s, ps[1].n, op); }
    else { CodeOrdinary(ps[2].c, ps[2].s, ps[2].n, op); }
  }

  // ----- where branches go -----

  /** A branch inside a statement goes to one of its own labels, to the end of
      the innermost loop or case, or to the end of the word. */
  predicate GoesHome(c: Context, code: Table, target: int) {
    Label(target) in code || target == c.exitLabel || c.breakLabel == Some(target)
  }

  lemma OwnTargets(c: Context, s: Stmt, n: int, i: nat, op: Opcode)
    requires op in Own(c, s, n, i) && op.Branch?
    ensures GoesHome(c, Own(c, s, n, 0) + Own(c, s, n, 1) + Own(c, s, n, 2), op.target)
  {
    if Parts(c, s, n) == [] {
      LeafTargets(c, s, n, op);
      OwnMember(c, s, n, 0, Label(op.target));
    } else if s.DoLoop? {
      DoTargets(c, s, n, i, op);
    } else {
      OtherTargets(c, s, n, i, op);
    }
    hide Code, Own, Parts;
  }

  lemma OwnMember(c: Context, s: Stmt, n: int, i: nat, op: Opcode)
    ensures (op in Own(c, s, n, 0) + Own(c, s, n, 1) + Own(c, s, n, 2)) <==>
      op in Own(c, s, n, 0) || op in Own(c, s, n, 1) || op in Own(c, s, n, 2)
  {
    hide Own;
  }

  lemma LeafTargets(c: Context, s: Stmt, n: int, op: Opcode)
    requires Parts(c, s, n) == [] && op in Code(c, s, n) && op.Branch?
    ensures GoesHome(c, Code(c, s, n), op.target)
  {
    hide StringCode;
    if s.AbortString? { StringBranchless(s.data, s.size, op); }
    if s.PrintString? || s.StringLiteral? { StringBranchless(s.data, s.size, op); }
  }

  lemma StringBranchless(d: int, size: int, op: Opcode)
    ensures op in StringCode(d, size) ==> !op.Branch?
  {
  }

  /** Where the labels of a loop are. */
  lemma DoLabels(c: Context, s: Stmt, n: int)
    requires s.DoLoop?
    ensures Label(n + 1) in Own(c, s, n, 0) && Label(n + 2) in Own(c, s, n, 1) && Label(n) in Own(c, s, n, 1)
    ensures s.plus ==> Label(n + 3 + Labels(c.definitions, s.body)) in Own(c, s, n, 1)
  {
    hide DoCode, EnterCode, LoopCode, UnloopCode, PlusLoopCode;
    if s.plus { ReverseLabel(n + 1, n + 2, n + 3 + Labels(c.definitions, s.body)); }
  }

  lemma ReverseLabel(top: int, end: int, reverse: int)
    ensures Label(reverse) in PlusLoopCode(top, end, reverse)
  {
    hide CompareCode;
  }

  lemma DoTargets(c: Context, s: Stmt, n: int, i: nat, op: Opcode)
    requires s.DoLoop? && op in Own(c, s, n, i) && op.Branch?
    ensures GoesHome(c, Own(c, s, n, 0) + Own(c, s, n, 1) + Own(c, s, n, 2), op.target)
  {
    hide DoCode, EnterCode, LoopCode, PlusLoopCode, UnloopCode, Code, CompareCode;
    var reverse := n + 3 + Labels(c.definitions, s.body);
    var loop := if s.plus then PlusLoopCode(n + 1, n + 2, reverse) else LoopCode(n + 1);
    assert op in (if i == 0 then DoCode(s.query, n) + EnterCode() + [Label(n + 1)]
                  else loop + [Label(n + 2)] + UnloopCode() + [Label(n)]);
    if s.plus { SnippetOps(s.query, n, n + 1, n + 2, reverse, op); } else { LoopOps(s.query, n, n + 1, op); }
    DoLabels(c, s, n);
    OwnMember(c, s, n, i, Label(op.target));
    hide Own;
  }

  lemma LoopOps(query: bool, n: int, top: int, op: Opcode)
    requires op in DoCode(query, n) || op in EnterCode() || op in UnloopCode() || op in LoopCode(top)
    ensures op.Branch? ==> op.target == n || op.target == top
  {
  }

  lemma OtherTargets(c: Context, s: Stmt, n: int, i: nat, op: Opcode)
    requires op in Own(c, s, n, i) && op.Branch? && Parts(c, s, n) != [] && !s.DoLoop?
    ensures GoesHome(c, Own(c, s, n, 0) + Own(c, s, n, 1) + Own(c, s, n, 2), op.target)
  {
    OwnMember(c, s, n, i, Label(op.target));
    OwnTarget(c, s, n, i, op);
    hide Code, Parts, Own;
  }

  lemma OwnTarget(c: Context, s: Stmt, n: int, i: nat, op: Opcode)
    requires op in Own(c, s, n, i) && op.Branch? && Parts(c, s, n) != [] && !s.DoLoop?
    ensures Label(op.target) in Own(c, s, n, 0) || Label(op.target) in Own(c, s, n, 1)
      || Label(op.target) in Own(c, s, n, 2)
      || (c.breakLabel.Some? && op.target == c.breakLabel.value)
  {
    hide Code, PlusLoopCode, LoopCode, DoCode, Labels;
  }

  /** The end of the innermost loop or case is the part's own or the whole statement's. */
  lemma PartHome(c: Context, s: Stmt, n: int, i: nat, target: int)
    requires i < |Parts(c, s, n)| && GoesHome(Parts(c, s, n)[i].c, PartCode(Parts(c, s, n)[i]), target)
    ensures Label(target) in PartCode(Parts(c, s, n)[i])
      || GoesHome(c, Own(c, s, n, 0) + Own(c, s, n, 1) + Own(c, s, n, 2), target)
  {
    hide Code, IfCode, DoCode, EnterCode, LoopCode, PlusLoopCode, UnloopCode, OfCode, StringCode;
  }

  lemma {:induction false} CodeTargets(c: Context, s: Stmt, n: int, op: Opcode)
    requires op in Code(c, s, n) && op.Branch?
    ensures GoesHome(c, Code(c, s, n), op.target)
    decreases s
  {
    CodeMember(c, s, n, op);
    CodeMember(c, s, n, Label(op.target));
    var ps := Parts(c, s, n);
    hide Code, Own, Parts;
    if op in Own(c, s, n, 0) { OwnTargets(c, s, n, 0, op); }
    else if op in Own(c, s, n, 1) { OwnTargets(c, s, n, 1, op); }
    else if op in Own(c, s, n, 2) { OwnTargets(c, s, n, 2, op); }
    else {
      var i := if op in PartAt(ps, 0) then 0 else if op in PartAt(ps, 1) then 1 else 2;
      CodeTargets(ps[i].c, ps[i].s, ps[i].n, op);
      PartHome(c, s, n, i, op.target);
    }
  }

  // ----- labels -----

  predicate Whole(s: Stmt) {
    match s
    case Elsewhere(_) => false
    case Sequence(a, b) => Whole(a) && Whole(b)
    case If(a) => Whole(a)
    case IfElse(a, b) => Whole(a) && Whole(b)
    case DoLoop(_, body, _) => Whole(body)
    case BeginUntil(body) => Whole(body)
    case BeginAgain(body) => Whole(body)
    case Case(body) => Whole(body)
    case Of(test, body, rest) => Whole(test) && Whole(body) && Whole(rest)
    case Conditional(_, _, a, b) => Whole(a) && Whole(b)
    case _ => true
  }

  lemma {:induction false} GrammaticalWhole(s: Stmt)
    ensures (Grammatical(s) ==> Whole(s)) && (CaseBody(s) ==> Whole(s))
  {
    match s
    case Sequence(a, b) => GrammaticalWhole(a); GrammaticalWhole(b);
    case If(a) => GrammaticalWhole(a);
    case IfElse(a, b) => GrammaticalWhole(a); GrammaticalWhole(b);
    case DoLoop(_, body, _) => GrammaticalWhole(body);
    case BeginUntil(body) => GrammaticalWhole(body);
    case BeginAgain(body) => GrammaticalWhole(body);
    case Case(body) => GrammaticalWhole(body);
    case Of(test, body, rest) => GrammaticalWhole(test); GrammaticalWhole(body); GrammaticalWhole(rest);
    case Conditional(_, _, a, b) => GrammaticalWhole(a); GrammaticalWhole(b);
    case _ =>
  }

  function Times(t: Table, l: int): nat {
    multiset(t)[Label(l)]
  }

  function Between(lo: int, l: int, hi: int): nat {
    if lo <= l < hi then 1 else 0
  }

  lemma TimesThen(a: Table, b: Table, l: int)
    ensures Times(a + b, l) == Times(a, l) + Times(b, l)
  {
  }

  lemma TimesForm(c: Context, s: Stmt, n: int, l: int)
    ensures var ps := Parts(c, s, n);
      Times(Code(c, s, n), l) == Times(Own(c, s, n, 0), l) + Times(Own(c, s, n, 1), l) + Times(Own(c, s, n, 2), l)
        + Times(PartAt(ps, 0), l) + Times(PartAt(ps, 1), l) + Times(PartAt(ps, 2), l)
  {
    CodeForm(c, s, n);
    hide Code, Own, PartAt, Parts;
  }

  lemma NotThere(t: Table, l: int)
    requires Label(l) !in t
    ensures Times(t, l) == 0
  {
  }

  lemma OneLabel(n: int, l: int)
    ensures Times([Label(n)], l) == Between(n, l, n + 1)
  {
  }

  /** Which labels the pieces of code hold. */
  lemma SnippetTimes(n: int, m: int, k: int, l: int)
    ensures Times(IfCode(n), l) == Times(EnterCode(), l) == Times(UnloopCode(), l) == Times(OfCode(n), l) ==
      Times([Jump(n)], l) == 0
    ensures Times(DoCode(false, n), l) == Times(DoCode(true, n), l) == Times(LoopCode(n), l) == 0
    ensures Times([Opcode.Pop(R0, DataStack)], l) == 0
    ensures Times(PlusLoopCode(n, m, k), l) == Between(k, l, k + 1)
  {
    hide Times;
    NotThere(IfCode(n), l);
    NotThere(EnterCode(), l);
    NotThere(UnloopCode(), l);
    NotThere(OfCode(n), l);
    NotThere([Jump(n)], l);
    NotThere([Opcode.Pop(R0, DataStack)], l);
    NotThere(DoCode(false, n), l);
    NotThere(DoCode(true, n), l);
    NotThere(LoopCode(n), l);
    var before := [Opcode.Pop(R0, DataStack), Opcode.Pop(R1, ReturnStack), AddRegister(R1, R0)] + [Branch(Less(R0), k)]
      + CompareCode() + [Branch(Less(R1), n), Jump(m)];
    var after := CompareCode() + [Branch(GreaterEqual(R1), n)];
    NotThere(before, l);
    NotThere(after, l);
    assert PlusLoopCode(n, m, k) == before + [Label(k)] + after;
    TimesThen(before + [Label(k)], after, l);
    TimesThen(before, [Label(k)], l);
    OneLabel(k, l);
  }

  /** Every label of a statement is its own or one of its parts'. */
  lemma OwnTimes(c: Context, s: Stmt, n: int, l: int)
    requires Whole(s)
    ensures Times(Own(c, s, n, 0), l) + Times(Own(c, s, n, 1), l) + Times(Own(c, s, n, 2), l)
      + PartBetween(c, s, n, 0, l) + PartBetween(c, s, n, 1, l) + PartBetween(c, s, n, 2, l)
      == Between(n, l, n + Labels(c.definitions, s))
  {
    if s.DoLoop? {
      DoTimes(c, s, n, l);
    } else if s.If? || s.IfElse? || s.Of? || s.Case? {
      BranchTimes(c, s, n, l);
    } else if s.BeginUntil? || s.BeginAgain? || s.Sequence? || s.Conditional? {
      BeginTimes(c, s, n, l);
    } else {
      LeafTimes(c, s, n, l);
    }
  }

  lemma LeafTimes(c: Context, s: Stmt, n: int, l: int)
    requires Whole(s) && Parts(c, s, n) == [] && !s.Conditional? && !s.Sequence?
    ensures Times(Own(c, s, n, 0), l) == Between(n, l, n + Labels(c.definitions, s))
    ensures Times(Own(c, s, n, 1), l) == Times(Own(c, s, n, 2), l) == 0
  {
    hide Times;
    NotThere([], l);
    if s.AbortString? {
      var before := IfCode(n) + StringCode(s.data, s.size) + [Call(ABORT_WORD)];
      NotThere(before, l);
      TimesThen(before, [Label(n)], l);
      OneLabel(n, l);
    } else {
      LeafHasNone(c, s, n, l);
      NotThere(Own(c, s, n, 0), l);
    }
  }

  lemma LeafHasNone(c: Context, s: Stmt, n: int, l: int)
    requires Whole(s) && Parts(c, s, n) == [] && !s.AbortString?
    ensures Label(l) !in Code(c, s, n)
  {
  }

  lemma DoTimes(c: Context, s: Stmt, n: int, l: int)
    requires s.DoLoop?
    ensures Times(Own(c, s, n, 0), l) + Times(Own(c, s, n, 1), l) + Times(Own(c, s, n, 2), l)
      + PartBetween(c, s, n, 0, l) + PartBetween(c, s, n, 1, l) + PartBetween(c, s, n, 2, l)
      == Between(n, l, n + Labels(c.definitions, s))
  {
    hide Times, Code, DoCode, EnterCode, LoopCode, PlusLoopCode, UnloopCode;
    var k := n + 3 + Labels(c.definitions, s.body);
    SnippetTimes(n, n, n, l);
    SnippetTimes(n + 1, n + 2, k, l);
    OneLabel(n, l);
    OneLabel(n + 1, l);
    OneLabel(n + 2, l);
    var loop := if s.plus then PlusLoopCode(n + 1, n + 2, k) else LoopCode(n + 1);
    TimesThen(DoCode(s.query, n) + EnterCode(), [Label(n + 1)], l);
    TimesThen(DoCode(s.query, n), EnterCode(), l);
    TimesThen(loop + [Label(n + 2)] + UnloopCode(), [Label(n)], l);
    TimesThen(loop + [Label(n + 2)], UnloopCode(), l);
    TimesThen(loop, [Label(n + 2)], l);
    NotThere([], l);
  }

  lemma BranchTimes(c: Context, s: Stmt, n: int, l: int)
    requires s.If? || s.IfElse? || s.Of? || s.Case?
    ensures Times(Own(c, s, n, 0), l) + Times(Own(c, s, n, 1), l) + Times(Own(c, s, n, 2), l)
      + PartBetween(c, s, n, 0, l) + PartBetween(c, s, n, 1, l) + PartBetween(c, s, n, 2, l)
      == Between(n, l, n + Labels(c.definitions, s))
  {
    hide Times, Own, PartBetween, Between;
    if s.If? || s.IfElse? { IfTimes(c, s, n, l); } else { CaseTimes(c, s, n, l); }
  }

  lemma IfTimes(c: Context, s: Stmt, n: int, l: int)
    requires s.If? || s.IfElse?
    ensures Times(Own(c, s, n, 0), l) + Times(Own(c, s, n, 1), l) + Times(Own(c, s, n, 2), l)
      + PartBetween(c, s, n, 0, l) + PartBetween(c, s, n, 1, l) + PartBetween(c, s, n, 2, l)
      == Between(n, l, n + Labels(c.definitions, s))
  {
    hide Times, Code, IfCode;
    var m := if s.If? then n else n + 1 + Labels(c.definitions, s.thenPart);
    NotThere([], l);
    SnippetTimes(n, n, n, l);
    SnippetTimes(m, n, n, l);
    OneLabel(n, l);
    OneLabel(m, l);
    TimesThen([Jump(m)], [Label(n)], l);
    assert [Jump(m)] + [Label(n)] == [Jump(m), Label(n)];
  }

  lemma CaseTimes(c: Context, s: Stmt, n: int, l: int)
    requires s.Of? || s.Case?
    ensures Times(Own(c, s, n, 0), l) + Times(Own(c, s, n, 1), l) + Times(Own(c, s, n, 2), l)
      + PartBetween(c, s, n, 0, l) + PartBetween(c, s, n, 1, l) + PartBetween(c, s, n, 2, l)
      == Between(n, l, n + Labels(c.definitions, s))
  {
    hide Times, Code, OfCode, Own, PartBetween, Between;
    if s.Case? { EndcaseTimes(c, s, n, l); } else { OfTimes(c, s, n, l); }
  }

  lemma EndcaseTimes(c: Context, s: Stmt, n: int, l: int)
    requires s.Case?
    ensures Times(Own(c, s, n, 0), l) + Times(Own(c, s, n, 1), l) + Times(Own(c, s, n, 2), l)
      + PartBetween(c, s, n, 0, l) + PartBetween(c, s, n, 1, l) + PartBetween(c, s, n, 2, l)
      == Between(n, l, n + Labels(c.definitions, s))
  {
    hide Times, Code, OfCode;
    NotThere([], l);
    SnippetTimes(n, n, n, l);
    OneLabel(n, l);
    TimesThen([Label(n)], [Opcode.Pop(R0, DataStack)], l);
  }

  lemma OfTimes(c: Context, s: Stmt, n: int, l: int)
    requires s.Of?
    ensures Times(Own(c, s, n, 0), l) + Times(Own(c, s, n, 1), l) + Times(Own(c, s, n, 2), l)
      + PartBetween(c, s, n, 0, l) + PartBetween(c, s, n, 1, l) + PartBetween(c, s, n, 2, l)
      == Between(n, l, n + Labels(c.definitions, s))
  {
    hide Times, Code, OfCode;
    var m := n + Labels(c.definitions, s.test);
    NotThere([], l);
    SnippetTimes(m, n, n, l);
    OneLabel(m, l);
    var out := if c.breakLabel.Some? then [Jump(c.breakLabel.value)] else [];
    if c.breakLabel.Some? { SnippetTimes(c.breakLabel.value, n, n, l); }
    TimesThen(out, [Label(m)], l);
  }
  lemma BeginTimes(c: Context, s: Stmt, n: int, l: int)
    requires s.BeginUntil? || s.BeginAgain? || s.Sequence? || s.Conditional?
    ensures Times(Own(c, s, n, 0), l) + Times(Own(c, s, n, 1), l) + Times(Own(c, s, n, 2), l)
      + PartBetween(c, s, n, 0, l) + PartBetween(c, s, n, 1, l) + PartBetween(c, s, n, 2, l)
      == Between(n, l, n + Labels(c.definitions, s))
  {
    hide Times, Code, IfCode;
    NotThere([], l);
    SnippetTimes(n, n, n, l);
    OneLabel(n, l);
    OneLabel(n + 1, l);
    TimesThen(IfCode(n), [Label(n + 1)], l);
    TimesThen([Jump(n)], [Label(n + 1)], l);
  }

  function PartBetween(c: Context, s: Stmt, n: int, i: nat, l: int): nat {
    var ps := Parts(c, s, n);
    if i < |ps| then Between(ps[i].n, l, ps[i].n + Labels(ps[i].c.definitions, ps[i].s)) else 0
  }

  /** The labels that a statement takes are emitted exactly once each, and no others. */
  lemma {:induction false} CodeLabels(c: Context, s: Stmt, n: int, l: int)
    requires Whole(s)
    ensures Times(Code(c, s, n), l) == Between(n, l, n + Labels(c.definitions, s))
    decreases s, 1
  {
    hide Code, Own, PartAt, PartBetween, Parts, Whole, Times, Between;
    TimesForm(c, s, n, l);
    OwnTimes(c, s, n, l);
    PartTimes(c, s, n, 0, l);
    PartTimes(c, s, n, 1, l);
    PartTimes(c, s, n, 2, l);
  }

  lemma {:induction false} PartTimes(c: Context, s: Stmt, n: int, i: nat, l: int)
    requires Whole(s)
    ensures Times(PartAt(Parts(c, s, n), i), l) == PartBetween(c, s, n, i, l)
    decreases s, 0
  {
    hide Code, Own, Parts, Whole, Times, Between;
    var ps := Parts(c, s, n);
    NotThere([], l);
    if i < |ps| {
      PartsWhole(c, s, n);
      CodeLabels(ps[i].c, ps[i].s, ps[i].n, l);
    }
  }

  lemma PartsWhole(c: Context, s: Stmt, n: int)
    requires Whole(s)
    ensures forall i :: 0 <= i < |Parts(c, s, n)| ==> Whole(Parts(c, s, n)[i].s)
  {
  }
}
