/** Statements and sources with conditionals in them, and what is left of them. */
module ConditionalSources {
  import opened Statements
  import opened Elements
  import opened ParserStates
  import opened Tokens
  import opened Conditions
  import opened Reading
  import opened Grammar
  import opened CleanSources
  import Erasure

  function Append(a: Text, b: Text): Text {
    match a
    case Done => b
    case Item(t, rest) => Item(t, Append(rest, b))
    case Group(test, negated, branches, rest) => Group(test, negated, branches, Append(rest, b))
  }

  lemma {:induction false} AppendFlat(d: set<string>, a: Text, b: Text)
    requires Proper(a) && Proper(b)
    ensures Proper(Append(a, b)) && Flat(Append(a, b)) == Flat(a) + Flat(b)
    ensures Conditions.Erased(d, Append(a, b)) == Conditions.Erased(d, a) + Conditions.Erased(d, b)
    decreases a
  {
    hide Conditions.Erased, ErasedBranches, Flat, FlatBranches, Selected;
    match a
    case Done => AppendNothing(d, b);
    case Item(t, rest) =>
      AppendFlat(d, rest, b);
      ItemFlat(d, t, rest);
      ItemFlat(d, t, Append(rest, b));
      Associated([t], Flat(rest), Flat(b));
      Associated([t], Conditions.Erased(d, rest), Conditions.Erased(d, b));
    case Group(test, negated, branches, rest) =>
      AppendFlat(d, rest, b);
      GroupFlat(d, test, negated, branches, rest);
      GroupFlat(d, test, negated, branches, Append(rest, b));
      Associated([CondIfToken(test, negated)] + FlatBranches(branches), Flat(rest), Flat(b));
      Associated(ErasedBranches(d, Selected(d, test, negated), branches), Conditions.Erased(d, rest),
                 Conditions.Erased(d, b));
  }

  lemma AppendNothing(d: set<string>, b: Text)
    ensures Flat(Text.Done) == [] && Conditions.Erased(d, Text.Done) == []
  {
  }

  lemma ItemFlat(d: set<string>, t: Token, rest: Text)
    ensures Flat(Item(t, rest)) == [t] + Flat(rest)
    ensures Conditions.Erased(d, Item(t, rest)) == [t] + Conditions.Erased(d, rest)
  {
  }

  lemma GroupFlat(d: set<string>, test: string, negated: bool, branches: Branches, rest: Text)
    ensures Flat(Group(test, negated, branches, rest)) ==
      [CondIfToken(test, negated)] + FlatBranches(branches) + Flat(rest)
    ensures Conditions.Erased(d, Group(test, negated, branches, rest)) ==
      ErasedBranches(d, Selected(d, test, negated), branches) + Conditions.Erased(d, rest)
  {
    hide Selected;
  }

  /** Some calls, and what is left of them when inactive branches are deleted. */
  ghost predicate Leaves(d: set<string>, text: Text, tokens: seq<Token>, left: seq<Token>) {
    Proper(text) && Flat(text) == tokens && Conditions.Erased(d, text) == left
  }

  lemma LeavesThen(d: set<string>, a: Text, x: seq<Token>, p: seq<Token>, b: Text, y: seq<Token>, q: seq<Token>)
    returns (text: Text)
    requires Leaves(d, a, x, p) && Leaves(d, b, y, q)
    ensures Leaves(d, text, x + y, p + q)
  {
    AppendFlat(d, a, b);
    text := Append(a, b);
    hide Flat, Conditions.Erased;
  }

  lemma LeavesOne(d: set<string>, t: Token) returns (text: Text)
    requires !t.IsConditional()
    ensures Leaves(d, text, [t], [t])
  {
    text := Item(t, Text.Done);
    assert [t] + [] == [t];
  }

  lemma LeavesAround(d: set<string>, first: Token, a: Text, x: seq<Token>, p: seq<Token>, last: Token)
    returns (text: Text)
    requires Leaves(d, a, x, p) && !first.IsConditional() && !last.IsConditional()
    ensures Leaves(d, text, [first] + x + [last], [first] + p + [last])
  {
    hide Leaves;
    var one := LeavesOne(d, first);
    var three := LeavesOne(d, last);
    var two := LeavesThen(d, one, [first], [first], a, x, p);
    text := LeavesThen(d, two, [first] + x, [first] + p, three, [last], [last]);
  }

  lemma LeavesChosen(d: set<string>, test: string, negated: bool, a: Text, x: seq<Token>, p: seq<Token>, b: Text,
                     y: seq<Token>, q: seq<Token>)
    returns (text: Text)
    requires Leaves(d, a, x, p) && Leaves(d, b, y, q)
    ensures Leaves(d, text, [CondIfToken(test, negated)] + x + [CondElseToken] + y + [CondThenToken],
                   if Selected(d, test, negated) then p else q)
  {
    text := Group(test, negated, NextBranch(a, LastBranch(b)), Text.Done);
    TwoBranches(d, test, negated, a, b);
    hide Flat, Conditions.Erased, Selected;
  }

  lemma TwoBranches(d: set<string>, test: string, negated: bool, a: Text, b: Text)
    ensures var text := Group(test, negated, NextBranch(a, LastBranch(b)), Text.Done);
      && (Proper(text) <==> Proper(a) && Proper(b))
      && Flat(text) == [CondIfToken(test, negated)] + Flat(a) + [CondElseToken] + Flat(b) + [CondThenToken]
      && Conditions.Erased(d, text) == if Selected(d, test, negated) then Conditions.Erased(d, a)
        else Conditions.Erased(d, b)
  {
    hide Flat, Proper, FlatBranches, ProperBranches, Conditions.Erased, ErasedBranches, Selected;
    FlatTwo(a, b);
    BothErased(d, Selected(d, test, negated), a, b);
    LoneGroup(d, test, negated, NextBranch(a, LastBranch(b)));
    Regrouped(CondIfToken(test, negated), Flat(a), CondElseToken, Flat(b) + [CondThenToken]);
    Associated([CondIfToken(test, negated)] + Flat(a) + [CondElseToken], Flat(b), [CondThenToken]);
  }

  lemma Regrouped(t: Token, a: seq<Token>, e: Token, b: seq<Token>)
    ensures [t] + (a + [e] + b) == [t] + a + [e] + b
  {
  }

  lemma Associated(a: seq<Token>, b: seq<Token>, c: seq<Token>)
    ensures a + (b + c) == a + b + c
  {
  }

  lemma FlatTwo(a: Text, b: Text)
    ensures var both := NextBranch(a, LastBranch(b));
      && FlatBranches(both) == Flat(a) + [CondElseToken] + (Flat(b) + [CondThenToken])
      && (ProperBranches(both) <==> Proper(a) && Proper(b))
  {
    hide Flat, Proper;
    assert FlatBranches(LastBranch(b)) == Flat(b) + [CondThenToken];
    assert ProperBranches(LastBranch(b)) <==> Proper(b);
  }

  lemma BothErased(d: set<string>, active: bool, a: Text, b: Text)
    ensures ErasedBranches(d, active, NextBranch(a, LastBranch(b))) ==
      if active then Conditions.Erased(d, a) else Conditions.Erased(d, b)
  {
    hide Conditions.Erased;
    assert ErasedBranches(d, !active, LastBranch(b)) == if active then [] else Conditions.Erased(d, b);
  }

  lemma LoneGroup(d: set<string>, test: string, negated: bool, branches: Branches)
    ensures var text := Group(test, negated, branches, Text.Done);
      && (Proper(text) <==> ProperBranches(branches))
      && Flat(text) == [CondIfToken(test, negated)] + FlatBranches(branches)
      && Conditions.Erased(d, text) == ErasedBranches(d, Selected(d, test, negated), branches)
  {
    hide Selected;
  }

  /** Deleting the inactive branches of a statement's calls leaves the calls of
      what is left of the statement. */
  lemma {:induction false} StatementLeaves(d: set<string>, s: Stmt) returns (text: Text)
    ensures Leaves(d, text, StmtTokens(s), StmtTokens(Erasure.Erased(d, s)))
    decreases s, 1
  {
    hide Leaves, StmtTokens, Erasure.Erased;
    if s.Sequence? || s.Conditional? {
      text := PairLeaves(d, s);
    } else if s.If? || s.DoLoop? || s.BeginUntil? || s.BeginAgain? || s.Case? {
      text := InnerLeaves(d, s);
    } else if s.IfElse? {
      text := IfElseLeaves(d, s);
    } else if s.Of? {
      text := OfLeaves(d, s);
    } else {
      text := PlainLeaves(d, s);
    }
  }

  lemma PlainLeaves(d: set<string>, s: Stmt) returns (text: Text)
    requires !s.Sequence? && !s.Conditional? && !s.If? && !s.DoLoop? && !s.BeginUntil? && !s.BeginAgain? && !s.Case?
    requires !s.IfElse? && !s.Of?
    ensures Leaves(d, text, StmtTokens(s), StmtTokens(Erasure.Erased(d, s)))
  {
    hide Leaves;
    if s.Empty? || s.Elsewhere? {
      text := LeavesNothing(d);
    } else {
      text := LeavesOne(d, Single(s));
    }
  }

  lemma {:induction false} PairLeaves(d: set<string>, s: Stmt) returns (text: Text)
    requires s.Sequence? || s.Conditional?
    ensures Leaves(d, text, StmtTokens(s), StmtTokens(Erasure.Erased(d, s)))
    decreases s, 0
  {
    hide Leaves, Selected;
    var a, b := if s.Sequence? then s.first else s.thenPart, if s.Sequence? then s.second else s.elsePart;
    var x := StatementLeaves(d, a);
    var y := StatementLeaves(d, b);
    var p, q := StmtTokens(Erasure.Erased(d, a)), StmtTokens(Erasure.Erased(d, b));
    if s.Sequence? {
      text := LeavesThen(d, x, StmtTokens(a), p, y, StmtTokens(b), q);
    } else {
      text := LeavesChosen(d, s.name, s.negated, x, StmtTokens(a), p, y, StmtTokens(b), q);
    }
  }

  /** The calls that open and close a structure with one statement inside. */
  function Around(s: Stmt): (Token, Stmt, Token)
    requires s.If? || s.DoLoop? || s.BeginUntil? || s.BeginAgain? || s.Case?
  {
    match s
    case If(a) => (IfToken, a, ThenToken)
    case DoLoop(query, body, plus) => (DoToken(query), body, if plus then PlusLoopToken else LoopToken)
    case BeginUntil(body) => (BeginToken, body, UntilToken)
    case BeginAgain(body) => (BeginToken, body, RepeatToken)
    case Case(body) => (CaseToken, body, EndcaseToken)
  }

  lemma AroundTokens(d: set<string>, s: Stmt)
    requires s.If? || s.DoLoop? || s.BeginUntil? || s.BeginAgain? || s.Case?
    ensures var (first, inner, last) := Around(s);
      && StmtTokens(s) == [first] + StmtTokens(inner) + [last]
      && StmtTokens(Erasure.Erased(d, s)) == [first] + StmtTokens(Erasure.Erased(d, inner)) + [last]
      && !first.IsConditional() && !last.IsConditional() && inner < s
  {
  }

  lemma {:induction false} InnerLeaves(d: set<string>, s: Stmt) returns (text: Text)
    requires s.If? || s.DoLoop? || s.BeginUntil? || s.BeginAgain? || s.Case?
    ensures Leaves(d, text, StmtTokens(s), StmtTokens(Erasure.Erased(d, s)))
    decreases s, 0
  {
    hide Leaves, StmtTokens, Erasure.Erased, Around;
    AroundTokens(d, s);
    var (first, inner, last) := Around(s);
    var x := StatementLeaves(d, inner);
    text := LeavesAround(d, first, x, StmtTokens(inner), StmtTokens(Erasure.Erased(d, inner)), last);
  }

  lemma LeavesNothing(d: set<string>) returns (text: Text)
    ensures Leaves(d, text, [], [])
  {
    text := Text.Done;
  }

  lemma {:induction false} IfElseLeaves(d: set<string>, s: Stmt) returns (text: Text)
    requires s.IfElse?
    ensures Leaves(d, text, StmtTokens(s), StmtTokens(Erasure.Erased(d, s)))
    decreases s, 0
  {
    hide Leaves;
    var a, b, e, f := StmtTokens(s.thenPart), StmtTokens(s.elsePart),
      StmtTokens(Erasure.Erased(d, s.thenPart)), StmtTokens(Erasure.Erased(d, s.elsePart));
    var x := StatementLeaves(d, s.thenPart);
    var y := StatementLeaves(d, s.elsePart);
    var first := LeavesAround(d, IfToken, x, a, e, ElseToken);
    var second := LeavesThen(d, first, [IfToken] + a + [ElseToken], [IfToken] + e + [ElseToken], y, b, f);
    var last := LeavesOne(d, ThenToken);
    text := LeavesThen(d, second, [IfToken] + a + [ElseToken] + b, [IfToken] + e + [ElseToken] + f, last, [ThenToken],
                       [ThenToken]);
  }

  lemma {:induction false} OfLeaves(d: set<string>, s: Stmt) returns (text: Text)
    requires s.Of?
    ensures Leaves(d, text, StmtTokens(s), StmtTokens(Erasure.Erased(d, s)))
    decreases s, 0
  {
    hide Leaves;
    var a, b, c := StmtTokens(s.test), StmtTokens(s.body), StmtTokens(s.rest);
    var e, f, g := StmtTokens(Erasure.Erased(d, s.test)), StmtTokens(Erasure.Erased(d, s.body)),
      StmtTokens(Erasure.Erased(d, s.rest));
    var x := StatementLeaves(d, s.test);
    var y := StatementLeaves(d, s.body);
    var z := StatementLeaves(d, s.rest);
    var middle := LeavesAround(d, OfToken, y, b, f, EndofToken);
    var first := LeavesThen(d, x, a, e, middle, [OfToken] + b + [EndofToken], [OfToken] + f + [EndofToken]);
    text := LeavesThen(d, first, a + ([OfToken] + b + [EndofToken]), e + ([OfToken] + f + [EndofToken]), z, c, g);
    OfOrder(a, b, c);
    OfOrder(e, f, g);
  }

  lemma OfOrder(a: seq<Token>, b: seq<Token>, c: seq<Token>)
    ensures a + ([OfToken] + b + [EndofToken]) + c == a + [OfToken] + b + [EndofToken] + c
  {
  }

  lemma {:induction false} LinesLeave(d: set<string>, lines: seq<string>) returns (text: Text)
    ensures Leaves(d, text, LineTokens(lines), LineTokens(lines))
    decreases |lines|
  {
    hide Leaves;
    if lines == [] {
      text := LeavesNothing(d);
    } else {
      var front, last := lines[..|lines| - 1], LineToken(lines[|lines| - 1]);
      var x := LinesLeave(d, front);
      var y := LeavesOne(d, last);
      text := LeavesThen(d, x, LineTokens(front), LineTokens(front), y, [last], [last]);
    }
  }

  lemma {:induction false} SourceLeaves(d: set<string>, s: Source) returns (text: Text)
    ensures Leaves(d, text, SourceTokens(s), SourceTokens(Erasure.ErasedSource(d, s)))
  {
    hide Leaves, StmtTokens, Erasure.Erased;
    match s
    case Both(a, b) =>
      var x := SourceLeaves(d, a);
      var y := SourceLeaves(d, b);
      text := LeavesThen(d, x, SourceTokens(a), SourceTokens(Erasure.ErasedSource(d, a)),
                         y, SourceTokens(b), SourceTokens(Erasure.ErasedSource(d, b)));
    case Definition(x, body) =>
      var y := StatementLeaves(d, body);
      text := LeavesAround(d, ColonToken(x), y, StmtTokens(body), StmtTokens(Erasure.Erased(d, body)), SemicolonToken);
    case Noname(x, body) =>
      var y := StatementLeaves(d, body);
      text := LeavesAround(d, NonameToken(x), y, StmtTokens(body), StmtTokens(Erasure.Erased(d, body)), SemicolonToken);
    case Assembler(x, lines) =>
      var y := LinesLeave(d, lines);
      text := LeavesAround(d, CodeToken(x), y, LineTokens(lines), LineTokens(lines), EndCodeToken);
    case Declaration(x) => text := LeavesOne(d, VariableToken(x));
    case Statement(body) => text := StatementLeaves(d, body);
    case Choice(test, negated, a, b) =>
      var x := SourceLeaves(d, a);
      var y := SourceLeaves(d, b);
      text := LeavesChosen(d, test, negated, x, SourceTokens(a), SourceTokens(Erasure.ErasedSource(d, a)),
                           y, SourceTokens(b), SourceTokens(Erasure.ErasedSource(d, b)));
    case Nothing => text := LeavesNothing(d);
  }

  /** The calls for a source have matched conditionals, and what is left of them
      are the calls for the source without its inactive branches. */
  lemma SourceActive(d: set<string>, s: Source)
    ensures Matched(SourceTokens(s)) && Active(d, SourceTokens(s)) == SourceTokens(Erasure.ErasedSource(d, s))
  {
    var text := SourceLeaves(d, s);
    assert Flat(text) + [] == Flat(text);
    ParseOfFlat(text, []);
    FlatMatched(text, 0, []);
  }

  lemma {:induction false} FlatMatched(text: Text, open: nat, rest: seq<Token>)
    requires Proper(text)
    ensures Level(Flat(text) + rest, open) == Level(rest, open)
    decreases text, 0
  {
    match text
    case Done => assert Flat(text) + rest == rest;
    case Item(t, more) =>
      assert (Flat(text) + rest)[1..] == Flat(more) + rest;
      FlatMatched(more, open, rest);
    case Group(test, negated, branches, more) =>
      var all := Flat(text) + rest;
      assert all[0] == CondIfToken(test, negated) && all[1..] == FlatBranches(branches) + (Flat(more) + rest);
      BranchesMatched(branches, open + 1, Flat(more) + rest);
      FlatMatched(more, open, rest);
  }

  lemma {:induction false} BranchesMatched(branches: Branches, open: nat, rest: seq<Token>)
    requires ProperBranches(branches) && open > 0
    ensures Level(FlatBranches(branches) + rest, open) == Level(rest, open - 1)
    decreases branches, 1
  {
    match branches
    case LastBranch(text) =>
      var after := [CondThenToken] + rest;
      assert FlatBranches(branches) + rest == Flat(text) + after && after[1..] == rest;
      FlatMatched(text, open, after);
    case NextBranch(text, more) =>
      var after := [CondElseToken] + (FlatBranches(more) + rest);
      assert FlatBranches(branches) + rest == Flat(text) + after && after[1..] == FlatBranches(more) + rest;
      FlatMatched(text, open, after);
      BranchesMatched(more, open, rest);
  }

  /** A source, conditionals and all, and what is left of it: the parser finishes
      with the same outcome on both. */
  lemma SourceIsErasure(d: set<string>, s: Source)
    ensures Ending(Drive(true, Initial(d), SourceTokens(s)))
      == Ending(Drive(true, Initial(d), SourceTokens(Erasure.ErasedSource(d, s))))
  {
    SourceActive(d, s);
    SameEnding(Initial(d), SourceTokens(s));
  }

  /** Compiled from what is left of it, a source is compiled. */
  lemma ErasedCompiles(v: View, s: Source)
    requires Compiles(v, Erasure.ErasedSource(v.frame.definitions, s))
    ensures Compiles(v, s)
  {
    Erasure.ConditionalIsErasure(v.frame.definitions, v.frame.definitions, s, 1);
    Erasure.ErasedNames(v.frame.definitions, s);
    hide Raw, AllBlocks, Sound, Distinct, Erasure.ErasedSource, LabelCount;
  }

  /** What is left of a statement does the same to names. */
  lemma {:induction false} ErasedEvents(d: set<string>, top: bool, inside: bool, s: Stmt)
    ensures StmtEvents(d, top, inside, Erasure.Erased(d, s)) == StmtEvents(d, top, inside, s)
    decreases s
  {
    hide Selected, SingleEvents, Claims;
    match s
    case Sequence(a, b) =>
      ErasedEvents(d, top, inside, a);
      ErasedEvents(d, top, inside, b);
    case If(a) => ErasedEvents(d, top, inside, a);
    case IfElse(a, b) =>
      ErasedEvents(d, top, inside, a);
      ErasedEvents(d, top, inside, b);
    case DoLoop(_, body, _) => ErasedEvents(d, top, true, body);
    case BeginUntil(body) => ErasedEvents(d, top, true, body);
    case BeginAgain(body) => ErasedEvents(d, top, true, body);
    case Case(body) => ErasedEvents(d, top, true, body);
    case Of(test, body, rest) =>
      ErasedEvents(d, top, inside, test);
      ErasedEvents(d, top, inside, body);
      ErasedEvents(d, top, inside, rest);
    case Conditional(name, negated, a, b) => ErasedEvents(d, top, inside, if Selected(d, name, negated) then a else b);
    case _ =>
  }

  lemma {:induction false} ErasedSourceEvents(d: set<string>, s: Source)
    ensures SourceEvents(d, Erasure.ErasedSource(d, s)) == SourceEvents(d, s)
    decreases s
  {
    hide StmtEvents, Erasure.Erased, Selected;
    match s
    case Both(a, b) =>
      ErasedSourceEvents(d, a);
      ErasedSourceEvents(d, b);
    case Definition(_, body) => ErasedEvents(d, false, false, body);
    case Noname(_, body) => ErasedEvents(d, false, false, body);
    case Statement(body) => ErasedEvents(d, true, false, body);
    case Choice(_, _, _, _) => ErasedSourceEvents(d, Chosen(d, s));
    case _ =>
  }

  /** The parser on calls that spell a source when inactive branches are deleted: it
      has nothing to complain about exactly when every name that is given is new and
      no word stands where it has no place. */
  lemma ActiveFinishes(d: set<string>, tokens: seq<Token>, s: Source)
    requires Matched(tokens) && Lawful(s) && Active(d, tokens) == SourceTokens(Erasure.ErasedSource(d, s))
    ensures Drive(true, Initial(d), tokens).Some?
    ensures var f := Finished(Drive(true, Initial(d), tokens).value);
      && (f.notes.errors == 0 <==> Clear(SourceEvents(d, s)))
      && (f.notes.errors == 0 ==> f.frame.definitions == d && Compiles(f, s))
  {
    hide Drive, Finished, Active, Matched, Raw, AllBlocks, Sound, Distinct, Clear, SourceEvents;
    var e := Erasure.ErasedSource(d, s);
    ErasedSourceEvents(d, s);
    Erasure.ErasedLawful(d, s);
    Erasure.ConditionalIsErasure(d, d, s, 1);
    SourceFinishes(d, e);
    SameEnding(Initial(d), tokens);
    var f := Finished(Drive(true, Initial(d), SourceTokens(e)).value);
    if f.notes.errors == 0 {
      ErasedCompiles(f, s);
    }
  }

  // ----- the calls for a source -----

  lemma MadeThen(a: seq<Token>, b: seq<Token>)
    requires WellMade(a) && WellMade(b)
    ensures WellMade(a + b)
  {
  }

  lemma MadeAround(first: Token, a: seq<Token>, last: Token)
    requires WellMade(a) && !first.Single? && !last.Single?
    ensures WellMade([first] + a + [last])
  {
  }

  lemma {:induction false} StatementMade(s: Stmt)
    ensures WellMade(StmtTokens(s))
  {
    hide WellMade;
    if s.Sequence? {
      StatementMade(s.first);
      StatementMade(s.second);
      MadeThen(StmtTokens(s.first), StmtTokens(s.second));
    } else if s.If? {
      StatementMade(s.thenPart);
      MadeAround(IfToken, StmtTokens(s.thenPart), ThenToken);
    } else if s.DoLoop? || s.BeginUntil? || s.BeginAgain? || s.Case? {
      StatementMade(s.body);
      LoopMade(s);
    } else if s.IfElse? || s.Conditional? {
      StatementMade(s.thenPart);
      StatementMade(s.elsePart);
      ChoiceMade(StmtTokens(s.thenPart), StmtTokens(s.elsePart));
    } else if s.Of? {
      StatementMade(s.test);
      StatementMade(s.body);
      StatementMade(s.rest);
      MadeAround(OfToken, StmtTokens(s.body), EndofToken);
      ClauseMade(StmtTokens(s.test), StmtTokens(s.body), StmtTokens(s.rest));
    } else {
      SingleMade(s);
    }
  }

  lemma SingleMade(s: Stmt)
    requires !s.Sequence? && !s.If? && !s.DoLoop? && !s.BeginUntil? && !s.BeginAgain? && !s.Case?
    requires !s.IfElse? && !s.Conditional? && !s.Of?
    ensures WellMade(StmtTokens(s))
  {
  }

  lemma LoopMade(s: Stmt)
    requires (s.DoLoop? || s.BeginUntil? || s.BeginAgain? || s.Case?) && WellMade(StmtTokens(s.body))
    ensures WellMade(StmtTokens(s))
  {
  }

  lemma ChoiceMade(a: seq<Token>, b: seq<Token>)
    requires WellMade(a) && WellMade(b)
    ensures WellMade([IfToken] + a + [ElseToken] + b + [ThenToken])
    ensures forall test, negated :: WellMade([CondIfToken(test, negated)] + a + [CondElseToken] + b + [CondThenToken])
  {
  }

  lemma ClauseMade(a: seq<Token>, b: seq<Token>, c: seq<Token>)
    requires WellMade(a) && WellMade(b) && WellMade(c)
    ensures WellMade(a + [OfToken] + b + [EndofToken] + c)
  {
  }

  lemma {:induction false} LinesMade(lines: seq<string>)
    ensures WellMade(LineTokens(lines))
  {
    if lines != [] {
      LinesMade(lines[..|lines| - 1]);
    }
  }

  lemma {:induction false} SourceMade(s: Source)
    ensures WellMade(SourceTokens(s))
  {
    hide WellMade, StmtTokens;
    match s
    case Both(a, b) =>
      SourceMade(a);
      SourceMade(b);
      MadeThen(SourceTokens(a), SourceTokens(b));
    case Definition(x, body) =>
      StatementMade(body);
      MadeAround(ColonToken(x), StmtTokens(body), SemicolonToken);
    case Noname(x, body) =>
      StatementMade(body);
      MadeAround(NonameToken(x), StmtTokens(body), SemicolonToken);
    case Assembler(x, lines) =>
      LinesMade(lines);
      MadeAround(CodeToken(x), LineTokens(lines), EndCodeToken);
    case Statement(body) => StatementMade(body);
    case Choice(_, _, a, b) =>
      SourceMade(a);
      SourceMade(b);
      ChoiceMade(SourceTokens(a), SourceTokens(b));
    case Declaration(x) => SimpleMade(VariableToken(x));
    case Nothing => SimpleMade(EndCodeToken);
  }

  lemma SimpleMade(t: Token)
    requires !t.Single?
    ensures WellMade([t]) && WellMade([])
  {
  }
}
