/** Conditional compilation is erasure: with the condition stack, exactly those
    handlers take effect that are left when inactive branches are deleted. */
module Conditions {
  import opened Options
  import opened Statements
  import opened AssemblerLines
  import opened ParserStates
  import opened Tokens

  /** A row of calls in which every [IFDEF] and [IFUNDEF] has its [THEN], with any
      number of [ELSE] between. */
  datatype Text =
    | Done
    | Item(token: Token, rest: Text)
    | Group(test: string, negated: bool, branches: Branches, rest: Text)

  datatype Branches = LastBranch(text: Text) | NextBranch(text: Text, more: Branches)

  function Flat(text: Text): seq<Token> {
    match text
    case Done => []
    case Item(t, rest) => [t] + Flat(rest)
    case Group(test, negated, branches, rest) => [CondIfToken(test, negated)] + FlatBranches(branches) + Flat(rest)
  }

  function FlatBranches(branches: Branches): seq<Token> {
    match branches
    case LastBranch(text) => Flat(text) + [CondThenToken]
    case NextBranch(text, more) => Flat(text) + [CondElseToken] + FlatBranches(more)
  }

  /** The calls that are left when inactive branches are deleted: every other
      branch, from the first or the second on. */
  function Erased(definitions: set<string>, text: Text): seq<Token>
    decreases text
  {
    match text
    case Done => []
    case Item(t, rest) => [t] + Erased(definitions, rest)
    case Group(test, negated, branches, rest) =>
      ErasedBranches(definitions, Selected(definitions, test, negated), branches) + Erased(definitions, rest)
  }

  function ErasedBranches(definitions: set<string>, active: bool, branches: Branches): seq<Token>
    decreases branches
  {
    match branches
    case LastBranch(text) => if active then Erased(definitions, text) else []
    case NextBranch(text, more) =>
      (if active then Erased(definitions, text) else []) + ErasedBranches(definitions, !active, more)
  }

  predicate Proper(text: Text) {
    match text
    case Done => true
    case Item(t, rest) => !t.IsConditional() && Proper(rest)
    case Group(_, _, branches, rest) => ProperBranches(branches) && Proper(rest)
  }

  predicate ProperBranches(branches: Branches) {
    match branches
    case LastBranch(text) => Proper(text)
    case NextBranch(text, more) => Proper(text) && ProperBranches(more)
  }

  // ----- every matched row of calls is such a text -----

  /** How many conditionals are open after some calls; none when one is closed that is not open. */
  function Level(tokens: seq<Token>, open: nat): Option<nat> {
    if tokens == [] then Some(open)
    else if tokens[0].CondIfToken? then Level(tokens[1..], open + 1)
    else if tokens[0].IsConditional() && open == 0 then None
    else Level(tokens[1..], if tokens[0].CondThenToken? then open - 1 else open)
  }

  predicate Matched(tokens: seq<Token>) {
    Level(tokens, 0) == Some(0)
  }

  datatype Parsed = Parsed(text: Text, rest: seq<Token>)
  datatype ParsedBranches = ParsedBranches(branches: Branches, rest: seq<Token>)

  /** The text up to the next [ELSE] or [THEN] that is not its own. */
  function Parse(tokens: seq<Token>): (p: Parsed)
    ensures |p.rest| <= |tokens|
    decreases |tokens|, 0
  {
    if tokens == [] || tokens[0].CondElseToken? || tokens[0].CondThenToken? then Parsed(Done, tokens)
    else if tokens[0].CondIfToken? then
      var b := ParseBranches(tokens[1..]);
      var p := Parse(b.rest);
      Parsed(Group(tokens[0].test, tokens[0].negated, b.branches, p.text), p.rest)
    else
      var p := Parse(tokens[1..]);
      Parsed(Item(tokens[0], p.text), p.rest)
  }

  function ParseBranches(tokens: seq<Token>): (b: ParsedBranches)
    ensures |b.rest| <= |tokens|
    decreases |tokens|, 1
  {
    var p := Parse(tokens);
    if p.rest == [] then ParsedBranches(LastBranch(p.text), [])
    else if p.rest[0].CondElseToken? then
      var b := ParseBranches(p.rest[1..]);
      ParsedBranches(NextBranch(p.text, b.branches), b.rest)
    else ParsedBranches(LastBranch(p.text), p.rest[1..])
  }

  lemma {:induction false} ParseFlat(tokens: seq<Token>, open: nat)
    requires Level(tokens, open) == Some(0)
    ensures var p := Parse(tokens);
      && Proper(p.text) && tokens == Flat(p.text) + p.rest && Level(p.rest, open) == Some(0)
      && (p.rest == [] || (open > 0 && (p.rest[0].CondElseToken? || p.rest[0].CondThenToken?)))
    decreases |tokens|, 0
  {
    if tokens == [] || tokens[0].CondElseToken? || tokens[0].CondThenToken? {
    } else if tokens[0].CondIfToken? {
      ParseBranchesFlat(tokens[1..], open + 1);
      ParseFlat(ParseBranches(tokens[1..]).rest, open);
      BlockFlat(tokens);
    } else {
      ParseFlat(tokens[1..], open);
    }
  }

  lemma BlockFlat(tokens: seq<Token>)
    requires tokens != [] && tokens[0].CondIfToken?
    requires var b := ParseBranches(tokens[1..]);
      var p := Parse(b.rest);
      tokens[1..] == FlatBranches(b.branches) + b.rest && b.rest == Flat(p.text) + p.rest
    ensures var p := Parse(tokens); tokens == Flat(p.text) + p.rest
  {
    hide Parse, ParseBranches, FlatBranches, Flat;
    BlockText(tokens);
    var b := ParseBranches(tokens[1..]);
    var p := Parse(b.rest);
    assert tokens == [tokens[0]] + tokens[1..];
    Nested(tokens[0], FlatBranches(b.branches), Flat(p.text), p.rest);
  }

  lemma BlockText(tokens: seq<Token>)
    requires tokens != [] && tokens[0].CondIfToken?
    ensures var b := ParseBranches(tokens[1..]); var p := Parse(b.rest); var q := Parse(tokens);
      Flat(q.text) == [tokens[0]] + FlatBranches(b.branches) + Flat(p.text) && q.rest == p.rest
  {
    hide ParseBranches;
  }

  lemma Nested(t: Token, a: seq<Token>, b: seq<Token>, c: seq<Token>)
    ensures [t] + (a + (b + c)) == ([t] + a + b) + c
  {
  }

  lemma {:induction false} ParseBranchesFlat(tokens: seq<Token>, open: nat)
    requires open > 0 && Level(tokens, open) == Some(0)
    ensures var b := ParseBranches(tokens);
      ProperBranches(b.branches) && tokens == FlatBranches(b.branches) + b.rest && Level(b.rest, open - 1) == Some(0)
    decreases |tokens|, 1
  {
    hide Level, Parse;
    ParseFlat(tokens, open);
    var p := Parse(tokens);
    assert p.rest != [] by { NotDone(open); }
    LevelStep(p.rest, open);
    if p.rest[0].CondElseToken? {
      ParseBranchesFlat(p.rest[1..], open);
    }
    BranchesFlat(tokens);
  }

  lemma NotDone(open: nat)
    requires open > 0
    ensures Level([], open) != Some(0)
  {
  }

  lemma LevelStep(tokens: seq<Token>, open: nat)
    requires tokens != [] && open > 0
    ensures tokens[0].CondElseToken? ==> Level(tokens, open) == Level(tokens[1..], open)
    ensures tokens[0].CondThenToken? ==> Level(tokens, open) == Level(tokens[1..], open - 1)
  {
  }

  lemma BranchesFlat(tokens: seq<Token>)
    requires var p := Parse(tokens);
      && p.rest != [] && tokens == Flat(p.text) + p.rest
      && (p.rest[0] == CondThenToken || (p.rest[0] == CondElseToken
            && var b := ParseBranches(p.rest[1..]); p.rest[1..] == FlatBranches(b.branches) + b.rest))
    ensures var b := ParseBranches(tokens); tokens == FlatBranches(b.branches) + b.rest
  {
    hide Parse, Flat;
    var p := Parse(tokens);
    assert p.rest == [p.rest[0]] + p.rest[1..];
    if p.rest[0] == CondThenToken {
      Glued(Flat(p.text), CondThenToken, [], p.rest[1..]);
      assert [] + p.rest[1..] == p.rest[1..];
      assert Flat(p.text) + [CondThenToken] + [] == Flat(p.text) + [CondThenToken];
    } else {
      var b := ParseBranches(p.rest[1..]);
      Glued(Flat(p.text), CondElseToken, FlatBranches(b.branches), b.rest);
      hide FlatBranches;
      assert FlatBranches(NextBranch(p.text, b.branches)) ==
        Flat(p.text) + [CondElseToken] + FlatBranches(b.branches) by {
        OneBranch(p.text, b.branches);
      }
    }
  }

  lemma OneBranch(text: Text, more: Branches)
    ensures FlatBranches(NextBranch(text, more)) == Flat(text) + [CondElseToken] + FlatBranches(more)
  {
  }

  lemma Glued(a: seq<Token>, t: Token, b: seq<Token>, c: seq<Token>)
    ensures a + ([t] + (b + c)) == (a + [t] + b) + c
  {
  }

  /** What is left of a matched row of calls. */
  function Active(definitions: set<string>, tokens: seq<Token>): seq<Token> {
    Erased(definitions, Parse(tokens).text)
  }

  /** Reading a text back from its calls gives the text. */
  lemma {:induction false} ParseOfFlat(text: Text, rest: seq<Token>)
    requires Proper(text) && (rest == [] || rest[0].CondElseToken? || rest[0].CondThenToken?)
    ensures Parse(Flat(text) + rest) == Parsed(text, rest)
    decreases text, 0
  {
    match text
    case Done =>
      assert Flat(text) + rest == rest;
    case Item(t, more) =>
      assert (Flat(text) + rest)[1..] == Flat(more) + rest;
      ParseOfFlat(more, rest);
    case Group(test, negated, branches, more) =>
      var all := Flat(text) + rest;
      assert all[0] == CondIfToken(test, negated) && all[1..] == FlatBranches(branches) + (Flat(more) + rest);
      ParseOfBranches(branches, Flat(more) + rest);
      ParseOfFlat(more, rest);
  }

  lemma {:induction false} ParseOfBranches(branches: Branches, rest: seq<Token>)
    requires ProperBranches(branches)
    ensures ParseBranches(FlatBranches(branches) + rest) == ParsedBranches(branches, rest)
    decreases branches, 1
  {
    match branches
    case LastBranch(text) =>
      var after := [CondThenToken] + rest;
      assert FlatBranches(branches) + rest == Flat(text) + after;
      ParseOfFlat(text, after);
      assert after[1..] == rest;
    case NextBranch(text, more) =>
      var after := [CondElseToken] + (FlatBranches(more) + rest);
      assert FlatBranches(branches) + rest == Flat(text) + after;
      ParseOfFlat(text, after);
      assert after[1..] == FlatBranches(more) + rest;
      ParseOfBranches(more, rest);
  }

  // ----- the condition stack -----

  /** Handlers neither look at the condition stack nor change it. */
  lemma EffectAnyConditions(v: View, conditions: seq<bool>, t: Token)
    ensures match Effect(v, t)
      case None => Effect(WithConditions(v, conditions), t) == None
      case Some(w) =>
        && w.frame.condStack == v.frame.condStack && w.frame.definitions == v.frame.definitions
        && Effect(WithConditions(v, conditions), t) == Some(WithConditions(w, conditions))
  {
    hide Effect;
    if IsOpening(t) {
      OpeningAnyConditions(v, conditions, t);
    } else if IsClosing(t) {
      ClosingAnyConditions(v, conditions, t);
    } else {
      OtherAnyConditions(v, conditions, t);
    }
  }

  predicate IsOpening(t: Token) {
    t.IfToken? || t.ElseToken? || t.ThenToken? || t.DoToken? || t.BeginToken? || t.CaseToken? || t.OfToken?
  }

  predicate IsClosing(t: Token) {
    t.LoopToken? || t.PlusLoopToken? || t.UntilToken? || t.RepeatToken? || t.EndofToken? || t.EndcaseToken?
  }

  lemma OpeningAnyConditions(v: View, conditions: seq<bool>, t: Token)
    requires IsOpening(t)
    ensures match Effect(v, t)
      case None => Effect(WithConditions(v, conditions), t) == None
      case Some(w) =>
        && w.frame.condStack == v.frame.condStack && w.frame.definitions == v.frame.definitions
        && Effect(WithConditions(v, conditions), t) == Some(WithConditions(w, conditions))
  {
    EmittedAnyConditions(v, conditions);
    hide Emitted, IfCode, DoCode, EnterCode, OfCode;
  }

  lemma ClosingAnyConditions(v: View, conditions: seq<bool>, t: Token)
    requires IsClosing(t)
    ensures match Effect(v, t)
      case None => Effect(WithConditions(v, conditions), t) == None
      case Some(w) =>
        && w.frame.condStack == v.frame.condStack && w.frame.definitions == v.frame.definitions
        && Effect(WithConditions(v, conditions), t) == Some(WithConditions(w, conditions))
  {
    EmittedAnyConditions(v, conditions);
    hide Emitted, IfCode, LoopCode, UnloopCode, PlusLoopCode;
  }

  lemma OtherAnyConditions(v: View, conditions: seq<bool>, t: Token)
    requires !IsOpening(t) && !IsClosing(t)
    ensures match Effect(v, t)
      case None => Effect(WithConditions(v, conditions), t) == None
      case Some(w) =>
        && w.frame.condStack == v.frame.condStack && w.frame.definitions == v.frame.definitions
        && Effect(WithConditions(v, conditions), t) == Some(WithConditions(w, conditions))
  {
    hide Emitted, SingleEffect, Opened, CodeOpened, Ended, Named, CodePart;
    if t.Single? {
      SingleAnyConditions(v, conditions, t.s);
    } else if t.ColonToken? || t.NonameToken? || t.CodeToken? || t.VariableToken? {
      WordAnyConditions(v, conditions, t.name, t.NonameToken?);
    } else if t.SemicolonToken? && v.labelStack != [] {
      EndAnyConditions(v, conditions);
    }
  }

  lemma EmittedAnyConditions(v: View, c: seq<bool>)
    ensures forall code, k: nat :: Emitted(WithConditions(v, c), code, k) == WithConditions(Emitted(v, code, k), c)
    ensures forall code, k: nat :: Emitted(v, code, k).frame == v.frame
  {
  }

  lemma SingleAnyConditions(v: View, c: seq<bool>, s: Stmt)
    ensures SingleEffect(WithConditions(v, c), s) == WithConditions(SingleEffect(v, s), c)
    ensures SingleEffect(v, s).frame == v.frame
  {
    hide Code;
    var w := WithConditions(v, c);
    assert w.Here() == v.Here();
  }

  lemma WordAnyConditions(v: View, c: seq<bool>, x: string, anonymous: bool)
    ensures var w := WithConditions(v, c);
      && Opened(w, x, anonymous) == WithConditions(Opened(v, x, anonymous), c)
      && CodeOpened(w, x) == WithConditions(CodeOpened(v, x), c)
      && Named(w, x) == WithConditions(Named(v, x), c)
    ensures Opened(v, x, anonymous).frame.condStack == CodeOpened(v, x).frame.condStack == v.frame.condStack
    ensures Opened(v, x, anonymous).frame.definitions == CodeOpened(v, x).frame.definitions == v.frame.definitions
    ensures Named(v, x).frame == v.frame
  {
  }

  lemma EndAnyConditions(v: View, c: seq<bool>)
    requires v.labelStack != []
    ensures Ended(WithConditions(v, c)) == WithConditions(Ended(v), c)
    ensures Ended(v).frame.condStack == v.frame.condStack && Ended(v).frame.definitions == v.frame.definitions
  {
  }

  predicate Unconditional(tokens: seq<Token>) {
    forall i :: 0 <= i < |tokens| ==> !tokens[i].IsConditional()
  }

  function WithAny(r: Option<View>, conditions: seq<bool>): Option<View> {
    if r.None? then None else Some(WithConditions(r.value, conditions))
  }

  /** Calls without conditionals do the same under any conditions that hold. */
  lemma {:induction false} DriveAnyConditions(limited: bool, v: View, conditions: seq<bool>, tokens: seq<Token>)
    requires v.Active() && AllTrue(conditions) && Unconditional(tokens)
    ensures Drive(limited, WithConditions(v, conditions), tokens) == WithAny(Drive(limited, v, tokens), conditions)
    ensures Drive(limited, v, tokens).Some? ==>
      var w := Drive(limited, v, tokens).value;
      w.frame.condStack == v.frame.condStack && w.frame.definitions == v.frame.definitions
    decreases |tokens|
  {
    hide Effect, AllTrue;
    if tokens != [] && !(limited && Excessive(v)) {
      assert !tokens[0].IsConditional();
      EffectAnyConditions(v, conditions, tokens[0]);
      if Effect(v, tokens[0]).Some? {
        assert Unconditional(tokens[1..]);
        DriveAnyConditions(limited, Effect(v, tokens[0]).value, conditions, tokens[1..]);
      }
    }
  }

  lemma {:induction false} ErasedUnconditional(d: set<string>, text: Text)
    requires Proper(text)
    ensures Unconditional(Erased(d, text))
    decreases text
  {
    match text
    case Done =>
    case Item(_, rest) => ErasedUnconditional(d, rest);
    case Group(test, negated, branches, rest) =>
      ErasedBranchesUnconditional(d, Selected(d, test, negated), branches);
      ErasedUnconditional(d, rest);
  }

  lemma {:induction false} ErasedBranchesUnconditional(d: set<string>, active: bool, branches: Branches)
    requires ProperBranches(branches)
    ensures Unconditional(ErasedBranches(d, active, branches))
    decreases branches
  {
    match branches
    case LastBranch(text) => ErasedUnconditional(d, text);
    case NextBranch(text, more) =>
      ErasedUnconditional(d, text);
      ErasedBranchesUnconditional(d, !active, more);
  }

  // ----- erasure -----

  /** The same end; or both have too many errors to go on and differ in the open
      conditions at most. */
  predicate Alike(limited: bool, a: Option<View>, b: Option<View>) {
    a == b || (limited && a.Some? && b.Some? && Excessive(a.value)
               && b.value == WithConditions(a.value, b.value.frame.condStack))
  }

  function Then(limited: bool, r: Option<View>, tokens: seq<Token>): Option<View> {
    if r.None? then None else Drive(limited, r.value, tokens)
  }

  /** After an end alike, what is done next is done on one side only if it can be on the other. */
  lemma AlikeThen(limited: bool, a: Option<View>, b: Option<View>, x: seq<Token>, y: seq<Token>)
    requires Alike(limited, a, b)
    requires a == b && a.Some? && !(limited && Excessive(a.value)) ==>
      Alike(limited, Drive(limited, a.value, x), Drive(limited, a.value, y))
    ensures Alike(limited, Then(limited, a, x), Then(limited, b, y))
  {
    hide Step;
  }

  lemma DriveIsThen(limited: bool, v: View, a: seq<Token>, b: seq<Token>)
    ensures Drive(limited, v, a + b) == Then(limited, Drive(limited, v, a), b)
  {
    DriveThen(limited, v, a, b);
    hide Drive;
  }

  /** Under a false condition nothing happens. */
  lemma {:induction false} Idle(limited: bool, v: View, text: Text)
    requires Proper(text) && !v.Active()
    ensures Drive(limited, v, Flat(text)) == Some(v)
    decreases text, 0
  {
    if !(limited && Excessive(v)) {
      match text
      case Done =>
      case Item(t, rest) =>
        Idle(limited, v, rest);
        IdleItem(limited, v, t, Flat(rest));
      case Group(test, negated, branches, rest) =>
        var v1 := WithConditions(v, v.frame.condStack + [Selected(v.frame.definitions, test, negated)]);
        NotAllTrue(v.frame.condStack, Selected(v.frame.definitions, test, negated));
        IdleBranches(limited, v1, v.frame.condStack, branches);
        Idle(limited, v, rest);
        IdleBlock(limited, v, v1, test, negated, branches, rest);
    }
  }

  lemma IdleItem(limited: bool, v: View, t: Token, rest: seq<Token>)
    requires !v.Active() && !t.IsConditional() && Drive(limited, v, rest) == Some(v)
    ensures Drive(limited, v, [t] + rest) == Some(v)
  {
    hide Effect, AllTrue;
    assert ([t] + rest)[1..] == rest;
  }

  lemma IdleBlock(limited: bool, v: View, v1: View, test: string, negated: bool, branches: Branches, rest: Text)
    requires v1 == WithConditions(v, v.frame.condStack + [Selected(v.frame.definitions, test, negated)])
    requires Drive(limited, v1, FlatBranches(branches)) == Some(v) && Drive(limited, v, Flat(rest)) == Some(v)
    requires !(limited && Excessive(v))
    ensures Drive(limited, v, Flat(Group(test, negated, branches, rest))) == Some(v)
  {
    hide Effect, AllTrue, Selected;
    var first := [CondIfToken(test, negated)];
    DriveIsThen(limited, v, first + FlatBranches(branches), Flat(rest));
    DriveIsThen(limited, v, first, FlatBranches(branches));
    assert Drive(limited, v, first) == Drive(limited, v1, first[1..]);
  }

  lemma NotAllTrue(outer: seq<bool>, b: bool)
    ensures AllTrue(outer + [b]) <==> AllTrue(outer) && b
  {
    assert (outer + [b])[|outer|] == b;
    forall i | 0 <= i < |outer| ensures (outer + [b])[i] == outer[i] {
    }
  }

  lemma {:induction false} IdleBranches(limited: bool, v: View, outer: seq<bool>, branches: Branches)
    requires ProperBranches(branches) && !AllTrue(outer) && |v.frame.condStack| == |outer| + 1
    requires v.frame.condStack[..|outer|] == outer
    requires !(limited && Excessive(v))
    ensures Drive(limited, v, FlatBranches(branches)) == Some(WithConditions(v, outer))
    decreases branches, 1
  {
    hide AllTrue, Effect;
    var b := v.frame.condStack[|outer|];
    assert v.frame.condStack == outer + [b];
    NotAllTrue(outer, b);
    match branches
    case LastBranch(text) =>
      Idle(limited, v, text);
      DriveIsThen(limited, v, Flat(text), [CondThenToken]);
      CloseCondition(limited, v, outer, b);
    case NextBranch(text, more) =>
      Idle(limited, v, text);
      DriveIsThen(limited, v, Flat(text) + [CondElseToken], FlatBranches(more));
      DriveIsThen(limited, v, Flat(text), [CondElseToken]);
      TurnCondition(limited, v, outer, b);
      IdleBranches(limited, WithConditions(v, outer + [!b]), outer, more);
  }

  lemma CloseCondition(limited: bool, v: View, outer: seq<bool>, b: bool)
    requires v.frame.condStack == outer + [b] && !(limited && Excessive(v))
    ensures Drive(limited, v, [CondThenToken]) == Some(WithConditions(v, outer))
  {
    assert (outer + [b])[..|outer|] == outer;
    assert Drive(limited, WithConditions(v, outer), [CondThenToken][1..]) == Some(WithConditions(v, outer));
  }

  lemma TurnCondition(limited: bool, v: View, outer: seq<bool>, b: bool)
    requires v.frame.condStack == outer + [b] && !(limited && Excessive(v))
    ensures Drive(limited, v, [CondElseToken]) == Some(WithConditions(v, outer + [!b]))
  {
    assert (outer + [b])[|outer| := !b] == outer + [!b];
    var w := WithConditions(v, outer + [!b]);
    assert Drive(limited, w, [CondElseToken][1..]) == Some(w);
  }

  /** Where conditions hold, a text does what is left of it does. */
  lemma {:induction false} Erasure(limited: bool, v: View, text: Text)
    requires Proper(text) && v.Active()
    ensures Alike(limited, Drive(limited, v, Flat(text)), Drive(limited, v, Erased(v.frame.definitions, text)))
    decreases text, 1
  {
    hide AllTrue, Effect, Step;
    if !(limited && Excessive(v)) {
      match text
      case Done =>
      case Item(t, rest) => ErasureItem(limited, v, t, rest);
      case Group(_, _, _, _) => ErasureBlock(limited, v, text);
    }
  }

  lemma {:induction false} ErasureItem(limited: bool, v: View, t: Token, rest: Text)
    requires Proper(rest) && !t.IsConditional() && v.Active() && !(limited && Excessive(v))
    ensures var d := v.frame.definitions;
      Alike(limited, Drive(limited, v, [t] + Flat(rest)), Drive(limited, v, [t] + Erased(d, rest)))
    decreases rest, 2
  {
    hide AllTrue, Effect, Drive, Flat, Erased, Alike, Proper;
    var d := v.frame.definitions;
    EffectAnyConditions(v, v.frame.condStack, t);
    DriveItem(limited, v, t, Flat(rest));
    DriveItem(limited, v, t, Erased(d, rest));
    if Effect(v, t).Some? {
      Erasure(limited, Effect(v, t).value, rest);
    } else {
      AlikeSame(limited, None);
    }
  }

  lemma DriveItem(limited: bool, v: View, t: Token, rest: seq<Token>)
    requires !t.IsConditional() && v.Active() && !(limited && Excessive(v))
    ensures Drive(limited, v, [t] + rest) ==
      if Effect(v, t).None? then None else Drive(limited, Effect(v, t).value, rest)
  {
    hide AllTrue, Effect;
    assert ([t] + rest)[1..] == rest;
  }

  lemma AlikeSame(limited: bool, a: Option<View>)
    ensures Alike(limited, a, a)
  {
  }

  /** A block: its branches, and what comes after it. */
  lemma {:induction false} ErasureBlock(limited: bool, v: View, text: Text)
    requires text.Group? && Proper(text) && v.Active() && !(limited && Excessive(v))
    ensures Alike(limited, Drive(limited, v, Flat(text)), Drive(limited, v, Erased(v.frame.definitions, text)))
    decreases text, 0
  {
    hide AllTrue, Effect, Step, Drive, Alike;
    var d, outer := v.frame.definitions, v.frame.condStack;
    var b := Selected(d, text.test, text.negated);
    var left, v1 := ErasedBranches(d, b, text.branches), WithConditions(v, outer + [b]);
    BlockRun(limited, v, text);
    ErasureBranches(limited, v1, outer, b, text.branches);
    assert WithConditions(v1, outer) == v;
    DriveIsThen(limited, v, left, Erased(d, text.rest));
    ErasedBranchesUnconditional(d, b, text.branches);
    DriveAnyConditions(limited, v, outer, left);
    var x, y := Drive(limited, v1, FlatBranches(text.branches)), Drive(limited, v, left);
    if x == y && x.Some? {
      Erasure(limited, x.value, text.rest);
    }
    AlikeThen(limited, x, y, Flat(text.rest), Erased(d, text.rest));
  }

  lemma BlockRun(limited: bool, v: View, text: Text)
    requires text.Group? && !(limited && Excessive(v))
    ensures var v1 := WithConditions(v, v.frame.condStack + [Selected(v.frame.definitions, text.test, text.negated)]);
      Drive(limited, v, Flat(text)) == Then(limited, Drive(limited, v1, FlatBranches(text.branches)), Flat(text.rest))
  {
    var first := [CondIfToken(text.test, text.negated)];
    DriveIsThen(limited, v, first + FlatBranches(text.branches), Flat(text.rest));
    DriveIsThen(limited, v, first, FlatBranches(text.branches));
    var v1 := WithConditions(v, v.frame.condStack + [Selected(v.frame.definitions, text.test, text.negated)]);
    assert Drive(limited, v, first) == Drive(limited, v1, first[1..]);
    hide Effect, AllTrue, Selected;
  }

  /** One branch, active or not, as seen from outside the block. */
  lemma {:induction false} ErasurePart(limited: bool, v: View, outer: seq<bool>, b: bool, text: Text)
    returns (r: Option<View>)
    requires Proper(text) && AllTrue(outer) && v.frame.condStack == outer + [b]
    ensures r == Drive(limited, WithConditions(v, outer), if b then Erased(v.frame.definitions, text) else [])
    ensures Alike(limited, Drive(limited, v, Flat(text)), WithAny(r, outer + [b]))
    ensures r.Some? ==> r.value.frame.condStack == outer && r.value.frame.definitions == v.frame.definitions
    decreases text, 2
  {
    hide AllTrue, Effect, Step, Drive;
    NotAllTrue(outer, b);
    var left := if b then Erased(v.frame.definitions, text) else [];
    r := Drive(limited, WithConditions(v, outer), left);
    ErasedUnconditional(v.frame.definitions, text);
    DriveAnyConditions(limited, WithConditions(v, outer), outer, left);
    if b {
      Erasure(limited, v, text);
      DriveAnyConditions(limited, v, outer, left);
    } else {
      Idle(limited, v, text);
      DriveNothing(limited, WithConditions(v, outer));
    }
  }

  lemma DriveNothing(limited: bool, v: View)
    ensures Drive(limited, v, []) == Some(v)
  {
  }

  /** The branches of a block, from a point where b says whether the next one is active. */
  lemma {:induction false} ErasureBranches(limited: bool, v: View, outer: seq<bool>, b: bool, branches: Branches)
    requires ProperBranches(branches) && AllTrue(outer) && v.frame.condStack == outer + [b]
    ensures Alike(limited, Drive(limited, v, FlatBranches(branches)),
                  Drive(limited, WithConditions(v, outer), ErasedBranches(v.frame.definitions, b, branches)))
    decreases branches, 3
  {
    hide AllTrue, Effect, Step, Drive;
    match branches
    case LastBranch(text) =>
      var r := ErasurePart(limited, v, outer, b, text);
      DriveIsThen(limited, v, Flat(text), [CondThenToken]);
      PartCloses(limited, Drive(limited, v, Flat(text)), r, outer, b);
    case NextBranch(text, more) =>
      var d := v.frame.definitions;
      var r := ErasurePart(limited, v, outer, b, text);
      if r.Some? {
        ErasureBranches(limited, WithConditions(r.value, outer + [!b]), outer, !b, more);
      }
      BranchRun(limited, v, text, more);
      DriveIsThen(limited, WithConditions(v, outer), if b then Erased(d, text) else [], ErasedBranches(d, !b, more));
      PartTurns(limited, Drive(limited, v, Flat(text)), r, outer, b, FlatBranches(more), ErasedBranches(d, !b, more));
  }

  lemma BranchRun(limited: bool, v: View, text: Text, more: Branches)
    ensures Drive(limited, v, FlatBranches(NextBranch(text, more))) ==
      Then(limited, Then(limited, Drive(limited, v, Flat(text)), [CondElseToken]), FlatBranches(more))
  {
    DriveIsThen(limited, v, Flat(text) + [CondElseToken], FlatBranches(more));
    DriveIsThen(limited, v, Flat(text), [CondElseToken]);
    hide Drive, Then;
  }

  lemma PartCloses(limited: bool, a: Option<View>, r: Option<View>, outer: seq<bool>, b: bool)
    requires Alike(limited, a, WithAny(r, outer + [b])) && (r.Some? ==> r.value.frame.condStack == outer)
    ensures Alike(limited, Then(limited, a, [CondThenToken]), r)
  {
    if a.Some? && !(limited && Excessive(a.value)) {
      CloseCondition(limited, a.value, outer, b);
    }
    hide Step;
  }

  lemma PartTurns(limited: bool, a: Option<View>, r: Option<View>, outer: seq<bool>, b: bool, x: seq<Token>,
                  y: seq<Token>)
    requires Alike(limited, a, WithAny(r, outer + [b])) && (r.Some? ==> r.value.frame.condStack == outer)
    requires r.Some? ==>
      Alike(limited, Drive(limited, WithConditions(r.value, outer + [!b]), x), Drive(limited, r.value, y))
    ensures Alike(limited, Then(limited, Then(limited, a, [CondElseToken]), x), Then(limited, r, y))
  {
    if a.Some? && !(limited && Excessive(a.value)) {
      TurnCondition(limited, a.value, outer, b);
    }
    hide Step;
  }

  /** For every row of calls with matched conditionals, from every state of the
      parser where conditions hold: the same state comes out as when the inactive
      branches are deleted, errors or not, table, labels, stacks, names and
      number of errors alike.  Only when the limit on errors ends the run may the
      conditions that are still open differ. */
  lemma ConditionsAreErasure(limited: bool, v: View, tokens: seq<Token>)
    requires Matched(tokens) && v.Active()
    ensures Alike(limited, Drive(limited, v, tokens), Drive(limited, v, Active(v.frame.definitions, tokens)))
  {
    ParseFlat(tokens, 0);
    var text := Parse(tokens).text;
    assert Flat(text) + [] == Flat(text);
    Erasure(limited, v, text);
  }

  /** What remains of a state once the parser has finished with it. */
  function Ending(r: Option<View>): Option<View> {
    if r.None? then None else Some(WithConditions(Finished(r.value), []))
  }

  /** So the parser finishes with the same outcome on the calls that are left. */
  lemma SameEnding(v: View, tokens: seq<Token>)
    requires Matched(tokens) && v.Active()
    ensures Ending(Drive(true, v, tokens)) == Ending(Drive(true, v, Active(v.frame.definitions, tokens)))
  {
    hide Drive, Active, AllTrue, Alike, Ending, Matched, View.Active;
    ConditionsAreErasure(true, v, tokens);
    EndingAlike(Drive(true, v, tokens), Drive(true, v, Active(v.frame.definitions, tokens)));
  }

  lemma EndingAlike(a: Option<View>, b: Option<View>)
    requires Alike(true, a, b)
    ensures Ending(a) == Ending(b)
  {
    if a != b {
      FinishedExcessive(a.value);
      FinishedExcessive(b.value);
      hide Finished, Excessive;
    }
  }

  lemma FinishedExcessive(v: View)
    requires Excessive(v)
    ensures Finished(v) == Complained(v)
  {
  }
}
