/** The passes of the optimizer as functions on tables, and what they keep. */
module Optimizer {
  import opened Machine
  import opened Simulation
  import opened Shape
  import opened Expansion
  import opened ShapeKept
  import DeadCode
  import UselessJumps
  import UselessCalls
  import UnusedLabels
  import PushPop
  import opened Inlining
  import opened SmallWords
  import Relocation

  datatype Pass =
    | RemoveUnreachableCode
    | RemoveUnnecessaryJumps
    | RemoveUselessCalls
    | InlineBooleans
    | InlineSmallFunctions
    | ReplaceAdjacentPushPopPairs
    | RelocateSuboptimalLabels
    | RemoveUnnecessaryLabels

  ghost function Apply(pass: Pass, t: Table): Table {
    match pass
    case RemoveUnreachableCode => DeadCode.Removed(t)
    case RemoveUnnecessaryJumps => UselessJumps.Removed(t)
    case RemoveUselessCalls => UselessCalls.Removed(t)
    case InlineBooleans => Inlined(t, BooleanSplices())
    case InlineSmallFunctions => Inlined(t, SmallSplices(t))
    case ReplaceAdjacentPushPopPairs => PushPop.Fused(t)
    case RelocateSuboptimalLabels => Relocation.Relocated(t)
    case RemoveUnnecessaryLabels => UnusedLabels.Removed(t)
  }

  ghost function ApplyAll(passes: seq<Pass>, t: Table): Table {
    if passes == [] then t else Apply(passes[|passes| - 1], ApplyAll(passes[..|passes| - 1], t))
  }

  lemma ApplyNext(passes: seq<Pass>, t: Table, k: nat)
    requires k < |passes|
    ensures ApplyAll(passes[..0], t) == t
    ensures ApplyAll(passes[..k + 1], t) == Apply(passes[k], ApplyAll(passes[..k], t))
  {
    assert passes[..k + 1][..k] == passes[..k];
  }

  /** One round of optimize_code. */
  const ROUND: seq<Pass> := [
    RemoveUnreachableCode, RemoveUnnecessaryJumps, RemoveUselessCalls, InlineBooleans,
    InlineSmallFunctions, ReplaceAdjacentPushPopPairs, RelocateSuboptimalLabels, RemoveUnnecessaryLabels]

  ghost function Rounds(t: Table, n: nat): Table {
    if n == 0 then t else ApplyAll(ROUND, Rounds(t, n - 1))
  }

  /** The passes of a round, each on what the one before it has left. */
  lemma RoundInOrder(t: Table)
    ensures ApplyAll(ROUND, t) ==
      var live := UselessCalls.Removed(UselessJumps.Removed(DeadCode.Removed(t)));
      var words := Inlined(live, BooleanSplices());
      UnusedLabels.Removed(Relocation.Relocated(PushPop.Fused(Inlined(words, SmallSplices(words)))))
  {
    hide DeadCode.Removed, UselessJumps.Removed, UselessCalls.Removed, UnusedLabels.Removed, PushPop.Fused, Inlined,
      SmallSplices, BooleanSplices, Relocation.Relocated;
    ApplyNext(ROUND, t, 0);
    ApplyNext(ROUND, t, 1);
    ApplyNext(ROUND, t, 2);
    ApplyNext(ROUND, t, 3);
    ApplyNext(ROUND, t, 4);
    ApplyNext(ROUND, t, 5);
    ApplyNext(ROUND, t, 6);
    ApplyNext(ROUND, t, 7);
    assert ROUND[..8] == ROUND;
    hide ApplyAll;
  }

  // ----- tables stay well formed -----

  lemma DeadCodeWellFormed(t: Table)
    requires WellFormed(t)
    ensures WellFormed(DeadCode.Removed(t))
  {
    forall i | 0 <= i < |t| && DeadCode.Dead(t, i)
      ensures !t[i].Define? && !t[i].Assembly? {
      DeadCode.DeadIsInside(t, i);
      DeadCode.DeadIsNotAssembly(t, i);
    }
    PrunedWellFormed(t, DeadCode.Removed(t));
  }

  lemma PushPopWellFormed(t: Table)
    requires WellFormed(t)
    ensures WellFormed(PushPop.Fused(t))
  {
    PrunedWellFormed(t, PushPop.Fused(t));
  }

  lemma InlinedWellFormed(t: Table, m: Splices)
    requires WellFormed(t) && AllStraight(m)
    ensures WellFormed(Inlined(t, m))
  {
    hide WellFormed, Expanded, KeepsDefinitions, AllStraight, Splice;
    var e := Splicer(m);
    SplicedCode(t, m);
    forall n ensures multiset(Expanded(t, e))[Label(n)] == multiset(t)[Label(n)] {
      SplicesMoveTo(t, m, Label(n));
      MovedCount(t, e, Label(n), Label(n));
    }
    forall s ensures multiset(Expanded(t, e))[Define(s)] == multiset(t)[Define(s)] {
      SplicesMoveTo(t, m, Define(s));
      MovedCount(t, e, Define(s), Define(s));
    }
    ExpandedWellFormed(t, e);
  }

  lemma SplicedCode(t: Table, m: Splices)
    requires AllStraight(m)
    ensures KeepsDefinitions(t, Splicer(m))
    ensures forall op, k :: op in t && 0 <= k < |Splicer(m)(op)| && Splicer(m)(op)[k].Branch? ==>
      Splicer(m)(op)[k] == op
  {
    forall op, k | 0 <= k < |Splice(m, op)| && Splice(m, op)[k] != op
      ensures op.Call? && (Splice(m, op)[k].NoOp? || IsStraight(Splice(m, op)[k])) {
      if k > 0 { assert Splice(m, op)[k] == m[op.symbol][k - 1]; }
    }
  }

  lemma SplicesMoveTo(t: Table, m: Splices, op: Opcode)
    requires AllStraight(m) && (op.Label? || op.Define?)
    ensures MovesTo(t, Splicer(m), op, op)
  {
    forall other | other != op ensures op !in Splice(m, other) {
      forall k | 0 <= k < |Splice(m, other)| ensures Splice(m, other)[k] != op {
        if k > 0 { assert Splice(m, other)[k] == m[other.symbol][k - 1]; }
      }
    }
  }

  lemma RelocatedWellFormed(t: Table)
    requires WellFormed(t)
    ensures WellFormed(Relocation.Relocated(t))
  {
    hide WellFormed, Expanded, KeepsDefinitions, Relocation.Relocate;
    var e := Relocation.Relocator(t);
    RelocatedCode(t);
    forall v ensures multiset(Expanded(t, e))[Label(v)] == multiset(t)[Label(v)] {
      RelocatedLabels(t, v);
    }
    forall s ensures multiset(Expanded(t, e))[Define(s)] == multiset(t)[Define(s)] {
      forall op ensures multiset(e(op))[Define(s)] == if op == Define(s) then 1 else 0 {
        Relocation.RelocateMembers(t, op, Define(s));
      }
      MovedCount(t, e, Define(s), Define(s));
    }
    ExpandedWellFormed(t, e);
  }

  lemma RelocatedCode(t: Table)
    ensures KeepsDefinitions(t, Relocation.Relocator(t))
    ensures var e := Relocation.Relocator(t);
      forall op, k :: op in t && 0 <= k < |e(op)| && e(op)[k].Branch? ==> e(op)[k] == op
  {
    forall op, k | 0 <= k < |Relocation.Relocate(t, op)| && Relocation.Relocate(t, op)[k] != op
      ensures op.Label? && !Relocation.Relocate(t, op)[k].IsExecutable() {
      if op.Label? { Relocation.LabelCode(t, op.number, k); }
    }
  }

  /** Relocation keeps every label exactly as often as it was there: once; and the
      label that another one is moved to is there and stays in its place. */
  lemma RelocatedLabels(t: Table, v: int)
    requires WellFormed(t)
    ensures !Relocation.Suboptimal(t, Relocation.Final(t, v)) && (Label(v) in t ==> Label(Relocation.Final(t, v)) in t)
    ensures multiset(Relocation.Relocated(t))[Label(v)] == multiset(t)[Label(v)]
  {
    hide Expanded, Relocation.Relocate, Bracketed, AssemblyLeads;
    var e, home := Relocation.Relocator(t), Label(Relocation.Final(t, v));
    forall op ensures multiset(e(op))[Label(v)] == if op == home then 1 else 0 {
      Relocation.RelocateMembers(t, op, Label(v));
    }
    MovedCount(t, e, Label(v), home);
    if Label(v) in t {
      Relocation.FinalExists(t, v);
      assert Once(t, Label(v)) && Once(t, home);
      assert Label(v) in multiset(t) && home in multiset(t);
    } else {
      assert Label(v) !in multiset(t);
    }
  }

  // ----- the main theorem -----

  /** Every pass keeps tables well formed. */
  lemma PassWellFormed(pass: Pass, t: Table)
    requires WellFormed(t)
    ensures WellFormed(Apply(pass, t))
  {
    hide WellFormed;
    match pass {
      case RemoveUnreachableCode => DeadCodeWellFormed(t);
      case RemoveUnnecessaryJumps => PrunedPass(t, UselessJumps.Removed(t));
      case RemoveUselessCalls => PrunedPass(t, UselessCalls.Removed(t));
      case InlineBooleans => InlinedWellFormed(t, BooleanSplices());
      case InlineSmallFunctions => SmallAreStraight(t); InlinedWellFormed(t, SmallSplices(t));
      case ReplaceAdjacentPushPopPairs => PushPopWellFormed(t);
      case RelocateSuboptimalLabels => RelocatedWellFormed(t);
      case RemoveUnnecessaryLabels => PrunedPass(t, UnusedLabels.Removed(t));
    }
  }

  lemma NamesUnique(t: Table)
    requires WellFormed(t)
    ensures UniqueLabels(t) && UniqueDefines(t)
  {
  }

  lemma SmallAreStraight(t: Table)
    ensures AllStraight(SmallSplices(t))
  {
    forall s | s in SmallSplices(t) ensures StraightCode(SmallSplices(t)[s]) {
      SmallSplicesKeys(t, s);
      SmallIsStraight(t, s);
    }
  }

  /** One pass keeps every run, and the meaning of the booleans with it. */
  lemma PassPreserves(pass: Pass, t: Table, env: Env)
    requires WellFormed(t) && LibraryBooleans(t, env)
    ensures WellFormed(Apply(pass, t))
    ensures Equivalent(t, Apply(pass, t), env)
    ensures LibraryBooleans(Apply(pass, t), env)
  {
    PassWellFormed(pass, t);
    hide Equivalent, LibraryBooleans, Sound, Bracketed, AssemblyLeads;
    match pass {
      case RemoveUnreachableCode => DeadCode.RemovedEquivalent(t, env);
      case RemoveUnnecessaryJumps => UselessJumps.RemovedEquivalent(t, env);
      case RemoveUselessCalls => UselessCalls.RemovedEquivalent(t, env);
      case InlineBooleans =>
        BooleansSound(t, env);
        InlinedEquivalent(t, BooleanSplices(), env);
      case InlineSmallFunctions =>
        SmallWordsSound(t, env);
        InlinedEquivalent(t, SmallSplices(t), env);
      case ReplaceAdjacentPushPopPairs => PushPop.FusedEquivalent(t, env);
      case RelocateSuboptimalLabels => Relocation.RelocatedEquivalent(t, env);
      case RemoveUnnecessaryLabels => UnusedLabels.RemovedEquivalent(t, env);
    }
    BooleansKept(t, Apply(pass, t), env);
  }

  lemma PrunedPass(t: Table, r: Table)
    requires WellFormed(t)
    requires r == UselessJumps.Removed(t) || r == UselessCalls.Removed(t) || r == UnusedLabels.Removed(t)
    ensures WellFormed(r)
  {
    PrunedWellFormed(t, r);
  }

  lemma BooleansKept(t: Table, r: Table, env: Env)
    requires Equivalent(t, r, env) && LibraryBooleans(t, env)
    ensures LibraryBooleans(r, env)
  {
    forall st ensures CallReaches(r, env, MANGLED_TRUE, st, Literal(st, -1)) {
      EquivalentCalls(t, r, env, MANGLED_TRUE, st, Literal(st, -1));
    }
    forall st ensures CallReaches(r, env, MANGLED_FALSE, st, Literal(st, 0)) {
      EquivalentCalls(t, r, env, MANGLED_FALSE, st, Literal(st, 0));
    }
  }

  /** Any sequence of passes, in any order, keeps every run. */
  lemma {:induction false} PassesPreserve(passes: seq<Pass>, t: Table, env: Env)
    requires WellFormed(t) && LibraryBooleans(t, env)
    ensures WellFormed(ApplyAll(passes, t)) && LibraryBooleans(ApplyAll(passes, t), env)
    ensures Equivalent(t, ApplyAll(passes, t), env)
  {
    hide Equivalent, WellFormed, LibraryBooleans, Apply;
    if passes == [] {
      EquivalentReflexive(t, env);
    } else {
      var init, last := passes[..|passes| - 1], passes[|passes| - 1];
      PassesPreserve(init, t, env);
      PassPreserves(last, ApplyAll(init, t), env);
      EquivalentTransitive(t, ApplyAll(init, t), ApplyAll(passes, t), env);
    }
  }

  /** Any number of rounds keeps every run. */
  lemma {:induction false} RoundsPreserve(t: Table, env: Env, n: nat)
    requires WellFormed(t) && LibraryBooleans(t, env)
    ensures WellFormed(Rounds(t, n)) && LibraryBooleans(Rounds(t, n), env)
    ensures Equivalent(t, Rounds(t, n), env)
  {
    hide Equivalent, WellFormed, LibraryBooleans, ApplyAll;
    if n == 0 {
      EquivalentReflexive(t, env);
    } else {
      RoundsPreserve(t, env, n - 1);
      PassesPreserve(ROUND, Rounds(t, n - 1), env);
      EquivalentTransitive(t, Rounds(t, n - 1), Rounds(t, n), env);
    }
  }
}
