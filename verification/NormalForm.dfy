/** What a table looks like when no pass finds anything more to do. */
module NormalForms {
  import opened Machine
  import opened Shape
  import DeadCode
  import UselessJumps
  import UselessCalls
  import UnusedLabels
  import PushPop
  import opened Inlining
  import opened SmallWords
  import Relocation

  /** next may follow op with only no-ops between them: nothing but labels and ends
      of definitions after a jump, no branch to what comes next anyway, no pop of what
      has just been pushed, no jump to a later label right behind a label. */
  predicate MayFollow(op: Opcode, next: Opcode) {
    && (op.Branch? && op.condition.Always? ==> next.Label? || next.EndDefine?)
    && (op.Branch? ==> next != Label(op.target))
    && (op.Push? ==> !(next.Pop? && next.stack == op.stack))
    && (op.Label? ==> !(next.Branch? && next.condition.Always? && next.target > op.number))
  }

  /** A call that some pass would still replace: of one of the booleans, of a word
      with nothing to execute, or of one with up to ten opcodes to execute and neither
      branches nor assembler. */
  ghost predicate Replaceable(t: Table, s: Symbol) {
    || s == "v4_true" || s == "v4_false"
    || exists d: nat, e: nat :: Defines(t, s, d, e) && (
         || |ExecutableAt(t, d, e)| == 0
         || (|ExecutableAt(t, d, e)| <= 10 && forall k :: d < k < e ==> !t[k].Branch? && !t[k].Assembly?))
  }

  ghost predicate NormalAt(t: Table, i: nat)
    requires i < |t|
  {
    && (forall j: nat :: Follows(t, i, j) ==> MayFollow(t[i], t[j]))
    && (t[i].Label? ==> exists k :: 0 <= k < |t| && t[k].Branch? && t[k].target == t[i].number)
    && (t[i].Call? ==> !Replaceable(t, t[i].symbol))
  }

  ghost predicate NormalForm(t: Table) {
    forall i :: 0 <= i < |t| ==> NormalAt(t, i)
  }

  /** No-ops that follow a jump are dead themselves. */
  lemma {:induction false} DeadRun(t: Table, i: nat, j: nat)
    requires i < j < |t| && t[i].IsJump() && forall k :: i < k < j ==> t[k] == NoOp
    ensures !t[j].Label? && !t[j].EndDefine? ==> DeadCode.Dead(t, j)
    decreases j
  {
    if i + 1 < j {
      DeadRun(t, i, j - 1);
    }
  }

  lemma JumpsNormal(t: Table, i: nat, j: nat)
    requires i < j < |t| && j == NextReal(t, i + 1) && t[i].IsJump() && DeadCode.Removed(t) == t
    ensures t[j].Label? || t[j].EndDefine?
  {
    DeadRun(t, i, j);
    assert DeadCode.Removed(t)[j] == t[j];
  }

  lemma LabelsNormal(t: Table, i: nat)
    requires UniqueLabels(t) && i < |t| && t[i].Label?
    requires Relocation.NothingToRelocate(t)
    ensures var j := NextReal(t, i + 1);
      j < |t| ==> !(t[j].IsJump() && t[j].target > t[i].number)
  {
    assert Once(t, t[i]);
    IndexOfOnce(t, t[i], i);
    assert !Relocation.Suboptimal(t, t[i].number);
  }

  lemma CallsNormal(t: Table, i: nat)
    requires UniqueDefines(t) && i < |t| && t[i].Call? && UselessCalls.Removed(t) == t
    requires NothingToInline(t, BooleanSplices()) && NothingToInline(t, SmallSplices(t))
    ensures !Replaceable(t, t[i].symbol)
  {
    hide SmallSplices, ExecutableAt;
    var s := t[i].symbol;
    assert UselessCalls.Removed(t)[i] == t[i];
    forall d: nat, e: nat | Defines(t, s, d, e)
      ensures |ExecutableAt(t, d, e)| != 0
      ensures |ExecutableAt(t, d, e)| <= 10 ==> exists k :: d < k < e && (t[k].Branch? || t[k].Assembly?) {
      EmptyDefined(t, s, d, e);
      assert Once(t, t[d]);
      var places := SmallDefined(t, s, d, e);
    }
  }

  lemma EmptyDefined(t: Table, s: Symbol, d: nat, e: nat)
    requires Defines(t, s, d, e)
    ensures |ExecutableAt(t, d, e)| == 0 ==> UselessCalls.EmptyWord(t, s)
  {
    if |ExecutableAt(t, d, e)| == 0 {
      NoneExecutable(t, s, d, e);
    }
  }

  lemma NoneExecutable(t: Table, s: Symbol, d: nat, e: nat)
    requires Defines(t, s, d, e) && |ExecutableAt(t, d, e)| == 0
    ensures UselessCalls.EmptyDefinition(t, s, d, e)
  {
    assert forall k: nat :: d < k < e && t[k].IsExecutable() ==> k in ExecutableAt(t, d, e);
  }

  /** A table that every pass leaves alone is in normal form. */
  lemma FixedIsNormal(t: Table)
    requires UniqueLabels(t) && UniqueDefines(t)
    requires DeadCode.Removed(t) == t && UselessJumps.Removed(t) == t && UselessCalls.Removed(t) == t
    requires NothingToInline(t, BooleanSplices()) && NothingToInline(t, SmallSplices(t))
    requires PushPop.Fused(t) == t && UnusedLabels.Removed(t) == t
    requires Relocation.NothingToRelocate(t)
    ensures NormalForm(t)
  {
    hide UniqueLabels, UniqueDefines, Relocation.Suboptimal, DeadCode.Removed, SmallSplices, Small, Replaceable,
      UselessCalls.EmptyWord;
    forall i | 0 <= i < |t| ensures NormalAt(t, i) {
      var j := NextReal(t, i + 1);
      forall n: nat | Follows(t, i, n) ensures n == j { NextIs(t, i, n); }
      assert UselessJumps.Removed(t)[i] == t[i];
      assert UselessCalls.Removed(t)[i] == t[i];
      assert UnusedLabels.Removed(t)[i] == t[i];
      assert PushPop.Fused(t)[i] == PushPop.FusedAt(t, i);
      if t[i].IsJump() && j < |t| { JumpsNormal(t, i, j); }
      if t[i].Label? { LabelsNormal(t, i); }
      if t[i].Call? { CallsNormal(t, i); }
    }
  }
}
