/** What each pass of the optimizer puts at every position, in terms of the table
    it is given and of nothing else. */
module PassPositions {
  import opened Machine
  import opened Shape
  import opened Expansion
  import opened Inlining
  import SmallWords
  import DeadCode
  import UselessJumps
  import UselessCalls
  import UnusedLabels
  import PushPop
  import Relocation

  // ----- passes that leave every opcode in its place -----

  /** t[j] is an unconditional jump, and no label and no end of a definition comes
      between it and t[i], or at t[i]. */
  predicate BehindJump(t: Table, j: nat, i: nat) {
    j < i < |t| && t[j].Branch? && t[j].condition.Always? && forall k :: j < k <= i ==> !t[k].Label? && !t[k].EndDefine?
  }

  lemma {:induction false} DeadIsBehind(t: Table, i: nat) returns (j: nat)
    requires i < |t| && DeadCode.Dead(t, i)
    ensures BehindJump(t, j, i)
  {
    j := i - 1;
    if !t[i - 1].IsJump() {
      j := DeadIsBehind(t, i - 1);
    }
  }

  lemma {:induction false} BehindIsDead(t: Table, j: nat, i: nat)
    requires BehindJump(t, j, i)
    ensures DeadCode.Dead(t, i)
  {
    if j + 1 < i {
      BehindIsDead(t, j, i - 1);
    }
  }

  /** What lies behind a jump up to the next label or end of a definition is blanked,
      and nothing else. */
  lemma DeadCodeAt(t: Table, i: nat)
    requires i < |t|
    ensures DeadCode.Removed(t)[i] == if exists j: nat :: BehindJump(t, j, i) then NoOp else t[i]
  {
    if DeadCode.Dead(t, i) {
      var j := DeadIsBehind(t, i);
    }
    forall j: nat | BehindJump(t, j, i) ensures DeadCode.Dead(t, i) { BehindIsDead(t, j, i); }
  }

  /** A branch is blanked when only no-ops come before the label it names. */
  lemma UselessJumpAt(t: Table, i: nat)
    requires i < |t|
    ensures UselessJumps.Removed(t)[i] ==
      if t[i].Branch? && exists j: nat :: Follows(t, i, j) && t[j] == Label(t[i].target) then NoOp else t[i]
  {
    forall j: nat | Follows(t, i, j) ensures NextReal(t, i + 1) == j { NextIs(t, i, j); }
    var j := NextReal(t, i + 1);
    assert j < |t| ==> Follows(t, i, j);
  }

  /** t[d] to t[e] define s, and there is nothing but labels and no-ops between them. */
  predicate DefinesNothing(t: Table, s: Symbol, d: nat, e: nat) {
    d < e < |t| && t[d] == Define(s) && t[e].EndDefine? && forall k :: d < k < e ==> t[k].NoOp? || t[k].Label?
  }

  /** A call is blanked when the word does nothing. */
  lemma UselessCallAt(t: Table, i: nat)
    requires i < |t|
    ensures UselessCalls.Removed(t)[i] ==
      if t[i].Call? && exists d: nat, e: nat :: DefinesNothing(t, t[i].symbol, d, e) then NoOp else t[i]
  {
    if t[i].Call? {
      var s := t[i].symbol;
      forall d: nat, e: nat ensures DefinesNothing(t, s, d, e) <==> UselessCalls.EmptyDefinition(t, s, d, e) {
        NothingIsEmpty(t, s, d, e);
      }
      hide DefinesNothing, UselessCalls.EmptyDefinition;
    }
  }

  lemma NothingIsEmpty(t: Table, s: Symbol, d: nat, e: nat)
    ensures DefinesNothing(t, s, d, e) <==> UselessCalls.EmptyDefinition(t, s, d, e)
  {
  }

  /** A label is blanked when no branch names it. */
  lemma UnusedLabelAt(t: Table, i: nat)
    requires i < |t|
    ensures UnusedLabels.Removed(t)[i] ==
      if t[i].Label? && !(exists k :: 0 <= k < |t| && t[k].Branch? && t[k].target == t[i].number) then NoOp else t[i]
  {
  }

  /** t[i] pushes what t[j] pops at once. */
  predicate Paired(t: Table, i: nat, j: nat) {
    Follows(t, i, j) && t[i].Push? && t[j].Pop? && t[i].stack == t[j].stack
  }

  /** A pair becomes a move, or nothing when both registers are the same. */
  lemma PairAt(t: Table, i: nat, j: nat)
    requires Paired(t, i, j)
    ensures PushPop.Fused(t)[i] == if t[i].reg == t[j].reg then NoOp else LoadRegister(t[j].reg, t[i].reg)
    ensures PushPop.Fused(t)[j] == NoOp
  {
    NextIs(t, i, j);
    PushPop.FusedPair(t, i);
  }

  /** All else stays. */
  lemma UnpairedAt(t: Table, k: nat)
    requires k < |t| && forall i: nat, j: nat :: Paired(t, i, j) ==> k != i && k != j
    ensures PushPop.Fused(t)[k] == t[k]
  {
    forall i: nat | i < |t| && PushPop.First(t, i) ensures Paired(t, i, NextReal(t, i + 1)) {
    }
  }

  // ----- passes that build a new table -----

  lemma {:induction false} ExpandedParts(a: Table, b: Table, e: Rewriter)
    ensures Expanded(a + b, e) == Expanded(a, e) + Expanded(b, e)
    decreases |b|
  {
    if b == [] {
      assert a + b == a;
    } else {
      ExpandedParts(a, b[..|b| - 1], e);
      assert (a + b)[..|a + b| - 1] == a + b[..|b| - 1];
    }
  }

  /** A call that is inlined becomes a no-op and the code; what comes before it and
      after it is inlined on its own. */
  lemma InlinedParts(a: Table, op: Opcode, b: Table, m: Splices)
    ensures Inlined([], m) == []
    ensures Inlined(a + [op] + b, m) ==
      Inlined(a, m) + (if op.Call? && op.symbol in m then [NoOp] + m[op.symbol] else [op]) + Inlined(b, m)
  {
    ExpandedParts(a + [op], b, Splicer(m));
    ExpandedParts(a, [op], Splicer(m));
    assert [op][..0] == [];
  }

  /** The two booleans become a load and a push of all bits or none. */
  lemma BooleansAt(op: Opcode)
    ensures Splice(SmallWords.BooleanSplices(), op) ==
      if op == Call("v4_true") then [NoOp, LoadValue(R0, -1), Push(R0, DataStack)]
      else if op == Call("v4_false") then [NoOp, LoadValue(R0, 0), Push(R0, DataStack)]
      else [op]
  {
    assert "v4_true"[3] != "v4_false"[3];
  }

  /** Labels in ascending order, of labels from lo on. */
  predicate Ascending(code: Table, lo: int) {
    && (forall k :: 0 <= k < |code| ==> code[k].Label? && lo <= code[k].number)
    && (forall j, k :: 0 <= j < k < |code| ==> code[j].number < code[k].number)
  }

  lemma {:induction false} GroupAscending(t: Table, w: int, lo: int)
    ensures Ascending(Relocation.Group(t, w, lo), lo)
    ensures forall k :: 0 <= k < |Relocation.Group(t, w, lo)| ==> Relocation.Group(t, w, lo)[k].number < w
    decreases Relocation.MaxLabel(t) - lo
  {
    if lo <= Relocation.MaxLabel(t) {
      GroupAscending(t, w, lo + 1);
    }
  }

  /** A label right before an unconditional jump to a later label is blanked, and goes
      where that label goes.  Any other label keeps its place, with those that move to
      it before it, in ascending order. */
  lemma RelocatedLabelAt(t: Table, v: int, i: nat, j: nat)
    requires Once(t, Label(v)) && Follows(t, i, j) && t[i] == Label(v)
    ensures var code := Relocation.Relocate(t, Label(v));
      if t[j].Branch? && t[j].condition.Always? && t[j].target > v then
        code == [NoOp] && Relocation.Final(t, v) == Relocation.Final(t, t[j].target)
      else
        && code != [] && code[|code| - 1] == Label(v) && Ascending(code, Relocation.MinLabel(t))
        && Relocation.Final(t, v) == v
  {
    IndexOfOnce(t, Label(v), i);
    NextIs(t, i, j);
    GroupAscending(t, v, Relocation.MinLabel(t));
    Relocation.LabelBounds(t, v);
    Relocation.FinalStep(t, v);
    hide Relocation.Group, Relocation.Final;
  }
}
