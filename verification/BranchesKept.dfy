/** The optimizer keeps branches inside their definitions. */
module BranchesKept {
  import opened Machine
  import opened Shape
  import opened Expansion
  import opened ShapeKept
  import DeadCode
  import UselessJumps
  import UselessCalls
  import UnusedLabels
  import PushPop
  import opened Inlining
  import opened SmallWords
  import Relocation
  import opened Optimizer

  lemma UnbrokenThen(t: Table, i: nat, j: nat, k: nat)
    requires Unbroken(t, i, j) && Unbroken(t, j, k)
    ensures Unbroken(t, i, k)
  {
  }

  // ----- passes that overwrite opcodes in place -----

  lemma PrunedStays(t: Table, r: Table)
    requires Pruned(t, r) && BranchesStay(t)
    ensures BranchesStay(r)
  {
    forall i | 0 <= i < |r| && r[i].Branch? ensures StaysInside(r, i) {
      assert r[i] == t[i] && StaysInside(t, i);
      var j :| 0 <= j < |t| && t[j] == Label(t[i].target) && Unbroken(t, i, j);
      assert Used(t, t[i].target);
      assert r[j] == t[j] && Unbroken(r, i, j);
    }
  }

  lemma DeadCodePruned(t: Table)
    requires WellFormed(t)
    ensures Pruned(t, DeadCode.Removed(t))
  {
    forall i | 0 <= i < |t| && DeadCode.Dead(t, i) ensures !t[i].Define? && !t[i].Assembly? {
      DeadCode.DeadIsInside(t, i);
      DeadCode.DeadIsNotAssembly(t, i);
    }
  }

  // ----- passes that rebuild the table -----

  /** The label that branch i names is in the code for a position of its definition. */
  ghost predicate Lands(t: Table, e: Rewriter, i: nat)
    requires i < |t| && t[i].Branch?
  {
    exists j, k :: 0 <= j < |t| && 0 <= k < |e(t[j])| && e(t[j])[k] == Label(t[i].target) && Unbroken(t, i, j)
  }

  lemma PlaceOrder(t: Table, e: Rewriter, i: nat, j: nat)
    requires i <= j <= |t|
    ensures Place(t, e, i) <= Place(t, e, j)
  {
    ExpandedPrefix(t[..j], e, i);
    assert t[..j][..i] == t[..i];
  }

  /** What lies between the codes for two positions belongs to the code for one
      between them. */
  lemma Between(t: Table, e: Rewriter, i: nat, j: nat, q: nat, p: nat, o: nat, b: nat)
    requires i < |t| && j < |t| && b < |t| && (q <= o <= p || p <= o <= q)
    requires Place(t, e, i) <= q < Place(t, e, i + 1) && Place(t, e, j) <= p < Place(t, e, j + 1)
    requires Place(t, e, b) <= o < Place(t, e, b + 1)
    ensures i <= b <= j || j <= b <= i
  {
    hide Place;
    if b < i { PlaceOrder(t, e, b + 1, i); }
    if i < b { PlaceOrder(t, e, i + 1, b); }
    if b < j { PlaceOrder(t, e, b + 1, j); }
    if j < b { PlaceOrder(t, e, j + 1, b); }
  }

  /** No definition starts or ends between the codes for such positions. */
  lemma ExpandedUnbroken(t: Table, e: Rewriter, i: nat, j: nat, q: nat, p: nat)
    requires KeepsDefinitions(t, e) && Unbroken(t, i, j)
    requires Place(t, e, i) <= q < Place(t, e, i + 1) && Place(t, e, j) <= p < Place(t, e, j + 1)
    ensures Unbroken(Expanded(t, e), q, p)
  {
    hide Expanded, Place, KeepsDefinitions;
    var r := Expanded(t, e);
    CodeAt(t, e, i);
    CodeAt(t, e, j);
    EndPlaces(t, e);
    forall o | 0 <= o < |r| && (q <= o <= p || p <= o <= q) ensures Unmarked(r[o]) {
      var b, k := Locate(t, e, o, |t|);
      CodeAt(t, e, b);
      Between(t, e, i, j, q, p, o, b);
      CodeUnmarked(t, e, b, k);
    }
  }

  lemma CodeUnmarked(t: Table, e: Rewriter, i: nat, k: nat)
    requires KeepsDefinitions(t, e) && i < |t| && Unmarked(t[i]) && k < |e(t[i])|
    ensures Unmarked(e(t[i])[k])
  {
    assert t[i] in t;
  }

  lemma ExpandedStays(t: Table, e: Rewriter)
    requires KeepsDefinitions(t, e)
    requires forall op, k :: op in t && 0 <= k < |e(op)| && e(op)[k].Branch? ==> e(op)[k] == op
    requires forall i :: 0 <= i < |t| && t[i].Branch? ==> Lands(t, e, i)
    ensures BranchesStay(Expanded(t, e))
  {
    hide Expanded, Place, KeepsDefinitions, Unbroken;
    var r := Expanded(t, e);
    EndPlaces(t, e);
    forall q | 0 <= q < |r| && r[q].Branch? ensures StaysInside(r, q) {
      var i, k := Locate(t, e, q, |t|);
      assert t[i] in t && r[q] == t[i] && Lands(t, e, i);
      var j, l :| 0 <= j < |t| && 0 <= l < |e(t[j])| && e(t[j])[l] == Label(t[i].target) && Unbroken(t, i, j);
      CodeAt(t, e, i);
      CodeAt(t, e, j);
      ExpandedUnbroken(t, e, i, j, q, Place(t, e, j) + l);
    }
  }

  lemma InlinedStays(t: Table, m: Splices)
    requires AllStraight(m) && BranchesStay(t)
    ensures BranchesStay(Inlined(t, m))
  {
    hide Expanded, KeepsDefinitions, AllStraight, Unbroken;
    var e := Splicer(m);
    SplicedCode(t, m);
    forall i | 0 <= i < |t| && t[i].Branch? ensures Lands(t, e, i) {
      assert StaysInside(t, i);
      var j :| 0 <= j < |t| && t[j] == Label(t[i].target) && Unbroken(t, i, j);
      assert e(t[j])[0] == t[j];
    }
    ExpandedStays(t, e);
  }

  /** From label v the jumps to its final target stay in the definition. */
  lemma {:induction false} FinalStays(t: Table, v: int, j: nat) returns (h: nat)
    requires UniqueLabels(t) && BranchesStay(t) && j < |t| && t[j] == Label(v)
    ensures h < |t| && t[h] == Label(Relocation.Final(t, v)) && Unbroken(t, j, h)
    decreases Relocation.MaxLabel(t) - v
  {
    hide UniqueLabels, Relocation.Final, Unbroken;
    Relocation.FinalStep(t, v);
    Relocation.LabelBounds(t, v);
    if Relocation.Suboptimal(t, v) {
      assert Once(t, Label(v)) by { LabelOnce(t, v); }
      IndexOfOnce(t, Label(v), j);
      var a, w := Relocation.After(t, v), Relocation.Forward(t, v);
      NoOpsBetween(t, j, a);
      assert StaysInside(t, a);
      var next :| 0 <= next < |t| && t[next] == Label(w) && Unbroken(t, a, next);
      h := FinalStays(t, w, next);
      UnbrokenThen(t, j, a, next);
      UnbrokenThen(t, j, next, h);
    } else {
      h := j;
      NoOpsBetween(t, j, j);
    }
  }

  lemma LabelOnce(t: Table, v: int)
    requires UniqueLabels(t)
    ensures Once(t, Label(v))
  {
  }

  lemma NoOpsBetween(t: Table, j: nat, a: nat)
    requires j <= a < |t| && Unmarked(t[j]) && Unmarked(t[a]) && forall k :: j < k < a ==> t[k] == NoOp
    ensures Unbroken(t, j, a)
  {
  }

  lemma RelocatedStays(t: Table)
    requires UniqueLabels(t) && BranchesStay(t)
    ensures BranchesStay(Relocation.Relocated(t))
  {
    hide Expanded, KeepsDefinitions, Unbroken, UniqueLabels, Relocation.Relocate, Relocation.Final;
    var e := Relocation.Relocator(t);
    RelocatedCode(t);
    forall i | 0 <= i < |t| && t[i].Branch? ensures Lands(t, e, i) {
      assert StaysInside(t, i);
      var v := t[i].target;
      var j :| 0 <= j < |t| && t[j] == Label(v) && Unbroken(t, i, j);
      var h := FinalStays(t, v, j);
      UnbrokenThen(t, i, j, h);
      Relocation.RelocateMembers(t, t[h], Label(v));
      assert Label(v) in e(t[h]);
    }
    ExpandedStays(t, e);
  }

  // ----- all passes -----

  /** Every pass keeps branches inside their definitions. */
  lemma PassStays(pass: Pass, t: Table)
    requires WellFormed(t) && BranchesStay(t)
    ensures BranchesStay(Apply(pass, t))
  {
    hide Bracketed, UniqueDefines, TargetsExist, AssemblyLeads, BranchesStay;
    match pass {
      case RemoveUnreachableCode => DeadCodePruned(t); PrunedStays(t, DeadCode.Removed(t));
      case RemoveUnnecessaryJumps => PrunedStays(t, UselessJumps.Removed(t));
      case RemoveUselessCalls => PrunedStays(t, UselessCalls.Removed(t));
      case InlineBooleans => InlinedStays(t, BooleanSplices());
      case InlineSmallFunctions => SmallAreStraight(t); InlinedStays(t, SmallSplices(t));
      case ReplaceAdjacentPushPopPairs => PrunedStays(t, PushPop.Fused(t));
      case RelocateSuboptimalLabels => RelocatedStays(t);
      case RemoveUnnecessaryLabels => PrunedStays(t, UnusedLabels.Removed(t));
    }
  }

  lemma {:induction false} PassesStay(passes: seq<Pass>, t: Table)
    requires WellFormed(t) && BranchesStay(t)
    ensures WellFormed(ApplyAll(passes, t)) && BranchesStay(ApplyAll(passes, t))
  {
    hide WellFormed, BranchesStay, Apply;
    if passes != [] {
      var n := |passes| - 1;
      PassesStay(passes[..n], t);
      PassWellFormed(passes[n], ApplyAll(passes[..n], t));
      PassStays(passes[n], ApplyAll(passes[..n], t));
    }
  }

  /** And so does any number of rounds. */
  lemma {:induction false} RoundsStay(t: Table, n: nat)
    requires WellFormed(t) && BranchesStay(t)
    ensures WellFormed(Rounds(t, n)) && BranchesStay(Rounds(t, n))
  {
    hide WellFormed, BranchesStay, ApplyAll;
    if n > 0 {
      RoundsStay(t, n - 1);
      PassesStay(ROUND, Rounds(t, n - 1));
    }
  }
}
