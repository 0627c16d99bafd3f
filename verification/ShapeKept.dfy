/** Passes keep tables well formed. */
module ShapeKept {
  import opened Machine
  import opened Shape
  import opened Expansion

  // ----- passes that overwrite opcodes in place -----

  /** r is t with some opcodes overwritten by no-ops or plain opcodes, and no
      definition, assembler or label in use among them. */
  ghost predicate Pruned(t: Table, r: Table) {
    && |r| == |t|
    && (forall i :: 0 <= i < |t| && r[i] != t[i] ==>
          && (r[i].NoOp? || r[i].IsPlain())
          && !t[i].Define? && !t[i].EndDefine? && !t[i].Assembly?
          && (t[i].Label? ==> !Used(t, t[i].number)))
  }

  lemma {:induction false} PrunedInside(t: Table, r: Table, i: nat)
    requires Pruned(t, r) && i <= |t|
    ensures Inside(r, i) == Inside(t, i)
  {
    if i > 0 {
      PrunedInside(t, r, i - 1);
    }
  }

  lemma {:induction false} PrunedOnce(t: Table, r: Table, op: Opcode)
    requires |r| == |t| && IsFrame(op) && forall i :: 0 <= i < |t| && r[i] == op ==> t[i] == op
    ensures multiset(r)[op] <= multiset(t)[op]
  {
    if t != [] {
      var n := |t| - 1;
      PrunedOnce(t[..n], r[..n], op);
      assert t == t[..n] + [t[n]] && r == r[..n] + [r[n]];
    }
  }

  lemma PrunedWellFormed(t: Table, r: Table)
    requires WellFormed(t) && Pruned(t, r)
    ensures WellFormed(r)
  {
    forall i: nat | i <= |r| ensures Inside(r, i) == Inside(t, i) {
      PrunedInside(t, r, i);
    }
    forall n ensures Once(r, Label(n)) {
      PrunedOnce(t, r, Label(n));
      assert Once(t, Label(n));
    }
    forall s ensures Once(r, Define(s)) {
      PrunedOnce(t, r, Define(s));
      assert Once(t, Define(s));
    }
    forall i | 0 <= i < |r| && r[i].Branch? ensures Label(r[i].target) in r {
      assert t[i] == r[i] && Used(t, t[i].target);
      var j := IndexOf(t, Label(t[i].target));
      assert r[j] == t[j];
    }
    forall i | 0 <= i < |r| && r[i].Assembly? ensures i > 0 && (r[i - 1].Define? || r[i - 1].Assembly?) {
      assert t[i].Assembly?;
      assert t[i - 1] == r[i - 1];
    }
  }

  // ----- passes that rebuild the table -----

  /** Definitions and assembler stay; other opcodes become code without any. */
  ghost predicate KeepsDefinitions(t: Table, e: Rewriter) {
    forall op :: op in t ==>
      if op.Define? || op.EndDefine? || op.Assembly? then e(op) == [op]
      else |e(op)| > 0 && forall k :: 0 <= k < |e(op)| ==>
        !e(op)[k].Define? && !e(op)[k].EndDefine? && !e(op)[k].Assembly?
  }

  /** moved occurs once in the code for home, and in no other code. */
  ghost predicate MovesTo(t: Table, e: Rewriter, moved: Opcode, home: Opcode) {
    && multiset(e(home))[moved] == 1
    && forall op :: op in t && op != home ==> multiset(e(op))[moved] == 0
  }

  lemma {:induction false} MovedCount(t: Table, e: Rewriter, moved: Opcode, home: Opcode)
    requires MovesTo(t, e, moved, home)
    ensures multiset(Expanded(t, e))[moved] == multiset(t)[home]
  {
    if t != [] {
      var init, last := t[..|t| - 1], t[|t| - 1];
      assert t == init + [last];
      forall op | op in init ensures op in t {
      }
      MovedCount(init, e, moved, home);
    }
  }

  lemma {:induction false} InsidePlace(t: Table, e: Rewriter, i: nat)
    requires Bracketed(t) && KeepsDefinitions(t, e) && i <= |t|
    ensures Place(t, e, i) <= |Expanded(t, e)|
    ensures Inside(Expanded(t, e), Place(t, e, i)) == Inside(t, i)
  {
    hide Expanded, Place;
    EndPlaces(t, e);
    if i > 0 {
      CodeAt(t, e, i - 1);
      InsidePlace(t, e, i - 1);
      assert t[i - 1] in t;
      InsideCode(t, e, i - 1, |e(t[i - 1])|);
    }
  }

  /** Within the code for one opcode the nesting does not change before its end. */
  lemma {:induction false} InsideCode(t: Table, e: Rewriter, i: nat, k: nat)
    requires Bracketed(t) && KeepsDefinitions(t, e) && i < |t| && k <= |e(t[i])|
    requires Place(t, e, i) <= |Expanded(t, e)| && Inside(Expanded(t, e), Place(t, e, i)) == Inside(t, i)
    ensures Place(t, e, i) + k <= |Expanded(t, e)|
    ensures Inside(Expanded(t, e), Place(t, e, i) + k) ==
      if k == 0 then Inside(t, i) else Inside(t, i + 1)
  {
    hide Expanded, Place;
    CodeAt(t, e, i);
    assert t[i] in t;
    assert t[i].Define? <==> !Inside(t, i);
    if k > 0 {
      InsideCode(t, e, i, k - 1);
      assert Expanded(t, e)[Place(t, e, i) + (k - 1)] == e(t[i])[k - 1];
    }
  }

  lemma ExpandedBracketed(t: Table, e: Rewriter)
    requires Bracketed(t) && KeepsDefinitions(t, e)
    ensures Bracketed(Expanded(t, e))
  {
    hide Expanded, Place;
    var r := Expanded(t, e);
    EndPlaces(t, e);
    InsidePlace(t, e, |t|);
    forall q: nat | q < |r| ensures r[q].Define? <==> !Inside(r, q) {
      var i, k := Locate(t, e, q, |t|);
      assert t[i] in t;
      InsidePlace(t, e, i);
      InsideCode(t, e, i, k);
      assert t[i].Define? <==> !Inside(t, i);
    }
  }

  lemma ExpandedAssemblyLeads(t: Table, e: Rewriter)
    requires AssemblyLeads(t) && KeepsDefinitions(t, e)
    ensures AssemblyLeads(Expanded(t, e))
  {
    hide Expanded, Place;
    var r := Expanded(t, e);
    EndPlaces(t, e);
    forall q: nat | q < |r| && r[q].Assembly? ensures q > 0 && (r[q - 1].Define? || r[q - 1].Assembly?) {
      var i, k := Locate(t, e, q, |t|);
      assert t[i] in t && t[i - 1] in t;
      CodeAt(t, e, i - 1);
    }
  }

  /** What each rebuilding pass still has to show. */
  lemma ExpandedWellFormed(t: Table, e: Rewriter)
    requires WellFormed(t) && KeepsDefinitions(t, e)
    requires forall n :: multiset(Expanded(t, e))[Label(n)] == multiset(t)[Label(n)]
    requires forall s :: multiset(Expanded(t, e))[Define(s)] == multiset(t)[Define(s)]
    requires forall op, k :: op in t && 0 <= k < |e(op)| && e(op)[k].Branch? ==> e(op)[k] == op
    ensures WellFormed(Expanded(t, e))
  {
    hide Expanded, Place;
    var r := Expanded(t, e);
    EndPlaces(t, e);
    ExpandedBracketed(t, e);
    ExpandedAssemblyLeads(t, e);
    forall n ensures Once(r, Label(n)) {
      assert Once(t, Label(n));
    }
    forall s ensures Once(r, Define(s)) {
      assert Once(t, Define(s));
    }
    forall q: nat | q < |r| && r[q].Branch? ensures Label(r[q].target) in r {
      var i, k := Locate(t, e, q, |t|);
      assert t[i] in t && r[q] == t[i];
      assert Label(t[i].target) in multiset(t);
      assert Label(t[i].target) in multiset(r);
    }
  }
}
