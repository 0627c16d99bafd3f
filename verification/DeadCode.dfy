/** Removal of code that follows an unconditional jump. */
module DeadCode {
  import opened Machine
  import opened Simulation
  import opened Shape

  /** Between an unconditional jump and the next label or definition end. */
  predicate Dead(t: Table, i: nat)
    requires i < |t|
  {
    i > 0 && !t[i].Label? && !t[i].EndDefine? && (t[i - 1].IsJump() || Dead(t, i - 1))
  }

  function Removed(t: Table): (r: Table)
    ensures |r| == |t|
  {
    seq(|t|, i requires 0 <= i < |t| => if Dead(t, i) then NoOp else t[i])
  }

  lemma {:induction false} DeadIsInside(t: Table, i: nat)
    requires WellFormed(t) && i < |t| && Dead(t, i)
    ensures Inside(t, i) && !t[i].Define?
  {
    if !t[i - 1].IsJump() {
      DeadIsInside(t, i - 1);
    }
    assert t[i - 1].Define? <==> !Inside(t, i - 1);
    assert t[i].Define? <==> !Inside(t, i);
  }

  lemma {:induction false} DeadIsNotAssembly(t: Table, i: nat)
    requires WellFormed(t) && i < |t| && Dead(t, i)
    ensures !t[i].Assembly?
  {
    DeadIsInside(t, i);
    if Dead(t, i - 1) {
      DeadIsInside(t, i - 1);
      DeadIsNotAssembly(t, i - 1);
    }
  }

  /** x and y agree with t on all but its dead code. */
  ghost predicate Agree(t: Table, x: Table) {
    && |x| == |t|
    && (forall i :: 0 <= i < |t| && !Dead(t, i) ==> x[i] == t[i])
    && (forall i :: 0 <= i < |t| && Dead(t, i) ==>
          !x[i].Label? && !x[i].Define? && !x[i].Assembly? && !t[i].Label? && !t[i].Define? && !t[i].Assembly?)
  }

  lemma AgreeLemma(t: Table)
    requires WellFormed(t)
    ensures Agree(t, t) && Agree(t, Removed(t))
  {
    forall i | 0 <= i < |t| && Dead(t, i) ensures !t[i].Label? && !t[i].Define? && !t[i].Assembly? {
      DeadIsInside(t, i);
      DeadIsNotAssembly(t, i);
    }
  }

  /** Live code runs alike in any two tables that agree with t. */
  lemma {:induction false} LiveLeads(t: Table, x: Table, y: Table, env: Env, p: nat, f: nat)
    requires WellFormed(t) && Agree(t, x) && Agree(t, y)
    requires p < |t| ==> !Dead(t, p)
    ensures Leads(x, y, env, p, p, f)
    decreases f, |t| - p
  {
    hide Leads, CallLeads, Run, WellFormed, IndexOf, AssemblyBlock;
    if p >= |t| {
      EndLeads(x, y, env, p, p, f);
    } else {
      var op := t[p];
      if op.Branch? && f > 0 {
        var l := Label(op.target);
        SameIndex(x, y, l);
        SameIndex(x, t, l);
        LiveLeads(t, x, y, env, IndexOf(x, l), f - 1);
      }
      if op.Call? {
        CallsLead(t, x, y, env, op.symbol, f);
      }
      if op.Assembly? {
        SameBlock(x, y, p);
        SameBlock(x, t, p);
        var n := |AssemblyBlock(x, p)|;
        LiveLeads(t, x, y, env, p + n, f);
      } else if !op.IsJump() && !op.EndDefine? && !op.Define? {
        LiveLeads(t, x, y, env, p + 1, f);
      }
      SameStep(x, y, env, p, p, f);
    }
  }

  lemma {:induction false} CallsLead(t: Table, x: Table, y: Table, env: Env, s: Symbol, f: nat)
    requires WellFormed(t) && Agree(t, x) && Agree(t, y)
    ensures CallLeads(x, y, env, s, f)
    decreases f, 0
  {
    hide Leads, CallLeads, Run, WellFormed;
    var d := Define(s);
    forall i | 0 <= i < |t| ensures x[i] == d <==> t[i] == d {
      if Dead(t, i) { DeadIsInside(t, i); }
    }
    forall i | 0 <= i < |t| ensures y[i] == d <==> t[i] == d {
      if Dead(t, i) { DeadIsInside(t, i); }
    }
    SameIndex(x, t, d);
    SameIndex(y, t, d);
    var e := IndexOf(x, d);
    if e < |t| && f > 0 {
      assert t[e] == d;
      LiveLeads(t, x, y, env, e + 1, f - 1);
    }
    EntryLeads(x, y, env, s, f);
  }

  lemma RemovedEquivalent(t: Table, env: Env)
    requires WellFormed(t)
    ensures Equivalent(t, Removed(t), env)
  {
    AgreeLemma(t);
    var r := Removed(t);
    forall s, f: nat ensures CallLeads(t, r, env, s, f) && CallLeads(r, t, env, s, f) {
      CallsLead(t, t, r, env, s, f);
      CallsLead(t, r, t, env, s, f);
    }
  }
}
