/** Removal of labels that no branch names. */
module UnusedLabels {
  import opened Machine
  import opened Simulation
  import opened Shape

  ghost predicate Unused(t: Table, op: Opcode) {
    op.Label? && !Used(t, op.number)
  }

  ghost function Removed(t: Table): (r: Table)
    ensures |r| == |t|
  {
    seq(|t|, i requires 0 <= i < |t| => if Unused(t, t[i]) then NoOp else t[i])
  }

  /** x is t but for some unused labels that are no-ops in x. */
  ghost predicate Agree(t: Table, x: Table) {
    && |x| == |t|
    && (forall i :: 0 <= i < |t| ==> x[i] == t[i] || (Unused(t, t[i]) && x[i] == NoOp))
  }

  lemma SamePlaces(t: Table, x: Table, y: Table, op: Opcode, p: nat)
    requires Agree(t, x) && Agree(t, y) && IsFrame(op) && !Unused(t, op) && p <= |t|
    ensures IndexOf(x, op) == IndexOf(y, op)
    ensures AssemblyBlock(x, p) == AssemblyBlock(y, p)
  {
    SameIndex(x, y, op);
    SameBlock(x, y, p);
  }

  lemma BranchUses(t: Table, p: nat)
    requires p < |t| && t[p].Branch?
    ensures Used(t, t[p].target)
  {
  }

  lemma {:induction false} Leading(t: Table, x: Table, y: Table, env: Env, p: nat, f: nat)
    requires Agree(t, x) && Agree(t, y)
    ensures Leads(x, y, env, p, p, f)
    decreases f, |t| - p
  {
    hide Leads, CallLeads, Run, Used, IndexOf;
    if p >= |t| {
      EndLeads(x, y, env, p, p, f);
    } else if Unused(t, t[p]) {
      Leading(t, x, y, env, p + 1, f);
      LeadsOver(x, y, env, p, f);
    } else {
      var op := t[p];
      if op.Branch? && f > 0 {
        var l := Label(op.target);
        BranchUses(t, p);
        SamePlaces(t, x, y, l, p);
        Leading(t, x, y, env, IndexOf(x, l), f - 1);
      }
      if op.Call? {
        CallsLead(t, x, y, env, op.symbol, f);
      }
      if op.Assembly? {
        SamePlaces(t, x, y, op, p);
        Leading(t, x, y, env, p + |AssemblyBlock(x, p)|, f);
      } else {
        Leading(t, x, y, env, p + 1, f);
      }
      SameStep(x, y, env, p, p, f);
    }
  }

  lemma LeadsOver(x: Table, y: Table, env: Env, p: nat, f: nat)
    requires p < |x| && p < |y| && !x[p].IsExecutable() && !y[p].IsExecutable()
    requires Leads(x, y, env, p + 1, p + 1, f)
    ensures Leads(x, y, env, p, p, f)
  {
    forall st ensures Reaches(y, env, p, st, Run(x, env, p, st, f)) {
      var o := Run(x, env, p, st, f);
      assert Reaches(y, env, p + 1, st, Run(x, env, p + 1, st, f));
      if o != Timeout {
        var g := ReachesWith(y, env, p + 1, st, o, 0);
        assert Run(y, env, p, st, g) == o;
      }
    }
  }

  lemma {:induction false} CallsLead(t: Table, x: Table, y: Table, env: Env, s: Symbol, f: nat)
    requires Agree(t, x) && Agree(t, y)
    ensures CallLeads(x, y, env, s, f)
    decreases f, 0
  {
    hide Leads, CallLeads, Run;
    SamePlaces(t, x, y, Define(s), 0);
    if f > 0 {
      Leading(t, x, y, env, IndexOf(x, Define(s)) + 1, f - 1);
    }
    EntryLeads(x, y, env, s, f);
  }

  lemma RemovedEquivalent(t: Table, env: Env)
    ensures Equivalent(t, Removed(t), env)
  {
    var r := Removed(t);
    forall s, f: nat ensures CallLeads(t, r, env, s, f) && CallLeads(r, t, env, s, f) {
      CallsLead(t, t, r, env, s, f);
      CallsLead(t, r, t, env, s, f);
    }
  }
}
