/** Removal of branches to the label that comes next anyway. */
module UselessJumps {
  import opened Machine
  import opened Simulation
  import opened Shape

  /** The next real opcode after the branch is the label it names. */
  predicate Useless(t: Table, i: nat)
    requires i < |t|
  {
    var j := NextReal(t, i + 1);
    t[i].Branch? && j < |t| && t[j] == Label(t[i].target)
  }

  function Removed(t: Table): (r: Table)
    ensures |r| == |t|
  {
    seq(|t|, i requires 0 <= i < |t| => if Useless(t, i) then NoOp else t[i])
  }

  /** x is t but for some useless branches that are no-ops in x. */
  ghost predicate Agree(t: Table, x: Table) {
    && |x| == |t|
    && (forall i :: 0 <= i < |t| ==> x[i] == t[i] || (Useless(t, i) && x[i] == NoOp))
  }

  lemma AgreeFrame(t: Table, x: Table, y: Table)
    requires Agree(t, x) && Agree(t, y)
    ensures SameFrame(x, y)
  {
  }

  /** Whatever x has at a useless branch, it ends up at the label. */
  lemma Over(t: Table, x: Table, env: Env, p: nat, st: State, f: nat)
    requires UniqueLabels(t) && Agree(t, x) && p < |t| && Useless(t, p)
    ensures Run(x, env, p, st, f) != Timeout ==>
              Run(x, env, NextReal(t, p + 1), st, f) == Run(x, env, p, st, f)
    ensures Run(x, env, NextReal(t, p + 1), st, f) == Run(x, env, p, st, f + 1)
              || Run(x, env, NextReal(t, p + 1), st, f) == Run(x, env, p, st, f)
  {
    var j := NextReal(t, p + 1);
    var l := Label(t[p].target);
    assert Once(t, l);
    IndexOfOnce(t, l, j);
    AgreeFrame(t, x, t);
    SameFrameLemma(x, t, l, p);
    forall k | p < k < j ensures x[k].NoOp? {
      assert t[k] == NoOp;
    }
    RunThroughNoOps(x, env, p + 1, j, st, f);
    if x[p].Branch? && Taken(x[p].condition, st) && Run(x, env, p, st, f) != Timeout {
      RunMonotone(x, env, j, st, f - 1, f);
    }
  }

  lemma {:induction false} Leading(t: Table, x: Table, y: Table, env: Env, p: nat, f: nat)
    requires UniqueLabels(t) && Agree(t, x) && Agree(t, y)
    ensures Leads(x, y, env, p, p, f)
    decreases f, |t| - p
  {
    hide Leads, CallLeads, Run, UniqueLabels;
    if p >= |t| {
      EndLeads(x, y, env, p, p, f);
    } else if Useless(t, p) {
      Leading(t, x, y, env, NextReal(t, p + 1), f);
      LeadsOver(t, x, y, env, p, f);
    } else {
      var op := t[p];
      AgreeFrame(t, x, y);
      if op.Branch? && f > 0 {
        var l := Label(op.target);
        SameFrameLemma(x, y, l, p);
        Leading(t, x, y, env, IndexOf(x, l), f - 1);
      }
      if op.Call? {
        CallsLead(t, x, y, env, op.symbol, f);
      }
      if op.Assembly? {
        SameFrameLemma(x, y, op, p);
        Leading(t, x, y, env, p + |AssemblyBlock(x, p)|, f);
      } else {
        Leading(t, x, y, env, p + 1, f);
      }
      SameStep(x, y, env, p, p, f);
    }
  }

  lemma LeadsOver(t: Table, x: Table, y: Table, env: Env, p: nat, f: nat)
    requires UniqueLabels(t) && Agree(t, x) && Agree(t, y) && p < |t| && Useless(t, p)
    requires Leads(x, y, env, NextReal(t, p + 1), NextReal(t, p + 1), f)
    ensures Leads(x, y, env, p, p, f)
  {
    hide Run, UniqueLabels, Agree;
    var j := NextReal(t, p + 1);
    forall st ensures Reaches(y, env, p, st, Run(x, env, p, st, f)) {
      var o := Run(x, env, p, st, f);
      if o != Timeout {
        Over(t, x, env, p, st, f);
        assert Reaches(y, env, j, st, Run(x, env, j, st, f));
        var g := ReachesWith(y, env, j, st, o, 0);
        Over(t, y, env, p, st, g);
        assert Run(y, env, p, st, g + 1) == o || Run(y, env, p, st, g) == o;
      }
    }
  }

  lemma {:induction false} CallsLead(t: Table, x: Table, y: Table, env: Env, s: Symbol, f: nat)
    requires UniqueLabels(t) && Agree(t, x) && Agree(t, y)
    ensures CallLeads(x, y, env, s, f)
    decreases f, 0
  {
    hide Leads, CallLeads, Run, UniqueLabels;
    AgreeFrame(t, x, y);
    SameFrameLemma(x, y, Define(s), 0);
    if f > 0 {
      Leading(t, x, y, env, IndexOf(x, Define(s)) + 1, f - 1);
    }
    EntryLeads(x, y, env, s, f);
  }

  lemma RemovedEquivalent(t: Table, env: Env)
    requires UniqueLabels(t)
    ensures Equivalent(t, Removed(t), env)
  {
    var r := Removed(t);
    forall s, f: nat ensures CallLeads(t, r, env, s, f) && CallLeads(r, t, env, s, f) {
      CallsLead(t, t, r, env, s, f);
      CallsLead(t, r, t, env, s, f);
    }
  }
}
