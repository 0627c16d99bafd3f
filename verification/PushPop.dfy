/** Fusion of a push directly followed by a pop of the same stack. */
module PushPop {
  import opened Machine
  import opened Simulation
  import opened Shape

  /** A push at i whose next real opcode, at Second(t, i), pops the same stack. */
  predicate First(t: Table, i: nat)
    requires i < |t|
  {
    var j := NextReal(t, i + 1);
    t[i].Push? && j < |t| && t[j].Pop? && t[j].stack == t[i].stack
  }

  predicate Second(t: Table, j: nat)
    requires j < |t|
  {
    exists i :: 0 <= i < j && First(t, i) && NextReal(t, i + 1) == j
  }

  /** The move that stands in for the pair. */
  function Move(push: Opcode, pop: Opcode): Opcode
    requires push.Push? && pop.Pop?
  {
    if push.reg == pop.reg then NoOp else LoadRegister(pop.reg, push.reg)
  }

  function Fused(t: Table): (r: Table)
    ensures |r| == |t|
  {
    seq(|t|, i requires 0 <= i < |t| => FusedAt(t, i))
  }

  function FusedAt(t: Table, i: nat): Opcode
    requires i < |t|
  {
    if First(t, i) then Move(t[i], t[NextReal(t, i + 1)])
    else if Second(t, i) then NoOp
    else t[i]
  }

  /** q lies after the first and up to the second opcode of a pair. */
  ghost predicate Covered(t: Table, q: nat) {
    exists i :: 0 <= i < |t| && i < q && First(t, i) && q <= NextReal(t, i + 1)
  }

  /** x is t itself or its fused form. */
  ghost predicate Agree(t: Table, x: Table) {
    x == t || x == Fused(t)
  }

  lemma AgreeFrame(t: Table, x: Table, y: Table)
    requires Agree(t, x) && Agree(t, y)
    ensures SameFrame(x, y)
  {
  }

  /** A pair moves the value from the one register to the other. */
  lemma Over(t: Table, x: Table, env: Env, p: nat, st: State, f: nat)
    requires Agree(t, x) && p < |t| && First(t, p)
    ensures var j := NextReal(t, p + 1);
      Run(x, env, p, st, f) == Run(x, env, j + 1, st.SetReg(t[j].reg, st.Reg(t[p].reg)), f)
  {
    if x == t {
      OverPair(t, env, p, st, f);
    } else {
      OverMove(t, env, p, st, f);
    }
  }

  lemma PopUndoesPush(env: Env, push: Opcode, pop: Opcode, st: State)
    requires push.Push? && pop.Pop? && push.stack == pop.stack
    ensures var pushed := Plain(env, push, st);
      pushed.Done? && Plain(env, pop, pushed.state) == Done(st.SetReg(pop.reg, st.Reg(push.reg)))
  {
    var before := st.core.Get(push.stack);
    assert (before + [st.Reg(push.reg)])[..|before|] == before;
  }

  lemma OverPair(t: Table, env: Env, p: nat, st: State, f: nat)
    requires p < |t| && First(t, p)
    ensures var j := NextReal(t, p + 1);
      Run(t, env, p, st, f) == Run(t, env, j + 1, st.SetReg(t[j].reg, st.Reg(t[p].reg)), f)
  {
    hide Plain;
    var j := NextReal(t, p + 1);
    PopUndoesPush(env, t[p], t[j], st);
    RunThroughNoOps(t, env, p + 1, j, Plain(env, t[p], st).state, f);
  }

  lemma FusedPair(t: Table, p: nat)
    requires p < |t| && First(t, p)
    ensures var j := NextReal(t, p + 1);
      && Fused(t)[p] == Move(t[p], t[j])
      && forall k :: p < k <= j ==> Fused(t)[k] == NoOp
  {
    var j := NextReal(t, p + 1);
    forall k | p < k <= j ensures Fused(t)[k] == NoOp {
      if k < j {
        assert t[k] == NoOp;
      } else {
        assert Second(t, j) && !First(t, j);
      }
    }
  }

  lemma OverMove(t: Table, env: Env, p: nat, st: State, f: nat)
    requires p < |t| && First(t, p)
    ensures var j := NextReal(t, p + 1);
      Run(Fused(t), env, p, st, f) == Run(Fused(t), env, j + 1, st.SetReg(t[j].reg, st.Reg(t[p].reg)), f)
  {
    hide Fused;
    var j := NextReal(t, p + 1);
    FusedPair(t, p);
    var next := st.SetReg(t[j].reg, st.Reg(t[p].reg));
    RunThroughNoOps(Fused(t), env, p + 1, j + 1, next, f);
    assert t[j].reg == t[p].reg ==> next == st;
  }

  /** After a position that is not the first of a pair comes one that is not covered. */
  lemma NotCoveredNext(t: Table, p: nat)
    requires p < |t| && !Covered(t, p) && !First(t, p)
    ensures !Covered(t, p + 1)
  {
  }

  /** Only no-ops and pops are covered. */
  lemma CoveredOpcode(t: Table, q: nat)
    requires Covered(t, q)
    ensures q < |t| && (t[q].NoOp? || t[q].Pop?)
    ensures q > 0 && (t[q - 1].NoOp? || t[q - 1].Push?)
  {
    var i :| 0 <= i < |t| && i < q && First(t, i) && q <= NextReal(t, i + 1);
    if q < NextReal(t, i + 1) { assert t[q] == NoOp; }
    if i < q - 1 { assert t[q - 1] == NoOp; }
  }

  lemma NotCoveredAfter(t: Table, p: nat)
    requires p < |t| && First(t, p)
    ensures !Covered(t, NextReal(t, p + 1) + 1)
  {
    var j := NextReal(t, p + 1);
    if j + 1 < |t| && Covered(t, j + 1) {
      CoveredOpcode(t, j + 1);
    }
  }

  lemma {:induction false} Leading(t: Table, x: Table, y: Table, env: Env, p: nat, f: nat)
    requires Agree(t, x) && Agree(t, y) && !Covered(t, p)
    ensures Leads(x, y, env, p, p, f)
    decreases f, |t| - p
  {
    hide Leads, CallLeads, Run, Agree, SameFrame, Covered, IndexOf, AssemblyBlock;
    AgreeFrame(t, x, y);
    AgreeLengths(t, x, y, p);
    if p >= |t| {
      EndLeads(x, y, env, p, p, f);
    } else if First(t, p) {
      NotCoveredAfter(t, p);
      Leading(t, x, y, env, NextReal(t, p + 1) + 1, f);
      LeadsOver(t, x, y, env, p, f);
    } else {
      var op := t[p];
      if op.Branch? && f > 0 {
        var l := Label(op.target);
        SameFrameLemma(x, y, l, p);
        LandingNotCovered(t, x, l);
        Leading(t, x, y, env, IndexOf(x, l), f - 1);
      }
      if op.Call? {
        CallsLead(t, x, y, env, op.symbol, f);
      }
      if op.Assembly? {
        SameFrameLemma(x, y, op, p);
        BlockNotCovered(t, x, p);
        Leading(t, x, y, env, p + |AssemblyBlock(x, p)|, f);
      } else {
        NotCoveredNext(t, p);
        Leading(t, x, y, env, p + 1, f);
      }
      SameStep(x, y, env, p, p, f);
    }
  }

  lemma AgreeLengths(t: Table, x: Table, y: Table, p: nat)
    requires Agree(t, x) && Agree(t, y) && !Covered(t, p)
    ensures |x| == |y| == |t|
    ensures p < |t| && !First(t, p) ==> x[p] == y[p] == t[p]
  {
  }

  lemma LandingNotCovered(t: Table, x: Table, op: Opcode)
    requires Agree(t, x) && (op.Label? || op.Define?)
    ensures |x| == |t| && !Covered(t, IndexOf(x, op))
    ensures op.Define? ==> !Covered(t, IndexOf(x, op) + 1)
  {
    AgreeFrame(t, x, t);
    SameFrameLemma(x, t, op, 0);
    var i := IndexOf(t, op);
    if i < |t| && Covered(t, i) { CoveredOpcode(t, i); }
    if i + 1 < |t| && Covered(t, i + 1) { CoveredOpcode(t, i + 1); }
  }

  lemma BlockNotCovered(t: Table, x: Table, p: nat)
    requires Agree(t, x) && p < |t| && t[p].Assembly?
    ensures |x| == |t| && !Covered(t, p + |AssemblyBlock(x, p)|)
  {
    hide Agree, Covered, First;
    AgreeFrame(t, x, t);
    SameFrameLemma(x, t, t[p], p);
    var q := p + |AssemblyBlock(t, p)|;
    if Covered(t, q) { CoveredOpcode(t, q); }
  }

  lemma LeadsOver(t: Table, x: Table, y: Table, env: Env, p: nat, f: nat)
    requires Agree(t, x) && Agree(t, y) && p < |t| && First(t, p)
    requires Leads(x, y, env, NextReal(t, p + 1) + 1, NextReal(t, p + 1) + 1, f)
    ensures Leads(x, y, env, p, p, f)
  {
    hide Run, Agree;
    var j := NextReal(t, p + 1);
    forall st ensures Reaches(y, env, p, st, Run(x, env, p, st, f)) {
      var o := Run(x, env, p, st, f);
      var next := st.SetReg(t[j].reg, st.Reg(t[p].reg));
      Over(t, x, env, p, st, f);
      assert Reaches(y, env, j + 1, next, Run(x, env, j + 1, next, f));
      if o != Timeout {
        var g := ReachesWith(y, env, j + 1, next, o, 0);
        Over(t, y, env, p, st, g);
        assert Run(y, env, p, st, g) == o;
      }
    }
  }

  lemma {:induction false} CallsLead(t: Table, x: Table, y: Table, env: Env, s: Symbol, f: nat)
    requires Agree(t, x) && Agree(t, y)
    ensures CallLeads(x, y, env, s, f)
    decreases f, 0
  {
    hide Leads, CallLeads, Run, Agree, SameFrame, Covered;
    AgreeFrame(t, x, y);
    SameFrameLemma(x, y, Define(s), 0);
    if f > 0 {
      LandingNotCovered(t, x, Define(s));
      Leading(t, x, y, env, IndexOf(x, Define(s)) + 1, f - 1);
    }
    EntryLeads(x, y, env, s, f);
  }

  lemma FusedEquivalent(t: Table, env: Env)
    ensures Equivalent(t, Fused(t), env)
  {
    var r := Fused(t);
    forall s, f: nat ensures CallLeads(t, r, env, s, f) && CallLeads(r, t, env, s, f) {
      CallsLead(t, t, r, env, s, f);
      CallsLead(t, r, t, env, s, f);
    }
  }
}
