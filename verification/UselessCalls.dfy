/** Removal of calls to words without executable opcodes. */
module UselessCalls {
  import opened Machine
  import opened Simulation
  import opened Shape

  /** t[d..e] is a definition of s with nothing executable inside. */
  ghost predicate EmptyDefinition(t: Table, s: Symbol, d: nat, e: nat) {
    && d < e < |t| && t[d] == Define(s) && t[e].EndDefine?
    && forall k :: d < k < e ==> !t[k].IsExecutable()
  }

  ghost predicate EmptyWord(t: Table, s: Symbol) {
    exists d: nat, e: nat :: EmptyDefinition(t, s, d, e)
  }

  ghost predicate Useless(t: Table, op: Opcode) {
    op.Call? && EmptyWord(t, op.symbol)
  }

  ghost function Removed(t: Table): (r: Table)
    ensures |r| == |t|
  {
    seq(|t|, i requires 0 <= i < |t| => if Useless(t, t[i]) then NoOp else t[i])
  }

  /** x is t but for some useless calls that are no-ops in x. */
  ghost predicate Agree(t: Table, x: Table) {
    && |x| == |t|
    && (forall i :: 0 <= i < |t| ==> x[i] == t[i] || (Useless(t, t[i]) && x[i] == NoOp))
  }

  lemma AgreeFrame(t: Table, x: Table, y: Table)
    requires Agree(t, x) && Agree(t, y)
    ensures SameFrame(x, y)
  {
  }

  /** Where the definition of an empty word is, in t and in x. */
  lemma EmptyEntry(t: Table, x: Table, s: Symbol) returns (d: nat, e: nat)
    requires UniqueDefines(t) && Agree(t, x) && EmptyWord(t, s)
    ensures IndexOf(x, Define(s)) == d < e < |x| && x[e].EndDefine?
    ensures forall k :: d < k < e ==> x[k].NoOp? || x[k].Label?
  {
    hide SameFrame;
    d, e :| EmptyDefinition(t, s, d, e);
    assert Once(t, Define(s));
    IndexOfOnce(t, Define(s), d);
    AgreeFrame(t, x, t);
    SameFrameLemma(x, t, Define(s), 0);
    forall k | d < k < e ensures x[k].NoOp? || x[k].Label? {
      assert !t[k].IsExecutable();
    }
  }

  /** A call of an empty word does nothing at all. */
  lemma EmptyCall(t: Table, x: Table, env: Env, s: Symbol, st: State, f: nat)
    requires UniqueDefines(t) && Agree(t, x) && EmptyWord(t, s)
    ensures CallWord(x, env, s, st, f) == if f == 0 then Timeout else Done(st)
  {
    hide UniqueDefines, Agree, EmptyWord;
    var d, e := EmptyEntry(t, x, s);
    if f > 0 {
      RunThroughNoOps(x, env, d + 1, e, st, f - 1);
    }
  }

  lemma {:induction false} Leading(t: Table, x: Table, y: Table, env: Env, p: nat, f: nat)
    requires UniqueDefines(t) && Agree(t, x) && Agree(t, y)
    ensures Leads(x, y, env, p, p, f)
    decreases f, |t| - p
  {
    hide Leads, CallLeads, Run, UniqueDefines;
    if p >= |t| {
      EndLeads(x, y, env, p, p, f);
    } else if Useless(t, t[p]) {
      Leading(t, x, y, env, p + 1, f);
      LeadsOver(t, x, y, env, p, f);
    } else {
      var op := t[p];
      AgreeFrame(t, x, y);
      if op.Branch? && f > 0 {
        var l := Label(op.target);
        SameFrameLemma(x, y, l, p);
        Leading(t, x, y, env, IndexOf(x, l), f - 1);
      }
      if op.Call? {
        CallsLead(t, x, y, env, op.symbol, f);
      }
      if op.Assembly? {
        SameFrameLemma(x, y, op, p);
        Leading(t, x, y, env, p + |AssemblyBlock(x, p)|, f);
      } else {
        Leading(t, x, y, env, p + 1, f);
      }
      SameStep(x, y, env, p, p, f);
    }
  }

  lemma LeadsOver(t: Table, x: Table, y: Table, env: Env, p: nat, f: nat)
    requires UniqueDefines(t) && Agree(t, x) && Agree(t, y) && p < |t| && Useless(t, t[p])
    requires Leads(x, y, env, p + 1, p + 1, f)
    ensures Leads(x, y, env, p, p, f)
  {
    hide UniqueDefines, EmptyWord;
    forall st ensures Reaches(y, env, p, st, Run(x, env, p, st, f)) {
      var o := Run(x, env, p, st, f);
      if o != Timeout {
        EmptyCall(t, x, env, t[p].symbol, st, f);
        assert Reaches(y, env, p + 1, st, Run(x, env, p + 1, st, f));
        var g := ReachesWith(y, env, p + 1, st, o, 1);
        EmptyCall(t, y, env, t[p].symbol, st, g);
        assert Run(y, env, p, st, g) == o;
      }
    }
  }

  lemma {:induction false} CallsLead(t: Table, x: Table, y: Table, env: Env, s: Symbol, f: nat)
    requires UniqueDefines(t) && Agree(t, x) && Agree(t, y)
    ensures CallLeads(x, y, env, s, f)
    decreases f, 0
  {
    hide Leads, CallLeads, Run, UniqueDefines;
    AgreeFrame(t, x, y);
    SameFrameLemma(x, y, Define(s), 0);
    if f > 0 {
      Leading(t, x, y, env, IndexOf(x, Define(s)) + 1, f - 1);
    }
    EntryLeads(x, y, env, s, f);
  }

  lemma RemovedEquivalent(t: Table, env: Env)
    requires UniqueDefines(t)
    ensures Equivalent(t, Removed(t), env)
  {
    var r := Removed(t);
    forall s, f: nat ensures CallLeads(t, r, env, s, f) && CallLeads(r, t, env, s, f) {
      CallsLead(t, t, r, env, s, f);
      CallsLead(t, r, t, env, s, f);
    }
  }
}
