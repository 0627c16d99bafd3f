/** What it means for one table to do everything another one does, and the
    step of every proof of it in which both tables execute the same opcode. */
module Simulation {
  import opened Machine

  /** A run of y from position q in state st can end with outcome o. */
  ghost predicate Reaches(y: Table, env: Env, q: nat, st: State, o: Outcome) {
    o == Timeout || exists g: nat :: Run(y, env, q, st, g) == o
  }

  /** Every run of x from position p that ends within fuel f is also a run of y from position q. */
  ghost predicate Leads(x: Table, y: Table, env: Env, p: nat, q: nat, f: nat) {
    forall st :: Reaches(y, env, q, st, Run(x, env, p, st, f))
  }

  ghost predicate CallReaches(y: Table, env: Env, s: Symbol, st: State, o: Outcome) {
    o == Timeout || exists g: nat :: CallWord(y, env, s, st, g) == o
  }

  ghost predicate CallLeads(x: Table, y: Table, env: Env, s: Symbol, f: nat) {
    forall st :: CallReaches(y, env, s, st, CallWord(x, env, s, st, f))
  }

  /** Every call that ends in x ends in y with the same outcome. */
  ghost predicate Refines(x: Table, y: Table, env: Env) {
    forall s, f: nat :: CallLeads(x, y, env, s, f)
  }

  /** The calls that end are the same in both tables, with the same outcomes;
      hence so are the calls that never end. */
  ghost predicate Equivalent(x: Table, y: Table, env: Env) {
    Refines(x, y, env) && Refines(y, x, env)
  }

  lemma RefinesCall(x: Table, y: Table, env: Env, s: Symbol, st: State, o: Outcome)
    requires Refines(x, y, env) && CallReaches(x, env, s, st, o)
    ensures CallReaches(y, env, s, st, o)
  {
    if o != Timeout {
      var f: nat :| CallWord(x, env, s, st, f) == o;
      assert CallLeads(x, y, env, s, f);
      assert CallReaches(y, env, s, st, CallWord(x, env, s, st, f));
    }
  }

  /** What Equivalent says of a single call: it ends with outcome o in one
      table exactly when it does in the other. */
  lemma EquivalentCalls(x: Table, y: Table, env: Env, s: Symbol, st: State, o: Outcome)
    requires Equivalent(x, y, env)
    ensures CallReaches(x, env, s, st, o) <==> CallReaches(y, env, s, st, o)
  {
    if CallReaches(x, env, s, st, o) {
      RefinesCall(x, y, env, s, st, o);
    }
    if CallReaches(y, env, s, st, o) {
      RefinesCall(y, x, env, s, st, o);
    }
  }

  lemma RefinesTransitive(x: Table, y: Table, z: Table, env: Env)
    requires Refines(x, y, env) && Refines(y, z, env)
    ensures Refines(x, z, env)
  {
    forall s, f: nat ensures CallLeads(x, z, env, s, f) {
      forall st ensures CallReaches(z, env, s, st, CallWord(x, env, s, st, f)) {
        var o := CallWord(x, env, s, st, f);
        assert CallLeads(x, y, env, s, f);
        assert CallReaches(y, env, s, st, o);
        if o != Timeout {
          var g: nat :| CallWord(y, env, s, st, g) == o;
          assert CallLeads(y, z, env, s, g);
          assert CallReaches(z, env, s, st, CallWord(y, env, s, st, g));
        }
      }
    }
  }

  lemma EquivalentReflexive(x: Table, env: Env)
    ensures Equivalent(x, x, env)
  {
    forall s, f: nat ensures CallLeads(x, x, env, s, f) {
    }
  }

  lemma EquivalentTransitive(x: Table, y: Table, z: Table, env: Env)
    requires Equivalent(x, y, env) && Equivalent(y, z, env)
    ensures Equivalent(x, z, env)
  {
    RefinesTransitive(x, y, z, env);
    RefinesTransitive(z, y, x, env);
  }

  /** A run of y that needs fuel g is also there with more fuel. */
  lemma ReachesWith(y: Table, env: Env, q: nat, st: State, o: Outcome, least: nat) returns (g: nat)
    requires o != Timeout && Reaches(y, env, q, st, o)
    ensures g >= least && Run(y, env, q, st, g) == o
  {
    var h: nat :| Run(y, env, q, st, h) == o;
    g := if h < least then least else h;
    RunMonotone(y, env, q, st, h, g);
  }

  /** A call of y followed by the rest of the run. */
  lemma CallThenReaches(y: Table, env: Env, q: nat, s: Symbol, st: State, reply: Outcome, o: Outcome)
    requires q < |y| && y[q] == Call(s)
    requires reply != Timeout && CallReaches(y, env, s, st, reply)
    requires if reply.Done? then Reaches(y, env, q + 1, reply.state, o) else o == reply
    ensures Reaches(y, env, q, st, o)
  {
    if o != Timeout {
      var h: nat :| CallWord(y, env, s, st, h) == reply;
      if reply.Done? {
        var g := ReachesWith(y, env, q + 1, reply.state, o, h);
        CallMonotone(y, env, s, st, h, g);
        assert Run(y, env, q, st, g) == o;
      } else {
        assert Run(y, env, q, st, h) == o;
      }
    }
  }

  /** Definitions of s at corresponding places make calls of s correspond. */
  lemma EntryLeads(x: Table, y: Table, env: Env, s: Symbol, f: nat)
    requires IndexOf(x, Define(s)) == |x| <==> IndexOf(y, Define(s)) == |y|
    requires IndexOf(x, Define(s)) < |x| && f > 0 ==>
      Leads(x, y, env, IndexOf(x, Define(s)) + 1, IndexOf(y, Define(s)) + 1, f - 1)
    ensures CallLeads(x, y, env, s, f)
  {
    var d, e := IndexOf(x, Define(s)), IndexOf(y, Define(s));
    forall st ensures CallReaches(y, env, s, st, CallWord(x, env, s, st, f)) {
      var o := CallWord(x, env, s, st, f);
      if d == |x| {
        assert CallWord(y, env, s, st, 0) == o;
      } else if f > 0 && o != Timeout {
        assert Reaches(y, env, e + 1, st, Run(x, env, d + 1, st, f - 1));
        var g: nat :| Run(y, env, e + 1, st, g) == o;
        assert CallWord(y, env, s, st, g + 1) == o;
      }
    }
  }

  /** Where control can go after the opcode at p, the two tables correspond. */
  ghost predicate SuccessorsLead(x: Table, y: Table, env: Env, p: nat, q: nat, f: nat)
    requires p < |x| && q < |y|
  {
    match x[p]
    case Define(_) => true
    case EndDefine(_) => true
    case Call(s) => CallLeads(x, y, env, s, f) && Leads(x, y, env, p + 1, q + 1, f)
    case Assembly(_) =>
      var block := AssemblyBlock(x, p);
      AssemblyBlock(y, q) == block && Leads(x, y, env, p + |block|, q + |block|, f)
    case Branch(condition, target) =>
      && (!condition.Always? ==> Leads(x, y, env, p + 1, q + 1, f))
      && (f > 0 ==> Leads(x, y, env, IndexOf(x, Label(target)), IndexOf(y, Label(target)), f - 1))
    case _ => Leads(x, y, env, p + 1, q + 1, f)
  }

  lemma SameStep(x: Table, y: Table, env: Env, p: nat, q: nat, f: nat)
    requires p < |x| && q < |y| && x[p] == y[q]
    requires SuccessorsLead(x, y, env, p, q, f)
    ensures Leads(x, y, env, p, q, f)
  {
    forall st ensures Reaches(y, env, q, st, Run(x, env, p, st, f)) {
      SameStepFrom(x, y, env, p, q, f, st);
    }
  }

  lemma SameStepFrom(x: Table, y: Table, env: Env, p: nat, q: nat, f: nat, st: State)
    requires p < |x| && q < |y| && x[p] == y[q]
    requires SuccessorsLead(x, y, env, p, q, f)
    ensures Reaches(y, env, q, st, Run(x, env, p, st, f))
  {
    var o := Run(x, env, p, st, f);
    if o == Timeout {
    } else if x[p].IsPlain() {
      var reply := Plain(env, x[p], st);
      if reply.Done? {
        assert Reaches(y, env, q + 1, reply.state, Run(x, env, p + 1, reply.state, f));
        var g := ReachesWith(y, env, q + 1, reply.state, o, 0);
        assert Run(y, env, q, st, g) == o;
      } else {
        assert Run(y, env, q, st, 0) == o;
      }
    } else if x[p].Define? || x[p].EndDefine? {
      assert Run(y, env, q, st, 0) == o;
    } else if x[p].Call? {
      var reply := CallWord(x, env, x[p].symbol, st, f);
      assert CallReaches(y, env, x[p].symbol, st, reply);
      if reply.Done? {
        assert Reaches(y, env, q + 1, reply.state, Run(x, env, p + 1, reply.state, f));
      }
      CallThenReaches(y, env, q, x[p].symbol, st, reply, o);
    } else if x[p].Assembly? {
      var block := AssemblyBlock(x, p);
      var reply := env.assembly(block, st);
      if reply.Done? {
        assert Reaches(y, env, q + |block|, reply.state, Run(x, env, p + |block|, reply.state, f));
        var g := ReachesWith(y, env, q + |block|, reply.state, o, 0);
        assert Run(y, env, q, st, g) == o;
      } else {
        assert Run(y, env, q, st, 0) == o;
      }
    } else if x[p].Branch? && Taken(x[p].condition, st) {
      var i, j := IndexOf(x, Label(x[p].target)), IndexOf(y, Label(x[p].target));
      assert Reaches(y, env, j, st, Run(x, env, i, st, f - 1));
      var g := ReachesWith(y, env, j, st, o, 0);
      assert Run(y, env, q, st, g + 1) == o;
    } else {
      assert Reaches(y, env, q + 1, st, Run(x, env, p + 1, st, f));
      var g := ReachesWith(y, env, q + 1, st, o, 0);
      assert Run(y, env, q, st, g) == o;
    }
  }

  /** Past the end of both tables there is nothing to do in either. */
  lemma EndLeads(x: Table, y: Table, env: Env, p: nat, q: nat, f: nat)
    requires p >= |x| && q >= |y|
    ensures Leads(x, y, env, p, q, f)
  {
    forall st ensures Reaches(y, env, q, st, Run(x, env, p, st, f)) {
      assert Run(y, env, q, st, 0) == Stuck(st);
    }
  }
}
