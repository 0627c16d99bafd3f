/** Replacement of calls by the straight-line code of the word called. */
module Inlining {
  import opened Machine
  import opened Simulation
  import opened Shape
  import opened Expansion

  type Splices = map<Symbol, Table>

  /** The code that takes the place of one opcode. */
  function Splice(m: Splices, op: Opcode): (code: Table)
    ensures |code| > 0
  {
    if op.Call? && op.symbol in m then [NoOp] + m[op.symbol] else [op]
  }

  function Splicer(m: Splices): Rewriter {
    (op: Opcode) => Splice(m, op)
  }

  function Inlined(t: Table, m: Splices): Table {
    Expanded(t, Splicer(m))
  }

  ghost predicate NothingToInline(t: Table, m: Splices) {
    forall k :: 0 <= k < |t| && t[k].Call? ==> t[k].symbol !in m
  }

  predicate IsStraight(op: Opcode) {
    op.IsPlain() || op.Call?
  }

  ghost predicate StraightCode(code: Table) {
    forall k :: 0 <= k < |code| ==> IsStraight(code[k])
  }

  /** Straight-line code run on its own, with the calls made in t. */
  function Straight(t: Table, env: Env, code: Table, st: State, f: nat): Outcome
    requires StraightCode(code)
  {
    if code == [] then Done(st)
    else
      match StraightOne(t, env, code[0], st, f)
      case Done(next) => Straight(t, env, code[1..], next, f)
      case other => other
  }

  function StraightOne(t: Table, env: Env, op: Opcode, st: State, f: nat): Outcome
    requires IsStraight(op)
  {
    if op.Call? then CallWord(t, env, op.symbol, st, f) else Plain(env, op, st)
  }

  /** Calling s in t is the same as running code; nested calls get less fuel. */
  ghost predicate Stands(t: Table, env: Env, s: Symbol, code: Table) {
    && StraightCode(code)
    && (forall st, f: nat :: CallWord(t, env, s, st, f) != Timeout ==>
          Straight(t, env, code, st, if f == 0 then 0 else f - 1) == CallWord(t, env, s, st, f))
    && (forall st, f: nat :: CallReaches(t, env, s, st, Straight(t, env, code, st, f)))
  }

  ghost predicate Sound(t: Table, env: Env, m: Splices) {
    && AllStraight(m)
    && (forall s :: s in m ==> Stands(t, env, s, m[s]))
  }

  // ----- places -----

  ghost predicate AllStraight(m: Splices) {
    forall s :: s in m ==> StraightCode(m[s])
  }

  lemma SplicerKeepsAssembly(m: Splices)
    requires AllStraight(m)
    ensures KeepsAssembly(Splicer(m))
  {
    forall op: Opcode, k | 0 <= k < |Splice(m, op)| ensures Splice(m, op)[k].Assembly? ==> op.Assembly? {
      if k > 0 { assert Splice(m, op)[k] == m[op.symbol][k - 1]; }
    }
  }

  lemma SplicedBlock(t: Table, m: Splices, p: nat)
    requires AllStraight(m) && p <= |t|
    ensures Place(t, Splicer(m), p) <= |Inlined(t, m)|
    ensures AssemblyBlock(Inlined(t, m), Place(t, Splicer(m), p)) == AssemblyBlock(t, p)
    ensures Place(t, Splicer(m), p + |AssemblyBlock(t, p)|) == Place(t, Splicer(m), p) + |AssemblyBlock(t, p)|
  {
    SplicerKeepsAssembly(m);
    BlockPlace(t, Splicer(m), p);
  }

  /** Labels and definitions move with the code before them. */
  lemma FramePlace(t: Table, m: Splices, op: Opcode)
    requires IsFrame(op) && AllStraight(m)
    ensures IndexOf(Inlined(t, m), op) == Place(t, Splicer(m), IndexOf(t, op))
  {
    var e := Splicer(m);
    forall i | 0 <= i < |t| && t[i] != op ensures op !in e(t[i]) {
      forall k | 0 <= k < |e(t[i])| ensures e(t[i])[k] != op {
        if k > 0 { assert e(t[i])[k] == m[t[i].symbol][k - 1]; }
      }
    }
    MovedIndex(t, e, op, op, 0);
  }

  // ----- straight-line code inside a table -----

  lemma {:induction false} StraightInTable(y: Table, env: Env, q: nat, code: Table, st: State, f: nat)
    requires StraightCode(code) && q + |code| <= |y|
    requires forall k :: 0 <= k < |code| ==> y[q + k] == code[k]
    ensures var o := Straight(y, env, code, st, f);
      Run(y, env, q, st, f) == if o.Done? then Run(y, env, q + |code|, o.state, f) else o
    decreases |code|
  {
    if code != [] {
      assert y[q + 0] == code[0];
      var reply := StraightOne(y, env, code[0], st, f);
      if reply.Done? {
        forall k | 0 <= k < |code[1..]| ensures y[q + 1 + k] == code[1..][k] {
          assert y[q + (k + 1)] == code[k + 1];
        }
        StraightInTable(y, env, q + 1, code[1..], reply.state, f);
      }
    }
  }

  lemma {:induction false} StraightMonotone(t: Table, env: Env, code: Table, st: State, f: nat, g: nat)
    requires StraightCode(code) && f <= g && Straight(t, env, code, st, f) != Timeout
    ensures Straight(t, env, code, st, g) == Straight(t, env, code, st, f)
    decreases |code|
  {
    if code != [] {
      var reply := StraightOne(t, env, code[0], st, f);
      if code[0].Call? {
        CallMonotone(t, env, code[0].symbol, st, f, g);
      }
      if reply.Done? {
        StraightMonotone(t, env, code[1..], reply.state, f, g);
      }
    }
  }

  ghost predicate StraightReaches(y: Table, env: Env, code: Table, st: State, o: Outcome)
    requires StraightCode(code)
  {
    o == Timeout || exists g: nat :: Straight(y, env, code, st, g) == o
  }

  /** Straight-line code does in y what it does in x, if its calls do. */
  lemma {:induction false} StraightLeads(x: Table, y: Table, env: Env, code: Table, st: State, f: nat)
    requires StraightCode(code)
    requires forall k :: 0 <= k < |code| && code[k].Call? ==> CallLeads(x, y, env, code[k].symbol, f)
    ensures StraightReaches(y, env, code, st, Straight(x, env, code, st, f))
    decreases |code|
  {
    hide CallWord;
    var o := Straight(x, env, code, st, f);
    if code == [] {
      assert Straight(y, env, code, st, 0) == o;
    } else if o != Timeout {
      var reply := StraightOne(x, env, code[0], st, f);
      var h := StraightOneReaches(x, y, env, code[0], st, f);
      if reply.Done? {
        StraightLeads(x, y, env, code[1..], reply.state, f);
        var g: nat :| Straight(y, env, code[1..], reply.state, g) == o;
        var top := if g < h then h else g;
        StraightMonotone(y, env, code[1..], reply.state, g, top);
        StraightOneMonotone(y, env, code[0], st, h, top);
        assert Straight(y, env, code, st, top) == o;
      } else {
        assert Straight(y, env, code, st, h) == o;
      }
    }
  }

  lemma StraightOneReaches(x: Table, y: Table, env: Env, op: Opcode, st: State, f: nat) returns (g: nat)
    requires IsStraight(op) && (op.Call? ==> CallLeads(x, y, env, op.symbol, f))
    requires StraightOne(x, env, op, st, f) != Timeout
    ensures StraightOne(y, env, op, st, g) == StraightOne(x, env, op, st, f)
  {
    g := 0;
    if op.Call? {
      var o := CallWord(x, env, op.symbol, st, f);
      assert CallReaches(y, env, op.symbol, st, o);
      g :| CallWord(y, env, op.symbol, st, g) == o;
    }
  }

  lemma StraightOneMonotone(t: Table, env: Env, op: Opcode, st: State, f: nat, g: nat)
    requires IsStraight(op) && f <= g && StraightOne(t, env, op, st, f) != Timeout
    ensures StraightOne(t, env, op, st, g) == StraightOne(t, env, op, st, f)
  {
    if op.Call? {
      CallMonotone(t, env, op.symbol, st, f, g);
    }
  }

  // ----- simulation -----

  /** From t to the inlined table. */
  lemma {:induction false} Forward(t: Table, m: Splices, env: Env, p: nat, f: nat)
    requires Sound(t, env, m) && p <= |t|
    ensures Leads(t, Inlined(t, m), env, p, Place(t, Splicer(m), p), f)
    decreases f, |t| - p, 1
  {
    hide Leads, CallLeads, Run, CallWord, Stands, StraightCode, Straight;
    var r, q := Inlined(t, m), Place(t, Splicer(m), p);
    if p == |t| {
      EndPlaces(t, Splicer(m));
      EndLeads(t, r, env, p, q, f);
    } else {
      var op := t[p];
      CodeAt(t, Splicer(m), p);
      Forward(t, m, env, p + 1, f);
      if op.Call? && op.symbol in m {
        var code := m[op.symbol];
        forall k | 0 <= k < |code| && code[k].Call?
          ensures CallLeads(t, r, env, code[k].symbol, if f == 0 then 0 else f - 1) {
          ForwardCall(t, m, env, code[k].symbol, if f == 0 then 0 else f - 1);
        }
        ForwardOver(t, m, env, p, f);
      } else {
        assert r[q] == op;
        if op.Branch? && f > 0 {
          FramePlace(t, m, Label(op.target));
          Forward(t, m, env, IndexOf(t, Label(op.target)), f - 1);
        }
        if op.Call? {
          ForwardCall(t, m, env, op.symbol, f);
        }
        if op.Assembly? {
          SplicedBlock(t, m, p);
          Forward(t, m, env, p + |AssemblyBlock(t, p)|, f);
        }
        SameStep(t, r, env, p, q, f);
      }
    }
  }

  lemma {:induction false} ForwardCall(t: Table, m: Splices, env: Env, s: Symbol, f: nat)
    requires Sound(t, env, m)
    ensures CallLeads(t, Inlined(t, m), env, s, f)
    decreases f, 0, 0
  {
    hide Leads, CallLeads, Run, CallWord, Stands, StraightCode, Straight;
    var r, d := Inlined(t, m), IndexOf(t, Define(s));
    FramePlace(t, m, Define(s));
    EndPlaces(t, Splicer(m));
    if d < |t| {
      CodeAt(t, Splicer(m), d);
      if f > 0 {
        Forward(t, m, env, d + 1, f - 1);
      }
    }
    EntryLeads(t, r, env, s, f);
  }

  /** The spliced code sits after a no-op at the place of the call. */
  lemma SplicedRun(t: Table, m: Splices, env: Env, p: nat, st: State, f: nat)
    requires p < |t| && t[p].Call? && t[p].symbol in m && StraightCode(m[t[p].symbol])
    ensures var r := Inlined(t, m); var o := Straight(r, env, m[t[p].symbol], st, f);
      && Place(t, Splicer(m), p) < |r|
      && Run(r, env, Place(t, Splicer(m), p), st, f) ==
           if o.Done? then Run(r, env, Place(t, Splicer(m), p + 1), o.state, f) else o
  {
    hide Straight, StraightCode, Expanded, Place, CallWord;
    CodeAt(t, Splicer(m), p);
    var r, q, code := Inlined(t, m), Place(t, Splicer(m), p), m[t[p].symbol];
    assert r[q] == NoOp;
    forall k | 0 <= k < |code| ensures r[q + 1 + k] == code[k] {
      assert r[q + (k + 1)] == Splice(m, t[p])[k + 1];
    }
    StraightInTable(r, env, q + 1, code, st, f);
  }

  lemma ForwardOver(t: Table, m: Splices, env: Env, p: nat, f: nat)
    requires Sound(t, env, m) && p < |t| && t[p].Call? && t[p].symbol in m
    requires Leads(t, Inlined(t, m), env, p + 1, Place(t, Splicer(m), p + 1), f)
    requires forall k :: 0 <= k < |m[t[p].symbol]| && m[t[p].symbol][k].Call? ==>
      CallLeads(t, Inlined(t, m), env, m[t[p].symbol][k].symbol, if f == 0 then 0 else f - 1)
    ensures Leads(t, Inlined(t, m), env, p, Place(t, Splicer(m), p), f)
  {
    hide CallWord, CallLeads, Straight, StraightCode;
    var r, q, s := Inlined(t, m), Place(t, Splicer(m), p), t[p].symbol;
    var less := if f == 0 then 0 else f - 1;
    forall st ensures Reaches(r, env, q, st, Run(t, env, p, st, f)) {
      var o := Run(t, env, p, st, f);
      var reply := CallWord(t, env, s, st, f);
      if o != Timeout {
        assert Stands(t, env, s, m[s]);
        assert Straight(t, env, m[s], st, less) == reply;
        StraightLeads(t, r, env, m[s], st, less);
        var g: nat :| Straight(r, env, m[s], st, g) == reply;
        if reply.Done? {
          assert Reaches(r, env, Place(t, Splicer(m), p + 1), reply.state, Run(t, env, p + 1, reply.state, f));
          var h := ReachesWith(r, env, Place(t, Splicer(m), p + 1), reply.state, o, g);
          StraightMonotone(r, env, m[s], st, g, h);
          SplicedRun(t, m, env, p, st, h);
          assert Run(r, env, q, st, h) == o;
        } else {
          SplicedRun(t, m, env, p, st, g);
          assert Run(r, env, q, st, g) == o;
        }
      }
    }
  }

  /** From the inlined table back to t. */
  lemma {:induction false} Backward(t: Table, m: Splices, env: Env, p: nat, f: nat)
    requires Sound(t, env, m) && p <= |t|
    ensures Leads(Inlined(t, m), t, env, Place(t, Splicer(m), p), p, f)
    decreases f, |t| - p, 1
  {
    hide Leads, CallLeads, Run, CallWord, Stands, StraightCode, Straight;
    var r, q := Inlined(t, m), Place(t, Splicer(m), p);
    if p == |t| {
      EndPlaces(t, Splicer(m));
      EndLeads(r, t, env, q, p, f);
    } else {
      var op := t[p];
      CodeAt(t, Splicer(m), p);
      Backward(t, m, env, p + 1, f);
      if op.Call? && op.symbol in m {
        var code := m[op.symbol];
        forall k | 0 <= k < |code| && code[k].Call? ensures CallLeads(r, t, env, code[k].symbol, f) {
          BackwardCall(t, m, env, code[k].symbol, f);
        }
        BackwardOver(t, m, env, p, f);
      } else {
        assert r[q] == op;
        if op.Branch? && f > 0 {
          FramePlace(t, m, Label(op.target));
          Backward(t, m, env, IndexOf(t, Label(op.target)), f - 1);
        }
        if op.Call? {
          BackwardCall(t, m, env, op.symbol, f);
        }
        if op.Assembly? {
          SplicedBlock(t, m, p);
          Backward(t, m, env, p + |AssemblyBlock(t, p)|, f);
        }
        SameStep(r, t, env, q, p, f);
      }
    }
  }

  lemma {:induction false} BackwardCall(t: Table, m: Splices, env: Env, s: Symbol, f: nat)
    requires Sound(t, env, m)
    ensures CallLeads(Inlined(t, m), t, env, s, f)
    decreases f, 0, 0
  {
    hide Leads, CallLeads, Run, CallWord, Stands, StraightCode, Straight;
    var r, d := Inlined(t, m), IndexOf(t, Define(s));
    FramePlace(t, m, Define(s));
    EndPlaces(t, Splicer(m));
    if d < |t| {
      CodeAt(t, Splicer(m), d);
      if f > 0 {
        Backward(t, m, env, d + 1, f - 1);
      }
    }
    EntryLeads(r, t, env, s, f);
  }

  lemma BackwardOver(t: Table, m: Splices, env: Env, p: nat, f: nat)
    requires Sound(t, env, m) && p < |t| && t[p].Call? && t[p].symbol in m
    requires Leads(Inlined(t, m), t, env, Place(t, Splicer(m), p + 1), p + 1, f)
    requires forall k :: 0 <= k < |m[t[p].symbol]| && m[t[p].symbol][k].Call? ==>
      CallLeads(Inlined(t, m), t, env, m[t[p].symbol][k].symbol, f)
    ensures Leads(Inlined(t, m), t, env, Place(t, Splicer(m), p), p, f)
  {
    hide CallWord, CallLeads, Straight, StraightCode;
    var r, q, s := Inlined(t, m), Place(t, Splicer(m), p), t[p].symbol;
    forall st ensures Reaches(t, env, p, st, Run(r, env, q, st, f)) {
      var o := Run(r, env, q, st, f);
      SplicedRun(t, m, env, p, st, f);
      var reply := Straight(r, env, m[s], st, f);
      if o != Timeout {
        StraightLeads(r, t, env, m[s], st, f);
        var g: nat :| Straight(t, env, m[s], st, g) == reply;
        assert Stands(t, env, s, m[s]);
        assert CallReaches(t, env, s, st, Straight(t, env, m[s], st, g));
        if reply.Done? {
          assert Reaches(t, env, p + 1, reply.state, Run(r, env, Place(t, Splicer(m), p + 1), reply.state, f));
        }
        CallThenReaches(t, env, p, s, st, reply, o);
      }
    }
  }

  lemma InlinedEquivalent(t: Table, m: Splices, env: Env)
    requires Sound(t, env, m)
    ensures Equivalent(t, Inlined(t, m), env)
  {
    var r := Inlined(t, m);
    forall s, f: nat ensures CallLeads(t, r, env, s, f) && CallLeads(r, t, env, s, f) {
      ForwardCall(t, m, env, s, f);
      BackwardCall(t, m, env, s, f);
    }
  }
}
