/** Relocation of labels that are directly followed by a jump to a later label. */
module Relocation {
  import opened Machine
  import opened Simulation
  import opened Shape
  import opened Expansion

  /** The position of the opcode that follows label v, skipping no-ops. */
  function After(t: Table, v: int): nat
    requires Label(v) in t
  {
    NextReal(t, IndexOf(t, Label(v)) + 1)
  }

  /** Label v is directly followed by a jump to a label with a higher number. */
  predicate Suboptimal(t: Table, v: int) {
    Label(v) in t && After(t, v) < |t| && t[After(t, v)].IsJump() && t[After(t, v)].target > v
  }

  ghost predicate NothingToRelocate(t: Table) {
    forall v :: !Suboptimal(t, v)
  }

  function Forward(t: Table, v: int): int
    requires Suboptimal(t, v)
  {
    t[After(t, v)].target
  }

  function MaxLabel(t: Table): (n: int)
    ensures forall i :: 0 <= i < |t| && t[i].Label? ==> t[i].number <= n
  {
    if t == [] then 0
    else
      var n := MaxLabel(t[1..]);
      if t[0].Label? && t[0].number > n then t[0].number else n
  }

  function MinLabel(t: Table): (n: int)
    ensures forall i :: 0 <= i < |t| && t[i].Label? ==> n <= t[i].number
    ensures n <= MaxLabel(t)
  {
    if t == [] then 0
    else
      var n := MinLabel(t[1..]);
      if t[0].Label? && t[0].number < n then t[0].number else n
  }

  lemma LabelBounds(t: Table, v: int)
    requires Label(v) in t
    ensures MinLabel(t) <= v <= MaxLabel(t)
  {
  }

  /** Where label v finally goes: follow the jumps to the first label that stays. */
  function Final(t: Table, v: int): (w: int)
    ensures !Suboptimal(t, w) && v <= w
    ensures Suboptimal(t, v) ==> v < w
    decreases MaxLabel(t) - v
  {
    if Suboptimal(t, v) then LabelBounds(t, v); Final(t, Forward(t, v)) else v
  }

  /** A label that moves goes where the label it jumps to goes; one that stays is its own end. */
  lemma FinalStep(t: Table, v: int)
    ensures Suboptimal(t, v) ==> v < Forward(t, v) && Final(t, v) == Final(t, Forward(t, v)) && v <= MaxLabel(t)
    ensures !Suboptimal(t, v) ==> Final(t, v) == v
  {
    if Suboptimal(t, v) {
      LabelBounds(t, v);
    }
  }

  /** The labels relocated to label w, in ascending order from lo. */
  function Group(t: Table, w: int, lo: int): Table
    decreases MaxLabel(t) - lo
  {
    if lo > MaxLabel(t) then []
    else (if Suboptimal(t, lo) && Final(t, lo) == w then [Label(lo)] else []) + Group(t, w, lo + 1)
  }

  /** The code for one opcode of t. */
  function Relocate(t: Table, op: Opcode): (code: Table)
    ensures |code| > 0
  {
    if !op.Label? then [op]
    else if Suboptimal(t, op.number) then [NoOp]
    else Group(t, op.number, MinLabel(t)) + [op]
  }

  function Relocator(t: Table): Rewriter {
    (op: Opcode) => Relocate(t, op)
  }

  function Relocated(t: Table): Table {
    Expanded(t, Relocator(t))
  }

  /** A group holds each of its labels once, and nothing else. */
  lemma {:induction false} GroupMembers(t: Table, w: int, lo: int, op: Opcode)
    ensures multiset(Group(t, w, lo))[op] ==
      if op.Label? && lo <= op.number <= MaxLabel(t) && Suboptimal(t, op.number) && Final(t, op.number) == w then 1
        else 0
    decreases MaxLabel(t) - lo
  {
    if lo <= MaxLabel(t) {
      GroupMembers(t, w, lo + 1, op);
    }
  }

  /** Label v turns up exactly in the code for the label it finally goes to. */
  lemma RelocateMembers(t: Table, op: Opcode, moved: Opcode)
    requires moved != NoOp
    ensures multiset(Relocate(t, op))[moved] ==
      if op == (if moved.Label? then Label(Final(t, moved.number)) else moved) then 1 else 0
  {
    if op.Label? {
      GroupMembers(t, op.number, MinLabel(t), moved);
      if moved.Label? && moved in t { LabelBounds(t, moved.number); }
    }
  }

  lemma RelocateOther(t: Table, op: Opcode)
    requires !op.Label?
    ensures Relocator(t)(op) == [op]
  {
  }

  lemma RelocatorKeepsAssembly(t: Table)
    ensures KeepsAssembly(Relocator(t))
  {
    forall op: Opcode, k | 0 <= k < |Relocate(t, op)| ensures Relocate(t, op)[k].Assembly? ==> op.Assembly? {
      if Relocate(t, op)[k] != NoOp { RelocateMembers(t, op, Relocate(t, op)[k]); }
    }
  }

  /** No-ops and labels are all there is in the code for a label. */
  lemma LabelCode(t: Table, v: int, k: nat)
    requires k < |Relocate(t, Label(v))|
    ensures !Relocate(t, Label(v))[k].IsExecutable()
  {
    var moved := Relocate(t, Label(v))[k];
    if moved != NoOp { RelocateMembers(t, Label(v), moved); }
  }

  // ----- where control lands -----

  /** Relocated labels and definitions are found in the code for their final place. */
  lemma Landing(t: Table, op: Opcode) returns (k: nat)
    requires op.Label? || op.Define?
    ensures var home := if op.Label? then Label(Final(t, op.number)) else op;
      var i := IndexOf(t, home);
      && k < |Relocate(t, home)|
      && IndexOf(Relocated(t), op) == Place(t, Relocator(t), i) + if i < |t| then k else 0
  {
    hide Expanded, Place, Relocate, Final;
    var home := if op.Label? then Label(Final(t, op.number)) else op;
    RelocateMembers(t, home, op);
    k := IndexOf(Relocate(t, home), op);
    forall i | 0 <= i < |t| && t[i] != home ensures op !in Relocator(t)(t[i]) {
      RelocateMembers(t, t[i], op);
    }
    MovedIndex(t, Relocator(t), home, op, k);
  }

  /** From anywhere in the code for a label, control runs to the code for what follows. */
  lemma ThroughLabel(t: Table, env: Env, i: nat, k: nat, st: State, f: nat)
    requires i < |t| && t[i].Label? && k < |Relocate(t, t[i])|
    ensures Run(Relocated(t), env, Place(t, Relocator(t), i) + k, st, f)
         == Run(Relocated(t), env, Place(t, Relocator(t), i + 1), st, f)
  {
    hide Run, Expanded, Place, Relocate;
    var e, r := Relocator(t), Relocated(t);
    CodeAt(t, e, i);
    var p := Place(t, e, i);
    forall j | p + k <= j < p + |Relocate(t, t[i])| ensures r[j].NoOp? || r[j].Label? {
      assert r[p + (j - p)] == e(t[i])[j - p];
      LabelCode(t, t[i].number, j - p);
    }
    RunThroughNoOps(r, env, p + k, p + |Relocate(t, t[i])|, st, f);
  }

  /** In t a branch to v is a detour to the label it finally goes to. */
  lemma {:induction false} DetourAhead(t: Table, env: Env, v: int, st: State, f: nat)
    requires TargetsExist(t) && Label(v) in t && Run(t, env, IndexOf(t, Label(v)), st, f) != Timeout
    ensures Label(Final(t, v)) in t
    ensures Run(t, env, IndexOf(t, Label(Final(t, v))), st, f) == Run(t, env, IndexOf(t, Label(v)), st, f)
    decreases MaxLabel(t) - v
  {
    if Suboptimal(t, v) {
      var i, j, w := IndexOf(t, Label(v)), After(t, v), Forward(t, v);
      RunThroughNoOps(t, env, i, j, st, f);
      RunMonotone(t, env, IndexOf(t, Label(w)), st, f - 1, f);
      LabelBounds(t, v);
      DetourAhead(t, env, w, st, f);
    }
  }

  lemma {:induction false} DetourBack(t: Table, env: Env, v: int, st: State, o: Outcome)
    requires TargetsExist(t) && Label(v) in t && Reaches(t, env, IndexOf(t, Label(Final(t, v))), st, o)
    ensures Reaches(t, env, IndexOf(t, Label(v)), st, o)
    decreases MaxLabel(t) - v
  {
    if Suboptimal(t, v) && o != Timeout {
      LabelBounds(t, v);
      DetourBack(t, env, Forward(t, v), st, o);
      OneDetourBack(t, env, v, st, o);
    }
  }

  lemma OneDetourBack(t: Table, env: Env, v: int, st: State, o: Outcome)
    requires Suboptimal(t, v) && o != Timeout && Reaches(t, env, IndexOf(t, Label(Forward(t, v))), st, o)
    ensures Reaches(t, env, IndexOf(t, Label(v)), st, o)
  {
    var i, j, w := IndexOf(t, Label(v)), After(t, v), Forward(t, v);
    var g := ReachesWith(t, env, IndexOf(t, Label(w)), st, o, 0);
    RunThroughNoOps(t, env, i, j, st, g + 1);
    assert Run(t, env, j, st, g + 1) == o;
    assert Run(t, env, i, st, g + 1) == o;
  }

  lemma {:induction false} FinalExists(t: Table, v: int)
    requires TargetsExist(t) && Label(v) in t
    ensures Label(Final(t, v)) in t
    decreases MaxLabel(t) - v
  {
    if Suboptimal(t, v) {
      LabelBounds(t, v);
      FinalExists(t, Forward(t, v));
    }
  }

  // ----- simulation -----

  /** From t to the relocated table. */
  lemma {:induction false} Forwards(t: Table, env: Env, p: nat, f: nat)
    requires TargetsExist(t) && p <= |t|
    ensures Leads(t, Relocated(t), env, p, Place(t, Relocator(t), p), f)
    decreases f, |t| - p, 1
  {
    hide Leads, CallLeads, Run, CallWord, Relocate, Expanded, Place, Final, IndexOf, AssemblyBlock, TargetsExist;
    var e, r := Relocator(t), Relocated(t);
    var q := Place(t, e, p);
    if p == |t| {
      EndPlaces(t, e);
      EndLeads(t, r, env, p, q, f);
    } else {
      var op := t[p];
      CodeAt(t, e, p);
      Forwards(t, env, p + 1, f);
      if op.Label? {
        ForwardsLabel(t, env, p, f);
      } else {
        RelocateOther(t, op);
        if op.Branch? && f > 0 {
          BranchHome(t, op);
          var home := IndexOf(t, Label(Final(t, op.target)));
          Forwards(t, env, home + 1, f - 1);
          ForwardsBranch(t, env, op.target, f - 1);
        }
        if op.Call? {
          ForwardsCall(t, env, op.symbol, f);
        }
        if op.Assembly? {
          RelocatorBlock(t, p);
          Forwards(t, env, p + |AssemblyBlock(t, p)|, f);
        }
        SameStep(t, r, env, p, q, f);
      }
    }
  }

  lemma BranchHome(t: Table, op: Opcode)
    requires TargetsExist(t) && op in t && op.Branch?
    ensures Label(op.target) in t
    ensures IndexOf(t, Label(Final(t, op.target))) < |t|
  {
    FinalExists(t, op.target);
  }

  lemma RelocatorBlock(t: Table, p: nat)
    requires p <= |t|
    ensures Place(t, Relocator(t), p) <= |Relocated(t)|
    ensures AssemblyBlock(Relocated(t), Place(t, Relocator(t), p)) == AssemblyBlock(t, p)
    ensures Place(t, Relocator(t), p + |AssemblyBlock(t, p)|) == Place(t, Relocator(t), p) + |AssemblyBlock(t, p)|
  {
    RelocatorKeepsAssembly(t);
    BlockPlace(t, Relocator(t), p);
  }

  lemma ForwardsLabel(t: Table, env: Env, p: nat, f: nat)
    requires p < |t| && t[p].Label?
    requires Leads(t, Relocated(t), env, p + 1, Place(t, Relocator(t), p + 1), f)
    ensures Leads(t, Relocated(t), env, p, Place(t, Relocator(t), p), f)
  {
    hide Relocated, Place, Relocate;
    var e, r := Relocator(t), Relocated(t);
    forall st ensures Reaches(r, env, Place(t, e, p), st, Run(t, env, p, st, f)) {
      var o := Run(t, env, p, st, f);
      assert Reaches(r, env, Place(t, e, p + 1), st, Run(t, env, p + 1, st, f));
      if o != Timeout {
        var g := ReachesWith(r, env, Place(t, e, p + 1), st, o, 0);
        ThroughLabel(t, env, p, 0, st, g);
        assert Run(r, env, Place(t, e, p), st, g) == o;
      }
    }
  }

  lemma ForwardsBranch(t: Table, env: Env, v: int, f: nat)
    requires TargetsExist(t) && Label(v) in t && IndexOf(t, Label(Final(t, v))) < |t|
    requires var home := IndexOf(t, Label(Final(t, v)));
      Leads(t, Relocated(t), env, home + 1, Place(t, Relocator(t), home + 1), f)
    ensures Leads(t, Relocated(t), env, IndexOf(t, Label(v)), IndexOf(Relocated(t), Label(v)), f)
  {
    hide Relocated, Place, Relocate, Final, TargetsExist;
    var r := Relocated(t);
    var home := IndexOf(t, Label(Final(t, v)));
    var k := Landing(t, Label(v));
    forall st ensures Reaches(r, env, IndexOf(r, Label(v)), st, Run(t, env, IndexOf(t, Label(v)), st, f)) {
      var o := Run(t, env, IndexOf(t, Label(v)), st, f);
      if o != Timeout {
        DetourAhead(t, env, v, st, f);
        assert o == Run(t, env, home + 1, st, f);
        assert Reaches(r, env, Place(t, Relocator(t), home + 1), st, o);
        var g := ReachesWith(r, env, Place(t, Relocator(t), home + 1), st, o, 0);
        ThroughLabel(t, env, home, k, st, g);
        assert Run(r, env, IndexOf(r, Label(v)), st, g) == o;
      }
    }
  }

  lemma {:induction false} ForwardsCall(t: Table, env: Env, s: Symbol, f: nat)
    requires TargetsExist(t)
    ensures CallLeads(t, Relocated(t), env, s, f)
    decreases f, 0, 0
  {
    hide Leads, CallLeads, Run, CallWord, Relocate, Expanded, Place, Final;
    var d := DefinePlace(t, s);
    if d < |t| && f > 0 {
      Forwards(t, env, d + 1, f - 1);
    }
    EntryLeads(t, Relocated(t), env, s, f);
  }

  lemma DefinePlace(t: Table, s: Symbol) returns (d: nat)
    ensures d == IndexOf(t, Define(s))
    ensures d == |t| ==> IndexOf(Relocated(t), Define(s)) == |Relocated(t)|
    ensures d < |t| ==>
      && IndexOf(Relocated(t), Define(s)) < |Relocated(t)|
      && IndexOf(Relocated(t), Define(s)) + 1 == Place(t, Relocator(t), d + 1)
  {
    hide Expanded, Place;
    d := IndexOf(t, Define(s));
    var k := Landing(t, Define(s));
    EndPlaces(t, Relocator(t));
    if d < |t| {
      CodeAt(t, Relocator(t), d);
    }
  }

  /** From the relocated table back to t. */
  lemma {:induction false} Backwards(t: Table, env: Env, p: nat, f: nat)
    requires TargetsExist(t) && p <= |t|
    ensures Leads(Relocated(t), t, env, Place(t, Relocator(t), p), p, f)
    decreases f, |t| - p, 1
  {
    hide Leads, CallLeads, Run, CallWord, Relocate, Expanded, Place, Final, IndexOf, AssemblyBlock, TargetsExist;
    var e, r := Relocator(t), Relocated(t);
    var q := Place(t, e, p);
    if p == |t| {
      EndPlaces(t, e);
      EndLeads(r, t, env, q, p, f);
    } else {
      var op := t[p];
      CodeAt(t, e, p);
      Backwards(t, env, p + 1, f);
      if op.Label? {
        BackwardsLabel(t, env, p, f);
      } else {
        RelocateOther(t, op);
        if op.Branch? && f > 0 {
          BranchHome(t, op);
          var home := IndexOf(t, Label(Final(t, op.target)));
          Backwards(t, env, home + 1, f - 1);
          BackwardsBranch(t, env, op.target, f - 1);
        }
        if op.Call? {
          BackwardsCall(t, env, op.symbol, f);
        }
        if op.Assembly? {
          RelocatorBlock(t, p);
          Backwards(t, env, p + |AssemblyBlock(t, p)|, f);
        }
        SameStep(r, t, env, q, p, f);
      }
    }
  }

  lemma BackwardsLabel(t: Table, env: Env, p: nat, f: nat)
    requires p < |t| && t[p].Label?
    requires Leads(Relocated(t), t, env, Place(t, Relocator(t), p + 1), p + 1, f)
    ensures Leads(Relocated(t), t, env, Place(t, Relocator(t), p), p, f)
  {
    hide Relocated, Place, Relocate;
    var e, r := Relocator(t), Relocated(t);
    forall st ensures Reaches(t, env, p, st, Run(r, env, Place(t, e, p), st, f)) {
      var o := Run(r, env, Place(t, e, p), st, f);
      ThroughLabel(t, env, p, 0, st, f);
      assert Reaches(t, env, p + 1, st, Run(r, env, Place(t, e, p + 1), st, f));
      if o != Timeout {
        var g := ReachesWith(t, env, p + 1, st, o, 0);
        assert Run(t, env, p, st, g) == o;
      }
    }
  }

  lemma BackwardsBranch(t: Table, env: Env, v: int, f: nat)
    requires TargetsExist(t) && Label(v) in t && IndexOf(t, Label(Final(t, v))) < |t|
    requires var home := IndexOf(t, Label(Final(t, v)));
      Leads(Relocated(t), t, env, Place(t, Relocator(t), home + 1), home + 1, f)
    ensures Leads(Relocated(t), t, env, IndexOf(Relocated(t), Label(v)), IndexOf(t, Label(v)), f)
  {
    hide Relocated, Place, Relocate, Final, Reaches, Run;
    var r := Relocated(t);
    forall st ensures Reaches(t, env, IndexOf(t, Label(v)), st, Run(r, env, IndexOf(r, Label(v)), st, f)) {
      BackwardsFrom(t, env, v, f, st);
    }
  }

  lemma BackwardsFrom(t: Table, env: Env, v: int, f: nat, st: State)
    requires TargetsExist(t) && Label(v) in t && IndexOf(t, Label(Final(t, v))) < |t|
    requires var home := IndexOf(t, Label(Final(t, v)));
      Leads(Relocated(t), t, env, Place(t, Relocator(t), home + 1), home + 1, f)
    ensures Reaches(t, env, IndexOf(t, Label(v)), st, Run(Relocated(t), env, IndexOf(Relocated(t), Label(v)), st, f))
  {
    hide Relocated, Place, Relocate, Final, Run, TargetsExist;
    var r := Relocated(t);
    var home := IndexOf(t, Label(Final(t, v)));
    var k := Landing(t, Label(v));
    hide IndexOf;
    var o := Run(r, env, IndexOf(r, Label(v)), st, f);
    ThroughLabel(t, env, home, k, st, f);
    assert Reaches(t, env, home + 1, st, o);
    if o != Timeout {
      var g := ReachesWith(t, env, home + 1, st, o, 0);
      OverLabel(t, env, home, st, g);
    }
    DetourBack(t, env, v, st, o);
  }

  lemma OverLabel(t: Table, env: Env, p: nat, st: State, g: nat)
    requires p < |t| && t[p].Label?
    ensures Run(t, env, p, st, g) == Run(t, env, p + 1, st, g)
  {
  }

  lemma {:induction false} BackwardsCall(t: Table, env: Env, s: Symbol, f: nat)
    requires TargetsExist(t)
    ensures CallLeads(Relocated(t), t, env, s, f)
    decreases f, 0, 0
  {
    hide Leads, CallLeads, Run, CallWord, Relocate, Expanded, Place, Final;
    var d := DefinePlace(t, s);
    if d < |t| && f > 0 {
      Backwards(t, env, d + 1, f - 1);
    }
    EntryLeads(Relocated(t), t, env, s, f);
  }

  lemma RelocatedEquivalent(t: Table, env: Env)
    requires TargetsExist(t)
    ensures Equivalent(t, Relocated(t), env)
  {
    var r := Relocated(t);
    forall s, f: nat ensures CallLeads(t, r, env, s, f) && CallLeads(r, t, env, s, f) {
      ForwardsCall(t, env, s, f);
      BackwardsCall(t, env, s, f);
    }
  }
}
