/** The words whose calls are replaced by code: the booleans of the library, and
    small words of the table without branches or assembler. */
module SmallWords {
  import opened Cells
  import opened Machine
  import opened Shape
  import opened Simulation
  import opened Inlining

  // ----- true and false -----

  const MANGLED_TRUE: Symbol := "v4_true"
  const MANGLED_FALSE: Symbol := "v4_false"

  function LoadAndPush(v: int): Table {
    [LoadValue(R0, v), Push(R0, DataStack)]
  }

  function BooleanSplices(): Splices {
    map[MANGLED_TRUE := LoadAndPush(-1), MANGLED_FALSE := LoadAndPush(0)]
  }

  /** The words TRUE and FALSE mean what they mean in the runtime library:
      each is compiled from a single literal. */
  ghost predicate LibraryBooleans(t: Table, env: Env) {
    && (forall st :: CallReaches(t, env, MANGLED_TRUE, st, Literal(st, -1)))
    && (forall st :: CallReaches(t, env, MANGLED_FALSE, st, Literal(st, 0)))
  }

  function Literal(st: State, v: int): Outcome {
    Done(PushOn(st.SetReg(R0, Wrap(v)), DataStack, Wrap(v)))
  }

  lemma LiteralCode(t: Table, env: Env, st: State, v: int, f: nat)
    ensures Straight(t, env, LoadAndPush(v), st, f) == Literal(st, v)
  {
    var code, loaded := LoadAndPush(v), st.SetReg(R0, Wrap(v));
    assert code[1..] == [Push(R0, DataStack)] && code[1..][1..] == [];
    assert StraightOne(t, env, code[0], st, f) == Done(loaded);
    assert StraightOne(t, env, code[1..][0], loaded, f) == Literal(st, v);
    assert Straight(t, env, code[1..], loaded, f) == Literal(st, v);
  }

  lemma LiteralStands(t: Table, env: Env, s: Symbol, v: int)
    requires forall st :: CallReaches(t, env, s, st, Literal(st, v))
    ensures Stands(t, env, s, LoadAndPush(v))
  {
    var code := LoadAndPush(v);
    forall st, f: nat ensures Straight(t, env, code, st, f) == Literal(st, v) {
      LiteralCode(t, env, st, v, f);
    }
    forall st, f: nat | CallWord(t, env, s, st, f) != Timeout
      ensures CallWord(t, env, s, st, f) == Literal(st, v) {
      assert CallReaches(t, env, s, st, Literal(st, v));
      var g: nat :| CallWord(t, env, s, st, g) == Literal(st, v);
      if f < g { CallMonotone(t, env, s, st, f, g); } else { CallMonotone(t, env, s, st, g, f); }
    }
  }

  lemma BooleansSound(t: Table, env: Env)
    requires LibraryBooleans(t, env)
    ensures Sound(t, env, BooleanSplices())
  {
    LiteralStands(t, env, MANGLED_TRUE, -1);
    LiteralStands(t, env, MANGLED_FALSE, 0);
  }

  // ----- small words -----

  const SMALL_FUNCTION_OPCODE_LIMIT := 10

  /** The first start or end of a definition from position i on, or the length of t. */
  function NextBoundary(t: Table, i: nat): (j: nat)
    requires i <= |t|
    ensures i <= j <= |t|
    ensures forall k :: i <= k < j ==> !t[k].Define? && !t[k].EndDefine?
    ensures j < |t| ==> t[j].Define? || t[j].EndDefine?
    decreases |t| - i
  {
    if i < |t| && !t[i].Define? && !t[i].EndDefine? then NextBoundary(t, i + 1) else i
  }

  /** Everything in t[i..j] but no-ops and labels. */
  function Executables(t: Table, i: nat, j: nat): Table
    requires i <= j <= |t|
    decreases j
  {
    if i == j then []
    else Executables(t, i, j - 1) + if t[j - 1].IsExecutable() then [t[j - 1]] else []
  }

  /** t[d] starts a definition that is closed, has no branches, no assembler
      and not too many executable opcodes. */
  predicate CandidateAt(t: Table, d: nat)
    requires d < |t|
  {
    var e := NextBoundary(t, d + 1);
    && t[d].Define?
    && e < |t| && t[e].EndDefine?
    && (forall k :: d < k < e ==> !t[k].Branch? && !t[k].Assembly?)
    && |Executables(t, d + 1, e)| <= SMALL_FUNCTION_OPCODE_LIMIT
  }

  /** A candidate with something to inline. */
  predicate SmallAt(t: Table, d: nat)
    requires d < |t|
  {
    CandidateAt(t, d) && Executables(t, d + 1, NextBoundary(t, d + 1)) != []
  }

  predicate Small(t: Table, s: Symbol) {
    var d := IndexOf(t, Define(s));
    d < |t| && SmallAt(t, d)
  }

  function Code(t: Table, s: Symbol): Table
    requires Small(t, s)
  {
    var d := IndexOf(t, Define(s));
    Executables(t, d + 1, NextBoundary(t, d + 1))
  }

  function SmallSplices(t: Table): Splices {
    map i | 0 <= i < |t| && t[i].Define? && Small(t, t[i].symbol) :: t[i].symbol := Code(t, t[i].symbol)
  }

  lemma SmallSplicesKeys(t: Table, s: Symbol)
    ensures s in SmallSplices(t) <==> Small(t, s)
    ensures s in SmallSplices(t) ==> SmallSplices(t)[s] == Code(t, s)
  {
    if Small(t, s) {
      assert t[IndexOf(t, Define(s))].symbol == s;
    }
  }

  lemma {:induction false} ExecutablesMembers(t: Table, i: nat, j: nat, k: nat)
    requires i <= j <= |t| && k < |Executables(t, i, j)|
    requires forall n :: i <= n < j ==> !t[n].Branch? && !t[n].Assembly? && !t[n].Define? && !t[n].EndDefine?
    ensures IsStraight(Executables(t, i, j)[k])
    decreases j
  {
    if k < |Executables(t, i, j - 1)| {
      ExecutablesMembers(t, i, j - 1, k);
    }
  }

  lemma SmallIsStraight(t: Table, s: Symbol)
    requires Small(t, s)
    ensures StraightCode(Code(t, s))
  {
    var d := IndexOf(t, Define(s));
    forall k | 0 <= k < |Code(t, s)| ensures IsStraight(Code(t, s)[k]) {
      ExecutablesMembers(t, d + 1, NextBoundary(t, d + 1), k);
    }
  }

  lemma {:induction false} StraightAppend(t: Table, env: Env, a: Table, b: Table, st: State, f: nat)
    requires StraightCode(a) && StraightCode(b) && StraightCode(a + b)
    ensures var o := Straight(t, env, a, st, f);
      Straight(t, env, a + b, st, f) == if o.Done? then Straight(t, env, b, o.state, f) else o
    decreases |a|
  {
    if a == [] {
      assert a + b == b;
    } else {
      assert (a + b)[1..] == a[1..] + b;
      var reply := StraightOne(t, env, a[0], st, f);
      if reply.Done? {
        StraightAppend(t, env, a[1..], b, reply.state, f);
      }
    }
  }

  /** Running t over a branch-free stretch is running its executable opcodes. */
  lemma {:induction false} StretchRun(t: Table, env: Env, i: nat, j: nat, st: State, f: nat)
    requires i <= j <= |t| && StraightCode(Executables(t, i, j))
    requires forall n :: i <= n < j ==> !t[n].Branch? && !t[n].Assembly? && !t[n].Define? && !t[n].EndDefine?
    ensures var o := Straight(t, env, Executables(t, i, j), st, f);
      Run(t, env, i, st, f) == if o.Done? then Run(t, env, j, o.state, f) else o
    decreases j
  {
    hide StraightCode;
    if i < j {
      var front := Executables(t, i, j - 1);
      var last := if t[j - 1].IsExecutable() then [t[j - 1]] else [];
      StraightParts(front, last);
      StretchRun(t, env, i, j - 1, st, f);
      StraightAppend(t, env, front, last, st, f);
      var o := Straight(t, env, front, st, f);
      if o.Done? && last != [] {
        assert last[1..] == [];
      }
    }
  }

  lemma StraightParts(a: Table, b: Table)
    requires StraightCode(a + b)
    ensures StraightCode(a) && StraightCode(b)
  {
    forall k | 0 <= k < |a| ensures IsStraight(a[k]) { assert (a + b)[k] == a[k]; }
    forall k | 0 <= k < |b| ensures IsStraight(b[k]) { assert (a + b)[|a| + k] == b[k]; }
  }

  lemma SmallStands(t: Table, env: Env, s: Symbol)
    requires Small(t, s)
    ensures Stands(t, env, s, Code(t, s))
  {
    hide Straight;
    SmallIsStraight(t, s);
    var d := IndexOf(t, Define(s));
    var e := NextBoundary(t, d + 1);
    forall st, f: nat
      ensures CallWord(t, env, s, st, f) == if f == 0 then Timeout else Straight(t, env, Code(t, s), st, f - 1) {
      if f > 0 {
        StretchRun(t, env, d + 1, e, st, f - 1);
      }
    }
    forall st, f: nat ensures CallReaches(t, env, s, st, Straight(t, env, Code(t, s), st, f)) {
      assert CallWord(t, env, s, st, f + 1) == Straight(t, env, Code(t, s), st, f);
    }
  }

  // ----- which words are small, read off the table -----

  /** t[d] starts a definition of s and t[e] ends it. */
  predicate Defines(t: Table, s: Symbol, d: nat, e: nat) {
    && d < e < |t| && t[d] == Define(s) && t[e].EndDefine?
    && forall k :: d < k < e ==> !t[k].Define? && !t[k].EndDefine?
  }

  /** The positions between d and e that hold something to execute. */
  function ExecutableAt(t: Table, d: nat, e: nat): set<nat>
    requires e <= |t|
  {
    set k: nat | d < k < e && !t[k].NoOp? && !t[k].Label?
  }

  /** code holds what is to be executed between d and e, in order: its k-th opcode
      stands at position places[k]. */
  ghost predicate InOrder(t: Table, d: nat, e: nat, code: Table, places: seq<nat>)
    requires e <= |t|
  {
    && |places| == |code|
    && (forall k :: 0 <= k < |places| ==> places[k] < e && t[places[k]] == code[k])
    && (forall j, k :: 0 <= j < k < |places| ==> places[j] < places[k])
    && (forall p :: p in places <==> p in ExecutableAt(t, d, e))
  }

  /** One position more. */
  lemma OneMorePlace(t: Table, d: nat, e: nat)
    requires d < e < |t|
    ensures e !in ExecutableAt(t, d, e)
    ensures ExecutableAt(t, d, e + 1) == ExecutableAt(t, d, e) + if t[e].IsExecutable() then {e} else {}
    ensures |ExecutableAt(t, d, e + 1)| == |ExecutableAt(t, d, e)| + if t[e].IsExecutable() then 1 else 0
  {
  }

  lemma OneMore(t: Table, d: nat, e: nat, code: Table, places: seq<nat>)
    requires d < e < |t| && InOrder(t, d, e, code, places)
    ensures if t[e].IsExecutable() then InOrder(t, d, e + 1, code + [t[e]], places + [e])
      else InOrder(t, d, e + 1, code, places)
  {
    OneMorePlace(t, d, e);
    hide ExecutableAt;
    assert e in places + [e] && (places + [e])[|places|] == e;
  }

  lemma {:induction false} ExecutablesInOrder(t: Table, d: nat, e: nat) returns (places: seq<nat>)
    requires d < e <= |t|
    ensures InOrder(t, d, e, Executables(t, d + 1, e), places)
    ensures |Executables(t, d + 1, e)| == |ExecutableAt(t, d, e)|
    decreases e
  {
    hide InOrder, ExecutableAt;
    if d + 1 == e {
      places := [];
      NoneYet(t, d);
    } else {
      places := ExecutablesInOrder(t, d, e - 1);
      var code := Executables(t, d + 1, e - 1);
      OneMorePlace(t, d, e - 1);
      OneMore(t, d, e - 1, code, places);
      assert code + [] == code;
      if t[e - 1].IsExecutable() {
        places := places + [e - 1];
      }
    }
  }

  lemma NoneYet(t: Table, d: nat)
    requires d < |t|
    ensures ExecutableAt(t, d, d + 1) == {} && InOrder(t, d, d + 1, [], [])
  {
  }

  lemma BoundaryIs(t: Table, i: nat, e: nat)
    requires i <= e < |t| && (t[e].Define? || t[e].EndDefine?)
    requires forall k :: i <= k < e ==> !t[k].Define? && !t[k].EndDefine?
    ensures NextBoundary(t, i) == e
  {
  }

  /** A word is inlined exactly when its definition has neither branches nor
      assembler and between one and ten opcodes to execute, and then as those opcodes
      in order. */
  lemma SmallDefined(t: Table, s: Symbol, d: nat, e: nat) returns (places: seq<nat>)
    requires Once(t, Define(s)) && Defines(t, s, d, e)
    ensures s in SmallSplices(t) <==>
      1 <= |ExecutableAt(t, d, e)| <= 10 && forall k :: d < k < e ==> !t[k].Branch? && !t[k].Assembly?
    ensures s in SmallSplices(t) ==> InOrder(t, d, e, SmallSplices(t)[s], places)
  {
    hide SmallSplices, ExecutableAt, InOrder, Executables;
    IndexOfOnce(t, Define(s), d);
    BoundaryIs(t, d + 1, e);
    SmallSplicesKeys(t, s);
    places := ExecutablesInOrder(t, d, e);
  }

  /** Only words that are defined are inlined. */
  lemma SmallIsDefined(t: Table, s: Symbol) returns (d: nat, e: nat)
    requires s in SmallSplices(t)
    ensures Defines(t, s, d, e)
  {
    hide Executables, SmallSplices;
    SmallSplicesKeys(t, s);
    d := IndexOf(t, Define(s));
    e := NextBoundary(t, d + 1);
  }

  lemma SmallWordsSound(t: Table, env: Env)
    ensures Sound(t, env, SmallSplices(t))
  {
    forall s | s in SmallSplices(t) ensures StraightCode(SmallSplices(t)[s]) && Stands(t, env, s, SmallSplices(t)[s]) {
      SmallSplicesKeys(t, s);
      SmallIsStraight(t, s);
      SmallStands(t, env, s);
    }
  }
}
