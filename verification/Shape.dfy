/** The shape of table that the parser and the main synthesizer leave behind. */
module Shape {
  import opened Machine

  /** Position i lies after a Define and up to its EndDefine. */
  predicate Inside(t: Table, i: nat)
    requires i <= |t|
  {
    i > 0 && (t[i - 1].Define? || (!t[i - 1].EndDefine? && Inside(t, i - 1)))
  }

  /** Every opcode sits in exactly one definition, and each definition is closed. */
  ghost predicate Bracketed(t: Table) {
    && (forall i {:trigger Inside(t, i)} :: 0 <= i < |t| ==> (t[i].Define? <==> !Inside(t, i)))
    && !Inside(t, |t|)
  }

  /** op occurs at most once. */
  ghost predicate Once(t: Table, op: Opcode) {
    multiset(t)[op] <= 1
  }

  ghost predicate UniqueLabels(t: Table) {
    forall n :: Once(t, Label(n))
  }

  ghost predicate UniqueDefines(t: Table) {
    forall s :: Once(t, Define(s))
  }

  /** Some branch names label n. */
  ghost predicate Used(t: Table, n: int) {
    exists i :: 0 <= i < |t| && t[i].Branch? && t[i].target == n
  }

  ghost predicate TargetsExist(t: Table) {
    forall i :: 0 <= i < |t| && t[i].Branch? ==> Label(t[i].target) in t
  }

  /** Assembler only comes at the start of a definition. */
  ghost predicate AssemblyLeads(t: Table) {
    forall i :: 0 <= i < |t| && t[i].Assembly? ==> i > 0 && (t[i - 1].Define? || t[i - 1].Assembly?)
  }

  ghost predicate WellFormed(t: Table) {
    Bracketed(t) && UniqueLabels(t) && UniqueDefines(t) && TargetsExist(t) && AssemblyLeads(t)
  }

  // ----- branches inside definitions -----

  predicate Unmarked(op: Opcode) {
    !op.Define? && !op.EndDefine?
  }

  /** Branches of a definition stay inside it. */
  ghost predicate StaysInside(t: Table, i: nat)
    requires i < |t| && t[i].Branch?
  {
    exists j :: 0 <= j < |t| && t[j] == Label(t[i].target) && Unbroken(t, i, j)
  }

  /** No definition starts or ends between i and j. */
  ghost predicate Unbroken(t: Table, i: nat, j: nat) {
    i < |t| && j < |t| && forall k :: 0 <= k < |t| && (i <= k <= j || j <= k <= i) ==> Unmarked(t[k])
  }

  ghost predicate BranchesStay(t: Table) {
    forall i :: 0 <= i < |t| && t[i].Branch? ==> StaysInside(t, i)
  }

  // ----- finding opcodes -----

  lemma OccursTwice(t: Table, op: Opcode, j: nat, i: nat)
    requires j < i < |t| && t[j] == op && t[i] == op
    ensures multiset(t)[op] >= 2
  {
    assert t == t[..i] + t[i..] && t[..i][j] == op && t[i..][0] == op;
  }

  /** A unique opcode is found where it is. */
  lemma IndexOfOnce(t: Table, op: Opcode, i: nat)
    requires i < |t| && t[i] == op && Once(t, op)
    ensures IndexOf(t, op) == i
  {
    var j := IndexOf(t, op);
    if j < i {
      OccursTwice(t, op, j, i);
    }
  }

  /** IndexOf depends only on where op is. */
  lemma SameIndex(x: Table, y: Table, op: Opcode)
    requires |x| == |y|
    requires forall i :: 0 <= i < |x| ==> (x[i] == op <==> y[i] == op)
    ensures IndexOf(x, op) == IndexOf(y, op)
  {
    var i, j := IndexOf(x, op), IndexOf(y, op);

  }

  /** AssemblyBlock depends only on the assembler. */
  lemma SameBlock(x: Table, y: Table, p: nat)
    requires p <= |x| && |x| == |y|
    requires forall i :: 0 <= i < |x| ==> (x[i].Assembly? || y[i].Assembly? ==> x[i] == y[i])
    ensures AssemblyBlock(x, p) == AssemblyBlock(y, p)
    decreases |x| - p
  {
    if p < |x| && x[p].Assembly? {
      SameBlock(x, y, p + 1);
    }
  }

  /** Labels, definition starts and assembler are at the same places. */
  ghost predicate SameFrame(x: Table, y: Table) {
    && |x| == |y|
    && (forall i :: 0 <= i < |x| && (IsFrame(x[i]) || IsFrame(y[i])) ==> x[i] == y[i])
  }

  predicate IsFrame(op: Opcode) {
    op.Label? || op.Define? || op.Assembly?
  }

  lemma SameFrameLemma(x: Table, y: Table, op: Opcode, p: nat)
    requires SameFrame(x, y) && IsFrame(op) && p <= |x|
    ensures IndexOf(x, op) == IndexOf(y, op)
    ensures AssemblyBlock(x, p) == AssemblyBlock(y, p)
  {
    SameIndex(x, y, op);
    SameBlock(x, y, p);
  }

  /** The first position from i on that does not hold a no-op, or the length of t. */
  function NextReal(t: Table, i: nat): (j: nat)
    requires i <= |t|
    ensures i <= j <= |t|
    ensures forall k :: i <= k < j ==> t[k] == NoOp
    ensures j < |t| ==> t[j] != NoOp
    decreases |t| - i
  {
    if i < |t| && t[i].NoOp? then NextReal(t, i + 1) else i
  }

  /** t[j] is the first opcode after t[i] that is no no-op. */
  predicate Follows(t: Table, i: nat, j: nat) {
    i < j < |t| && !t[j].NoOp? && forall k :: i < k < j ==> t[k].NoOp?
  }

  lemma NextIs(t: Table, i: nat, j: nat)
    requires Follows(t, i, j)
    ensures NextReal(t, i + 1) == j
  {
  }

  /** No-ops run through to the other side. */
  lemma {:induction false} RunThroughNoOps(x: Table, env: Env, p: nat, j: nat, st: State, f: nat)
    requires p <= j <= |x| && forall k :: p <= k < j ==> x[k].NoOp? || x[k].Label?
    ensures Run(x, env, p, st, f) == Run(x, env, j, st, f)
    decreases j - p
  {
    if p < j {
      RunThroughNoOps(x, env, p + 1, j, st, f);
    }
  }

  /** How many opcodes are not no-ops. */
  function Weight(t: Table): nat {
    if t == [] then 0 else Weight(t[..|t| - 1]) + (if t[|t| - 1].NoOp? then 0 else 1)
  }
}
