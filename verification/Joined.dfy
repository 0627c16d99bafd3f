/** The shape of a row of definitions. */
module Joined {
  import opened Machine
  import opened Shape
  import opened Stepping
  import opened Statements
  import opened Layout
  import opened Elements
  import opened Definitions

  // ----- one table after another -----

  lemma {:induction false} InsidePrefix(p: Table, q: Table, i: nat)
    requires i <= |p|
    ensures Inside(p + q, i) == Inside(p, i)
  {
    if i > 0 {
      InsidePrefix(p, q, i - 1);
    }
  }

  lemma {:induction false} InsideShift(p: Table, q: Table, i: nat)
    requires i <= |q| && !Inside(p, |p|)
    ensures Inside(p + q, |p| + i) == Inside(q, i)
  {
    if i > 0 {
      InsideShift(p, q, i - 1);
    } else {
      InsidePrefix(p, q, |p|);
    }
  }

  lemma BracketedThen(p: Table, q: Table)
    requires Bracketed(p) && Bracketed(q)
    ensures Bracketed(p + q)
  {
    hide Inside;
    var t := p + q;
    forall i | 0 <= i < |t| ensures t[i].Define? <==> !Inside(t, i) {
      if i < |p| {
        InsidePrefix(p, q, i);
      } else {
        InsideShift(p, q, i - |p|);
        assert t[i] == q[i - |p|];
      }
    }
    InsideShift(p, q, |q|);
  }

  lemma AssemblyLeadsThen(p: Table, q: Table)
    requires AssemblyLeads(p) && AssemblyLeads(q)
    ensures AssemblyLeads(p + q)
  {
    var t := p + q;
    forall i | 0 <= i < |t| && t[i].Assembly? ensures i > 0 && (t[i - 1].Define? || t[i - 1].Assembly?) {
      if i >= |p| {
        assert t[i] == q[i - |p|];
      }
    }
  }

  lemma BranchesStayThen(p: Table, q: Table)
    requires BranchesStay(p) && BranchesStay(q)
    ensures BranchesStay(p + q)
  {
    var t := p + q;
    forall i | 0 <= i < |t| && t[i].Branch? ensures StaysInside(t, i) {
      if i < |p| {
        assert StaysInside(p, i);
        var j :| 0 <= j < |p| && p[j] == Label(p[i].target) && Unbroken(p, i, j);
        assert t[j] == p[j] && Unbroken(t, i, j);
      } else {
        assert StaysInside(q, i - |p|);
        var j :| 0 <= j < |q| && q[j] == Label(q[i - |p|].target) && Unbroken(q, i - |p|, j);
        UnbrokenShift(p, q, i - |p|, j);
        assert t[|p| + j] == q[j];
      }
    }
  }

  lemma UnbrokenShift(p: Table, q: Table, i: nat, j: nat)
    requires Unbroken(q, i, j)
    ensures Unbroken(p + q, |p| + i, |p| + j)
  {
    var t := p + q;
    forall k | 0 <= k < |t| && (|p| + i <= k <= |p| + j || |p| + j <= k <= |p| + i) ensures Unmarked(t[k]) {
      assert t[k] == q[k - |p|];
    }
  }

  // ----- one definition -----

  /** The labels that the statements of a definition branch to are their own. */
  predicate ExitsHere(content: Content) {
    content.Body? ==> content.c.breakLabel.None?
  }

  lemma BlockOps(b: Block, i: nat)
    requires i < |BlockCode(b)|
    ensures i == 0 ==> BlockCode(b)[i] == Define(b.name)
    ensures i == |BlockCode(b)| - 1 ==> BlockCode(b)[i] == EndDefine(b.name)
    ensures 0 < i < |BlockCode(b)| - 1 ==>
      BlockCode(b)[i] == InnerCode(b.content)[i - 1] && Unmarked(BlockCode(b)[i])
  {
    hide InnerCode;
    var t := BlockCode(b);
    if 0 < i < |t| - 1 {
      assert t[i] == InnerCode(b.content)[i - 1];
      InnerUnmarked(b.content, t[i]);
    }
  }

  lemma BlockInside(b: Block, i: nat)
    requires i < |BlockCode(b)|
    ensures Inside(BlockCode(b), i) <==> i > 0
  {
    hide BlockCode;
    if i > 0 {
      BlockInside(b, i - 1);
      BlockOps(b, i - 1);
    }
  }

  lemma BlockBracketed(b: Block)
    ensures Bracketed(BlockCode(b))
  {
    hide BlockCode, Inside;
    var t := BlockCode(b);
    BlockLength(b);
    forall i | 0 <= i < |t| ensures t[i].Define? <==> !Inside(t, i) {
      BlockOps(b, i);
      BlockInside(b, i);
    }
    BlockOps(b, |t| - 1);
    EndLeaves(t);
  }

  lemma BlockLength(b: Block)
    ensures |BlockCode(b)| == |InnerCode(b.content)| + 2
  {
  }

  lemma EndLeaves(t: Table)
    requires t != [] && t[|t| - 1].EndDefine?
    ensures !Inside(t, |t|)
  {
  }

  lemma BlockAssembly(b: Block)
    ensures AssemblyLeads(BlockCode(b))
  {
    hide Code;
    var t := BlockCode(b);
    forall i | 0 <= i < |t| && t[i].Assembly? ensures i > 0 && (t[i - 1].Define? || t[i - 1].Assembly?) {
      BlockOps(b, i);
      BlockOps(b, i - 1);
      if b.content.Body? {
        InnerHasNoAssembly(b.content, t[i]);
      }
    }
  }

  lemma InnerHasNoAssembly(content: Content, op: Opcode)
    requires content.Body? && op in InnerCode(content)
    ensures !op.Assembly?
  {
    if op in Code(content.c, content.body, content.n) {
      CodeOrdinary(content.c, content.body, content.n, op);
    }
  }

  lemma InnerTargets(content: Content, op: Opcode)
    requires ExitsHere(content) && op in InnerCode(content) && op.Branch?
    ensures Label(op.target) in InnerCode(content)
  {
    if content.Body? {
      CodeTargets(content.c, content.body, content.n, op);
    }
  }

  lemma BlockStays(b: Block)
    requires ExitsHere(b.content)
    ensures BranchesStay(BlockCode(b))
  {
    hide InnerCode, BlockCode;
    var t, inner := BlockCode(b), InnerCode(b.content);
    BlockLength(b);
    forall i | 0 <= i < |t| && t[i].Branch? ensures StaysInside(t, i) {
      BlockOps(b, i);
      InnerTargets(b.content, t[i]);
      var j :| 0 <= j < |inner| && inner[j] == Label(t[i].target);
      BlockOps(b, j + 1);
      forall k | 0 <= k < |t| && (i <= k <= j + 1 || j + 1 <= k <= i) ensures Unmarked(t[k]) {
        BlockOps(b, k);
      }
      assert Unbroken(t, i, j + 1);
    }
  }

  // ----- all definitions -----

  lemma {:induction false} JoinShape(blocks: seq<Block>)
    requires forall i :: 0 <= i < |blocks| ==> ExitsHere(blocks[i].content)
    ensures Bracketed(Join(blocks)) && AssemblyLeads(Join(blocks)) && BranchesStay(Join(blocks))
  {
    if blocks != [] {
      var b := blocks[0];
      JoinShape(blocks[1..]);
      BlockBracketed(b);
      BlockAssembly(b);
      BlockStays(b);
      hide Bracketed, AssemblyLeads, BranchesStay, BlockCode;
      BracketedThen(BlockCode(b), Join(blocks[1..]));
      AssemblyLeadsThen(BlockCode(b), Join(blocks[1..]));
      BranchesStayThen(BlockCode(b), Join(blocks[1..]));
    }
  }

  lemma StayingTargetsExist(t: Table)
    requires BranchesStay(t)
    ensures TargetsExist(t)
  {
    forall i | 0 <= i < |t| && t[i].Branch? ensures Label(t[i].target) in t {
      assert StaysInside(t, i);
    }
  }

  function Defines(t: Table, x: Symbol): nat {
    multiset(t)[Define(x)]
  }

  lemma BlockDefines(b: Block, x: Symbol)
    ensures Defines(BlockCode(b), x) == if x == b.name then 1 else 0
  {
    var inner := InnerCode(b.content);
    hide InnerCode;
    if Define(x) in inner { InnerUnmarked(b.content, Define(x)); }
    assert multiset([Define(b.name)])[Define(x)] == if x == b.name then 1 else 0;
  }

  lemma DistinctTail(x: Symbol, names: seq<Symbol>)
    requires Distinct([x] + names)
    ensures Distinct(names) && x !in names
  {
    var all := [x] + names;
    forall i, j | 0 <= i < j < |names| ensures names[i] != names[j] {
      assert all[i + 1] != all[j + 1];
    }
    forall k | 0 <= k < |names| ensures names[k] != x {
      assert all[0] != all[k + 1];
    }
  }

  /** Words with distinct names are defined once each, and no others. */
  lemma {:induction false} JoinDefines(blocks: seq<Block>, x: Symbol)
    requires Distinct(BlockNames(blocks))
    ensures Defines(Join(blocks), x) == if x in BlockNames(blocks) then 1 else 0
  {
    hide Distinct, BlockCode;
    if blocks != [] {
      var b, rest := blocks[0], blocks[1..];
      DistinctTail(b.name, BlockNames(rest));
      JoinDefines(rest, x);
      BlockDefines(b, x);
    }
  }

  // ----- where a definition is -----

  lemma InTheMiddle(before: Table, code: Table, after: Table)
    requires code != []
    ensures var t := before + (code + after); At(t, |before|, code) && |before| < |t| && t[|before|] == code[0]
  {
    var t := before + (code + after);
    assert t[|before|..|before| + |code|] == code;
  }

  lemma BlockPlace(blocks: seq<Block>, i: nat) returns (d: nat)
    requires i < |blocks| && Distinct(BlockNames(blocks))
    ensures d == IndexOf(Join(blocks), Define(blocks[i].name))
    ensures At(Join(blocks), d, BlockCode(blocks[i]))
  {
    hide BlockCode, IndexOf, At, Distinct;
    var t, b := Join(blocks), blocks[i];
    assert blocks == blocks[..i] + ([b] + blocks[i + 1..]);
    JoinThen(blocks[..i], [b] + blocks[i + 1..]);
    JoinThen([b], blocks[i + 1..]);
    JoinOne(b);
    var before, after := Join(blocks[..i]), Join(blocks[i + 1..]);
    hide Join;
    d := |before|;
    BlockLength(b);
    BlockOps(b, 0);
    InTheMiddle(before, BlockCode(b), after);
    assert t == before + (BlockCode(b) + after);
    JoinDefines(blocks, b.name);
    IndexOfOnce(t, Define(b.name), d);
  }

  /** The lines of a CODE word are found where its definition starts. */
  lemma {:induction false} LinesAt(t: Table, q: nat, lines: seq<string>)
    requires At(t, q, LineCode(lines)) && q + |lines| < |t| && !t[q + |lines|].Assembly?
    ensures AssemblyBlock(t, q) == lines
    decreases |lines|
  {
    if lines != [] {
      var code := LineCode(lines);
      assert t[q..q + |lines|][0] == code[0];
      assert t[q + 1..q + 1 + |lines[1..]|] == t[q..q + |lines|][1..] == LineCode(lines[1..]);
      LinesAt(t, q + 1, lines[1..]);
    }
  }
}
