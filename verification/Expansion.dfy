/** Tables rebuilt by putting a piece of code in the place of every opcode. */
module Expansion {
  import opened Machine

  /** The code that takes the place of each opcode. */
  type Rewriter = Opcode -> Table

  function Expanded(t: Table, e: Rewriter): Table {
    if t == [] then [] else Expanded(t[..|t| - 1], e) + e(t[|t| - 1])
  }

  /** The code for one more opcode goes to the end. */
  lemma ExpandedNext(t: Table, e: Rewriter, i: nat)
    requires i < |t|
    ensures Expanded(t[..i + 1], e) == Expanded(t[..i], e) + e(t[i])
  {
    assert t[..i + 1][..i] == t[..i];
  }

  /** Where every opcode is its own code, nothing changes. */
  lemma {:induction false} ExpandedSame(t: Table, e: Rewriter)
    requires forall i :: 0 <= i < |t| ==> e(t[i]) == [t[i]]
    ensures Expanded(t, e) == t
  {
    if t != [] {
      ExpandedSame(t[..|t| - 1], e);
    }
  }

  /** Where the code for position i starts in the new table. */
  function Place(t: Table, e: Rewriter, i: nat): nat
    requires i <= |t|
  {
    |Expanded(t[..i], e)|
  }

  lemma {:induction false} ExpandedPrefix(t: Table, e: Rewriter, i: nat)
    requires i <= |t|
    ensures Expanded(t[..i], e) <= Expanded(t, e)
  {
    if i < |t| {
      assert t[..|t| - 1][..i] == t[..i];
      ExpandedPrefix(t[..|t| - 1], e, i);
    } else {
      assert t[..i] == t;
    }
  }

  lemma CodeAt(t: Table, e: Rewriter, i: nat)
    requires i < |t|
    ensures Place(t, e, i + 1) == Place(t, e, i) + |e(t[i])| <= |Expanded(t, e)|
    ensures |e(t[i])| > 0 ==> Expanded(t, e)[Place(t, e, i)] == e(t[i])[0]
    ensures forall k :: 0 <= k < |e(t[i])| ==> Expanded(t, e)[Place(t, e, i) + k] == e(t[i])[k]
  {
    assert t[..i + 1][..i] == t[..i];
    ExpandedPrefix(t, e, i + 1);
  }

  lemma EndPlaces(t: Table, e: Rewriter)
    ensures Place(t, e, 0) == 0
    ensures Place(t, e, |t|) == |Expanded(t, e)|
  {
    assert t[..|t|] == t;
  }

  /** Every position of the new table belongs to the code for one old position. */
  lemma {:induction false} Locate(t: Table, e: Rewriter, q: nat, n: nat) returns (i: nat, k: nat)
    requires n <= |t| && q < Place(t, e, n)
    ensures i < n && k < |e(t[i])|
    ensures q == Place(t, e, i) + k && q < |Expanded(t, e)| && Expanded(t, e)[q] == e(t[i])[k]
    decreases n
  {
    assert t[..n][..n - 1] == t[..n - 1];
    CodeAt(t, e, n - 1);
    if q < Place(t, e, n - 1) {
      i, k := Locate(t, e, q, n - 1);
    } else {
      i, k := n - 1, q - Place(t, e, n - 1);
    }
  }

  lemma {:induction false} ExpandedAvoids(t: Table, e: Rewriter, op: Opcode)
    requires forall i :: 0 <= i < |t| ==> op !in e(t[i])
    ensures op !in Expanded(t, e)
  {
    if t != [] {
      ExpandedAvoids(t[..|t| - 1], e, op);
    }
  }

  /** An opcode at offset k of the code for its old self, and nowhere else, moves there. */
  lemma MovedIndex(t: Table, e: Rewriter, op: Opcode, moved: Opcode, k: nat)
    requires k < |e(op)| && e(op)[k] == moved && moved !in e(op)[..k]
    requires forall i :: 0 <= i < |t| && t[i] != op ==> moved !in e(t[i])
    ensures var i := IndexOf(t, op);
      IndexOf(Expanded(t, e), moved) == Place(t, e, i) + if i < |t| then k else 0
  {
    hide Expanded;
    var i, r := IndexOf(t, op), Expanded(t, e);
    ExpandedAvoids(t[..i], e, moved);
    ExpandedPrefix(t, e, i);
    EndPlaces(t, e);
    var at := Place(t, e, i) + if i < |t| then k else 0;
    if i < |t| {
      CodeAt(t, e, i);
      assert r[Place(t, e, i) + k] == moved;
    }
    forall j | 0 <= j < at ensures r[j] != moved {
      if j < Place(t, e, i) {
        assert r[j] == Expanded(t[..i], e)[j];
      } else {
        assert r[Place(t, e, i) + (j - Place(t, e, i))] == e(op)[..k][j - Place(t, e, i)];
      }
    }
  }

  /** Assembler stays as it is and nothing else turns into it. */
  ghost predicate KeepsAssembly(e: Rewriter) {
    forall op ::
      |e(op)| > 0 && (if op.Assembly? then e(op) == [op] else forall k :: 0 <= k < |e(op)| ==> !e(op)[k].Assembly?)
  }

  lemma {:induction false} BlockPlace(t: Table, e: Rewriter, p: nat)
    requires KeepsAssembly(e) && p <= |t|
    ensures Place(t, e, p) <= |Expanded(t, e)|
    ensures AssemblyBlock(Expanded(t, e), Place(t, e, p)) == AssemblyBlock(t, p)
    ensures Place(t, e, p + |AssemblyBlock(t, p)|) == Place(t, e, p) + |AssemblyBlock(t, p)|
    decreases |t| - p
  {
    hide Place, Expanded;
    if p == |t| {
      EndPlaces(t, e);
    } else {
      CodeAt(t, e, p);
      if t[p].Assembly? {
        BlockPlace(t, e, p + 1);
      }
    }
  }
}
