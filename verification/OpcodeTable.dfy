/** The opcode table and its optimizer, as the compiler runs them. */
module OpcodeTables {
  import opened Options
  import opened Machine
  import opened Simulation
  import opened Shape
  import DeadCode
  import UselessJumps
  import UselessCalls
  import UnusedLabels
  import PushPop
  import opened Expansion
  import opened Inlining
  import opened SmallWords
  import Relocation
  import opened Optimizer
  import opened NormalForms
  import Elements

  /** Overwriting one opcode changes the weight by that opcode. */
  lemma {:induction false} WeightUpdate(t: Table, i: nat, op: Opcode)
    requires i < |t|
    ensures Weight(t[i := op]) == Weight(t) - (if t[i].NoOp? then 0 else 1) + (if op.NoOp? then 0 else 1)
  {
    var n := |t| - 1;
    if i < n {
      WeightUpdate(t[..n], i, op);
      assert t[i := op][..n] == t[..n][i := op];
    } else {
      assert t[i := op][..n] == t[..n];
    }
  }

  const ITERATIONS_LIMIT := 32

  class OpcodeTable {
    var opcodes: Table

    constructor (opcodes: Table)
      ensures this.opcodes == opcodes
    {
      this.opcodes := opcodes;
    }

    /** The first position from i on whose opcode satisfies p, or the end. */
    method FindIf(i: nat, p: Opcode -> bool) returns (j: nat)
      requires i <= |opcodes|
      ensures i <= j <= |opcodes|
      ensures forall k :: i <= k < j ==> !p(opcodes[k])
      ensures j < |opcodes| ==> p(opcodes[j])
    {
      j := i;
      while j < |opcodes| && !p(opcodes[j])
        invariant i <= j <= |opcodes|
        invariant forall k :: i <= k < j ==> !p(opcodes[k])
      {
        j := j + 1;
      }
    }

    method ReplaceWith(i: nat, replacement: Opcode)
      requires i < |opcodes|
      modifies this
      ensures opcodes == old(opcodes)[i := replacement]
      ensures Weight(opcodes) == Weight(old(opcodes))
        - (if old(opcodes)[i].NoOp? then 0 else 1) + (if replacement.NoOp? then 0 else 1)
    {
      WeightUpdate(opcodes, i, replacement);
      opcodes := opcodes[i := replacement];
    }

    method RemoveUnreachableCode() returns (optimizations: nat)
      modifies this
      ensures opcodes == DeadCode.Removed(old(opcodes))
      ensures optimizations + Weight(opcodes) == Weight(old(opcodes))
      ensures optimizations == 0 ==> opcodes == old(opcodes)
    {
      hide Weight;
      ghost var t := opcodes;
      optimizations := 0;
      var iter := 0;
      while iter < |opcodes|
        invariant iter <= |opcodes| == |t|
        invariant forall k :: 0 <= k < iter ==> opcodes[k] == if DeadCode.Dead(t, k) then NoOp else t[k]
        invariant forall k :: iter <= k < |t| ==> opcodes[k] == t[k]
        invariant iter < |t| ==> !DeadCode.Dead(t, iter)
        invariant optimizations + Weight(opcodes) == Weight(t)
        invariant optimizations == 0 ==> opcodes == t
        decreases |opcodes| - iter
      {
        var first := FindIf(iter, (op: Opcode) => op.IsJump());
        LiveUpTo(t, iter, first);
        if first == |opcodes| {
          iter := first;
          break;
        }
        iter := first + 1;
        while iter < |opcodes| && !opcodes[iter].Label? && !opcodes[iter].EndDefine?
          invariant first < iter <= |opcodes| == |t|
          invariant forall k :: 0 <= k < iter ==> opcodes[k] == if DeadCode.Dead(t, k) then NoOp else t[k]
          invariant forall k :: iter <= k < |t| ==> opcodes[k] == t[k]
          invariant t[iter - 1].IsJump() || DeadCode.Dead(t, iter - 1)
          invariant optimizations + Weight(opcodes) == Weight(t)
          invariant optimizations == 0 ==> opcodes == t
        {
          if !opcodes[iter].NoOp? {
            ReplaceWith(iter, NoOp);
            optimizations := optimizations + 1;
          }
          iter := iter + 1;
        }
      }
    }

    /** Where no jump comes, nothing goes dead. */
    static lemma {:induction false} LiveUpTo(t: Table, i: nat, j: nat)
      requires i <= j <= |t| && (i < |t| ==> !DeadCode.Dead(t, i))
      requires forall k :: i <= k < j ==> !t[k].IsJump()
      ensures forall k :: i <= k <= j && k < |t| ==> !DeadCode.Dead(t, k)
      decreases j
    {
      if i < j {
        LiveUpTo(t, i, j - 1);
      }
    }

    method RemoveUnnecessaryJumps() returns (optimizations: nat)
      modifies this
      ensures opcodes == UselessJumps.Removed(old(opcodes))
      ensures optimizations + Weight(opcodes) == Weight(old(opcodes))
      ensures optimizations == 0 ==> opcodes == old(opcodes)
    {
      hide Weight;
      ghost var t := opcodes;
      optimizations := 0;
      var iter := 0;
      while iter < |opcodes|
        invariant iter <= |opcodes| == |t|
        invariant forall k :: 0 <= k < iter ==> opcodes[k] == UselessJumps.Removed(t)[k]
        invariant forall k :: iter <= k < |t| ==> opcodes[k] == t[k]
        invariant optimizations + Weight(opcodes) == Weight(t)
        invariant optimizations == 0 ==> opcodes == t
        decreases |opcodes| - iter
      {
        var first := FindIf(iter, (op: Opcode) => op.Branch?);
        if first == |opcodes| {
          iter := first;
          break;
        }
        var second := FindIf(first + 1, (op: Opcode) => !op.NoOp?);
        assert second == NextReal(t, first + 1);
        if second == |opcodes| {
          iter := second;
          break;
        }
        if opcodes[second].Label? && opcodes[first].target == opcodes[second].number {
          ReplaceWith(first, NoOp);
          optimizations := optimizations + 1;
        }
        iter := second;
      }
    }

    /** All pairs that start before position i have ended by then. */
    static ghost predicate PairsEnd(t: Table, i: nat) {
      forall k :: 0 <= k < i && k < |t| && PushPop.First(t, k) ==> NextReal(t, k + 1) <= i
    }

    /** Between the end of one pair and the next push, nothing is fused. */
    static lemma NothingFused(t: Table, i: nat, first: nat)
      requires i <= first <= |t| && PairsEnd(t, i)
      requires forall k :: i <= k < first ==> !t[k].Push? || (k == i && PushPop.Second(t, i))
      ensures forall k :: i < k < first ==> PushPop.FusedAt(t, k) == t[k]
      ensures i < first ==> PushPop.FusedAt(t, i) == if PushPop.Second(t, i) then NoOp else t[i]
      ensures i < first < |t| ==> !PushPop.Second(t, first)
      ensures PairsEnd(t, first)
    {
    }

    /** A push and the next real opcode are fused together or not at all. */
    static lemma FusedOrNot(t: Table, first: nat)
      requires first < |t| && t[first].Push? && PairsEnd(t, first)
      ensures var second := NextReal(t, first + 1);
        && PairsEnd(t, second)
        && (forall k :: first < k < second ==> PushPop.FusedAt(t, k) == NoOp && t[k] == NoOp)
        && (second < |t| ==> (PushPop.Second(t, second) <==> PushPop.First(t, first)))
        && PushPop.FusedAt(t, first) ==
             (if PushPop.First(t, first) then PushPop.Move(t[first], t[second]) else t[first])
        && (PushPop.First(t, first) <==> second < |t| && t[second].Pop? && t[second].stack == t[first].stack)
    {
      var second := NextReal(t, first + 1);
      forall k | first < k < second ensures t[k] == NoOp && !PushPop.Second(t, k) {
      }
    }

    static lemma NoPairsYet(t: Table)
      ensures PairsEnd(t, 0) && (0 < |t| ==> !PushPop.Second(t, 0))
    {
    }

    method ReplaceAdjacentPushPopPairs() returns (optimizations: nat)
      modifies this
      ensures opcodes == PushPop.Fused(old(opcodes))
      ensures optimizations + Weight(opcodes) <= Weight(old(opcodes))
      ensures optimizations == 0 ==> opcodes == old(opcodes)
    {
      hide Weight, PairsEnd, PushPop.Second, PushPop.First, PushPop.FusedAt;
      ghost var t := opcodes;
      NoPairsYet(t);
      optimizations := 0;
      var iter := 0;
      while iter < |opcodes|
        invariant iter <= |opcodes| == |t|
        invariant forall k :: 0 <= k < iter ==> opcodes[k] == PushPop.FusedAt(t, k)
        invariant forall k :: iter < k < |t| ==> opcodes[k] == t[k]
        invariant iter < |t| ==> opcodes[iter] == if PushPop.Second(t, iter) then NoOp else t[iter]
        invariant PairsEnd(t, iter)
        invariant optimizations + Weight(opcodes) <= Weight(t)
        invariant optimizations == 0 ==> opcodes == t
        decreases |opcodes| - iter
      {
        var first := FindIf(iter, (op: Opcode) => op.Push?);
        NothingFused(t, iter, first);
        if first == |opcodes| {
          iter := first;
          break;
        }
        var second := FindIf(first + 1, (op: Opcode) => !op.NoOp?);
        assert second == NextReal(t, first + 1);
        FusedOrNot(t, first);
        if second == |opcodes| {
          iter := second;
          break;
        }
        if opcodes[second].Pop? && opcodes[first].stack == opcodes[second].stack {
          var opcode := if opcodes[first].reg == opcodes[second].reg then NoOp
                        else LoadRegister(opcodes[second].reg, opcodes[first].reg);
          ReplaceWith(first, opcode);
          ReplaceWith(second, NoOp);
          optimizations := optimizations + 1;
        }
        iter := second;
      }
    }

    // ----- passes that first collect something about the whole table -----

    /** current is the definition that position i is in; it started at start. */
    static ghost predicate InDefinition(t: Table, i: nat, current: Option<Symbol>, start: nat) {
      && i <= |t|
      && (current.Some? ==> start < i && t[start] == Define(current.value)
                            && forall k :: start < k < i ==> !t[k].Define? && !t[k].EndDefine?)
      && (current.None? ==> forall d :: 0 <= d < i && t[d].Define? ==> exists k :: d < k < i && t[k].EndDefine?)
    }

    static lemma EmptyDefinitionEnds(t: Table, i: nat, current: Option<Symbol>, start: nat, s: Symbol, d: nat)
      requires InDefinition(t, i, current, start) && i < |t| && t[i].EndDefine?
      requires UselessCalls.EmptyDefinition(t, s, d, i)
      ensures current == Some(s) && start == d
    {
    }

    method RemoveUselessCalls() returns (optimizations: nat)
      modifies this
      ensures opcodes == UselessCalls.Removed(old(opcodes))
      ensures optimizations + Weight(opcodes) == Weight(old(opcodes))
      ensures optimizations == 0 ==> opcodes == old(opcodes)
    {
      hide Weight;
      ghost var t := opcodes;
      optimizations := 0;
      var emptyFunctions: set<Symbol> := EmptyFunctions();
      var iter := 0;
      while iter < |opcodes|
        invariant iter <= |opcodes| == |t|
        invariant forall k :: 0 <= k < iter ==> opcodes[k] == if UselessCalls.Useless(t, t[k]) then NoOp else t[k]
        invariant forall k :: iter <= k < |t| ==> opcodes[k] == t[k]
        invariant optimizations + Weight(opcodes) == Weight(t)
        invariant optimizations == 0 ==> opcodes == t
        decreases |opcodes| - iter
      {
        var call := FindIf(iter, (op: Opcode) => op.Call?);
        if call == |opcodes| {
          iter := call;
          break;
        }
        if opcodes[call].symbol in emptyFunctions {
          ReplaceWith(call, NoOp);
          optimizations := optimizations + 1;
        }
        iter := call + 1;
      }
    }

    /** The definitions that contain no executable opcodes. */
    method EmptyFunctions() returns (emptyFunctions: set<Symbol>)
      ensures forall s :: s in emptyFunctions <==> UselessCalls.EmptyWord(opcodes, s)
    {
      emptyFunctions := {};
      var current: Option<Symbol> := None;
      var hasExecutable := false;
      ghost var start := 0;
      for i := 0 to |opcodes|
        invariant InDefinition(opcodes, i, current, start)
        invariant current.Some? ==> (hasExecutable <==> exists k :: start < k < i && opcodes[k].IsExecutable())
        invariant forall s :: s in emptyFunctions <==>
          exists d: nat, e: nat :: UselessCalls.EmptyDefinition(opcodes, s, d, e) && e < i
      {
        var opcode := opcodes[i];
        ghost var before := emptyFunctions;
        if opcode.Define? {
          current := Some(opcode.symbol);
          hasExecutable := false;
          start := i;
        } else if opcode.EndDefine? {
          if current.Some? && !hasExecutable {
            emptyFunctions := emptyFunctions + {current.value};
            assert UselessCalls.EmptyDefinition(opcodes, current.value, start, i);
          }
          forall s, d: nat | UselessCalls.EmptyDefinition(opcodes, s, d, i) ensures s in emptyFunctions {
            EmptyDefinitionEnds(opcodes, i, current, start, s, d);
          }
          current := None;
        } else if current.Some? {
          hasExecutable := hasExecutable || opcode.IsExecutable();
        }
      }
    }

    method RemoveUnnecessaryLabels() returns (optimizations: nat)
      modifies this
      ensures opcodes == UnusedLabels.Removed(old(opcodes))
      ensures optimizations + Weight(opcodes) == Weight(old(opcodes))
      ensures optimizations == 0 ==> opcodes == old(opcodes)
    {
      hide Weight;
      ghost var t := opcodes;
      optimizations := 0;
      var usedLabels: set<int> := {};
      var iter := 0;
      while iter < |opcodes|
        invariant iter <= |opcodes| && opcodes == t
        invariant forall n :: n in usedLabels <==> exists k :: 0 <= k < iter && t[k].Branch? && t[k].target == n
        decreases |opcodes| - iter
      {
        var first := FindIf(iter, (op: Opcode) => op.Branch?);
        if first == |opcodes| {
          iter := first;
          break;
        }
        usedLabels := usedLabels + {opcodes[first].target};
        iter := first + 1;
      }
      assert forall n :: n in usedLabels <==> Used(t, n);

      iter := 0;
      while iter < |opcodes|
        invariant iter <= |opcodes| == |t|
        invariant forall k :: 0 <= k < iter ==> opcodes[k] == if UnusedLabels.Unused(t, t[k]) then NoOp else t[k]
        invariant forall k :: iter <= k < |t| ==> opcodes[k] == t[k]
        invariant optimizations + Weight(opcodes) == Weight(t)
        invariant optimizations == 0 ==> opcodes == t
        decreases |opcodes| - iter
      {
        var first := FindIf(iter, (op: Opcode) => op.Label?);
        if first == |opcodes| {
          iter := first;
          break;
        }
        if opcodes[first].number !in usedLabels {
          ReplaceWith(first, NoOp);
          optimizations := optimizations + 1;
        }
        iter := first + 1;
      }
    }

    // ----- passes that build a new table -----

    method InlineBooleans() returns (optimizations: nat)
      modifies this
      ensures opcodes == Inlined(old(opcodes), BooleanSplices())
      ensures optimizations == 0 <==> NothingToInline(old(opcodes), BooleanSplices())
      ensures optimizations == 0 ==> opcodes == old(opcodes)
    {
      hide Expanded;
      ghost var t := opcodes;
      ghost var m := BooleanSplices();
      optimizations := 0;
      var inlined: Table := [];
      assert Expanded(t[..0], Splicer(m)) == [] by { EndPlaces(t, Splicer(m)); }
      for i := 0 to |opcodes|
        invariant |opcodes| == |t|
        invariant inlined == Expanded(t[..i], Splicer(m))
        invariant forall k :: i <= k < |t| ==> opcodes[k] == t[k]
        invariant optimizations == 0 <==> forall k :: 0 <= k < i && t[k].Call? ==> t[k].symbol !in m
        invariant optimizations == 0 ==> opcodes == t
      {
        ExpandedNext(t, Splicer(m), i);
        var opcode := opcodes[i];
        if opcode.Call? {
          var name := opcode.symbol;
          if name == MANGLED_TRUE || name == MANGLED_FALSE {
            opcodes := opcodes[i := NoOp];
            inlined := inlined + [opcodes[i]];
            inlined := inlined + [LoadValue(R0, if name == MANGLED_TRUE then -1 else 0)];
            inlined := inlined + [Push(R0, DataStack)];
            optimizations := optimizations + 1;
          } else {
            inlined := inlined + [opcode];
          }
        } else {
          inlined := inlined + [opcode];
        }
      }
      assert t[..|t|] == t;
      if optimizations != 0 {
        opcodes := inlined;
      } else {
        ExpandedSame(t, Splicer(m));
      }
    }

    method InlineSmallFunctions() returns (optimizations: nat)
      requires UniqueDefines(opcodes)
      modifies this
      ensures opcodes == Inlined(old(opcodes), SmallSplices(old(opcodes)))
      ensures optimizations == 0 <==> NothingToInline(old(opcodes), SmallSplices(old(opcodes)))
      ensures optimizations == 0 ==> opcodes == old(opcodes)
    {
      hide Expanded, UniqueDefines, SmallSplices, Weight, IndexOf;
      ghost var t := opcodes;
      optimizations := 0;
      var candidates := InlineCandidates();
      var splices := BuildSplices(candidates);
      var inlined: Table := [];
      assert Expanded(t[..0], Splicer(splices)) == [] by { EndPlaces(t, Splicer(splices)); }
      for i := 0 to |opcodes|
        invariant |opcodes| == |t|
        invariant inlined == Expanded(t[..i], Splicer(splices))
        invariant forall k :: i <= k < |t| ==> opcodes[k] == t[k]
        invariant optimizations == 0 <==> forall k :: 0 <= k < i && t[k].Call? ==> t[k].symbol !in splices
        invariant optimizations == 0 ==> opcodes == t
      {
        ExpandedNext(t, Splicer(splices), i);
        var opcode := opcodes[i];
        if opcode.Call? && opcode.symbol in splices {
          opcodes := opcodes[i := NoOp];
          inlined := inlined + [opcodes[i]];
          inlined := inlined + splices[opcode.symbol];
          optimizations := optimizations + 1;
        } else {
          inlined := inlined + [opcode];
        }
      }
      assert t[..|t|] == t;
      if optimizations != 0 {
        opcodes := inlined;
      } else {
        ExpandedSame(t, Splicer(splices));
      }
    }

    static ghost predicate Candidate(t: Table, s: Symbol) {
      var d := IndexOf(t, Define(s));
      d < |t| && CandidateAt(t, d)
    }

    /** What the scan knows of the definition it is in, which started at start. */
    static ghost predicate Counted(t: Table, start: nat, i: nat, executables: nat, isNot: bool) {
      && start < i <= |t|
      && executables == |Executables(t, start + 1, i)|
      && (isNot <==> (exists k :: start < k < i && (t[k].Branch? || t[k].Assembly?))
                     || executables > SMALL_FUNCTION_OPCODE_LIMIT)
    }

    static lemma BoundaryAt(t: Table, d: nat, i: nat)
      requires d < i < |t| && (t[i].Define? || t[i].EndDefine?)
      requires forall k :: d < k < i ==> !t[k].Define? && !t[k].EndDefine?
      ensures NextBoundary(t, d + 1) == i
    {
    }

    /** The definitions without branches and assembler and with few executable opcodes. */
    method InlineCandidates() returns (candidates: set<Symbol>)
      requires UniqueDefines(opcodes)
      ensures forall s :: s in candidates <==> Candidate(opcodes, s)
    {
      hide UniqueDefines, InDefinition, Counted, CandidateAt;
      candidates := {};
      var current: Option<Symbol> := None;
      var executables, isNot := 0, false;
      ghost var start := 0;
      assert InDefinition(opcodes, 0, current, start) by { StartScan(opcodes); }
      for i := 0 to |opcodes|
        invariant InDefinition(opcodes, i, current, start)
        invariant current.Some? ==> Counted(opcodes, start, i, executables, isNot)
        invariant forall s :: s in candidates <==> CandidateBefore(opcodes, s, i)
      {
        var opcode := opcodes[i];
        NextScan(opcodes, i, current, start);
        if opcode.Define? {
          current := Some(opcode.symbol);
          executables, isNot := 0, false;
          start := i;
          StartCount(opcodes, i);
          SameCandidates(opcodes, i);
        } else if opcode.EndDefine? {
          EndOfCandidate(opcodes, i, current, start, executables, isNot);
          if current.Some? && !isNot {
            candidates := candidates + {current.value};
          }
          current := None;
        } else {
          SameCandidates(opcodes, i);
          if current.Some? {
            NextCount(opcodes, start, i, executables, isNot);
            isNot := isNot || opcode.Branch? || opcode.Assembly?;
            executables := executables + if opcode.IsExecutable() then 1 else 0;
            isNot := isNot || executables > SMALL_FUNCTION_OPCODE_LIMIT;
          }
        }
      }
      AllCandidates(opcodes);
    }

    static ghost function Start(t: Table, s: Symbol): nat {
      IndexOf(t, Define(s))
    }

    static ghost function End(t: Table, s: Symbol): nat
      requires Candidate(t, s)
    {
      NextBoundary(t, Start(t, s) + 1)
    }

    static lemma CandidateSpan(t: Table, s: Symbol)
      requires Candidate(t, s)
      ensures Start(t, s) < End(t, s) < |t|
      ensures t[Start(t, s)] == Define(s) && t[End(t, s)].EndDefine?
      ensures forall k :: Start(t, s) < k < End(t, s) ==> !t[k].Define? && !t[k].EndDefine?
    {
    }

    /** The executable opcodes between start and end that lie before position i. */
    static ghost function CodeBefore(t: Table, start: nat, end: nat, i: nat): Table
      requires start < end <= |t| && i <= |t|
    {
      if i <= start then [] else Executables(t, start + 1, if i < end then i else end)
    }

    static lemma CodeNext(t: Table, start: nat, end: nat, i: nat)
      requires start < end <= |t| && i < |t|
      ensures CodeBefore(t, start, end, i + 1) == CodeBefore(t, start, end, i) +
                if start < i < end && t[i].IsExecutable() then [t[i]] else []
    {
    }

    /** current is the candidate that position i is in, if any. */
    static ghost predicate InCandidate(t: Table, i: nat, current: Option<Symbol>) {
      && (current.Some? ==> Candidate(t, current.value))
      && forall s :: Candidate(t, s) ==> (current == Some(s) <==> Start(t, s) < i <= End(t, s))
    }

    static lemma CandidateNext(t: Table, i: nat, current: Option<Symbol>)
      requires UniqueDefines(t) && i < |t| && InCandidate(t, i, current)
      ensures t[i].Define? ==> InCandidate(t, i + 1, if Candidate(t, t[i].symbol) then Some(t[i].symbol) else current)
      ensures t[i].EndDefine? ==> InCandidate(t, i + 1, None)
      ensures !t[i].Define? && !t[i].EndDefine? ==> InCandidate(t, i + 1, current)
    {
      hide Candidate, End;
      forall s | Candidate(t, s)
        ensures Start(t, s) < End(t, s) && (i == Start(t, s) <==> t[i] == Define(s))
        ensures i == End(t, s) ==> t[i].EndDefine?
        ensures Start(t, s) < i < End(t, s) ==> !t[i].Define? && !t[i].EndDefine? {
        CandidateSpan(t, s);
        assert Once(t, Define(s));
        if t[i] == Define(s) { IndexOfOnce(t, Define(s), i); }
      }
    }

    static ghost predicate SplicesBefore(t: Table, i: nat, splices: Splices)
      requires i <= |t|
    {
      forall s ::
        if Candidate(t, s) then CandidateSpan(t, s);
          Spliced(splices, s, CodeBefore(t, Start(t, s), End(t, s), i)) else s !in splices
    }

    static predicate Spliced(splices: Splices, s: Symbol, code: Table) {
      if code == [] then s !in splices else s in splices && splices[s] == code
    }

    method BuildSplices(candidates: set<Symbol>) returns (splices: Splices)
      requires UniqueDefines(opcodes)
      requires forall s :: s in candidates <==> Candidate(opcodes, s)
      ensures splices == SmallSplices(opcodes)
    {
      hide UniqueDefines, Candidate, InCandidate, SplicesBefore;
      splices := map[];
      var current: Option<Symbol> := None;
      StartSplices(opcodes);
      for i := 0 to |opcodes|
        invariant InCandidate(opcodes, i, current)
        invariant SplicesBefore(opcodes, i, splices)
      {
        var opcode := opcodes[i];
        CandidateNext(opcodes, i, current);
        NextSplices(opcodes, i, current, splices);
        if opcode.Define? {
          if opcode.symbol in candidates {
            current := Some(opcode.symbol);
          }
        } else if opcode.EndDefine? {
          current := None;
        } else if current.Some? {
          if opcode.IsExecutable() {
            var soFar := if current.value in splices then splices[current.value] else [];
            splices := splices[current.value := soFar + [opcode]];
          }
        }
      }
      FinishSplices(opcodes, splices);
    }

    static lemma StartSplices(t: Table)
      ensures InCandidate(t, 0, None) && SplicesBefore(t, 0, map[])
    {
    }

    static lemma NextSplices(t: Table, i: nat, current: Option<Symbol>, splices: Splices)
      requires i < |t| && InCandidate(t, i, current) && SplicesBefore(t, i, splices)
      ensures SplicesBefore(t, i + 1,
        if current.Some? && t[i].IsExecutable() && !t[i].Define? && !t[i].EndDefine?
        then splices[current.value := (if current.value in splices then splices[current.value] else []) + [t[i]]]
        else splices)
    {
      hide Candidate, End, CodeBefore;
      forall s | Candidate(t, s)
        ensures Start(t, s) < End(t, s) < |t|
        ensures CodeBefore(t, Start(t, s), End(t, s), i + 1) == CodeBefore(t, Start(t, s), End(t, s), i) +
          if current == Some(s) && t[i].IsExecutable() && !t[i].Define? && !t[i].EndDefine? then [t[i]] else [] {
        CandidateSpan(t, s);
        CodeNext(t, Start(t, s), End(t, s), i);
      }
    }

    static lemma CodeComplete(t: Table, s: Symbol)
      ensures if Candidate(t, s) then
          CandidateSpan(t, s);
          && (Small(t, s) <==> CodeBefore(t, Start(t, s), End(t, s), |t|) != [])
          && (Small(t, s) ==> Code(t, s) == CodeBefore(t, Start(t, s), End(t, s), |t|))
        else !Small(t, s)
    {
    }

    static lemma FinishSplices(t: Table, splices: Splices)
      requires SplicesBefore(t, |t|, splices)
      ensures splices == SmallSplices(t)
    {
      hide SmallSplices, Candidate, Small, Code, CodeBefore, Start, End;
      forall s ensures s in splices <==> s in SmallSplices(t) {
        SmallSplicesKeys(t, s);
        CodeComplete(t, s);
      }
      forall s | s in splices ensures splices[s] == SmallSplices(t)[s] {
        SmallSplicesKeys(t, s);
        CodeComplete(t, s);
      }
    }

    /** A candidate whose definition ends before position i. */
    static ghost predicate CandidateBefore(t: Table, s: Symbol, i: nat) {
      Candidate(t, s) && NextBoundary(t, IndexOf(t, Define(s)) + 1) < i
    }

    static lemma AllCandidates(t: Table)
      ensures forall s :: Candidate(t, s) <==> CandidateBefore(t, s, |t|)
    {
    }

    static lemma StartScan(t: Table)
      ensures InDefinition(t, 0, None, 0)
    {
    }

    static lemma NextScan(t: Table, i: nat, current: Option<Symbol>, start: nat)
      requires i < |t| && InDefinition(t, i, current, start)
      ensures t[i].Define? ==> InDefinition(t, i + 1, Some(t[i].symbol), i)
      ensures t[i].EndDefine? ==> InDefinition(t, i + 1, None, start)
      ensures !t[i].Define? && !t[i].EndDefine? ==> InDefinition(t, i + 1, current, start)
    {
      if current.None? {
        forall d | 0 <= d < i && t[d].Define? ensures exists k :: d < k < i + 1 && t[k].EndDefine? {
          var k :| d < k < i && t[k].EndDefine?;
          assert d < k < i + 1;
        }
      }
    }

    static lemma StartCount(t: Table, i: nat)
      requires i < |t|
      ensures Counted(t, i, i + 1, 0, false)
    {
    }

    static lemma NextCount(t: Table, start: nat, i: nat, executables: nat, isNot: bool)
      requires i < |t| && Counted(t, start, i, executables, isNot)
      ensures var n := executables + if t[i].IsExecutable() then 1 else 0;
        Counted(t, start, i + 1, n, isNot || t[i].Branch? || t[i].Assembly? || n > SMALL_FUNCTION_OPCODE_LIMIT)
    {
      if exists k :: start < k < i && (t[k].Branch? || t[k].Assembly?) {
        var k :| start < k < i && (t[k].Branch? || t[k].Assembly?);
        assert start < k < i + 1;
      }
      if t[i].Branch? || t[i].Assembly? { assert start < i < i + 1; }
    }

    static lemma SameCandidates(t: Table, i: nat)
      requires i < |t| && !t[i].EndDefine?
      ensures forall s :: CandidateBefore(t, s, i + 1) <==> CandidateBefore(t, s, i)
    {
    }

    static lemma EndOfCandidate(t: Table, i: nat, current: Option<Symbol>, start: nat, executables: nat, isNot: bool)
      requires UniqueDefines(t) && InDefinition(t, i, current, start) && i < |t| && t[i].EndDefine?
      requires current.Some? ==> Counted(t, start, i, executables, isNot)
      ensures forall s :: CandidateBefore(t, s, i + 1) <==> CandidateBefore(t, s, i) || (current == Some(s) && !isNot)
    {
      hide Executables;
      if current.Some? {
        assert Once(t, Define(current.value));
        IndexOfOnce(t, Define(current.value), start);
        BoundaryAt(t, start, i);
        assert CandidateAt(t, start) <==> !isNot;
      }
      forall s | Candidate(t, s) && NextBoundary(t, IndexOf(t, Define(s)) + 1) == i ensures current == Some(s) {
        var d := IndexOf(t, Define(s));
        assert t[d] == Define(s);
      }
    }

    // ----- label relocation -----

    /** Label v comes before position i, and its next real opcode does not. */
    static ghost predicate Pending(t: Table, v: int, i: nat) {
      Label(v) in t && IndexOf(t, Label(v)) < i <= Relocation.After(t, v)
    }

    static ghost predicate OnlyPending(t: Table, i: nat, current: Option<int>) {
      forall v :: Pending(t, v, i) <==> current == Some(v)
    }

    static ghost predicate RelocationsBefore(t: Table, i: nat, relocations: map<int, int>) {
      forall v ::
        if Relocation.Suboptimal(t, v) && Relocation.After(t, v) < i
        then v in relocations && relocations[v] == Relocation.Forward(t, v)
        else v !in relocations
    }

    static lemma PendingNext(t: Table, i: nat, current: Option<int>)
      requires UniqueLabels(t) && i < |t| && OnlyPending(t, i, current)
      ensures OnlyPending(t, i + 1, if t[i].Label? then Some(t[i].number) else if t[i].NoOp? then current else None)
      ensures forall v :: Label(v) in t && Relocation.After(t, v) == i <==> current == Some(v) && !t[i].NoOp?
    {
      if t[i].Label? {
        assert Once(t, t[i]);
        IndexOfOnce(t, t[i], i);
      }
    }

    /** The labels directly followed by a jump to a later label, and that label. */
    method FindRelocations() returns (relocations: map<int, int>)
      requires UniqueLabels(opcodes)
      ensures RelocationsBefore(opcodes, |opcodes|, relocations)
    {
      hide UniqueLabels, OnlyPending;
      relocations := map[];
      var current: Option<int> := None;
      assert OnlyPending(opcodes, 0, None) by { NonePending(opcodes); }
      for i := 0 to |opcodes|
        invariant OnlyPending(opcodes, i, current)
        invariant RelocationsBefore(opcodes, i, relocations)
      {
        var opcode := opcodes[i];
        PendingNext(opcodes, i, current);
        if opcode.Label? {
          current := Some(opcode.number);
        } else if opcode.IsJump() {
          if current.Some? {
            var value := current.value;
            if opcode.target > value {
              relocations := relocations[value := opcode.target];
            }
          }
          current := None;
        } else if !opcode.NoOp? {
          current := None;
        }
      }
    }

    static lemma NonePending(t: Table)
      ensures OnlyPending(t, 0, None)
    {
    }

    /** Follow each chain of relocations to its end, in ascending order of labels. */
    static lemma RelocationsComplete(t: Table, relocations: map<int, int>)
      requires RelocationsBefore(t, |t|, relocations)
      ensures forall v :: v in relocations <==> Relocation.Suboptimal(t, v)
      ensures forall v :: v in relocations ==> relocations[v] == Relocation.Forward(t, v)
    {
    }

    method AdvanceRelocations(direct: map<int, int>) returns (relocations: map<int, int>)
      requires RelocationsBefore(opcodes, |opcodes|, direct)
      ensures forall v :: v in relocations <==> Relocation.Suboptimal(opcodes, v)
      ensures forall v :: v in relocations ==> relocations[v] == Relocation.Final(opcodes, v)
    {
      RelocationsComplete(opcodes, direct);
      hide Relocation.Final, Relocation.Suboptimal, Relocation.Forward, RelocationsBefore;
      ghost var t := opcodes;
      relocations := direct;
      var value, last := Relocation.MinLabel(opcodes), Relocation.MaxLabel(opcodes);
      while value <= last
        invariant value <= last + 1
        invariant forall v :: v in relocations <==> Relocation.Suboptimal(t, v)
        invariant forall v :: v in relocations ==>
          relocations[v] == if v < value then Relocation.Final(t, v) else Relocation.Forward(t, v)
      {
        if value in relocations {
          var forwards := relocations[value];
          Relocation.FinalStep(t, value);
          while forwards in relocations
            invariant forwards > value && Relocation.Final(t, forwards) == Relocation.Final(t, value)
            decreases last - forwards
          {
            Relocation.FinalStep(t, forwards);
            forwards := relocations[forwards];
          }
          Relocation.FinalStep(t, forwards);
          relocations := relocations[value := forwards];
        }
        value := value + 1;
      }
      forall v | v in relocations ensures v <= last {
        Relocation.FinalStep(t, v);
      }
    }

    static ghost function At(splices: map<int, Table>, w: int): Table {
      if w in splices then splices[w] else []
    }

    /** splices holds the part of every group that comes before label value. */
    static ghost predicate GroupsBefore(t: Table, value: int, splices: map<int, Table>) {
      forall w :: At(splices, w) + Relocation.Group(t, w, value) == Relocation.Group(t, w, Relocation.MinLabel(t))
    }

    static lemma GroupsStart(t: Table)
      ensures GroupsBefore(t, Relocation.MinLabel(t), map[])
    {
      forall w
        ensures At(map[], w) + Relocation.Group(t, w, Relocation.MinLabel(t)) ==
          Relocation.Group(t, w, Relocation.MinLabel(t)) {
      }
    }

    static lemma GroupNext(t: Table, w: int, value: int, soFar: Table)
      requires value <= Relocation.MaxLabel(t)
      ensures var here := if Relocation.Suboptimal(t, value) && Relocation.Final(t, value) == w then [Label(value)]
        else [];
        soFar + Relocation.Group(t, w, value) == (soFar + here) + Relocation.Group(t, w, value + 1)
    {
      hide Relocation.Suboptimal, Relocation.Final;
      var here := if Relocation.Suboptimal(t, value) && Relocation.Final(t, value) == w then [Label(value)] else [];
      assert Relocation.Group(t, w, value) == here + Relocation.Group(t, w, value + 1);
    }

    static lemma GroupsNext(t: Table, value: int, splices: map<int, Table>)
      requires value <= Relocation.MaxLabel(t) && GroupsBefore(t, value, splices)
      ensures GroupsBefore(t, value + 1,
        if Relocation.Suboptimal(t, value)
        then var w := Relocation.Final(t, value); splices[w := At(splices, w) + [Label(value)]]
        else splices)
    {
      hide Relocation.Suboptimal, Relocation.Final, Relocation.Group;
      var next := if Relocation.Suboptimal(t, value)
        then var w := Relocation.Final(t, value); splices[w := At(splices, w) + [Label(value)]]
        else splices;
      forall w
        ensures At(next, w) + Relocation.Group(t, w, value + 1) == Relocation.Group(t, w, Relocation.MinLabel(t)) {
        GroupNext(t, w, value, At(splices, w));
        assert At(next, w) == At(splices, w) +
          if Relocation.Suboptimal(t, value) && Relocation.Final(t, value) == w then [Label(value)] else [];
      }
    }

    static lemma GroupsEnd(t: Table, splices: map<int, Table>)
      requires GroupsBefore(t, Relocation.MaxLabel(t) + 1, splices)
      ensures forall w :: At(splices, w) == Relocation.Group(t, w, Relocation.MinLabel(t))
    {
      forall w ensures At(splices, w) == Relocation.Group(t, w, Relocation.MinLabel(t)) {
        NoGroupAbove(t, w);
        hide Relocation.Group, At;
      }
    }

    static lemma NoGroupAbove(t: Table, w: int)
      ensures Relocation.Group(t, w, Relocation.MaxLabel(t) + 1) == []
    {
    }

    /** For each label, the labels that move in front of it. */
    method BuildLabelSplices(relocations: map<int, int>) returns (splices: map<int, Table>)
      requires forall v :: v in relocations <==> Relocation.Suboptimal(opcodes, v)
      requires forall v :: v in relocations ==> relocations[v] == Relocation.Final(opcodes, v)
      ensures forall w :: At(splices, w) == Relocation.Group(opcodes, w, Relocation.MinLabel(opcodes))
      ensures forall w :: w in splices ==> splices[w] != []
    {
      hide Relocation.Suboptimal, Relocation.Final, Relocation.Group, GroupsBefore;
      splices := map[];
      var value, last := Relocation.MinLabel(opcodes), Relocation.MaxLabel(opcodes);
      GroupsStart(opcodes);
      while value <= last
        invariant value <= last + 1
        invariant GroupsBefore(opcodes, value, splices)
        invariant forall w :: w in splices ==> splices[w] != []
      {
        GroupsNext(opcodes, value, splices);
        if value in relocations {
          var relocation := relocations[value];
          var soFar := if relocation in splices then splices[relocation] else [];
          splices := splices[relocation := soFar + [Label(value)]];
        }
        value := value + 1;
      }
      GroupsEnd(opcodes, splices);
    }

    /** Only labels that move are in groups, and no label that moves has a group. */
    static lemma GroupHead(t: Table, w: int) returns (v: int)
      ensures Relocation.Group(t, w, Relocation.MinLabel(t)) != [] ==>
        Relocation.Suboptimal(t, v) && !Relocation.Suboptimal(t, w)
    {
      var group := Relocation.Group(t, w, Relocation.MinLabel(t));
      v := 0;
      if group != [] {
        assert group[0] in multiset(group);
        Relocation.GroupMembers(t, w, Relocation.MinLabel(t), group[0]);
        v := group[0].number;
      }
    }

    /** Relocation leaves op as it is. */
    static ghost predicate Stays(t: Table, op: Opcode) {
      Relocation.Relocate(t, op) == [op]
    }

    static lemma NothingRelocated(t: Table)
      ensures Relocation.NothingToRelocate(t) <==> forall k :: 0 <= k < |t| ==> Stays(t, t[k])
    {
      if Relocation.NothingToRelocate(t) {
        forall k | 0 <= k < |t| ensures Stays(t, t[k]) {
          if t[k].Label? {
            var v := GroupHead(t, t[k].number);
          }
        }
      } else {
        var v :| Relocation.Suboptimal(t, v);
        var k := IndexOf(t, Label(v));
        assert !Stays(t, t[k]);
      }
    }

    static lemma OthersStay(t: Table, op: Opcode)
      ensures op.Label? || Stays(t, op)
    {
    }

    /** The code for a label, as the collected maps give it. */
    static lemma CollectedCode(t: Table, relocations: map<int, int>, splices: map<int, Table>, v: int)
      requires v in relocations <==> Relocation.Suboptimal(t, v)
      requires At(splices, v) == Relocation.Group(t, v, Relocation.MinLabel(t))
      requires v in splices ==> splices[v] != []
      ensures v in splices ==> v !in relocations && Relocation.Relocate(t, Label(v)) == splices[v] + [Label(v)]
      ensures v in relocations ==> Relocation.Relocate(t, Label(v)) == [NoOp]
      ensures v !in relocations && v !in splices <==> Stays(t, Label(v))
    {
      var u := GroupHead(t, v);
    }

    method RelocateSuboptimalLabels() returns (optimizations: nat)
      requires UniqueLabels(opcodes)
      modifies this
      ensures opcodes == Relocation.Relocated(old(opcodes))
      ensures optimizations == 0 <==> Relocation.NothingToRelocate(old(opcodes))
      ensures optimizations == 0 ==> opcodes == old(opcodes)
    {
      hide UniqueLabels, Expanded, Relocation.Group, Relocation.Suboptimal, Relocation.Relocate,
        Relocation.NothingToRelocate, At;
      ghost var t := opcodes;
      ghost var e := Relocation.Relocator(t);
      var direct := FindRelocations();
      var relocations := AdvanceRelocations(direct);
      var splices := BuildLabelSplices(relocations);
      optimizations := 0;
      var relocated: Table := [];
      assert Expanded(t[..0], e) == [] by { EndPlaces(t, e); }
      for i := 0 to |opcodes|
        invariant |opcodes| == |t|
        invariant relocated == Expanded(t[..i], e)
        invariant forall k :: i <= k < |t| ==> opcodes[k] == t[k]
        invariant optimizations == 0 <==> forall k :: 0 <= k < i ==> Stays(t, t[k])
        invariant optimizations == 0 ==> opcodes == t
      {
        ExpandedNext(t, e, i);
        assert t[i].Label? || Stays(t, t[i]) by { OthersStay(t, t[i]); }
        var opcode := opcodes[i];
        if opcode.Label? {
          var value := opcode.number;
          var suboptimalOrSpliced := false;
          CollectedCode(t, relocations, splices, value);
          if value in relocations {
            opcodes := opcodes[i := NoOp];
            relocated := relocated + [opcodes[i]];
            suboptimalOrSpliced := true;
          }
          if value in splices {
            relocated := relocated + splices[value];
            relocated := relocated + [opcode];
            suboptimalOrSpliced := true;
          }
          if suboptimalOrSpliced {
            optimizations := optimizations + 1;
          } else {
            relocated := relocated + [opcode];
          }
        } else {
          relocated := relocated + [opcode];
        }
      }
      assert t[..|t|] == t;
      NothingRelocated(t);
      if optimizations != 0 {
        opcodes := relocated;
      } else {
        ExpandedSame(t, e);
      }
    }

    // ----- the optimizer loop -----

    /** One round: all passes in turn; says how much work they did. */
    method RunPasses() returns (isOptimizing: nat)
      requires WellFormed(opcodes)
      modifies this
      ensures opcodes == ApplyAll(ROUND, old(opcodes)) && WellFormed(opcodes)
      ensures isOptimizing == 0 ==> opcodes == old(opcodes) && NormalForm(opcodes)
    {
      hide WellFormed, ApplyAll, NormalForm, NothingToInline, Relocation.NothingToRelocate, UniqueLabels, UniqueDefines;
      hide DeadCode.Removed, UselessJumps.Removed, UselessCalls.Removed, UnusedLabels.Removed;
      hide PushPop.Fused, Inlined, SmallSplices, BooleanSplices, Relocation.Relocated, Weight;
      ghost var t := opcodes;
      PassWellFormed(Pass.RemoveUnreachableCode, opcodes);
      var n1 := RemoveUnreachableCode();
      ApplyNext(ROUND, t, 0);
      PassWellFormed(Pass.RemoveUnnecessaryJumps, opcodes);
      var n2 := RemoveUnnecessaryJumps();
      ApplyNext(ROUND, t, 1);
      PassWellFormed(Pass.RemoveUselessCalls, opcodes);
      var n3 := RemoveUselessCalls();
      ApplyNext(ROUND, t, 2);
      PassWellFormed(Pass.InlineBooleans, opcodes);
      var n4 := InlineBooleans();
      ApplyNext(ROUND, t, 3);
      PassWellFormed(Pass.InlineSmallFunctions, opcodes);
      NamesUnique(opcodes);
      var n5 := InlineSmallFunctions();
      ApplyNext(ROUND, t, 4);
      PassWellFormed(Pass.ReplaceAdjacentPushPopPairs, opcodes);
      var n6 := ReplaceAdjacentPushPopPairs();
      ApplyNext(ROUND, t, 5);
      PassWellFormed(Pass.RelocateSuboptimalLabels, opcodes);
      NamesUnique(opcodes);
      var n7 := RelocateSuboptimalLabels();
      ApplyNext(ROUND, t, 6);
      PassWellFormed(Pass.RemoveUnnecessaryLabels, opcodes);
      var n8 := RemoveUnnecessaryLabels();
      ApplyNext(ROUND, t, 7);
      isOptimizing := n1 + n2 + n3 + n4 + n5 + n6 + n7 + n8;
      assert ROUND[..8] == ROUND;
      if isOptimizing == 0 {
        NamesUnique(t);
        FixedIsNormal(t);
      }
    }

    /** Gather the opcodes outside definitions into a main word at the end. */
    method SynthesizeMain()
      modifies this
      ensures opcodes == Elements.WithMain(old(opcodes))
    {
      var mainOpcodes: Table, functionOpcodes: Table := [], [];
      var inMain := true;
      var i := 0;
      while i < |opcodes|
        invariant 0 <= i <= |opcodes|
        invariant Elements.Halves(mainOpcodes, functionOpcodes, inMain)
          == Elements.Split(Elements.Halves([], [], true), opcodes[..i])
      {
        var opcode := opcodes[i];
        if opcode.Define? {
          inMain := false;
        }
        if inMain {
          mainOpcodes := mainOpcodes + [opcode];
        } else {
          functionOpcodes := functionOpcodes + [opcode];
        }
        if opcode.EndDefine? {
          inMain := true;
        }
        assert opcodes[..i + 1][..i] == opcodes[..i];
        i := i + 1;
      }
      assert opcodes[..i] == opcodes;
      if mainOpcodes != [] {
        opcodes := functionOpcodes;
        opcodes := opcodes + [Define(Elements.MAIN)];
        opcodes := opcodes + mainOpcodes;
        opcodes := opcodes + [Label(0), EndDefine(Elements.MAIN)];
      }
    }

    /** Run all passes again and again until nothing changes or the limit is reached;
        isOptimizing is whether the last round still changed something. */
    method OptimizeCode() returns (limitReached: bool, isOptimizing: bool)
      requires WellFormed(opcodes)
      modifies this
      ensures WellFormed(opcodes)
      ensures exists n: nat :: 1 <= n <= 32 && opcodes == Rounds(old(opcodes), n) && (limitReached <==> n == 32)
      ensures forall env :: LibraryBooleans(old(opcodes), env) ==> Equivalent(old(opcodes), opcodes, env)
      ensures !limitReached ==> !isOptimizing
      ensures !isOptimizing ==> NormalForm(opcodes)
    {
      hide WellFormed, NormalForm, LibraryBooleans, Equivalent;
      ghost var t := opcodes;
      var work := RunPasses();
      var iterations := 1;
      assert opcodes == Rounds(t, 1) by { assert Rounds(t, 0) == t; }
      while work != 0 && iterations < ITERATIONS_LIMIT
        invariant 1 <= iterations <= ITERATIONS_LIMIT
        invariant WellFormed(opcodes) && opcodes == Rounds(t, iterations)
        invariant work == 0 ==> NormalForm(opcodes)
        decreases ITERATIONS_LIMIT - iterations
      {
        work := RunPasses();
        iterations := iterations + 1;
      }
      limitReached, isOptimizing := iterations >= ITERATIONS_LIMIT, work != 0;
      forall env | LibraryBooleans(t, env) ensures Equivalent(t, opcodes, env) {
        RoundsPreserve(t, env, iterations);
      }
    }
  }
}
