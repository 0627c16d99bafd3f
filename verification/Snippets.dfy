/** What the short runs of plain opcodes in emitted code do. */
module Snippets {
  import opened Cells
  import opened Machine
  import opened Statements
  import opened Stepping

  lemma PlainOne(env: Env, a: Opcode, st: State)
    requires a.IsPlain()
    ensures AllPlain([a]) && PlainCode(env, [a], st) == Plain(env, a, st)
  {
    assert [a] + [] == [a];
    PlainNext(env, a, [], st);
  }

  lemma PlainTwo(env: Env, a: Opcode, b: Opcode, st: State)
    requires a.IsPlain() && b.IsPlain()
    ensures AllPlain([a, b])
    ensures var o := Plain(env, a, st);
      PlainCode(env, [a, b], st) == if o.Done? then Plain(env, b, o.state) else o
  {
    assert [a] + [b] == [a, b];
    PlainNext(env, a, [b], st);
    var o := Plain(env, a, st);
    if o.Done? { PlainOne(env, b, o.state); }
  }

  lemma PlainThree(env: Env, a: Opcode, b: Opcode, c: Opcode, st: State)
    requires a.IsPlain() && b.IsPlain() && c.IsPlain()
    ensures AllPlain([a, b, c])
    ensures var o := Plain(env, a, st);
      PlainCode(env, [a, b, c], st) == if o.Done? then PlainCode(env, [b, c], o.state) else o
  {
    assert [a] + [b, c] == [a, b, c];
    PlainNext(env, a, [b, c], st);
  }

  lemma PlainFour(env: Env, a: Opcode, b: Opcode, c: Opcode, d: Opcode, st: State)
    requires a.IsPlain() && b.IsPlain() && c.IsPlain() && d.IsPlain()
    ensures AllPlain([a, b, c, d])
    ensures var o := Plain(env, a, st);
      PlainCode(env, [a, b, c, d], st) == if o.Done? then PlainCode(env, [b, c, d], o.state) else o
  {
    assert [a] + [b, c, d] == [a, b, c, d];
    PlainNext(env, a, [b, c, d], st);
  }

  lemma PopOutcome(env: Env, reg: Register, stack: Stack, st: State)
    ensures Plain(env, Pop(reg, stack), st) ==
      if Has(st.core, stack) then Done(st.(core := Drop(st.core, stack)).SetReg(reg, Top(st.core, stack)))
      else Trap(Underflow(stack), st)
  {
  }

  lemma PushOfTop(core: Core, stack: Stack)
    requires Has(core, stack)
    ensures PushTo(Drop(core, stack), stack, Top(core, stack)) == core
  {
    var s := core.Get(stack);
    assert s[..|s| - 1] + [s[|s| - 1]] == s;
  }

  lemma LeafCode(env: Env, c: Context, s: Stmt, n: int, st: State)
    requires IsLeaf(s)
    ensures AllPlain(Code(c, s, n))
    ensures Seen(PlainCode(env, Code(c, s, n), st)) == Leaf(env, s, st.core)
  {
    if s.StringLiteral? {
      StringCodeRun(env, s.data, s.size, st);
    } else if !s.Empty? && !s.Elsewhere? {
      var code := Code(c, s, n);
      PlainTwo(env, code[0], code[1], st);
    }
  }

  lemma StringCodeRun(env: Env, data: int, size: int, st: State)
    ensures AllPlain(StringCode(data, size))
    ensures var o := PlainCode(env, StringCode(data, size), st);
      o.Done? && o.state.core == StringOn(env, data, size, st.core)
  {
    var s1 := st.SetReg(R0, env.dataAddress(data));
    PlainFour(env, LoadData(R0, data), Push(R0, DataStack), LoadValue(R0, size), Push(R0, DataStack), st);
    PlainThree(env, Push(R0, DataStack), LoadValue(R0, size), Push(R0, DataStack), s1);
    var s2 := s1.(core := PushTo(s1.core, DataStack, s1.r0));
    PlainTwo(env, LoadValue(R0, size), Push(R0, DataStack), s2);
  }

  /** DO takes start into R1 and limit into R0. */
  lemma DoRun(env: Env, st: State)
    ensures AllPlain([Pop(R1, DataStack), Pop(R0, DataStack)])
    ensures var o := PlainCode(env, [Pop(R1, DataStack), Pop(R0, DataStack)], st);
      if !Has(st.core, DataStack) then o == Trap(-4, st)
      else
        var core1 := Drop(st.core, DataStack);
        if !Has(core1, DataStack) then o.Trap? && o.code == -4 && o.state.core == core1
        else o == Done(State(Top(core1, DataStack), Top(st.core, DataStack), Drop(core1, DataStack)))
  {
    PlainTwo(env, Pop(R1, DataStack), Pop(R0, DataStack), st);
    PopOutcome(env, R1, DataStack, st);
    if Has(st.core, DataStack) {
      PopOutcome(env, R0, DataStack, State(st.r0, Top(st.core, DataStack), Drop(st.core, DataStack)));
    }
  }

  lemma EnterRun(env: Env, st: State)
    ensures AllPlain(EnterCode())
    ensures PlainCode(env, EnterCode(), st) ==
      Done(st.(core := PushTo(PushTo(st.core, ReturnStack, st.r0), ReturnStack, st.r1)))
  {
    PlainTwo(env, Push(R0, ReturnStack), Push(R1, ReturnStack), st);
  }

  /** OF keeps the selector on the stack and in R0. */
  lemma OfRun(env: Env, st: State)
    ensures AllPlain([Pop(R1, DataStack), Pop(R0, DataStack), Push(R0, DataStack)])
    ensures var o := PlainCode(env, [Pop(R1, DataStack), Pop(R0, DataStack), Push(R0, DataStack)], st);
      if !Has(st.core, DataStack) then o == Trap(-4, st)
      else
        var core1 := Drop(st.core, DataStack);
        if !Has(core1, DataStack) then o.Trap? && o.code == -4 && o.state.core == core1
        else o == Done(State(Top(core1, DataStack), Top(st.core, DataStack), core1))
  {
    PlainThree(env, Pop(R1, DataStack), Pop(R0, DataStack), Push(R0, DataStack), st);
    PopOutcome(env, R1, DataStack, st);
    if Has(st.core, DataStack) {
      var s1 := State(st.r0, Top(st.core, DataStack), Drop(st.core, DataStack));
      PlainTwo(env, Pop(R0, DataStack), Push(R0, DataStack), s1);
      PopOutcome(env, R0, DataStack, s1);
      if Has(s1.core, DataStack) {
        PushOfTop(s1.core, DataStack);
      }
    }
  }

  /** With the next index in R1: put limit and index back, R1 becomes their difference. */
  lemma CompareRun(env: Env, st: State)
    ensures AllPlain(CompareCode())
    ensures var o := PlainCode(env, CompareCode(), st);
      if !Has(st.core, ReturnStack) then o == Trap(-6, st)
      else
        var limit := Top(st.core, ReturnStack);
        o == Done(State(limit, Wrap(st.r1 - limit), PushTo(st.core, ReturnStack, st.r1)))
  {
    var push0, push1, subtract := Push(R0, ReturnStack), Push(R1, ReturnStack), SubtractRegister(R1, R0);
    PlainFour(env, Pop(R0, ReturnStack), push0, push1, subtract, st);
    PopOutcome(env, R0, ReturnStack, st);
    if Has(st.core, ReturnStack) {
      var s1 := State(Top(st.core, ReturnStack), st.r1, Drop(st.core, ReturnStack));
      PlainThree(env, push0, push1, subtract, s1);
      PushOfTop(st.core, ReturnStack);
      var s2 := s1.(core := st.core);
      PlainTwo(env, push1, subtract, s2);
    }
  }

  lemma UnloopRun(env: Env, st: State)
    ensures AllPlain(UnloopCode())
    ensures Seen(PlainCode(env, UnloopCode(), st)) == Unloop(st.core)
  {
    PlainTwo(env, Pop(R0, ReturnStack), Pop(R0, ReturnStack), st);
  }

  /** LOOP: the next index goes to R1. */
  lemma LoopRun(env: Env, st: State)
    ensures AllPlain([Pop(R1, ReturnStack), AddValue(R1, 1)])
    ensures var o := PlainCode(env, [Pop(R1, ReturnStack), AddValue(R1, 1)], st);
      if !Has(st.core, ReturnStack) then o == Trap(-6, st)
      else o == Done(State(st.r0, Wrap(Top(st.core, ReturnStack) + 1), Drop(st.core, ReturnStack)))
  {
    PlainTwo(env, Pop(R1, ReturnStack), AddValue(R1, 1), st);
    PopOutcome(env, R1, ReturnStack, st);
  }

  /** +LOOP: the step goes to R0 and the next index to R1. */
  lemma PlusLoopRun(env: Env, st: State)
    ensures AllPlain([Pop(R0, DataStack), Pop(R1, ReturnStack), AddRegister(R1, R0)])
    ensures var o := PlainCode(env, [Pop(R0, DataStack), Pop(R1, ReturnStack), AddRegister(R1, R0)], st);
      if !Has(st.core, DataStack) then o == Trap(-4, st)
      else
        var step, core1 := Top(st.core, DataStack), Drop(st.core, DataStack);
        if !Has(core1, ReturnStack) then o.Trap? && o.code == -6 && o.state.core == core1
        else o == Done(State(step, Wrap(Top(core1, ReturnStack) + step), Drop(core1, ReturnStack)))
  {
    PlainThree(env, Pop(R0, DataStack), Pop(R1, ReturnStack), AddRegister(R1, R0), st);
    PopOutcome(env, R0, DataStack, st);
    if Has(st.core, DataStack) {
      var s1 := State(Top(st.core, DataStack), st.r1, Drop(st.core, DataStack));
      PlainTwo(env, Pop(R1, ReturnStack), AddRegister(R1, R0), s1);
      PopOutcome(env, R1, ReturnStack, s1);
    }
  }
}
