/** CATCH and THROW: exception frames on the return stack, linked through the
    handler variable. */
module Exceptions {

  const CELL := 4

  /** The exception of a pop from an empty data stack. */
  const UNDERFLOW := -4

  /** Where the data stack and the return stack start. */
  datatype Bases = Bases(sp0: nat, rp0: nat)

  /** Stacks (top last), the handler variable, and the two flags raised while an
      exception is on its way. */
  datatype State = State(d: seq<int>, r: seq<int>, f: seq<int>, handler: int, ehflag: bool, stackeh: bool)

  /** The address of the top cell of a stack of that depth. */
  function Pointer(base: nat, depth: int): int {
    base + CELL * (depth - 1)
  }

  function Depth(base: nat, pointer: int): int {
    (pointer - base + CELL) / CELL
  }

  lemma DepthPointer(base: nat, depth: int)
    ensures Depth(base, Pointer(base, depth)) == depth
  {
  }

  /** A stack set to a depth: what it uncovers was never cleared. */
  function Fit(s: seq<int>, depth: nat, stale: nat -> int): (r: seq<int>)
    ensures |r| == depth && forall i :: 0 <= i < depth && i < |s| ==> r[i] == s[i]
  {
    if depth <= |s| then s[..depth] else s + seq(depth - |s|, i requires 0 <= i => stale(i))
  }

  /** The float stack set to a depth, filled up with zeros. */
  function FitFloat(s: seq<int>, depth: nat): (r: seq<int>)
    ensures |r| == depth && forall i :: 0 <= i < depth ==> r[i] == if i < |s| then s[i] else 0
  {
    Fit(s, depth, i => 0)
  }

  // ----- the runtime -----

  /** CATCH up to EXECUTE: save depths, handler and context, and become the handler. */
  function Entered(b: Bases, st: State, context: int): State {
    var r := st.r + [Pointer(b.sp0, |st.d|), |st.f|, st.handler, context];
    st.(r := r, handler := Pointer(b.rp0, |r|))
  }

  /** CATCH after EXECUTE: drop the frame and report that all went well. */
  function Left(st: State): State
    requires |st.r| >= 4
  {
    var k := |st.r| - 4;
    st.(d := st.d + [0], r := st.r[..k], handler := st.r[k + 2])
  }

  /** How deep the return stack is when the handler's frame is on top. */
  function FrameTop(b: Bases, st: State): int {
    Depth(b.rp0, st.handler)
  }

  /** The frame of the handler lies in the return stack, with depths that make sense. */
  predicate HasFrame(b: Bases, st: State) {
    var k := FrameTop(b, st);
    4 <= k <= |st.r| && 0 <= st.r[k - 3] && 0 <= Depth(b.sp0, st.r[k - 4])
  }

  /** THROW once it is clear that there is a handler: everything as the frame says,
      the code in place of the xt. */
  function Unwound(b: Bases, st: State, stale: nat -> int): State
    requires st.d != [] && HasFrame(b, st) && Depth(b.sp0, st.r[FrameTop(b, st) - 4]) > 0
  {
    var k, code := FrameTop(b, st), st.d[|st.d| - 1];
    var depth := Depth(b.sp0, st.r[k - 4]);
    State(Fit(st.d[..|st.d| - 1], depth, stale)[..depth - 1] + [code], st.r[..k - 4], FitFloat(st.f, st.r[k - 3]),
          st.r[k - 2], false, false)
  }

  lemma UnwoundAnyFlags(b: Bases, st: State, st2: State, stale: nat -> int)
    requires st2 == st.(ehflag := st2.ehflag, stackeh := st2.stackeh)
    requires st.d != [] && HasFrame(b, st)
    ensures HasFrame(b, st2) && FrameTop(b, st2) == FrameTop(b, st)
    ensures Depth(b.sp0, st.r[FrameTop(b, st) - 4]) > 0 ==> Unwound(b, st2, stale) == Unwound(b, st, stale)
  {
    hide Fit, FitFloat, Depth;
  }

  /** What THROW finds on the data stack: when there is nothing, looking at the top
      raises underflow. */
  function Thrower(st: State): State {
    if st.d == [] then st.(d := [UNDERFLOW]) else st
  }

  /** How a throw goes on. */
  datatype Thrown = NoThrow | Resumes(context: int) | Uncaught(code: int) | Quits | DoubleException

  class Runtime {
    const b: Bases
    var d: seq<int>
    var r: seq<int>
    var f: seq<int>
    var handler: int
    var ehflag: bool
    var stackeh: bool

    constructor (b: Bases)
      ensures Now() == State([], [], [], 0, false, false) && this.b == b
    {
      this.b := b;
      d, r, f, handler, ehflag, stackeh := [], [], [], 0, false, false;
    }

    ghost function Now(): State
      reads this
    {
      State(d, r, f, handler, ehflag, stackeh)
    }

    method ToR(v: int)
      modifies this`r
      ensures r == old(r) + [v]
    {
      r := r + [v];
    }

    method FromR() returns (v: int)
      requires r != []
      modifies this`r
      ensures v == old(r)[|old(r)| - 1] && r == old(r)[..|old(r)| - 1]
    {
      v := r[|r| - 1];
      r := r[..|r| - 1];
    }

    /** The words of CATCH before EXECUTE. */
    method EnterCatch(context: int)
      modifies this`r, this`handler
      ensures Now() == Entered(b, old(Now()), context)
      ensures r == old(r) + [b.sp0 + 4 * (|d| - 1), |f|, old(handler), context] && handler == b.rp0 + 4 * (|r| - 1)
    {
      ToR(Pointer(b.sp0, |d|));
      ToR(|f|);
      ToR(handler);
      ToR(context);
      handler := Pointer(b.rp0, |r|);
      assert r == old(r) + [Pointer(b.sp0, |d|), |f|, old(handler), context];
    }

    /** The words of CATCH after EXECUTE. */
    method LeaveCatch()
      requires |r| >= 4
      modifies this`d, this`r, this`handler
      ensures Now() == Left(old(Now()))
      ensures d == old(d) + [0] && r == old(r)[..|old(r)| - 4] && handler == old(r)[|old(r)| - 2]
    {
      var v := FromR();
      handler := FromR();
      v := FromR();
      v := FromR();
      d := d + [0];
    }

    /** Set the depth of the float stack, one item at a time. */
    method SetFloatDepth(depth: nat)
      modifies this`f
      ensures f == FitFloat(old(f), depth)
    {
      while |f| > depth
        invariant |f| <= |old(f)| && f == old(f)[..|f|] && (|f| >= depth || f == old(f))
        decreases |f|
      {
        f := f[..|f| - 1];
      }
      ghost var kept := f;
      assert kept == if depth <= |old(f)| then old(f)[..depth] else old(f);
      while |f| < depth
        invariant |kept| <= |f| && f == kept + seq(|f| - |kept|, i => 0) && (|f| <= depth || f == kept)
        decreases depth - |f|
      {
        f := f + [0];
      }
    }

    /** THROW.  What the data stack uncovers when its depth is set is stale. */
    method Throw(stale: nat -> int) returns (t: Thrown)
      requires handler != 0 && !ehflag && (d != [] ==> d[|d| - 1] != 0 && d[|d| - 1] != -6) ==> HasFrame(b, Now())
      modifies this
      ensures var st := Thrower(old(Now())); var code := st.d[|st.d| - 1];
        && (code == 0 ==> t == NoThrow && Now() == st.(d := st.d[..|st.d| - 1]))
        && (code != 0 && old(ehflag) ==> t == DoubleException)
        && (code != 0 && !old(ehflag) && (code == -6 || old(handler) == 0) ==>
              t == if code == -56 then Quits else Uncaught(code))
        && (code != 0 && !old(ehflag) && code != -6 && old(handler) != 0 ==>
              if Depth(b.sp0, st.r[FrameTop(b, st) - 4]) == 0 then t == DoubleException
              else t == Resumes(st.r[FrameTop(b, st) - 1]) && Now() == Unwound(b, st, stale))
      ensures old(d) == [] && !old(ehflag) && old(handler) == 0 ==> t == Uncaught(-4)
    {
      hide Unwound, Depth, Fit, FitFloat, Pointer;
      if d == [] {
        d := [UNDERFLOW];
      }
      var code := d[|d| - 1];
      if code == 0 {
        d := d[..|d| - 1];
        return NoThrow;
      }
      if ehflag {
        return DoubleException;
      }
      stackeh := true;
      ehflag := true;
      if code == -6 {
        handler := 0;
      }
      if handler == 0 {
        t := if code == -56 then Quits else Uncaught(code);
        return;
      }
      UnwoundAnyFlags(b, Thrower(old(Now())), Now(), stale);
      t := Unwind(stale);
    }

    /** Take the handler's frame off the return stack; the handler and the float
        stack become what it says. */
    method PopFrame() returns (context: int, pointer: int)
      requires HasFrame(b, Now())
      modifies this`r, this`handler, this`f
      ensures var st, k := old(Now()), FrameTop(b, old(Now()));
        && r == st.r[..k - 4] && context == st.r[k - 1] && handler == st.r[k - 2] && pointer == st.r[k - 4]
        && f == FitFloat(st.f, st.r[k - 3])
    {
      hide Fit, FitFloat;
      ghost var k, frames := FrameTop(b, Now()), r;
      r := r[..Depth(b.rp0, handler)];
      context := FromR();
      handler := FromR();
      var depth := FromR();
      SetFloatDepth(depth);
      pointer := FromR();
      assert r == frames[..k - 4];
    }

    /** The second half of THROW: set the stacks as the frame of the handler says. */
    method Unwind(stale: nat -> int) returns (t: Thrown)
      requires d != [] && HasFrame(b, Now())
      modifies this
      ensures var st := old(Now());
        if Depth(b.sp0, st.r[FrameTop(b, st) - 4]) == 0 then t == DoubleException
        else t == Resumes(st.r[FrameTop(b, st) - 1]) && Now() == Unwound(b, st, stale)
    {
      hide Fit, FitFloat;
      ghost var k, frames := FrameTop(b, Now()), r;
      var code := d[|d| - 1];
      var context, pointer := PopFrame();
      d := d[..|d| - 1];
      ToR(code);
      ToR(context);
      d := Fit(d, Depth(b.sp0, pointer), stale);
      if d == [] {
        return DoubleException;
      }
      d := d[..|d| - 1];
      context := FromR();
      code := FromR();
      assert r == frames[..k - 4];
      d := d + [code];
      stackeh := false;
      ehflag := false;
      return Resumes(context);
    }
  }
}
