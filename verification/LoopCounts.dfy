/** How often the body of a DO loop runs. */
module LoopCounts {
  import opened Cells
  import opened Machine
  import opened Statements

  /** Every body of this run of the loop completes, leaves the return stack as it
      found it and, before +LOOP, the same step on the data stack. */
  ghost predicate Steady(p: Program, env: Env, self: Symbol, body: Stmt, plus: bool, step: Cell, core: Core, fuel: nat)
    decreases fuel
  {
    var r := Exec(p, env, self, body, core, fuel);
    && r.Normal? && r.core.rstack == core.rstack
    && (plus ==> Has(r.core, DataStack) && Top(r.core, DataStack) == step)
    && (fuel > 0 && Count(plus, r.core).Normal? ==>
        Steady(p, env, self, body, plus, step, Count(plus, r.core).core, fuel - 1))
  }

  /** How many times the body is run, as far as the fuel goes. */
  ghost function Iterations(p: Program, env: Env, self: Symbol, body: Stmt, plus: bool, core: Core, fuel: nat): nat
    decreases fuel
  {
    var r := Exec(p, env, self, body, core, fuel);
    if r.Normal? && fuel > 0 && Count(plus, r.core).Normal?
    then 1 + Iterations(p, env, self, body, plus, Count(plus, r.core).core, fuel - 1)
    else 1
  }

  // ----- the number of trips -----

  function CeilDiv(a: int, s: int): int
    requires s > 0
  {
    (a + s - 1) / s
  }

  /** How far the index is beyond the limit, as a signed cell. */
  function Beyond(limit: Cell, index: Cell): int {
    Signed(Wrap(index - limit))
  }

  /** Trips of +LOOP with a positive step: up to the limit, after a wrap-around
      when the first step runs over the largest cell. */
  function TripsUp(beyond: int, s: int): int
    requires s > 0
  {
    if beyond < 0 then CeilDiv(-beyond, s)
    else if beyond + s < SIGN_BIT then 1
    else 1 + CeilDiv(CELL_RANGE - beyond - s, s)
  }

  /** Trips of +LOOP with a negative step: down past the limit. */
  function TripsDown(beyond: int, s: int): int
    requires s < 0
  {
    if beyond >= 0 then beyond / (-s) + 1
    else if beyond + s >= -SIGN_BIT then 1
    else 2 + (beyond + s + CELL_RANGE) / (-s)
  }

  /** How often the body runs: for LOOP as often as the index differs from the
      limit modulo 2^32, and 2^32 times when they start equal. */
  function Trips(plus: bool, step: Cell, limit: Cell, index: Cell): int {
    if !plus then (if index == limit then CELL_RANGE else Wrap(limit - index))
    else if Signed(step) > 0 then TripsUp(Beyond(limit, index), Signed(step))
    else if Signed(step) < 0 then TripsDown(Beyond(limit, index), Signed(step))
    else 1
  }

  /** A step of zero below the limit never gets there. */
  predicate Endless(plus: bool, step: Cell, limit: Cell, index: Cell) {
    plus && step == 0 && Beyond(limit, index) < 0
  }

  lemma CeilDivStep(a: int, s: int)
    requires s > 0
    ensures CeilDiv(a, s) == CeilDiv(a - s, s) + 1
    ensures 0 < a <= s ==> CeilDiv(a, s) == 1
    ensures a > s ==> CeilDiv(a - s, s) >= 1
  {
    DivStep(a + s - 1, s);
    if a > s { DivStep(a - 1, s); DivSmall((a - 1) - s, s); }
    if 0 < a <= s { DivSmall(a - 1, s); }
  }

  lemma DivStep(a: int, s: int)
    requires s > 0
    ensures a / s == (a - s) / s + 1
  {
    var q, r := (a - s) / s, (a - s) % s;
    assert a == (q + 1) * s + r;
    DivUnique(a, s, q + 1, r);
  }

  lemma DivUnique(a: int, s: int, q: int, r: int)
    requires s > 0 && a == q * s + r && 0 <= r < s
    ensures a / s == q
  {
    var d := a / s - q;
    assert d * s == r - a % s;
    Multiples(d, s);
  }

  lemma DivSmall(a: int, s: int)
    requires s > 0 && a >= 0
    ensures a / s >= 0 && (a < s ==> a / s == 0)
  {
  }

  lemma BeyondNext(limit: Cell, index: Cell, step: Cell)
    ensures Beyond(limit, Wrap(index + step)) == Signed(Wrap(Beyond(limit, index) + Signed(step)))
  {
    WrapCongruent(Wrap(index + step) - limit, index + step - limit, -((index + step) / CELL_RANGE));
    var k := (index - limit) / CELL_RANGE;
    var j := (if Wrap(index - limit) < SIGN_BIT then 0 else 1) + (if step < SIGN_BIT then 0 else 1);
    WrapCongruent(Beyond(limit, index) + Signed(step), index + step - limit, -k - j);
  }

  lemma WrapCongruent(a: int, b: int, k: int)
    requires a == b + k * CELL_RANGE
    ensures Wrap(a) == Wrap(b)
  {
    var q, r := b / CELL_RANGE, b % CELL_RANGE;
    assert a == (q + k) * CELL_RANGE + r;
    DivUnique(a, CELL_RANGE, q + k, r);
  }

  lemma WrapsOnce(x: int)
    requires -CELL_RANGE <= x < CELL_RANGE
    ensures Signed(Wrap(x)) == if x < -SIGN_BIT then x + CELL_RANGE else if x < SIGN_BIT then x else x - CELL_RANGE
  {
    if x < 0 { WrapCongruent(x, x + CELL_RANGE, -1); }
  }

  /** One trip less from the next index on, or no more trips at all. */
  lemma TripsNext(plus: bool, step: Cell, limit: Cell, index: Cell)
    requires !Endless(plus, step, limit, index) && (!plus ==> step == 1)
    ensures var next := Wrap(index + step);
      if GoesOn(plus, step, next, limit)
      then !Endless(plus, step, limit, next) && Trips(plus, step, limit, next) == Trips(plus, step, limit, index) - 1
      else Trips(plus, step, limit, index) == 1
    ensures Trips(plus, step, limit, index) >= 1
  {
    if !plus {
      LoopTrips(limit, index);
    } else {
      var b, s := Beyond(limit, index), Signed(step);
      BeyondNext(limit, index, step);
      WrapsOnce(b + s);
      if s > 0 {
        UpTrips(b, s);
      } else if s < 0 {
        DownTrips(b, s);
      }
    }
  }

  lemma LoopTrips(limit: Cell, index: Cell)
    ensures var next := Wrap(index + 1);
      if next != limit then Trips(false, 1, limit, next) == Trips(false, 1, limit, index) - 1
      else Trips(false, 1, limit, index) == 1
    ensures Trips(false, 1, limit, index) >= 1
  {
    Successor(index);
    Distance(limit, index);
    Distance(limit, Wrap(index + 1));
    hide Wrap;
  }

  lemma Successor(index: Cell)
    ensures Wrap(index + 1) == if index + 1 == CELL_RANGE then 0 else index + 1
  {
    if index + 1 == CELL_RANGE { WrapCongruent(index + 1, 0, 1); }
  }

  /** How far it is from the index up to the limit. */
  lemma Distance(limit: Cell, index: Cell)
    ensures Wrap(limit - index) == if limit < index then limit - index + CELL_RANGE else limit - index
  {
    if limit < index { WrapCongruent(limit - index, limit - index + CELL_RANGE, -1); }
  }

  lemma UpTrips(b: int, s: int)
    requires -SIGN_BIT <= b < SIGN_BIT && 0 < s < SIGN_BIT
    ensures var next := if b + s < SIGN_BIT then b + s else b + s - CELL_RANGE;
      if next < 0 then TripsUp(next, s) == TripsUp(b, s) - 1 else TripsUp(b, s) == 1
    ensures TripsUp(b, s) >= 1
  {
    if b < 0 {
      CeilDivStep(-b, s);
    } else if b + s >= SIGN_BIT {
      CeilDivStep(CELL_RANGE - b - s, s);
    }
  }

  lemma DownTrips(b: int, s: int)
    requires -SIGN_BIT <= b < SIGN_BIT && -SIGN_BIT <= s < 0
    ensures var next := if b + s >= -SIGN_BIT then b + s else b + s + CELL_RANGE;
      if next >= 0 then TripsDown(next, s) == TripsDown(b, s) - 1 else TripsDown(b, s) == 1
    ensures TripsDown(b, s) >= 1
  {
    if b >= 0 {
      DivStep(b, -s);
      DivSmall(b, -s);
    } else if b + s < -SIGN_BIT {
      DivSmall(b + s + CELL_RANGE, -s);
    }
  }

  // ----- loops -----

  /** After a body that leaves limit and index, counting replaces the index and
      goes on, or unlooping restores what was below. */
  lemma CountSteady(plus: bool, step: Cell, core: Core, below: seq<Cell>, limit: Cell, index: Cell)
    requires core.rstack == below + [limit, index] && (!plus ==> step == 1)
    requires plus ==> Has(core, DataStack) && Top(core, DataStack) == step
    ensures var next, r := Wrap(index + step), Count(plus, core);
      if GoesOn(plus, step, next, limit) then r.Normal? && r.core.rstack == below + [limit, next]
      else r.Broke? && Unloop(r.core).Normal? && Unloop(r.core).core.rstack == below
  {
    var core1 := if plus then Drop(core, DataStack) else core;
    assert core1.rstack == below + [limit, index];
    CountBySteady(plus, step, core1, below, limit, index);
  }

  lemma CountBySteady(plus: bool, step: Cell, core: Core, below: seq<Cell>, limit: Cell, index: Cell)
    requires core.rstack == below + [limit, index]
    ensures var next, r := Wrap(index + step), CountBy(plus, step, core);
      if GoesOn(plus, step, next, limit) then r.Normal? && r.core.rstack == below + [limit, next]
      else r.Broke? && Unloop(r.core).Normal? && Unloop(r.core).core.rstack == below
  {
    var core1 := Drop(core, ReturnStack);
    assert core1.rstack == below + [limit];
    var counted := PushTo(core1, ReturnStack, Wrap(index + step));
    assert counted.rstack == below + [limit, Wrap(index + step)];
    assert Drop(counted, ReturnStack).rstack == below + [limit];
    assert Drop(Drop(counted, ReturnStack), ReturnStack).rstack == below;
  }

  /** A steady loop runs its body exactly Trips times and restores the return
      stack; with less fuel than that it does not end. */
  lemma {:induction false} LoopRuns(p: Program, env: Env, self: Symbol, body: Stmt, plus: bool, step: Cell, core: Core,
                                    fuel: nat, below: seq<Cell>, limit: Cell, index: Cell)
    requires core.rstack == below + [limit, index] && (!plus ==> step == 1)
    requires Steady(p, env, self, body, plus, step, core, fuel) && !Endless(plus, step, limit, index)
    ensures var trips, r := Trips(plus, step, limit, index), Loop(p, env, self, body, plus, core, fuel);
      if fuel < trips - 1 then r == OutOfFuel && Iterations(p, env, self, body, plus, core, fuel) == fuel + 1
      else r.Normal? && r.core.rstack == below && Iterations(p, env, self, body, plus, core, fuel) == trips
    decreases fuel
  {
    hide Exec, Count, Unloop, GoesOn, Trips, Endless;
    var core1 := Exec(p, env, self, body, core, fuel).core;
    TripsNext(plus, step, limit, index);
    CountSteady(plus, step, core1, below, limit, index);
    var next := Wrap(index + step);
    if GoesOn(plus, step, next, limit) {
      TripsNext(plus, step, limit, next);
    }
    if GoesOn(plus, step, next, limit) && fuel > 0 {
      LoopRuns(p, env, self, body, plus, step, Count(plus, core1).core, fuel - 1, below, limit, next);
    }
  }

  /** A steady loop with step zero below its limit never ends. */
  lemma {:induction false} EndlessLoop(p: Program, env: Env, self: Symbol, body: Stmt, core: Core, fuel: nat,
                                       below: seq<Cell>, limit: Cell, index: Cell)
    requires core.rstack == below + [limit, index]
    requires Steady(p, env, self, body, true, 0, core, fuel) && Endless(true, 0, limit, index)
    ensures Loop(p, env, self, body, true, core, fuel) == OutOfFuel
    decreases fuel
  {
    hide Exec, Count, Unloop, Trips;
    var core1 := Exec(p, env, self, body, core, fuel).core;
    CountSteady(true, 0, core1, below, limit, index);
    assert Wrap(index + 0) == index;
    if fuel > 0 {
      EndlessLoop(p, env, self, body, Count(true, core1).core, fuel - 1, below, limit, index);
    }
  }

  /** Where the loop starts, given limit and start on the data stack. */
  function Entry(core: Core, rest: seq<Cell>, limit: Cell, start: Cell): Core {
    core.(dstack := rest, rstack := core.rstack + [limit, start])
  }

  /** DO and ?DO: how a whole loop statement with a steady body runs. */
  lemma DoRuns(p: Program, env: Env, self: Symbol, query: bool, body: Stmt, plus: bool, step: Cell, core: Core,
               fuel: nat, rest: seq<Cell>, limit: Cell, start: Cell)
    requires core.dstack == rest + [limit, start] && (!plus ==> step == 1)
    requires !(query && start == limit) ==>
      Steady(p, env, self, body, plus, step, Entry(core, rest, limit, start), fuel)
      && !Endless(plus, step, limit, start)
    ensures var r := Exec(p, env, self, DoLoop(query, body, plus), core, fuel);
      if query && start == limit then r == Normal(core.(dstack := rest))
      else if fuel < Trips(plus, step, limit, start) - 1 then r == OutOfFuel
      else
        && r.Normal? && r.core.rstack == core.rstack
        && Iterations(p, env, self, body, plus, Entry(core, rest, limit, start), fuel) ==
          Trips(plus, step, limit, start)
  {
    hide Trips, Endless, Steady, Iterations, Loop;
    var entry := Entry(core, rest, limit, start);
    DoEnters(p, env, self, query, body, plus, core, fuel, rest, limit, start);
    if !(query && start == limit) {
      LoopRuns(p, env, self, body, plus, step, entry, fuel, core.rstack, limit, start);
    }
  }

  lemma DoEnters(p: Program, env: Env, self: Symbol, query: bool, body: Stmt, plus: bool, core: Core, fuel: nat,
                 rest: seq<Cell>, limit: Cell, start: Cell)
    requires core.dstack == rest + [limit, start]
    ensures Exec(p, env, self, DoLoop(query, body, plus), core, fuel) ==
      if query && start == limit then Normal(core.(dstack := rest))
      else Loop(p, env, self, body, plus, Entry(core, rest, limit, start), fuel)
  {
    hide Loop, Exec;
    DoBegins(p, env, self, query, body, plus, core, fuel);
    var core1 := Drop(core, DataStack);
    assert core1.dstack == rest + [limit];
    var core2 := Drop(core1, DataStack);
    assert core2.dstack == rest;
    assert PushTo(PushTo(core2, ReturnStack, limit), ReturnStack, start) == Entry(core, rest, limit, start);
  }

  lemma DoBegins(p: Program, env: Env, self: Symbol, query: bool, body: Stmt, plus: bool, core: Core, fuel: nat)
    requires Has(core, DataStack) && Has(Drop(core, DataStack), DataStack)
    ensures var start, core1 := Top(core, DataStack), Drop(core, DataStack);
      var limit, core2 := Top(core1, DataStack), Drop(core1, DataStack);
      Exec(p, env, self, DoLoop(query, body, plus), core, fuel) ==
        if query && start == limit then Normal(core2)
        else Loop(p, env, self, body, plus, PushTo(PushTo(core2, ReturnStack, limit), ReturnStack, start), fuel)
  {
    hide Loop, Has, Top, Drop, PushTo;
  }

  /** In the usual case the trips are the plain quotients: rounded up when counting
      up from below the limit, rounded down and one more when counting down to it. */
  lemma UsualTrips(step: Cell, limit: Cell, start: Cell)
    ensures Signed(step) > 0 && 0 < Signed(limit) - Signed(start) < SIGN_BIT ==>
      Trips(true, step, limit, start) == CeilDiv(Signed(limit) - Signed(start), Signed(step))
    ensures Signed(step) < 0 && 0 <= Signed(start) - Signed(limit) < SIGN_BIT ==>
      Trips(true, step, limit, start) == (Signed(start) - Signed(limit)) / (-Signed(step)) + 1
  {
    var d := Signed(start) - Signed(limit);
    var j := (if start < SIGN_BIT then 0 else 1) - (if limit < SIGN_BIT then 0 else 1);
    WrapCongruent(start - limit, d, j);
    WrapsOnce(d);
  }
}
