/** The Push machine as a value: the five frame stacks (each a stack of
    stacks whose top is the current stack of its type), the exec and input
    stacks, the frame-mode flag and the instruction table; and the meaning
    of one fetch-execute step. The `Psh` class keeps the same state in
    fields and its methods are proved against these functions. */
module Machine {
  import opened Atoms
  import opened Faults

  /** What a registered name runs. Only the frame instructions are modelled;
      the other instruction classes are not part of this model and act
      through an `Effect`. */
  datatype Instr =
    | Opaque(name: string)                  // an instruction of the fixed table
    | StackOp(typeName: string, op: string) // pop, swap, ... of one stack type
    | InputIn(index: int)                   // input.in<index>
    | FramePush
    | FramePop

  /** The current stacks, as an instruction sees them. */
  datatype Stacks = Stacks(
    ints: seq<int>, floats: seq<Float32>, bools: seq<bool>,
    code: seq<Atom>, names: seq<Atom>, exec: seq<Atom>, input: seq<Atom>)

  /** The effect of running an instruction whose class is not modelled. */
  type Effect = (Instr, Stacks) -> Stacks

  datatype State = State(
    intFrames: seq<seq<int>>,
    floatFrames: seq<seq<Float32>>,
    boolFrames: seq<seq<bool>>,
    codeFrames: seq<seq<Atom>>,
    nameFrames: seq<seq<Atom>>,
    exec: seq<Atom>,
    input: seq<Atom>,
    useFrames: bool,
    instructions: map<string, Instr>)

  /** All five frame stacks hold the same, positive number of frames. */
  predicate Framed(m: State)
  {
    && |m.intFrames| >= 1
    && |m.floatFrames| == |m.intFrames|
    && |m.boolFrames| == |m.intFrames|
    && |m.codeFrames| == |m.intFrames|
    && |m.nameFrames| == |m.intFrames|
  }

  function Depth(m: State): nat
  {
    |m.intFrames|
  }

  function Top<T>(fs: seq<seq<T>>): seq<T>
    requires |fs| >= 1
  {
    fs[|fs| - 1]
  }

  function Below<T>(fs: seq<seq<T>>): seq<seq<T>>
    requires |fs| >= 1
  {
    fs[..|fs| - 1]
  }

  /** `fs` with its top stack replaced by `s`. */
  function SetTop<T>(fs: seq<seq<T>>, s: seq<T>): (r: seq<seq<T>>)
    requires |fs| >= 1
    ensures |r| == |fs| && Below(r) == Below(fs) && Top(r) == s
  {
    Below(fs) + [s]
  }

  // ---- the value `top()` yields; on an empty stack the defaults of the
  // ---- primitive stacks (0, 0.0, false) and null for object stacks

  function TopInt(s: seq<int>): int { if s == [] then 0 else s[|s| - 1] }
  function TopFloat(s: seq<Float32>): Float32 { if s == [] then FloatZero else s[|s| - 1] }
  function TopBool(s: seq<bool>): bool { if s == [] then false else s[|s| - 1] }
  function TopObject(s: seq<Atom>): Option<Atom> { if s == [] then None else Some(s[|s| - 1]) }

  /** Push `o` unless it is null. */
  function PushIfSome(s: seq<Atom>, o: Option<Atom>): seq<Atom>
  {
    if o.Some? then s + [o.value] else s
  }

  /** The current stacks of a state. */
  function Current(m: State): Stacks
    requires Framed(m)
  {
    Stacks(Top(m.intFrames), Top(m.floatFrames), Top(m.boolFrames),
           Top(m.codeFrames), Top(m.nameFrames), m.exec, m.input)
  }

  /** `m` with its current stacks replaced by `st`. */
  function WithCurrent(m: State, st: Stacks): (r: State)
    requires Framed(m)
    ensures Framed(r) && Depth(r) == Depth(m) && Current(r) == st
    ensures r.useFrames == m.useFrames && r.instructions == m.instructions
  {
    m.(intFrames := SetTop(m.intFrames, st.ints),
       floatFrames := SetTop(m.floatFrames, st.floats),
       boolFrames := SetTop(m.boolFrames, st.bools),
       codeFrames := SetTop(m.codeFrames, st.code),
       nameFrames := SetTop(m.nameFrames, st.names),
       exec := st.exec, input := st.input)
  }

  /** Every frame below the current one is the same in `a` and `b`. */
  predicate SameSavedFrames(a: State, b: State)
    requires Framed(a) && Framed(b)
  {
    && Below(a.intFrames) == Below(b.intFrames)
    && Below(a.floatFrames) == Below(b.floatFrames)
    && Below(a.boolFrames) == Below(b.boolFrames)
    && Below(a.codeFrames) == Below(b.codeFrames)
    && Below(a.nameFrames) == Below(b.nameFrames)
  }

  // ---- frames

  /** `PushStacks`: a fresh empty stack of each type becomes current, one
      frame deeper; the former current stacks are saved below it. */
  function PushStacks(m: State): (r: State)
    requires Framed(m)
    ensures Framed(r) && Depth(r) == Depth(m) + 1
    ensures Current(r) == Stacks([], [], [], [], [], m.exec, m.input)
    ensures Below(r.intFrames) == m.intFrames && Below(r.floatFrames) == m.floatFrames
    ensures Below(r.boolFrames) == m.boolFrames && Below(r.codeFrames) == m.codeFrames
    ensures Below(r.nameFrames) == m.nameFrames
    ensures r.exec == m.exec && r.input == m.input
    ensures r.useFrames == m.useFrames && r.instructions == m.instructions
  {
    m.(intFrames := m.intFrames + [[]], floatFrames := m.floatFrames + [[]],
       boolFrames := m.boolFrames + [[]], codeFrames := m.codeFrames + [[]],
       nameFrames := m.nameFrames + [[]])
  }

  /** `PopStacks`: the current frame is dropped and the one below becomes
      current again. Dropping the only frame leaves no current stacks, which
      the next use dereferences as null. */
  function PopStacks(m: State): (r: Result<State>)
    requires Framed(m)
    ensures r.Err? <==> Depth(m) == 1
    ensures r.Err? ==> r.fault == NullPointer
    ensures r.Ok? ==> Framed(r.value) && Depth(r.value) == Depth(m) - 1
    ensures r.Ok? ==> r.value.intFrames == Below(m.intFrames) && r.value.nameFrames == Below(m.nameFrames)
    ensures r.Ok? ==> r.value.floatFrames == Below(m.floatFrames) && r.value.boolFrames == Below(m.boolFrames)
    ensures r.Ok? ==> r.value.codeFrames == Below(m.codeFrames)
    ensures r.Ok? ==> r.value.exec == m.exec && r.value.input == m.input
    ensures r.Ok? ==> r.value.useFrames == m.useFrames && r.value.instructions == m.instructions
  {
    if Depth(m) == 1 then Err(NullPointer)
    else Ok(m.(intFrames := Below(m.intFrames), floatFrames := Below(m.floatFrames),
               boolFrames := Below(m.boolFrames), codeFrames := Below(m.codeFrames),
               nameFrames := Below(m.nameFrames)))
  }

  /** The current stacks of `into`, each with the top value of `from`
      pushed: always for the int, float and bool stacks, and for the name
      and code stacks only when `from`'s stack is not empty. */
  function CarryTops(from: Stacks, into: Stacks): Stacks
  {
    into.(ints := into.ints + [TopInt(from.ints)],
          floats := into.floats + [TopFloat(from.floats)],
          bools := into.bools + [TopBool(from.bools)],
          names := PushIfSome(into.names, TopObject(from.names)),
          code := PushIfSome(into.code, TopObject(from.code)))
  }

  /** `PushFrame`: with frames in use, a new frame whose stacks start with
      the top values of the caller's; otherwise nothing. */
  function PushFrame(m: State): (r: State)
    requires Framed(m)
    ensures Framed(r)
    ensures !m.useFrames ==> r == m
    ensures r.exec == m.exec && r.input == m.input
    ensures r.useFrames == m.useFrames && r.instructions == m.instructions
    ensures m.useFrames ==> Depth(r) == Depth(m) + 1
    ensures m.useFrames ==> Below(r.intFrames) == m.intFrames && Below(r.floatFrames) == m.floatFrames
    ensures m.useFrames ==> Below(r.boolFrames) == m.boolFrames && Below(r.codeFrames) == m.codeFrames
    ensures m.useFrames ==> Below(r.nameFrames) == m.nameFrames
    ensures m.useFrames ==> Top(r.intFrames) == [TopInt(Top(m.intFrames))]
    ensures m.useFrames ==> Top(r.floatFrames) == [TopFloat(Top(m.floatFrames))]
    ensures m.useFrames ==> Top(r.boolFrames) == [TopBool(Top(m.boolFrames))]
    ensures m.useFrames ==> Top(r.nameFrames) == PushIfSome([], TopObject(Top(m.nameFrames)))
    ensures m.useFrames ==> Top(r.codeFrames) == PushIfSome([], TopObject(Top(m.codeFrames)))
  {
    if !m.useFrames then m
    else
      var pushed := PushStacks(m);
      WithCurrent(pushed, CarryTops(Current(m), Current(pushed)))
  }

  /** `PopFrame`: with frames in use, the current frame is dropped and its
      top values are pushed onto the caller's stacks; otherwise nothing. */
  function PopFrame(m: State): (r: Result<State>)
    requires Framed(m)
    ensures !m.useFrames ==> r == Ok(m)
    ensures m.useFrames ==> (r.Err? <==> Depth(m) == 1)
    ensures r.Ok? ==> Framed(r.value)
    ensures r.Ok? ==> r.value.exec == m.exec && r.value.input == m.input
    ensures r.Ok? ==> r.value.useFrames == m.useFrames && r.value.instructions == m.instructions
    ensures m.useFrames && r.Ok? ==> Depth(r.value) == Depth(m) - 1
    ensures m.useFrames && r.Ok? ==>
      && Below(r.value.intFrames) == Below(Below(m.intFrames))
      && Below(r.value.floatFrames) == Below(Below(m.floatFrames))
      && Below(r.value.boolFrames) == Below(Below(m.boolFrames))
      && Below(r.value.codeFrames) == Below(Below(m.codeFrames))
      && Below(r.value.nameFrames) == Below(Below(m.nameFrames))
    ensures m.useFrames && r.Ok? ==>
      && Top(r.value.intFrames) == Top(Below(m.intFrames)) + [TopInt(Top(m.intFrames))]
      && Top(r.value.floatFrames) == Top(Below(m.floatFrames)) + [TopFloat(Top(m.floatFrames))]
      && Top(r.value.boolFrames) == Top(Below(m.boolFrames)) + [TopBool(Top(m.boolFrames))]
      && Top(r.value.nameFrames) == PushIfSome(Top(Below(m.nameFrames)), TopObject(Top(m.nameFrames)))
      && Top(r.value.codeFrames) == PushIfSome(Top(Below(m.codeFrames)), TopObject(Top(m.codeFrames)))
  {
    if !m.useFrames then Ok(m)
    else
      match PopStacks(m)
      case Err(f) => Err(f)
      case Ok(popped) => Ok(WithCurrent(popped, CarryTops(Current(m), Current(popped))))
  }

  /** The current stacks with each top value pushed once more. */
  function Reseed(m: State): State
    requires Framed(m)
  {
    WithCurrent(m, CarryTops(Current(m), Current(m)))
  }

  /** A frame pushed and then popped again leaves the caller's frame as it
      was, except that each of its tops comes back once more: the values
      that went in are the values that come out. */
  lemma PushThenPopFrame(m: State)
    requires Framed(m) && m.useFrames
    ensures PopFrame(PushFrame(m)) == Ok(Reseed(m))
  {
    var pushed := PushFrame(m);
    var c := Current(m);
    var popped := PopStacks(pushed).value;
    assert popped.floatFrames == m.floatFrames && popped.boolFrames == m.boolFrames;
    assert popped.codeFrames == m.codeFrames;
    assert popped == m;
    assert TopObject(Top(pushed.nameFrames)) == TopObject(c.names);
    assert TopObject(Top(pushed.codeFrames)) == TopObject(c.code);
    assert CarryTops(Current(pushed), c) == CarryTops(c, c);
  }

  /** Frame stacks pushed and popped again are the frame stacks before. */
  lemma PushThenPopStacks(m: State)
    requires Framed(m)
    ensures PopStacks(PushStacks(m)) == Ok(m)
  {
  }

  // ---- one fetch-execute step

  /** `ExecuteInstruction` on atom `a` (already popped off exec). */
  function ExecAtom(m: State, a: Atom, effect: Effect): (r: Result<State>)
    requires Framed(m)
    ensures r.Ok? ==> Framed(r.value)
    ensures r.Ok? ==> r.value.instructions == m.instructions && r.value.useFrames == m.useFrames
    ensures r.Err? <==> (a.InstrRef? ||
      (a.Name? && a.s in m.instructions && m.instructions[a.s] == FramePop && m.useFrames && Depth(m) == 1))
  {
    match a
    case Prog(ch) =>
      Ok(m.(exec := if m.useFrames
                    then PushAllReverse(m.exec + [Name("frame.pop")], ch) + [Name("frame.push")]
                    else PushAllReverse(m.exec, ch)))
    case Int(i) => Ok(m.(intFrames := SetTop(m.intFrames, Top(m.intFrames) + [i])))
    case Flt(f) => Ok(m.(floatFrames := SetTop(m.floatFrames, Top(m.floatFrames) + [f])))
    case Name(s) =>
      if s in m.instructions then Run(m, m.instructions[s], effect)
      else Ok(m.(nameFrames := SetTop(m.nameFrames, Top(m.nameFrames) + [a])))
    case InstrRef(_) => Err(InternalError)
  }

  /** Running a registered instruction. */
  function Run(m: State, i: Instr, effect: Effect): (r: Result<State>)
    requires Framed(m)
    ensures r.Ok? ==> Framed(r.value)
    ensures r.Ok? ==> r.value.instructions == m.instructions && r.value.useFrames == m.useFrames
    ensures r.Err? <==> i == FramePop && m.useFrames && Depth(m) == 1
  {
    match i
    case FramePush => Ok(PushFrame(m))
    case FramePop => PopFrame(m)
    case _ => Ok(WithCurrent(m, effect(i, Current(m))))
  }

  /** One iteration of `Step`'s loop: pop the top of exec and execute it. */
  function StepOnce(m: State, effect: Effect): (r: Result<State>)
    requires Framed(m) && m.exec != []
    ensures r.Ok? ==> Framed(r.value) && r.value.instructions == m.instructions
  {
    ExecAtom(m.(exec := m.exec[..|m.exec| - 1]), m.exec[|m.exec| - 1], effect)
  }

  /** The loop's next iteration after `r`: a fault stays a fault, an
      empty exec ends the loop, otherwise one more step. */
  function Advance(r: Result<State>, effect: Effect): (r': Result<State>)
    requires r.Ok? ==> Framed(r.value)
    ensures r.Err? ==> r' == r
    ensures r'.Ok? ==> Framed(r'.value) && r'.value.instructions == r.value.instructions
  {
    match r
    case Err(_) => r
    case Ok(prev) => if prev.exec == [] then r else StepOnce(prev, effect)
  }

  /** `n` iterations of `Step`'s loop, stopping early once exec is empty. */
  function Iterate(m: State, n: nat, effect: Effect): (r: Result<State>)
    requires Framed(m)
    ensures r.Ok? ==> Framed(r.value) && r.value.instructions == m.instructions
  {
    if n == 0 then Ok(m) else Advance(Iterate(m, n - 1, effect), effect)
  }

  /** Each of the first `n` iterations from `m` found an object on exec
      to execute: the count `Step` returns is the number of objects it
      popped, not a larger one. */
  predicate Busy(m: State, n: nat, effect: Effect)
    requires Framed(m)
  {
    forall k :: 0 <= k < n ==> Iterate(m, k, effect).Ok? && Iterate(m, k, effect).value.exec != []
  }

  /** One more busy iteration. */
  lemma BusyMore(m: State, n: nat, effect: Effect)
    requires Framed(m) && Busy(m, n, effect)
    requires Iterate(m, n, effect).Ok? && Iterate(m, n, effect).value.exec != []
    ensures Busy(m, n + 1, effect)
  {
  }

  /** The count is determined: two busy counts up to `limit` that each end
      with exec empty or at `limit` are the same count. */
  lemma BusyCountUnique(m: State, a: nat, b: nat, limit: nat, effect: Effect)
    requires Framed(m) && a <= limit && b <= limit
    requires Busy(m, a, effect) && Iterate(m, a, effect).Ok?
    requires Iterate(m, a, effect).value.exec == [] || a == limit
    requires Busy(m, b, effect) && Iterate(m, b, effect).Ok?
    requires Iterate(m, b, effect).value.exec == [] || b == limit
    ensures a == b
  {
    if a < b {
      assert Iterate(m, a, effect).value.exec != [];
    } else if b < a {
      assert Iterate(m, b, effect).value.exec != [];
    }
  }

  /** Running `a` and then `b` more iterations is running `a + b`. */
  lemma {:induction false} IterateAdd(m: State, a: nat, b: nat, effect: Effect)
    requires Framed(m)
    ensures Iterate(m, a + b, effect) ==
      match Iterate(m, a, effect)
      case Err(f) => Err(f)
      case Ok(mid) => Iterate(mid, b, effect)
  {
    if b > 0 {
      IterateAdd(m, a, b - 1, effect);
      assert Iterate(m, a + b, effect) == Advance(Iterate(m, a + (b - 1), effect), effect);
      match Iterate(m, a, effect)
      case Err(_) =>
      case Ok(mid) =>
        assert Iterate(mid, b, effect) == Advance(Iterate(mid, b - 1, effect), effect);
    }
  }

  /** Once exec is empty the loop has nothing left to do: further
      iterations leave the state as it is. */
  lemma {:induction false} IterateHalted(m: State, n: nat, k: nat, s: State, effect: Effect)
    requires Framed(m) && Iterate(m, n, effect) == Ok(s) && s.exec == []
    ensures Iterate(m, n + k, effect) == Ok(s)
    decreases k
  {
    if k > 0 {
      IterateHalted(m, n, k - 1, s, effect);
      var r := Iterate(m, n + (k - 1), effect);
      assert r == Ok(s);
      assert Advance(r, effect) == r by {
        assert r.Ok? && r.value.exec == [];
      }
      assert Iterate(m, n + k, effect) == Advance(r, effect);
    }
  }

  /** The frame markers around a nested program: after a `Prog` atom runs
      with frames in use, exec holds, from its top down, `frame.push`, the
      children in program order, `frame.pop`, and then what lay below. */
  lemma ProgramBracketedByFrames(m: State, ch: seq<Atom>, effect: Effect)
    requires Framed(m) && m.useFrames
    ensures var r := ExecAtom(m, Prog(ch), effect);
      && r.Ok?
      && |r.value.exec| == |m.exec| + |ch| + 2
      && r.value.exec[..|m.exec|] == m.exec
      && r.value.exec[|m.exec|] == Name("frame.pop")
      && r.value.exec[|m.exec| + |ch| + 1] == Name("frame.push")
      && forall k :: 0 <= k < |ch| ==> r.value.exec[|m.exec| + |ch| - k] == ch[k]
  {
    var below := m.exec + [Name("frame.pop")];
    PushAllReverseOrder(below, ch);
    var e := ExecAtom(m, Prog(ch), effect).value.exec;
    assert e == PushAllReverse(below, ch) + [Name("frame.push")];
    assert e[..|m.exec|] == below[..|m.exec|];
  }

  /** The integers carried by a sequence of integer literals. */
  function IntsOf(s: seq<Atom>): (r: seq<int>)
    requires forall k :: 0 <= k < |s| ==> s[k].Int?
    ensures |r| == |s|
  {
    if s == [] then [] else [s[0].i] + IntsOf(s[1..])
  }

  /** An integer literal on top of exec moves to the current int stack. */
  lemma StepInt(m: State, below: seq<Atom>, v: int, effect: Effect)
    requires Framed(m) && m.exec == below + [Int(v)]
    ensures Iterate(m, 1, effect) == Ok(WithInts(m, below, [v]))
  {
    assert m.exec[..|m.exec| - 1] == below && m.exec[|m.exec| - 1] == Int(v);
  }

  /** `m` with exec cut down to `rest` and `xs` pushed on the int stack. */
  function WithInts(m: State, rest: seq<Atom>, xs: seq<int>): State
    requires Framed(m)
  {
    m.(exec := rest, intFrames := SetTop(m.intFrames, Top(m.intFrames) + xs))
  }

  lemma WithIntsTwice(m: State, below: seq<Atom>, rest: seq<Atom>, x: int, xs: seq<int>)
    requires Framed(m)
    ensures Framed(WithInts(m, below, [x]))
    ensures WithInts(WithInts(m, below, [x]), rest, xs) == WithInts(m, rest, [x] + xs)
  {
    assert Top(m.intFrames) + [x] + xs == Top(m.intFrames) + ([x] + xs);
  }

  /** Children on exec in reverse order run first to last: each integer
      literal lands on the current int stack, in program order. */
  lemma {:induction false} RunIntLiterals(m: State, rest: seq<Atom>, ch: seq<Atom>, effect: Effect)
    requires Framed(m) && m.exec == rest + Reverse(ch)
    requires forall k :: 0 <= k < |ch| ==> ch[k].Int?
    ensures Iterate(m, |ch|, effect) == Ok(WithInts(m, rest, IntsOf(ch)))
    decreases |ch|
  {
    if ch == [] {
      assert m.exec == rest;
      assert Top(m.intFrames) + [] == Top(m.intFrames);
      assert SetTop(m.intFrames, Top(m.intFrames)) == m.intFrames;
    } else {
      RunIntLiteralsStep(m, rest, ch, effect);
    }
  }

  lemma {:induction false} RunIntLiteralsStep(m: State, rest: seq<Atom>, ch: seq<Atom>, effect: Effect)
    requires Framed(m) && m.exec == rest + Reverse(ch) && ch != []
    requires forall k :: 0 <= k < |ch| ==> ch[k].Int?
    ensures Iterate(m, |ch|, effect) == Ok(WithInts(m, rest, IntsOf(ch)))
    decreases |ch|, 0
  {
    var c, tail := ch[0], ch[1..];
    var below := rest + Reverse(tail);
    assert m.exec == below + [Int(c.i)] by {
      assert Reverse(ch) == Reverse(tail) + [c];
    }
    var next := WithInts(m, below, [c.i]);
    StepIntThen(m, below, c.i, |tail|, effect);
    RunIntLiterals(next, rest, tail, effect);
    WithIntsTwice(m, below, rest, c.i, IntsOf(tail));
  }

  /** `n + 1` steps from an integer literal on top of exec are the step
      that pushes it, then `n` more. */
  lemma StepIntThen(m: State, below: seq<Atom>, v: int, n: nat, effect: Effect)
    requires Framed(m) && m.exec == below + [Int(v)]
    ensures Iterate(m, 1 + n, effect) == Iterate(WithInts(m, below, [v]), n, effect)
  {
    StepInt(m, below, v, effect);
    IterateAdd(m, 1, n, effect);
  }

  /** Without frames, a program of integer literals on top of exec takes
      one step to open and one step per literal, and leaves its literals on
      the int stack in program order and exec as it was below it. */
  lemma RunIntProgram(m: State, rest: seq<Atom>, ch: seq<Atom>, effect: Effect)
    requires Framed(m) && !m.useFrames && m.exec == rest + [Prog(ch)]
    requires forall k :: 0 <= k < |ch| ==> ch[k].Int?
    ensures Iterate(m, 1 + |ch|, effect) == Ok(WithInts(m, rest, IntsOf(ch)))
  {
    var started := m.(exec := rest + Reverse(ch));
    assert Iterate(m, 1, effect) == Ok(started) by {
      OpenProgram(m, rest, ch, effect);
    }
    IterateAdd(m, 1, |ch|, effect);
    RunIntLiterals(started, rest, ch, effect);
  }

  /** Without frames, the step that pops a program pushes its children. */
  lemma OpenProgram(m: State, rest: seq<Atom>, ch: seq<Atom>, effect: Effect)
    requires Framed(m) && !m.useFrames && m.exec == rest + [Prog(ch)]
    ensures StepOnce(m, effect) == Ok(m.(exec := rest + Reverse(ch)))
  {
    assert m.exec[..|m.exec| - 1] == rest && m.exec[|m.exec| - 1] == Prog(ch);
  }

  // ---- loading and clearing

  /** `LoadProgram`: the program goes on top of the current code stack and
      of exec. */
  function Load(m: State, p: Atom): (r: State)
    requires Framed(m)
    ensures Framed(r) && SameSavedFrames(m, r)
  {
    var st := Current(m);
    WithCurrent(m, st.(code := st.code + [p], exec := st.exec + [p]))
  }

  lemma LoadPushes(m: State, p: Atom)
    requires Framed(m)
    ensures Load(m, p) ==
      m.(codeFrames := SetTop(m.codeFrames, Top(m.codeFrames) + [p]), exec := m.exec + [p])
  {
  }

  /** Loading a program of integer literals without frames and taking one
      step per point of it leaves the literals on the int stack in program
      order, exec as it was before loading, and the program on the code
      stack. */
  lemma ExecuteIntProgram(m: State, ch: seq<Atom>, effect: Effect)
    requires Framed(m) && !m.useFrames
    requires forall k :: 0 <= k < |ch| ==> ch[k].Int?
    ensures Iterate(Load(m, Prog(ch)), 1 + |ch|, effect) ==
      Ok(WithInts(Load(m, Prog(ch)), m.exec, IntsOf(ch)))
    ensures Top(Load(m, Prog(ch)).codeFrames) == Top(m.codeFrames) + [Prog(ch)]
  {
    RunIntProgram(Load(m, Prog(ch)), m.exec, ch, effect);
  }

  /** `ClearStacks` on the frame stacks: every current stack, exec and
      input become empty. */
  function Cleared(m: State): (r: State)
    requires Framed(m)
    ensures Framed(r) && SameSavedFrames(m, r) && Depth(r) == Depth(m)
    ensures Current(r) == Stacks([], [], [], [], [], [], [])
  {
    WithCurrent(m, Stacks([], [], [], [], [], [], []))
  }
}
