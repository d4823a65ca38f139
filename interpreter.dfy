/** The Push interpreter object: its stacks, frame stacks, instruction and
    generator tables and counters are fields that its methods update in
    place. Each method is proved against the value-level definitions of
    `Machine`, `Registry` and `Random`. */
module Psh {
  import opened Atoms
  import opened Faults
  import opened Random
  import opened Machine
  import opened Registry

  /** The names `type.op` of one group of `Initialize`'s fixed table. */
  function Prefixed(typeName: string, ops: seq<string>): seq<string>
  {
    seq(|ops|, k requires 0 <= k < |ops| => typeName + "." + ops[k])
  }

  // The instructions `Initialize` defines with instruction classes that are
  // not part of this model, each of which runs as `Opaque(name)`: the
  // operations of each type, the two boolean constants and the input
  // instructions.
  const IntegerOps: seq<string> := [
    "+", "-", "/", "%", "*", "pow", "log", "=", ">", "<", "min", "max",
    "abs", "neg", "ln", "fromfloat", "fromboolean", "rand"]
  const FloatOps: seq<string> := [
    "+", "-", "/", "%", "*", "pow", "log", "=", ">", "<", "min", "max",
    "sin", "cos", "tan", "exp", "abs", "neg", "ln", "frominteger", "fromboolean", "rand"]
  const BooleanOps: seq<string> := [
    "=", "not", "and", "or", "xor", "frominteger", "fromfloat", "rand"]
  const CodeOps: seq<string> := [
    "quote", "fromboolean", "frominteger", "fromfloat", "noop",
    "do*times", "do*count", "do*range", "=", "if", "rand"]
  const ExecOps: seq<string> := [
    "k", "s", "y", "noop", "do*times", "do*count", "do*range", "=", "if", "rand"]
  const InputOps: seq<string> := ["index", "inall", "inallrev", "stackdepth"]
  const ConstantNames: seq<string> := ["true", "false"]

  const OpaqueNames: seq<string> :=
    Prefixed("integer", IntegerOps) + Prefixed("float", FloatOps)
    + Prefixed("boolean", BooleanOps) + Prefixed("code", CodeOps)
    + Prefixed("exec", ExecOps) + ConstantNames + Prefixed("input", InputOps)

  /** The first `n` names of a name list, as a set. */
  function NamesUpTo(names: seq<string>, n: nat): set<string>
    requires n <= |names|
  {
    if n == 0 then {} else NamesUpTo(names, n - 1) + {names[n - 1]}
  }

  /** The first `n` names of a list hold its entries below `n`. */
  lemma {:induction false} NamesUpToHas(names: seq<string>, n: nat)
    requires n <= |names|
    ensures forall k :: 0 <= k < n ==> names[k] in NamesUpTo(names, n)
  {
    if n > 0 {
      NamesUpToHas(names, n - 1);
    }
  }

  /** A name that is no entry of a list is in none of its prefixes. */
  lemma {:induction false} NotInNamesUpTo(x: string, names: seq<string>, n: nat)
    requires x !in names && n <= |names|
    ensures x !in NamesUpTo(names, n)
  {
    if n > 0 {
      NotInNamesUpTo(x, names, n - 1);
    }
  }

  /** The stack types `Initialize` gives the nine stack instructions. */
  const StackTypeNames: seq<string> := ["integer", "float", "boolean", "name", "code", "exec"]

  /** The stack instruction names of the first `n` stack types. */
  function StackNamesUpTo(n: nat): set<string>
    requires n <= |StackTypeNames|
  {
    if n == 0 then {} else StackNamesUpTo(n - 1) + StackInstrNames(StackTypeNames[n - 1])
  }

  /** The stack instruction names of the first `n` stack types hold every
      operation of each of them. */
  lemma {:induction false} StackNamesUpToHas(n: nat)
    requires n <= |StackTypeNames|
    ensures forall j, k :: 0 <= j < n && 0 <= k < |StackOps| ==>
      StackInstrName(StackTypeNames[j], StackOps[k]) in StackNamesUpTo(n)
  {
    if n > 0 {
      StackNamesUpToHas(n - 1);
    }
  }

  /** Every stack instruction name of the six stack types. */
  function AllStackNames(): set<string>
  {
    StackNamesUpTo(|StackTypeNames|)
  }

  /** The names `Initialize` defines. */
  function BuiltinNames(): set<string>
  {
    NamesUpTo(OpaqueNames, |OpaqueNames|)
    + AllStackNames()
    + {"frame.push", "frame.pop"}
  }

  // ---- which built-in names can coincide

  /** The index of the first dot of `s`, or `|s|` when it has none. */
  function FirstDot(s: string): (i: nat)
    ensures i <= |s|
  {
    if s == [] || s[0] == '.' then 0 else 1 + FirstDot(s[1..])
  }

  lemma {:induction false} FirstDotOf(p: string, q: string)
    requires '.' !in p
    ensures FirstDot(p + "." + q) == |p|
  {
    if p != [] {
      assert (p + "." + q)[1..] == p[1..] + "." + q;
      FirstDotOf(p[1..], q);
    }
  }

  /** Two names `p.q` whose type parts hold no dot are equal exactly when
      their types and their operations are. */
  lemma DotNameParts(p1: string, q1: string, p2: string, q2: string)
    requires '.' !in p1 && '.' !in p2
    ensures p1 + "." + q1 == p2 + "." + q2 <==> p1 == p2 && q1 == q2
  {
    FirstDotOf(p1, q1);
    FirstDotOf(p2, q2);
    var x := p1 + "." + q1;
    assert x[..|p1|] == p1 && x[|p1| + 1..] == q1;
    var y := p2 + "." + q2;
    assert y[..|p2|] == p2 && y[|p2| + 1..] == q2;
  }

  /** A name `p.q` is in the group `Prefixed(t, ops)` exactly when `p` is
      `t` and `q` is one of `ops`. */
  lemma InPrefixed(p: string, q: string, t: string, ops: seq<string>)
    requires '.' !in p && '.' !in t
    ensures p + "." + q in Prefixed(t, ops) <==> p == t && q in ops
  {
    forall k | 0 <= k < |ops|
      ensures Prefixed(t, ops)[k] == p + "." + q <==> t == p && ops[k] == q
    {
      DotNameParts(t, ops[k], p, q);
    }
    if p == t && q in ops {
      var k :| 0 <= k < |ops| && ops[k] == q;
      assert Prefixed(t, ops)[k] == p + "." + q;
    }
  }

  /** A name `p.q` is a fixed instruction exactly when `q` is an operation
      of the group of type `p`. */
  lemma InOpaqueNames(p: string, q: string)
    requires '.' !in p
    ensures p + "." + q in OpaqueNames <==>
      || (p == "integer" && q in IntegerOps) || (p == "float" && q in FloatOps)
      || (p == "boolean" && q in BooleanOps) || (p == "code" && q in CodeOps)
      || (p == "exec" && q in ExecOps) || (p == "input" && q in InputOps)
  {
    InPrefixed(p, q, "integer", IntegerOps);
    InPrefixed(p, q, "float", FloatOps);
    InPrefixed(p, q, "boolean", BooleanOps);
    InPrefixed(p, q, "code", CodeOps);
    InPrefixed(p, q, "exec", ExecOps);
    InPrefixed(p, q, "input", InputOps);
    var x := p + "." + q;
    assert x[|p|] == '.';
    assert x != "true" && x != "false" by {
      if |x| == 4 || |x| == 5 {
        assert '.' !in "true" && '.' !in "false";
      }
    }
  }

  /** No stack type holds a dot. */
  lemma StackTypesDotless()
    ensures forall j :: 0 <= j < |StackTypeNames| ==> '.' !in StackTypeNames[j]
  {
  }

  /** A name `p.q` is a stack instruction of the first `n` stack types
      exactly when `p` is one of those types and `q` a stack operation. */
  lemma {:induction false} InStackNamesUpTo(p: string, q: string, n: nat)
    requires '.' !in p && n <= |StackTypeNames|
    ensures p + "." + q in StackNamesUpTo(n) <==> p in StackTypeNames[..n] && q in StackOps
  {
    if n > 0 {
      InStackNamesUpTo(p, q, n - 1);
      var t := StackTypeNames[n - 1];
      StackTypesDotless();
      forall k | 0 <= k < |StackOps|
        ensures StackInstrName(t, StackOps[k]) == p + "." + q <==> t == p && StackOps[k] == q
      {
        DotNameParts(t, StackOps[k], p, q);
      }
      assert StackTypeNames[..n] == StackTypeNames[..n - 1] + [t];
      if p == t && q in StackOps {
        var k :| 0 <= k < |StackOps| && StackOps[k] == q;
        assert StackInstrName(t, StackOps[k]) in StackInstrNames(t);
      }
    }
  }

  /** A name without a dot is no stack instruction. */
  lemma {:induction false} DotlessNotStack(x: string, n: nat)
    requires '.' !in x && n <= |StackTypeNames|
    ensures x !in StackNamesUpTo(n)
  {
    if n > 0 {
      DotlessNotStack(x, n - 1);
      var t := StackTypeNames[n - 1];
      forall k | 0 <= k < |StackOps|
        ensures StackInstrName(t, StackOps[k]) != x
      {
        assert StackInstrName(t, StackOps[k])[|t|] == '.';
      }
    }
  }

  /** No operation of a typed group of the fixed table is a stack operation
      of that type. */
  lemma OpsNotStackOps()
    ensures forall k :: 0 <= k < |IntegerOps| ==> IntegerOps[k] !in StackOps
    ensures forall k :: 0 <= k < |FloatOps| ==> FloatOps[k] !in StackOps
    ensures forall k :: 0 <= k < |BooleanOps| ==> BooleanOps[k] !in StackOps
    ensures forall k :: 0 <= k < |CodeOps| ==> CodeOps[k] !in StackOps
    ensures forall k :: 0 <= k < |ExecOps| ==> ExecOps[k] !in StackOps
  {
  }

  /** No fixed instruction shares its name with a stack instruction, so the
      stack instructions `Initialize` defines after them overwrite none. */
  lemma OpaqueNotStack()
    ensures forall x :: x in OpaqueNames ==> x !in AllStackNames()
  {
    OpsNotStackOps();
    PrefixedNotStack("integer", IntegerOps);
    PrefixedNotStack("float", FloatOps);
    PrefixedNotStack("boolean", BooleanOps);
    PrefixedNotStack("code", CodeOps);
    PrefixedNotStack("exec", ExecOps);
    PrefixedNotStack("input", InputOps);
    assert '.' !in "true" && '.' !in "false";
    DotlessNotStack("true", |StackTypeNames|);
    DotlessNotStack("false", |StackTypeNames|);
  }

  /** A group whose type is no stack type, or whose operations are no
      stack operations, names no stack instruction. */
  lemma PrefixedNotStack(t: string, ops: seq<string>)
    requires '.' !in t
    requires t !in StackTypeNames || forall k :: 0 <= k < |ops| ==> ops[k] !in StackOps
    ensures forall x :: x in Prefixed(t, ops) ==> x !in AllStackNames()
  {
    assert StackTypeNames[..|StackTypeNames|] == StackTypeNames;
    forall k | 0 <= k < |ops|
      ensures Prefixed(t, ops)[k] !in AllStackNames()
    {
      InStackNamesUpTo(t, ops[k], |StackTypeNames|);
    }
  }

  /** `integer.erc` and `float.erc` name no instruction of `Initialize`'s
      table, so the generators it puts under those names last pair with no
      instruction. */
  lemma ErcNotBuiltin(x: string)
    requires x == "integer.erc" || x == "float.erc"
    ensures x !in BuiltinNames()
  {
    var p := if x == "integer.erc" then "integer" else "float";
    assert x == p + "." + "erc";
    assert x !in NamesUpTo(OpaqueNames, |OpaqueNames|) by {
      InOpaqueNames(p, "erc");
      NotInNamesUpTo(x, OpaqueNames, |OpaqueNames|);
    }
    assert x !in AllStackNames() by {
      InStackNamesUpTo(p, "erc", |StackTypeNames|);
    }
  }

  /** Putting the two constant generators into `Initialize`'s tables keeps
      every instruction paired with its own generator. */
  lemma ErcKeepsConsistent(t: Tables)
    requires Consistent(t) && t.instructions.Keys == BuiltinNames()
    ensures Consistent(Tables(t.instructions,
      t.generators["float.erc" := FloatErcGen]["integer.erc" := IntErcGen]))
  {
    ErcNotBuiltin("float.erc");
    ErcNotBuiltin("integer.erc");
  }

  /** `frame.push` and `frame.pop` are neither fixed nor stack
      instructions, so defining them last overwrites nothing. */
  lemma FrameNotOpaqueOrStack(x: string)
    requires x == "frame.push" || x == "frame.pop"
    ensures x !in OpaqueNames && x !in AllStackNames()
  {
    var q := if x == "frame.push" then "push" else "pop";
    assert x == "frame" + "." + q;
    InOpaqueNames("frame", q);
    InStackNamesUpTo("frame", q, |StackTypeNames|);
    assert StackTypeNames[..|StackTypeNames|] == StackTypeNames;
  }

  /** The stack instructions of one stack type are none of another's, so
      defining a later type's instructions overwrites none of an earlier's. */
  lemma StackTypesApart(j: nat, s: nat)
    requires j < |StackTypeNames| && s < |StackTypeNames| && j != s
    ensures forall k :: 0 <= k < |StackOps| ==>
      StackInstrName(StackTypeNames[j], StackOps[k]) !in StackInstrNames(StackTypeNames[s])
  {
    StackTypesDotless();
    forall k, m | 0 <= k < |StackOps| && 0 <= m < |StackOps|
      ensures StackInstrName(StackTypeNames[j], StackOps[k]) != StackInstrName(StackTypeNames[s], StackOps[m])
    {
      DotNameParts(StackTypeNames[j], StackOps[k], StackTypeNames[s], StackOps[m]);
    }
  }

  // ---- what the built-in table runs

  /** Each of `names` runs its own fixed instruction. */
  ghost predicate RunsOpaque(m: map<string, Instr>, names: seq<string>)
  {
    forall k :: 0 <= k < |names| ==> names[k] in m && m[names[k]] == Opaque(names[k])
  }

  /** The stack instructions of the first `n` stack types run their
      operations on their stacks. */
  ghost predicate RunsStackOps(m: map<string, Instr>, n: nat)
    requires n <= |StackTypeNames|
  {
    forall j, k :: 0 <= j < n && 0 <= k < |StackOps| ==>
      StackInstrName(StackTypeNames[j], StackOps[k]) in m &&
      m[StackInstrName(StackTypeNames[j], StackOps[k])] == StackOp(StackTypeNames[j], StackOps[k])
  }

  ghost predicate RunsFrameOps(m: map<string, Instr>)
  {
    && "frame.push" in m && m["frame.push"] == FramePush
    && "frame.pop" in m && m["frame.pop"] == FramePop
  }

  /** Every name of `m0` outside `changed` runs the same in `m1`. */
  ghost predicate KeepsOutside(m0: map<string, Instr>, m1: map<string, Instr>, changed: set<string>)
  {
    forall x :: x in m0 && x !in changed ==> x in m1 && m1[x] == m0[x]
  }

  /** Defining the stack instructions of stack type `s` after those of the
      types before it keeps theirs. */
  lemma StackOpsStep(m0: map<string, Instr>, m1: map<string, Instr>, s: nat)
    requires s < |StackTypeNames|
    requires RunsStackOps(m0, s)
    requires forall k :: 0 <= k < |StackOps| ==>
      StackInstrName(StackTypeNames[s], StackOps[k]) in m1 &&
      m1[StackInstrName(StackTypeNames[s], StackOps[k])] == StackOp(StackTypeNames[s], StackOps[k])
    requires KeepsOutside(m0, m1, StackInstrNames(StackTypeNames[s]))
    ensures RunsStackOps(m1, s + 1)
  {
    forall j | 0 <= j < s
      ensures forall k :: 0 <= k < |StackOps| ==>
        StackInstrName(StackTypeNames[j], StackOps[k]) !in StackInstrNames(StackTypeNames[s])
    {
      StackTypesApart(j, s);
    }
  }

  /** After the first `n` names of `names` are defined, each running its
      own fixed instruction, starting from `m0` and generator names `g0`:
      both tables gained exactly those names, each runs its instruction,
      also when a name repeats, and every other name of `m0` runs what it
      ran. */
  ghost predicate OpaquesDefined(m0: map<string, Instr>, g0: set<string>,
                                 m: map<string, Instr>, g: set<string>, names: seq<string>, n: nat)
    requires n <= |names|
  {
    && m.Keys == m0.Keys + NamesUpTo(names, n)
    && g == g0 + NamesUpTo(names, n)
    && (forall k :: 0 <= k < n ==> names[k] in m && m[names[k]] == Opaque(names[k]))
    && KeepsOutside(m0, m, NamesUpTo(names, n))
  }

  /** Defining name `n` after the ones before it completes the first
      `n + 1`. */
  lemma OpaquesDefinedStep(m0: map<string, Instr>, g0: set<string>, m: map<string, Instr>,
                           g: set<string>, m1: map<string, Instr>, g1: set<string>,
                           names: seq<string>, n: nat)
    requires n < |names| && OpaquesDefined(m0, g0, m, g, names, n)
    requires m1 == m[names[n] := Opaque(names[n])] && g1 == g + {names[n]}
    ensures OpaquesDefined(m0, g0, m1, g1, names, n + 1)
  {
    assert NamesUpTo(names, n + 1) == NamesUpTo(names, n) + {names[n]};
    forall k | 0 <= k < n + 1
      ensures names[k] in m1 && m1[names[k]] == Opaque(names[k])
    {
      if k < n && names[k] != names[n] {
        assert m1[names[k]] == m[names[k]];
      }
    }
  }

  /** After the stack instructions of the first `n` stack types, starting
      from `m0` and generator names `g0`: both tables gained exactly their
      names, each runs its operation, and every other name of `m0` runs
      what it ran. */
  ghost predicate StacksDefined(m0: map<string, Instr>, g0: set<string>,
                                m: map<string, Instr>, g: set<string>, n: nat)
    requires n <= |StackTypeNames|
  {
    && m.Keys == m0.Keys + StackNamesUpTo(n)
    && g == g0 + StackNamesUpTo(n)
    && RunsStackOps(m, n)
    && KeepsOutside(m0, m, StackNamesUpTo(n))
  }

  /** `DefineStackInstructions` of stack type `s` after those of the types
      before it completes the first `s + 1`. */
  lemma StacksDefinedStep(m0: map<string, Instr>, g0: set<string>, m: map<string, Instr>,
                          g: set<string>, m1: map<string, Instr>, g1: set<string>, s: nat)
    requires s < |StackTypeNames| && StacksDefined(m0, g0, m, g, s)
    requires m1.Keys == m.Keys + StackInstrNames(StackTypeNames[s])
    requires g1 == g + StackInstrNames(StackTypeNames[s])
    requires forall k :: 0 <= k < |StackOps| ==>
      StackInstrName(StackTypeNames[s], StackOps[k]) in m1 &&
      m1[StackInstrName(StackTypeNames[s], StackOps[k])] == StackOp(StackTypeNames[s], StackOps[k])
    requires KeepsOutside(m, m1, StackInstrNames(StackTypeNames[s]))
    ensures StacksDefined(m0, g0, m1, g1, s + 1)
  {
    StackOpsStep(m, m1, s);
    var added := StackInstrNames(StackTypeNames[s]);
    assert StackNamesUpTo(s + 1) == StackNamesUpTo(s) + added;
    assert m1.Keys == m0.Keys + StackNamesUpTo(s + 1);
    assert g1 == g0 + StackNamesUpTo(s + 1);
  }

  /** The stack and frame instructions `Initialize` defines after the
      fixed ones overwrite none of them. */
  lemma OpaqueSurvives(m1: map<string, Instr>, m2: map<string, Instr>, m3: map<string, Instr>)
    requires RunsOpaque(m1, OpaqueNames)
    requires KeepsOutside(m1, m2, AllStackNames())
    requires KeepsOutside(m2, m3, {"frame.push", "frame.pop"})
    ensures RunsOpaque(m3, OpaqueNames)
  {
    OpaqueNotStack();
    FrameNotOpaqueOrStack("frame.push");
    FrameNotOpaqueOrStack("frame.pop");
  }

  /** The frame instructions `Initialize` defines last overwrite no stack
      instruction. */
  lemma StackOpsSurvive(m2: map<string, Instr>, m3: map<string, Instr>)
    requires RunsStackOps(m2, |StackTypeNames|)
    requires KeepsOutside(m2, m3, {"frame.push", "frame.pop"})
    ensures RunsStackOps(m3, |StackTypeNames|)
  {
    FrameNotOpaqueOrStack("frame.push");
    FrameNotOpaqueOrStack("frame.pop");
    StackNamesUpToHas(|StackTypeNames|);
  }

  /** Adding three groups of names one after another adds their union. */
  lemma UnionSteps(k: set<string>, a: set<string>, b: set<string>, c: set<string>)
    ensures k + a + b + c == k + (a + b + c)
  {
  }

  /** `Generate` of one generator, reading its draws from `src` at `pos`:
      an instruction generator yields its name; `IntAtomGenerator` one
      draw from `nextInt(max - min)` rounded by `IntErc`; `FloatAtomGenerator`
      one draw, kept as a float token; a missing generator is a null
      dereference. */
  function GenerateAtom(g: Generator, src: nat -> nat, pos: nat, min: int, max: int, res: int)
    : (r: Result<Drawn<Atom>>)
    requires IsInt32(min) && IsInt32(max) && IsInt32(res)
    ensures r.Ok? ==> r.value.pos >= pos
    ensures r.Ok? ==> r.value.value.Int? || r.value.value.Flt? || r.value.value.Name?
    ensures r.Ok? && r.value.value.Name? ==> g == InstrGen(r.value.value.s)
    ensures r.Ok? && r.value.value.Flt? ==> g == FloatErcGen
    ensures r.Ok? && r.value.value.Int? ==> g == IntErcGen && IsInt32(r.value.value.i)
    ensures r.Ok? && r.value.value.Int? && min < max && IsInt32(max - min) && res > 0 ==>
      min <= r.value.value.i < max && (r.value.value.i - min) % res == 0
    ensures r.Err? <==> g == NullGen || (g == IntErcGen && (Wrap32(max - min) <= 0 || res == 0))
  {
    match g
    case InstrGen(name) => Ok(Drawn(Name(name), pos))
    case IntErcGen =>
      var bound := Wrap32(max - min);
      if bound <= 0 then Err(IllegalArgument)
      else
        (match IntErc(min, max, res, NextInt(src, pos, bound))
         case Ok(v) => Ok(Drawn(Int(v), pos + 1))
         case Err(f) => Err(f))
    case FloatErcGen => Ok(Drawn(Flt(Float32(src(pos))), pos + 1))
    case NullGen => Err(NullPointer)
  }

  /** Random code cannot fail: there is a generator to pick, none of them
      is missing, and an integer generator has a positive range and a
      nonzero resolution. */
  predicate CanGenerate(gens: seq<Generator>, min: int, max: int, res: int)
  {
    gens != [] && NullGen !in gens && (IntErcGen in gens ==> Wrap32(max - min) > 0 && res != 0)
  }

  /** `RandomAtom`: one draw picks a generator of `gens`, which then
      generates. An empty list is refused by `nextInt(0)`. Every atom comes
      from a generator in the list. */
  function RandomAtomSpec(gens: seq<Generator>, src: nat -> nat, pos: nat, min: int, max: int, res: int)
    : (r: Result<Drawn<Atom>>)
    requires IsInt32(min) && IsInt32(max) && IsInt32(res)
    ensures gens == [] ==> r == Err(IllegalArgument)
    ensures r.Ok? ==> r.value.pos > pos
    ensures r.Ok? ==> !r.value.value.Prog? && !r.value.value.InstrRef?
    ensures r.Ok? && r.value.value.Name? ==> InstrGen(r.value.value.s) in gens
    ensures r.Ok? && r.value.value.Flt? ==> FloatErcGen in gens
    ensures r.Ok? && r.value.value.Int? ==> IntErcGen in gens
    ensures r.Err? && r.fault == NullPointer ==> NullGen in gens
    ensures CanGenerate(gens, min, max, res) ==> r.Ok?
  {
    if gens == [] then Err(IllegalArgument)
    else GenerateAtom(gens[NextInt(src, pos, |gens|)], src, pos + 1, min, max, res)
  }

  /** The number of iterations `Step`'s loop may run for a budget of
      `maxSteps`. The loop counts a 32-bit `int` down and stops at 0, so a
      negative budget wraps around past the smallest `int` and reaches 0
      only after 2^32 + `maxSteps` iterations. */
  function StepLimit(maxSteps: int): (n: nat)
    requires IsInt32(maxSteps)
    ensures Wrap32(maxSteps - n) == 0
  {
    if maxSteps >= 0 then maxSteps else 0x1_0000_0000 + maxSteps
  }

  /** Before the limit the counter is never 0: the limit is the first
      iteration at which the loop stops on its budget. */
  lemma StepLimitFirst(maxSteps: int, k: nat)
    requires IsInt32(maxSteps) && k < StepLimit(maxSteps)
    ensures Wrap32(maxSteps - k) != 0
  {
    var x := maxSteps - k;
    if x < 0 {
      assert x % 0x1_0000_0000 == x + 0x1_0000_0000;
    }
  }

  class Interpreter {
    // One stack of stacks per type; the current stack is the last one.
    var intFrames: seq<seq<int>>
    var floatFrames: seq<seq<Float32>>
    var boolFrames: seq<seq<bool>>
    var codeFrames: seq<seq<Atom>>
    var nameFrames: seq<seq<Atom>>
    var exec: seq<Atom>
    var input: seq<Atom>
    var customStacks: seq<seq<Atom>>

    var useFrames: bool
    var generateFlatPrograms: bool
    var instructions: map<string, Instr>
    var generators: map<string, Generator>
    var randomGenerators: seq<Generator>

    var totalStepsTaken: int
    var evaluationExecutions: int

    var minRandomInt: int
    var maxRandomInt: int
    var randomIntResolution: int

    /** The random source: `source(k)` is its k-th draw; `drawn` draws have
        been used. */
    const source: nat -> nat
    var drawn: nat

    ghost function Snapshot(): State
      reads this
    {
      State(intFrames, floatFrames, boolFrames, codeFrames, nameFrames,
            exec, input, useFrames, instructions)
    }

    ghost function Tabled(): Tables
      reads this
    {
      Tables(instructions, generators)
    }

    /** The five frame stacks hold the same, positive number of frames. */
    ghost predicate FramesValid()
      reads this
    {
      Framed(Snapshot())
    }

    ghost predicate TablesValid()
      reads this`instructions, this`generators
    {
      Consistent(Tables(instructions, generators))
    }

    ghost predicate RangesValid()
      reads this`minRandomInt, this`maxRandomInt, this`randomIntResolution
    {
      IsInt32(minRandomInt) && IsInt32(maxRandomInt) && IsInt32(randomIntResolution)
    }

    ghost predicate Valid()
      reads this
    {
      FramesValid() && TablesValid() && RangesValid()
    }

    /** The instruction table holds every fixed instruction, each running
        its own effect, the nine stack instructions of each stack type, each
        running its operation on its stack, and the two frame instructions. */
    ghost predicate HasBuiltins()
      reads this`instructions
    {
      && RunsOpaque(instructions, OpaqueNames)
      && RunsStackOps(instructions, |StackTypeNames|)
      && RunsFrameOps(instructions)
    }

    /** The tables `Initialize` leaves: exactly the built-in instructions,
        running what `HasBuiltins` says, each generating itself, and besides
        them only the generators `integer.erc` and `float.erc`. */
    ghost predicate InitialTables()
      reads this`instructions, this`generators
    {
      && instructions.Keys == BuiltinNames() && HasBuiltins()
      && generators.Keys == BuiltinNames() + {"integer.erc", "float.erc"}
      && "integer.erc" in generators && generators["integer.erc"] == IntErcGen
      && "float.erc" in generators && generators["float.erc"] == FloatErcGen
    }

    /** The fields `Initialize` empties; none of them is read or written
        by the table building that follows. */
    ghost predicate Emptied()
      reads this`intFrames, this`floatFrames, this`boolFrames, this`codeFrames, this`nameFrames
      reads this`exec, this`input, this`useFrames, this`randomGenerators, this`customStacks
    {
      && intFrames == [[]] && floatFrames == [[]] && boolFrames == [[]]
      && codeFrames == [[]] && nameFrames == [[]] && exec == [] && input == []
      && !useFrames && randomGenerators == [] && customStacks == []
    }

    /** `new Interpreter()` followed by `Initialize(rng)`: one frame of
        empty stacks, frames off, exactly the built-in instructions (the
        fixed table, the nine stack instructions of each stack type and the
        frame instructions), each generating itself, and the two constant
        generators. The ranges start from the defaults `setup` gives them
        (-10, 10 and 1); Java's `Initialize` leaves them at 0. */
    constructor Initialize(rng: nat -> nat)
      ensures Valid()
      ensures source == rng && drawn == 0
      ensures intFrames == [[]] && floatFrames == [[]] && boolFrames == [[]]
      ensures codeFrames == [[]] && nameFrames == [[]] && exec == [] && input == []
      ensures !useFrames && randomGenerators == [] && customStacks == []
      ensures InitialTables()
    {
      source := rng;
      drawn := 0;
      intFrames, floatFrames, boolFrames, codeFrames, nameFrames := [[]], [[]], [[]], [[]], [[]];
      exec, input, customStacks := [], [], [];
      useFrames, generateFlatPrograms := false, false;
      randomGenerators := [];
      totalStepsTaken, evaluationExecutions := 0, 0;
      minRandomInt, maxRandomInt, randomIntResolution := -10, 10, 1;
      instructions, generators := map[], map[];
      new;
      assert Emptied() && RangesValid();
      DefineInitialTables();
    }

    /** The tables `Initialize` builds from empty ones: the built-in
        instructions, then `float.erc` and `integer.erc`, which generate
        constants and name no instruction. */
    method DefineInitialTables()
      requires instructions == map[] && generators == map[]
      modifies this`instructions, this`generators
      ensures TablesValid() && InitialTables()
    {
      DefineBuiltins();
      ErcKeepsConsistent(Tabled());
      generators := generators["float.erc" := FloatErcGen]["integer.erc" := IntErcGen];
    }

    /** The instruction table of `Initialize`: the fixed instructions, the
        stack instructions and the frame instructions; a name defined before
        that is none of these keeps what it ran. */
    method DefineBuiltins()
      requires TablesValid()
      modifies this`instructions, this`generators
      ensures TablesValid()
      ensures instructions.Keys == old(instructions).Keys + BuiltinNames()
      ensures generators.Keys == old(generators).Keys + BuiltinNames()
      ensures HasBuiltins()
      ensures KeepsOutside(old(instructions), instructions, BuiltinNames())
    {
      ghost var t0 := Tabled();
      DefineOpaqueInstructions();
      ghost var t1 := Tabled();
      DefineAllStackInstructions();
      ghost var t2 := Tabled();
      DefineFrameInstructions();
      OpaqueSurvives(t1.instructions, t2.instructions, instructions);
      StackOpsSurvive(t2.instructions, instructions);
      UnionSteps(t0.instructions.Keys, NamesUpTo(OpaqueNames, |OpaqueNames|), AllStackNames(),
        {"frame.push", "frame.pop"});
      UnionSteps(t0.generators.Keys, NamesUpTo(OpaqueNames, |OpaqueNames|), AllStackNames(),
        {"frame.push", "frame.pop"});
    }

    /** The last part of `Initialize`: `frame.push` and `frame.pop`; every
        other name keeps what it ran. */
    method DefineFrameInstructions()
      requires TablesValid()
      modifies this`instructions, this`generators
      ensures TablesValid()
      ensures instructions.Keys == old(instructions).Keys + {"frame.push", "frame.pop"}
      ensures generators.Keys == old(generators).Keys + {"frame.push", "frame.pop"}
      ensures RunsFrameOps(instructions)
      ensures KeepsOutside(old(instructions), instructions, {"frame.push", "frame.pop"})
    {
      DefineInstruction("frame.push", FramePush);
      DefineInstruction("frame.pop", FramePop);
      assert "frame.push" != "frame.pop";
    }

    /** The first part of `Initialize`: each name of the fixed table runs
        its own instruction; every other name keeps what it ran. */
    method DefineOpaqueInstructions()
      requires TablesValid()
      modifies this`instructions, this`generators
      ensures TablesValid()
      ensures OpaquesDefined(old(instructions), old(generators).Keys, instructions, generators.Keys,
        OpaqueNames, |OpaqueNames|)
    {
      ghost var m0, g0 := instructions, generators.Keys;
      var n := 0;
      while n < |OpaqueNames|
        invariant 0 <= n <= |OpaqueNames|
        invariant TablesValid() && OpaquesDefined(m0, g0, instructions, generators.Keys, OpaqueNames, n)
      {
        DefineNextOpaque(m0, g0, OpaqueNames, n);
        n := n + 1;
      }
    }

    /** One round of `DefineOpaqueInstructions`: name `n`, after the ones
        before it. */
    method DefineNextOpaque(ghost m0: map<string, Instr>, ghost g0: set<string>,
                            names: seq<string>, n: nat)
      requires n < |names| && TablesValid()
      requires OpaquesDefined(m0, g0, instructions, generators.Keys, names, n)
      modifies this`instructions, this`generators
      ensures TablesValid()
      ensures OpaquesDefined(m0, g0, instructions, generators.Keys, names, n + 1)
    {
      ghost var m, g := instructions, generators.Keys;
      DefineInstruction(names[n], Opaque(names[n]));
      OpaquesDefinedStep(m0, g0, m, g, instructions, generators.Keys, names, n);
    }

    /** The second part of `Initialize`: the stack instructions of the six
        stack types, in order. */
    method DefineAllStackInstructions()
      requires TablesValid()
      modifies this`instructions, this`generators
      ensures TablesValid()
      ensures StacksDefined(old(instructions), old(generators).Keys, instructions, generators.Keys, |StackTypeNames|)
    {
      ghost var m0, g0 := instructions, generators.Keys;
      var s := 0;
      while s < 6
        invariant 0 <= s <= 6
        invariant TablesValid() && StacksDefined(m0, g0, instructions, generators.Keys, s)
      {
        DefineNextStackType(m0, g0, s);
        s := s + 1;
      }
    }

    /** One round of `DefineAllStackInstructions`: the stack instructions of
        stack type `s`, after those of the types before it. */
    method DefineNextStackType(ghost m0: map<string, Instr>, ghost g0: set<string>, s: nat)
      requires s < |StackTypeNames| && TablesValid()
      requires StacksDefined(m0, g0, instructions, generators.Keys, s)
      modifies this`instructions, this`generators
      ensures TablesValid()
      ensures StacksDefined(m0, g0, instructions, generators.Keys, s + 1)
    {
      ghost var m, g := instructions, generators.Keys;
      DefineStackInstructions(StackTypeNames[s]);
      StacksDefinedStep(m0, g0, m, g, instructions, generators.Keys, s);
    }

    /** `SetUseFrames`. */
    method SetUseFrames(inUseFrames: bool)
      requires Valid()
      modifies this`useFrames
      ensures Valid() && useFrames == inUseFrames
    {
      useFrames := inUseFrames;
    }

    // ---- frames

    /** The current stacks, as an instruction sees them. */
    function CurrentStacks(): (st: Stacks)
      requires FramesValid()
      reads this
      ensures st == Current(Snapshot())
    {
      Stacks(Top(intFrames), Top(floatFrames), Top(boolFrames), Top(codeFrames), Top(nameFrames),
             exec, input)
    }

    /** Replaces the current stacks by `st`. */
    method SetCurrentStacks(st: Stacks)
      requires FramesValid()
      modifies this`intFrames, this`floatFrames, this`boolFrames, this`codeFrames, this`nameFrames, this`exec, this`input
      ensures FramesValid()
      ensures Snapshot() == WithCurrent(old(Snapshot()), st)
    {
      ghost var t := WithCurrent(Snapshot(), st);
      intFrames, floatFrames, boolFrames, codeFrames, nameFrames, exec, input :=
        SetTop(intFrames, st.ints), SetTop(floatFrames, st.floats), SetTop(boolFrames, st.bools),
        SetTop(codeFrames, st.code), SetTop(nameFrames, st.names), st.exec, st.input;
      assert Snapshot() == t;
    }

    /** `PushStacks`: a fresh empty stack of each type becomes current. */
    method PushStacks()
      requires FramesValid()
      modifies this`intFrames, this`floatFrames, this`boolFrames, this`codeFrames, this`nameFrames
      ensures FramesValid()
      ensures Snapshot() == Machine.PushStacks(old(Snapshot()))
    {
      floatFrames := floatFrames + [[]];
      intFrames := intFrames + [[]];
      boolFrames := boolFrames + [[]];
      codeFrames := codeFrames + [[]];
      nameFrames := nameFrames + [[]];
      ghost var m := old(Snapshot());
      assert Snapshot() == m.(intFrames := m.intFrames + [[]], floatFrames := m.floatFrames + [[]],
        boolFrames := m.boolFrames + [[]], codeFrames := m.codeFrames + [[]],
        nameFrames := m.nameFrames + [[]]);
    }

    /** `PopStacks`: the stacks below the current frame become current
        again; with only one frame left there is nothing below, and the
        fault is the null dereference that follows. */
    method PopStacks() returns (fault: Option<Fault>)
      requires FramesValid()
      modifies this`intFrames, this`floatFrames, this`boolFrames, this`codeFrames, this`nameFrames
      ensures FramesValid()
      ensures fault.None? ==> Machine.PopStacks(old(Snapshot())) == Ok(Snapshot())
      ensures fault.Some? ==> Machine.PopStacks(old(Snapshot())) == Err(fault.value)
      ensures fault.Some? ==> Snapshot() == old(Snapshot())
    {
      if |intFrames| == 1 {
        return Some(NullPointer);
      }
      floatFrames := Below(floatFrames);
      intFrames := Below(intFrames);
      boolFrames := Below(boolFrames);
      codeFrames := Below(codeFrames);
      nameFrames := Below(nameFrames);
      fault := None;
    }

    /** `PushFrame`: with frames in use, a new frame starts with the top
        value of each of the caller's stacks (the name and code tops only
        when they exist). */
    method PushFrame()
      requires FramesValid()
      modifies this`intFrames, this`floatFrames, this`boolFrames, this`codeFrames, this`nameFrames
      ensures FramesValid()
      ensures Snapshot() == Machine.PushFrame(old(Snapshot()))
    {
      if useFrames {
        var tops := CurrentStacks();
        PushStacks();
        PushTops(tops);
      }
    }

    /** `PopFrame`: with frames in use, the current frame is dropped and
        its top values are pushed onto the caller's stacks. */
    method PopFrame() returns (fault: Option<Fault>)
      requires FramesValid()
      modifies this`intFrames, this`floatFrames, this`boolFrames, this`codeFrames, this`nameFrames
      ensures FramesValid()
      ensures fault.None? ==> Machine.PopFrame(old(Snapshot())) == Ok(Snapshot())
      ensures fault.Some? ==> Machine.PopFrame(old(Snapshot())) == Err(fault.value)
      ensures fault.Some? ==> Snapshot() == old(Snapshot())
    {
      fault := None;
      if useFrames {
        var tops := CurrentStacks();
        fault := PopStacks();
        if fault.None? {
          PushTops(tops);
        }
      }
    }

    /** The pushes shared by `PushFrame` and `PopFrame`: the saved tops go
        onto the now current stacks. */
    method PushTops(tops: Stacks)
      requires FramesValid()
      modifies this`intFrames, this`floatFrames, this`boolFrames, this`codeFrames, this`nameFrames
      ensures FramesValid()
      ensures Snapshot() == WithCurrent(old(Snapshot()), CarryTops(tops, old(CurrentStacks())))
    {
      floatFrames := SetTop(floatFrames, Top(floatFrames) + [TopFloat(tops.floats)]);
      intFrames := SetTop(intFrames, Top(intFrames) + [TopInt(tops.ints)]);
      boolFrames := SetTop(boolFrames, Top(boolFrames) + [TopBool(tops.bools)]);
      nameFrames := SetTop(nameFrames, PushIfSome(Top(nameFrames), TopObject(tops.names)));
      codeFrames := SetTop(codeFrames, PushIfSome(Top(codeFrames), TopObject(tops.code)));
      ghost var m := old(Snapshot());
      ghost var st := CarryTops(tops, Current(m));
      assert Snapshot() == m.(intFrames := SetTop(m.intFrames, st.ints),
        floatFrames := SetTop(m.floatFrames, st.floats), boolFrames := SetTop(m.boolFrames, st.bools),
        codeFrames := SetTop(m.codeFrames, st.code), nameFrames := SetTop(m.nameFrames, st.names),
        exec := st.exec, input := st.input);
    }

    // ---- execution

    /** Runs a registered instruction: the frame instructions by their own
        methods, every other instruction through `effect`. */
    method RunInstruction(i: Instr, effect: Effect) returns (fault: Option<Fault>)
      requires FramesValid()
      modifies this`intFrames, this`floatFrames, this`boolFrames, this`codeFrames, this`nameFrames, this`exec, this`input
      ensures FramesValid()
      ensures fault.None? ==> Run(old(Snapshot()), i, effect) == Ok(Snapshot())
      ensures fault.Some? ==> Run(old(Snapshot()), i, effect) == Err(fault.value)
      ensures fault.Some? ==> Snapshot() == old(Snapshot())
    {
      match i
      case FramePush =>
        PushFrame();
        fault := None;
      case FramePop =>
        fault := PopFrame();
      case _ =>
        SetCurrentStacks(effect(i, CurrentStacks()));
        fault := None;
    }

    /** `ExecuteInstruction`: 0 when the object was executed, -1 for an
        object the interpreter cannot execute; a fault raised by the
        instruction it runs is passed on. */
    method ExecuteInstruction(a: Atom, effect: Effect) returns (r: Result<int>)
      requires FramesValid()
      modifies this`intFrames, this`floatFrames, this`boolFrames, this`codeFrames, this`nameFrames, this`exec, this`input
      ensures FramesValid()
      ensures r == Ok(0) <==> ExecAtom(old(Snapshot()), a, effect).Ok?
      ensures r == Ok(0) ==> ExecAtom(old(Snapshot()), a, effect) == Ok(Snapshot())
      ensures r.Ok? ==> r.value == 0 || r.value == -1
      ensures r == Ok(-1) <==> a.InstrRef?
      ensures r == Ok(-1) ==> Snapshot() == old(Snapshot())
      ensures r.Err? ==> ExecAtom(old(Snapshot()), a, effect) == Err(r.fault) && r.fault == NullPointer
      ensures r.Err? ==> Snapshot() == old(Snapshot())
    {
      match a
      case Prog(ch) =>
        if useFrames {
          exec := exec + [Name("frame.pop")];
        }
        exec := PushAllReverse(exec, ch);
        if useFrames {
          exec := exec + [Name("frame.push")];
        }
        r := Ok(0);
      case Int(v) =>
        intFrames := SetTop(intFrames, Top(intFrames) + [v]);
        r := Ok(0);
      case Flt(f) =>
        floatFrames := SetTop(floatFrames, Top(floatFrames) + [f]);
        r := Ok(0);
      case Name(s) =>
        if s in instructions {
          var fault := RunInstruction(instructions[s], effect);
          r := if fault.Some? then Err(fault.value) else Ok(0);
        } else {
          nameFrames := SetTop(nameFrames, Top(nameFrames) + [a]);
          r := Ok(0);
        }
      case InstrRef(_) =>
        r := Ok(-1);
    }

    /** `Step`: pops and executes the top of exec until exec is empty or
        the budget runs out: at most `maxSteps` objects when it is not
        negative, and 2^32 + `maxSteps` once the 32-bit counter wraps when
        it is. An object that cannot be executed is an internal error. The
        steps are added to the total only when they are counted and the
        loop ran to its end. */
    method Step(maxSteps: int, countSteps: bool, effect: Effect)
      returns (executed: nat, fault: Option<Fault>)
      requires FramesValid() && IsInt32(maxSteps)
      modifies this`intFrames, this`floatFrames, this`boolFrames, this`codeFrames, this`nameFrames, this`exec, this`input, this`totalStepsTaken
      ensures FramesValid()
      ensures maxSteps >= 0 ==> executed <= maxSteps
      ensures executed <= StepLimit(maxSteps)
      ensures fault.None? ==> Iterate(old(Snapshot()), executed, effect) == Ok(Snapshot())
      ensures fault.None? ==> exec == [] || executed == StepLimit(maxSteps)
      ensures Busy(old(Snapshot()), executed, effect)
      ensures fault.Some? ==> Iterate(old(Snapshot()), executed + 1, effect) == Err(fault.value)
      ensures totalStepsTaken ==
        old(totalStepsTaken) + (if countSteps && fault.None? then executed else 0)
    {
      var limit := StepLimit(maxSteps);
      executed := 0;
      fault := None;
      ghost var m0 := Snapshot();
      while executed < limit && exec != []
        invariant FramesValid() && fault.None?
        invariant executed <= limit
        invariant Iterate(m0, executed, effect) == Ok(Snapshot())
        invariant Busy(m0, executed, effect)
        invariant totalStepsTaken == old(totalStepsTaken)
        decreases limit - executed
      {
        ghost var prev := Snapshot();
        fault := ExecuteTop(effect);
        assert Iterate(m0, executed + 1, effect) == StepOnce(prev, effect);
        if fault.Some? {
          return;
        }
        BusyMore(m0, executed, effect);
        executed := executed + 1;
      }
      if countSteps {
        totalStepsTaken := totalStepsTaken + executed;
      }
    }

    /** One iteration of `Step`'s loop: pops the top of exec and executes
        it; an object that cannot be executed is an internal error. */
    method ExecuteTop(effect: Effect) returns (fault: Option<Fault>)
      requires FramesValid() && exec != []
      modifies this`intFrames, this`floatFrames, this`boolFrames, this`codeFrames, this`nameFrames, this`exec, this`input
      ensures FramesValid()
      ensures fault.None? ==> StepOnce(old(Snapshot()), effect) == Ok(Snapshot())
      ensures fault.Some? ==> StepOnce(old(Snapshot()), effect) == Err(fault.value)
    {
      var a := exec[|exec| - 1];
      exec := exec[..|exec| - 1];
      ghost var m := old(Snapshot());
      assert Snapshot() == m.(exec := m.exec[..|m.exec| - 1]);
      var r := ExecuteInstruction(a, effect);
      if r.Err? {
        fault := Some(r.fault);
      } else if r.value == -1 {
        fault := Some(InternalError);
      } else {
        fault := None;
      }
    }

    /** `LoadProgram`: the program goes on top of the current code stack
        and of exec. */
    method LoadProgram(ch: seq<Atom>)
      requires FramesValid()
      modifies this`intFrames, this`floatFrames, this`boolFrames, this`codeFrames, this`nameFrames, this`exec, this`input
      ensures FramesValid()
      ensures Snapshot() == Load(old(Snapshot()), Prog(ch))
    {
      ghost var m := Snapshot();
      ghost var t := m.(codeFrames := SetTop(m.codeFrames, Top(m.codeFrames) + [Prog(ch)]),
        exec := m.exec + [Prog(ch)]);
      LoadPushes(m, Prog(ch));
      codeFrames, exec := SetTop(codeFrames, Top(codeFrames) + [Prog(ch)]), exec + [Prog(ch)];
      assert Snapshot() == t;
    }

    /** `Execute`: counts the evaluation when steps are counted, loads the
        program and steps it. */
    method Execute(ch: seq<Atom>, maxSteps: int, countSteps: bool, effect: Effect)
      returns (executed: nat, fault: Option<Fault>)
      requires FramesValid() && IsInt32(maxSteps)
      modifies this`intFrames, this`floatFrames, this`boolFrames, this`codeFrames, this`nameFrames, this`exec, this`input, this`totalStepsTaken, this`evaluationExecutions
      ensures FramesValid()
      ensures evaluationExecutions == old(evaluationExecutions) + (if countSteps then 1 else 0)
      ensures maxSteps >= 0 ==> executed <= maxSteps
      ensures executed <= StepLimit(maxSteps)
      ensures fault.None? ==>
        Iterate(Load(old(Snapshot()), Prog(ch)), executed, effect) == Ok(Snapshot())
      ensures fault.None? ==> exec == [] || executed == StepLimit(maxSteps)
      ensures Busy(Load(old(Snapshot()), Prog(ch)), executed, effect)
      ensures fault.Some? ==>
        Iterate(Load(old(Snapshot()), Prog(ch)), executed + 1, effect) == Err(fault.value)
      ensures totalStepsTaken ==
        old(totalStepsTaken) + (if countSteps && fault.None? then executed else 0)
    {
      if countSteps {
        evaluationExecutions := evaluationExecutions + 1;
      }
      LoadProgram(ch);
      executed, fault := Step(maxSteps, countSteps, effect);
    }

    /** `ClearStacks`: the current stack of each type, exec, input and
        every custom stack become empty; the saved frames stay. */
    method ClearStacks()
      requires FramesValid()
      modifies this`intFrames, this`floatFrames, this`boolFrames, this`codeFrames, this`nameFrames, this`exec, this`input, this`customStacks
      ensures FramesValid()
      ensures Snapshot() == Cleared(old(Snapshot()))
      ensures |customStacks| == |old(customStacks)|
      ensures forall k :: 0 <= k < |customStacks| ==> customStacks[k] == []
    {
      SetCurrentStacks(Stacks([], [], [], [], [], [], []));
      var k := 0;
      while k < |customStacks|
        modifies this`customStacks
        invariant k <= |customStacks| == |old(customStacks)|
        invariant forall j :: 0 <= j < k ==> customStacks[j] == []
      {
        customStacks := customStacks[k := []];
        k := k + 1;
      }
    }

    /** `AddCustomStack`: appends a stack and returns its index. */
    method AddCustomStack(s: seq<Atom>) returns (index: int)
      modifies this`customStacks
      ensures customStacks == old(customStacks) + [s]
      ensures index == |old(customStacks)| && customStacks[index] == s
    {
      customStacks := customStacks + [s];
      index := |customStacks| - 1;
    }

    // ---- the instruction set used for random code

    /** `SetInstructions`: empties the random-code generators, then adds
        those of each token of the list in turn; a token that is not a name,
        an unknown name or a malformed `input.makeinputs<N>` stops it with
        the exception Java throws. */
    method SetInstructions(list: seq<Atom>) returns (fault: Option<Fault>)
      requires TablesValid()
      modifies this`instructions, this`generators, this`randomGenerators
      ensures TablesValid()
      ensures fault.None? ==>
        ListSpec(old(Tabled()), list) == Ok(Added(Tabled(), multiset(randomGenerators)))
      ensures fault.Some? ==> ListSpec(old(Tabled()), list) == Err(fault.value)
    {
      ghost var goal := ListSpec(Tabled(), list);
      randomGenerators := [];
      fault := None;
      var n := 0;
      while n < |list|
        invariant TablesValid() && n <= |list| && fault.None?
        invariant ListFrom(Added(Tabled(), multiset(randomGenerators)), list[n..]) == goal
      {
        fault := ListStep(list[n..]);
        if fault.Some? {
          return;
        }
        assert list[n..][1..] == list[n + 1..];
        n := n + 1;
      }
    }

    /** The first token of the rest of the list. */
    method ListStep(rest: seq<Atom>) returns (fault: Option<Fault>)
      requires TablesValid() && rest != []
      modifies this`instructions, this`generators, this`randomGenerators
      ensures TablesValid()
      ensures fault.None? ==>
        ListFrom(Added(Tabled(), multiset(randomGenerators)), rest[1..]) ==
        old(ListFrom(Added(Tabled(), multiset(randomGenerators)), rest))
      ensures fault.Some? ==> old(ListFrom(Added(Tabled(), multiset(randomGenerators)), rest)) == Err(fault.value)
    {
      fault := AddToken(rest[0]);
    }

    /** One iteration of `SetInstructions`' loop. */
    method AddToken(tok: Atom) returns (fault: Option<Fault>)
      requires TablesValid()
      modifies this`instructions, this`generators, this`randomGenerators
      ensures TablesValid()
      ensures fault.None? ==> TokenSpec(old(Tabled()), tok).Ok?
      ensures fault.None? ==> Tabled() == TokenSpec(old(Tabled()), tok).value.tables
      ensures fault.None? ==>
        multiset(randomGenerators) == multiset(old(randomGenerators)) + TokenSpec(old(Tabled()), tok).value.gens
      ensures fault.Some? ==> TokenSpec(old(Tabled()), tok) == Err(fault.value)
    {
      var name: string;
      match tok {
        case Name(s) =>
          name := s;
        case InstrRef(k) =>
          if k !in instructions {
            return Some(NullPointer);
          }
          name := k;
        case _ =>
          return Some(NotAName);
      }
      fault := AddName(name);
    }

    /** The body of `SetInstructions`' loop once the token's name is known. */
    method AddName(name: string) returns (fault: Option<Fault>)
      requires TablesValid()
      modifies this`instructions, this`generators, this`randomGenerators
      ensures TablesValid()
      ensures fault.None? ==> NameSpec(old(Tabled()), name).Ok?
      ensures fault.None? ==> Tabled() == NameSpec(old(Tabled()), name).value.tables
      ensures fault.None? ==>
        multiset(randomGenerators) == multiset(old(randomGenerators)) + NameSpec(old(Tabled()), name).value.gens
      ensures fault.Some? ==> NameSpec(old(Tabled()), name) == Err(fault.value)
    {
      fault := None;
      if StartsWith(name, "registered.") {
        var typeName := name[11..];
        if typeName in RegisteredTypes {
          AddMatching(typeName);
          randomGenerators := randomGenerators + Extras(Tables(instructions, generators), typeName);
        }
      } else if StartsWith(name, "input.makeinputs") {
        var num := ParseInt(name[16..]);
        if num.None? {
          return Some(NumberFormat);
        }
        MakeInputs(if num.value < 0 then 0 else num.value);
      } else if name in generators {
        randomGenerators := randomGenerators + [generators[name]];
      } else {
        fault := Some(UnknownInstruction(name));
      }
    }

    /** The generator of every instruction whose name starts with
        `typeName`, in the map's key order. */
    method AddMatching(typeName: string)
      requires TablesValid()
      modifies this`randomGenerators
      ensures multiset(randomGenerators) ==
        multiset(old(randomGenerators)) + GensOf(Matching(instructions, typeName))
    {
      var rest := instructions.Keys;
      ghost var order: seq<string> := [];
      while rest != {}
        invariant rest <= instructions.Keys
        invariant forall i :: 0 <= i < |order| ==> order[i] in instructions && order[i] !in rest
        invariant forall k :: k in instructions ==> k in rest || k in order
        invariant Distinct(order)
        invariant randomGenerators == old(randomGenerators) + MatchingGens(order, typeName)
        decreases rest
      {
        var key :| key in rest;
        assert key in instructions && generators[key] == InstrGen(key);
        if StartsWith(key, typeName) {
          randomGenerators := randomGenerators + [generators[key]];
        }
        MatchingGensSnoc(order, key, typeName);
        DistinctSnoc(order, key);
        rest, order := rest - {key}, order + [key];
      }
      MatchingGensOfKeys(order, instructions.Keys, typeName);
    }

    /** `input.makeinputs<N>`: defines `input.in0` ... `input.in(N-1)` in
        order and adds the generator of each. */
    method MakeInputs(num: nat)
      requires TablesValid()
      modifies this`instructions, this`generators, this`randomGenerators
      ensures TablesValid()
      ensures Tabled() == DefineInputs(old(Tabled()), num)
      ensures randomGenerators == old(randomGenerators) + InputGens(num)
    {
      var i := 0;
      while i < num
        invariant i <= num && TablesValid()
        invariant Tabled() == DefineInputs(old(Tabled()), i)
        invariant randomGenerators == old(randomGenerators) + InputGens(i)
      {
        AddInput(i);
        assert InputGens(i + 1) == InputGens(i) + [InstrGen(InputName(i))];
        assert DefineInputs(old(Tabled()), i + 1) == Define(DefineInputs(old(Tabled()), i), InputName(i), InputIn(i));
        i := i + 1;
      }
    }

    /** One iteration of `MakeInputs`: `input.in<i>` pushes input item `i`
        and its generator joins the random-code generators. */
    method AddInput(i: nat)
      requires TablesValid()
      modifies this`instructions, this`generators, this`randomGenerators
      ensures TablesValid()
      ensures Tabled() == Define(old(Tabled()), InputName(i), InputIn(i))
      ensures randomGenerators == old(randomGenerators) + [InstrGen(InputName(i))]
    {
      var name := InputName(i);
      DefineInstruction(name, InputIn(i));
      assert Tabled() == Define(old(Tabled()), name, InputIn(i));
      randomGenerators := randomGenerators + [GenOf(generators, name)];
    }

    // ---- random code

    /** `RandomAtom`. */
    method RandomAtom() returns (r: Result<Atom>)
      requires RangesValid()
      modifies this`drawn
      ensures r.Ok? ==> RandomAtomSpec(randomGenerators, source, old(drawn),
        minRandomInt, maxRandomInt, randomIntResolution) == Ok(Drawn(r.value, drawn))
      ensures r.Err? ==> RandomAtomSpec(randomGenerators, source, old(drawn),
        minRandomInt, maxRandomInt, randomIntResolution) == Err(r.fault)
      ensures CanGenerate(randomGenerators, minRandomInt, maxRandomInt, randomIntResolution) ==> r.Ok?
    {
      if |randomGenerators| == 0 {
        return Err(IllegalArgument);
      }
      var index := NextInt(source, drawn, |randomGenerators|);
      drawn := drawn + 1;
      match randomGenerators[index]
      case InstrGen(name) =>
        r := Ok(Name(name));
      case IntErcGen =>
        var bound := Wrap32(maxRandomInt - minRandomInt);
        if bound <= 0 {
          return Err(IllegalArgument);
        }
        var x := NextInt(source, drawn, bound);
        drawn := drawn + 1;
        var v := IntErc(minRandomInt, maxRandomInt, randomIntResolution, x);
        r := if v.Ok? then Ok(Int(v.value)) else Err(v.fault);
      case FloatErcGen =>
        r := Ok(Flt(Float32(source(drawn))));
        drawn := drawn + 1;
      case NullGen =>
        r := Err(NullPointer);
    }

    /** `RandomCodeDistribution(count, maxElements)`: decompose `count`,
        then shuffle the parts. `maxElements` plays no part. */
    method RandomCodeDistribution(count: int, maxElements: int) returns (result: seq<int>)
      modifies this`drawn
      ensures Distribution(source, old(drawn), count) == Drawn(result, drawn)
    {
      ghost var d := Decompose(source, drawn, count);
      var parts := DecomposeInto([], count, maxElements);
      assert [] + d.value == d.value;
      assert parts == d.value && drawn == d.pos;
      result := Shuffle(parts);
      assert Drawn(result, drawn) == ShuffleFrom(source, d.pos, d.value, 0);
    }

    /** The shuffle loop of `RandomCodeDistribution`: index `i` swaps with
        a drawn index unless the two are equal. */
    method Shuffle(s: seq<int>) returns (result: seq<int>)
      modifies this`drawn
      ensures ShuffleFrom(source, old(drawn), s, 0) == Drawn(result, drawn)
    {
      var pos := drawn;
      result := s;
      var i := 0;
      while i < |result|
        modifies {}
        invariant |result| == |s| && i <= |result|
        invariant ShuffleFrom(source, pos, result, i) == ShuffleFrom(source, drawn, s, 0)
      {
        var j := NextInt(source, pos, |result|);
        ShuffleStep(source, pos, result, i);
        if i != j {
          result := Swap(result, i, j);
        }
        pos := pos + 1;
        i := i + 1;
      }
      drawn := pos;
    }

    /** The recursive worker of `RandomCodeDistribution`: appends the parts
        of `count` to `list`. */
    method DecomposeInto(list: seq<int>, count: int, maxElements: int) returns (r: seq<int>)
      modifies this`drawn
      ensures var d := Decompose(source, old(drawn), count); r == list + d.value && drawn == d.pos
      decreases count
    {
      if count < 1 {
        return list;
      }
      var thisSize := if count < 2 then 1 else NextInt(source, drawn, count) + 1;
      if count >= 2 {
        drawn := drawn + 1;
      }
      r := DecomposeInto(list + [thisSize], count - thisSize, maxElements - 1);
    }

    /** `RandomCode(size)`: a program whose points, counting the program
        itself, number `size` (at least one); with flat programs on, no
        nested program and `size - 1` atoms. A failing `RandomAtom` stops
        it. */
    method RandomCode(size: int) returns (r: Result<seq<Atom>>)
      requires RangesValid()
      modifies this`drawn
      ensures r.Ok? ==> Points(Prog(r.value)) == if size < 1 then 1 else size
      ensures r.Ok? && generateFlatPrograms ==>
        IsFlat(r.value) && |r.value| == if size < 1 then 0 else size - 1
      ensures size <= 1 || CanGenerate(randomGenerators, minRandomInt, maxRandomInt, randomIntResolution) ==> r.Ok?
      decreases if size < 1 then 0 else size, 0
    {
      var distribution := RandomCodeDistribution(size - 1, size - 1);
      ghost var total := if size < 1 then 0 else size - 1;
      assert (size <= 1 <==> distribution == []) && Sum(distribution) == total && forall k :: 0 <= k < |distribution| ==> 1 <= distribution[k] <= total by {
        DistributionParts(source, old(drawn), size - 1);
      }
      var p: seq<Atom> := [];
      var i := 0;
      assert distribution[i..] == distribution;
      while i < |distribution|
        invariant i <= |distribution|
        invariant PointsSeq(p) + Sum(distribution[i..]) == total
        invariant generateFlatPrograms ==> IsFlat(p) && |p| + Sum(distribution[i..]) == total
      {
        var count := distribution[i];
        assert distribution[i..][1..] == distribution[i + 1..];
        var q := AppendPart(p, count);
        if q.Err? {
          return q;
        }
        p := q.value;
        i := i + 1;
      }
      assert distribution[i..] == [];
      r := Ok(p);
    }

    /** One part of the distribution in `RandomCode`: a part of 1 is one
        random atom; a larger part is that many atoms when programs are
        flat, else a nested random program of that size. */
    method AppendPart(p: seq<Atom>, count: nat) returns (r: Result<seq<Atom>>)
      requires RangesValid() && count >= 1
      modifies this`drawn
      ensures r.Ok? ==> PointsSeq(r.value) == PointsSeq(p) + count
      ensures r.Ok? && generateFlatPrograms && IsFlat(p) ==>
        IsFlat(r.value) && |r.value| == |p| + count
      ensures CanGenerate(randomGenerators, minRandomInt, maxRandomInt, randomIntResolution) ==> r.Ok?
      decreases count, 1
    {
      if count == 1 {
        var a := RandomAtom();
        if a.Err? {
          return Err(a.fault);
        }
        PointsSeqSnoc(p, a.value);
        r := Ok(p + [a.value]);
      } else if generateFlatPrograms {
        r := AppendAtoms(p, count);
      } else {
        var sub := RandomCode(count);
        if sub.Err? {
          return Err(sub.fault);
        }
        PointsSeqSnoc(p, Prog(sub.value));
        r := Ok(p + [Prog(sub.value)]);
      }
    }

    /** The inner loop of `RandomCode` for flat programs: `count` random
        atoms pushed one by one, each adding one point. */
    method AppendAtoms(p: seq<Atom>, count: nat) returns (r: Result<seq<Atom>>)
      requires RangesValid()
      modifies this`drawn
      ensures r.Ok? ==> |r.value| == |p| + count && r.value[..|p|] == p
      ensures r.Ok? ==> PointsSeq(r.value) == PointsSeq(p) + count
      ensures r.Ok? && IsFlat(p) ==> IsFlat(r.value)
      ensures CanGenerate(randomGenerators, minRandomInt, maxRandomInt, randomIntResolution) ==> r.Ok?
    {
      var q := p;
      var j := 0;
      while j < count
        invariant j <= count && |q| == |p| + j && q[..|p|] == p
        invariant PointsSeq(q) == PointsSeq(p) + j
        invariant IsFlat(p) ==> IsFlat(q)
      {
        var a := RandomAtom();
        if a.Err? {
          return Err(a.fault);
        }
        PointsSeqSnoc(q, a.value);
        q := q + [a.value];
        j := j + 1;
      }
      r := Ok(q);
    }

    // ---- registration

    /** `DefineInstruction`: the name runs `i` and generates itself; the
        list of random-code generators is left as it is. */
    method DefineInstruction(name: string, i: Instr)
      requires TablesValid()
      modifies this`instructions, this`generators
      ensures TablesValid()
      ensures instructions == old(instructions)[name := i]
      ensures generators == old(generators)[name := InstrGen(name)]
    {
      instructions := instructions[name := i];
      generators := generators[name := InstrGen(name)];
      assert Tabled() == Define(old(Tabled()), name, i);
    }

    /** `AddInstruction`: `DefineInstruction`, and the name's generator is
        appended to the random-code generators. */
    method AddInstruction(name: string, i: Instr)
      requires TablesValid()
      modifies this`instructions, this`generators, this`randomGenerators
      ensures TablesValid()
      ensures instructions == old(instructions)[name := i]
      ensures generators == old(generators)[name := InstrGen(name)]
      ensures randomGenerators == old(randomGenerators) + [InstrGen(name)]
    {
      DefineInstruction(name, i);
      randomGenerators := randomGenerators + [InstrGen(name)];
    }

    /** `DefineStackInstructions`: the nine instructions of one stack type,
        each name running its own operation; every other name keeps what it
        ran before. */
    method DefineStackInstructions(typeName: string)
      requires TablesValid()
      modifies this`instructions, this`generators
      ensures TablesValid()
      ensures instructions.Keys == old(instructions).Keys + StackInstrNames(typeName)
      ensures generators.Keys == old(generators).Keys + StackInstrNames(typeName)
      ensures Tabled() == DefineStack(old(Tabled()), typeName, |StackOps|)
      ensures forall k :: 0 <= k < |StackOps| ==>
        StackInstrName(typeName, StackOps[k]) in instructions &&
        instructions[StackInstrName(typeName, StackOps[k])] == StackOp(typeName, StackOps[k])
      ensures KeepsOutside(old(instructions), instructions, StackInstrNames(typeName))
    {
      ghost var t0 := Tabled();
      // The nine `DefineInstruction` calls, in order, are `DefineStack`.
      var t := DefineStack(Tables(instructions, generators), typeName, |StackOps|);
      instructions, generators := t.instructions, t.generators;
      DefineStackHas(t0, typeName);
      forall k | 0 <= k < |StackOps|
        ensures instructions[StackInstrName(typeName, StackOps[k])] == StackOp(typeName, StackOps[k])
      {
        DefineStackRuns(t0, typeName, |StackOps|, k);
      }
      DefineStackKeeps(t0, typeName, |StackOps|);
    }
  }
}
