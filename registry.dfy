/** The instruction table, the generator table and the instruction-list
    tokens of `SetInstructions`, as values. */
module Registry {
  import opened Atoms
  import opened Faults
  import opened Machine

  /** What a random-code generator produces: its instruction's name, an
      integer constant or a float constant. `NullGen` is the null that a
      lookup of a name without a generator yields. */
  datatype Generator = InstrGen(name: string) | IntErcGen | FloatErcGen | NullGen

  /** `_instructions` and `_generators`. */
  datatype Tables = Tables(instructions: map<string, Instr>, generators: map<string, Generator>)

  /** Every instruction has the generator of its own name. */
  predicate Consistent(t: Tables)
  {
    forall k :: k in t.instructions ==> k in t.generators && t.generators[k] == InstrGen(k)
  }

  /** `_generators.get(name)`: null when the name has no generator. */
  function GenOf(generators: map<string, Generator>, name: string): Generator
  {
    if name in generators then generators[name] else NullGen
  }

  /** `DefineInstruction`: the name runs `i` and generates itself. */
  function Define(t: Tables, name: string, i: Instr): (r: Tables)
    ensures r.instructions.Keys == t.instructions.Keys + {name}
    ensures r.generators.Keys == t.generators.Keys + {name}
    ensures Consistent(t) ==> Consistent(r)
  {
    Tables(t.instructions[name := i], t.generators[name := InstrGen(name)])
  }

  predicate StartsWith(s: string, prefix: string)
  {
    |prefix| <= |s| && s[..|prefix|] == prefix
  }

  // ---- the per-stack instructions

  const StackOps: seq<string> :=
    ["pop", "swap", "rot", "flush", "dup", "stackdepth", "shove", "yank", "yankdup"]

  /** The name `DefineStackInstructions` gives to operation `op` of stack
      type `typeName`. */
  function StackInstrName(typeName: string, op: string): string
  {
    typeName + "." + op
  }

  /** The nine names of one stack type are pairwise different. */
  lemma StackInstrNamesDistinct(typeName: string, i: nat, j: nat)
    requires i < |StackOps| && j < |StackOps| && i != j
    ensures StackInstrName(typeName, StackOps[i]) != StackInstrName(typeName, StackOps[j])
  {
    var p := typeName + ".";
    assert StackInstrName(typeName, StackOps[i])[|p|..] == StackOps[i];
    assert StackInstrName(typeName, StackOps[j])[|p|..] == StackOps[j];
  }

  /** `DefineStackInstructions`, folded over the first `n` operations: the
      table gains exactly the names `typeName.op` of those operations. */
  function DefineStack(t: Tables, typeName: string, n: nat): (r: Tables)
    requires n <= |StackOps|
    ensures r.instructions.Keys ==
      t.instructions.Keys + (set k | 0 <= k < n :: StackInstrName(typeName, StackOps[k]))
    ensures r.generators.Keys ==
      t.generators.Keys + (set k | 0 <= k < n :: StackInstrName(typeName, StackOps[k]))
    ensures Consistent(t) ==> Consistent(r)
  {
    if n == 0 then t
    else
      var op := StackOps[n - 1];
      var prev := DefineStack(t, typeName, n - 1);
      assert (set k | 0 <= k < n :: StackInstrName(typeName, StackOps[k])) ==
        (set k | 0 <= k < n - 1 :: StackInstrName(typeName, StackOps[k])) + {StackInstrName(typeName, op)};
      Define(prev, StackInstrName(typeName, op), StackOp(typeName, op))
  }

  /** `DefineStackInstructions` keeps every name it finds and adds the nine
      names of its stack type. */
  lemma DefineStackHas(t: Tables, typeName: string)
    ensures t.instructions.Keys <= DefineStack(t, typeName, |StackOps|).instructions.Keys
    ensures forall k :: 0 <= k < |StackOps| ==>
      StackInstrName(typeName, StackOps[k]) in DefineStack(t, typeName, |StackOps|).instructions
  {
    forall k | 0 <= k < |StackOps|
      ensures StackInstrName(typeName, StackOps[k]) in DefineStack(t, typeName, |StackOps|).instructions
    {
      DefineStackRuns(t, typeName, |StackOps|, k);
    }
  }

  /** The nine names of one stack type. */
  function StackInstrNames(typeName: string): set<string>
  {
    set k | 0 <= k < |StackOps| :: StackInstrName(typeName, StackOps[k])
  }

  /** `DefineStackInstructions` leaves every other name as it was. */
  lemma {:induction false} DefineStackKeeps(t: Tables, typeName: string, n: nat)
    requires n <= |StackOps|
    ensures forall name :: name in t.instructions && name !in StackInstrNames(typeName) ==>
      name in DefineStack(t, typeName, n).instructions &&
      DefineStack(t, typeName, n).instructions[name] == t.instructions[name]
  {
    if n > 0 {
      DefineStackKeeps(t, typeName, n - 1);
      var op := StackOps[n - 1];
      var added := StackInstrName(typeName, op);
      assert added in StackInstrNames(typeName);
      assert DefineStack(t, typeName, n).instructions ==
        DefineStack(t, typeName, n - 1).instructions[added := StackOp(typeName, op)];
    }
  }


  /** After `DefineStackInstructions(typeName)` each of the nine names runs
      its own stack operation: no later definition overwrites an earlier. */
  lemma {:induction false} DefineStackRuns(t: Tables, typeName: string, n: nat, k: nat)
    requires k < n <= |StackOps|
    ensures DefineStack(t, typeName, n).instructions[StackInstrName(typeName, StackOps[k])] ==
      StackOp(typeName, StackOps[k])
  {
    var prev := DefineStack(t, typeName, n - 1);
    var op := StackOps[n - 1];
    assert DefineStack(t, typeName, n).instructions ==
      prev.instructions[StackInstrName(typeName, op) := StackOp(typeName, op)];
    if k < n - 1 {
      DefineStackRuns(t, typeName, n - 1, k);
      StackInstrNamesDistinct(typeName, k, n - 1);
    }
  }

  // ---- decimal numbers

  function DigitChar(d: nat): char
    requires d < 10
  {
    "0123456789"[d]
  }

  lemma DigitCharValue(d: nat)
    requires d < 10
    ensures '0' <= DigitChar(d) <= '9' && (DigitChar(d) - '0') as nat == d
  {
  }

  /** Every character is an ASCII decimal digit. */
  predicate IsDigits(s: string)
  {
    forall k :: 0 <= k < |s| ==> '0' <= s[k] <= '9'
  }

  /** `Integer.toString` of a non-negative number. */
  function NatToString(n: nat): (s: string)
    ensures |s| >= 1 && IsDigits(s)
  {
    if n < 10 then [DigitChar(n)] else NatToString(n / 10) + [DigitChar(n % 10)]
  }

  /** The value of a string of decimal digits. */
  function DigitsValue(s: string): nat
    requires IsDigits(s)
  {
    if s == [] then 0 else 10 * DigitsValue(s[..|s| - 1]) + (s[|s| - 1] - '0') as nat
  }

  /** `Integer.parseInt`: an optional sign then at least one ASCII digit,
      whose value must fit in a Java `int`; anything else is refused. */
  function ParseInt(s: string): (r: Option<int>)
    ensures r.Some? ==> -0x8000_0000 <= r.value < 0x8000_0000
    ensures |s| <= 1 && !IsDigits(s) ==> r == None
    ensures |s| > 0 && s[0] != '-' && s[0] != '+' && !('0' <= s[0] <= '9') ==> r == None
    ensures (exists k :: 0 < k < |s| && !('0' <= s[k] <= '9')) ==> r == None
    ensures r.Some? && |s| > 0 && s[0] == '-' ==> r.value <= 0
    ensures r.Some? && |s| > 0 && s[0] != '-' ==> r.value >= 0
    ensures s == [] ==> r == None
    ensures s != [] && IsDigits(s) ==>
      r == if DigitsValue(s) < 0x8000_0000 then Some(DigitsValue(s)) else None
    ensures |s| > 1 && s[0] == '+' && IsDigits(s[1..]) ==>
      r == if DigitsValue(s[1..]) < 0x8000_0000 then Some(DigitsValue(s[1..])) else None
    ensures |s| > 1 && s[0] == '-' && IsDigits(s[1..]) ==>
      r == if DigitsValue(s[1..]) <= 0x8000_0000 then Some(-(DigitsValue(s[1..]) as int)) else None
  {
    var neg := |s| > 0 && s[0] == '-';
    var digits := if |s| > 0 && (s[0] == '-' || s[0] == '+') then s[1..] else s;
    if digits == [] || !IsDigits(digits) then None
    else
      var d: int := DigitsValue(digits);
      var v := if neg then -d else d;
      if -0x8000_0000 <= v < 0x8000_0000 then Some(v) else None
  }

  lemma {:induction false} DigitsOfNat(n: nat)
    ensures DigitsValue(NatToString(n)) == n
  {
    var s := NatToString(n);
    if n < 10 {
      DigitCharValue(n);
      assert s[..|s| - 1] == [];
    } else {
      DigitsOfNat(n / 10);
      DigitCharValue(n % 10);
      assert s == NatToString(n / 10) + [DigitChar(n % 10)];
      assert s[..|s| - 1] == NatToString(n / 10);
      assert DigitsValue(s) == 10 * DigitsValue(NatToString(n / 10)) + n % 10;
    }
  }

  /** The `N` of `input.makeinputsN`, written as `Integer.toString` writes
      it, parses back to `N`. */
  lemma ParseIntOfNat(n: nat)
    requires n < 0x8000_0000
    ensures ParseInt(NatToString(n)) == Some(n)
  {
    DigitsOfNat(n);
    var s := NatToString(n);
    assert s[0] != '-' && s[0] != '+';
  }

  /** A minus sign before the decimal text of `N` parses to `-N`, down to
      the smallest Java `int`. */
  lemma ParseIntOfNegated(n: nat)
    requires n <= 0x8000_0000
    ensures ParseInt("-" + NatToString(n)) == Some(-(n as int))
  {
    DigitsOfNat(n);
    var s := "-" + NatToString(n);
    assert s[1..] == NatToString(n);
  }

  /** `"input.in" + i`. */
  function InputName(i: nat): string
  {
    "input.in" + NatToString(i)
  }

  /** Defining `input.in0` ... `input.in(n-1)`, in that order. */
  function DefineInputs(t: Tables, n: nat): (r: Tables)
    ensures Consistent(t) ==> Consistent(r)
  {
    if n == 0 then t else Define(DefineInputs(t, n - 1), InputName(n - 1), InputIn(n - 1))
  }

  /** The generators of `input.in0` ... `input.in(n-1)`, in that order. */
  function InputGens(n: nat): (r: seq<Generator>)
    ensures |r| == n
  {
    if n == 0 then [] else InputGens(n - 1) + [InstrGen(InputName(n - 1))]
  }

  // ---- instruction-list tokens

  const RegisteredTypes: set<string> :=
    {"integer", "float", "boolean", "exec", "code", "name", "input", "frame"}

  /** The instruction names `registered.<t>` selects: every name that
      starts with `t` (with no dot required after it). */
  function Matching(instructions: map<string, Instr>, t: string): set<string>
  {
    MatchingIn(instructions.Keys, t)
  }

  function MatchingIn(keys: set<string>, t: string): set<string>
  {
    set k | k in keys && StartsWith(k, t)
  }

  /** Looking at one more key adds it to the matching names exactly when
      it starts with `t`. */
  lemma MatchingInAdd(keys: set<string>, key: string, t: string)
    requires key !in keys
    ensures key !in MatchingIn(keys, t)
    ensures MatchingIn(keys + {key}, t) ==
      if StartsWith(key, t) then MatchingIn(keys, t) + {key} else MatchingIn(keys, t)
  {
  }

  /** The generators of a set of instruction names, each once. */
  function GensOf(keys: set<string>): multiset<Generator>
  {
    multiset(set k | k in keys :: InstrGen(k))
  }

  /** The extra generators `registered.<t>` adds after the matching names. */
  function Extras(t: Tables, typeName: string): seq<Generator>
  {
    if typeName == "boolean" then [GenOf(t.generators, "true"), GenOf(t.generators, "false")]
    else if typeName == "integer" then [GenOf(t.generators, "integer.erc")]
    else if typeName == "float" then [GenOf(t.generators, "float.erc")]
    else []
  }

  /** The tables after a token and the generators it appends. */
  datatype Added = Added(tables: Tables, gens: multiset<Generator>)

  /** The name a token stands for: a name as it is, an instruction object
      by its registered name; anything else is refused. */
  function TokenName(t: Tables, tok: Atom): Result<string>
  {
    match tok
    case Name(s) => Ok(s)
    case InstrRef(k) => if k in t.instructions then Ok(k) else Err(NullPointer)
    case _ => Err(NotAName)
  }

  /** One iteration of `SetInstructions`' loop, for the name `name`. */
  function NameSpec(t: Tables, name: string): (r: Result<Added>)
    requires Consistent(t)
    ensures r.Ok? ==> Consistent(r.value.tables)
  {
    if StartsWith(name, "registered.") then
      var typeName := name[11..];
      if typeName !in RegisteredTypes then Ok(Added(t, multiset{}))
      else Ok(Added(t, GensOf(Matching(t.instructions, typeName)) + multiset(Extras(t, typeName))))
    else if StartsWith(name, "input.makeinputs") then
      match ParseInt(name[16..])
      case None => Err(NumberFormat)
      case Some(num) =>
        var n: nat := if num < 0 then 0 else num;
        Ok(Added(DefineInputs(t, n), multiset(InputGens(n))))
    else if name in t.generators then Ok(Added(t, multiset{t.generators[name]}))
    else Err(UnknownInstruction(name))
  }

  function TokenSpec(t: Tables, tok: Atom): (r: Result<Added>)
    requires Consistent(t)
    ensures r.Ok? ==> Consistent(r.value.tables)
  {
    match TokenName(t, tok)
    case Err(f) => Err(f)
    case Ok(name) => NameSpec(t, name)
  }

  /** `SetInstructions` over a whole instruction list: the tables after it
      and the multiset of generators it leaves in `_randomGenerators` (the
      order among the names of one `registered.<t>` follows the hash map's
      key order, which is unspecified). */
  function ListSpec(t: Tables, toks: seq<Atom>): (r: Result<Added>)
    requires Consistent(t)
    ensures r.Ok? ==> Consistent(r.value.tables)
  {
    ListFrom(Added(t, multiset{}), toks)
  }

  /** The rest `toks` of the list, after the tokens before it left `acc`:
      each token in turn adds its tables and generators, and the first
      refused token stops the whole list with its fault. */
  function ListFrom(acc: Added, toks: seq<Atom>): (r: Result<Added>)
    requires Consistent(acc.tables)
    ensures r.Ok? ==> Consistent(r.value.tables)
    decreases |toks|
  {
    if toks == [] then Ok(acc)
    else
      match TokenSpec(acc.tables, toks[0])
      case Err(f) => Err(f)
      case Ok(next) => ListFrom(Added(next.tables, acc.gens + next.gens), toks[1..])
  }


  /** `registered.boolean` contributes every `boolean...` instruction plus
      the constants `true` and `false`. */
  lemma RegisteredBoolean(t: Tables)
    requires Consistent(t)
    ensures NameSpec(t, "registered.boolean") ==
      Ok(Added(t, GensOf(Matching(t.instructions, "boolean")) +
                  multiset{GenOf(t.generators, "true"), GenOf(t.generators, "false")}))
  {
    assert StartsWith("registered.boolean", "registered.");
    assert "registered.boolean"[11..] == "boolean";
  }

  /** `registered.<t>` for a type outside the eight known ones contributes
      nothing and refuses nothing (Java only prints a message). */
  lemma RegisteredUnknown(t: Tables, typeName: string)
    requires Consistent(t) && typeName !in RegisteredTypes
    ensures NameSpec(t, "registered." + typeName) == Ok(Added(t, multiset{}))
  {
    var name := "registered." + typeName;
    assert name[..11] == "registered." && name[11..] == typeName;
  }

  /** Each name matched by `registered.<t>` contributes its generator exactly
      once, and nothing else is contributed by the matching. */
  lemma {:induction false} GensOfCount(keys: set<string>, k: string)
    ensures GensOf(keys)[InstrGen(k)] == if k in keys then 1 else 0
    ensures |GensOf(keys)| == |keys|
    decreases keys
  {
    if keys != {} {
      var x :| x in keys;
      var rest := keys - {x};
      assert keys == rest + {x};
      GensOfCount(rest, k);
      GensOfAdd(rest, x);
    }
  }

  /** One more key of `AddMatching`'s loop: its generator is appended
      exactly when the key matches. */
  lemma MatchingStep(base: multiset<Generator>, prev: seq<Generator>, next: seq<Generator>,
                     seen: set<string>, key: string, t: string)
    requires key !in seen
    requires multiset(prev) == base + GensOf(MatchingIn(seen, t))
    requires next == if StartsWith(key, t) then prev + [InstrGen(key)] else prev
    ensures multiset(next) == base + GensOf(MatchingIn(seen + {key}, t))
  {
    MatchingInAdd(seen, key, t);
    if StartsWith(key, t) {
      GensOfAdd(MatchingIn(seen, t), key);
    }
  }

  predicate Distinct(order: seq<string>)
  {
    forall i, j :: 0 <= i < j < |order| ==> order[i] != order[j]
  }

  /** The generators `registered.<t>` appends when the keys come in the
      order `order`. */
  function MatchingGens(order: seq<string>, t: string): (r: seq<Generator>)
  {
    if order == [] then []
    else
      var last := order[|order| - 1];
      MatchingGens(order[..|order| - 1], t) + (if StartsWith(last, t) then [InstrGen(last)] else [])
  }

  /** One more key in the order appends its generator when it matches. */
  lemma MatchingGensSnoc(order: seq<string>, key: string, t: string)
    ensures MatchingGens(order + [key], t) ==
      MatchingGens(order, t) + (if StartsWith(key, t) then [InstrGen(key)] else [])
  {
    assert (order + [key])[..|order|] == order;
  }

  /** A fresh key keeps the order free of repeats. */
  lemma DistinctSnoc(order: seq<string>, key: string)
    requires Distinct(order) && key !in order
    ensures Distinct(order + [key])
  {
  }

  /** Whatever order the keys come in, each matching name contributes its
      generator once: as multisets the appended generators are those of
      `Matching`. */
  lemma {:induction false} MatchingGensOf(order: seq<string>, t: string)
    requires Distinct(order)
    ensures multiset(MatchingGens(order, t)) == GensOf(MatchingIn((set k | k in order), t))
  {
    if order == [] {
      assert MatchingIn({}, t) == {};
    } else {
      var init, x := order[..|order| - 1], order[|order| - 1];
      MatchingGensOf(init, t);
      assert (set k | k in order) == (set k | k in init) + {x};
      assert x !in (set k | k in init);
      MatchingStep(multiset{}, MatchingGens(init, t), MatchingGens(order, t), (set k | k in init), x, t);
    }
  }

  lemma MatchingGensOfKeys(order: seq<string>, keys: set<string>, t: string)
    requires Distinct(order)
    requires forall i :: 0 <= i < |order| ==> order[i] in keys
    requires forall k :: k in keys ==> k in order
    ensures multiset(MatchingGens(order, t)) == GensOf(MatchingIn(keys, t))
  {
    MatchingGensOf(order, t);
    assert (set k | k in order) == keys;
  }

  /** Adding a name outside `keys` adds its one generator. */
  lemma GensOfAdd(keys: set<string>, x: string)
    requires x !in keys
    ensures GensOf(keys + {x}) == GensOf(keys) + multiset{InstrGen(x)}
  {
    var s := set k | k in keys :: InstrGen(k);
    assert (set k | k in keys + {x} :: InstrGen(k)) == s + {InstrGen(x)};
    assert InstrGen(x) !in s;
  }

  /** The tokens of a list of names. */
  function NameTokens(names: seq<string>): (r: seq<Atom>)
    ensures |r| == |names|
  {
    if names == [] then [] else [Name(names[0])] + NameTokens(names[1..])
  }

  /** The generators of a list of names that all have one. */
  function GensFor(t: Tables, names: seq<string>): seq<Generator>
    requires forall k :: 0 <= k < |names| ==> names[k] in t.generators
  {
    if names == [] then [] else [t.generators[names[0]]] + GensFor(t, names[1..])
  }

  /** An instruction list of plain names (neither `registered.<t>` nor
      `input.makeinputs<N>`) that all have generators leaves the tables as
      they are and adds exactly those generators, whatever the tokens
      before it added. */
  lemma {:induction false} PlainNames(t: Tables, gens: multiset<Generator>, names: seq<string>)
    requires Consistent(t)
    requires forall k :: 0 <= k < |names| ==> names[k] in t.generators
    requires forall k :: 0 <= k < |names| ==>
      !StartsWith(names[k], "registered.") && !StartsWith(names[k], "input.makeinputs")
    ensures ListFrom(Added(t, gens), NameTokens(names)) == Ok(Added(t, gens + multiset(GensFor(t, names))))
    decreases |names|
  {
    if names == [] {
      assert gens + multiset(GensFor(t, names)) == gens;
    } else {
      var first, rest := names[0], names[1..];
      var g := t.generators[first];
      var toks := NameTokens(names);
      assert toks[0] == Name(first) && toks[1..] == NameTokens(rest);
      assert TokenSpec(t, toks[0]) == Ok(Added(t, multiset{g}));
      assert ListFrom(Added(t, gens), toks) == ListFrom(Added(t, gens + multiset{g}), NameTokens(rest));
      PlainNames(t, gens + multiset{g}, rest);
      assert multiset(GensFor(t, names)) == multiset{g} + multiset(GensFor(t, rest));
      assert gens + multiset{g} + multiset(GensFor(t, rest)) == gens + multiset(GensFor(t, names));
    }
  }
}
