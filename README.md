# Psh interpreter core, modelled in Dafny

This project models the control core of the Psh interpreter in
`ecj-psh/src/main/java/org/spiderland/Psh/Interpreter.java`. Psh is a Java
implementation of the Push language for genetic programming. The model
covers five areas:

- the fetch-execute engine: `LoadProgram`, `Execute`, `Step`, `ExecuteInstruction`;
- the frame machine: `PushStacks`, `PopStacks`, `AssignStacksFromFrame`, `PushFrame`, `PopFrame`;
- the instruction registry: `Initialize`'s table, `DefineInstruction`,
  `AddInstruction`, `DefineStackInstructions`, and the instruction-list
  configuration `SetInstructions`;
- random code: `RandomAtom`, both `RandomCodeDistribution` overloads,
  `RandomCode`, and the instruction and integer constant generators;
- the small state updates `ClearStacks`, `addCustomStack` and `SetUseFrames`.

The project has six modules:

- `Faults` (`faults.dfy`): the exceptions the core raises, plus `Result` and `Option`.
- `Atoms` (`atoms.dfy`): program atoms, point counts and `PushAllReverse`.
- `Random` (`random.dfy`): the random source as an explicit stream of draws.
  It holds the size decomposition and shuffle of `RandomCodeDistribution`, and
  the arithmetic of `IntAtomGenerator.Generate`, including Java's 32-bit
  wrap-around and truncating `%`.
- `Machine` (`machine.dfy`): the interpreter state as a value, and the
  meaning of one fetch-execute step and of `n` steps.
- `Registry` (`registry.dfy`): the instruction and generator tables, and the
  meaning of each token of an instruction list.
- `Psh` (`interpreter.dfy`): the class `Interpreter`. Its fields are the
  stacks, frame stacks, tables and counters. Each of its methods updates
  them in place and is proved against the value-level definitions above.

Conventions:

- A stack is a sequence whose top is its last element.
- Each frame stack is a sequence of stacks; the current stack is the last one.
- The random source is a field `source: nat -> nat` together with the count
  `drawn` of draws used so far. `nextInt(n)` on draw `k` yields
  `source(k) % n`. Any run of the Mersenne twister whose draws lie in range
  is such a stream.
- An instruction whose class is not part of this model acts through an
  `effect` parameter: a function from the instruction and the current
  stacks (the current int, float, bool, code and name stacks, exec and
  input) to new current stacks. It cannot touch the saved frames, the
  tables or the random source. `frame.push` and `frame.pop`
  are modelled explicitly.

Two details of the code that the model keeps as written:

- `registered.<type>` selects every instruction whose name starts with
  `<type>`, with no dot required after it (line 403), so `registered.code`
  would also pick up an instruction named `codefoo`.
- A program's size (`Points`) counts the program itself as one point, plus
  every nested program and every atom. `RandomCode(n)` yields a program of
  `n` points in this sense.

## Model

| member | source | states |
|---|---|---|
| Atoms.PushAllReverseOrder | ecj-psh/src/main/java/org/spiderland/Psh/Interpreter.java:650 | after a program's children are pushed in reverse, the child `k` places below the top is child `k` (the first child is on top), and the stack below is untouched |
| Atoms.FlatPoints | ecj-psh/src/main/java/org/spiderland/Psh/Interpreter.java:989-992 | a sequence of atoms with no nested program has exactly one point per atom |
| Machine.PushStacks | ecj-psh/src/main/java/org/spiderland/Psh/Interpreter.java:774-782 | a fresh empty stack of each of the five types becomes current, one frame deeper; the former current stacks are kept unchanged below it |
| Machine.PopStacks | ecj-psh/src/main/java/org/spiderland/Psh/Interpreter.java:784-792 | popping the only frame is a null-pointer fault, and only then; otherwise each of the five stack types drops its current frame, so the frame below becomes current, one frame shallower, while exec, input, the frame flag and the instruction table stay |
| Machine.PushThenPopStacks | ecj-psh/src/main/java/org/spiderland/Psh/Interpreter.java:774-792 | pushing and then popping the stacks restores the state exactly |
| Machine.PushFrame | ecj-psh/src/main/java/org/spiderland/Psh/Interpreter.java:794-813 | without frames, nothing changes; with frames, a new frame starts with the caller's int top (0 on an empty stack), and with the name top only when there is one |
| Machine.PopFrame | ecj-psh/src/main/java/org/spiderland/Psh/Interpreter.java:815-834 | without frames, nothing changes; with frames, it fails exactly at depth 1, and otherwise the caller's int stack gains the popped frame's int top |
| Machine.PushThenPopFrame | ecj-psh/src/main/java/org/spiderland/Psh/Interpreter.java:794-834 | a frame pushed and popped at once returns the caller's frame with each top value pushed once more |
| Machine.ExecAtom | ecj-psh/src/main/java/org/spiderland/Psh/Interpreter.java:641-691 | executing one atom fails exactly for an object the interpreter cannot run, or for `frame.pop` on the last frame; the instruction table and frame flag never change |
| Machine.Run | ecj-psh/src/main/java/org/spiderland/Psh/Interpreter.java:679-682 | a registered instruction fails exactly when it is `frame.pop` with frames in use at depth 1; other instructions keep the frame stacks well formed |
| Machine.ProgramBracketedByFrames | ecj-psh/src/main/java/org/spiderland/Psh/Interpreter.java:643-656 | with frames in use, a program leaves on exec, from the top down: `frame.push`, its children in program order, `frame.pop`, then the old exec |
| Machine.Iterate | ecj-psh/src/main/java/org/spiderland/Psh/Interpreter.java:626-638 | `n` iterations of the step loop keep the frame stacks well formed and the instruction table unchanged |
| Machine.IterateAdd | ecj-psh/src/main/java/org/spiderland/Psh/Interpreter.java:626-638 | `a + b` iterations are `a` iterations followed by `b` more, and a fault in the first `a` is final |
| Machine.IterateHalted | ecj-psh/src/main/java/org/spiderland/Psh/Interpreter.java:628 | once exec is empty, further iterations change nothing |
| Machine.BusyCountUnique | ecj-psh/src/main/java/org/spiderland/Psh/Interpreter.java:606-638 | two counts, each reached with every earlier iteration finding exec non-empty and each ending with exec empty or at the limit, are equal: the count `Step` returns is determined by the state and the budget |
| Machine.StepIntThen | ecj-psh/src/main/java/org/spiderland/Psh/Interpreter.java:659-661 | an integer literal on top of exec takes one step, which moves it to the current int stack |
| Machine.RunIntProgram | ecj-psh/src/main/java/org/spiderland/Psh/Interpreter.java:643-661 | without frames, a program of integer literals takes one step to open and one per literal, and leaves its literals on the int stack in program order |
| Machine.ExecuteIntProgram | ecj-psh/src/main/java/org/spiderland/Psh/Interpreter.java:579-596 | loading such a program and running one more step than the program's length leaves its literals on the int stack in order, exec as it was before loading, and the program on the code stack |
| Machine.Load | ecj-psh/src/main/java/org/spiderland/Psh/Interpreter.java:593-596 | loading keeps the frame stacks well formed and every saved frame of each type unchanged; what it pushes is stated by `LoadPushes` |
| Machine.LoadPushes | ecj-psh/src/main/java/org/spiderland/Psh/Interpreter.java:594-595 | loading pushes the same program onto the current code stack and onto exec, and changes nothing else |
| Machine.Cleared | ecj-psh/src/main/java/org/spiderland/Psh/Interpreter.java:865-873 | every current stack, exec and input become empty; the saved frames and the depth stay |
| Registry.Define | ecj-psh/src/main/java/org/spiderland/Psh/Interpreter.java:462-465 | defining a name adds it to both tables and keeps every instruction paired with its own generator |
| Registry.DefineStack | ecj-psh/src/main/java/org/spiderland/Psh/Interpreter.java:467-477 | defining the stack instructions adds exactly the names `<type>.<op>` of the stack operations, and keeps the tables consistent |
| Registry.StackInstrNamesDistinct | ecj-psh/src/main/java/org/spiderland/Psh/Interpreter.java:468-476 | the nine names of one stack type are pairwise different |
| Registry.DefineStackRuns | ecj-psh/src/main/java/org/spiderland/Psh/Interpreter.java:467-477 | after the nine definitions, each name runs its own stack operation: no later definition overwrites an earlier one |
| Registry.DefineStackKeeps | ecj-psh/src/main/java/org/spiderland/Psh/Interpreter.java:467-477 | every other name keeps the instruction it had |
| Registry.DefineStackHas | ecj-psh/src/main/java/org/spiderland/Psh/Interpreter.java:467-477 | every earlier name stays and all nine names are present afterwards |
| Registry.ParseInt | ecj-psh/src/main/java/org/spiderland/Psh/Interpreter.java:426-427 | a parsed number fits in a Java `int`. An empty string, a lone sign, a first character that is neither a sign nor a digit, or a non-digit after the first character is refused. A digit string, bare or after `+` or `-`, parses to its value (negated after `-`) exactly when that value fits in an `int` |
| Registry.ParseIntOfNegated | ecj-psh/src/main/java/org/spiderland/Psh/Interpreter.java:426-427 | a minus sign before the decimal text of any `N` up to 2^31 parses to `-N`, the smallest `int` included |
| Registry.ParseIntOfNat | ecj-psh/src/main/java/org/spiderland/Psh/Interpreter.java:426-430 | the decimal text of any `N` below 2^31 parses back to `N` |
| Registry.DigitsOfNat | ecj-psh/src/main/java/org/spiderland/Psh/Interpreter.java:429 | the digits written for `"input.in" + i` have the value `i` |
| Registry.InputGens | ecj-psh/src/main/java/org/spiderland/Psh/Interpreter.java:428-432 | `input.makeinputs<N>` appends exactly `N` generators |
| Registry.DefineInputs | ecj-psh/src/main/java/org/spiderland/Psh/Interpreter.java:428-432 | defining `input.in0` to `input.in(N-1)` keeps every instruction paired with its own generator |
| Registry.NameSpec | ecj-psh/src/main/java/org/spiderland/Psh/Interpreter.java:383-443 | handling one name keeps every instruction paired with its own generator |
| Registry.TokenSpec | ecj-psh/src/main/java/org/spiderland/Psh/Interpreter.java:364-380 | handling one token, whether a name or an instruction object, keeps the tables consistent |
| Registry.ListFrom | ecj-psh/src/main/java/org/spiderland/Psh/Interpreter.java:363-444 | handling the remaining tokens in order keeps the tables consistent |
| Registry.ListSpec | ecj-psh/src/main/java/org/spiderland/Psh/Interpreter.java:359-445 | a whole instruction list, starting from no generators, keeps the tables consistent |
| Registry.RegisteredBoolean | ecj-psh/src/main/java/org/spiderland/Psh/Interpreter.java:397-411 | `registered.boolean` adds every `boolean...` instruction's generator plus those of `true` and `false`, and leaves the tables as they are |
| Registry.RegisteredUnknown | ecj-psh/src/main/java/org/spiderland/Psh/Interpreter.java:385-395 | `registered.<t>` for a type other than the eight known ones adds no generator, raises no fault and leaves the tables as they are |
| Registry.GensOfCount | ecj-psh/src/main/java/org/spiderland/Psh/Interpreter.java:399-405 | each matching name contributes its generator exactly once, and nothing else is contributed |
| Registry.MatchingInAdd | ecj-psh/src/main/java/org/spiderland/Psh/Interpreter.java:403 | one more key is matched exactly when it starts with the type name |
| Registry.MatchingGensOf | ecj-psh/src/main/java/org/spiderland/Psh/Interpreter.java:399-407 | whatever order the hash map yields its keys in, the appended generators are, as a multiset, those of the matching names |
| Registry.MatchingGensOfKeys | ecj-psh/src/main/java/org/spiderland/Psh/Interpreter.java:399-407 | an order that lists every key once appends the generators of exactly the matching keys |
| Registry.GensOfAdd | ecj-psh/src/main/java/org/spiderland/Psh/Interpreter.java:403-406 | a new matching name adds exactly its own generator |
| Registry.PlainNames | ecj-psh/src/main/java/org/spiderland/Psh/Interpreter.java:434-443 | a list of plain names that all have generators leaves the tables unchanged and adds exactly their generators, whatever came before |
| Random.NextInt | ecj-psh/src/main/java/org/spiderland/Psh/Interpreter.java:1021 | a draw `nextInt(n)` lies in `[0, n)` |
| Random.DecomposeParts | ecj-psh/src/main/java/org/spiderland/Psh/Interpreter.java:1043-1053 | the worker yields no part exactly when the count is below 1; otherwise every part lies in `[1, count]` and the parts sum to `count` |
| Random.SwapKeeps | ecj-psh/src/main/java/org/spiderland/Psh/Interpreter.java:1024-1026 | an exchange keeps the length, the multiset and the sum |
| Random.ShufflePermutes | ecj-psh/src/main/java/org/spiderland/Psh/Interpreter.java:1020-1027 | the shuffle is a permutation: same length, same multiset, same sum |
| Random.DistributionParts | ecj-psh/src/main/java/org/spiderland/Psh/Interpreter.java:1015-1053 | the distribution is a permutation of the decomposition and is empty exactly when the count is below 1; otherwise its parts lie in `[1, count]` and sum to the count |
| Random.Wrap32 | ecj-psh/src/main/java/org/spiderland/Psh/Interpreter.java:1132-1136 | the result is a Java `int` congruent to the input modulo 2^32, and an `int` input is unchanged |
| Random.RoundDown | ecj-psh/src/main/java/org/spiderland/Psh/Interpreter.java:1134 | rounding a non-negative draw down by Java's `%` stays in `[0, r]` and lands on a multiple of the resolution |
| Random.IntErc | ecj-psh/src/main/java/org/spiderland/Psh/Interpreter.java:1131-1137 | it fails exactly when the wrapped bound `max - min` is not positive (illegal argument) or the resolution is 0 (arithmetic). The result is an `int`; when `min < max` without overflow and `res > 0`, it lies in `[min, max)` on the grid `min + k * res` |
| Random.IntErcReaches | ecj-psh/src/main/java/org/spiderland/Psh/Interpreter.java:1131-1137 | every grid point `min + k * res` below `max` is produced by some draw |
| Psh.GenerateAtom | ecj-psh/src/main/java/org/spiderland/Psh/Interpreter.java:1101-1138 | an instruction generator yields its own name without a draw. The integer generator yields an in-range `int` constant and fails exactly as `IntErc` does. The float generator yields a float. A missing generator is a null-pointer fault |
| Psh.RandomAtomSpec | ecj-psh/src/main/java/org/spiderland/Psh/Interpreter.java:963-967 | no generators is an illegal argument. Every atom comes from a generator in the list, at least one draw is used, and neither a program nor an instruction object is produced. It succeeds whenever the list is non-empty, has no missing generator, and an integer generator in it has a positive range and a nonzero resolution |
| Psh.Interpreter.Initialize | ecj-psh/src/main/java/org/spiderland/Psh/Interpreter.java:226-335 | one frame of empty stacks, frames off, no random-code generators and no custom stacks. The instruction names are exactly the fixed instructions, the nine stack instructions of each of the six stack types, and `frame.push`/`frame.pop`; each fixed name runs its own instruction, each stack name its stack operation on its type, and the frame names the frame operations. The generator names are exactly those names plus `integer.erc` and `float.erc`, which generate integer and float constants |
| Psh.Interpreter.DefineInitialTables | ecj-psh/src/main/java/org/spiderland/Psh/Interpreter.java:237-334 | from empty tables: exactly the built-in names, each running what `Initialize` gives it and generating itself, and besides them only the two constant generators |
| Psh.ErcNotBuiltin | ecj-psh/src/main/java/org/spiderland/Psh/Interpreter.java:333-334 | neither `integer.erc` nor `float.erc` is a built-in instruction name, so putting their generators last keeps the tables consistent |
| Psh.ErcKeepsConsistent | ecj-psh/src/main/java/org/spiderland/Psh/Interpreter.java:333-334 | putting the generators of `float.erc` and `integer.erc` into tables whose instructions are exactly the built-ins keeps every instruction paired with its own generator |
| Psh.InOpaqueNames | ecj-psh/src/main/java/org/spiderland/Psh/Interpreter.java:237-321 | a name `p.q` (with no dot in `p`) is a fixed instruction exactly when `q` is an operation of the group of type `p` |
| Psh.InStackNamesUpTo | ecj-psh/src/main/java/org/spiderland/Psh/Interpreter.java:323-328 | a name `p.q` is a stack instruction of the first `n` stack types exactly when `p` is one of them and `q` a stack operation |
| Psh.OpaqueNotStack | ecj-psh/src/main/java/org/spiderland/Psh/Interpreter.java:237-328 | no fixed instruction shares its name with a stack instruction, so the stack definitions overwrite none of them |
| Psh.FrameNotOpaqueOrStack | ecj-psh/src/main/java/org/spiderland/Psh/Interpreter.java:330-331 | `frame.push` and `frame.pop` are neither fixed nor stack instructions, so defining them last overwrites nothing |
| Psh.StackTypesApart | ecj-psh/src/main/java/org/spiderland/Psh/Interpreter.java:323-328 | the stack instructions of one stack type are none of another's, so a later type's definitions overwrite none of an earlier type's |
| Psh.StackOpsStep | ecj-psh/src/main/java/org/spiderland/Psh/Interpreter.java:323-328 | defining the next type's stack instructions, with every other name kept, keeps every earlier type's instructions running their operations |
| Psh.OpaquesDefinedStep | ecj-psh/src/main/java/org/spiderland/Psh/Interpreter.java:237-321 | defining the next fixed name on top of the earlier ones extends the names added by one, keeps the earlier ones running their instructions, and keeps every other name |
| Psh.StacksDefinedStep | ecj-psh/src/main/java/org/spiderland/Psh/Interpreter.java:323-328 | defining the next stack type's nine instructions extends the names added by those nine and keeps every earlier definition and every other name |
| Psh.OpaqueSurvives | ecj-psh/src/main/java/org/spiderland/Psh/Interpreter.java:237-331 | the fixed instructions still run their own effects after the stack and frame definitions |
| Psh.StackOpsSurvive | ecj-psh/src/main/java/org/spiderland/Psh/Interpreter.java:323-331 | the stack instructions still run their operations after the frame definitions |
| Psh.Interpreter.DefineOpaqueInstructions | ecj-psh/src/main/java/org/spiderland/Psh/Interpreter.java:237-321 | both tables gain exactly the names of the fixed table, each running its own instruction, and every other name keeps the instruction it had |
| Psh.Interpreter.DefineNextOpaque | ecj-psh/src/main/java/org/spiderland/Psh/Interpreter.java:237-321 | one more fixed name defined: its instruction runs its own effect, and everything defined before, and every other name, is kept |
| Psh.Interpreter.DefineAllStackInstructions | ecj-psh/src/main/java/org/spiderland/Psh/Interpreter.java:323-328 | both tables gain exactly the nine stack instructions of each of the six stack types, each running its operation on its own type, and every other name keeps the instruction it had |
| Psh.Interpreter.DefineNextStackType | ecj-psh/src/main/java/org/spiderland/Psh/Interpreter.java:323-328 | one more stack type defined: its nine names run their operations, and everything defined before, and every other name, is kept |
| Psh.Interpreter.DefineFrameInstructions | ecj-psh/src/main/java/org/spiderland/Psh/Interpreter.java:330-331 | both tables gain exactly `frame.push` and `frame.pop`, which run the frame operations, and every other name keeps the instruction it had |
| Psh.Interpreter.DefineBuiltins | ecj-psh/src/main/java/org/spiderland/Psh/Interpreter.java:237-331 | both tables gain exactly the built-in names; afterwards every fixed, stack and frame instruction runs its own operation (no later definition overwrote an earlier one), every other name keeps what it ran, and the tables stay consistent |
| Psh.Interpreter.SetUseFrames | ecj-psh/src/main/java/org/spiderland/Psh/Interpreter.java:346-348 | sets the frame flag and keeps the interpreter valid |
| Psh.Interpreter.CurrentStacks | ecj-psh/src/main/java/org/spiderland/Psh/Interpreter.java:764-772 | the current stacks are the tops of the frame stacks |
| Psh.Interpreter.SetCurrentStacks | ecj-psh/src/main/java/org/spiderland/Psh/Interpreter.java:764-772 | replaces the current stacks and leaves the saved frames alone |
| Psh.Interpreter.PushStacks | ecj-psh/src/main/java/org/spiderland/Psh/Interpreter.java:774-782 | the new state is `Machine.PushStacks` of the old |
| Psh.Interpreter.PopStacks | ecj-psh/src/main/java/org/spiderland/Psh/Interpreter.java:784-792 | the new state is `Machine.PopStacks` of the old; at depth 1 it reports the null-pointer fault and changes nothing |
| Psh.Interpreter.PushFrame | ecj-psh/src/main/java/org/spiderland/Psh/Interpreter.java:794-813 | the new state is `Machine.PushFrame` of the old: with frames on, every stack type gets a new frame above the saved ones, holding the caller's int, float and bool tops and the name and code tops when present |
| Psh.Interpreter.PopFrame | ecj-psh/src/main/java/org/spiderland/Psh/Interpreter.java:815-834 | the new state is `Machine.PopFrame` of the old (with frames on, every stack type drops its top frame and the caller's stack gains the popped frame's top), or its fault with the state unchanged |
| Psh.Interpreter.PushTops | ecj-psh/src/main/java/org/spiderland/Psh/Interpreter.java:804-811 | the saved int, float and bool tops are pushed, and the name and code tops only when present |
| Psh.Interpreter.RunInstruction | ecj-psh/src/main/java/org/spiderland/Psh/Interpreter.java:679-682 | running a registered instruction is `Machine.Run`; on a fault the state is unchanged |
| Psh.Interpreter.ExecuteInstruction | ecj-psh/src/main/java/org/spiderland/Psh/Interpreter.java:641-691 | it returns 0 exactly when the atom executes, with the new state `Machine.ExecAtom` of the old. It returns -1 exactly for an object it cannot run, with the state unchanged. A fault from the instruction run is passed on with the state unchanged |
| Psh.StepLimit | ecj-psh/src/main/java/org/spiderland/Psh/Interpreter.java:628-631 | the number of iterations after which the 32-bit counter, counted down from the budget, reads 0: the budget itself, or 2^32 plus a negative budget |
| Psh.StepLimitFirst | ecj-psh/src/main/java/org/spiderland/Psh/Interpreter.java:628-631 | before that number of iterations the counter is never 0 |
| Psh.Interpreter.Step | ecj-psh/src/main/java/org/spiderland/Psh/Interpreter.java:606-638 | the count returned is the number of objects popped: every iteration before it found exec non-empty (`Machine.Busy`), and at most `StepLimit` of the budget is executed (at most the budget when it is 0 or more). Without a fault, exec is empty or that limit is reached on return, and the state is that many iterations of the step loop. A fault is the next iteration's fault. The total grows by the count exactly when steps are counted and no fault was raised |
| Psh.Interpreter.ExecuteTop | ecj-psh/src/main/java/org/spiderland/Psh/Interpreter.java:628-632 | pops the top of exec and executes it, as one `Machine.StepOnce`; an object that cannot be executed is an internal error |
| Psh.Interpreter.LoadProgram | ecj-psh/src/main/java/org/spiderland/Psh/Interpreter.java:593-596 | the new state is `Machine.Load` of the old |
| Psh.Interpreter.Execute | ecj-psh/src/main/java/org/spiderland/Psh/Interpreter.java:579-584 | the evaluation count grows by 1 exactly when steps are counted. The state and the returned count are those of `Step` run from the loaded program: the count is the number of objects popped, at most `StepLimit` of the budget, and without a fault exec is empty or that limit is reached. The step total grows as in `Step` |
| Psh.Interpreter.ClearStacks | ecj-psh/src/main/java/org/spiderland/Psh/Interpreter.java:865-878 | the new state is `Machine.Cleared` of the old, and every custom stack is emptied |
| Psh.Interpreter.AddCustomStack | ecj-psh/src/main/java/org/spiderland/Psh/Interpreter.java:759-762 | appends the stack and returns its index, which is the old number of custom stacks |
| Psh.Interpreter.SetInstructions | ecj-psh/src/main/java/org/spiderland/Psh/Interpreter.java:359-445 | with no fault, the tables and the multiset of random-code generators are those of `Registry.ListSpec`; otherwise the fault is the one the list specifies |
| Psh.Interpreter.ListStep | ecj-psh/src/main/java/org/spiderland/Psh/Interpreter.java:363-444 | handling the first remaining token leaves the rest of the list to produce the same outcome |
| Psh.Interpreter.AddToken | ecj-psh/src/main/java/org/spiderland/Psh/Interpreter.java:364-380 | one token updates the tables and generators as `Registry.TokenSpec` says, or fails with its fault |
| Psh.Interpreter.AddName | ecj-psh/src/main/java/org/spiderland/Psh/Interpreter.java:383-443 | one name updates the tables and generators as `Registry.NameSpec` says, or fails with its fault |
| Psh.Interpreter.AddMatching | ecj-psh/src/main/java/org/spiderland/Psh/Interpreter.java:399-407 | appends, as a multiset, the generator of every instruction whose name starts with the type name |
| Psh.Interpreter.MakeInputs | ecj-psh/src/main/java/org/spiderland/Psh/Interpreter.java:428-432 | defines `input.in0` to `input.in(N-1)` in order and appends their generators in that order |
| Psh.Interpreter.AddInput | ecj-psh/src/main/java/org/spiderland/Psh/Interpreter.java:429-431 | defines `input.in<i>` and appends its generator |
| Psh.Interpreter.RandomAtom | ecj-psh/src/main/java/org/spiderland/Psh/Interpreter.java:963-967 | the atom and the draws used are those of `RandomAtomSpec`, so it succeeds whenever the generators can generate |
| Psh.Interpreter.RandomCodeDistribution | ecj-psh/src/main/java/org/spiderland/Psh/Interpreter.java:1015-1031 | the result and draws used are those of `Random.Distribution`, whose parts `Random.DistributionParts` bounds; `maxElements` plays no part |
| Psh.Interpreter.DecomposeInto | ecj-psh/src/main/java/org/spiderland/Psh/Interpreter.java:1043-1053 | appends the decomposition of the count to the list |
| Psh.Interpreter.Shuffle | ecj-psh/src/main/java/org/spiderland/Psh/Interpreter.java:1020-1027 | the in-place loop computes `Random.ShuffleFrom` from index 0 |
| Psh.Interpreter.RandomCode | ecj-psh/src/main/java/org/spiderland/Psh/Interpreter.java:977-1000 | a generated program has `size` points counting itself (1 when `size < 1`). With flat programs on, it holds no nested program and exactly `size - 1` atoms. It succeeds when `size` is at most 1 (no part, no draw of an atom) or when the generators can generate |
| Psh.Interpreter.AppendPart | ecj-psh/src/main/java/org/spiderland/Psh/Interpreter.java:984-996 | each part of the distribution adds exactly its size in points, and keeps a flat program flat with one atom per point; it succeeds when the generators can generate |
| Psh.Interpreter.AppendAtoms | ecj-psh/src/main/java/org/spiderland/Psh/Interpreter.java:990-992 | `count` random atoms are appended after the existing ones, adding `count` points; it succeeds when the generators can generate |
| Psh.Interpreter.DefineInstruction | ecj-psh/src/main/java/org/spiderland/Psh/Interpreter.java:462-465 | the name runs the instruction and generates itself; the random-code generators are untouched |
| Psh.Interpreter.AddInstruction | ecj-psh/src/main/java/org/spiderland/Psh/Interpreter.java:447-452 | as `DefineInstruction`, and the name's generator is appended to the random-code generators |
| Psh.Interpreter.DefineStackInstructions | ecj-psh/src/main/java/org/spiderland/Psh/Interpreter.java:467-477 | both tables gain exactly the nine names of the type; the tables are those of `Registry.DefineStack`; each of the nine names runs its own operation, and every other name keeps what it ran |

## Left out

- Parameter reading and instruction-list file loading in `setup` (lines 151-225), and `SetRandomParameters` (lines 530-538): the integer range and resolution are fields that the model's `Initialize` sets to `setup`'s defaults -10, 10 and 1 (lines 166-172). Java's `Initialize` does not set them, so on an interpreter that only ran `Initialize` they are 0 until `setup` or `SetRandomParameters` runs.
- The concrete instruction classes of `Initialize`'s table: their code is not part of this model. Each runs through an opaque `effect` on the current stacks, exec and input; only `frame.push` and `frame.pop` are explicit.
- Floating-point arithmetic: a float is an opaque token. `FloatAtomGenerator` yields a float from one draw, without its scaling and rounding.
- `UpdateStackInstructions` and `AddStackInstruction`: they re-point instruction objects at swapped stack objects. In the model, instructions read the current stacks from the state.
- Printing and strings: `toString`, `PrintStacks`, `GetInstructionsString` and the message printed for an unknown `registered.<type>`. The model does keep the rule that such a type adds nothing and raises no fault.
- `clone`, the getters and the serialisation fields.
- The Mersenne twister's internals: it is an abstract stream of draws.
- The null check on the random source in `Initialize` (lines 228-230): the stream is always present in the model.
- Psh.Interpreter.Step: the budget counter's 32-bit wrap-around is modelled by `StepLimit` (a negative budget runs up to 2^32 plus the budget), but the returned count, `_totalStepsTaken` and `_evaluationExecutions` are unbounded integers, without Java's `int` wrap-around.
- Psh.Interpreter.Execute: the `*.rand` instructions (lines 254, 277, 286, 311 and 313) draw from the same random generator as `RandomCode`, but an opaque `effect` cannot draw, so `Step` and `Execute` never advance `drawn`. An opaque instruction maps the current stacks, exec and input to new ones and nothing else; only `frame.push` and `frame.pop` are explicit.
- Registry.ParseInt: only ASCII digits `0`-`9` are accepted; Java's `Integer.parseInt` also accepts the other Unicode decimal digits.
- Machine.PopStacks: popping the only frame is reported at once as a null-pointer fault, whereas Java leaves null current stacks and fails at their next use.
- Registry.TokenSpec: an instruction object is carried as `InstrRef(name)`, the name it is registered under. Java finds the name by object identity, taking the first key in the hash map's key order (lines 367-375), which is not modelled.
- Psh.Interpreter.PopFrame: with frames on at depth 1, Java reads the tops, pops the last frame, and then fails with a null pointer when it pushes the tops onto the missing stacks (lines 824-827), so the frames are already gone when the exception is raised. The model reports the null-pointer fault and keeps the state.
- Psh.Interpreter.PopStacks: Java pops the last frame, leaves null current stacks, and fails at the next use. The model reports the null-pointer fault at the pop and keeps the state.
- Psh.Interpreter.SetInstructions: the order of the generators appended for one `registered.<type>` follows the hash map's key order, which Java leaves unspecified. The contract states the generators as a multiset.
- Psh.Interpreter.RandomCode: the contract bounds the point count and shape of the program. It does not tie the program to a function of the draws. Java computes `inSize - 1` (lines 980-981) in 32-bit arithmetic, which wraps at the smallest `int`; the model's `size - 1` does not wrap.
- Aliasing: Java's `Program` objects are shared between exec and code, and stacks are updated in place. The model holds them as values.
- `Program.peek(n)` in `SetInstructions` is read as the `n`-th token of the list in list order; the `Program` class is not part of this model.
- Objects on exec other than integers, floats, names, programs and instruction objects: the model has only these atom kinds.
