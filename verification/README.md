# fastsim in Dafny

fastsim turns a hierarchical block diagram into three executable forms: an interpreted time-stepping
loop, one fused op graph, and generated C. This project models the transformations between these forms
and the stepping state machine, and proves what they promise. `dafny verify dfyconfig.toml` checks all
of it.

Numbers of the float back ends are `real`, those of the fixed-point back end are integers with the int32
wrap written out. Emitted C is the program it denotes: statement lists for the algebraic pass, in-place
methods for the kernels. What the original calls but does not define for itself - operators of a model,
event bodies, solver steps, an FMU - is a function given from outside; products are written with the
interpretation's own multiplication, and exactness is a stated hypothesis where a theorem needs it.

## How it is organised

- **Static compile pipeline** (`src/compile`): `Ir` and `Hierarchy` say what a nested diagram means;
  `Wiring`, `ScopeTree`, `Tracer`, `Flatten` flatten it; `SsaGraph` is the hash-consed graph, `Splicer`
  the memoised translation, `FlatLayout`, `SpliceModel`, `SpliceSpec`, `Splice` the fusion, `Compile` the
  pipeline and its meaning theorem. `OpMeaning`, `WireMeaning`, `SpliceMeaning`, `DiagramMeaning` write the
  equations out in terms of ops, connections and writes alone.
- **C generator, system stage** (`src/codegen/system.rs`): `ForwardFlatten`, `LeafWires`,
  `FlattenersAgree` (the second flattener, and its agreement with the first), `TopoOrder`, `SystemPlan`,
  `AlgebraicPass`, `NetworkSolution` (scheduling and the ordered pass), `Polynomial`, `Jvp`, `JvpPass`,
  `JvpDerivs` (forward differentiation), `StructLayout`, `Calibration` (addresses). `NetworkMeaning` states
  what the pass reads, and the network it solves, from the blocks and wires.
- **Emitted kernels** (`src/codegen/solver.rs`, `src/codegen/mod.rs`): `StepModel`, `LuSolve`,
  `ImplicitStage`, `AffineStage` (the stage solve of implicit tableaus), `StepCount`, `FixedStep`,
  `AdaptiveLoop`, `FixedPoint`, `Lut`. `StageMeaning`, `NewtonMeaning`, `DriverMeaning`, `ErrorControl`
  say in plain arithmetic what slopes, passes, steps and turns come to.
- **Simulation** (`src/simulation.rs`): `SimState`, `SimStep`, `Bracketing` define one step;
  `SimTransactions`, `IdleEngines` what a step keeps; `StepMeaning`, `EventResolution`, `EventSearch`,
  `TimestepMeaning`, `RunMeaning` what it does, said outright; `Chunking`, `SimRun`, `RunEnds` whole runs;
  `Simulation` is the class with the original's fields and methods, each proved against those
  definitions.
- **FMU blocks** (`src/blocks/fmu.rs`): `FmuPorts`, `FmuTransfer`, `FmuRoundTrip`, `FmuStepping`,
  `FmuTaylor`, `TaylorExact`.

Both flatteners are modelled for diagrams whose leaves have at most one input and one output port
(of any width), with element lists of equal length on both sides of a connection and at most one driver
per input element.

## Findings

The model follows the code. Where the code does not do what its comments promise or its structure suggests,
an input shows it, and the exact condition under which the expectation holds is proved.

- **A rejected step is taken back as a whole**: not for the engines of inactive blocks. An implicit stage
  predicts into every dynamic engine (`src/simulation.rs:1553-1561`), while the revert skips inactive blocks
  (`src/simulation.rs:1376-1386`).
  `IdleEngines.RejectionCanMoveAnIdleEngine` is such a step; `IdleEngines.RejectionRestoresStates` says
  exactly which engines are restored, `IdleEngines.EventRejectionRestoresStates` says it from the blocks
  alone for a step an event sends back, and `IdleEngines.QuietRejectionRestoresAll` when all are.
- **An adaptive run lands exactly on the end** (`src/simulation.rs:2163-2165`): not if its first step, which
  is never cut, passes the end (`RunEnds.FirstStepCanPassTheEnd`), and not if less than the least step is
  left (`RunEnds.ShortRemainderPassesTheEnd`). `SimRun.AdaptiveRunLands` is the exact condition. The emitted
  adaptive loop differs: it cuts every step and never passes its end (`AdaptiveLoop.LoopLands`).
- **A fixed-step run over `n` whole steps takes exactly `n` steps** (`src/simulation.rs:2165-2167`): exactly
  if `n` is below 10^12, where the rounding allowance reaches the last step
  (`SimRun.FixedRunTakesWholeSteps`).
- **The fixed-point stage update never lies above the exact one** (`src/codegen/solver.rs:319-334`, which shifts
  down): exactly if `dt >= 0`, or the format has no fractional bits (`FixedPoint.NeverAboveIsForwards`). The
  formats of the source have 1 to 30; with those every negative step overshoots from every state
  (`FixedPoint.NegativeStepOvershoots`), by a bounded amount (`FixedPoint.NegativeStageBound`).
- **Rounding in Q format gives the whole number it should** (`src/codegen/mod.rs:928-981`): floor and truncation
  always, ceiling and rounding exactly if that number is an int32 (`FixedPoint.RoundingIsRight`); next to the
  top they give the lowest int32 (`FixedPoint.RoundingUpWraps`).

## Model

| member | source | states |
|---|---|---|
| `Compile.CompilationPreservesMeaning` | src/compile/splice.rs:159-281 | If flattening and splicing succeed, then at every point of the nested diagram, whichever flat vectors hold that point, the fused node of every state evaluates to the derivative that the diagram's own equations of the ops behind it give, with interfaces followed and undriven inputs read as 0. |
| `Compile.Compile` | src/compile/mod.rs:94-108 | Success comes with a faithful flattening and a faithful splice of it; a failure is an opaque leaf, a trace that revisits a key, the schedule's verdict, or a fault that splicing explains; an opaque leaf is always reported as such, and without one a revisiting trace as an algebraic loop. |
| `Compile.TreeSolutionIsFlatSolution` | src/compile/flatten.rs:166-214 | Values that satisfy the nested equations of the translated ops satisfy their flat equations. |
| `Compile.EveryPointIsSolved` | src/compile/splice.rs:159-281 | At every point of the nested diagram the equations of the translated ops have a solution, so the meaning theorem is about every point. |
| `Compile.TreeSolutionIsUnique` | src/compile/splice.rs:159-281 | Two solutions of the nested equations at a point give every translated op the same value. |
| `Compile.WholeSolutionIsConeSolution` | src/compile/splice.rs:159-281 | What solves the equations of all leaves solves those of the translated ops. |
| `DiagramMeaning.CompiledDiagramMeans` | src/compile/splice.rs:159-281 | The meaning theorem with the diagram's equations written out: an input carries what the first connection to address it brings, paired element by element, an output the value of its first write, every op what it makes of its operands; the fused node of a state then has the value of the op that the last derivative write for it names, and there is one. |
| `DiagramMeaning.RelaysMeans` | src/compile/flatten.rs:61-125 | The relay equations are exactly these: followed from the root down, every input of a child and every output of a subsystem carries the value of the source paired with the first place, target and connection that address it, and 0 without one. |
| `DiagramMeaning.OpaqueIff` | src/compile/mod.rs:460-485 | A block is opaque exactly if it is no sink and a call stands among its algebraic or its dynamic ops. |
| `OpMeaning.ComputesIff` | src/ssa/op.rs:128-151 | An op computes what its operator makes of the values of its operands, in their order; comparisons are 1 or 0, equality up to 1e-15. |
| `OpMeaning.LastDerivIs` | src/compile/splice.rs:347-384 | Of several derivatives written for a state the last counts, and without one there is none. |
| `OpMeaning.FirstOutputIs` | src/compile/splice.rs:159-171 | Of several writes to an output element the first counts, and without one there is none. |
| `Hierarchy.RelaysHaveASolution` | src/compile/flatten.rs:61-125 | Whatever the leaves put out, interfaces can relay it, also where interfaces are connected in a loop. |
| `Compile.EveryPointIsHeld` | src/compile/splice.rs:284-343 | Every point of the nested diagram (all states, memories, parameters, time) is held by some flat vectors, so the meaning theorem speaks of all points. |
| `Compile.ValidateFlat` | src/compile/mod.rs:460-485 | A flat block list is accepted exactly if no block other than a sink has a call in its algebraic or dynamic region. |
| `Tracer.Flattener.Resolve` | src/compile/flatten.rs:61-99 | Tracing a key ends on every connection graph (unvisited keys decrease) and returns the leaf or root input where the chain of first drivers stops; a cycle is raised exactly if the chain revisits a key, and the visiting set is left as it was found. |
| `Tracer.Flattener.Trace` | src/compile/flatten.rs:61-125 | A whole trace: the endpoint of the chain of first drivers, or none; the cycle flag is raised exactly if the chain never stops. |
| `Tracer.RevisitNeverStops` | src/compile/flatten.rs:70-75 | A chain that comes back to a key it has visited never stops, so reporting a cycle is right. |
| `ScopeTree.ScopeBuilder.BuildScopes` | src/compile/flatten.rs:129-164 | The scope tables list every scope and every leaf of the nested diagram exactly once, scopes and leaves each in depth-first order, with the right parents. |
| `Flatten.FlattenScopes` | src/compile/flatten.rs:166-214 | The flat leaves are the leaves of the nested diagram, each once, in depth-first order; the wire into every leaf input element leads to the source its trace finds, and there is none if the trace finds none; the cycle flag is raised exactly if some trace revisits a key. |
| `Hierarchy.WalkKeepsValue` | src/compile/flatten.rs:61-125 | Following the chain of drivers never changes the value that is read. |
| `Wiring.FindDriver` | src/compile/flatten.rs:102-125 | The first matching driver of an element, in connection order, or none if no connection drives it. |
| `Wiring.BuildInputIndex` | src/compile/splice.rs:119-136 | The index maps each driven input element to its first driver, and holds nothing else. |
| `WireMeaning.FirstDriverIs` | src/compile/flatten.rs:102-125 | What drives an element is the first connection, in it the first target, in it the first place that addresses the element, with the source element at the same place of its list and element 0 where there is none; nothing drives it exactly if no place addresses it. |
| `SsaGraph.Graph.Insert` | src/ssa/graph.rs:226-234 | Appending a node keeps every earlier meaning; an equal node is shared, and the returned id denotes the node's tree. |
| `SsaGraph.SharingIsMaximal` | src/ssa/graph.rs:226-234 | In a hash-consed graph different nodes denote different trees: sharing is complete. |
| `SsaGraph.InterpretIsEval` | src/ssa/graph.rs:190-234 | Evaluating the node list front to back gives every node the value of its tree. |
| `SsaGraph.Graph.InsertLut` | src/blocks/constructors/table.rs:65-89 | Expanding a table adds exactly the select chain of its segments, with the clamp selects on top. |
| `SsaGraph.LutTreeValue` | src/blocks/constructors/table.rs:65-89 | The expanded select chain evaluates to the table lookup, for every argument, clamped or not. |
| `Splicer.Splicer.Translate` | src/compile/splice.rs:205-281 | The memoised search: the in-progress set is the recursion stack and apart from the memo, every memoised node denotes its op's tree, memo and graph only grow; an error is one that an op reachable from here really has. |
| `Splicer.Splicer.ResolveInput` | src/compile/splice.rs:173-187 | An input element resolves to the external slot, to the producing output's node, or to the constant 0; it fails only for a missing output or a fault behind its driver. |
| `Splicer.Splicer.ResolveOutput` | src/compile/splice.rs:159-171 | An output resolves to the first op written to it; without one the result is an error. |
| `SpliceModel.TranslatedConeIsSound` | src/compile/splice.rs:205-281 | Nothing on which compilation fails - a dependency cycle, a call, a missing output - is reachable from a translated op. |
| `SpliceModel.TranslatedIsUnique` | src/compile/splice.rs:205-281 | Every solution of the translated equations gives each op the value of its memoised tree. |
| `FlatLayout.LayOut` | src/compile/splice.rs:289-343 | State, memory and parameter vectors are the blocks' values laid end to end with the offsets saying where each starts; it fails exactly for a parameter that is not scalar, or else when there is no state. |
| `FlatLayout.EveryWorldPacks` | src/compile/splice.rs:289-343 | No two states, memory cells, external inputs or the time share a flat index: any assignment of values is held by some flat vectors. |
| `FlatLayout.FlatVectorsPackTheirWorld` | src/compile/splice.rs:289-343 | Conversely every choice of flat vectors is the assignment it holds. |
| `Splice.Splice` | src/compile/splice.rs:284-495 | Success gives one node per state for its last derivative write, one event per block event in block order, the deduplicated sink taps and the interface outputs; failure is explained by a non-scalar parameter, no state at all, a state without derivative, an effect writing an output or derivative, or a root that cannot be translated. |
| `Splice.SplicedModelHasNoFault` | src/compile/splice.rs:159-495 | The converse: a model that was spliced has none of these faults, so splicing fails exactly when one is there. |
| `Splice.DerivativesAreTheBlockEquations` | src/compile/splice.rs:373-384 | Each derivative node evaluates, in every solution of the flat equations, to the value of the op last written to that state. |
| `Splice.DerivativeConesAreSound` | src/compile/splice.rs:205-281 | Nothing behind a derivative is opaque, cyclic or missing. |
| `Splice.EventsAreTheBlockEvents` | src/compile/splice.rs:386-442 | Event k of block b has a guard exactly if it is no schedule and its guard region has ops; the guard node then has the value of the last op of that region. Effect node j has the value of the op that write j names, and goes to the cell that holds the named state or memory element. |
| `Splice.TapsRecordTheSinks` | src/compile/splice.rs:444-458 | Whatever a sink reads is recorded: some tap has the value of each of its input elements. |
| `Splice.OutputsAreTheirSources` | src/compile/splice.rs:460-480 | Each interface output node has the value of its source. |
| `SpliceMeaning.SolutionMeans` | src/compile/splice.rs:173-281 | Whatever satisfies the spliced model's equations satisfies the blocks' own: an input op reads the external input or the output that the first connection to address it brings, or 0; every other op is what its operands make it. |
| `SpliceMeaning.DerivativeMeans` | src/compile/splice.rs:347-384 | The derivative node of a state has the value of the op in the last derivative write of its block for it. |
| `SpliceMeaning.OutputMeans` | src/compile/splice.rs:460-480 | An interface output node has the value of the first write to the leaf output it is connected to, of the external input it passes on, or 0. |
| `SpliceMeaning.TapMeans` | src/compile/splice.rs:444-458 | Every input element of a sink, counted over all its ports, has a tap with the value that reaches it. |
| `SpliceMeaning.DefaultsAreTheBlocks` | src/compile/splice.rs:289-343 | States, parameters and memory start with the blocks' own defaults, each at its place. |
| `ForwardFlatten.ForwardFlattener.FlattenScope` | src/codegen/system.rs:342-463 | Forward splicing of a scope: on success the emitted leaves are exactly those below the scope, and the wires exactly those inside it; the source and destination maps describe its interface. |
| `FlattenersAgree.FlattenForward` | src/codegen/system.rs:342-463 | When the forward splicer succeeds on a module, its leaf list is the module's leaves, and it wires a leaf output to a leaf input exactly if the backward trace of that input stops there. |
| `FlattenersAgree.FlattenersAgree` | src/compile/flatten.rs:59-214 | The two flatteners agree up to the numbering of leaves, at any nesting depth: the same leaf blocks at the same places and the same leaf-to-leaf element wires; and then no trace cycles. |
| `ForwardFlatten.VisitedInOrder` | src/codegen/system.rs:361-380 | The children of a scope are visited in the order of its topological list, and then all of them in their own. |
| `LeafWires.WiresAreTraces` | src/compile/flatten.rs:59-125 | A leaf output is wired to a leaf input through the scopes between them exactly if the backward trace from that input stops there. |
| `TopoOrder.Order` | src/codegen/system.rs:162-183 | The order is always a permutation; if any order puts every feedthrough source before its consumer, this one does, and it is the lexicographically least such; it is the identity when the given order is already valid. |
| `SystemPlan.BuildPlan` | src/codegen/system.rs:619-762 | The plan's order, signal, state and memory offsets, input sources, external inputs and the signals of the interface outputs are right for the flat blocks and wires; it fails exactly for an opaque block, or else for a wire or an interface output out of a block without outputs. |
| `SystemPlan.SlotsAreApart` | src/codegen/system.rs:682-695 | Memory slots share no element and end within the memory. |
| `SystemPlan.LayOutParams` | src/codegen/system.rs:2345-2352 | Each block's parameters follow those of the blocks before it. |
| `NetworkMeaning.BlocksFollow` | src/codegen/system.rs:640-695 | Each block's signals, states, parameters and memory slots follow those of the block before it, as many as it has; the states of a sink are not laid out. |
| `NetworkMeaning.OpaqueIff` | src/codegen/system.rs:614-620 | A block is refused exactly if a call stands among its algebraic or its dynamic ops. |
| `FlatWires.ElementHasOnePort` | src/codegen/system.rs:1524-1540 | The flat input elements of a block are those of its ports, port after port: each belongs to exactly one. |
| `NetworkMeaning.LeafReads` | src/codegen/system.rs:1524-1555 | An input op reads the external input wired to its flat element, otherwise the signal of the output element wired to it, otherwise 0; states, parameters and memory are read at the block's own start plus the index. |
| `NetworkMeaning.EmittedLeafReads` | src/codegen/system.rs:1524-1555 | So does the statement emitted for it. |
| `NetworkMeaning.TangentLeafReads` | src/codegen/system.rs:1996-2018 | The tangent of a read is the seed or the signal tangent of what is read, and 0 for time and memory. |
| `NetworkMeaning.LastWireIs` | src/codegen/system.rs:708-723 | Of several wires to an input element the last counts, and without one there is none. |
| `NetworkMeaning.PassSolvesTheNetwork` | src/codegen/system.rs:2372-2404 | The signals the ordered pass leaves, and no others, solve the equations of the network written in terms of the blocks and wires alone. |
| `NetworkMeaning.DriverSolvesTheNetwork` | src/codegen/system.rs:2372-2404 | Running the emitted driver leaves that solution, whatever the signals held before. |
| `NetworkSolution.PassIsTheUniqueSolution` | src/codegen/system.rs:2372-2404 | If the feedthrough graph is acyclic and algebraic regions write all outputs, one ordered pass leaves the unique simultaneous solution of all block equations, whatever the signals held before. |
| `NetworkSolution.PassSolves` | src/codegen/system.rs:2372-2404 | After the pass every block's outputs satisfy its own equations on the final signals. |
| `AlgebraicPass.LowerRegion` | src/codegen/system.rs:1919-1950 | Lowering emits one statement per op with its temporary renumbered; it fails exactly for an input port that does not exist or a memory without layout. |
| `AlgebraicPass.LoweredRuns` | src/codegen/system.rs:1919-1950 | Executing the lowered statements leaves in the temporaries the values of the region's ops, whatever else the frame holds. |
| `AlgebraicPass.EmissionsAgree` | src/codegen/system.rs:2372-2404 | The fused body and the per-block functions compute the same signals, those of the block-by-block pass. |
| `AlgebraicPass.EmitOutputs` | src/codegen/system.rs:2372-2404 | The emitter produces exactly that driver, in either form; it fails exactly if some participating block has an op that cannot be lowered. |
| `JvpPass.ForwardDifferentiationIsExact` | src/codegen/system.rs:2125-2207 | Along every seed and at every distance h, each state derivative equals its value plus h times the emitted tangent plus h*h times a polynomial in h, through wiring and d_sig. |
| `JvpPass.RunTangentPass` | src/codegen/system.rs:2295-2308 | The tangent pass over the algebraic regions fills d_sig as specified. |
| `JvpDerivs.RunJvp` | src/codegen/system.rs:2275-2324 | The whole of model_jvp: d_sig, and for every state in d_dxdt the tangent of the last derivative written for it; other entries keep what they held. |
| `JvpDerivs.RunDerivPass` | src/codegen/system.rs:2309-2323 | The loop over the dynamic regions writes each state's entry at its own index and no other. |
| `JvpDerivs.StoredTangentsAreExact` | src/codegen/system.rs:2275-2324 | End to end: the stored entry is the exact first-order coefficient of that state's derivative along the seeds. |
| `Jvp.OpPolyTangent` | src/codegen/system.rs:2024-2068 | The emitted tangent of one op is the first-order coefficient of its expansion, for every ring op. |
| `Polynomial.PolyProductTangent` | src/codegen/system.rs:2153-2172 | The all-but-one product rule: the first-order coefficient of a product is the sum, over the factors, of its tangent times all others. |
| `Polynomial.Expansion` | src/codegen/system.rs:2125-2207 | A polynomial is its value, its slope and a remainder of second order. |
| `LuSolve.Solve` | src/codegen/solver.rs:199-227 | Whenever the pivoted elimination returns 0, what is left in b is the one solution of the original system, for every n, through row swaps, in-place elimination and back substitution; what it returns depends on the system alone. |
| `LuSolve.SolutionIsExact` | src/codegen/solver.rs:199-227 | The elimination returns the one and only solution; it returns none exactly when some equivalent, partly reduced system has a column without a pivot. |
| `LuSolve.RowOpKeepsSolutions` | src/codegen/solver.rs:213-218 | Subtracting a multiple of one row from another keeps the set of solutions. |
| `LuSolve.SwapKeepsSolutions` | src/codegen/solver.rs:209-212 | So does swapping two rows. |
| `FixedStep.StepsEqualRun` | src/codegen/solver.rs:356-429 | From a fresh instance, N >= 1 single steps leave the same time, state, memory, counters and signals as one run to t0 + N dt, whose loop turns exactly N times, for explicit and implicit tableaus. |
| `FixedStep.DriveBoth` | src/codegen/solver.rs:356-429 | The same on two instances driven by the emitted routines. |
| `FixedStep.KernelIgnoresSignals` | src/codegen/solver.rs:251-349 | The stage kernel, explicit or with a Newton iteration in every stage, overwrites the signals before it reads them. |
| `FixedStep.Instance.StageLoop` | src/codegen/solver.rs:251-349 | The stage loop, explicit or implicit, leaves the state, time and slopes that the tableau defines. |
| `FixedStep.StageHolds` | src/codegen/solver.rs:238-308 | An implicit stage whose iteration ended within the tolerance has a slope that is the derivative, at the time and in the state the stage leaves, to that tolerance, and exactly without a diagonal coefficient. |
| `StageMeaning.ExplicitSlopesAreTaken` | src/codegen/solver.rs:336-349 | For every explicit tableau slope s is the derivative at t0 + c[s] dt, in the states x0 + dt (a[s-1][0] k[0] + ... + a[s-1][s-1] k[s-1]), x0 for the first, and with the signals refreshed there. |
| `StageMeaning.ImplicitSlopeIsTaken` | src/codegen/solver.rs:251-308 | For every implicit tableau a slope whose iteration ended within the tolerance is the derivative at t0 + c[s] dt in the states moved along the slopes up to its own, to a thousandth of the absolute tolerance or 1e-14, exactly without a diagonal coefficient. |
| `StageMeaning.KernelEndsTheStep` | src/codegen/solver.rs:251-349 | Any step ends at t0 + dt in the states moved along its slopes by the last row of the tableau. |
| `StageMeaning.ExplicitKernelSignals` | src/codegen/solver.rs:336-349 | After an explicit step the signals are those of its last stage. |
| `NewtonMeaning.JacobianIsDifferences` | src/codegen/solver.rs:186-197 | Column j of the Jacobian is the difference of the slopes at the states and at the states with state j moved by 1e-7 max(/x[j]/, 1), over that distance. |
| `NewtonMeaning.PassIsNewton` | src/codegen/solver.rs:274-291 | A pass ends exactly if every element of the slope is within the tolerance of the derivative at base + h k; otherwise it adds the one solution of (I - h J) d = f - k, and it leaves the slope alone if it ends. |
| `NewtonMeaning.SlopeIsIterated` | src/codegen/solver.rs:266-291 | The slope of a stage is first taken where the stage starts and then corrected pass by pass, 25 times unless a pass ends it. |
| `FixedStep.Instance.Differentiate` | src/codegen/solver.rs:186-197 | The Jacobian by forward differences: every state is nudged and put back. |
| `FixedStep.Instance.NewtonPass` | src/codegen/solver.rs:274-291 | One pass: residual, test, Jacobian, dense solve, update. |
| `FixedStep.Instance.Iterate` | src/codegen/solver.rs:274-291 | At most 25 passes, left early within the tolerance or at a singular matrix. |
| `ImplicitStage.PassIsTheNewtonStep` | src/codegen/solver.rs:274-291 | A pass that goes on has moved the slope by the one and only vector that I - h J takes to the negative residual. |
| `ImplicitStage.WithinIsSolved` | src/codegen/solver.rs:238-308 | An iteration that ends within its tolerance has solved the stage's equation to that tolerance. |
| `AffineStage.JacobianIsExact` | src/codegen/solver.rs:186-197 | For a model affine in its states the forward differences are its matrix. |
| `AffineStage.AffineStepIsExact` | src/codegen/solver.rs:238-308 | For such a model one Newton step makes the slope exactly the derivative at its own point. |
| `AffineStage.AffineStageIsSolved` | src/codegen/solver.rs:238-308 | So its stages are solved to the tolerance whatever the bound on the passes, unless the matrix is found singular. |
| `FixedStep.Instance.Step` | src/codegen/solver.rs:356-386 | One public step: initial events once, stages, events, output refresh. |
| `FixedStep.Instance.Run` | src/codegen/solver.rs:388-429 | The fixed-step run is that many passes of stages and events, and ends; the number of turns is the one its loop condition defines. |
| `DriverMeaning.StepIs` | src/codegen/solver.rs:356-386 | A public step is the initial events if they are still due, the stages, the events at the new time on fresh signals if one of them reads an input, and the outputs. |
| `DriverMeaning.RunIs` | src/codegen/solver.rs:388-429 | A run is the initial events, turns of stages and events, and one computation of the outputs. |
| `AdaptiveLoop.TurnIsAllOrNothing` | src/codegen/solver.rs:504-528 | A turn of the emitted adaptive loop accepts its trial whole, never passing the end and reaching it exactly when the step was cut to it, or puts state and time back and shrinks the next step by a tenth at least. |
| `AdaptiveLoop.LoopIsItsAcceptedSteps` | src/codegen/solver.rs:504-529 | However many trials are rejected, the loop has done the stage kernel and events over its accepted steps and nothing else; their sum is the time passed, and the end is never passed. |
| `AdaptiveLoop.RetryIsAFirstAttempt` | src/codegen/solver.rs:511-528 | After a rejected trial the kernel does exactly what it would have done before it. |
| `AdaptiveLoop.StreaksAreFinite` | src/codegen/solver.rs:513-527 | A streak of n rejected trials needs a first step of more than (n + 8) / 9 times the least step, so every streak is finite. |
| `AdaptiveLoop.LoopLands` | src/codegen/solver.rs:505-505 | A loop that ends stops at its end or within its allowance before it. |
| `AdaptiveLoop.TrialStep` | src/codegen/solver.rs:462-487 | A trial is the stage kernel; it returns the largest scaled error estimate, floored. |
| `AdaptiveLoop.Run` | src/codegen/solver.rs:493-536 | The emitted adaptive run is the initial events, those turns, and an output refresh; the step size is carried. |
| `DriverMeaning.TurnIs` | src/codegen/solver.rs:504-528 | A turn tries the step, cut to the end; an accepted trial is followed by the events and, unless it was cut, by a new step size; a rejected one puts states and clock back and takes the new size. |
| `DriverMeaning.TrialErrorIsNorm` | src/codegen/solver.rs:462-487 | The error of a trial is the largest over the states of the estimated error over its tolerance, and at least 1e-16. |
| `ErrorControl.AcceptedIff` | src/codegen/solver.rs:504-520 | A trial above the least step is accepted exactly if every state has /dt e/ <= atol + rtol /x/; one at the least step always is. |
| `ErrorControl.NextStep` | src/codegen/solver.rs:479-487 | The next step is nine tenths of this one over the root of the error, between a tenth of it and ten times it. |
| `ErrorControl.GoesWhileMoreIsLeft` | src/codegen/solver.rs:505-505 | The loop goes on exactly while more is left than 1e-16 of the end and 1e-16. |
| `FixedPoint.DotBoundInTicks` | src/codegen/mod.rs:1052-1058 | Without wrap an n-term dot product lies within n ticks below the exact value and never above it. |
| `FixedPoint.StageBound` | src/codegen/solver.rs:319-334 | With dt >= 0 and no wrap the Q stage update lies below the exact one by at most dt n / 2^frac + 1 ticks, and never above it. |
| `FixedPoint.NegativeStageBound` | src/codegen/solver.rs:319-334 | With dt < 0 and no wrap it lies above by at most -dt n / 2^frac ticks, and below by less than one. |
| `FixedPoint.NegativeStepOvershoots` | src/codegen/solver.rs:319-334 | For every negative step, every number of fractional bits from 1 on and every state there is an update above the exact one: a single term of a tick times a tick. |
| `FixedPoint.NeverAboveIsForwards` | src/codegen/solver.rs:319-334 | Updates of int32 values without wrap never lie above the exact ones if and only if dt >= 0, or there are no fractional bits and the update is exact. |
| `FixedPoint.ProductBound` | src/codegen/mod.rs:879-890 | Without wrap a product is less than one tick below the exact one. |
| `FixedPoint.QuotientBound` | src/codegen/mod.rs:879-900 | A quotient errs by less than one tick, towards zero. |
| `FixedPoint.SumsAndDifferences` | src/codegen/mod.rs:875-884 | Sums and differences of int32 are exact where they fit and undo each other where they wrap. |
| `FixedPoint.RemainderBound` | src/codegen/mod.rs:886-888 | A remainder is what a multiple of the divisor leaves, smaller than the divisor and on the dividend's side. |
| `FixedPoint.FmaBound` | src/codegen/mod.rs:1017-1022 | Without wrap a fused product and sum is less than one tick below the exact one. |
| `FixedPoint.SignsAndMagnitudes` | src/codegen/mod.rs:939-941 | A number and its negative cancel, a magnitude is not negative, and a number is its magnitude times its sign. |
| `FixedPoint.RoundingIsRight` | src/codegen/mod.rs:928-981 | For every int32 with 1 to 30 fractional bits, floor, ceiling, truncation and rounding (half away from zero) by masks give the whole number they should if and only if it is an int32: always for floor and truncation, up to 2^31 - 2^frac for ceiling, below 2^31 - 2^(frac - 1) for rounding. |
| `FixedPoint.RoundingUpWraps` | src/codegen/mod.rs:928-981 | Ceiling and rounding of a number next to the top, the highest int32 among them, give the lowest int32. |
| `FixedPoint.ReductionFormsAgree` | src/codegen/mod.rs:718-748 | The counted reduction loop and the unrolled expression give the same result, wrap included. |
| `FixedPoint.ReduceBlock` | src/codegen/mod.rs:718-748 | The emitted loop computes the unrolled reduction. |
| `FixedPoint.ReductionMeans` | src/codegen/mod.rs:1024-1039 | A reduction is the wrapped sum, or a least or greatest operand; over no operands it is the neutral int32 of its kind. |
| `FixedPoint.DotBlock` | src/codegen/mod.rs:838-851 | The emitted loop computes the folded dot product. |
| `FixedPoint.StageElement` | src/codegen/solver.rs:319-334 | The emitted inner loop computes the Q stage update of one element. |
| `Lut.SegmentContains` | src/codegen/mod.rs:752-790 | The counted search finds the one segment that contains the argument. |
| `Lut.LookupMeans` | src/codegen/mod.rs:752-790 | A lookup lies on the line through the two values of its segment, the outer ones extended; a clamped one is the last value above the table and the first below. |
| `Lut.HitsBreakpoints` | src/codegen/mod.rs:752-790 | Every breakpoint is hit exactly. |
| `Lut.ClampedStaysInRange` | src/codegen/mod.rs:752-790 | A clamped lookup stays within the range of the table's values. |
| `Lut.TangentIsTheDifference` | src/codegen/mod.rs:793-834 | Within a segment the tangent is the exact difference quotient; strictly outside a clamped table it is 0. |
| `Lut.LutBlock` | src/codegen/mod.rs:752-790 | The emitted lookup block: search, interpolate, clamp. |
| `Lut.TangentBlock` | src/codegen/mod.rs:793-834 | The emitted tangent block. |
| `Simulation.Simulation.TakeTimestep` | src/simulation.rs:1516-1652 | One timestep in place on the simulation's fields: pending mutations, stages, events, then commit or revert. |
| `Simulation.Simulation.ApplyPendingOps` | src/simulation.rs:1444-1513 | The queued mutations take effect as one batch. |
| `Simulation.Simulation.HandleEvents` | src/simulation.rs:1661-1717 | Detected events are taken in order of their crossing, or the step is localised and sent back. |
| `Simulation.Simulation.LocaliseEvents` | src/simulation.rs:1737-1797 | Bracketed search for the crossing over the engines' interpolants. |
| `Simulation.Simulation.NextDt` | src/simulation.rs:1905-1917 | The next step: rescaled, cut to the next known event and the end, kept within the allowed sizes. |
| `Simulation.Simulation.Run` | src/simulation.rs:1920-1980 | The blocking run performs the loop's timesteps and counts them. |
| `Simulation.Simulation.RunUntil` | src/simulation.rs:2023-2063 | One chunk performs the same timesteps up to its target and carries the step size; if the run is not over it has reached the target. |
| `Simulation.Simulation.RunStreaming` | python/fastsim/simulation.py:274-341 | A streaming run that is over has done what the blocking run does; it is over once a target at or past its end was aimed at. |
| `TimestepMeaning.TimestepRuns` | src/simulation.rs:1516-1652 | Every timestep takes this course: pending changes; each active engine and event buffered; the stages in turn up to the first that rejects; at the end one evaluation, the events, resolved wherever found at the step floor; a stop that was asked for; and either failure with the ratio to retry at, or one sample, the new time and the last stage's outcome. |
| `TimestepMeaning.StageRuns` | src/simulation.rs:1548-1598 | A stage gives every engine its number and an implicit one its start value, evaluates the system or solves it, and steps the active engines; it succeeds if all agree, with the largest error and the smallest rescaling they report; a failed solve or step takes an adaptive step back. |
| `StepMeaning.SolvePasses` | src/simulation.rs:1347-1372 | The stage solve evaluates and solves pass by pass until no active engine's residual is above 0.1, and at most as often as allowed. |
| `StepMeaning.StageIsEntered` | src/simulation.rs:1553-1561 | The start value of an implicit stage is the buffered state plus dt times the slopes so far, weighted with the method's row. |
| `StepMeaning.RevertTakesBack` | src/simulation.rs:1376-1386 | Taking back puts every active engine to its newest buffered state and evaluates the system at the time the step began. |
| `StepMeaning.BufferBuffers` | src/simulation.rs:1396-1420 | Buffering puts the state of every active engine at the front of its history, a full one losing its oldest entry, and lets every active event see its guard. |
| `StepMeaning.TrackedSums` | src/utils/diagnostics.rs:77-96 | A stage's report: all active engines agree, the error is the largest, the rescaling the smallest they report. |
| `EventResolution.EventsActInTurn` | src/simulation.rs:1661-1717 | Events that are not sent back act, all and no others: those that active events, global and inside blocks, report at the end of the step, each once, in order of their crossings, on the state the one before has left, told the end of an adaptive step that has reached them all and otherwise their own crossing; then the system is evaluated once. |
| `EventResolution.DetectionIsComplete` | src/simulation.rs:1198-1231 | Detection finds exactly the reports of all active events, in order of their crossings. |
| `EventResolution.SentBackIff` | src/simulation.rs:1661-1717 | A step is sent back exactly if it is adaptive, not at the step floor, and some detected event is not close. |
| `EventSearch.RetryIsTheCrossing` | src/simulation.rs:1676-1692 | It is then to be retried up to the crossing the search found, and otherwise up to the estimate of the earliest event that is not close, with its engines taken back. |
| `EventSearch.LocaliseSearches` | src/simulation.rs:1737-1797 | If the search is switched on and every active engine can be interpolated, it makes at most 32 looks, the first at the estimate kept off both ends, and puts the engines back at the end of the step; otherwise it does nothing. |
| `EventSearch.ProbeLooks` | src/simulation.rs:1765-1776 | A look moves every active engine to that part of the step, evaluates the system at that time and looks for events there; it fails exactly if an engine cannot be moved. |
| `Bracketing.SearchIs` | src/simulation.rs:1760-1797 | A look that finds nothing is followed by one halfway to the end of the bracket, one that finds events by one at the secant estimate if that lies in the bracket and halfway if not; the search ends at the first look that finds only close events or leaves a bracket narrower than 1e-12, that cannot be made, or that is the last allowed. |
| `RunMeaning.PendingTakesEffect` | src/simulation.rs:1444-1513 | The queue as one batch: what is queued for removal goes, what is queued for addition follows what is left, in order, each block once and equipped; an existing graph is stale exactly if a block or connection came or went. |
| `RunMeaning.RunStarts` | src/simulation.rs:1920-1952 | A run starts, after a reset if asked for, with one evaluation, the actions of the events already detected, in order and each followed by an evaluation, and one sample. |
| `RunMeaning.NextStepIs` | src/simulation.rs:1905-1917 | The next step: the last one times the rescaling, or the nominal one if neither error nor rescaling was reported, cut to the soonest expected event and to the end, and then kept within the bounds. |
| `RunMeaning.EstimateIsSoonest` | src/simulation.rs:1158-1176 | The simulation looks ahead to the soonest time that an active event, global or inside a block, expects to fire after. |
| `RunMeaning.PassIs` | src/simulation.rs:1955-1980 | One pass of the run loop: a timestep, counted as successful or rejected, and for an adaptive run that next step. |
| `RunMeaning.RunGoesOnIff` | src/simulation.rs:2163-2171 | A run starts at 0 if it is reset, adapts its step if that is asked for and the method can, and goes on exactly while it is running and anything is left, with a fixed step more than 1e-12 of its duration. |
| `SimRun.ChunkedRunIsTheRun` | src/simulation.rs:1990-2063 | Cutting a run into chunks at any targets makes no difference: the same sequence of timesteps, the same end state. |
| `SimRun.AdaptiveRunIsLedgered` | src/simulation.rs:1920-1980 | Over any adaptive run there are as many new samples as accepted steps, at strictly increasing times, the last at the current time; rejected steps leave nothing. |
| `SimRun.ActionsOnlyInAcceptedSteps` | src/simulation.rs:1516-1717 | No event action ever runs in a step that is taken back. |
| `SimRun.RejectStreakTouchesNothing` | src/simulation.rs:1516-1652 | However many steps in a row are rejected, clock, records and the engine states of active blocks are where they were (nothing being queued). |
| `SimRun.AdaptiveRunLands` | src/simulation.rs:2163-2171 | An adaptive run that is not stopped ends at or past its end; it ends exactly there if and only if its only step was as long as the run, or, in a run of several steps, at least the least step was left before the last. The second condition shows only during the run; known beforehand is that a run of several steps passes its end by less than the least step. |
| `RunEnds.FirstStepCanPassTheEnd` | src/simulation.rs:2163-2165 | A run of one time unit with a first step of two ends at two: the first step is not cut. |
| `RunEnds.ShortRemainderPassesTheEnd` | src/simulation.rs:1905-1917 | A run whose remainder is below the least step ends past its end. |
| `SimRun.FixedRunTakesWholeSteps` | src/simulation.rs:2163-2171 | A fixed-step run over n whole steps takes exactly n steps if and only if n is below 10^12. |
| `SimTransactions.AdaptiveStepIsTransactional` | src/simulation.rs:1516-1652 | A failed adaptive step keeps clock, samples and actions and puts every integrated engine back; a successful one moves the clock by dt with one sample; at the step floor a step whose stages pass always succeeds. |
| `SimTransactions.FixedStepAlwaysAdvances` | src/simulation.rs:1516-1652 | A fixed step always advances by dt with one sample. |
| `SimTransactions.LocalisationKeepsItsBracket` | src/simulation.rs:1737-1797 | At most 32 probes, each strictly inside a bracket that shrinks strictly; a returned position was the last one probed, an event was detected there and all were within tolerance. |
| `SimTransactions.LocalisationRestoresEngines` | src/simulation.rs:1737-1797 | Localisation leaves every engine as it found it, on every way out. |
| `SimTransactions.DetectedInOrder` | src/simulation.rs:1661-1680 | Detected events are taken in order of their crossing, each exactly once. |
| `SimTransactions.PendingIsBatched` | src/simulation.rs:1444-1513 | After a batch a block is there exactly if it was queued for addition, or was there and was not queued for removal, whatever the order they were queued in; ids stay distinct. |
| `IdleEngines.RejectionRestoresStates` | src/simulation.rs:1376-1386 | A rejected step restores an engine's state if and only if its block is active or no stage begun predicted it elsewhere. |
| `IdleEngines.QuietRejectionRestoresAll` | src/simulation.rs:1376-1386 | Known before the step: with an explicit method, or if no inactive block is buffered with a method that predicts, a rejection restores every engine state. |
| `IdleEngines.EventRejectionRestoresStates` | src/simulation.rs:1376-1386 | For a step an event sends back, exactly which engines stay displaced, from the blocks alone. |
| `IdleEngines.RejectionCanMoveAnIdleEngine` | src/simulation.rs:1553-1561 | A rejected step that leaves the engine of an inactive block elsewhere. |
| `Bracketing.BracketShrinks` | src/simulation.rs:1737-1797 | The bracket search for any probe: probes lie inside their brackets and the brackets shrink. |
| `Chunking.ChunkingIsInvisible` | src/simulation.rs:2023-2063 | For any step function and loop conditions, successive chunks take together exactly the steps of the uncut loop. |
| `FmuRoundTrip.WriteThenRead` | src/blocks/fmu.rs:380-409 | Values written to an FMU that keeps what it is given and read back come out at the port they went in, narrowed to the variable's type and widened again, a missing value as 0; ports of a refused type keep what they had. |
| `FmuRoundTrip.WritingMeans` | src/blocks/fmu.rs:397-409 | After a transfer to the FMU each variable holds the values at its own ports, narrowed, in order. |
| `FmuRoundTrip.ReadingMeans` | src/blocks/fmu.rs:380-394 | After a transfer from the FMU each port has the element its variable holds for it, widened. |
| `FmuPorts.PortHasOneOwner` | src/blocks/fmu.rs:321-360 | Every port index belongs to exactly one variable, in declaration order. |
| `FmuPorts.NarrowingSettles` | src/blocks/fmu.rs:252-283 | Narrowing to a type and widening again changes a value once only. |
| `FmuPorts.TruncatesTowardsZero` | src/blocks/fmu.rs:252-283 | Truncation never exceeds its argument in magnitude, keeps its side of zero, and is less than one away. |
| `FmuPorts.NarrowingSaturates` | src/blocks/fmu.rs:252-283 | An integer type receives the truncated value where it fits, and otherwise the end of its range nearer to it. |
| `FmuPorts.IntegerTypes` | src/blocks/fmu.rs:252-283 | Each integer type holds all numbers of its bits, with or without sign. |
| `FmuTransfer.LocateAgrees` | src/blocks/fmu.rs:368-377 | Looking a variable up gives its first port and size, and a reference that is no port is not found. |
| `FmuTransfer.PortLayout.Collect` | src/blocks/fmu.rs:321-360 | Collecting groups the ports by type in order of first appearance, each variable once with its offset. |
| `FmuTransfer.PortLayout.Write` | src/blocks/fmu.rs:397-409 | Writing gathers each group's ports in order and hands them over; a refused group is skipped. |
| `FmuTransfer.PortLayout.Read` | src/blocks/fmu.rs:380-394 | Reading scatters each group's reply to its ports; a refused group leaves them. |
| `FmuStepping.TimeEvents.Insert` | src/blocks/fmu.rs:609-618 | Announced times stay sorted and apart; a time with one already within the tolerance is not entered twice, and nothing is lost. |
| `FmuStepping.CsBackend.DoSteps` | src/blocks/fmu.rs:1131-1167 | The co-simulation loop ends whatever the FMU answers. Each request is put to the instance in the state the one before has left, starts where the last one ended and asks for what is missing to the target; a reply that needs an event and does not terminate is followed by event handling if that mode is used; the backend is terminated exactly if it was before, a reply asked for it, or handling an event said so; it stops short only for a stated reason. |
| `FmuStepping.CsBackend.StepOnce` | src/blocks/fmu.rs:1138-1165 | One request from the current time over what remains, put to the instance as it is, and what its reply leads to. |
| `FmuTaylor.EveryPortIsCorrected` | src/blocks/fmu.rs:1048-1063 | For the variables the block builds from its declared outputs: past the communication point every output port gains exactly the Taylor terms of the output it belongs to, up to the order that output declares and the FMU delivers, and nothing if it is not floating point or offers no derivatives. |
| `FmuTaylor.TaylorVarsFitApart` | src/blocks/fmu.rs:1048-1063 | The outputs with derivatives, located among the ports, are apart and inside the output buffer, provided value references are unique. |
| `FmuTaylor.ExtendedIsTaylor` | src/blocks/fmu.rs:1203-1272 | The corrections of the orders up to n add to each element of such an output its Taylor terms of those orders. |
| `TaylorExact.PolynomialsAreInterpolatedExactly` | src/blocks/fmu.rs:1203-1272 | Corrected with all its derivatives, an output that is a polynomial of time has exactly its value at the later time. |
| `FmuTaylor.ExtendedElsewhere` | src/blocks/fmu.rs:1203-1272 | Ports without derivatives are left alone. |
| `FmuTaylor.Outputs.Interpolate` | src/blocks/fmu.rs:1203-1272 | The correction loop in place on the output buffer, taken only past the communication point; elements of outputs with derivatives move by their Taylor terms up to the declared and delivered order, all others stay. |
| `StructLayout.LayFields` | src/codegen/system.rs:948-1009 | Field offsets and the padded total of the C struct rules. |
| `StructLayout.FieldsAreApart` | src/codegen/system.rs:948-1009 | Fields are aligned and follow each other without overlap. |
| `StructLayout.OffsetsAreMinimal` | src/codegen/system.rs:948-1009 | No aligned placement in order puts any field earlier. |
| `StructLayout.TotalCovers` | src/codegen/system.rs:948-1009 | The total covers every field, wastes less than one alignment unit, and keeps arrays of the struct aligned. |
| `Calibration.DescribeModel` | src/codegen/system.rs:1018-1137 | Struct and description file from the blocks: the file lists every element of the model exactly once, at bytes of its own inside the field of its kind and below the padded total; states, parameters and inputs are writable, nothing else is. |
| `Calibration.EntriesNeverCollide` | src/codegen/system.rs:1052-1137 | All entries of the file, measurements and characteristics, occupy pairwise disjoint bytes. |
| `Calibration.ModelStructFields` | src/codegen/system.rs:948-1009 | The fields of the model struct: clock, the vectors that have elements, event fields, trailer. |
| `Calibration.StructFieldsAre` | src/codegen/system.rs:948-1009 | The struct has exactly these fields: the clock, each vector with elements, a counter, a cursor or a guard value with its flag for each event, a started flag if there are events, and a step size if the integrator is adaptive. |
| `Calibration.BuildLayout` | src/codegen/system.rs:1657-1737 | The variable list: states, signals, parameters, inputs, ids running through without a gap. |
| `Calibration.VariablesAre` | src/codegen/system.rs:1657-1737 | The variables in order: states, signals, parameters with running ids, inputs with ids of their own; a signal is local exactly if the model has an interface that does not show it. |
| `Calibration.BuildA2l` | src/codegen/system.rs:1018-1137 | The entries of the description file, in order. |
| `Calibration.EntryMeans` | src/codegen/system.rs:1018-1137 | An entry names its element's field and lies as many elements behind its start; states, parameters and inputs are writable, clock, signals and memory are not. |
| `Calibration.AllSlotsAreDistinct` | src/codegen/system.rs:1052-1137 | No element is listed twice. |

## Left out

- Compile.Compile: the schedule's acyclicity verdict is a parameter, because `Schedule` is not part of this model; an error it alone causes is reported as the source does.
- Compile.CompilationPreservesMeaning: where lookup tables are inlined, arithmetic has to be exact.
- Splice.Splice: labels of states, taps and parameters are not modelled, and later graph optimisation passes are not part of this model.
- Flatten.FlattenScopes: `flatten_subsystem`'s list of interface output sources is a given of `Splice`, its tracing is the same `Tracer.Flattener.Trace`.
- FlattenersAgree.FlattenForward: nothing is said about which modules the forward splicer rejects; wires are taken before sinks are dropped, and `drop_sink_blocks` is not modelled.
- SystemPlan.BuildPlan: names of blocks and inputs, and the count of external inputs, which is given, are left out.
- NetworkSolution.PassIsTheUniqueSolution: scheduling is by block, so a network that is acyclic only element by element is not covered.
- AlgebraicPass.LowerRegion: statements are abstract; text, literals and the vectorised forms of reductions are left out here (`FixedPoint.ReductionFormsAgree` compares the forms for integers).
- JvpPass.ForwardDifferentiationIsExact: for constants, leaf reads, addition, subtraction, multiplication, negation, fused multiply-add, sum, product and dot; tangents of division, transcendental functions, selections and extrema are not modelled.
- JvpDerivs.RunJvp: the capability check that omits the function for other models is not modelled.
- LuSolve.Solve: exact arithmetic; a matrix without a pivot above the tolerance is reported singular, though it need not be.
- FixedStep.StageHolds: an iteration that runs out of passes or meets a singular matrix keeps its last slope without notice, as in the source; when that happens is said only for models affine in their states (`AffineStage.AffineStageIsSolved`).
- FixedStep.Instance.HandleAll: event bodies are one function of the instance, refreshed first if some event reads an input.
- AdaptiveLoop.Run: does not claim that the loop ends, because the step may shrink without bound while every trial is accepted; the number of turns is given as a ghost argument.
- FixedPoint.StageElement: the 64-bit accumulator is unbounded, because its overflow is undefined behaviour in C; division by zero is excluded for the same reason.
- Lut.TangentIsTheDifference: at a breakpoint the tangent is that of the segment to its right, as the search defines it; a difference across a breakpoint is not claimed.
- Simulation.Simulation.Run: does not claim that an adaptive run ends, because nothing in the original enforces it; the number of steps is given as a ghost argument.
- Simulation.Simulation.TakeTimestep: callbacks of blocks other than integration do not touch engines; evaluation counts, solver iteration counts, non-convergence diagnostics and wall-clock tracing are left out.
- Simulation.Simulation.RunStreaming: targets are given; that they follow a wall-clock rate is left out.
- SimRun.RejectStreakTouchesNothing: speaks of active blocks; what happens to inactive ones is `IdleEngines.RejectionRestoresStates`.
- SimTransactions.PendingIsBatched: about blocks; `RunMeaning.PendingTakesEffect` says it of connections and events too. Removals before additions is the order the code chooses, so a replay of the queue one by one is not claimed.
- FmuTransfer.PortLayout.Write: single-precision rounding is a function given from outside; strings, binaries and clocks are not ports.
- FmuStepping.CsBackend.DoSteps: instantiation, mode changes and freeing of an FMU are foreign code.
- FmuTaylor.TaylorVarsFitApart: demands distinct value references, as FMI 3.0 does; the code does not check them.
- Calibration.DescribeModel: names, data types and the text of the description file are left out.
- Global events of a module, which the compiler refuses, and the compiled run itself (`src/compile/runtime`) are not part of this model.
- Inner engines of interpreted subsystems, cached index lists of blocks, and the history of step sizes of multistep methods are left out.
- Steady state, sensitivity, periodic steady state and state-space extraction of `src/simulation.rs` are left out.
- Templates, file writing, compiler discovery, licence banners and logging are input and output.
- The Python layer apart from `run_streaming`, and the XML side of FMUs, are not modelled.
- Rounding of floating-point numbers, infinities and NaN are left out: the float back ends are modelled over the reals.
