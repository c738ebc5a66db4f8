# Nulang: verified core

Nulang is a language of persistent, distributed actors with a self-hosted
bootstrap. This project models five parts of its implementation in Dafny and
proves what they are for, on every input and over every run.

1. **The suspension compiler.** A function that suspends is split into blocks at
   every suspension (`src/cir_lower.rs`), its live variables are computed by an
   in-place fixed point (`src/cir_analysis.rs`), and each suspension saves them
   to a frame from which the resumed block restores them. The two main results:
   splitting keeps the meaning of the MIR function, and the framed function,
   whose locals and unprotected memory are destroyed at every suspension, has
   exactly the events and result of the unframed one. A host is a function of
   the events so far; the fuel counts control transfers, and both sides agree at
   every amount of fuel, so non-terminating functions are covered.
   (`Cir`, `Liveness`, `Frames`, `FrameSoundness`, `FrameInsertion`, `Mir`,
   `Lowering`, `LoweringSim`, `Splitting`, `Suspension`, `SuspensionLimits`)
2. **Acknowledged replication.** The frontier table that decides what each peer
   still needs (`src/crdt_peer_sync.rs`), inside a network that loses, repeats
   and reorders batches and acknowledgements, whose peers crash and are forgotten
   at different times, and whose transports and receivers may acknowledge too
   much: what a trusted peer acknowledged it holds, silence means delivered, and
   late acknowledgements never do harm. (`Crdt`, `Frontiers`, `FrontierProtocol`, `FrontierInvariant`,
   `FrontierGuarantees`)
3. **Bootstrap back-patching.** The scripts that resolve the jumps, functions and
   constants of the marked hex stream (`bootstrap/fixup_hex.py`) and load it
   (`bootstrap/hex2nbc.py`). Linear scans with separate stacks produce what
   structural recursion over the program tree produces, and the loaded words run
   as the structured program. (`Bytecode`, `HexFixup`, `HexTree`, `HexScan`,
   `HexBranches`, `HexFunctions`, `HexRefinement`, `HexProgram`, `HexExecution`,
   `PoolText`, `HexLoader`)
4. **Actor front-end passes.** The static actor-protocol pass
   (`src/actor_protocol.rs`) only adds annotations and qualifiers, accepts its own
   output, and its resolutions are what happens at run time, in whole modules with
   variables, functions, actors, state machines and workflows; the `state_machine`
   desugaring (`src/ast.rs`) simulates the machine exactly when each step is safe.
   (`ActorSyntax`, `AnnotatorLaws`, `ActorModules`, `ActorSemantics`,
   `CallSoundness`, `ModuleSoundness`, `StateMachine`)
5. **Admission, authority and identity.** Upgrade admission is an order on valid
   manifests and their normal form is canonical (`src/behavior_manifest.rs`);
   authority tokens print and parse losslessly and delegation never creates
   authority (`src/authority.rs`, `src/authority_runtime.rs`); identity preimages
   are injective (`src/content_identity.rs`). (`Manifest`, `ManifestLaws`,
   `Admission`, `Authority`, `Delegation`, `ContentIdentity`)

`Options`, `Ordered`, `Sorting` and `Text` hold what several of these share.

## Where the code and its promises part

Where a lemma is named it gives an input, or the exact condition, or both. Two
points are read off the code and have no lemma: the destination of `Send` and the
repair of `()`.

- The use/def scan skips the reads of a statement that redefines a variable of
  the same block, so such a read is not live and is lost across a suspension
  (`SuspensionLimits.HiddenReadIsLost`; the scan is exact under the condition of
  `Liveness.ScanCoversExposedReads`).
- The arguments of a suspension are evaluated in CIR and ignored by the code
  generator (src/wasmfx_backend.rs:666-710). The model records them as seen by the
  host, as CIR says; a host behind the generated code never sees them.
- A receive fills payload locals in MIR that the lowered suspension does not
  deliver: a function that returns such a local differs from its lowered form,
  and no other does (`SuspensionLimits.PayloadLocalsUndelivered`). The lowered function
  reads its parameters from locals past those where the caller puts them, although
  its comment says the convention is the same
  (`SuspensionLimits.ArgumentsDelivered`).
- `Send` is documented to evaluate to zero; neither code generator writes its
  destination, and the model follows the code.
- A transport without packet tracking acknowledges batches on sending, and a
  receiver without a replica manager acknowledges batches it drops: the frontier
  then claims more than the peer holds. It tells the truth about a peer over all
  runs exactly when neither is the case
  (`FrontierGuarantees.TruthfulIffTrackedAndManaged`,
  `FrontierGuarantees.OptimisticAckLosesUpdate`,
  `FrontierGuarantees.DroppedBatchIsLost`), save between a crash of the peer and
  the moment the sender forgets it (`FrontierGuarantees.CrashWindow`).
- A jump whose target is the end of the stream keeps its placeholder unless an
  instruction follows (`HexProgram.ResolvesIffFollowed`), and a string constant
  with a comma does not survive the pool comment (`PoolText.PoolLineRoundTrip`).
  The two scripts also disagree on what a mis-emitted `()` stands for: the first
  repairs it to the digit ten, the second would repair it to zero.
- Two exit hooks for one state both run, two entry hooks do not
  (`StateMachine.SimulatesIffDistinct`); an exit hook that writes the state tag
  can trigger a second one (`StateMachine.WritingHookDiverges`); and an event
  parameter takes the place of a variable that a hook mentions
  (`StateMachine.ParameterCapturesHook`). `StateMachine.BodyIff` and
  `StateMachine.AlwaysAgreeIff` say exactly when none of this happens.
- A reassigned actor variable is checked against its first type
  (`CallSoundness.ReassignmentMisleads`), and so is a variable declared twice
  (`ModuleSoundness.RedeclarationMisleads`). A hook is checked against a variable
  of the module even where an event parameter has its name
  (`ModuleSoundness.HookParameterMisleads`).
- A migration from the last version number to itself passes validation
  (`Manifest.SaturationAdmitsExtraStep`; `Manifest.CountExactIff` is the exact
  condition), and admission compares migrations in the order listed and
  identities as they are spelled (`Admission.OrderIsVisible`,
  `Admission.SpellingIsVisible`; `Admission.SameNormalAdmittedIff` is the exact
  condition).
- An extension grant that spells a built-in one turns into it when its token is
  parsed (`Authority.LookalikeChangesMeaning`).
- A field of 2^32 bytes makes two artifact configurations of plain text share a
  preimage (`ContentIdentity.LengthBoundNeeded`).

## Model

| member | source | states |
|---|---|---|
| Liveness.BlockUseDef | src/cir_analysis.rs:129-171 | the loop over a block's statements and terminator computes the use and def sets of the specification scan |
| Liveness.ScanCoversExposedReads | src/cir_analysis.rs:129-171 | the scanned uses cover every read that an entry value can reach exactly when no redefinition in the block reads a variable that is otherwise unread |
| Liveness.TransferCoversLiveBefore | src/cir_analysis.rs:37-61 | without hidden reads the block transfer function over-approximates liveness before each statement |
| Liveness.LiveInIsSolution | src/cir_analysis.rs:37-61 | path liveness (a path to a use with no definition before it) solves the dataflow equations |
| Liveness.LiveInIsLeast | src/cir_analysis.rs:37-61 | it lies below every other solution |
| Liveness.Union | src/cir_analysis.rs:40-47 | the out-set loop unions the in-sets of the successors |
| Liveness.Sweep | src/cir_analysis.rs:37-61 | one in-place sweep only grows the sets, stays below path liveness, and reports whether anything changed |
| Liveness.LiveSets | src/cir_analysis.rs:37-61 | the iteration ends, within a bound on blocks times variables, at exactly path liveness |
| Liveness.RunAgree | src/cir_analysis.rs:37-61 | two stores that agree on the live variables run identically from there, for every host and fuel |
| Liveness.EnterAgree | src/cir_analysis.rs:199-210 | the same on entry to a block whose in-set they agree on |
| Frames.ComputeFrameLayout | src/cir.rs:211-220 | slots are 8 bytes, in order, after the header, inside the frame and pairwise disjoint |
| Frames.SaveFillsSlots | src/wasmfx_backend.rs:532-575 | after the save code every slot holds its variable |
| Frames.FrameRoundTrip | src/wasmfx_backend.rs:532-575 | whatever happens to locals and to memory outside the frame, resuming dispatches to the stored block, restores every saved variable and delivers the resume value |
| FrameInsertion.LiveLayout | src/cir_analysis.rs:63-90 | the layout of a sorted live list is the offset sequence that save and restore share |
| FrameInsertion.CollectFrames | src/cir_analysis.rs:63-97 | the first pass records one save and one restore per suspension and fills its live variables |
| FrameInsertion.ApplySaves | src/cir_analysis.rs:99-105 | the second pass appends each save to its own block and touches no other |
| FrameInsertion.ApplyRestores | src/cir_analysis.rs:106-125 | the third pass puts each restore prologue before the statements of its resume block |
| FrameInsertion.ComputeLiveVars | src/cir_analysis.rs:17-126 | the whole in-place transformation yields the framed form of the original blocks for their least live sets |
| FrameSoundness.SuspendSim | src/wasmfx_backend.rs:666-710 | a suspension with all locals destroyed is matched by one with locals kept |
| FrameSoundness.FramesPreserveMeaning | src/cir_analysis.rs:63-126 | for every host and whatever survives each suspension, the framed function has exactly the events and result of the original |
| Lowering.DenseIdsCover | src/cir_lower.rs:72-92 | with dense block ids every id below the block count names a block |
| Splitting.ScanSegment | src/cir_lower.rs:94-105 | translates statements up to the first suspending one |
| Splitting.Process | src/cir_lower.rs:93-147 | one worklist step finishes a block or splits it and queues the rest under a fresh id, keeping the invariant |
| Splitting.SortedIdsDense | src/cir_lower.rs:149-154 | the sorted blocks have dense ids, so the assertion never fires |
| Splitting.LowerBlocks | src/cir_lower.rs:69-175 | the worklist ends with one block per MIR block plus one per suspending statement, every fresh block resumed by exactly one suspension and reached by no jump |
| LoweringSim.RValueSim | src/cir_lower.rs:266-325 | translated values evaluate as MIR values and emit the same events |
| LoweringSim.StmtSim | src/cir_lower.rs:181-262 | a translated statement has the effect of the MIR statement on every variable that is read |
| LoweringSim.SuspendArgsSim | src/cir_lower.rs:389-432 | a suspension passes on the effect and argument values of the MIR operation |
| LoweringSim.CodeSim | src/cir_lower.rs:93-147 | code split at any number of suspensions runs step for step as the unsplit code |
| LoweringSim.LoweringSimulates | src/cir_lower.rs:69-175 | every MIR run under every oracle of replies is matched event for event with the same result, and up to the first unsupported value if it meets one |
| Suspension.LoweredIsSuspendable | src/cir_lower.rs:69-175 | lowered blocks meet what the frame transformation needs |
| Suspension.Compile | src/cir_lower.rs:69-175 | lowering followed by frame insertion yields blocks that are both lowered and framed |
| Suspension.CompilerPreservesMeaning | src/cir_analysis.rs:17-126 | end to end, the compiled function performs the events of the MIR function in order and returns its value, however suspensions destroy its locals |
| SuspensionLimits.HiddenReadIsLost | src/cir_analysis.rs:133-160 | a MIR function with a hidden read whose compiled form asks the same and returns a different value |
| SuspensionLimits.PayloadLocalsUndelivered | src/cir_lower.rs:389-432 | a function that suspends once and returns a local behaves when lowered as in MIR, for every host, exactly when the receive does not fill that local |
| SuspensionLimits.ArgumentsDelivered | src/cir_lower.rs:435-437 | the entry stores agree on parameters and captures exactly when every argument is the zero word |
| Crdt.MergeIsJoin | src/runtime/crdt_manager.rs:230-266 | merging two entries of one kind gives their least upper bound |
| Crdt.DeltaExact | src/runtime/crdt_manager.rs:272-297 | there is no delta exactly when the base holds everything; a delta brings any replica holding the base up to date and adds nothing the sender lacks |
| Crdt.LeqAntisymmetric | src/runtime/crdt.rs:197-224 | two entries below each other agree on every contribution |
| Frontiers.CollectOps | src/crdt_peer_sync.rs:81-122 | the loop over sorted entries yields the operations and represented state of the specification |
| Frontiers.EvictOldest | src/crdt_peer_sync.rs:132-138 | the eviction loop keeps what the specification keeps |
| Frontiers.PeerCrdtFrontiers.WithPendingLimit | src/crdt_peer_sync.rs:67-73 | a fresh table starts at batch one with a bound of at least one |
| Frontiers.PeerCrdtFrontiers.Generate | src/crdt_peer_sync.rs:81-141 | the new table and the emitted batch are those of the specification; generation never touches the acknowledged state |
| Frontiers.PeerCrdtFrontiers.Acknowledge | src/crdt_peer_sync.rs:148-170 | advances exactly for a pending batch newer than the last acknowledged one |
| Frontiers.PeerCrdtFrontiers.ForgetPeer | src/crdt_peer_sync.rs:174-176 | removes the peer and nothing else |
| Frontiers.OpsForExact | src/crdt_peer_sync.rs:94-122 | a batch holds exactly one operation per entry the peer is not known to hold, full or delta accordingly |
| Frontiers.OpsForAscending | src/crdt_peer_sync.rs:86-92 | operations come in increasing id order, so equal states give equal batches |
| Frontiers.UpToDateIffCovered | src/crdt_peer_sync.rs:124-126 | nothing is generated exactly when the acknowledged state covers the local one |
| Frontiers.EvictKeepsNewest | src/crdt_peer_sync.rs:132-138 | eviction drops only the oldest batches, down to the bound |
| FrontierProtocol.ApplyOpsReaches | src/runtime/crdt_manager.rs:697-712 | applying a batch to a replica that holds its base brings every represented entry there, whatever else the batch holds |
| FrontierProtocol.FreshBatch | src/crdt_peer_sync.rs:81-141 | a generated batch suffices to reach the state it represents and stays below the sender |
| FrontierInvariant.AckAdvances | src/crdt_peer_sync.rs:156-169 | an accepted acknowledgement loses no knowledge, and every older batch it discards is subsumed by the new frontier |
| FrontierInvariant.StepKeepsInv | src/crdt_peer_sync.rs:81-176 | every step (local and remote updates, sync, delivery, acknowledgement, crash, forgetting) keeps the protocol invariant, untracked and unmanaged peers included |
| FrontierInvariant.RunKeepsInv | src/crdt_peer_sync.rs:81-176 | so does every run |
| FrontierGuarantees.AcknowledgedIsHeld | src/crdt_peer_sync.rs:81-170 | over every run a trusted peer holds what it acknowledged, and pending batches of every peer are bounded and newer than the last acknowledgement |
| FrontierGuarantees.SilenceMeansDelivered | src/crdt_peer_sync.rs:124-126 | whenever nothing is generated for a trusted peer it holds the sender's whole state |
| FrontierGuarantees.OneWayRun | src/runtime/distributed.rs:1299-1311 | a peer that only receives never exceeds the sender |
| FrontierGuarantees.SilenceMeansConverged | src/crdt_peer_sync.rs:81-170 | with a single writer silence means equal replicas with equal values |
| FrontierGuarantees.FrontierMonotone | src/crdt_peer_sync.rs:148-170 | until a peer is forgotten its frontier only grows, whatever acknowledgements arrive |
| FrontierGuarantees.RetiredAckIgnored | src/crdt_peer_sync.rs:143-158 | acknowledgements for evicted, superseded or forgotten batches never change the table again |
| FrontierGuarantees.ForgetRetiresAll | src/runtime/distribution.rs:428-432 | forgetting a peer retires every batch sent to its earlier process |
| FrontierGuarantees.OneExchangeSuffices | src/crdt_peer_sync.rs:81-170 | from any reachable state one exchange that gets through leaves nothing to send |
| FrontierGuarantees.JoinBatchRebuilds | src/crdt_peer_sync.rs:172-176 | the batch for a new or forgotten peer rebuilds the whole local state on an empty replica |
| FrontierGuarantees.TruthfulIffTrackedAndManaged | src/runtime/distributed.rs:2483-2515 | over all runs, outside the window between a crash and forgetting, what a peer acknowledged it holds exactly when its transport tracks packets and it has a replica manager |
| FrontierGuarantees.AllTruthfulIff | src/runtime/distributed.rs:2483-2515 | this is so for every peer exactly when no peer is untracked and none is without a manager |
| FrontierGuarantees.OptimisticAckLosesUpdate | src/runtime/distributed.rs:2496-2507 | a run over an untracked transport that silences the sender while the peer holds nothing |
| FrontierGuarantees.DroppedBatchIsLost | src/runtime/distributed.rs:1299-1311 | a run in which a receiver without a manager acknowledges what it drops and the sender falls silent |
| FrontierGuarantees.CrashWindow | src/runtime/distribution.rs:422-432 | a run in which a crashed peer no longer holds what it acknowledged and has not been forgotten yet |
| Bytecode.JmpFDecodes | bootstrap/fixup_hex.py:30-32 | a patched conditional jump keeps its register and decodes to the offset exactly when it fits in 16 signed bits |
| Bytecode.JmpDecodes | src/bytecode.rs:434-465 | the same for the unconditional jump |
| Bytecode.IndexDecodes | bootstrap/fixup_hex.py:39-46 | indexed words keep opcode and destination and decode to the index exactly when it fits in 16 bits |
| HexFixup.MatchBranches | bootstrap/fixup_hex.py:101-199 | the marker loop computes the target maps of the specification scan |
| HexFixup.MatchFunctions | bootstrap/fixup_hex.py:209-230 | the start/end loop computes the specification pairing |
| HexFixup.BuildPool | bootstrap/fixup_hex.py:290-314 | the pool lists each constant once, in order of first appearance |
| HexFixup.PatchBranches | bootstrap/fixup_hex.py:201-288 | the jump and closure passes, in order, later passes winning |
| HexFixup.Fixup | bootstrap/fixup_hex.py:49-351 | the whole pass equals its specification, with the assertion on constant markers as an error |
| HexBranches.ScanCode | bootstrap/fixup_hex.py:114-199 | scanning the stream of any program leaves all three stacks as they were and gives every jump the target its construct dictates |
| HexBranches.ScanOr | bootstrap/fixup_hex.py:120-199 | the same for a disjunction, whose two jumps and tests are kept apart |
| HexFunctions.FnScanCode | bootstrap/fixup_hex.py:216-230 | each function start is paired with its own end at any nesting |
| HexFunctions.EndsOneToOne | bootstrap/fixup_hex.py:216-230 | on any stream at all, no end is paired with two starts |
| HexRefinement.CodeOut | bootstrap/fixup_hex.py:201-351 | the output stretch of a program is its structural resolution |
| HexProgram.FixupResolves | bootstrap/fixup_hex.py:49-351 | back-patching the stream of a structured program followed by its epilogue equals resolution by structural recursion |
| HexProgram.ResolvesIffFollowed | bootstrap/fixup_hex.py:114-118 | this holds for all programs exactly when an instruction follows them |
| HexExecution.RunCode | src/vm.rs:5744-5762 | the resolved words run from their first instruction to just past their last, computing what the structured program computes |
| PoolText.PoolLineRoundTrip | bootstrap/hex2nbc.py:40-52 | the printed pool line parses back exactly when no string holds a comma |
| HexLoader.PrintLines | bootstrap/fixup_hex.py:337-351 | the pool line goes after the first comment that does not mention const, if any |
| HexLoader.Load | bootstrap/hex2nbc.py:29-68 | one pass collects instructions, function starts and pool; an empty program is an error |
| HexLoader.LoadsPrinted | bootstrap/hex2nbc.py:29-61 | the loaded module holds the printed words and starts, whatever comments surround them |
| HexLoader.CompiledModule | bootstrap/hex2nbc.py:29-61 | end to end, instructions and function table are the structural ones, every closure indexes its own body and every load its own constant while indices fit, and the pool is exact under the comma and comment conditions |
| HexLoader.CompiledRuns | src/vm.rs:5744-5762 | the loaded module of any size, run from the entry point, computes what the structured program computes while each jump offset fits |
| AnnotatorLaws.AnnotateTransparent | src/actor_protocol.rs:513-764 | the output is the input with nothing changed but annotations added around arguments and asks, and behaviors qualified |
| AnnotatorLaws.AddsErases | src/actor_protocol.rs:513-764 | so erasing annotations and qualifiers on both sides leaves no difference |
| AnnotatorLaws.QualifyOnce | src/actor_protocol.rs:488-511 | an accepted call ends up with exactly one qualifier |
| AnnotatorLaws.AcceptsOwnOutput | src/actor_protocol.rs:414-511 | a second pass with protocols of the same shape accepts the output and leaves its names alone |
| ActorModules.ModuleTransparent | src/actor_protocol.rs:38-46 | both for whole modules: functions, actors, machines, variables, workflows, nested modules |
| ActorModules.CollectShape | src/actor_protocol.rs:48-125 | protocols collected from the output have the shape of those collected from the input, ambiguity included |
| ActorModules.ModuleAcceptsOwnOutput | src/actor_protocol.rs:38-46 | the pass accepts its own output with the same qualified names, whatever return types inference then finds |
| CallSoundness.EvalSound | src/actor_protocol.rs:208-256 | evaluation keeps the scope truthful through every binder, closure, arm, hide and seal |
| CallSoundness.AcceptedProgramsAreSound | src/actor_protocol.rs:398-486 | in every run of an expression, for every host, each resolved call reaches an actor of that type with a declared behavior and arity, when tracked bindings are not reassigned |
| CallSoundness.ReassignmentMisleads | src/actor_protocol.rs:208-226 | an accepted program that reassigns an actor variable and calls it is sound exactly when both actors have one type |
| ModuleSoundness.DeclsOk | src/actor_protocol.rs:258-396 | everything a module can run was accepted in the scope it runs in |
| ModuleSoundness.RunModuleSound | src/actor_protocol.rs:258-396 | runs of a module's variables, functions, behaviors, hooks and workflow steps, in any order, keep scopes and trace truthful |
| ModuleSoundness.AcceptedModulesAreSound | src/actor_protocol.rs:38-46 | in every run of an accepted module, for every host and with each behavior in any actor of its type, each resolved call reaches what it was resolved to, when tracked variables are neither reassigned nor redeclared |
| ModuleSoundness.RedeclarationMisleads | src/actor_protocol.rs:258-280 | a module that declares a variable twice around a function that calls it is sound exactly when both actors have one type |
| ModuleSoundness.HookParameterMisleads | src/actor_protocol.rs:339-354 | a module whose hook calls a module variable is sound exactly when no event parameter has the variable's name |
| StateMachine.Desugar | src/ast.rs:1001-1093 | the statement-pushing construction builds the specified actor |
| StateMachine.BodyIff | src/ast.rs:1026-1072 | whatever hooks do, a behavior has the outcome of the transition exactly when the exit hook that runs sees no parameter and leaves a tag no later exit hook is for, and the entry hook sees no parameter |
| StateMachine.RunsAgreeIff | src/ast.rs:1001-1093 | actor and machine keep step throughout an event sequence exactly when every step is safe where it is taken |
| StateMachine.ActorSimulatesMachine | src/ast.rs:1001-1093 | on every safe event sequence the actor has the tags, stores and hook trace of the machine, self-transitions included |
| StateMachine.AlwaysAgreeIff | src/ast.rs:1001-1093 | they agree on all event sequences from all worlds exactly when every event is safe everywhere |
| StateMachine.AlwaysDeclared | src/ast.rs:1009-1053 | the tag is always a declared state exactly when there is a state and every target is declared |
| StateMachine.SimulatesIffDistinct | src/ast.rs:1026-1058 | for hooks that leave tag and arguments alone, actor and machine agree on all transitions exactly when no state has two exit hooks |
| StateMachine.WritingHookDiverges | src/ast.rs:1026-1058 | a machine whose exit hook writes the tag and runs a second exit hook |
| StateMachine.ParameterCapturesHook | src/ast.rs:1054-1072 | a machine whose entry hook stores an argument in place of what it names |
| Authority.RoundTripIffPrintable | src/authority.rs:228-249 | a grant survives printing and parsing exactly under the stated conditions on its parts |
| Authority.ParsePrintParse | src/authority.rs:278-389 | every grant the parser can produce meets them, colons in hosts, plus signs and leading zeros in ports and extra separators included |
| Authority.LookalikeChangesMeaning | src/authority.rs:336-340 | an extension grant spelling a built-in one parses as the built-in one |
| Authority.FromTokens | src/authority.rs:142-150 | all tokens parse, or the first error is returned |
| Authority.ManifestRoundTrip | src/authority.rs:215-226 | a manifest and its token set determine each other exactly when all grants are printable |
| Authority.TokensInjective | src/authority.rs:228-249 | canonical tokens are injective on printable grants |
| Delegation.Actor.InstallAuthorityManifest | src/authority_runtime.rs:119-121 | installing replaces the token set by the canonical tokens |
| Delegation.Actor.RequireAuthority | src/authority_runtime.rs:137-144 | allows exactly held grants and refuses everything when any token is malformed |
| Delegation.Actor.DelegateAuthority | src/authority_runtime.rs:160-169 | succeeds exactly when the request is held in full, and otherwise names the first missing grant in order |
| Delegation.Actor.DelegateAuthorityTo | src/authority_runtime.rs:176-184 | a failed delegation changes nothing, a successful one only the child |
| Delegation.SpawnAuthorityManifest | src/authority_runtime.rs:88-107 | no record grants nothing, two are ambiguous, one must parse in full |
| Delegation.NoAuthorityFromNothing | src/authority_runtime.rs:160-184 | no run of delegations gives anyone a grant that nobody held at its start |
| Delegation.TokensTellTheTruth | src/authority_runtime.rs:112-121 | after any run the tokens of every actor, those created on the way included, parse back to the manifest last installed, or are as they were |
| Delegation.RunActors | src/authority_runtime.rs:176-184 | the actors after a run are those before it and the children of its delegations |
| Manifest.ValidateSteps | src/behavior_manifest.rs:393-432 | the migration loops accept exactly the declared conditions |
| Manifest.ValidateArtifact | src/behavior_manifest.rs:332-376 | accepts exactly artifacts of the known kind whose digest and identities parse and whose recorded identity is that of the recorded configuration |
| Manifest.Validate | src/behavior_manifest.rs:332-435 | validation accepts exactly the valid manifests |
| Manifest.MigrationsExact | src/behavior_manifest.rs:393-432 | below the last version number a valid actor has exactly one step per earlier version |
| Manifest.SaturationAdmitsExtraStep | src/behavior_manifest.rs:395-403 | at the last version number an extra step passes |
| Manifest.CountExactIff | src/behavior_manifest.rs:393-432 | a valid actor of any version has one step per earlier version exactly when no step leaves the last version number |
| Manifest.ManifestFile.Normalize | src/behavior_manifest.rs:318-330 | the in-place sorting and deduplication computes the normal form |
| ManifestLaws.NormalIdempotent | src/behavior_manifest.rs:318-330 | normalising is idempotent on every manifest |
| ManifestLaws.FlagsAsSet | src/behavior_manifest.rs:362-376 | whatever the hash, the recomputed identity and so validation see the flags as a set |
| ManifestLaws.NormalValid | src/behavior_manifest.rs:318-435 | a manifest is valid exactly when its normal form is |
| ManifestLaws.NormalCanonical | src/behavior_manifest.rs:318-330 | valid manifests have one normal form exactly when they differ only in order and repetition |
| Admission.CheckActor | src/behavior_manifest.rs:246-313 | the checks of one durable actor, in order, with their refusals |
| Admission.ValidateUpgradeFrom | src/behavior_manifest.rs:223-316 | the first refusal among the durable actors of the previous manifest |
| Admission.AdmitsIff | src/behavior_manifest.rs:223-316 | admission holds exactly when both manifests are valid, of one package, and every durable actor has a successor; the missing-migration refusal never fires |
| Admission.AdmissionReflexive | src/behavior_manifest.rs:223-316 | a valid manifest may replace itself |
| Admission.AdmissionTransitive | src/behavior_manifest.rs:223-316 | admission is transitive |
| Admission.ChainAdmits | src/behavior_manifest.rs:223-316 | a chain of admitted upgrades admits the direct one |
| Admission.TwoWayAdmission | src/behavior_manifest.rs:223-316 | admission both ways forces identical durable actors |
| Admission.OrderIsVisible | src/behavior_manifest.rs:277-290 | the same migrations in another order are refused although the normal forms are equal |
| Admission.SameNormalAdmittedIff | src/behavior_manifest.rs:277-290 | two valid durable actors with one normal form replace each other exactly when they are written alike |
| Admission.SpellingIsVisible | src/behavior_manifest.rs:277-283 | an identity spelled with other letter case names the same schema and is refused as an unversioned change |
| ContentIdentity.HashArtifact | src/content_identity.rs:97-126 | the incremental feeding of the hasher yields the preimage |
| ContentIdentity.SourceInjective | src/content_identity.rs:61-66 | source preimages determine the bytes, at any size |
| ContentIdentity.SemanticInjective | src/content_identity.rs:76-90 | semantic preimages determine the bytes and the set of references, order and repeats ignored |
| ContentIdentity.ArtifactInjective | src/content_identity.rs:97-126 | artifact preimages determine every field and the flag set |
| ContentIdentity.KindsApart | src/content_identity.rs:20-22 | source, semantic and artifact preimages never coincide |
| ContentIdentity.LengthBoundNeeded | src/content_identity.rs:164-171 | a field of 2^32 bytes breaks injectivity, on plain text |
| ContentIdentity.IdentityRoundTrip | src/content_identity.rs:153-162 | a text parses to an identity exactly when it is the printed one up to letter case, so printing and parsing gives it back |

## Left out

- The virtual machine, JIT, scheduler, garbage collector, type checker and the binary codec; the model meets them only through hosts and through the two jump instructions.
- MIR values that lowering stubs to nil, catch-all operator mappings and user-defined effect handlers: a run that meets one is matched up to there only.
- 32-bit wrap-around of frame pointers, traps of division, and truncation of block ids to 32 bits in the suspension compiler.
- Suspension.CompilerPreservesMeaning: asks that reads and destinations map below the dispatcher's state local, that a local assigned twice between two suspensions is not reassigned from a read, and that undelivered payload locals are not read; the limits above show why. Delivery of arguments is stated separately.
- FrameSoundness.SuspendSim: records the arguments of a suspension as CIR evaluates them; the code generator drops them, so the host it stands for is one that never looks at them.
- SuspensionLimits.HiddenReadIsLost: one function with a hidden read, not a proof that every hidden read changes a result.
- Replicated types other than grow-only counters, counters that also decrement, and grow-only sets; counts are unbounded numbers and payload encodings are not modelled.
- The map from transport sequence numbers to batches: acknowledgements in the model name their peer and batch, and dropping one stands for a transmission the runtime no longer tracks.
- Crdt.MergeIsJoin: merging and deltas are stated on whole maps, not as the in-place loops over one map.
- Lexing of hex lines and markers: lines are classified already, so a source comment or a string constant that itself spells a marker is not modelled.
- AnnotatorLaws.AnnotateTransparent: the pass is a function on trees, not an update in place, and errors carry no text; forms that only recurse share one constructor, and declarations the pass does not look into are reduced to a tag.
- ModuleSoundness.AcceptedModulesAreSound: asks that each tracked variable keeps one type across the whole module, that functions do not take its name, that event parameters do not hide it from hooks, and that it is not assigned; the lemmas beside it show why. Closures capture variables by value, and pattern matching, primitives and replies are whatever the host says.
- Return-type inference: an arbitrary function of the body.
- Source syntax and quoting of grants, JSON encoding of manifests, and construction of manifests from typed programs.
- StateMachine.AlwaysDeclared: for hooks that do not write the tag.
- The encoding of strings in manifests: an arbitrary function to bytes.
- The hash function: identities are compared through their preimages.
