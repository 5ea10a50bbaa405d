# go-tron: verified core

A Dafny model of the stateful core of a TRON node, with proofs of what the node's
own comments and tests promise of it. Seven parts, each in the form its code has:

- **Fork pipeline** (`RevokingDb`, `ForkTree`, `NodeManager`, `Merkle`): blocks arrive in
  any order, the longest chain that executes wins, and the state moves by opening and
  revoking one database session per block. Executing a block is a deterministic function
  of the block and the visible store.
- **Virtual machine** (`TvmTypes`, `TvmSpec`, `TvmRun`, `TvmMachine`, `TvmProps`, `TvmPresence`,
  `TvmLaws`, `TvmMemory`): a pure semantics of nested frames (section 9 of the Ethereum Yellow
  Paper with TRON's deviations), the machine with its meter, snapshots and logs proved equal to
  it, what instructions and calls mean to the code that uses them, and the properties of every run. Arithmetic, hashes and precompiled contracts are functions held
  in the environment.
- **Contract transaction** (`VmTransaction`): budget, execution, bill and burn.
- **Vote rewards** (`Rewards`, `ViIndex`, `Maintenance`, `RewardSolvency`): cursors, the
  per-vote index, the phases of the maintenance window, and all voters together.
- **Staking** (`Delegations`, `StakeLedger`, `DelegationIndex`, `DelegatedFreeze`): Stake 2.0
  and the delegated half of Stake 1.0, with the two index layouts and the lazy migration.
- **Working copy** (`VmStateDb`): the lazy cache a transaction runs on.
- **Base58** (`Base58`).

`MapSums`, `Arith`, `Options` and `Voting` hold sums over maps, rounding facts, the option type and votes.

Code that changes fields is a class whose methods are proved against functions on values;
the laws are lemmas about those functions. Operations that can fail return what the code
reports, in the order of its checks.

Where the code does less than one would expect, the model follows the code and says exactly
when the expectation holds, as an if-and-only-if theorem unless noted:

- a failed fork switch restores the old branch only if it failed at its first new block;
- the top-level call value of a contract transaction is moved without a balance check, so the
  total is kept only if the owner covers it, and the burn fits the balance for every code only
  if the budget beyond the stake is affordable;
- the fee leaves circulation exactly only if the owner still holds it after the execution; what
  a caller can check before is one-way (an owner without code that is not the target);
- a network weight tracks the accounts except when the floor at zero bites;
- balances survive a flush up to 2^64, not 2^63, because the two casts cancel, while the
  presence of an account touched only by storage writes does not;
- the order stamps of a migrated delegation list survive the migration of the other end only if
  the two lists agree on the position, or the last entry only moves up.

## Model

| member | source | states |
|---|---|---|
| `NodeManager.Manager.PushBlock` | internal/node/manager.go:249-295 | Each answer if and only if: Duplicate for a stored id, BadRoot for a header that does not name its transactions, Unlinked for an unknown parent, SideBranch for a linked block not above the head, Adopted for a higher one whose chain replays on the base, Refused for a higher one whose chain does not; the head becomes the block exactly when it is Adopted. From any state satisfying the pipeline invariant, the tree ends as the longest-chain rule says (longest replayable chain wins, a longest chain that does not replay loses its tip), and the invariant survives if and only if the push did not start a switch that fails after its first new block |
| `NodeManager.Manager.PushAll` | internal/node/manager.go:249-295 | Over any run of pushes in which no switch fails late, the invariant holds at the end and the tree is what folding the longest-chain rule over the run gives |
| `NodeManager.Manager.InvariantMeans` | internal/node/manager.go:11-12 | The invariant says: the applied list is the head's ancestor chain above the root, session depth is its length, the visible store is the replay of that chain on the base, and no stored block is numbered above the head |
| `NodeManager.Manager.SwitchFork` | internal/node/manager.go:441-466 | A switch succeeds exactly when the new chain replays; a failed switch drops the new tip, restores the old branch exactly if and only if it failed at its first new block, and in general leaves the chain LeavesBehind describes |
| `NodeManager.Manager.RestoreBranch` | internal/node/manager.go:454-480 | After a failure with `done` new blocks applied, the old branch follows them as far as it goes through there, and is restored if and only if `done` is zero |
| `NodeManager.Manager.BackOut` | internal/node/manager.go:454-461 | What a failed switch leaves applied, exactly: the common blocks, the new blocks before the failing one, and the longest part of the old branch that goes through on top of them |
| `NodeManager.Manager.ApplyOnTop` | internal/node/manager.go:286-295 | A block that extends the head is applied, or leaves sessions, applied list and stores as they were and is taken out of the tree again |
| `NodeManager.Manager.ApplyBlock` | internal/node/manager.go:286-295 | One block in its own session: the sessions, the applied list and the visible store stay the replay of a chain, longer by the block if it succeeded and unchanged if not |
| `NodeManager.Manager.Adopt` | internal/node/manager.go:277-295 | Taking the linear path or the switch, the old head comes back into the tree exactly when the new chain does not replay |
| `NodeManager.Manager.ValidateBlock` | internal/node/manager.go:234-244 | Accepts exactly the blocks whose header names the tree hash of their transactions, the zero hash for none |
| `NodeManager.ExtensionNotLate` | internal/node/manager.go:286-295 | Extending the head can never be a late failure |
| `NodeManager.LateFailureExists` | internal/node/manager.go:454-461 | A side branch of two blocks with an invalid second one is a late failure |
| `NodeManager.BadTipFailsLate` | internal/node/manager.go:441-466 | Three correctly numbered pushes from a fresh tree end in a switch that fails late |
| `NodeManager.PushLateFailure` | internal/node/manager.go:249-282 | A new manager that is pushed those three blocks ends without its invariant |
| `NodeManager.Manager.Reject` | internal/node/manager.go:290-290 | Rejecting a failed tip gives back a valid tree under the old head |
| `ForkTree.KhaosDb.Push` | internal/khaos/khaos.go:76-102 | Inserting a correctly numbered block keeps the tree invariant; the head moves only to a strictly higher block, duplicates and unlinked blocks change nothing |
| `ForkTree.KhaosDb.GetBranch` | internal/khaos/khaos.go:137-167 | Returns, tip first, exactly the parts of the two chains above the block where they part, for all stored pairs |
| `ForkTree.MeetIsLowest` | internal/khaos/khaos.go:137-167 | That block is the lowest common ancestor: nothing on one branch lies on the other chain |
| `ForkTree.KhaosDb.Prune` | internal/khaos/khaos.go:170-180 | Keeps exactly the blocks within the window below the head and the tree invariant with them |
| `ForkTree.PruneOk` | internal/khaos/khaos.go:170-180 | Pruning never breaks the parent chains GetBranch walks: every ancestor is stored or below everything stored |
| `ForkTree.KhaosDb.RejectTip` | internal/khaos/khaos.go:111-121 | Removes the tip only when it is the head and the previous head, if there is one, is stored |
| `ForkTree.RejectOk` | internal/khaos/khaos.go:111-121 | Removing the single highest block gives back a tree that is valid under the previous head |
| `RevokingDb.Database.ApplyAll` | internal/db/snapshot.go:57-200 | Any sequence of session operations moves the sessions as it moves a stack of complete maps |
| `RevokingDb.Database.Get` | internal/db/snapshot.go:65-78 | Reads the top complete map |
| `RevokingDb.Database.Has` | internal/db/snapshot.go:81-92 | Membership in the top complete map |
| `RevokingDb.Database.Scan` | internal/db/snapshot.go:96-126 | Returns the strictly sorted listing of exactly the visible keys with the prefix |
| `RevokingDb.ListingUnique` | internal/db/snapshot.go:96-126 | Such a listing is unique, so a scan does not depend on the order the maps are walked in |
| `RevokingDb.LessIsLexicographic` | internal/db/snapshot.go:96-126 | The order is lexicographic by byte, a proper prefix first |
| `RevokingDb.MatchingContinues` | internal/db/snapshot.go:96-126 | The listed keys are exactly those that continue the prefix, with their values |
| `RevokingDb.Database.PutKey` | internal/db/snapshot.go:129-137 | Writes into the top map only, or into the base when no session is open |
| `RevokingDb.Database.DeleteKey` | internal/db/snapshot.go:140-148 | Deletes from the top map only, whatever lower sessions hold |
| `RevokingDb.Database.CommitTop` | internal/db/snapshot.go:152-180 | Merges the top map into the one below: the visible map does not change, nor do the levels below the two |
| `RevokingDb.Database.RevokeTop` | internal/db/snapshot.go:183-192 | Pops the top map |
| `RevokingDb.RevokeRestores` | internal/db/snapshot.go:57-200 | Opening a session, any operations that stay above it, and a revoke give back the whole stack of maps |
| `TvmRun.Run` | internal/tvm/interpreter.go:90-123 | Total semantics of a frame for every code, world and budget (measure: depth left, energy left, code left); energy never grows; every frame reached has a legal stack and its program counter on an instruction boundary |
| `TvmRun.StepOk` | internal/tvm/interpreter.go:90-123 | Every instruction ends the frame, or keeps it legal and makes the measure fall; a call pays at least 40 and 9000 more with value, a creation at least 32000 |
| `TvmRun.ExecShape` | internal/tvm/instructions.go:51-210 | Stack height, program counter and energy of every instruction follow its table entry; only jumps move elsewhere and only to valid destinations; calls and creations carry the value on the stack |
| `TvmRun.LocalShape` | internal/tvm/instructions.go:216-661 | The same for the instructions that touch only their own frame |
| `TvmRun.PriceFloor` | internal/tvm/gas.go:70-236 | The price floors termination and call accounting rest on |
| `TvmMachine.Evm.RunFrame` | internal/tvm/interpreter.go:90-133 | The loop over pc, stack, memory, meter, state and logs computes Run; on a fault the reported opcode position is inside the code; successful snapshots stay on the stack |
| `TvmMachine.AnalyzeJumpDests` | internal/tvm/interpreter.go:202-215 | The bitmap marks exactly the JUMPDEST bytes on instruction boundaries |
| `TvmSpec.AlignedNotInside` | internal/tvm/interpreter.go:202-215 | No instruction boundary lies inside another instruction's push data |
| `TvmMachine.Evm.JumpTo` | internal/tvm/instructions.go:587-597 | A jump succeeds exactly on a valid destination below 2^64 |
| `TvmMachine.Evm.OpPush` | internal/tvm/instructions.go:619-634 | Assembling the immediate byte by byte gives its big-endian value, zero-padded past the end of the code |
| `TvmMachine.Evm.OpLog` | internal/tvm/logs.go:52-72 | Faults in read-only mode; otherwise pops offset, size and topics in order and appends the event |
| `TvmMachine.Evm.OpSstore` | internal/tvm/instructions.go:562-570 | Faults in read-only mode; otherwise writes one slot of the running account and nothing else |
| `TvmProps.JumpsLandOnInstructions` | internal/tvm/instructions.go:572-617 | Control goes to the following instruction or to a JUMPDEST, and never inside push data |
| `TvmMachine.Evm.DoCall` | internal/tvm/evm.go:75-167 | The frame TvmLaws.CallOpens describes is opened. Reservation, snapshot by id, transfer, child, refund and rollback by id and log length amount to the pure call; whenever 0 is pushed, accounts, storage and logs are as before the operation |
| `TvmMachine.Evm.CallThrough` | internal/tvm/evm.go:93-166 | The reserved and refunded part of a call, with the snapshot id still in range and holding the state at its own snapshot |
| `TvmMachine.Evm.OpenCall` | internal/tvm/evm.go:93-130 | Energy reserved, snapshot taken before the value moves, stipend added |
| `TvmMachine.Evm.CloseCall` | internal/tvm/evm.go:151-166 | The refund is never more than was used, so the clamp does not fire; success keeps the child's world, anything else restores the one before |
| `TvmMachine.Evm.DoCreate` | internal/tvm/evm.go:171-237 | Creation amounts to its pure form: nonce bumped before the snapshot, code deposit paid from what the child left, or everything rolled back; whenever 0 is pushed, at most the creator's nonce has changed |
| `TvmMachine.Evm.CreateThrough` | internal/tvm/evm.go:182-236 | The reserved and refunded part of a creation, with the snapshot id still in range |
| `TvmLaws.CallOpens` | internal/tvm/evm.go:75-135 | When a call is refused or does not run, and what a callee sees, kind by kind: DELEGATECALL keeps the parent's self, caller and value, CALLCODE runs as the parent with the parent as caller and the stack's value, CALL and STATICCALL run as the target with the parent as caller; always the target's code, the arguments and the parent's origin; value moves for CALL alone |
| `TvmLaws.DelegatesSee` | internal/tvm/evm.go:120-124 | Every frame in a chain of DELEGATECALLs, however long, runs as, for and with the value of the frame that started it |
| `TvmLaws.ChainKeeps` | internal/tvm/evm.go:75-150 | Down any chain of calls the origin stays, read-only mode is never left and depth 64 never passed |
| `TvmLaws.CreateOpens` | internal/tvm/evm.go:171-215 | What a creation opens: the address from the nonce before it was raised or from the salt, the creator as caller, the init code to run, empty input |
| `TvmLaws.CallReturns` | internal/tvm/evm.go:151-166 | What the caller finds after a child: its return data, copied into the output area as far as it reaches, and the rest of memory and stack untouched |
| `TvmLaws.BuiltinPays` | internal/tvm/evm.go:132-146 | A precompiled contract costs its price and gives its output, or takes all it was given |
| `TvmLaws.CallLayout` | internal/tvm/instructions.go:744-766 | Where CALL and CALLCODE take each operand from |
| `TvmLaws.ValuelessCallLayout` | internal/tvm/instructions.go:768-788 | The same for DELEGATECALL and STATICCALL, which have no value |
| `TvmLaws.CreateLayout` | internal/tvm/instructions.go:792-798 | The same for CREATE |
| `TvmLaws.Create2Layout` | internal/tvm/instructions.go:800-808 | The same for CREATE2 |
| `TvmLaws.LoadAfterStore` | internal/tvm/instructions.go:555-570 | SLOAD gives back what SSTORE put at the same key of the same account; other keys and accounts load what they did |
| `TvmLaws.LoadAfterMStore` | internal/tvm/instructions.go:534-546 | MLOAD gives back the word MSTORE put at the same offset |
| `TvmLaws.StoresLowByte` | internal/tvm/instructions.go:548-553 | MSTORE8 writes the lowest byte and nothing else |
| `TvmLaws.FirstByteWeighsMost` | internal/tvm/instructions.go:619-634 | Bytes are read most significant first |
| `TvmLaws.CopyLayout` | internal/tvm/instructions.go:468-486 | CALLDATACOPY and CODECOPY fill exactly the destination with the source, zeros past its end |
| `TvmLaws.ExtCodeCopyLayout` | internal/tvm/instructions.go:692-702 | EXTCODECOPY does so with the named account's code |
| `TvmLaws.ReturnDataLayout` | internal/tvm/instructions.go:712-729 | RETURNDATACOPY copies from the last answer and faults rather than read past its end |
| `TvmLaws.HaltLayout` | internal/tvm/instructions.go:644-659 | RETURN and REVERT end the frame with the named stretch of memory |
| `TvmLaws.JumpLayout` | internal/tvm/instructions.go:572-597 | JUMP goes where the top of the stack says; JUMPI exactly when the word below it is not zero |
| `TvmLaws.StackMoves` | internal/tvm/instructions.go:636-642 | DUP copies the n-th word, SWAP exchanges the top with the one n below it, and nothing else moves |
| `TvmLaws.StackLimit` | internal/tvm/interpreter.go:90-123 | A push faults exactly on a full stack of 1024 words |
| `TvmLaws.CallPrices` | internal/tvm/gas.go:149-180 | 40 without value, 9040 with it, 34040 when CALL pays an absent account |
| `TvmLaws.ValuelessCallPrices` | internal/tvm/gas.go:182-189 | 40 |
| `TvmLaws.FlatPrices` | internal/tvm/instructions.go:51-210 | Flat prices of loads, jumps, pushes, duplicates and swaps |
| `TvmLaws.MovesByByte` | internal/tvm/instructions.go:51-210 | Opcode bytes of the instructions that move words or control |
| `TvmLaws.OpcodesByByte` | internal/tvm/instructions.go:51-210 | Opcode bytes of the instructions that read, copy, log, create or end, with the gate of CREATE2 |
| `TvmLaws.StorePrice` | internal/tvm/gas.go:224-236 | 20000 exactly for filling a slot the account does not have with a word that is not zero, else 5000 |
| `TvmLaws.CodeDeposit` | internal/tvm/evm.go:216-236 | 200 energy a byte for deployed code, the address or 0 pushed accordingly |
| `TvmLaws.FreshMemoryPrice` | internal/tvm/interpreter.go:142-170 | Memory of n words costs 3n and a 512th of n squared, rounded down, up to 3 MiB |
| `TvmLaws.MemoryCostTelescopes` | internal/tvm/interpreter.go:142-170 | Growing memory in two steps costs what growing it at once costs |
| `TvmMemory.MemoryIsPaidFor` | internal/tvm/interpreter.go:90-170 | At every turn of every frame, calls and creations included: memory is whole words within 3 MiB, and the energy spent covers the price of all the memory held |
| `TvmMemory.StepPays` | internal/tvm/gas.go:19-222 | No instruction grows memory beyond what it charges for; a call pays for its output area before the callee runs |
| `TvmMemory.RunAfterTurns` | internal/tvm/interpreter.go:90-123 | Those turns are the run's: running on from any of them gives the frame's outcome |
| `TvmProps.CallIsAtomic` | internal/tvm/evm.go:75-167 | A call that pushes 0 leaves the world as before it; 1 is pushed exactly when the child ended well; DoCall rests on it |
| `TvmProps.CreateIsAtomic` | internal/tvm/evm.go:171-237 | A creation that pushes 0 changes at most the creator's nonce; otherwise the new address is pushed and holds the returned code |
| `TvmProps.ReadOnlyRun` | internal/tvm/evm.go:75-167 | A read-only frame changes no account and no log, at any depth and however it ends |
| `TvmProps.StaticCallKeepsWorld` | internal/tvm/evm.go:75-167 | STATICCALL from any frame leaves balances, storage, code, nonces and logs alone |
| `TvmProps.RunConserves` | internal/tvm/evm.go:86-201 | Nested value calls, creations and rollbacks keep the sum of balances, given a total below 2^256 |
| `TvmProps.ExecAccounts` | internal/tvm/instructions.go:562-570 | No instruction but SSTORE outside read-only mode touches accounts inside a frame, and SSTORE only one slot of the running account |
| `TvmProps.TransferConserves` | internal/tvm/evm.go:126-130 | A covered transfer never wraps: exact debit, exact credit, same total |
| `TvmProps.BystanderNotDebited` | internal/tvm/evm.go:75-237 | An account without code that no creation can hit is never debited by any run it does not make itself |
| `TvmProps.CallEnergyExact` | internal/tvm/evm.go:83-166 | A call costs its base plus what the child used minus the stipend, and always something |
| `TvmProps.CreateEnergyExact` | internal/tvm/evm.go:191-236 | A creation costs its base plus what the child used, plus 200 per deployed byte on success, and all the forwarded energy when the deposit cannot be paid |
| `TvmPresence.RunKeepsAccounts` | internal/tvm/evm.go:75-237 | No run removes an account from the record |
| `TvmPresence.RunStands` | internal/tvm/evm.go:182-183 | In every run, at every depth, a frame that carries out a creation runs as an account on record, when the top frame does |
| `TvmRun.ForwardedEnergy` | internal/tvm/evm.go:52-60 | Forwarded energy is the smaller of what was asked for and what is there less its 64th part |
| `TvmMachine.EnergyMeter.Spend` | internal/tvm/energy.go:23-31 | Charges exactly or exhausts the meter |
| `TvmMachine.EnergyMeter.Restore` | internal/tvm/energy.go:37-43 | Gives back exactly, and clamps exactly when more comes back than was used |
| `TvmMachine.MemStateDb.Snapshot` | internal/tvm/state_db.go:169-176 | The id names a copy of the present accounts |
| `TvmMachine.MemStateDb.RevertToSnapshot` | internal/tvm/state_db.go:179-185 | Restores that copy and drops it and later ones; out of range is ignored |
| `VmTransaction.ExecuteTx` | internal/actuator/vm.go:126-222 | Budget, snapshot, endowment, run, rollback or deployment, bill and burn on the working state amount to the pure transaction |
| `VmTransaction.TxBurnBounded` | internal/actuator/vm.go:126-191 | Whatever the code and the parameters, energy used is within the budget and the burn within the spendable balance and the fee limit |
| `VmTransaction.BurnBounded` | internal/resource/energy.go:62-109 | Any bill for energy within the account limit burns at most the spendable balance and at most the fee limit |
| `VmTransaction.TxBillExact` | internal/actuator/vm.go:178-188 | In numbers, for calls and creations alike: the burn is max(0, used - stake) times the fee when that is at least 100, and times 100 otherwise; the stake pays the rest |
| `VmTransaction.EnergyPrice` | internal/resource/energy.go:45-50 | The larger of 100 and the dynamic fee, one of the two |
| `VmTransaction.BudgetIsGreatest` | internal/resource/energy.go:101-109 | The budget pinned from both sides: n units are within it exactly when n times the price is within the fee limit and what exceeds the stake, at that price, within the balance less the call value |
| `VmTransaction.OriginShareExact` | internal/resource/energy.go:62-80 | The origin pays the largest whole number of units within its percentage, its stake and its own limit |
| `VmTransaction.StakePaysFirst` | internal/resource/energy.go:80-96 | The caller burns only what its stake does not cover |
| `VmTransaction.RevertedTxOnlyPays` | internal/actuator/vm.go:126-222 | A transaction that does not end well costs its owner the fee and changes nothing else, and emits nothing |
| `VmTransaction.EndedTxKeepsRun` | internal/actuator/vm.go:126-222 | One that ends well leaves what the run left, with the returned code deployed and the fee taken from the owner |
| `VmTransaction.SignedReadings` | internal/actuator/vm.go:126-191 | The signed and unsigned readings of amounts undo each other, and balances below 2^63 read as they are |
| `VmTransaction.BurnFitsIff` | internal/actuator/vm.go:126-191 | For every bound, such as the owner's balance: the burn fits it whatever the code does if and only if the price of the budget beyond the stake does, which is known before the call |
| `VmTransaction.MaxBurnReached` | internal/tvm/interpreter.go:126-133 | An invalid opcode burns all of that |
| `VmTransaction.NonNegativeCallValueFits` | internal/resource/energy.go:101-109 | With a call value that is not negative the burn always fits the balance |
| `VmTransaction.ReceiptAddsUp` | internal/resource/energy.go:62-96 | Caller stake, origin stake and burned energy add up to the energy used |
| `VmTransaction.TxConserves` | internal/actuator/vm.go:126-191 | A covered transaction takes exactly its fee out of circulation if and only if the owner still holds the fee after the execution |
| `VmTransaction.OwnerSpendsItsFee` | internal/actuator/vm.go:126-191 | The failing side is real: a contract that calls itself and endows a new contract with all it has cannot pay its fee, and the burn wraps |
| `VmTransaction.OrdinaryOwnerPays` | internal/actuator/vm.go:126-191 | A condition known before the call, sufficient and not necessary: an owner without code that is not the target always can pay, and keeps everything but fee and call value |
| `VmTransaction.EndowedConservesIff` | internal/actuator/vm.go:141-153 | The unchecked top-level transfer conserves the total if and only if the owner covers the call value or pays itself |
| `VmTransaction.TxCreatorsPresent` | internal/actuator/vm.go:141-168 | Run on the target's own code, a transaction sets nonces of accounts on record only |
| `VmTransaction.UncoveredCallValueMints` | internal/actuator/vm.go:141-153 | An empty account's transaction with call value 5 credits the target with 5 |
| `VmTransaction.NegativeCallValueOverspends` | internal/resource/energy.go:101-109 | An instance of the failing side of BurnFitsIff: a negative call value widens the budget beyond the balance, and the burn wraps |
| `Rewards.EveryCycleSettledOnce` | internal/actuator/reward.go:203-275 | Over any interleaving of votes, clearings, withdrawals and cycle changes, every closed cycle that started with votes is paid exactly once and with those votes, and the account holds exactly the sum of those payments |
| `Rewards.RunOk` | internal/actuator/reward.go:203-275 | The cursor, once-only, right-votes and money invariants hold in every reachable history |
| `Rewards.SecondSettlementIsNoop` | internal/actuator/reward.go:203-225 | A second settlement in the same cycle changes nothing and nothing is due |
| `Rewards.QueryIsSettlement` | internal/actuator/reward.go:280-333 | The query announces exactly the allowance a settlement leaves |
| `Rewards.RewardStore.WithdrawReward` | internal/actuator/reward.go:203-275 | On the stores, settles one account as specified and touches no other; without the gate nothing changes |
| `Rewards.RewardStore.PayPending` | internal/actuator/reward.go:237-254 | The just-closed cycle is paid from its snapshot if the cursor sits exactly one cycle back |
| `Rewards.RewardStore.PayLive` | internal/actuator/reward.go:255-275 | The cycles since are paid with the live votes, and cursors and snapshot move |
| `Rewards.SettledInSteps` | internal/actuator/reward.go:237-275 | The two together are the settlement |
| `Rewards.RewardStore.QueryReward` | internal/actuator/reward.go:280-333 | The read-only loop returns the allowance WithdrawReward would leave |
| `Rewards.RewardStore.VoteWitness` | internal/actuator/vote.go:96-133 | Votes are replaced only behind a settlement, with or without the gate; the pending ballot keeps the votes of the last tally and takes the new ones |
| `Rewards.RewardStore.WithdrawBalance` | internal/actuator/reward.go:388-409 | The whole settled allowance moves into the balance, with or without the gate, and the time is stamped |
| `Rewards.ComputeReward` | internal/actuator/reward.go:116-171 | Old cycles one by one and the index delta after the handover add up to the reward of the span |
| `ViIndex.StepBracket` | internal/state/delegation.go:126-131 | For positive votes: step * votes <= pool * 10^18 < (step + 1) * votes |
| `ViIndex.PayoutsExhaustPools` | internal/actuator/reward.go:137-156 | The other side of PoolsCoverPayouts: when the votes held are those every cycle was closed with, the payouts leave behind at most one sun for each settled stake and the rounding of the steps, one unit at scale a vote |
| `ViIndex.OwedExhaustsPools` | internal/actuator/reward.go:137-156 | Index growth times votes held falls short of the pools by the rounding of the steps only |
| `ViIndex.PaidNearOwed` | internal/actuator/reward.go:137-156 | Settling loses less than one sun a stake |
| `Rewards.VoteRewardBracket` | internal/actuator/reward.go:145-155 | A vote entry earns exactly the whole sun in its index growth times its votes |
| `Rewards.RewardOfOneCycle` | internal/actuator/reward.go:116-157 | A single cycle pays by exactly one of the two rules, told apart by the first cycle of the index |
| `Rewards.IndexRewardAdds` | internal/actuator/reward.go:137-156 | The index pays every vote entry on its own |
| `ViIndex.ViStore.AccumulateWitnessVi` | internal/state/delegation.go:113-131 | With a pool and positive votes the entry grows by a step with step * votes <= pool * 10^18 < (step + 1) * votes. The entry a cycle is left with, whether or not it was closed before: previous index plus floor(pool * 10^18 / votes), carried over when there is nothing to add |
| `ViIndex.ViStore.AccumulateAll` | internal/state/delegation.go:113-131 | Closing fresh cycles one after the other leaves in each the sum of all steps so far, and touches nothing else |
| `ViIndex.PoolsCoverPayouts` | internal/actuator/reward.go:137-156 | On the stored index, over any spans voters settle: if in every cycle the votes held are at most the count it was closed with, the payouts of computeReward never exceed the pools; CandidateCovered shows that they always are |
| `ViIndex.RewardSplit` | internal/actuator/reward.go:116-156 | Settling a span in two parts pays at most the unsplit amount and at most one sun less per vote entry, when the index does not fall between the settlement points |
| `ViIndex.StoredSplit` | internal/actuator/reward.go:116-156 | The same on the stores, with no condition but that the voted candidates' cycles were closed one after the other with counts that are not negative |
| `ViIndex.StoredRising` | internal/state/delegation.go:113-131 | Accumulation makes the stored index rise at every settlement point |
| `ViIndex.IndexIsSum` | internal/state/delegation.go:113-131 | The stored index is the sum of floor(pool * 10^18 / votes) over the cycles closed |
| `ViIndex.OwedWithinPools` | internal/actuator/reward.go:137-156 | Index growth times votes held, summed over all stakes and cycles, stays within the pools, at scale |
| `ViIndex.PaidWithinOwed` | internal/actuator/reward.go:137-156 | Rounding each payout down keeps the sum below that |
| `RewardSolvency.IndexPayoutsCovered` | internal/actuator/reward.go:116-275 | Over every interleaving of casting, clearing, settling, cashing, block rewards, registrations and windows: what all accounts gained is old payouts plus index payouts, and the index payouts to all accounts are at most what was put into the pools of the closed cycles; no premise on the counts but that they start out not negative |
| `RewardSolvency.GainsCovered` | internal/actuator/reward.go:116-275 | With the index on from the first cycle nobody gains from anywhere else |
| `RewardSolvency.CandidateCovered` | internal/actuator/reward.go:137-156 | The same candidate by candidate |
| `RewardSolvency.ActAllOk` | internal/actuator/reward.go:203-275 | The invariant behind it holds in every reachable state: counts cover the votes tallied into them, ballots promise at least the live votes, every cycle is closed with at least the votes held at its start |
| `RewardSolvency.CloseBacked` | internal/node/manager.go:153-187 | The tally turns counts that cover the last tally's votes into counts that cover the live votes, cleared votes included |
| `RewardSolvency.CloseCovered` | internal/node/manager.go:189-211 | So the next cycle starts covered |
| `RewardSolvency.TariffMayMove` | internal/actuator/reward.go:137-156 | Closing a cycle does not change what earlier settlements paid |
| `RewardSolvency.CloseOnStores` | internal/node/manager.go:133-213 | Window.Run on the stores is the closing of a cycle in this model |
| `RewardSolvency.SettleOnStores` | internal/actuator/reward.go:203-275 | WithdrawReward on the stores is its settlement |
| `RewardSolvency.CastOnStores` | internal/actuator/vote.go:96-133 | VoteWitness on the stores is its casting, ballot included |
| `Maintenance.Window.Run` | internal/node/manager.go:133-213 | A cycle's pool is folded over the counts it was reached with, ballots cast during it count from the next one, entries of other cycles do not change; also for a second window in the same cycle |
| `Maintenance.Window.RunAll` | internal/node/manager.go:133-213 | Over any run of windows, with candidates registering in between, every cycle is closed once for every candidate over the count it started with |
| `Maintenance.Window.CloseRound` | internal/node/manager.go:133-213 | The window of one cycle, for registered and unregistered candidates alike |
| `Maintenance.VotesForAdds` | internal/node/manager.go:154-165 | Lists of votes add up, and a vote counts for its candidate alone |
| `Maintenance.Tally` | internal/node/manager.go:154-165 | Each candidate's delta is the sum over all ballots of new minus old votes, in any order |
| `StakeLedger.Ledger.PerformAll` | internal/actuator/stake2.go:111-325 | Over any run of blocks of freezes, unfreezes, withdrawals, delegations and undelegations: books balanced, index edges exactly the live entries, no balance or stake negative, queues at most 32, everyone's balance + frozen + unfreezing + delegated-out constant, and stored weight minus justified weight constant unless it started negative under the floor; no queue entry is lost whose time comes after every block of the run |
| `StakeLedger.UnfreezeStaysLocked` | internal/actuator/stake2.go:207-313 | An amount unfrozen at time t under a delay of d days is still queued, and not in the balance, after any run of blocks before t + d * 86400000 |
| `StakeLedger.MaturedIsPaid` | internal/actuator/stake2.go:264-313 | From its time on, a withdrawal pays a queued amount into the balance and leaves nothing matured behind |
| `StakeLedger.MaturingExact` | internal/actuator/stake2.go:301-313 | The kept list is the subsequence of exactly the entries with expiry after now |
| `StakeLedger.SweptExactly` | internal/actuator/stake2.go:301-313 | Entry by entry: unmatured ones stay as often as they were there, matured ones are gone, and the totals differ by what they held |
| `StakeLedger.WeightBracket` | internal/actuator/stake2.go:69-71 | Weight is the whole millions of sun staked, own and delegated out |
| `StakeLedger.Ledger.FreezeV2` | internal/actuator/stake2.go:111-157 | Refusals in the order of the checks; exact new account; weight moves by the change of the floored account weights |
| `StakeLedger.Ledger.UnfreezeV2` | internal/actuator/stake2.go:173-250 | The amounts of the entries with expiry at or before now are added to the balance, the others stay, one new entry expires delay * 86400000 later, stake and weight reduced, votes cleared, queue at most 32 |
| `StakeLedger.Ledger.WithdrawExpire` | internal/actuator/stake2.go:264-295 | The amounts of exactly the entries with expiry at or before now return to the balance, the others stay in order; no weight moves |
| `StakeLedger.Ledger.DelegateResource` | internal/actuator/stake2_delegate.go:98-191 | Entry, both index directions, giver and receiver change by the amount; wealth and weights do not move |
| `StakeLedger.Ledger.UnDelegateResource` | internal/actuator/stake2_delegate.go:205-284 | The reverse, deleting entry and edges when nothing is left; the receiver always holds the amount |
| `StakeLedger.Ledger.DebitReceiver` | internal/actuator/stake2_delegate.go:249-261 | The clamp for a receiver holding too little never fires |
| `StakeLedger.Ledger.AddWeight` | internal/state/property.go:304-321 | Adds, with the floor at zero only under the new reward rules |
| `StakeLedger.Sweep` | internal/actuator/stake2.go:301-313 | Withdrawn is the sum of the entries with expiry at or before now, kept has every other entry as often as it was there |
| `StakeLedger.AddFrozen` | internal/actuator/stake2.go:47-55 | Adds to one resource's stake and to no other |
| `StakeLedger.MoveBalanced` | internal/actuator/stake2_delegate.go:146-191 | If both ends record a move, delegated-out stays the sum of outgoing and acquired the sum of incoming entries |
| `StakeLedger.MoveNeutral` | internal/actuator/stake2_delegate.go:181-191 | Delegation moves no account weight and nobody's wealth |
| `StakeLedger.DriftKept` | internal/state/property.go:304-321 | The floor never bites while the stored weight is at least what the accounts justify |
| `StakeLedger.DriftKeptIff` | internal/state/property.go:304-321 | A weight change is exact if and only if the floor is off, nothing changed, or the new weight is not negative |
| `StakeLedger.UnfreezeUnderFloor` | internal/state/property.go:304-321 | An unfreeze where the floor bites: a weight one short of the accounts' sum is pulled up to it |
| `StakeLedger.PendingCount` | internal/actuator/stake2.go:317-325 | The loop counts the entries that have not matured |
| `StakeLedger.Ledger.ValidateFreeze` | internal/actuator/stake2.go:111-140 | A freeze is let through exactly when every condition holds, otherwise the refusal names the first that fails |
| `StakeLedger.Ledger.ValidateUnfreeze` | internal/actuator/stake2.go:173-205 | The same for an unfreeze, with the two counting loops |
| `StakeLedger.Ledger.ValidateDelegate` | internal/actuator/stake2_delegate.go:98-144 | The same for a delegation |
| `StakeLedger.Ledger.ValidateUnDelegate` | internal/actuator/stake2_delegate.go:205-233 | The same for an undelegation |
| `DelegatedFreeze.Book.PerformAll` | internal/actuator/freeze.go:218-720 | Over any run of delegated freezes and unfreezes, with the new index layout switched on at any block, the index seen from either end holds exactly the edges that have an entry, books balance and everyone's balance + delegated-out is constant |
| `DelegatedFreeze.Book.FreezeBalance` | internal/actuator/freeze.go:218-424 | Refusals in order; entry, index, receiver, owner and network weight updated exactly; the frozen side expires days * 86400000 from now and the other side keeps its expiry |
| `DelegatedFreeze.Book.UnfreezeBalance` | internal/actuator/freeze.go:496-720 | Refusals including the bandwidth-expiry quirk; the whole side is released, an emptied entry and its edge go away, contracts are passed over under Constantinople, votes are cleared and the network weight moves as the rules in force say |
| `DelegatedFreeze.ReleasedExactly` | internal/actuator/freeze.go:637-703 | The released side is empty and without expiry; the other side and every other entry are as they were |
| `DelegatedFreeze.WeightMoveUndone` | internal/actuator/freeze.go:662-720 | Taking back from a receiver that is told undoes the weight its freeze added, under either rule; one that is passed over costs the flat weight |
| `DelegatedFreeze.Book.ValidateFreeze` | internal/actuator/freeze.go:218-301 | The same for a delegated freeze |
| `DelegatedFreeze.Book.ValidateDelegated` | internal/actuator/freeze.go:496-535 | The same for a delegated unfreeze: energy goes by its own expiry only with multi-signature support, otherwise by the bandwidth expiry |
| `DelegatedFreeze.Book.AddWeight` | internal/state/property.go:304-321 | Adds to one weight, floored under the new rules |
| `DelegatedFreeze.GrantCovered` | internal/actuator/freeze.go:662-690 | A receiver always holds at least what any one entry gave it, so the 0.5.9 shortfall branch is never taken |
| `DelegatedFreeze.MoveAcquired` | internal/actuator/freeze.go:652-690 | Ordinary receivers hold exactly the sum of their incoming entries, contracts at least that |
| `DelegationIndex.ConvertRepresents` | internal/state/delegated.go:208-224 | Migrating an account neither loses an edge nor revives one |
| `DelegationIndex.ConvertedExactly` | internal/state/delegated.go:208-224 | For any index at all: exactly which edges a migration makes visible from each end |
| `DelegationIndex.IndexStore.Convert` | internal/state/delegated.go:208-224 | The two loops and the delete compute the migration, stamps included |
| `DelegationIndex.ConvertedOrder` | internal/state/delegated.go:208-224 | Right after its migration an account's edges are stamped in list order |
| `DelegationIndex.RestampedExactly` | internal/state/delegated.go:208-224 | After the other end migrates too, the edge between the two carries the other end's position, and every other edge its own |
| `DelegationIndex.OrderSurvivesIff` | internal/state/delegated.go:208-224 | So the list order survives the migration of the other end if and only if the two positions agree, or the last one only moves up |
| `DelegationIndex.OrderLostLater` | internal/state/delegated.go:208-224 | An instance where it is lost: the second receiver knows the account as its first giver |
| `DelegationIndex.WithoutAdds` | internal/actuator/freeze.go:155-163 | Removal works position by position, so what stays keeps its order |
| `DelegationIndex.RecordKeeps` | internal/actuator/freeze.go:63-82 | Recording an edge under either layout adds exactly that edge to the represented set |
| `DelegationIndex.DropKeeps` | internal/actuator/freeze.go:85-100 | Dropping an edge under either layout removes exactly that edge, with both ends migrated first |
| `DelegationIndex.IndexStore.RecordDelegationIndex` | internal/actuator/freeze.go:63-82 | The store method does that, and under the new layout stamps the edge with the block time from both ends |
| `DelegationIndex.IndexStore.DropDelegationIndex` | internal/actuator/freeze.go:85-100 | The store method does that |
| `DelegationIndex.IndexStore.AddDelegationIndex` | internal/actuator/freeze.go:104-126 | List form: idempotent per edge, both accounts |
| `DelegationIndex.IndexStore.RemoveDelegationIndex` | internal/actuator/freeze.go:130-144 | List form: every occurrence leaves both lists |
| `DelegationIndex.RemoveAddr` | internal/actuator/freeze.go:155-163 | Keeps the other addresses in order |
| `DelegationIndex.KeysDistinct` | internal/state/delegated.go:111-150 | List records and edge records of both generations never share a database key, for well-formed addresses |
| `VmStateDb.StateDb.ApplyAll` | internal/actuator/vm_statedb.go:94-239 | Every run of reads, writes, snapshots and reverts observes exactly what a flat map with full-copy snapshots shows |
| `VmStateDb.StateDb.Load` | internal/actuator/vm_statedb.go:94-124 | Pulling an account in is unobservable |
| `VmStateDb.StateDb.Find` | internal/actuator/vm_statedb.go:191-212 | Looking a slot up, and caching its absence, is unobservable |
| `VmStateDb.StateDb.RevertToSnapshot` | internal/actuator/vm_statedb.go:233-239 | Shows what was visible at the snapshot although clean entries loaded since are dropped |
| `VmStateDb.StateDb.Flush` | internal/actuator/vm_statedb.go:245-273 | A fresh copy reads the same code and storage everywhere, and the same balance if and only if it is below 2^64; the visiting order does not matter |
| `VmStateDb.FlushReadsBack` | internal/actuator/vm_statedb.go:245-273 | What a fresh copy reads at an address: code kept, balance modulo 2^64, nonce gone, presence kept by balance and code writes |
| `VmStateDb.FlushKeepsRecord` | internal/actuator/vm_statedb.go:245-273 | A flush keeps every account's other fields and makes an account a contract exactly when it was one or is written back with code |
| `VmStateDb.RevertUndoes` | internal/actuator/vm_statedb.go:223-239 | A snapshot, any run that reverts to no earlier one, and a revert to it give back the whole state |
| `VmStateDb.NodeHidesHistory` | internal/actuator/vm_statedb.go:94-124 | What the node knows hides the historical state; an account neither knows is empty and absent |
| `VmStateDb.FlushForgets` | internal/actuator/vm_statedb.go:245-273 | A flush forgets presence exactly for accounts made present by storage writes alone |
| `VmStateDb.StorageAloneForgotten` | internal/actuator/vm_statedb.go:245-273 | A run that shows it: a storage write, a flush, a fresh copy |
| `VmStateDb.MirrorsStep` | internal/actuator/vm_statedb.go:130-220 | Under a write the working copy and the in-memory account map stay the same if and only if it does not set the nonce of an absent account |
| `VmStateDb.MirrorsRun` | internal/actuator/vm_statedb.go:94-239 | Whole runs with snapshots and reverts observe the same on the working copy and on the in-memory account map, if no nonce of an absent account is set |
| `VmStateDb.ApplyMirrored` | internal/actuator/vm_statedb.go:94-239 | The lazy cache itself shows every such run what the account map would |
| `Merkle.Root` | internal/merkle/merkle.go:14-32 | The level loop computes the recursive tree hash that splits at the largest power of two below n (section 2.1 of RFC 6962 without prefixes); nothing for no leaves |
| `Merkle.LevelUpKeepsHash` | internal/merkle/merkle.go:20-30 | One level up does not change the tree hash |
| `Merkle.RootBindsLeaves` | internal/merkle/merkle.go:14-32 | With an injective node hash, equal roots of equally many leaves mean equal leaves |
| `Base58.DecodeEncode` | internal/address/base58.go:19-57 | Decoding an encoding gives the bytes back, leading zeros included |
| `Base58.EncodeDecode` | internal/address/base58.go:19-57 | Encoding a decoded alphabet string gives the string back |
| `Base58.RecodeInverse` | internal/address/base58.go:19-57 | Recoding between any two bases and back is the identity on digit strings |
| `Base58.B58Encode` | internal/address/base58.go:19-39 | Emitting digits, appending the zeros and reversing in place computes the encoding |
| `Base58.B58Decode` | internal/address/base58.go:41-57 | Succeeds exactly on alphabet strings and names the first foreign character otherwise |
| `Base58.Reverse` | internal/address/base58.go:35-37 | The swap loop reverses the buffer |
| `Base58.B58CheckDecode` | internal/address/base58.go:70-83 | A text decodes to a payload if and only if it is that payload's checked encoding |
| `Base58.CheckDecodedIff` | internal/address/base58.go:65-83 | The same as a law of the two functions, for every checksum function |
| `NodeManager.Manager.RevokeBlocks` | internal/node/manager.go:447-451 | Revoking k sessions leaves the replay of the chain without its last k blocks |
| `NodeManager.Manager.ApplyBranch` | internal/node/manager.go:453-465 | Applies a branch ancestor first and stops at the first block whose chain does not replay |
| `NodeManager.MeetSplits` | internal/khaos/khaos.go:137-167 | The branches GetBranch returns are the two chains beyond their longest common prefix |
| `ForkTree.InsertOk` | internal/khaos/khaos.go:76-102 | A correctly numbered new block fits the tree: chains, unique ids and the highest head are kept |
| `Rewards.DueCovers` | internal/actuator/reward.go:237-268 | The spans due in a settlement cover each open cycle that started with votes once, with those votes, and no other |
| `Rewards.SettleCursor` | internal/actuator/reward.go:255-275 | After a settlement the cursor stands at the current or the next cycle, with the snapshot that goes with it |
| `Rewards.RewardStore.AdjustAllowance` | internal/actuator/reward.go:101-110 | Credits positive amounts only |
| `ViIndex.ViStore.AddReward` | internal/state/delegation.go:74-80 | Adds to one pool only |
| `Maintenance.Window.FoldPools` | internal/node/manager.go:140-151 | Phase 1: each candidate's entry is folded over the counts before the tally, whether or not it was folded before |
| `Maintenance.Window.TallyBallots` | internal/node/manager.go:153-187 | Phase 2: each candidate's count moves by the sum of what the ballots moved; the ballots are spent |
| `Maintenance.Window.AdvanceCycle` | internal/node/manager.go:189-211 | Phase 3: the next cycle starts with counts and brokerages snapshotted; other cycles keep theirs |
| `StakeLedger.FrozenAmount` | internal/actuator/stake2.go:35-43 | The loop sums the entries of one resource |
| `Delegations.SumsNonNegative` | internal/actuator/stake2_delegate.go:249-257 | No single entry exceeds the sum of what reaches its receiver |
| `DelegatedFreeze.Book.Delegate` | internal/actuator/freeze.go:385-424 | Entry, index and receiver's side of a delegated freeze, with the receiver's whole-TRX increment |
| `DelegatedFreeze.Book.Release` | internal/actuator/freeze.go:637-703 | Releases one side; an emptied entry goes away together with its index edge |
| `DelegatedFreeze.Book.DebitReceiver` | internal/actuator/freeze.go:660-690 | The receiver is debited exactly, or passed over when it is a contract under Constantinople, with the weight decrease that goes with it |
| `DelegationIndex.IndexStore.Delegate` | internal/state/delegated.go:167-172 | Stamps the edge from both ends |
| `DelegationIndex.IndexStore.UnDelegate` | internal/state/delegated.go:175-180 | Removes the edge from both ends |
| `DelegationIndex.ContainsAddr` | internal/actuator/freeze.go:146-153 | Finds exactly the listed addresses |
| `VmStateDb.StateDb.WriteAccount` | internal/actuator/vm_statedb.go:130-173 | Balance, nonce, code and creation writes change one account of the flat map |
| `VmStateDb.StateDb.WriteSlot` | internal/actuator/vm_statedb.go:214-220 | A storage write changes one slot of the flat map and makes the account present |
| `VmStateDb.StateDb.TakeSnapshot` | internal/actuator/vm_statedb.go:223-230 | The id counts the snapshots outstanding |
| `VmStateDb.FlushReadsSlotBack` | internal/actuator/vm_statedb.go:266-271 | Every slot reads back as it was shown |
| `Merkle.LeavesInOrder` | internal/merkle/merkle.go:14-32 | The tree reads its leaves from left to right: with joining in place of hashing it gives them back in order |
| `Merkle.SmallTrees` | internal/merkle/merkle.go:20-30 | Trees of three and five leaves written out |
| `Merkle.NextLevel` | internal/merkle/merkle.go:21-29 | One pass of the pair loop, the odd node promoted |
| `Merkle.SplitPointUnique` | internal/merkle/merkle.go:20-30 | The split is the one power of two k with k < n <= 2k |
| `Base58.ValueOfFirst` | internal/address/base58.go:19-57 | The first byte is the most significant |
| `Base58.B58CheckEncode` | internal/address/base58.go:65-67 | Encodes payload and checksum |

## Left out

- Word arithmetic, comparisons and bit operations of the virtual machine: one uninterpreted function per instruction; only stack shape, price and control flow are modelled.
- Keccak, SHA-256, address derivation and precompiled contracts: uninterpreted; a precompile answers with an output and a cost, or fails.
- Staking opcodes inside the virtual machine, token calls beyond their arity, and energy refunds, which the code defers too.
- Origin-side energy in contract transactions: the code passes zero, so the split is proved in general and used with zero.
- Old per-cycle rewards, brokerage split and staked-energy limits in floating point: abstract non-negative functions.
- 64-bit width of balances, weights, cycles and nonces outside the casts that matter: integers are unbounded.
- Rewards.ComputeReward: vote counts in accounts are natural numbers; a negative count in stored votes is not modelled.
- Rewards.EveryCycleSettledOnce: the reward gate is on for the whole run and closed index entries do not change, as Maintenance.Window.RunAll proves.
- Rewards.RewardStore.WithdrawBalance: the checks before it (interval, something to withdraw, overflow) are not modelled.
- ForkTree.KhaosDb.Push: a block numbered other than its parent's number plus one is a precondition violation; the code inserts it unchecked and its branches are then not what GetBranch assumes.
- NodeManager.Manager.PushBlock: numbering of pushed blocks is a precondition, because the fork tree never checks it; block identity is value equality, not pointer equality.
- NodeManager.Manager.PushAll: the same, and runs stop being described at the first switch that fails late; what that switch leaves is stated by NodeManager.Manager.BackOut.
- VmTransaction.ExecuteTx: runs on the in-memory account map and leaves out the flush and the write-back of consumed stake. Runs of operations observe the same on the lazy working copy unless they set the nonce of an absent account (VmStateDb.MirrorsRun), which no transaction on its target's own code does (VmTransaction.TxCreatorsPresent); the flush is VmStateDb.StateDb.Flush.
- StakeLedger.Ledger.UnfreezeV2: settling rewards first is modelled in Rewards and not here.
- StakeLedger.Ledger.DelegateResource: locked delegations are refused, as in the code, and never stored.
- DelegatedFreeze.Book.UnfreezeBalance: settling rewards first is modelled in Rewards and not here; unfreezes without a receiver are not modelled.
- RewardSolvency.IndexPayoutsCovered: the index and the cycle are on for the whole run, and old payouts, being floating point, are only added up.
- DelegatedFreeze.Book.FreezeBalance: freezes without a receiver are not modelled; Stake 1.0 weights are exact per operation and drift over runs by design.
- VmStateDb.StateDb.ApplyAll: accounts are values, so the depth of the copies a snapshot takes is not at issue; code hash and size are functions of what is observed.
- Malformed addresses and protobuf decoding: every address is well formed, except where KeysDistinct states the layout.
- Mutexes, storage errors half-way through a flush, the storage engine, genesis loading, replay provisioning, receipts, networking and the RPC layer.
